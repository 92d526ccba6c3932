/** Who owns which slot: the invariant that ties the slot window to the blocks in flight, and how each
    change of the window keeps it (client/BackupEngine.cpp). */
module Ownership {
  import opened Bytes
  import opened Protocol
  import opened Window

  /** Message j of the channel is a block, and this is its index. */
  predicate IsBlock(msgs: seq<Message>, j: int) {
    1 <= j < |msgs| && msgs[j].Data?
  }

  function Idx(msgs: seq<Message>, j: int): u64
    requires IsBlock(msgs, j)
  {
    msgs[j].block.blockIndex
  }

  /** Blocks are sent in increasing order, all below `bound`. */
  ghost predicate Ascending(msgs: seq<Message>, bound: nat) {
    && (forall j :: IsBlock(msgs, j) ==> Idx(msgs, j) < bound)
    && (forall j, k :: IsBlock(msgs, j) && IsBlock(msgs, k) && j < k ==> Idx(msgs, j) < Idx(msgs, k))
  }

  /** The main thread's claim on the window: the slot it holds for an unsent block, if any; whether
      that slot shows the block's index yet; the next block index; and whether it may still acquire. */
  datatype Stance = Stance(holding: bool, slot: nat, filled: bool, bound: nat, looping: bool)

  predicate Holds(st: Stance, t: int) {
    st.holding && st.slot == t
  }

  predicate HeldOk(st: Stance, w: seq<Slot>) {
    st.holding ==>
      && st.slot < |w| && w[st.slot].inUse && (st.bound == 0 ==> st.slot == 0)
      && (st.filled ==> w[st.slot].blockIndex == st.bound)
      && (!st.filled ==> w[st.slot].blockIndex < st.bound || w[st.slot].blockIndex == 0)
  }

  /** A slot in use for a block already sent; every other slot is free or held by the main thread. */
  predicate Active(st: Stance, w: seq<Slot>, t: int) {
    0 <= t < |w| && w[t].inUse && !Holds(st, t)
  }

  predicate Idle(st: Stance, w: seq<Slot>, t: int) {
    0 <= t < |w| && !Active(st, w, t)
  }

  /** Each block sent and not yet released sits in the slot it was sent from. */
  ghost predicate HoldersOk(st: Stance, w: seq<Slot>, msgs: seq<Message>, holders: seq<nat>, freed: int) {
    && |holders| == |msgs|
    && (forall j :: IsBlock(msgs, j) && freed <= j ==>
          Active(st, w, holders[j]) && w[holders[j]].blockIndex == Idx(msgs, j))
  }

  ghost predicate DistinctOk(st: Stance, w: seq<Slot>) {
    forall t, u :: Active(st, w, t) && Active(st, w, u) && t != u ==> w[t].blockIndex != w[u].blockIndex
  }

  ghost predicate IndicesBelow(st: Stance, w: seq<Slot>) {
    && (forall t :: Active(st, w, t) ==> w[t].blockIndex < st.bound)
    && (st.looping ==> forall t :: Idle(st, w, t) && !Holds(st, t) ==> w[t].blockIndex < st.bound || w[t].blockIndex == 0)
  }

  /** A slot free or just acquired shows no outstanding block, unless it still shows its initial 0
      while slot 0 holds block 0. */
  ghost predicate StaleOk(st: Stance, w: seq<Slot>, msgs: seq<Message>, holders: seq<nat>, freed: int)
    requires |holders| == |msgs|
  {
    forall t, j :: Idle(st, w, t) && IsBlock(msgs, j) && freed <= j && w[t].blockIndex == Idx(msgs, j) ==>
      w[t].blockIndex == 0 && t != 0 && holders[j] == 0
  }

  /** `freed` is the position of the first message whose slot has not been released. */
  ghost predicate SlotsOk(n: nat, st: Stance, w: seq<Slot>, msgs: seq<Message>, holders: seq<nat>, freed: int) {
    && |w| == n
    && HeldOk(st, w)
    && HoldersOk(st, w, msgs, holders, freed)
    && DistinctOk(st, w)
    && IndicesBelow(st, w)
    && StaleOk(st, w, msgs, holders, freed)
    && InUseCount(w) == |msgs| - freed + One(st.holding)
  }

  lemma {:induction false} InUseSame(w: seq<Slot>, w': seq<Slot>)
    requires |w| == |w'| && forall t :: 0 <= t < |w| ==> w[t].inUse == w'[t].inUse
    ensures InUseCount(w) == InUseCount(w')
  {
    if w == [] {
    } else {
      InUseSame(w[..|w| - 1], w'[..|w| - 1]);
    }
  }

  lemma WindowReset(n: nat, msgs: seq<Message>, holders: seq<nat>)
    requires |msgs| == |holders| == 1
    ensures SlotsOk(n, Stance(false, 0, false, 0, false), FreshSlots(n), msgs, holders, 1)
    ensures SlotsOk(n, Stance(false, 0, false, 0, true), FreshSlots(n), msgs, holders, 1)
  {
    InUseNone(FreshSlots(n));
  }

  // Each clause survives a change of window and stance under which no slot becomes active that was
  // not, and the slots that stay active keep their index.

  lemma DistinctKept(st: Stance, w: seq<Slot>, st': Stance, w': seq<Slot>)
    requires DistinctOk(st, w)
    requires forall t :: Active(st', w', t) ==> Active(st, w, t) && w'[t].blockIndex == w[t].blockIndex
    ensures DistinctOk(st', w')
  {
  }

  lemma HoldersKept(st: Stance, w: seq<Slot>, st': Stance, w': seq<Slot>, msgs: seq<Message>, holders: seq<nat>, freed: int)
    requires HoldersOk(st, w, msgs, holders, freed)
    requires forall t :: Active(st, w, t) ==> Active(st', w', t) && w'[t].blockIndex == w[t].blockIndex
    ensures HoldersOk(st', w', msgs, holders, freed)
  {
  }

  lemma StaleKept(st: Stance, w: seq<Slot>, st': Stance, w': seq<Slot>, msgs: seq<Message>, holders: seq<nat>, freed: int, h: int)
    requires |holders| == |msgs| && StaleOk(st, w, msgs, holders, freed)
    requires forall t :: Idle(st', w', t) && t != h ==> Idle(st, w, t) && w'[t].blockIndex == w[t].blockIndex
    requires Idle(st', w', h) ==>
               forall j :: IsBlock(msgs, j) && freed <= j ==> Idx(msgs, j) != w'[h].blockIndex
    ensures StaleOk(st', w', msgs, holders, freed)
  {
  }

  /** Acquiring takes a free slot; for block 0 it is slot 0. */
  lemma WindowAcquire(n: nat, b: nat, w: seq<Slot>, msgs: seq<Message>, holders: seq<nat>, freed: int)
    requires SlotsOk(n, Stance(false, 0, false, b, true), w, msgs, holders, freed)
    requires FirstFree(w, 0) < |w|
    ensures var f := FirstFree(w, 0);
            SlotsOk(n, Stance(true, f, false, b, true), w[f := w[f].(inUse := true)], msgs, holders, freed)
  {
    var f := FirstFree(w, 0);
    var st, st', w' := Stance(false, 0, false, b, true), Stance(true, f, false, b, true), w[f := w[f].(inUse := true)];
    InUseUpdate(w, f, w'[f]);
    assert Idle(st, w, f);
    assert f > 0 ==> Active(st, w, 0);
    assert forall t :: Active(st', w', t) <==> Active(st, w, t);
    DistinctKept(st, w, st', w');
    HoldersKept(st, w, st', w', msgs, holders, freed);
    StaleKept(st, w, st', w', msgs, holders, freed, -1);
  }

  /** Writing the index: the held slot now shows a block that is not outstanding. */
  lemma WindowFill(n: nat, i: u64, h: nat, w: seq<Slot>, msgs: seq<Message>, holders: seq<nat>, freed: int)
    requires SlotsOk(n, Stance(true, h, false, i, true), w, msgs, holders, freed) && Ascending(msgs, i)
    ensures SlotsOk(n, Stance(true, h, true, i, true), w[h := w[h].(blockIndex := i)], msgs, holders, freed)
  {
    var st, st', w' := Stance(true, h, false, i, true), Stance(true, h, true, i, true), w[h := w[h].(blockIndex := i)];
    InUseUpdate(w, h, w'[h]);
    assert forall t :: Active(st', w', t) <==> Active(st, w, t);
    DistinctKept(st, w, st', w');
    HoldersKept(st, w, st', w', msgs, holders, freed);
    StaleKept(st, w, st', w', msgs, holders, freed, h);
  }

  /** Freeing the held slot without sending: the block is skipped, or the loop is left. */
  lemma WindowDrop(n: nat, i: u64, skip: bool, h: nat, w: seq<Slot>, msgs: seq<Message>, holders: seq<nat>, freed: int)
    requires SlotsOk(n, Stance(true, h, true, i, true), w, msgs, holders, freed) && Ascending(msgs, i)
    ensures SlotsOk(n, Stance(false, 0, false, i + One(skip), skip), w[h := w[h].(inUse := false, data := [])],
                    msgs, holders, freed)
  {
    var st, st' := Stance(true, h, true, i, true), Stance(false, 0, false, i + One(skip), skip);
    var w' := w[h := w[h].(inUse := false, data := [])];
    InUseUpdate(w, h, w'[h]);
    assert forall t :: Active(st', w', t) <==> Active(st, w, t);
    DistinctKept(st, w, st', w');
    HoldersKept(st, w, st', w', msgs, holders, freed);
    StaleKept(st, w, st', w', msgs, holders, freed, h);
    assert forall t :: Idle(st', w', t) && t != h ==> Idle(st, w, t) && !Holds(st, t);
  }

  /** Steps that leave every slot's use and index alone and do not change who holds what. */
  lemma WindowSame(n: nat, st: Stance, st': Stance, w: seq<Slot>, w': seq<Slot>, msgs: seq<Message>, holders: seq<nat>, freed: int)
    requires SlotsOk(n, st, w, msgs, holders, freed)
    requires |w'| == |w| && forall t :: 0 <= t < |w| ==> w'[t].inUse == w[t].inUse && w'[t].blockIndex == w[t].blockIndex
    requires st' == st || st' == st.(looping := false)
    ensures SlotsOk(n, st', w', msgs, holders, freed)
  {
    InUseSame(w, w');
    assert forall t :: Active(st', w', t) <==> Active(st, w, t);
    assert forall t :: Idle(st', w', t) <==> Idle(st, w, t);
    DistinctKept(st, w, st', w');
    HoldersKept(st, w, st', w', msgs, holders, freed);
    StaleKept(st, w, st', w', msgs, holders, freed, -1);
  }

  /** Sending: the held slot becomes the holder of the new message. */
  lemma WindowSend(n: nat, i: u64, h: nat, w: seq<Slot>, msgs: seq<Message>, holders: seq<nat>, freed: int, msg: Message)
    requires SlotsOk(n, Stance(true, h, true, i, true), w, msgs, holders, freed) && Ascending(msgs, i)
    requires msgs != [] && freed <= |msgs| && msg.Data? && msg.block.blockIndex == i
    ensures SlotsOk(n, Stance(false, 0, false, i + 1, true), w, msgs + [msg], holders + [h], freed)
  {
    var st, st' := Stance(true, h, true, i, true), Stance(false, 0, false, i + 1, true);
    var msgs', holders' := msgs + [msg], holders + [h];
    assert forall t :: Active(st', w, t) <==> Active(st, w, t) || t == h;
    assert forall j :: IsBlock(msgs', j) ==> if j < |msgs| then IsBlock(msgs, j) && Idx(msgs', j) == Idx(msgs, j)
                                             else Idx(msgs', j) == i && holders'[j] == h;
    assert forall t :: Idle(st', w, t) ==> Idle(st, w, t) && !Holds(st, t);
    assert HoldersOk(st', w, msgs', holders', freed);
    assert DistinctOk(st', w);
    assert StaleOk(st', w, msgs', holders', freed);
  }

  /** Releasing the oldest outstanding block finds the slot it was sent from, although a just-acquired
      slot may still show a stale or initial index. */
  lemma ReleaseFindsHolder(n: nat, st: Stance, w: seq<Slot>, msgs: seq<Message>, holders: seq<nat>, j: int, freed: int)
    requires SlotsOk(n, st, w, msgs, holders, freed) && IsBlock(msgs, j) && freed <= j
    ensures FirstShowing(w, Idx(msgs, j), 0) == holders[j] < |w|
  {
    var k, h := Idx(msgs, j), holders[j];
    var t := FirstShowing(w, k, 0);
    assert Active(st, w, h) && Shows(w[h], k);
    assert t != h ==> t < h && (Active(st, w, t) || Idle(st, w, t));
  }

  /** Each block in flight has its one slot. The only other slot that can show its index is the one the
      main thread has just acquired, and then the block is block 0 in slot 0, which the scan meets first. */
  lemma OneOwner(n: nat, st: Stance, w: seq<Slot>, msgs: seq<Message>, holders: seq<nat>, j: int, freed: int, t: nat)
    requires SlotsOk(n, st, w, msgs, holders, freed) && Ascending(msgs, st.bound) && IsBlock(msgs, j) && freed <= j
    requires t < |w| && Shows(w[t], Idx(msgs, j))
    ensures t == holders[j] || (Holds(st, t) && !st.filled && Idx(msgs, j) == 0 == holders[j] < t)
  {
    assert Active(st, w, holders[j]);
    assert Active(st, w, t) || Idle(st, w, t);
  }

  /** ... and frees it and no other. */
  lemma WindowRelease(n: nat, st: Stance, w: seq<Slot>, msgs: seq<Message>, holders: seq<nat>, freed: int, bound: nat)
    requires SlotsOk(n, st, w, msgs, holders, freed) && IsBlock(msgs, freed) && Ascending(msgs, bound)
    ensures FirstShowing(w, Idx(msgs, freed), 0) < |w|
    ensures SlotsOk(n, st, AfterRelease(w, Idx(msgs, freed)), msgs, holders, freed + 1)
  {
    var k, h := Idx(msgs, freed), holders[freed];
    ReleaseFindsHolder(n, st, w, msgs, holders, freed, freed);
    assert Active(st, w, h);
    hide FirstShowing, HoldersOk, DistinctOk, IndicesBelow, StaleOk, HeldOk, Ascending;
    var w' := w[h := Window.Released(w[h])];
    assert AfterRelease(w, k) == w';
    InUseUpdate(w, h, w'[h]);
    ReleaseKeepsHolders(st, w, w', msgs, holders, freed, bound, h);
    ReleaseKeepsOrder(st, w, w', h);
    ReleaseKeepsStale(st, w, w', msgs, holders, freed, bound, h);
  }

  /** Of the other slots nothing changes, and the freed one keeps its index. */
  lemma ReleaseKeepsOrder(st: Stance, w: seq<Slot>, w': seq<Slot>, h: nat)
    requires Active(st, w, h) && w' == w[h := Window.Released(w[h])]
    requires HeldOk(st, w) && DistinctOk(st, w) && IndicesBelow(st, w)
    ensures HeldOk(st, w') && DistinctOk(st, w') && IndicesBelow(st, w')
  {
    assert forall t :: Active(st, w', t) <==> Active(st, w, t) && t != h;
    assert forall t :: Idle(st, w', t) && t != h ==> Idle(st, w, t);
    DistinctKept(st, w, st, w');
  }

  lemma ReleaseKeepsStale(st: Stance, w: seq<Slot>, w': seq<Slot>, msgs: seq<Message>, holders: seq<nat>, freed: int,
                          bound: nat, h: nat)
    requires |holders| == |msgs| && IsBlock(msgs, freed) && Ascending(msgs, bound) && StaleOk(st, w, msgs, holders, freed)
    requires Active(st, w, h) && w[h].blockIndex == Idx(msgs, freed) && w' == w[h := Window.Released(w[h])]
    ensures StaleOk(st, w', msgs, holders, freed + 1)
  {
    assert forall t :: Idle(st, w', t) && t != h ==> Idle(st, w, t);
    StaleKept(st, w, st, w', msgs, holders, freed + 1, h);
  }

  lemma ReleaseKeepsHolders(st: Stance, w: seq<Slot>, w': seq<Slot>, msgs: seq<Message>, holders: seq<nat>, freed: int,
                            bound: nat, h: nat)
    requires HoldersOk(st, w, msgs, holders, freed) && IsBlock(msgs, freed) && Ascending(msgs, bound)
    requires holders[freed] == h < |w| && w' == w[h := Window.Released(w[h])]
    ensures HoldersOk(st, w', msgs, holders, freed + 1)
  {
    forall j | IsBlock(msgs, j) && freed + 1 <= j
      ensures Active(st, w', holders[j]) && w'[holders[j]].blockIndex == Idx(msgs, j)
    {
      assert Idx(msgs, freed) < Idx(msgs, j);
      assert Active(st, w, holders[j]);
      assert holders[j] != h;
    }
  }

  /** At most one slot per block in flight: the window bounds what is outstanding. */
  lemma OutstandingBounded(n: nat, st: Stance, w: seq<Slot>, msgs: seq<Message>, holders: seq<nat>, freed: int)
    requires SlotsOk(n, st, w, msgs, holders, freed)
    ensures |msgs| - freed + One(st.holding) <= n
  {
  }
}
