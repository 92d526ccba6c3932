/** The slot window of the pipeline: acquisition takes the lowest free slot, release frees the
    first in-use slot that shows a given block (client/BackupEngine.cpp, client/BackupEngine.h). */
module Window {
  import opened Bytes
  import opened Protocol

  datatype Slot = Slot(inUse: bool, blockIndex: u64, data: seq<byte>, compressed: seq<byte>, hash: Hash)

  function EmptySlot(): Slot {
    Slot(false, 0, [], [], ZeroHash())
  }

  function FreshSlots(n: nat): (w: seq<Slot>)
    ensures |w| == n
    ensures forall i :: 0 <= i < n ==> w[i] == EmptySlot()
  {
    if n == 0 then [] else FreshSlots(n - 1) + [EmptySlot()]
  }

  /** The lowest free slot at or after `from`; the window's size if there is none. */
  function FirstFree(w: seq<Slot>, from: nat): (i: nat)
    requires from <= |w|
    ensures from <= i <= |w|
    ensures forall j :: from <= j < i ==> w[j].inUse
    ensures i < |w| ==> !w[i].inUse
    decreases |w| - from
  {
    if from == |w| || !w[from].inUse then from else FirstFree(w, from + 1)
  }

  predicate Shows(s: Slot, k: u64) {
    s.inUse && s.blockIndex == k
  }

  /** The first in-use slot at or after `from` that shows block `k`; the window's size if there is none. */
  function FirstShowing(w: seq<Slot>, k: u64, from: nat): (i: nat)
    requires from <= |w|
    ensures from <= i <= |w|
    ensures forall j :: from <= j < i ==> !Shows(w[j], k)
    ensures i < |w| ==> Shows(w[i], k)
    decreases |w| - from
  {
    if from == |w| || Shows(w[from], k) then from else FirstShowing(w, k, from + 1)
  }

  function Released(s: Slot): Slot {
    s.(inUse := false, data := [], compressed := [])
  }

  /** The window after releasing block `k`. */
  function AfterRelease(w: seq<Slot>, k: u64): (r: seq<Slot>)
    ensures |r| == |w|
  {
    var i := FirstShowing(w, k, 0);
    if i == |w| then w else w[i := Released(w[i])]
  }

  function InUseCount(w: seq<Slot>): (n: nat)
    ensures n <= |w|
  {
    if w == [] then 0 else InUseCount(w[..|w| - 1]) + One(w[|w| - 1].inUse)
  }

  lemma {:induction false} InUseUpdate(w: seq<Slot>, i: nat, s: Slot)
    requires i < |w|
    ensures InUseCount(w[i := s]) == InUseCount(w) - One(w[i].inUse) + One(s.inUse)
  {
    var n := |w| - 1;
    if i == n {
      assert w[i := s][..n] == w[..n];
    } else {
      InUseUpdate(w[..n], i, s);
      assert w[i := s][..n] == w[..n][i := s];
    }
  }

  lemma {:induction false} InUseNone(w: seq<Slot>)
    requires forall i :: 0 <= i < |w| ==> !w[i].inUse
    ensures InUseCount(w) == 0
  {
    if w == [] {
    } else {
      InUseNone(w[..|w| - 1]);
    }
  }

  /** The window and the counters the two client threads share. */
  class PipelineWindow {
    var slots: array<Slot>
    var inFlightCount: int
    var ackedCount: nat
    var failedCount: nat
    var pipelineError: bool

    constructor (windowSize: nat)
      ensures fresh(slots)
      ensures slots[..] == FreshSlots(windowSize)
      ensures inFlightCount == 0 && ackedCount == 0 && failedCount == 0 && !pipelineError
    {
      slots := new Slot[windowSize](i => EmptySlot());
      inFlightCount, ackedCount, failedCount, pipelineError := 0, 0, 0, false;
    }

    method ResetPipelineWindow(windowSize: nat)
      modifies this
      ensures fresh(slots)
      ensures slots[..] == FreshSlots(windowSize)
      ensures inFlightCount == 0 && ackedCount == 0 && failedCount == 0 && !pipelineError
    {
      slots := new Slot[windowSize](i => EmptySlot());
      inFlightCount, ackedCount, failedCount, pipelineError := 0, 0, 0, false;
    }

    /** The wait has ended: on an error, on a free slot, or at the timeout. */
    method AcquireSlot() returns (idx: int)
      modifies slots
      ensures idx == -1 <==> pipelineError || FirstFree(old(slots[..]), 0) == slots.Length
      ensures idx == -1 ==> slots[..] == old(slots[..])
      ensures idx != -1 ==> idx == FirstFree(old(slots[..]), 0)
                            && slots[..] == old(slots[..])[idx := old(slots[idx]).(inUse := true)]
    {
      if pipelineError {
        return -1;
      }
      for i := 0 to slots.Length
        invariant slots[..] == old(slots[..])
        invariant FirstFree(slots[..], 0) == FirstFree(slots[..], i)
      {
        if !slots[i].inUse {
          slots[i] := slots[i].(inUse := true);
          return i;
        }
      }
      idx := -1;
    }

    method ReleaseSlot(blockIndex: u64) returns (found: bool)
      modifies slots
      ensures found == (FirstShowing(old(slots[..]), blockIndex, 0) < slots.Length)
      ensures slots[..] == AfterRelease(old(slots[..]), blockIndex)
    {
      for i := 0 to slots.Length
        invariant slots[..] == old(slots[..])
        invariant FirstShowing(slots[..], blockIndex, 0) == FirstShowing(slots[..], blockIndex, i)
      {
        if slots[i].inUse && slots[i].blockIndex == blockIndex {
          slots[i] := slots[i].(inUse := false, data := [], compressed := []);
          return true;
        }
      }
      found := false;
    }
  }
}
