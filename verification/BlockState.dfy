/** Per-block ACK state and per-version counters, in memory (client/BlockStateManager.cpp). */
module BlockState {
  import opened Bytes
  import opened Protocol

  datatype AckStatus = Pending | Sent | Acknowledged | Rejected | Skipped

  datatype Block = Block(blockIndex: nat, offset: u64, hash: Hash, versionId: nat, ack: AckStatus, changed: bool)
  {
    predicate NeedsUpload() { changed && ack != Acknowledged }
  }

  datatype Version = Version(versionId: nat, versionType: string, totalBlocks: nat, totalSize: nat,
                             changedBlocks: nat, ackedBlocks: nat)

  /** The manager's tables as a value. */
  datatype Tables = Tables(blocks: seq<Block>, versions: map<nat, Version>, nextVersionId: nat, totalBlocks: nat)

  const EMPTY: Tables := Tables([], map[], 0, 0)

  // ---------- what each operation does to the tables ----------

  function Created(t: Tables, versionType: string, totalBlocks: nat, totalSize: nat): Tables {
    var id := t.nextVersionId;
    t.(versions := t.versions[id := Version(id, versionType, totalBlocks, totalSize, 0, 0)], nextVersionId := id + 1)
  }

  /** The block a full backup starts from at position `i`; positions past the manifest get a zero hash. */
  function FullBlock(i: nat, versionId: nat, hashes: seq<Hash>): Block {
    Block(i, (i * BLOCK_SIZE) % TWO_64, if i < |hashes| then hashes[i] else ZeroHash(), versionId, Pending, true)
  }

  function FullBlocks(n: nat, versionId: nat, hashes: seq<Hash>): (bs: seq<Block>)
    ensures |bs| == n
    ensures forall i :: 0 <= i < n ==> bs[i] == FullBlock(i, versionId, hashes)
  {
    if n == 0 then [] else FullBlocks(n - 1, versionId, hashes) + [FullBlock(n - 1, versionId, hashes)]
  }

  function FullInitialized(t: Tables, versionId: nat, n: nat, hashes: seq<Hash>): Tables {
    if versionId !in t.versions then t
    else t.(blocks := FullBlocks(n, versionId, hashes), totalBlocks := n,
            versions := t.versions[versionId := t.versions[versionId].(changedBlocks := n)])
  }

  function HashSet(t: Tables, i: u64, hash: Hash): Tables {
    if i >= |t.blocks| then t else t.(blocks := t.blocks[i := t.blocks[i].(hash := hash)])
  }

  /** Every block set to unchanged and skipped. */
  function AllSkipped(bs: seq<Block>): (r: seq<Block>)
    ensures |r| == |bs|
    ensures forall i :: 0 <= i < |bs| ==> r[i] == bs[i].(changed := false, ack := Skipped)
  {
    if bs == [] then [] else AllSkipped(bs[..|bs| - 1]) + [bs[|bs| - 1].(changed := false, ack := Skipped)]
  }

  /** The listed blocks set to changed and pending, in list order; out-of-range indices are ignored. */
  function MarkChanged(bs: seq<Block>, versionId: nat, indexes: seq<u64>, hashes: seq<Hash>): (r: seq<Block>)
    requires |indexes| == |hashes|
    ensures |r| == |bs|
  {
    if indexes == [] then bs
    else
      var n := |indexes| - 1;
      var r := MarkChanged(bs, versionId, indexes[..n], hashes[..n]);
      if indexes[n] >= |bs| then r
      else r[indexes[n] := r[indexes[n]].(versionId := versionId, hash := hashes[n], ack := Pending, changed := true)]
  }

  function InRange(indexes: seq<u64>, n: nat): nat {
    if indexes == [] then 0
    else InRange(indexes[..|indexes| - 1], n) + if indexes[|indexes| - 1] < n then 1 else 0
  }

  predicate CanUpdate(t: Tables, versionId: nat, indexes: seq<u64>, hashes: seq<Hash>) {
    |indexes| == |hashes| && t.blocks != [] && versionId in t.versions
  }

  function IncrementalUpdated(t: Tables, versionId: nat, indexes: seq<u64>, hashes: seq<Hash>): Tables {
    if !CanUpdate(t, versionId, indexes, hashes) then t
    else t.(blocks := MarkChanged(AllSkipped(t.blocks), versionId, indexes, hashes),
            versions := t.versions[versionId := t.versions[versionId].(
                          changedBlocks := InRange(indexes, |t.blocks|), ackedBlocks := 0)])
  }

  function AckSet(t: Tables, i: u64, status: AckStatus): (r: Tables)
    ensures |r.blocks| == |t.blocks|
  {
    if i >= |t.blocks| then t
    else
      var b := t.blocks[i];
      var blocks := t.blocks[i := b.(ack := status)];
      if b.ack != Acknowledged && status == Acknowledged && b.versionId in t.versions then
        var v := t.versions[b.versionId];
        t.(blocks := blocks, versions := t.versions[b.versionId := v.(ackedBlocks := v.ackedBlocks + 1)])
      else t.(blocks := blocks)
  }

  function AckListSet(t: Tables, indexes: seq<u64>, status: AckStatus): Tables {
    if indexes == [] then t
    else AckSet(AckListSet(t, indexes[..|indexes| - 1], status), indexes[|indexes| - 1], status)
  }

  function AckRangeSet(t: Tables, start: u64, end: u64, status: AckStatus): (r: Tables)
    ensures |r.blocks| == |t.blocks|
  {
    if end <= start then t else AckSet(AckRangeSet(t, start, end - 1, status), end - 1, status)
  }

  /** Where a range of `count` blocks ends: the sum wraps at 64 bits, then is cut to the table. */
  function RangeEnd(start: u64, count: u64, n: nat): nat {
    var sum := (start + count) % TWO_64;
    if sum < n then sum else n
  }

  // ---------- runs ----------

  datatype Op =
    | OpCreate(versionType: string, newBlocks: nat, newSize: nat)
    | OpInitFull(initId: nat, n: nat, initHashes: seq<Hash>)
    | OpSetHash(hashIndex: u64, hash: Hash)
    | OpUpdate(updateId: nat, indexes: seq<u64>, hashes: seq<Hash>)
    | OpSetAck(ackIndex: u64, status: AckStatus)
    | OpSetAckRange(start: u64, count: u64, rangeStatus: AckStatus)
    | OpSetAckList(list: seq<u64>, listStatus: AckStatus)

  function Apply(t: Tables, op: Op): Tables {
    match op
    case OpCreate(ty, n, size) => Created(t, ty, n, size)
    case OpInitFull(v, n, hs) => FullInitialized(t, v, n, hs)
    case OpSetHash(i, h) => HashSet(t, i, h)
    case OpUpdate(v, ids, hs) => IncrementalUpdated(t, v, ids, hs)
    case OpSetAck(i, st) => AckSet(t, i, st)
    case OpSetAckRange(s, c, st) => AckRangeSet(t, s, RangeEnd(s, c, |t.blocks|), st)
    case OpSetAckList(ids, st) => AckListSet(t, ids, st)
  }

  /** The tables after each operation of a run that starts empty. */
  function Run(ops: seq<Op>): Tables {
    if ops == [] then EMPTY else Apply(Run(ops[..|ops| - 1]), ops[|ops| - 1])
  }

  predicate IsAcked(b: Block, v: nat) { b.ack == Acknowledged && b.versionId == v }

  function CountAcked(bs: seq<Block>, v: nat): nat {
    if bs == [] then 0 else CountAcked(bs[..|bs| - 1], v) + One(IsAcked(bs[|bs| - 1], v))
  }

  function CountChanged(bs: seq<Block>): nat {
    if bs == [] then 0 else CountChanged(bs[..|bs| - 1]) + One(bs[|bs| - 1].changed)
  }

  lemma {:induction false} CountAckedUpdate(bs: seq<Block>, v: nat, i: nat, b: Block)
    requires i < |bs|
    ensures CountAcked(bs[i := b], v) == CountAcked(bs, v) - One(IsAcked(bs[i], v)) + One(IsAcked(b, v))
  {
    var n := |bs| - 1;
    if i == n {
      assert bs[i := b][..n] == bs[..n];
    } else {
      CountAckedUpdate(bs[..n], v, i, b);
      assert bs[i := b][..n] == bs[..n][i := b];
    }
  }

  lemma {:induction false} CountChangedUpdate(bs: seq<Block>, i: nat, b: Block)
    requires i < |bs|
    ensures CountChanged(bs[i := b]) == CountChanged(bs) - One(bs[i].changed) + One(b.changed)
  {
    var n := |bs| - 1;
    if i == n {
      assert bs[i := b][..n] == bs[..n];
    } else {
      CountChangedUpdate(bs[..n], i, b);
      assert bs[i := b][..n] == bs[..n][i := b];
    }
  }

  lemma {:induction false} CountAckedZero(bs: seq<Block>, v: nat)
    ensures (forall i :: 0 <= i < |bs| ==> !IsAcked(bs[i], v)) <==> CountAcked(bs, v) == 0
  {
    if bs == [] {
    } else {
      var n := |bs| - 1;
      CountAckedZero(bs[..n], v);
      assert forall i :: 0 <= i < n ==> bs[..n][i] == bs[i];
      if CountAcked(bs, v) == 0 {
        forall i | 0 <= i < |bs| ensures !IsAcked(bs[i], v) {
          assert i < n ==> bs[..n][i] == bs[i];
        }
      }
    }
  }

  /** Position i holds block i at its offset, and every block belongs to a version that exists. */
  predicate Positioned(t: Tables) {
    && |t.blocks| == t.totalBlocks
    && (forall i :: 0 <= i < |t.blocks| ==>
          && t.blocks[i].blockIndex == i
          && t.blocks[i].offset == (i * BLOCK_SIZE) % TWO_64
          && t.blocks[i].versionId in t.versions)
    && (forall v :: v in t.versions ==> v < t.nextVersionId && t.versions[v].versionId == v)
  }

  ghost predicate CountersCover(t: Tables) {
    forall v :: v in t.versions ==> CountAcked(t.blocks, v) <= t.versions[v].ackedBlocks
  }

  ghost predicate Consistent(t: Tables) {
    Positioned(t) && CountersCover(t)
  }

  lemma AckSetKeeps(t: Tables, i: u64, status: AckStatus)
    requires Consistent(t)
    ensures Consistent(AckSet(t, i, status))
    ensures AckSet(t, i, status).versions.Keys == t.versions.Keys
    ensures AckSet(t, i, status).nextVersionId == t.nextVersionId
  {
    if i < |t.blocks| {
      var r := AckSet(t, i, status);
      forall v | v in r.versions ensures CountAcked(r.blocks, v) <= r.versions[v].ackedBlocks {
        CountAckedUpdate(t.blocks, v, i, t.blocks[i].(ack := status));
      }
    }
  }

  lemma {:induction false} AckListSetKeeps(t: Tables, indexes: seq<u64>, status: AckStatus)
    requires Consistent(t)
    ensures Consistent(AckListSet(t, indexes, status))
    ensures AckListSet(t, indexes, status).versions.Keys == t.versions.Keys
    ensures AckListSet(t, indexes, status).nextVersionId == t.nextVersionId
  {
    if indexes == [] {
    } else {
      var n := |indexes| - 1;
      AckListSetKeeps(t, indexes[..n], status);
      AckSetKeeps(AckListSet(t, indexes[..n], status), indexes[n], status);
    }
  }

  lemma {:induction false} AckRangeSetKeeps(t: Tables, start: u64, end: u64, status: AckStatus)
    requires Consistent(t)
    ensures Consistent(AckRangeSet(t, start, end, status))
    ensures AckRangeSet(t, start, end, status).versions.Keys == t.versions.Keys
    ensures AckRangeSet(t, start, end, status).nextVersionId == t.nextVersionId
  {
    if end <= start {
    } else {
      AckRangeSetKeeps(t, start, end - 1, status);
      AckSetKeeps(AckRangeSet(t, start, end - 1, status), end - 1, status);
    }
  }

  lemma {:induction false} MarkChangedShape(bs: seq<Block>, versionId: nat, indexes: seq<u64>, hashes: seq<Hash>)
    requires |indexes| == |hashes|
    ensures var r := MarkChanged(bs, versionId, indexes, hashes);
            forall i :: 0 <= i < |bs| ==>
              && r[i].blockIndex == bs[i].blockIndex && r[i].offset == bs[i].offset
              && if i in indexes then r[i].ack == Pending && r[i].changed && r[i].versionId == versionId
                 else r[i] == bs[i]
  {
    if indexes == [] {
    } else {
      var n := |indexes| - 1;
      MarkChangedShape(bs, versionId, indexes[..n], hashes[..n]);
      assert indexes == indexes[..n] + [indexes[n]];
    }
  }

  lemma UpdateKeeps(t: Tables, versionId: nat, indexes: seq<u64>, hashes: seq<Hash>)
    requires Consistent(t) && CanUpdate(t, versionId, indexes, hashes)
    ensures var r := IncrementalUpdated(t, versionId, indexes, hashes);
            Consistent(r) && forall v :: CountAcked(r.blocks, v) == 0
  {
    var r := IncrementalUpdated(t, versionId, indexes, hashes);
    MarkChangedShape(AllSkipped(t.blocks), versionId, indexes, hashes);
    forall v: nat ensures CountAcked(r.blocks, v) == 0 {
      CountAckedZero(r.blocks, v);
    }
  }

  lemma FullInitKeeps(t: Tables, versionId: nat, n: nat, hashes: seq<Hash>)
    requires Consistent(t)
    ensures var r := FullInitialized(t, versionId, n, hashes);
            Consistent(r) && (versionId in t.versions ==> forall v :: CountAcked(r.blocks, v) == 0)
  {
    var r := FullInitialized(t, versionId, n, hashes);
    if versionId in t.versions {
      forall v: nat ensures CountAcked(r.blocks, v) == 0 {
        CountAckedZero(r.blocks, v);
      }
    }
  }

  lemma CreateKeeps(t: Tables, ty: string, n: nat, size: nat)
    requires Consistent(t)
    ensures Consistent(Created(t, ty, n, size))
  {
    CountAckedZero(t.blocks, t.nextVersionId);
    assert t.nextVersionId !in t.versions;
  }

  lemma HashSetKeeps(t: Tables, i: u64, hash: Hash)
    requires Consistent(t)
    ensures Consistent(HashSet(t, i, hash))
    ensures forall v :: CountAcked(HashSet(t, i, hash).blocks, v) == CountAcked(t.blocks, v)
  {
    if i < |t.blocks| {
      forall v: nat ensures CountAcked(HashSet(t, i, hash).blocks, v) == CountAcked(t.blocks, v) {
        CountAckedUpdate(t.blocks, v, i, t.blocks[i].(hash := hash));
      }
    }
  }

  /** One operation keeps the tables consistent and never drops or reuses a version id. */
  lemma ApplyKeeps(t: Tables, op: Op)
    requires Consistent(t)
    ensures var r := Apply(t, op);
            && Consistent(r)
            && t.versions.Keys <= r.versions.Keys
            && r.nextVersionId == t.nextVersionId + One(op.OpCreate?)
            && (op.OpCreate? ==> t.nextVersionId !in t.versions && t.nextVersionId in r.versions)
  {
    match op
    case OpCreate(ty, n, size) => CreateKeeps(t, ty, n, size);
    case OpInitFull(v, n, hs) => FullInitKeeps(t, v, n, hs);
    case OpSetHash(i, h) => HashSetKeeps(t, i, h);
    case OpUpdate(v, ids, hs) => if CanUpdate(t, v, ids, hs) { UpdateKeeps(t, v, ids, hs); }
    case OpSetAck(i, st) => AckSetKeeps(t, i, st);
    case OpSetAckRange(s, c, st) => AckRangeSetKeeps(t, s, RangeEnd(s, c, |t.blocks|), st);
    case OpSetAckList(ids, st) => AckListSetKeeps(t, ids, st);
  }

  /** Over every run: each version's counter covers its acknowledged blocks, and positions hold. */
  lemma {:induction false} RunIsConsistent(ops: seq<Op>)
    ensures Consistent(Run(ops))
  {
    if ops == [] {
    } else {
      RunIsConsistent(ops[..|ops| - 1]);
      ApplyKeeps(Run(ops[..|ops| - 1]), ops[|ops| - 1]);
    }
  }

  // ---------- the acknowledged counter ----------

  /** Block i of `t` was acknowledged for `v` and is no more in `r`. */
  predicate LeavesAt(t: Tables, r: Tables, v: nat, i: nat)
    requires i < |t.blocks|
  {
    IsAcked(t.blocks[i], v) && !(i < |r.blocks| && IsAcked(r.blocks[i], v))
  }

  /** No block of version `v` stops being acknowledged for `v`. */
  predicate NoneLeaves(t: Tables, r: Tables, v: nat) {
    forall i :: 0 <= i < |t.blocks| ==> !LeavesAt(t, r, v, i)
  }

  /** How many of the first n blocks stop being acknowledged for `v`. */
  function Leaving(t: Tables, r: Tables, v: nat, n: nat): nat
    requires n <= |t.blocks|
  {
    if n == 0 then 0 else Leaving(t, r, v, n - 1) + One(LeavesAt(t, r, v, n - 1))
  }

  function Left(t: Tables, r: Tables, v: nat): nat {
    Leaving(t, r, v, |t.blocks|)
  }

  lemma {:induction false} LeavingNone(t: Tables, r: Tables, v: nat, n: nat)
    requires n <= |t.blocks|
    ensures Leaving(t, r, v, n) == 0 <==> forall i :: 0 <= i < n ==> !LeavesAt(t, r, v, i)
  {
    if n == 0 {
    } else {
      LeavingNone(t, r, v, n - 1);
    }
  }

  predicate Exact(t: Tables, v: nat) {
    v in t.versions && t.versions[v].ackedBlocks == CountAcked(t.blocks, v)
  }

  /** The counter of `v` moves from `t` to `r` with the acknowledged blocks, except that it keeps those
      that leave. */
  predicate Balanced(t: Tables, r: Tables, v: nat)
    requires v in t.versions
  {
    && v in r.versions
    && r.versions[v].ackedBlocks - CountAcked(r.blocks, v) == t.versions[v].ackedBlocks - CountAcked(t.blocks, v) + Left(t, r, v)
  }

  /** When no block enters, the acknowledged blocks drop by those that leave. */
  lemma {:induction false} NoneEnters(t: Tables, r: Tables, v: nat, n: nat)
    requires n <= |t.blocks| == |r.blocks|
    requires forall i :: 0 <= i < n && IsAcked(r.blocks[i], v) ==> IsAcked(t.blocks[i], v)
    ensures CountAcked(r.blocks[..n], v) + Leaving(t, r, v, n) == CountAcked(t.blocks[..n], v)
  {
    if n == 0 {
    } else {
      NoneEnters(t, r, v, n - 1);
      assert t.blocks[..n][..n - 1] == t.blocks[..n - 1] && r.blocks[..n][..n - 1] == r.blocks[..n - 1];
    }
  }

  /** When no block of `v` is left, all that were acknowledged have left. */
  lemma {:induction false} AllLeave(t: Tables, r: Tables, v: nat, n: nat)
    requires n <= |t.blocks| && CountAcked(r.blocks, v) == 0
    ensures Leaving(t, r, v, n) == CountAcked(t.blocks[..n], v)
  {
    if n == 0 {
    } else {
      AllLeave(t, r, v, n - 1);
      CountAckedZero(r.blocks, v);
      assert t.blocks[..n][..n - 1] == t.blocks[..n - 1];
    }
  }

  lemma ClearedBalances(t: Tables, r: Tables, v: nat)
    requires v in t.versions && v in r.versions && r.versions[v].ackedBlocks == t.versions[v].ackedBlocks
    requires CountAcked(r.blocks, v) == 0
    ensures Balanced(t, r, v)
  {
    AllLeave(t, r, v, |t.blocks|);
    assert t.blocks[..|t.blocks|] == t.blocks;
  }

  lemma OnlyLeavingBalances(t: Tables, r: Tables, v: nat)
    requires v in t.versions && v in r.versions && r.versions[v].ackedBlocks == t.versions[v].ackedBlocks
    requires |r.blocks| == |t.blocks|
    requires forall i :: 0 <= i < |t.blocks| && IsAcked(r.blocks[i], v) ==> IsAcked(t.blocks[i], v)
    ensures Balanced(t, r, v)
  {
    NoneEnters(t, r, v, |t.blocks|);
    assert t.blocks[..|t.blocks|] == t.blocks && r.blocks[..|r.blocks|] == r.blocks;
  }

  /** Setting one block to Acknowledged moves counter and count alike. */
  lemma AckSetBalances(t: Tables, i: u64, v: nat)
    requires Consistent(t) && v in t.versions
    ensures Balanced(t, AckSet(t, i, Acknowledged), v)
  {
    var r := AckSet(t, i, Acknowledged);
    LeavingNone(t, r, v, |t.blocks|);
    if i < |t.blocks| {
      CountAckedUpdate(t.blocks, v, i, t.blocks[i].(ack := Acknowledged));
    }
  }

  lemma NoneLeavesBalances(t: Tables, m: Tables, r: Tables, v: nat)
    requires v in t.versions && Balanced(t, m, v) && Balanced(m, r, v)
    requires NoneLeaves(t, m, v) && NoneLeaves(m, r, v) && |t.blocks| == |m.blocks| == |r.blocks|
    ensures Balanced(t, r, v) && NoneLeaves(t, r, v)
  {
    forall i | 0 <= i < |t.blocks| ensures !LeavesAt(t, r, v, i) {
      assert !LeavesAt(t, m, v, i) && !LeavesAt(m, r, v, i);
    }
    LeavingNone(t, m, v, |t.blocks|);
    LeavingNone(m, r, v, |t.blocks|);
    LeavingNone(t, r, v, |t.blocks|);
  }

  lemma {:induction false} AckRangeBalances(t: Tables, start: u64, end: u64, v: nat)
    requires Consistent(t) && v in t.versions
    ensures var r := AckRangeSet(t, start, end, Acknowledged); Balanced(t, r, v) && NoneLeaves(t, r, v)
  {
    hide Consistent, Balanced, AckSet;
    if end <= start {
      NothingBalances(t, v);
    } else {
      var mid := AckRangeSet(t, start, end - 1, Acknowledged);
      AckRangeBalances(t, start, end - 1, v);
      AckRangeSetKeeps(t, start, end - 1, Acknowledged);
      AckSetBalances(mid, end - 1, v);
      AckSetNoneLeaves(mid, end - 1, v);
      NoneLeavesBalances(t, mid, AckSet(mid, end - 1, Acknowledged), v);
    }
  }

  lemma {:induction false} AckListBalances(t: Tables, indexes: seq<u64>, v: nat)
    requires Consistent(t) && v in t.versions
    ensures var r := AckListSet(t, indexes, Acknowledged);
            Balanced(t, r, v) && NoneLeaves(t, r, v) && |r.blocks| == |t.blocks|
  {
    hide Consistent, Balanced, AckSet;
    if indexes == [] {
      NothingBalances(t, v);
    } else {
      var n := |indexes| - 1;
      var mid := AckListSet(t, indexes[..n], Acknowledged);
      AckListBalances(t, indexes[..n], v);
      AckListSetKeeps(t, indexes[..n], Acknowledged);
      AckSetBalances(mid, indexes[n], v);
      AckSetNoneLeaves(mid, indexes[n], v);
      NoneLeavesBalances(t, mid, AckSet(mid, indexes[n], Acknowledged), v);
    }
  }

  lemma NothingBalances(t: Tables, v: nat)
    requires v in t.versions
    ensures Balanced(t, t, v) && NoneLeaves(t, t, v)
  {
    LeavingNone(t, t, v, |t.blocks|);
  }

  lemma AckSetNoneLeaves(t: Tables, i: u64, v: nat)
    ensures NoneLeaves(t, AckSet(t, i, Acknowledged), v)
  {
  }

  /** A range sets the status of its blocks and touches nothing else of any block. */
  lemma {:induction false} AckRangeSetOnly(t: Tables, start: u64, end: u64, status: AckStatus)
    ensures var r := AckRangeSet(t, start, end, status);
            forall i :: 0 <= i < |t.blocks| ==>
              r.blocks[i] == if start <= i < end then t.blocks[i].(ack := status) else t.blocks[i]
  {
    if end <= start {
    } else {
      AckRangeSetOnly(t, start, end - 1, status);
    }
  }

  /** A list sets the status of exactly the blocks it names. */
  lemma {:induction false} AckListSetOnly(t: Tables, indexes: seq<u64>, status: AckStatus)
    ensures var r := AckListSet(t, indexes, status);
            |r.blocks| == |t.blocks| &&
            forall i :: 0 <= i < |t.blocks| ==>
              r.blocks[i] == if i in indexes then t.blocks[i].(ack := status) else t.blocks[i]
  {
    if indexes == [] {
    } else {
      var n := |indexes| - 1;
      AckListSetOnly(t, indexes[..n], status);
      assert indexes == indexes[..n] + [indexes[n]];
    }
  }

  lemma {:induction false} AckRangeCounters(t: Tables, start: u64, end: u64, status: AckStatus)
    requires status != Acknowledged
    ensures AckRangeSet(t, start, end, status).versions == t.versions
  {
    if end <= start {
    } else {
      AckRangeCounters(t, start, end - 1, status);
    }
  }

  lemma {:induction false} AckListCounters(t: Tables, indexes: seq<u64>, status: AckStatus)
    requires status != Acknowledged
    ensures AckListSet(t, indexes, status).versions == t.versions
  {
    if indexes == [] {
    } else {
      AckListCounters(t, indexes[..|indexes| - 1], status);
    }
  }

  /** The operation is an incremental update of version `v`, which zeroes its counter. */
  predicate Resets(t: Tables, op: Op, v: nat) {
    op.OpUpdate? && op.updateId == v && CanUpdate(t, v, op.indexes, op.hashes)
  }

  /** One operation: an update of `v` makes the counter exact; any other keeps the balance. */
  lemma ApplyBalances(t: Tables, op: Op, v: nat)
    requires Consistent(t) && v in t.versions
    ensures if Resets(t, op, v) then Exact(Apply(t, op), v) else Balanced(t, Apply(t, op), v)
  {
    hide Consistent, Balanced, Exact;
    var r := Apply(t, op);
    match op
    case OpCreate(ty, n, size) =>
      CreateFresh(t);
      OnlyLeavingBalances(t, r, v);
    case OpInitFull(w, n, hs) =>
      FullInitKeeps(t, w, n, hs);
      if w in t.versions { ClearedBalances(t, r, v); } else { NothingBalances(t, v); }
    case OpSetHash(i, h) => OnlyLeavingBalances(t, r, v);
    case OpUpdate(w, ids, hs) => UpdateBalances(t, w, ids, hs, v);
    case OpSetAck(i, st) =>
      if st == Acknowledged { AckSetBalances(t, i, v); } else { OnlyLeavingBalances(t, r, v); }
    case OpSetAckRange(s, c, st) => RangeBalances(t, s, RangeEnd(s, c, |t.blocks|), st, v);
    case OpSetAckList(ids, st) => ListBalances(t, ids, st, v);
  }

  lemma UpdateBalances(t: Tables, w: nat, indexes: seq<u64>, hashes: seq<Hash>, v: nat)
    requires Consistent(t) && v in t.versions
    ensures var r := IncrementalUpdated(t, w, indexes, hashes);
            if w == v && CanUpdate(t, v, indexes, hashes) then Exact(r, v) else Balanced(t, r, v)
  {
    hide Balanced;
    if CanUpdate(t, w, indexes, hashes) {
      UpdateKeeps(t, w, indexes, hashes);
      if w != v {
        ClearedBalances(t, IncrementalUpdated(t, w, indexes, hashes), v);
      }
    } else {
      NothingBalances(t, v);
    }
  }

  lemma RangeBalances(t: Tables, start: u64, end: u64, status: AckStatus, v: nat)
    requires Consistent(t) && v in t.versions
    ensures Balanced(t, AckRangeSet(t, start, end, status), v)
  {
    hide Consistent, Balanced;
    if status == Acknowledged {
      AckRangeBalances(t, start, end, v);
    } else {
      AckRangeSetOnly(t, start, end, status);
      AckRangeCounters(t, start, end, status);
      OnlyLeavingBalances(t, AckRangeSet(t, start, end, status), v);
    }
  }

  lemma ListBalances(t: Tables, indexes: seq<u64>, status: AckStatus, v: nat)
    requires Consistent(t) && v in t.versions
    ensures Balanced(t, AckListSet(t, indexes, status), v)
  {
    hide Consistent, Balanced;
    if status == Acknowledged {
      AckListBalances(t, indexes, v);
    } else {
      AckListSetOnly(t, indexes, status);
      AckListCounters(t, indexes, status);
      OnlyLeavingBalances(t, AckListSet(t, indexes, status), v);
    }
  }

  /** Exactness of one step: from an exact counter, the operation leaves it exact if and only if no block
      of `v` leaves Acknowledged or the operation is an incremental update of `v`. */
  lemma ApplyExact(t: Tables, op: Op, v: nat)
    requires Consistent(t) && Exact(t, v)
    ensures Exact(Apply(t, op), v) <==> NoneLeaves(t, Apply(t, op), v) || Resets(t, op, v)
  {
    ApplyBalances(t, op, v);
    LeavingNone(t, Apply(t, op), v, |t.blocks|);
  }

  lemma CreateFresh(t: Tables)
    requires Consistent(t)
    ensures t.nextVersionId !in t.versions
  {
  }

  /** A version just created, in any run, starts exact. */
  lemma FreshIsExact(ops: seq<Op>, ty: string, n: nat, size: nat)
    ensures Exact(Run(ops + [OpCreate(ty, n, size)]), Run(ops).nextVersionId)
  {
    RunIsConsistent(ops);
    assert (ops + [OpCreate(ty, n, size)])[..|ops|] == ops;
    CountAckedZero(Run(ops).blocks, Run(ops).nextVersionId);
  }

  /** Blocks of `v` that left Acknowledged in the operations `ops` of the run `pre + ops`, counted since the
      last incremental update of `v`. */
  function Departed(pre: seq<Op>, ops: seq<Op>, v: nat): nat {
    if ops == [] then 0
    else
      var n := |ops| - 1;
      var t := Run(pre + ops[..n]);
      if Resets(t, ops[n], v) then 0 else Departed(pre, ops[..n], v) + Left(t, Apply(t, ops[n]), v)
  }

  lemma RunStep(pre: seq<Op>, ops: seq<Op>)
    requires ops != []
    ensures var n := |ops| - 1; Run(pre + ops) == Apply(Run(pre + ops[..n]), ops[n])
  {
    var n := |ops| - 1;
    assert (pre + ops)[..|pre + ops| - 1] == pre + ops[..n];
  }

  /** Over any run, the counter of a version whose counter was exact is the number of its acknowledged
      blocks plus those that have left since its last incremental update. */
  lemma {:induction false} CounterIsCountPlusDeparted(pre: seq<Op>, ops: seq<Op>, v: nat)
    requires Exact(Run(pre), v)
    ensures var r := Run(pre + ops);
            v in r.versions && r.versions[v].ackedBlocks == CountAcked(r.blocks, v) + Departed(pre, ops, v)
  {
    if ops == [] {
      assert pre + ops == pre;
    } else {
      var n := |ops| - 1;
      CounterIsCountPlusDeparted(pre, ops[..n], v);
      RunStep(pre, ops);
      RunIsConsistent(pre + ops[..n]);
      hide Consistent, Run, Apply;
      ApplyBalances(Run(pre + ops[..n]), ops[n], v);
    }
  }

  /** In step n of `ops`, after `pre`, a block of `v` leaves Acknowledged. */
  ghost predicate SomeLeavesIn(pre: seq<Op>, ops: seq<Op>, v: nat, n: nat)
    requires n < |ops|
  {
    !NoneLeaves(Run(pre + ops[..n]), Run(pre + ops[..n + 1]), v)
  }

  ghost predicate ResetsIn(pre: seq<Op>, ops: seq<Op>, v: nat, n: nat)
    requires n < |ops|
  {
    Resets(Run(pre + ops[..n]), ops[n], v)
  }

  /** Every departure is made good by an incremental update of `v`, in the same step or later. */
  ghost predicate MadeGood(pre: seq<Op>, ops: seq<Op>, v: nat) {
    forall n :: 0 <= n < |ops| && SomeLeavesIn(pre, ops, v, n) ==> exists m :: n <= m < |ops| && ResetsIn(pre, ops, v, m)
  }

  lemma {:induction false} NoneDeparted(pre: seq<Op>, ops: seq<Op>, v: nat)
    ensures Departed(pre, ops, v) == 0 <==> MadeGood(pre, ops, v)
  {
    if ops == [] {
    } else {
      var n := |ops| - 1;
      NoneDeparted(pre, ops[..n], v);
      RunStep(pre, ops);
      var t := Run(pre + ops[..n]);
      LeavingNone(t, Apply(t, ops[n]), v, |t.blocks|);
      assert ops[..n + 1] == ops;
      assert SomeLeavesIn(pre, ops, v, n) <==> Left(t, Apply(t, ops[n]), v) > 0;
      assert ResetsIn(pre, ops, v, n) <==> Resets(t, ops[n], v);
      MadeGoodStep(pre, ops, v);
    }
  }

  lemma MadeGoodStep(pre: seq<Op>, ops: seq<Op>, v: nat)
    requires ops != []
    ensures var n := |ops| - 1;
            MadeGood(pre, ops, v) <==> ResetsIn(pre, ops, v, n) || (MadeGood(pre, ops[..n], v) && !SomeLeavesIn(pre, ops, v, n))
  {
    hide Run, Resets, NoneLeaves;
    var n := |ops| - 1;
    var init := ops[..n];
    forall k | 0 <= k < n
      ensures SomeLeavesIn(pre, ops, v, k) == SomeLeavesIn(pre, init, v, k) && ResetsIn(pre, ops, v, k) == ResetsIn(pre, init, v, k)
    {
      assert init[..k] == ops[..k] && init[..k + 1] == ops[..k + 1];
    }
  }

  /** Exactness over every run: after a version is created, its AckedBlocks is the number of its
      acknowledged blocks if and only if every time one of them left Acknowledged, an incremental update
      of the version came with it or followed. */
  lemma RunExactly(pre: seq<Op>, ty: string, n: nat, size: nat, ops: seq<Op>)
    ensures var start, v := pre + [OpCreate(ty, n, size)], Run(pre).nextVersionId;
            Exact(Run(start + ops), v) <==> MadeGood(start, ops, v)
  {
    var start, v := pre + [OpCreate(ty, n, size)], Run(pre).nextVersionId;
    FreshIsExact(pre, ty, n, size);
    hide Run;
    CounterIsCountPlusDeparted(start, ops, v);
    NoneDeparted(start, ops, v);
  }

  /** An input on which the counter overcounts: one block acknowledged, rejected and acknowledged again. */
  lemma ReacknowledgedIsCountedTwice()
    ensures var t := Run([OpCreate("FULL", 1, 1), OpInitFull(0, 1, []), OpSetAck(0, Acknowledged),
                          OpSetAck(0, Rejected), OpSetAck(0, Acknowledged)]);
            0 in t.versions && t.versions[0].ackedBlocks == 2 && CountAcked(t.blocks, 0) == 1
  {
    var ops := [OpCreate("FULL", 1, 1), OpInitFull(0, 1, []), OpSetAck(0, Acknowledged),
                OpSetAck(0, Rejected), OpSetAck(0, Acknowledged)];
    var t0 := EMPTY;
    var t2 := Apply(Apply(t0, ops[0]), ops[1]);
    var t3 := Apply(t2, ops[2]);
    var t4 := Apply(t3, ops[3]);
    assert t2.blocks == [FullBlock(0, 0, [])];
    assert Run(ops[..2]) == t2 by {
      assert ops[..2][..1] == ops[..1] && ops[..1][..0] == [];
      assert Run(ops[..1]) == Apply(t0, ops[0]);
    }
    assert Run(ops[..3]) == t3 by { assert ops[..3][..2] == ops[..2]; }
    assert Run(ops[..4]) == t4 by { assert ops[..4][..3] == ops[..3]; }
    assert Run(ops) == Apply(t4, ops[4]);
    assert Run(ops).blocks[..0] == [];
  }

  // ---------- changed counter ----------

  predicate DistinctInRange(indexes: seq<u64>, n: nat) {
    forall i, j :: 0 <= i < j < |indexes| && indexes[i] < n ==> indexes[i] != indexes[j]
  }

  /** Marking counts at least the changed blocks, and counts them exactly when no in-range index repeats. */
  lemma {:induction false} MarkChangedCount(bs: seq<Block>, versionId: nat, indexes: seq<u64>, hashes: seq<Hash>)
    requires |indexes| == |hashes|
    requires forall i :: 0 <= i < |bs| ==> !bs[i].changed
    ensures var r := MarkChanged(bs, versionId, indexes, hashes);
            && CountChanged(r) <= InRange(indexes, |bs|)
            && (CountChanged(r) == InRange(indexes, |bs|) <==> DistinctInRange(indexes, |bs|))
  {
    if indexes == [] {
      NoneChanged(bs);
    } else {
      var n := |indexes| - 1;
      MarkChangedCount(bs, versionId, indexes[..n], hashes[..n]);
      MarkChangedShape(bs, versionId, indexes[..n], hashes[..n]);
      var r := MarkChanged(bs, versionId, indexes[..n], hashes[..n]);
      var k := indexes[n];
      DistinctStep(indexes, |bs|);
      if k < |bs| {
        CountChangedUpdate(r, k, r[k].(versionId := versionId, hash := hashes[n], ack := Pending, changed := true));
        assert r[k].changed <==> k in indexes[..n];
      }
    }
  }

  lemma DistinctStep(indexes: seq<u64>, n: nat)
    requires indexes != []
    ensures var m := |indexes| - 1;
            DistinctInRange(indexes, n)
            <==> DistinctInRange(indexes[..m], n) && (indexes[m] < n ==> indexes[m] !in indexes[..m])
  {
    var m := |indexes| - 1;
    var init := indexes[..m];
    assert forall i :: 0 <= i < m ==> init[i] == indexes[i];
    if DistinctInRange(init, n) && (indexes[m] < n ==> indexes[m] !in init) {
      forall i, j | 0 <= i < j < |indexes| && indexes[i] < n ensures indexes[i] != indexes[j] {
        assert init[i] == indexes[i];
        if j < m { assert init[j] == indexes[j]; }
      }
    }
  }

  lemma {:induction false} NoneChanged(bs: seq<Block>)
    requires forall i :: 0 <= i < |bs| ==> !bs[i].changed
    ensures CountChanged(bs) == 0
  {
    if bs == [] {
    } else {
      NoneChanged(bs[..|bs| - 1]);
    }
  }

  lemma {:induction false} AllChanged(bs: seq<Block>)
    requires forall i :: 0 <= i < |bs| ==> bs[i].changed
    ensures CountChanged(bs) == |bs|
  {
    if bs == [] {
    } else {
      AllChanged(bs[..|bs| - 1]);
    }
  }

  /** After a full initialisation, ChangedBlocks is the number of changed blocks ... */
  lemma FullChangedCounter(t: Tables, versionId: nat, n: nat, hashes: seq<Hash>)
    requires versionId in t.versions
    ensures var r := FullInitialized(t, versionId, n, hashes);
            r.versions[versionId].changedBlocks == CountChanged(r.blocks)
  {
    AllChanged(FullBlocks(n, versionId, hashes));
  }

  /** ... after an incremental update it is, exactly when the in-range indices given are distinct. */
  lemma IncrementalChangedCounter(t: Tables, versionId: nat, indexes: seq<u64>, hashes: seq<Hash>)
    requires CanUpdate(t, versionId, indexes, hashes)
    ensures var r := IncrementalUpdated(t, versionId, indexes, hashes);
            r.versions[versionId].changedBlocks == CountChanged(r.blocks)
            <==> DistinctInRange(indexes, |t.blocks|)
  {
    MarkChangedCount(AllSkipped(t.blocks), versionId, indexes, hashes);
    var r := IncrementalUpdated(t, versionId, indexes, hashes);
    assert r.blocks == MarkChanged(AllSkipped(t.blocks), versionId, indexes, hashes);
    assert r.versions[versionId].changedBlocks == InRange(indexes, |t.blocks|);
  }

  // ---------- what each block becomes ----------

  /** Position n of the list is the last one that names its block. */
  predicate LastListing(indexes: seq<u64>, n: nat)
    requires n < |indexes|
  {
    forall m :: n < m < |indexes| ==> indexes[m] != indexes[n]
  }

  /** The block listed at position n as the update leaves it, when this is its last listing. */
  predicate AsListed(bs: seq<Block>, b: Block, versionId: nat, i: nat, hash: Hash)
    requires i < |bs|
  {
    b == Block(bs[i].blockIndex, bs[i].offset, hash, versionId, Pending, true)
  }

  /** From `bs` to `r`: each listed block has the hash listed with it, the last one if it is listed more
      than once, and is changed and pending for `versionId`; the other blocks are those of `rest`. */
  predicate SetAsListed(bs: seq<Block>, r: seq<Block>, rest: seq<Block>, versionId: nat, indexes: seq<u64>, hashes: seq<Hash>)
    requires |indexes| == |hashes| && |rest| == |bs|
  {
    && |r| == |bs|
    && (forall n :: 0 <= n < |indexes| && indexes[n] < |bs| && LastListing(indexes, n) ==>
          AsListed(bs, r[indexes[n]], versionId, indexes[n], hashes[n]))
    && (forall i :: 0 <= i < |bs| && i !in indexes ==> r[i] == rest[i])
  }

  lemma {:induction false} MarkChangedAsListed(bs: seq<Block>, versionId: nat, indexes: seq<u64>, hashes: seq<Hash>)
    requires |indexes| == |hashes|
    ensures SetAsListed(bs, MarkChanged(bs, versionId, indexes, hashes), bs, versionId, indexes, hashes)
  {
    if indexes == [] {
    } else {
      var m := |indexes| - 1;
      var before := MarkChanged(bs, versionId, indexes[..m], hashes[..m]);
      var r := MarkChanged(bs, versionId, indexes, hashes);
      assert indexes[m] < |bs| ==> r == before[indexes[m] := before[indexes[m]].(
                                     versionId := versionId, hash := hashes[m], ack := Pending, changed := true)];
      MarkChangedAsListed(bs, versionId, indexes[..m], hashes[..m]);
      MarkChangedShape(bs, versionId, indexes[..m], hashes[..m]);
      assert indexes[m] < |bs| ==> AsListed(bs, r[indexes[m]], versionId, indexes[m], hashes[m]);
      hide MarkChanged, AsListed;
      OneMoreListed(bs, before, r, versionId, indexes, hashes);
    }
  }

  lemma OneMoreListed(bs: seq<Block>, before: seq<Block>, r: seq<Block>, versionId: nat, indexes: seq<u64>, hashes: seq<Hash>)
    requires 0 < |indexes| == |hashes|
    requires var m := |indexes| - 1;
             && SetAsListed(bs, before, bs, versionId, indexes[..m], hashes[..m])
             && |r| == |bs|
             && if indexes[m] < |bs| then
                  r == before[indexes[m] := r[indexes[m]]] && AsListed(bs, r[indexes[m]], versionId, indexes[m], hashes[m])
                else r == before
    ensures SetAsListed(bs, r, bs, versionId, indexes, hashes)
  {
    hide AsListed;
    var m := |indexes| - 1;
    var init := indexes[..m];
    assert indexes == init + [indexes[m]];
    forall n | 0 <= n < |indexes| && indexes[n] < |bs| && LastListing(indexes, n)
      ensures AsListed(bs, r[indexes[n]], versionId, indexes[n], hashes[n])
    {
      if n < m {
        assert indexes[m] != indexes[n] && init[n] == indexes[n] && hashes[..m][n] == hashes[n];
        assert LastListing(init, n);
      }
    }
  }

  /** An incremental update: a block listed has the hash of its last listing and is to be uploaded for
      the version; a block not listed keeps its hash and version and is skipped. */
  lemma UpdateSetsAsListed(t: Tables, versionId: nat, indexes: seq<u64>, hashes: seq<Hash>)
    requires CanUpdate(t, versionId, indexes, hashes)
    ensures var r := IncrementalUpdated(t, versionId, indexes, hashes);
            SetAsListed(t.blocks, r.blocks, AllSkipped(t.blocks), versionId, indexes, hashes)
    ensures forall i :: 0 <= i < |t.blocks| && i !in indexes ==>
              var b := IncrementalUpdated(t, versionId, indexes, hashes).blocks[i];
              b.hash == t.blocks[i].hash && b.versionId == t.blocks[i].versionId && b.ack == Skipped && !b.changed
  {
    MarkChangedAsListed(AllSkipped(t.blocks), versionId, indexes, hashes);
  }

  /** Recording a hash changes that block's hash and nothing else. */
  lemma HashSetOnly(t: Tables, i: u64, hash: Hash)
    ensures var r := HashSet(t, i, hash);
            && r == t.(blocks := r.blocks) && |r.blocks| == |t.blocks|
            && forall k :: 0 <= k < |t.blocks| ==>
                 r.blocks[k] == if k == i then t.blocks[k].(hash := hash) else t.blocks[k]
  {
  }

  /** A range sets the status of exactly its blocks, as far as the table goes; a range whose end does
      not fit 64 bits sets nothing. */
  lemma RangeSetsExactly(t: Tables, start: u64, count: u64, status: AckStatus)
    ensures var r := Apply(t, OpSetAckRange(start, count, status));
            && |r.blocks| == |t.blocks|
            && (start + count >= TWO_64 ==> r == t)
            && (start + count < TWO_64 ==>
                  forall k :: 0 <= k < |t.blocks| ==>
                    r.blocks[k] == if start <= k < start + count then t.blocks[k].(ack := status) else t.blocks[k])
  {
    if start + count >= TWO_64 {
      assert (start + count) % TWO_64 == start + count - TWO_64 < start;
    }
    AckRangeSetOnly(t, start, RangeEnd(start, count, |t.blocks|), status);
  }

  // ---------- queries ----------

  /** The blocks still to upload, in order. */
  function Uploads(bs: seq<Block>): seq<Block> {
    if bs == [] then []
    else Uploads(bs[..|bs| - 1]) + if bs[|bs| - 1].NeedsUpload() then [bs[|bs| - 1]] else []
  }

  predicate Settled(b: Block) { b.ack == Acknowledged || b.ack == Skipped }

  /** The manager. Its tables are updated in place. */
  class BlockStateManager {
    var blocks: seq<Block>
    var versions: map<nat, Version>
    var nextVersionId: nat
    var totalBlocks: nat

    ghost function View(): Tables
      reads this
    {
      Tables(blocks, versions, nextVersionId, totalBlocks)
    }

    constructor ()
      ensures View() == EMPTY
    {
      blocks, versions, nextVersionId, totalBlocks := [], map[], 0, 0;
    }

    method CreateVersion(versionType: string, total: nat, totalSize: nat) returns (ver: Version)
      modifies this
      ensures View() == Created(old(View()), versionType, total, totalSize)
      ensures ver == Version(old(nextVersionId), versionType, total, totalSize, 0, 0)
      ensures versions == old(versions)[ver.versionId := ver] && nextVersionId == old(nextVersionId) + 1
    {
      ver := Version(nextVersionId, versionType, total, totalSize, 0, 0);
      nextVersionId := nextVersionId + 1;
      versions := versions[ver.versionId := ver];
    }

    method InitFullBlocks(versionId: nat, total: nat, hashes: seq<Hash>) returns (ok: bool)
      modifies this
      ensures ok == (versionId in old(versions))
      ensures View() == FullInitialized(old(View()), versionId, total, hashes)
      ensures ok ==> |blocks| == total && versions[versionId].changedBlocks == total
      ensures ok ==> forall i :: 0 <= i < total ==>
                blocks[i] == Block(i, (i * BLOCK_SIZE) % TWO_64, if i < |hashes| then hashes[i] else ZeroHash(), versionId, Pending, true)
    {
      if versionId !in versions {
        return false;
      }
      totalBlocks := total;
      blocks := [];
      for i := 0 to total
        invariant blocks == FullBlocks(i, versionId, hashes)
        invariant versions == old(versions) && nextVersionId == old(nextVersionId) && totalBlocks == total
      {
        var hash := if i < |hashes| then hashes[i] else ZeroHash();
        blocks := blocks + [Block(i, (i * BLOCK_SIZE) % TWO_64, hash, versionId, Pending, true)];
      }
      versions := versions[versionId := versions[versionId].(changedBlocks := totalBlocks)];
      ok := true;
    }

    method InitFullBlocksEmpty(versionId: nat, total: nat) returns (ok: bool)
      modifies this
      ensures ok == (versionId in old(versions))
      ensures View() == FullInitialized(old(View()), versionId, total, [])
      ensures ok ==> |blocks| == total && versions[versionId].changedBlocks == total
      ensures ok ==> forall i :: 0 <= i < total ==>
                blocks[i] == Block(i, (i * BLOCK_SIZE) % TWO_64, ZeroHash(), versionId, Pending, true)
    {
      if versionId !in versions {
        return false;
      }
      totalBlocks := total;
      blocks := [];
      for i := 0 to total
        invariant blocks == FullBlocks(i, versionId, [])
        invariant versions == old(versions) && nextVersionId == old(nextVersionId) && totalBlocks == total
      {
        blocks := blocks + [Block(i, (i * BLOCK_SIZE) % TWO_64, ZeroHash(), versionId, Pending, true)];
      }
      versions := versions[versionId := versions[versionId].(changedBlocks := totalBlocks)];
      ok := true;
    }

    method SetBlockHash(i: u64, hash: Hash) returns (ok: bool)
      modifies this
      ensures ok == (i < |old(blocks)|)
      ensures View() == HashSet(old(View()), i, hash)
      ensures ok ==> blocks == old(blocks)[i := old(blocks)[i].(hash := hash)]
    {
      ok := i < |blocks|;
      if ok {
        blocks := blocks[i := blocks[i].(hash := hash)];
      }
    }

    /** Every block becomes unchanged and skipped. */
    method SkipAll()
      modifies `blocks
      ensures blocks == AllSkipped(old(blocks))
    {
      var n := |blocks|;
      for i := 0 to n
        invariant |blocks| == n
        invariant forall j :: 0 <= j < n ==> blocks[j] == if j < i then AllSkipped(old(blocks))[j] else old(blocks)[j]
      {
        blocks := blocks[i := blocks[i].(changed := false, ack := Skipped)];
      }
    }

    method UpdateIncrementalBlocks(versionId: nat, indexes: seq<u64>, hashes: seq<Hash>) returns (ok: bool)
      modifies this
      ensures ok == CanUpdate(old(View()), versionId, indexes, hashes)
      ensures View() == IncrementalUpdated(old(View()), versionId, indexes, hashes)
      ensures ok ==> SetAsListed(old(blocks), blocks, AllSkipped(old(blocks)), versionId, indexes, hashes)
    {
      if |indexes| != |hashes| || blocks == [] || versionId !in versions {
        return false;
      }
      var n := |blocks|;
      SkipAll();
      var changedCount := 0;
      for i := 0 to |indexes|
        invariant |blocks| == n
        invariant blocks == MarkChanged(AllSkipped(old(blocks)), versionId, indexes[..i], hashes[..i])
        invariant changedCount == InRange(indexes[..i], n)
        invariant versions == old(versions) && nextVersionId == old(nextVersionId) && totalBlocks == old(totalBlocks)
      {
        assert indexes[..i + 1][..i] == indexes[..i] && hashes[..i + 1][..i] == hashes[..i];
        var k := indexes[i];
        if k < |blocks| {
          blocks := blocks[k := blocks[k].(versionId := versionId, hash := hashes[i], ack := Pending, changed := true)];
          changedCount := changedCount + 1;
        }
      }
      assert indexes[..|indexes|] == indexes && hashes[..|hashes|] == hashes;
      versions := versions[versionId := versions[versionId].(changedBlocks := changedCount, ackedBlocks := 0)];
      ok := true;
      UpdateSetsAsListed(old(View()), versionId, indexes, hashes);
    }

    method SetBlockAck(i: u64, status: AckStatus) returns (ok: bool)
      modifies this
      ensures ok == (i < |old(blocks)|)
      ensures View() == AckSet(old(View()), i, status)
      ensures ok ==> blocks == old(blocks)[i := old(blocks)[i].(ack := status)]
      ensures versions.Keys == old(versions).Keys
      ensures forall v :: v in versions ==>
                var newly := ok && v == old(blocks)[i].versionId && status == Acknowledged && old(blocks)[i].ack != Acknowledged;
                versions[v] == old(versions)[v].(ackedBlocks := old(versions)[v].ackedBlocks + One(newly))
    {
      if i >= |blocks| {
        return false;
      }
      var oldStatus := blocks[i].ack;
      blocks := blocks[i := blocks[i].(ack := status)];
      if oldStatus != Acknowledged && status == Acknowledged {
        var id := blocks[i].versionId;
        if id in versions {
          versions := versions[id := versions[id].(ackedBlocks := versions[id].ackedBlocks + 1)];
        }
      }
      ok := true;
    }

    method SetBlockAckRange(start: u64, count: u64, status: AckStatus)
      modifies this
      ensures View() == AckRangeSet(old(View()), start, RangeEnd(start, count, |old(blocks)|), status)
    {
      var sum := (start + count) % TWO_64;
      var end := if sum < |blocks| then sum else |blocks|;
      var i := start;
      while i < end
        invariant start <= i && (i <= end || i == start)
        invariant |blocks| == |old(blocks)| && end == RangeEnd(start, count, |blocks|)
        invariant View() == AckRangeSet(old(View()), start, i, status)
      {
        var done := SetBlockAck(i, status);
        i := i + 1;
      }
    }

    method SetBlockAckList(indexes: seq<u64>, status: AckStatus)
      modifies this
      ensures View() == AckListSet(old(View()), indexes, status)
    {
      for k := 0 to |indexes|
        invariant View() == AckListSet(old(View()), indexes[..k], status)
      {
        assert indexes[..k + 1][..k] == indexes[..k];
        var done := SetBlockAck(indexes[k], status);
      }
      assert indexes[..|indexes|] == indexes;
    }

    method GetPendingBlocks() returns (result: seq<Block>)
      ensures result == Uploads(blocks)
    {
      result := [];
      for i := 0 to |blocks|
        invariant result == Uploads(blocks[..i])
      {
        assert blocks[..i + 1][..i] == blocks[..i];
        if blocks[i].NeedsUpload() {
          result := result + [blocks[i]];
        }
      }
      assert blocks[..|blocks|] == blocks;
    }

    /** The length of the settled prefix: every block before it is acknowledged or skipped, and the
        block at it, if there is one, is not. */
    method GetLastAcknowledgedBlock() returns (lastAcked: nat)
      ensures lastAcked <= |blocks|
      ensures forall i :: 0 <= i < lastAcked ==> Settled(blocks[i])
      ensures lastAcked < |blocks| ==> !Settled(blocks[lastAcked])
    {
      lastAcked := 0;
      var i := 0;
      while i < |blocks|
        invariant lastAcked == i <= |blocks|
        invariant forall j :: 0 <= j < i ==> Settled(blocks[j])
      {
        if blocks[i].ack == Acknowledged || blocks[i].ack == Skipped {
          lastAcked := i + 1;
        } else {
          break;
        }
        i := i + 1;
      }
    }
  }

  predicate InBlockOrder(bs: seq<Block>) {
    forall i, j :: 0 <= i < j < |bs| ==> bs[i].blockIndex < bs[j].blockIndex
  }

  lemma OneMoreUpload(u: seq<Block>, init: seq<Block>, b: Block)
    requires InBlockOrder(u) && forall x :: x in u <==> x in init && x.NeedsUpload()
    requires forall x :: x in init ==> x.blockIndex < b.blockIndex
    ensures var r := u + if b.NeedsUpload() then [b] else [];
            InBlockOrder(r) && forall x :: x in r <==> x in init + [b] && x.NeedsUpload()
  {
    forall i | 0 <= i < |u| ensures u[i].blockIndex < b.blockIndex {
      assert u[i] in u;
    }
  }

  /** Of consistent tables, the uploads are exactly the blocks that need one, each once and in
      block order. */
  lemma {:induction false} UploadsExactly(bs: seq<Block>)
    requires forall i :: 0 <= i < |bs| ==> bs[i].blockIndex == i
    ensures forall b :: b in Uploads(bs) <==> b in bs && b.NeedsUpload()
    ensures InBlockOrder(Uploads(bs))
  {
    if bs == [] {
    } else {
      var n := |bs| - 1;
      UploadsExactly(bs[..n]);
      hide InBlockOrder;
      OneMoreUpload(Uploads(bs[..n]), bs[..n], bs[n]);
      assert bs == bs[..n] + [bs[n]];
    }
  }
}
