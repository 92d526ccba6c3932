/** Unallocated space as the complement of the partitions (client/DiskParser.cpp). */
module FreeSpace {
  import opened Bytes

  datatype Range = Range(offset: u64, size: u64)
  datatype Partition = Partition(offset: u64, size: u64)

  predicate InRange(r: Range, p: nat) { r.offset <= p < r.offset + r.size }

  predicate InPartition(t: Partition, p: nat) { t.offset <= p < t.offset + t.size }

  predicate InSome(ranges: seq<Range>, p: nat) {
    exists i :: 0 <= i < |ranges| && InRange(ranges[i], p)
  }

  predicate Allocated(parts: seq<Partition>, p: nat) {
    exists i :: 0 <= i < |parts| && InPartition(parts[i], p)
  }

  /** No partition's end wraps at 64 bits. */
  predicate NoWrap(parts: seq<Partition>) {
    forall i :: 0 <= i < |parts| ==> parts[i].offset + parts[i].size < TWO_64
  }

  predicate SortedByOffset(parts: seq<Partition>) {
    forall i, j :: 0 <= i < j < |parts| ==> parts[i].offset <= parts[j].offset
  }

  function End(t: Partition): u64 { (t.offset + t.size) % TWO_64 }

  /** The scan over partitions in offset order: the position reached and the gaps found so far. */
  datatype Scan = Scan(current: u64, gaps: seq<Range>)

  function Step(s: Scan, t: Partition): Scan {
    Scan(
      if End(t) > s.current then End(t) else s.current,
      if t.offset > s.current then s.gaps + [Range(s.current, t.offset - s.current)] else s.gaps)
  }

  function Scanned(parts: seq<Partition>): Scan {
    if parts == [] then Scan(0, []) else Step(Scanned(parts[..|parts| - 1]), parts[|parts| - 1])
  }

  /** The gap, if any, between `from` and the end of the disk. */
  function Tail(from: u64, diskSize: u64): seq<Range> {
    if diskSize > 0 && from < diskSize then [Range(from, diskSize - from)] else []
  }

  function FreeRanges(parts: seq<Partition>, diskSize: u64): seq<Range> {
    Scanned(parts).gaps + Tail(Scanned(parts).current, diskSize)
  }

  // ---------- sorting ----------

  /** Insertion of `t` behind every partition that does not start after it. */
  function Insert(t: Partition, s: seq<Partition>): (r: seq<Partition>)
    ensures multiset(r) == multiset(s) + multiset{t}
    ensures |r| == |s| + 1
  {
    if s == [] || t.offset < s[0].offset then [t] + s
    else
      assert s == [s[0]] + s[1..];
      [s[0]] + Insert(t, s[1..])
  }

  lemma {:induction false} InsertSorts(t: Partition, s: seq<Partition>)
    requires SortedByOffset(s)
    ensures SortedByOffset(Insert(t, s))
  {
    if s == [] || t.offset < s[0].offset {
    } else {
      var r := Insert(t, s[1..]);
      InsertSorts(t, s[1..]);
      forall x | x in r ensures x.offset >= s[0].offset {
        assert x in multiset(r);
        assert x == t || x in s[1..];
      }
    }
  }

  /** The partitions ordered by offset. The scan does not depend on how ties are ordered. */
  method SortByOffset(parts: seq<Partition>) returns (sorted: seq<Partition>)
    ensures SortedByOffset(sorted) && multiset(sorted) == multiset(parts)
  {
    sorted := [];
    for i := 0 to |parts|
      invariant SortedByOffset(sorted) && multiset(sorted) == multiset(parts[..i])
    {
      InsertSorts(parts[i], sorted);
      sorted := Insert(parts[i], sorted);
      assert parts[..i + 1] == parts[..i] + [parts[i]];
    }
    assert parts[..|parts|] == parts;
  }

  // ---------- the complement ----------

  lemma InSomeAppend(a: seq<Range>, r: Range, p: nat)
    ensures InSome(a + [r], p) <==> InSome(a, p) || InRange(r, p)
  {
    var b := a + [r];
    if InSome(a, p) {
      var i :| 0 <= i < |a| && InRange(a[i], p);
      assert b[i] == a[i];
    }
    assert b[|a|] == r;
  }

  lemma AllocatedLast(parts: seq<Partition>, p: nat)
    requires parts != []
    ensures var n := |parts| - 1;
            Allocated(parts, p) <==> Allocated(parts[..n], p) || InPartition(parts[n], p)
  {
    var n := |parts| - 1;
    if Allocated(parts[..n], p) {
      var i :| 0 <= i < n && InPartition(parts[..n][i], p);
      assert InPartition(parts[i], p);
    }
    if Allocated(parts, p) {
      var i :| 0 <= i < |parts| && InPartition(parts[i], p);
      assert i < n ==> parts[..n][i] == parts[i];
    }
  }

  /** One step of the scan, for a byte `taken` by some partition scanned before. */
  lemma StepComplements(s: Scan, t: Partition, taken: bool, p: nat)
    requires t.offset + t.size < TWO_64
    requires InSome(s.gaps, p) <==> p < s.current && !taken
    requires (taken ==> p < s.current) && (InSome(s.gaps, p) ==> p < t.offset)
    ensures var r, takenNow := Step(s, t), taken || InPartition(t, p);
            && (InSome(r.gaps, p) <==> p < r.current && !takenNow)
            && (takenNow ==> p < r.current) && (InSome(r.gaps, p) ==> p < t.offset)
  {
    hide InSome;
    if t.offset > s.current {
      InSomeAppend(s.gaps, Range(s.current, t.offset - s.current), p);
    }
  }

  /** No partition scanned reaches beyond the current position; below it a byte is in a gap exactly if
      it is in no partition, and beyond it no gap was found. */
  lemma {:induction false} ScanComplements(parts: seq<Partition>, p: nat)
    requires NoWrap(parts) && SortedByOffset(parts)
    ensures InSome(Scanned(parts).gaps, p) <==> p < Scanned(parts).current && !Allocated(parts, p)
    ensures Allocated(parts, p) ==> p < Scanned(parts).current
    ensures InSome(Scanned(parts).gaps, p) ==> parts != [] && p < parts[|parts| - 1].offset
  {
    if parts == [] {
    } else {
      var n := |parts| - 1;
      var s, t := Scanned(parts[..n]), parts[n];
      ScanComplements(parts[..n], p);
      AllocatedLast(parts, p);
      assert n > 0 ==> parts[..n][n - 1].offset <= t.offset;
      hide InSome, Allocated, Step;
      StepComplements(s, t, Allocated(parts[..n], p), p);
    }
  }

  /** The first byte position from which on nothing is reported free. */
  function Horizon(parts: seq<Partition>, diskSize: u64): u64 {
    var reached := Scanned(parts).current;
    if reached > diskSize then reached else diskSize
  }

  /** For partitions whose ends do not wrap: up to the horizon, a byte is in some free range if and only
      if it is in no partition; beyond it there is no free range. */
  lemma FreeIsComplement(parts: seq<Partition>, diskSize: u64, p: nat)
    requires NoWrap(parts) && SortedByOffset(parts)
    ensures InSome(FreeRanges(parts, diskSize), p) <==> p < Horizon(parts, diskSize) && !Allocated(parts, p)
  {
    ScanComplements(parts, p);
    var s := Scanned(parts);
    hide InSome, Allocated;
    if s.current < diskSize {
      InSomeAppend(s.gaps, Range(s.current, diskSize - s.current), p);
    } else {
      assert FreeRanges(parts, diskSize) == s.gaps;
    }
  }

  lemma SameMembers(a: seq<Partition>, b: seq<Partition>)
    requires multiset(a) == multiset(b)
    ensures forall u :: u in b ==> u in a
  {
    forall u | u in b ensures u in a {
      assert u in multiset(a);
    }
  }

  predicate Inside(parts: seq<Partition>, diskSize: u64) {
    forall i :: 0 <= i < |parts| ==> parts[i].offset + parts[i].size <= diskSize
  }

  lemma {:induction false} ReachedInside(parts: seq<Partition>, diskSize: u64)
    requires Inside(parts, diskSize)
    ensures Scanned(parts).current <= diskSize
  {
    if parts == [] {
    } else {
      ReachedInside(parts[..|parts| - 1], diskSize);
    }
  }

  lemma SamePartitions(parts: seq<Partition>, sorted: seq<Partition>, diskSize: u64, p: nat)
    requires multiset(sorted) == multiset(parts)
    ensures Allocated(sorted, p) <==> Allocated(parts, p)
    ensures Inside(sorted, diskSize) <==> Inside(parts, diskSize)
  {
    assert forall t :: t in sorted <==> t in multiset(sorted);
    assert forall t :: t in parts <==> t in multiset(parts);
    assert Allocated(sorted, p) <==> exists t :: t in sorted && InPartition(t, p);
    assert Allocated(parts, p) <==> exists t :: t in parts && InPartition(t, p);
    assert Inside(sorted, diskSize) <==> forall t :: t in sorted ==> t.offset + t.size <= diskSize;
    assert Inside(parts, diskSize) <==> forall t :: t in parts ==> t.offset + t.size <= diskSize;
  }

  /** For partitions inside the disk, in any order, possibly overlapping or empty: a byte of the disk is
      free exactly if no partition holds it, and nothing beyond the disk is free. */
  lemma FreeOnDisk(parts: seq<Partition>, sorted: seq<Partition>, diskSize: u64, p: nat)
    requires Inside(parts, diskSize) && SortedByOffset(sorted) && multiset(sorted) == multiset(parts)
    ensures InSome(FreeRanges(sorted, diskSize), p) <==> p < diskSize && !Allocated(parts, p)
  {
    SamePartitions(parts, sorted, diskSize, p);
    ReachedInside(sorted, diskSize);
    FreeIsComplement(sorted, diskSize, p);
  }

  // ---------- shape ----------

  /** Non-empty, ascending and disjoint. */
  predicate Proper(ranges: seq<Range>) {
    && (forall i :: 0 <= i < |ranges| ==> ranges[i].size > 0)
    && (forall i, j :: 0 <= i < j < |ranges| ==> ranges[i].offset + ranges[i].size <= ranges[j].offset)
  }

  predicate EndBy(ranges: seq<Range>, limit: nat) {
    forall i :: 0 <= i < |ranges| ==> ranges[i].offset + ranges[i].size <= limit
  }

  lemma {:induction false} GapsProper(parts: seq<Partition>)
    requires NoWrap(parts)
    ensures Proper(Scanned(parts).gaps) && EndBy(Scanned(parts).gaps, Scanned(parts).current)
  {
    if parts == [] {
    } else {
      GapsProper(parts[..|parts| - 1]);
    }
  }

  /** The free ranges are non-empty, ascending and disjoint. */
  lemma FreeProper(parts: seq<Partition>, diskSize: u64)
    requires NoWrap(parts)
    ensures Proper(FreeRanges(parts, diskSize))
  {
    GapsProper(parts);
  }

  /** `free` is the exact complement of partitions inside the disk, in proper ranges. */
  ghost predicate IsFreeSpace(parts: seq<Partition>, diskSize: u64, free: seq<Range>) {
    && (NoWrap(parts) ==> Proper(free))
    && (Inside(parts, diskSize) ==> forall p: nat :: InSome(free, p) <==> p < diskSize && !Allocated(parts, p))
  }

  lemma FreeMeetsContract(parts: seq<Partition>, sorted: seq<Partition>, diskSize: u64)
    requires SortedByOffset(sorted) && multiset(sorted) == multiset(parts)
    ensures IsFreeSpace(parts, diskSize, FreeRanges(sorted, diskSize))
  {
    var free := FreeRanges(sorted, diskSize);
    if NoWrap(parts) {
      SameMembers(parts, sorted);
      assert NoWrap(sorted) by {
        forall i | 0 <= i < |sorted| ensures sorted[i].offset + sorted[i].size < TWO_64 {
          assert sorted[i] in sorted;
        }
      }
      FreeProper(sorted, diskSize);
    }
    if Inside(parts, diskSize) {
      forall p: nat ensures InSome(free, p) <==> p < diskSize && !Allocated(parts, p) {
        FreeOnDisk(parts, sorted, diskSize, p);
      }
    }
  }

  // ---------- the method ----------

  lemma ScannedNext(parts: seq<Partition>, i: nat)
    requires i < |parts|
    ensures Scanned(parts[..i + 1]) == Step(Scanned(parts[..i]), parts[i])
  {
    assert parts[..i + 1][..i] == parts[..i];
  }

  /** `free` is what the scan finds over some arrangement of the partitions in offset order. */
  ghost predicate IsScanResult(parts: seq<Partition>, diskSize: u64, free: seq<Range>) {
    exists sorted :: SortedByOffset(sorted) && multiset(sorted) == multiset(parts) && free == FreeRanges(sorted, diskSize)
  }

  lemma ScanEnds(parts: seq<Partition>, sorted: seq<Partition>, diskSize: u64, scan: Scan, free: seq<Range>)
    requires SortedByOffset(sorted) && multiset(sorted) == multiset(parts) && scan == Scanned(sorted)
    requires free == if diskSize > 0 && scan.current < diskSize
                     then scan.gaps + [Range(scan.current, diskSize - scan.current)] else scan.gaps
    ensures IsScanResult(parts, diskSize, free) && IsFreeSpace(parts, diskSize, free)
  {
    FreeMeetsContract(parts, sorted, diskSize);
    hide IsFreeSpace, Scanned, SortedByOffset;
    assert free == FreeRanges(sorted, diskSize);
  }

  /** The scan over partitions in offset order. */
  method ScanInOrder(sorted: seq<Partition>) returns (current: u64, free: seq<Range>)
    ensures Scan(current, free) == Scanned(sorted)
  {
    current, free := 0, [];
    assert Scanned(sorted[..0]) == Scan(0, []);
    hide Scanned;
    for i := 0 to |sorted|
      invariant Scan(current, free) == Scanned(sorted[..i])
    {
      ScannedNext(sorted, i);
      ghost var before := Scan(current, free);
      var t := sorted[i];
      if t.offset > current {
        free := free + [Range(current, t.offset - current)];
      }
      var partitionEnd := (t.offset + t.size) % TWO_64;
      if partitionEnd > current {
        current := partitionEnd;
      }
      assert Scan(current, free) == Step(before, t);
    }
    assert sorted[..|sorted|] == sorted;
  }

  /** A disk with no partition is free as a whole; otherwise the gaps in offset order and the space after
      the last end. For partitions inside the disk the result is the exact complement, in non-empty
      ascending disjoint ranges. */
  method CalculateFreeSpace(parts: seq<Partition>, diskSize: u64) returns (free: seq<Range>)
    ensures IsScanResult(parts, diskSize, free)
    ensures IsFreeSpace(parts, diskSize, free)
  {
    hide IsScanResult, IsFreeSpace;
    if parts == [] {
      free := if diskSize > 0 then [Range(0, diskSize)] else [];
      ScanEnds(parts, [], diskSize, Scan(0, []), free);
      return;
    }
    var sorted := SortByOffset(parts);
    var current, gaps := ScanInOrder(sorted);
    free := if diskSize > 0 && current < diskSize then gaps + [Range(current, diskSize - current)] else gaps;
    ScanEnds(parts, sorted, diskSize, Scan(current, gaps), free);
  }

  // ---------- independence of the input order ----------

  lemma ScannedAppend(parts: seq<Partition>, t: Partition)
    ensures Scanned(parts + [t]) == Step(Scanned(parts), t)
  {
    assert (parts + [t])[..|parts|] == parts;
  }

  /** Two partitions that start together may be scanned in either order. */
  lemma TiesCommute(s: Scan, t: Partition, u: Partition)
    requires t.offset == u.offset && t.offset + t.size < TWO_64 && u.offset + u.size < TWO_64
    ensures Step(Step(s, t), u) == Step(Step(s, u), t)
  {
  }

  lemma {:induction false} TieMovesToEnd(front: seq<Partition>, t: Partition, ties: seq<Partition>)
    requires NoWrap([t]) && NoWrap(ties) && forall u :: u in ties ==> u.offset == t.offset
    ensures Scanned(front + [t] + ties) == Scanned(front + ties + [t])
  {
    if ties == [] {
      assert front + [t] + ties == front + ties + [t];
    } else {
      var n := |ties| - 1;
      var u := ties[n];
      assert t == [t][0];
      TieMovesToEnd(front, t, ties[..n]);
      assert front + [t] + ties == (front + [t] + ties[..n]) + [u];
      assert front + ties == (front + ties[..n]) + [u];
      ScannedAppend(front + [t] + ties[..n], u);
      ScannedAppend(front + ties[..n], t);
      ScannedAppend(front + ties[..n], u);
      ScannedAppend(front + ties, t);
      TiesCommute(Scanned(front + ties[..n]), t, u);
    }
  }

  lemma WithoutLast(a: seq<Partition>, b: seq<Partition>, j: nat)
    requires multiset(a) == multiset(b) && a != [] && j < |b| && b[j] == a[|a| - 1]
    ensures multiset(b[..j] + b[j + 1..]) == multiset(a[..|a| - 1])
  {
    assert a == a[..|a| - 1] + [b[j]];
    assert b == b[..j] + [b[j]] + b[j + 1..];
    var rest, last := multiset(b[..j] + b[j + 1..]), multiset(a[..|a| - 1]);
    assert rest + multiset{b[j]} == multiset(b) == last + multiset{b[j]};
    assert rest == (rest + multiset{b[j]}) - multiset{b[j]};
    assert last == (last + multiset{b[j]}) - multiset{b[j]};
  }

  lemma LastMovesToEnd(a: seq<Partition>, b: seq<Partition>, j: nat)
    requires SortedByOffset(a) && SortedByOffset(b) && multiset(a) == multiset(b) && NoWrap(a)
    requires a != [] && j < |b| && b[j] == a[|a| - 1]
    ensures var rest := b[..j] + b[j + 1..];
            && multiset(rest) == multiset(a[..|a| - 1]) && SortedByOffset(rest)
            && Scanned(b) == Step(Scanned(rest), b[j])
  {
    WithoutLast(a, b, j);
    SameMembers(a, b);
    var front, ties := b[..j], b[j + 1..];
    assert b == front + [b[j]] + ties;
    forall u | u in ties ensures u.offset == b[j].offset && u.offset + u.size < TWO_64 {
      assert u in b;
      var i :| 0 <= i < |a| && a[i] == u;
    }
    TieMovesToEnd(front, b[j], ties);
    ScannedAppend(front + ties, b[j]);
  }

  /** Every sorted arrangement of the same partitions scans alike, so the free ranges do not depend on
      the order the partitions were given in, nor on how the sort orders those that start together. */
  lemma {:induction false} OrderIrrelevant(a: seq<Partition>, b: seq<Partition>)
    requires SortedByOffset(a) && SortedByOffset(b) && multiset(a) == multiset(b) && NoWrap(a)
    ensures Scanned(a) == Scanned(b)
    ensures forall diskSize: u64 :: FreeRanges(a, diskSize) == FreeRanges(b, diskSize)
    decreases |a|
  {
    assert |a| == |multiset(a)| == |b|;
    if a == [] {
    } else {
      var n := |a| - 1;
      var t := a[n];
      assert t in multiset(b);
      var j :| 0 <= j < |b| && b[j] == t;
      var rest := b[..j] + b[j + 1..];
      LastMovesToEnd(a, b, j);
      OrderIrrelevant(a[..n], rest);
    }
  }
}
