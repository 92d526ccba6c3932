/** The driver's changed-block bitmap (go2cbt/go2cbt.h, go2cbt/bitmap.c, go2cbt/ioctl.c). */
module Bitmap {
  import opened Bytes

  const CBT_BLOCK: nat := 1048576

  /** The blocks of the longest partition: its length is a signed 64-bit number. */
  const MAX_BLOCKS: nat := 0x800_0000_0000

  datatype Status = Success | InvalidParameter | InsufficientResources | InvalidDeviceState

  /** Bits `start` up to, not including, `start + count` set. */
  function SetBits(bits: seq<bool>, start: nat, count: nat): (r: seq<bool>)
    requires start + count <= |bits|
    ensures |r| == |bits|
    ensures forall b :: 0 <= b < |bits| ==> (r[b] <==> bits[b] || start <= b < start + count)
  {
    seq(|bits|, b requires 0 <= b < |bits| => bits[b] || start <= b < start + count)
  }

  function Cleared(bits: seq<bool>): (r: seq<bool>)
    ensures |r| == |bits| && forall b :: 0 <= b < |r| ==> !r[b]
  {
    seq(|bits|, b => false)
  }

  // ---------- what one write marks ----------

  /** The block of a write's last byte, in wrapping 64-bit arithmetic, clipped to the disk. */
  function EndBlock(totalBits: u64, offset: u64, length: u32): u64
    requires totalBits > 0
  {
    var end := (offset + length - 1) % TWO_64 / CBT_BLOCK;
    if end >= totalBits then totalBits - 1 else end
  }

  /** A write at `offset` of `length` bytes marks block `b`. */
  predicate Marks(totalBits: u64, offset: u64, length: u32, b: nat) {
    && totalBits > 0
    && offset < totalBits * CBT_BLOCK % TWO_64
    && offset / CBT_BLOCK <= b <= EndBlock(totalBits, offset, length)
  }

  /** Some byte of the write lies in block `b`. */
  predicate Touches(offset: u64, length: u32, b: nat) {
    exists p: nat :: offset <= p < offset + length && p / CBT_BLOCK == b
  }

  lemma TouchesByBounds(offset: u64, length: u32, b: nat)
    ensures Touches(offset, length, b) <==> length > 0 && offset / CBT_BLOCK <= b <= (offset + length - 1) / CBT_BLOCK
  {
    if length > 0 && offset / CBT_BLOCK <= b <= (offset + length - 1) / CBT_BLOCK {
      var p := if b == offset / CBT_BLOCK then offset else b * CBT_BLOCK;
      assert offset <= p < offset + length && p / CBT_BLOCK == b;
    }
  }

  /** A non-empty write marks exactly the blocks of the disk it touches. */
  lemma NonEmptyMarksExactly(totalBits: u64, offset: u64, length: u32, b: nat)
    requires totalBits <= MAX_BLOCKS && length >= 1
    ensures Marks(totalBits, offset, length, b) <==> b < totalBits && Touches(offset, length, b)
  {
    TouchesByBounds(offset, length, b);
    if totalBits > 0 && offset < totalBits * CBT_BLOCK {
      assert (offset + length - 1) % TWO_64 == offset + length - 1;
      assert offset / CBT_BLOCK < totalBits;
    } else if totalBits > 0 {
      assert totalBits <= offset / CBT_BLOCK;
    }
  }

  /** A zero-length write touches nothing, yet it marks the whole disk when it is at offset 0, its start
      block when it starts inside one, and nothing when it starts on any other block boundary. */
  lemma EmptyMarksExactly(totalBits: u64, offset: u64, b: nat)
    requires totalBits <= MAX_BLOCKS
    ensures Marks(totalBits, offset, 0, b) <==>
              b < totalBits && (offset == 0 || (offset % CBT_BLOCK != 0 && b == offset / CBT_BLOCK))
  {
    if 0 < offset < totalBits * CBT_BLOCK {
      assert (offset - 1) % TWO_64 == offset - 1;
      var q, r := offset / CBT_BLOCK, offset % CBT_BLOCK;
      assert offset == q * CBT_BLOCK + r;
      assert (offset - 1) / CBT_BLOCK == if r == 0 then q - 1 else q;
    }
  }

  /** The first block and the block count are handed over as 32-bit values. They survive for every write
      exactly when the disk has fewer than 2^32 blocks. */
  lemma CastsAreExact(totalBits: u64)
    requires totalBits > 0 && totalBits * CBT_BLOCK < TWO_64
    ensures (forall offset: u64, length: u32 | Marks(totalBits, offset, length, offset / CBT_BLOCK) ::
               offset / CBT_BLOCK < TWO_32 && EndBlock(totalBits, offset, length) - offset / CBT_BLOCK + 1 < TWO_32)
            <==> totalBits < TWO_32
  {
    if totalBits >= TWO_32 {
      assert Marks(totalBits, 0, 0, 0 / CBT_BLOCK);
      assert EndBlock(totalBits, 0, 0) == totalBits - 1;
    }
  }

  // ---------- the state ----------

  /** The bitmap after one write has been marked. */
  function Marked(totalBits: u64, bits: seq<bool>, offset: u64, length: u32): (r: seq<bool>)
    requires |bits| == totalBits
    ensures |r| == totalBits
    ensures forall b :: 0 <= b < totalBits ==> (r[b] <==> bits[b] || Marks(totalBits, offset, length, b))
  {
    seq(totalBits, b requires 0 <= b < totalBits => bits[b] || Marks(totalBits, offset, length, b))
  }

  lemma MarkedIsSpan(totalBits: u64, bits: seq<bool>, offset: u64, length: u32)
    requires |bits| == totalBits
    ensures var start := offset / CBT_BLOCK;
            Marked(totalBits, bits, offset, length) ==
              if totalBits == 0 || offset >= totalBits * CBT_BLOCK % TWO_64 || start > EndBlock(totalBits, offset, length) then bits
              else SetBits(bits, start, EndBlock(totalBits, offset, length) - start + 1)
  {
  }

  function Cast32(n: nat): u32 { n % TWO_32 }

  lemma CastKeeps(totalBits: nat)
    requires totalBits < TWO_32
    ensures forall n: nat :: n <= totalBits ==> Cast32(n) == n
  {
  }

  class CbtState {
    var hasBuffer: bool
    var bits: seq<bool>
    var totalBits: u64

    predicate Valid()
      reads this
    {
      && |bits| == totalBits % TWO_32 && totalBits <= MAX_BLOCKS
      && (!hasBuffer ==> totalBits == 0)
    }

    constructor ()
      ensures Valid() && !hasBuffer && bits == []
    {
      hasBuffer, bits, totalBits := false, [], 0;
    }

    /** Sizes and clears the bitmap, whose own size is a 32-bit number; `memory` says whether the
        allocation succeeds. */
    method InitCbtState(diskSize: u64, memory: bool) returns (status: Status)
      requires diskSize <= MAX_BLOCKS * CBT_BLOCK
      requires Valid() && !hasBuffer
      modifies this
      ensures Valid()
      ensures status == if diskSize == 0 then InvalidParameter else if memory then Success else InsufficientResources
      ensures hasBuffer <==> status == Success
      ensures hasBuffer ==> (totalBits - 1) * CBT_BLOCK < diskSize <= totalBits * CBT_BLOCK
      ensures forall b :: 0 <= b < |bits| ==> !bits[b]
    {
      if diskSize == 0 {
        return InvalidParameter;
      }
      hasBuffer, bits, totalBits := false, [], 0;
      var total := (diskSize + CBT_BLOCK - 1) % TWO_64 / CBT_BLOCK;
      if !memory {
        return InsufficientResources;
      }
      hasBuffer := true;
      bits := seq(total % TWO_32, b => false);
      totalBits := total;
      status := Success;
    }

    /** Below 2^32 blocks the write is marked. From there on the casts may ask for bits the bitmap does not
        have, and what happens then is not defined. */
    method MarkBlockChanged(offset: u64, length: u32)
      requires Valid()
      modifies `bits
      ensures Valid()
      ensures totalBits < TWO_32 ==> bits == Marked(totalBits, old(bits), offset, length)
    {
      hide Marked, Marks, Cast32;
      if totalBits < TWO_32 {
        MarkedIsSpan(totalBits, bits, offset, length);
        CastKeeps(totalBits);
      }
      if !hasBuffer || totalBits == 0 {
        return;
      }
      if offset >= totalBits * CBT_BLOCK % TWO_64 {
        return;
      }
      var startBlock := offset / CBT_BLOCK;
      var endBlock := (offset + length - 1) % TWO_64 / CBT_BLOCK;
      if endBlock >= totalBits {
        endBlock := totalBits - 1;
      }
      if startBlock > endBlock {
        return;
      }
      var first, count := Cast32(startBlock), Cast32(endBlock - startBlock + 1);
      if first + count <= |bits| {
        bits := SetBits(bits, first, count);
      }
    }

    method Reset() returns (status: Status)
      requires Valid()
      modifies `bits
      ensures Valid() && bits == Cleared(old(bits))
      ensures status == if hasBuffer && totalBits > 0 then Success else InvalidDeviceState
    {
      if !hasBuffer || totalBits == 0 {
        return InvalidDeviceState;
      }
      bits := Cleared(bits);
      status := Success;
    }

    method CleanupCbtState()
      modifies this
      ensures Valid() && !hasBuffer && bits == []
    {
      hasBuffer, bits, totalBits := false, [], 0;
    }
  }

  // ---------- runs ----------

  /** A write is marked by the hook, then lands on the disk; a reset may come at any time. */
  datatype Event =
    | Mark(offset: u64, length: u32)
    | Land(at: u64, data: seq<byte>)
    | Reset

  function BitsAfter(totalBits: u64, bits: seq<bool>, run: seq<Event>): (r: seq<bool>)
    requires |bits| == totalBits <= MAX_BLOCKS
    ensures |r| == totalBits
  {
    if run == [] then bits
    else
      var before := BitsAfter(totalBits, bits, run[..|run| - 1]);
      match run[|run| - 1]
      case Mark(offset, length) => Marked(totalBits, before, offset, length)
      case Land(_, _) => before
      case Reset => Cleared(before)
  }

  /** Byte `p` of the disk after the run, when it held `v` before. */
  function ByteAfter(v: byte, run: seq<Event>, p: nat): byte {
    if run == [] then v
    else
      var before := ByteAfter(v, run[..|run| - 1], p);
      var e := run[|run| - 1];
      if e.Land? && e.at <= p < e.at + |e.data| then e.data[p - e.at] else before
  }

  predicate NoReset(run: seq<Event>) {
    Reset !in run
  }

  /** Event `i` marks block `b`, and no reset follows it. */
  predicate MarksSinceReset(totalBits: u64, run: seq<Event>, i: nat, b: nat)
    requires i < |run|
  {
    run[i].Mark? && Marks(totalBits, run[i].offset, run[i].length, b) && NoReset(run[i..])
  }

  /** From a clear bitmap, a bit is set after a run if and only if a write since the last reset marks it. */
  lemma {:induction false} BitsAreExact(totalBits: u64, bits: seq<bool>, run: seq<Event>, b: nat)
    requires b < |bits| == totalBits <= MAX_BLOCKS && forall k :: 0 <= k < |bits| ==> !bits[k]
    ensures BitsAfter(totalBits, bits, run)[b] <==> exists i :: 0 <= i < |run| && MarksSinceReset(totalBits, run, i, b)
  {
    if run == [] {
    } else {
      var n := |run| - 1;
      BitsAreExact(totalBits, bits, run[..n], b);
      forall i | 0 <= i < n
        ensures MarksSinceReset(totalBits, run, i, b) <==> MarksSinceReset(totalBits, run[..n], i, b) && !run[n].Reset?
      {
        assert run[i..] == run[..n][i..] + [run[n]];
      }
      assert run[n..] == [run[n]];
      assert MarksSinceReset(totalBits, run, n, b) <==> run[n].Mark? && Marks(totalBits, run[n].offset, run[n].length, b);
    }
  }

  /** Every block of the disk touched by a non-empty write marked since the last reset is set. */
  lemma TouchedIsSet(totalBits: u64, bits: seq<bool>, run: seq<Event>, i: nat, b: nat)
    requires b < |bits| == totalBits <= MAX_BLOCKS && forall k :: 0 <= k < |bits| ==> !bits[k]
    requires i < |run| && run[i].Mark? && NoReset(run[i..]) && Touches(run[i].offset, run[i].length, b)
    ensures BitsAfter(totalBits, bits, run)[b]
  {
    BitsAreExact(totalBits, bits, run, b);
    NonEmptyMarksExactly(totalBits, run[i].offset, run[i].length, b);
    assert MarksSinceReset(totalBits, run, i, b);
  }

  // ---------- what the bitmap means for the disk ----------

  /** Some write of the run lands on byte `p`. */
  predicate LandsOn(run: seq<Event>, p: nat) {
    exists j :: 0 <= j < |run| && LandsAt(run[j], p)
  }

  predicate LandsAt(e: Event, p: nat) {
    e.Land? && e.at <= p < e.at + |e.data|
  }

  predicate IsMarkOf(m: Event, e: Event)
    requires e.Land?
  {
    m.Mark? && m.offset == e.at && m.length == |e.data|
  }

  /** Write `j` was marked earlier, and no reset came in between. */
  predicate MarkedBefore(run: seq<Event>, j: nat)
    requires j < |run| && run[j].Land?
  {
    exists i :: 0 <= i < j && IsMarkOf(run[i], run[j]) && NoReset(run[i..j])
  }

  /** Resets come only while no write is between its marking and its landing. */
  predicate ResetsAreQuiet(run: seq<Event>) {
    forall j :: 0 <= j < |run| && run[j].Land? ==> MarkedBefore(run, j)
  }

  /** The number of events up to and including the last reset. */
  function LastReset(run: seq<Event>): (k: nat)
    ensures k <= |run|
  {
    if run == [] then 0 else if run[|run| - 1].Reset? then |run| else LastReset(run[..|run| - 1])
  }

  lemma QuietPrefix(run: seq<Event>)
    requires run != [] && ResetsAreQuiet(run)
    ensures ResetsAreQuiet(run[..|run| - 1])
  {
    var n := |run| - 1;
    forall j | 0 <= j < n && run[j].Land? ensures MarkedBefore(run[..n], j) {
      var i :| 0 <= i < j && IsMarkOf(run[i], run[j]) && NoReset(run[i..j]);
      assert run[..n][i..j] == run[i..j];
    }
  }

  lemma LandedIsSet(totalBits: u64, bits: seq<bool>, run: seq<Event>, p: nat)
    requires p / CBT_BLOCK < |bits| == totalBits <= MAX_BLOCKS && forall k :: 0 <= k < |bits| ==> !bits[k]
    requires run != [] && LandsAt(run[|run| - 1], p) && ResetsAreQuiet(run)
    ensures BitsAfter(totalBits, bits, run)[p / CBT_BLOCK]
  {
    var n := |run| - 1;
    var i :| 0 <= i < n && IsMarkOf(run[i], run[n]) && NoReset(run[i..n]);
    assert run[i..] == run[i..n] + [run[n]];
    assert Touches(run[i].offset, run[i].length, p / CBT_BLOCK);
    TouchedIsSet(totalBits, bits, run, i, p / CBT_BLOCK);
  }

  /** What an incremental backup relies on: as long as resets do not overtake writes, a byte in a block
      whose bit is clear is what it was at the last reset. */
  lemma {:induction false} UnmarkedIsUnchanged(totalBits: u64, bits: seq<bool>, run: seq<Event>, v: byte, p: nat)
    requires p / CBT_BLOCK < |bits| == totalBits <= MAX_BLOCKS && forall k :: 0 <= k < |bits| ==> !bits[k]
    requires ResetsAreQuiet(run)
    requires !BitsAfter(totalBits, bits, run)[p / CBT_BLOCK]
    ensures ByteAfter(v, run, p) == ByteAfter(v, run[..LastReset(run)], p)
  {
    if run == [] {
      assert run[..0] == run;
    } else if run[|run| - 1].Reset? {
      assert run[..|run|] == run;
    } else {
      var before := run[..|run| - 1];
      QuietPrefix(run);
      if LandsAt(run[|run| - 1], p) {
        LandedIsSet(totalBits, bits, run, p);
      }
      UnmarkedIsUnchanged(totalBits, bits, before, v, p);
      assert run[..LastReset(run)] == before[..LastReset(before)];
    }
  }

  /** Marking happens before the write is passed on, so a reset that overtakes the write loses it: the
      byte changes after the reset and no bit says so. */
  lemma OvertakingResetLoses()
    ensures var run := [Mark(0, 1), Reset, Land(0, [1])];
            && !BitsAfter(1, [false], run)[0]
            && ByteAfter(0, run, 0) != ByteAfter(0, run[..LastReset(run)], 0)
  {
    var run := [Mark(0, 1), Reset, Land(0, [1])];
    var upTo := run[..2];
    assert upTo == [Mark(0, 1), Reset] && upTo[..1] == [Mark(0, 1)] && upTo[..1][..0] == [];
    assert LastReset(run) == LastReset(upTo) == 2;
    assert ByteAfter(0, upTo[..1], 0) == 0;
    assert ByteAfter(0, upTo, 0) == 0;
  }

  lemma {:induction false} LandedByteIsFixed(run: seq<Event>, p: nat, v: byte, w: byte)
    ensures LandsOn(run, p) ==> ByteAfter(v, run, p) == ByteAfter(w, run, p)
    ensures !LandsOn(run, p) ==> ByteAfter(v, run, p) == v
  {
    if run == [] {
    } else {
      var n := |run| - 1;
      LandedByteIsFixed(run[..n], p, v, w);
      assert LandsOn(run, p) <==> LandsOn(run[..n], p) || LandsAt(run[n], p) by {
        if LandsOn(run[..n], p) {
          var j :| 0 <= j < n && LandsAt(run[..n][j], p);
          assert LandsAt(run[j], p);
        }
        if LandsOn(run, p) {
          var j :| 0 <= j < |run| && LandsAt(run[j], p);
          assert j < n ==> LandsAt(run[..n][j], p);
        }
      }
    }
  }

  /** Only what comes after the last reset shows in a bitmap that was clear at the start ... */
  lemma {:induction false} BitsSinceReset(totalBits: u64, bits: seq<bool>, run: seq<Event>)
    requires |bits| == totalBits <= MAX_BLOCKS && forall k :: 0 <= k < |bits| ==> !bits[k]
    ensures BitsAfter(totalBits, bits, run) == BitsAfter(totalBits, bits, run[LastReset(run)..])
    ensures NoReset(run[LastReset(run)..])
  {
    if run == [] {
    } else {
      var n := |run| - 1;
      var since := run[LastReset(run)..];
      if run[n].Reset? {
        assert since == [];
      } else {
        BitsSinceReset(totalBits, bits, run[..n]);
        assert since[..|since| - 1] == run[..n][LastReset(run[..n])..];
        assert since == since[..|since| - 1] + [run[n]];
      }
    }
  }

  /** ... and what a byte holds is what was left of it at the reset, then changed by the landings since. */
  lemma {:induction false} ByteSinceReset(v: byte, front: seq<Event>, since: seq<Event>, p: nat)
    ensures ByteAfter(v, front + since, p) == ByteAfter(ByteAfter(v, front, p), since, p)
  {
    if since == [] {
      assert front + since == front;
    } else {
      var n := |since| - 1;
      ByteSinceReset(v, front, since[..n], p);
      assert (front + since)[..|front + since| - 1] == front + since[..n];
    }
  }

  /** Exactly when nothing is lost, byte by byte and over every run: whatever the byte held at the last
      reset, a change to it since then shows in the bitmap at the end if and only if any write landing on
      it since comes with one marked on its block since. */
  lemma ChangeShowsExactlyWhen(totalBits: u64, bits: seq<bool>, run: seq<Event>, p: nat)
    requires p / CBT_BLOCK < |bits| == totalBits <= MAX_BLOCKS && forall k :: 0 <= k < |bits| ==> !bits[k]
    ensures var since := run[LastReset(run)..];
            && (forall v: byte :: ByteAfter(v, run, p) == ByteAfter(ByteAfter(v, run[..LastReset(run)], p), since, p))
            && ((forall v: byte :: ByteAfter(v, since, p) != v ==> BitsAfter(totalBits, bits, run)[p / CBT_BLOCK])
                <==> (LandsOn(since, p) ==>
                        exists i :: 0 <= i < |since| && MarksSinceReset(totalBits, since, i, p / CBT_BLOCK)))
  {
    var since := run[LastReset(run)..];
    BitsSinceReset(totalBits, bits, run);
    BitsAreExact(totalBits, bits, since, p / CBT_BLOCK);
    forall v: byte ensures ByteAfter(v, run, p) == ByteAfter(ByteAfter(v, run[..LastReset(run)], p), since, p) {
      ByteSinceReset(v, run[..LastReset(run)], since, p);
      assert run[..LastReset(run)] + since == run;
    }
    forall v: byte ensures !LandsOn(since, p) ==> ByteAfter(v, since, p) == v {
      LandedByteIsFixed(since, p, v, v);
    }
    if LandsOn(since, p) {
      var was: byte := ByteAfter(0, since, p);
      var v: byte := if was == 0 then 1 else 0;
      LandedByteIsFixed(since, p, v, 0);
    }
  }
}
