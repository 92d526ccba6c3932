/** Bytes, fixed-width unsigned integers, and their little-endian images. */
module Bytes {

  type byte = b: int | 0 <= b < 0x100
  type u32 = x: int | 0 <= x < 0x1_0000_0000
  type u64 = x: int | 0 <= x < 0x1_0000_0000_0000_0000

  const TWO_32: nat := 0x1_0000_0000
  const TWO_64: nat := 0x1_0000_0000_0000_0000

  datatype Option<+T> = None | Some(value: T)

  function One(b: bool): nat { if b then 1 else 0 }

  function Pow256(width: nat): (p: nat)
    ensures p > 0
  {
    if width == 0 then 1 else 256 * Pow256(width - 1)
  }

  /** The low `width` bytes of `n`, least significant first. */
  function LittleEndian(n: nat, width: nat): (s: seq<byte>)
    ensures |s| == width
  {
    if width == 0 then [] else [n % 256] + LittleEndian(n / 256, width - 1)
  }

  function FromLittleEndian(s: seq<byte>): (n: nat)
    ensures n < Pow256(|s|)
  {
    if s == [] then 0 else s[0] + 256 * FromLittleEndian(s[1..])
  }

  lemma {:induction false} DecodeEncode(n: nat, width: nat)
    requires n < Pow256(width)
    ensures FromLittleEndian(LittleEndian(n, width)) == n
  {
    if width == 0 {
    } else {
      DecodeEncode(n / 256, width - 1);
      assert LittleEndian(n, width)[1..] == LittleEndian(n / 256, width - 1);
    }
  }

  lemma SplitByte(b: byte, n: nat)
    ensures (b + 256 * n) % 256 == b && (b + 256 * n) / 256 == n
  {
  }

  lemma {:induction false} EncodeDecode(s: seq<byte>)
    ensures LittleEndian(FromLittleEndian(s), |s|) == s
  {
    if s == [] {
    } else {
      EncodeDecode(s[1..]);
      SplitByte(s[0], FromLittleEndian(s[1..]));
      assert s == [s[0]] + s[1..];
    }
  }

  /** The 32-bit field at offset `at`. */
  function ReadU32(s: seq<byte>, at: nat): u32
    requires at + 4 <= |s|
  {
    assert Pow256(4) == TWO_32;
    FromLittleEndian(s[at..at + 4])
  }

  /** The 64-bit field at offset `at`. */
  function ReadU64(s: seq<byte>, at: nat): u64
    requires at + 8 <= |s|
  {
    assert Pow256(8) == TWO_64;
    FromLittleEndian(s[at..at + 8])
  }

  lemma ReadU32Encoded(s: seq<byte>, at: nat, n: u32)
    requires at + 4 <= |s| && s[at..at + 4] == LittleEndian(n, 4)
    ensures ReadU32(s, at) == n
  {
    assert Pow256(4) == TWO_32;
    DecodeEncode(n, 4);
  }

  lemma ReadU64Encoded(s: seq<byte>, at: nat, n: u64)
    requires at + 8 <= |s| && s[at..at + 8] == LittleEndian(n, 8)
    ensures ReadU64(s, at) == n
  {
    assert Pow256(8) == TWO_64;
    DecodeEncode(n, 8);
  }

  lemma WriteU32Decoded(s: seq<byte>, at: nat)
    requires at + 4 <= |s|
    ensures LittleEndian(ReadU32(s, at), 4) == s[at..at + 4]
  {
    EncodeDecode(s[at..at + 4]);
  }

  lemma WriteU64Decoded(s: seq<byte>, at: nat)
    requires at + 8 <= |s|
    ensures LittleEndian(ReadU64(s, at), 8) == s[at..at + 8]
  {
    EncodeDecode(s[at..at + 8]);
  }

  /** Fields are stored least significant byte first. */
  lemma FieldBytes(s: seq<byte>, at: nat)
    requires at + 4 <= |s|
    ensures ReadU32(s, at) == s[at] + 0x100 * (s[at + 1] as int) + 0x1_0000 * (s[at + 2] as int) + 0x100_0000 * (s[at + 3] as int)
    ensures at + 8 <= |s| ==> ReadU64(s, at) == ReadU32(s, at) + TWO_32 * ReadU32(s, at + 4)
  {
    FourBytes(s[at..at + 4]);
    if at + 8 <= |s| {
      var x := s[at..at + 8];
      assert x[..4] == s[at..at + 4] && x[4..] == s[at + 4..at + 8];
      FourBytes(x[..4]);
      FourBytes(x[4..]);
      EightBytes(x);
    }
  }

  lemma FourBytes(s: seq<byte>)
    requires |s| == 4
    ensures FromLittleEndian(s) == s[0] + 0x100 * (s[1] as int) + 0x1_0000 * (s[2] as int) + 0x100_0000 * (s[3] as int)
  {
    assert s[1..][1..] == s[2..] && s[2..][1..] == s[3..] && s[3..][1..] == [];
    assert FromLittleEndian(s[3..]) == s[3] && FromLittleEndian(s[2..]) == s[2] + 256 * (s[3] as int);
  }

  lemma EightBytes(s: seq<byte>)
    requires |s| == 8
    ensures FromLittleEndian(s) == FromLittleEndian(s[..4]) + TWO_32 * FromLittleEndian(s[4..])
  {
    var a, b, c := s[1..], s[2..], s[3..];
    assert a[1..] == b && b[1..] == c && c[1..] == s[4..];
    assert FromLittleEndian(c) == s[3] + 256 * FromLittleEndian(s[4..]);
    assert FromLittleEndian(b) == s[2] + 256 * FromLittleEndian(c);
    FourBytes(s[..4]);
  }

  lemma Reassociate<T>(a: seq<T>, b: seq<T>, c: seq<T>)
    ensures (a + b) + c == a + (b + c)
  {
  }

  /** Four or five fields laid out one after another can be cut out again. */
  lemma CutFour(a: seq<byte>, b: seq<byte>, c: seq<byte>, d: seq<byte>, rest: seq<byte>)
    ensures var s := a + b + c + d + rest;
            var i, j, k := |a|, |a| + |b|, |a| + |b| + |c|;
            s[0..i] == a && s[i..j] == b && s[j..k] == c && s[k..k + |d|] == d
  {
  }

  lemma CutFive(a: seq<byte>, b: seq<byte>, c: seq<byte>, d: seq<byte>, e: seq<byte>, rest: seq<byte>)
    ensures var s := a + b + c + d + e + rest;
            var i, j, k, l := |a|, |a| + |b|, |a| + |b| + |c|, |a| + |b| + |c| + |d|;
            s[0..i] == a && s[i..j] == b && s[j..k] == c && s[k..l] == d && s[l..l + |e|] == e
  {
  }

  /** `x` starts with `p`. */
  predicate Prefix(p: seq<byte>, x: seq<byte>) {
    |p| <= |x| && x[..|p|] == p
  }

  function Flatten(chunks: seq<seq<byte>>): seq<byte> {
    if chunks == [] then [] else chunks[0] + Flatten(chunks[1..])
  }
}
