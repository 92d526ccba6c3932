/** The Adler-32 checksum: the definition of section 8.2 of RFC 1950, and the loop that computes it
    (client/DataCompressor.cpp). */
module Adler {
  import opened Bytes

  const BASE: nat := 65521

  function Sum(d: seq<byte>): nat {
    if d == [] then 0 else d[0] + Sum(d[1..])
  }

  /** Each byte weighted by its distance from the end: n·d0 + (n-1)·d1 + ... + 1·d(n-1). */
  function Weighted(d: seq<byte>): nat {
    if d == [] then 0 else |d| * d[0] + Weighted(d[1..])
  }

  function S1(d: seq<byte>): nat { (1 + Sum(d)) % BASE }

  function S2(d: seq<byte>): nat { (|d| + Weighted(d)) % BASE }

  /** The checksum as defined: s2 · 65536 + s1. */
  function Adler32(d: seq<byte>): u32 {
    S2(d) * 0x1_0000 + S1(d)
  }

  lemma {:induction false} SumConcat(x: seq<byte>, y: seq<byte>)
    ensures Sum(x + y) == Sum(x) + Sum(y)
  {
    if x == [] {
      assert x + y == y;
    } else {
      SumConcat(x[1..], y);
      assert (x + y)[1..] == x[1..] + y;
    }
  }

  lemma {:induction false} WeightedConcat(x: seq<byte>, y: seq<byte>)
    ensures Weighted(x + y) == Weighted(x) + |y| * Sum(x) + Weighted(y)
  {
    if x == [] {
      assert x + y == y;
    } else {
      WeightedConcat(x[1..], y);
      assert (x + y)[1..] == x[1..] + y;
      Distribute(|x|, |y|, x[0]);
      Distribute2(|y|, x[0], Sum(x[1..]));
    }
  }

  lemma Distribute(a: nat, b: nat, c: nat)
    ensures (a + b) * c == a * c + b * c
  {
  }

  lemma Distribute2(a: nat, b: nat, c: nat)
    ensures a * (b + c) == a * b + a * c
  {
  }

  lemma AddMod(p: nat, q: nat)
    ensures (p % BASE + q) % BASE == (p + q) % BASE
  {
  }

  /** One more byte: the step the loop takes on both sums. */
  lemma OneMore(d: seq<byte>, b: byte)
    ensures S1(d + [b]) == (S1(d) + b) % BASE
    ensures S2(d + [b]) == (S2(d) + S1(d + [b])) % BASE
  {
    SumConcat(d, [b]);
    WeightedConcat(d, [b]);
    assert Sum([b]) == b && Weighted([b]) == b;
    AddMod(1 + Sum(d), b);
    AddMod(|d| + Weighted(d), S1(d + [b]));
    AddMod(1 + Sum(d) + b, |d| + Weighted(d));
  }

  newtype uint32 = x: int | 0 <= x < 0x1_0000_0000

  /** The loop reduces at every step and never leaves 32 bits; it computes the defined checksum. */
  method ComputeAdler32(data: seq<byte>) returns (adler: uint32)
    ensures adler as int == Adler32(data)
  {
    var a: uint32, b: uint32 := 1, 0;
    for i := 0 to |data|
      invariant a as int == S1(data[..i]) && b as int == S2(data[..i])
    {
      assert data[..i + 1] == data[..i] + [data[i]];
      OneMore(data[..i], data[i]);
      a := (a + data[i] as uint32) % 65521;
      b := (b + a) % 65521;
    }
    assert data[..|data|] == data;
    adler := b * 0x1_0000 + a;
  }

  lemma {:induction false} MulMod(k: nat, p: nat)
    ensures (k * (p % BASE)) % BASE == (k * p) % BASE
    decreases k
  {
    if k == 0 {
    } else {
      MulMod(k - 1, p);
      var r := p % BASE;
      assert k * r == (k - 1) * r + r;
      assert k * p == (k - 1) * p + p;
      AddMod((k - 1) * r, r);
      AddMod((k - 1) * p, r);
      AddMod(p, (k - 1) * p);
    }
  }

  /** The checksum of a concatenation follows from the checksums and lengths of the parts. */
  lemma ConcatChecksum(x: seq<byte>, y: seq<byte>)
    ensures S1(x + y) == (S1(x) + S1(y) + BASE - 1) % BASE
    ensures S2(x + y) == (S2(x) + S2(y) + |y| * (S1(x) + BASE - 1)) % BASE
  {
    hide Sum, Weighted;
    SumConcat(x, y);
    WeightedConcat(x, y);
    S1Concat(Sum(x), Sum(y));
    S2Concat(|x| + Weighted(x), |y| + Weighted(y), |y|, Sum(x));
  }

  lemma S1Concat(p: nat, q: nat)
    ensures (1 + p + q) % BASE == ((1 + p) % BASE + (1 + q) % BASE + BASE - 1) % BASE
  {
  }

  lemma S2Concat(p: nat, q: nat, n: nat, s: nat)
    ensures (p + q + n * s) % BASE == (p % BASE + q % BASE + n * ((1 + s) % BASE + BASE - 1)) % BASE
  {
    var t := (1 + s) % BASE + BASE - 1;
    assert t % BASE == s % BASE;
    MulMod(n, t);
    MulMod(n, s);
    assert (n * t) % BASE == (n * s) % BASE;
    AddThree(p, q, n * t);
    AddThree(p, q, n * s);
  }

  lemma AddThree(p: nat, q: nat, r: nat)
    ensures (p % BASE + q % BASE + r) % BASE == (p + q + r % BASE) % BASE == (p + q + r) % BASE
  {
  }
}
