/** The uncompressed zlib writer that the client falls back to, and a reader for it written from
    section 2.2 of RFC 1950 and section 3.2.4 of RFC 1951 (client/DataCompressor.cpp). */
module StoredZlib {
  import opened Bytes
  import opened Protocol
  import opened Adler
  import opened BlockProcessor

  const MAX_STORED: nat := 65535

  // ---------- the format ----------

  /** A stored block: the header bits padded to a byte, LEN, its complement, the data. */
  function StoredBlock(final: bool, d: seq<byte>): (s: seq<byte>)
    requires |d| <= MAX_STORED
    ensures |s| == 5 + |d|
  {
    [if final then 1 else 0] + LittleEndian(|d|, 2) + LittleEndian(MAX_STORED - |d|, 2) + d
  }

  function StoredBlocks(x: seq<byte>): seq<byte> {
    if x == [] then []
    else if |x| <= MAX_STORED then StoredBlock(true, x)
    else StoredBlock(false, x[..MAX_STORED]) + StoredBlocks(x[MAX_STORED..])
  }

  function BigEndian32(n: u32): (s: seq<byte>)
    ensures |s| == 4
  {
    [n / 0x100_0000, n / 0x1_0000 % 0x100, n / 0x100 % 0x100, n % 0x100]
  }

  function Zlib(x: seq<byte>): seq<byte> {
    [0x78, 0x01] + StoredBlocks(x) + BigEndian32(Adler32(x))
  }

  // ---------- the reader ----------

  /** The 16-bit little-endian number at `at`. */
  function Word(s: seq<byte>, at: nat): nat
    requires at + 2 <= |s|
  {
    s[at] as int + 256 * (s[at + 1] as int)
  }

  /** What stored blocks decode to, and what follows the final one. */
  datatype Inflated = Inflated(data: seq<byte>, rest: seq<byte>)

  function ReadBlocks(s: seq<byte>): Option<Inflated> {
    if |s| < 5 then None
    else
      var final, blockType := s[0] % 2 == 1, s[0] / 2 % 4;
      var len, nlen := Word(s, 1), Word(s, 3);
      if blockType != 0 || nlen != 0xFFFF - len || |s| < 5 + len then None
      else
        var data, rest := s[5..5 + len], s[5 + len..];
        if final then Some(Inflated(data, rest))
        else
          match ReadBlocks(rest)
          case None => None
          case Some(r) => Some(Inflated(data + r.data, r.rest))
  }

  function ReadBigEndian32(s: seq<byte>): nat
    requires |s| >= 4
  {
    0x100_0000 * (s[0] as int) + 0x1_0000 * (s[1] as int) + 0x100 * (s[2] as int) + s[3] as int
  }

  /** Method 8, a legal window size, the check bits, no preset dictionary. */
  predicate HeaderOk(cmf: byte, flg: byte) {
    cmf % 16 == 8 && cmf / 16 <= 7 && (256 * (cmf as int) + flg as int) % 31 == 0 && flg / 32 % 2 == 0
  }

  /** Header, blocks, checksum. */
  function ReadZlib(s: seq<byte>): Option<seq<byte>> {
    if |s| < 2 || !HeaderOk(s[0], s[1]) then None
    else
      match ReadBlocks(s[2..])
      case None => None
      case Some(r) =>
        if |r.rest| < 4 || ReadBigEndian32(r.rest) != Adler32(r.data) then None else Some(r.data)
  }

  // ---------- round trip ----------

  /** The five header bytes of a stored block. */
  lemma BlockHead(final: bool, d: seq<byte>)
    requires |d| <= MAX_STORED
    ensures var n, m := |d|, 0xFFFF - |d|;
            StoredBlock(final, d)
            == [if final then 1 else 0, n % 0x100, n / 0x100 % 0x100, m % 0x100, m / 0x100 % 0x100] + d
  {
    var n, m := |d|, MAX_STORED - |d|;
    assert LittleEndian(n, 2) == [n % 256, n / 256 % 256] by { assert LittleEndian(n / 256, 1) == [n / 256 % 256]; }
    assert LittleEndian(m, 2) == [m % 256, m / 256 % 256] by { assert LittleEndian(m / 256, 1) == [m / 256 % 256]; }
  }

  lemma ReadOneBlock(final: bool, d: seq<byte>, more: seq<byte>)
    requires |d| <= MAX_STORED
    ensures var s := StoredBlock(final, d) + more;
            && |s| >= 5 + |d|
            && s[0] % 2 == (if final then 1 else 0) && s[0] / 2 % 4 == 0
            && Word(s, 1) == |d| && Word(s, 3) == 0xFFFF - |d|
            && s[5..5 + |d|] == d && s[5 + |d|..] == more
  {
    BlockHead(final, d);
    hide StoredBlock;
  }

  lemma ReadStep(final: bool, d: seq<byte>, more: seq<byte>)
    requires |d| <= MAX_STORED
    ensures var r := ReadBlocks(more);
            ReadBlocks(StoredBlock(final, d) + more)
            == if final then Some(Inflated(d, more))
               else if r == None then None else Some(Inflated(d + r.value.data, r.value.rest))
  {
    ReadOneBlock(final, d, more);
    hide StoredBlock, Word;
  }

  /** Reading the blocks back gives the input and stops right after them: only the last is final. */
  lemma {:induction false} BlocksRoundTrip(x: seq<byte>, more: seq<byte>)
    requires x != []
    ensures ReadBlocks(StoredBlocks(x) + more) == Some(Inflated(x, more))
    decreases |x|
  {
    hide ReadBlocks, StoredBlock;
    if |x| <= MAX_STORED {
      ReadStep(true, x, more);
    } else {
      var d, tail := x[..MAX_STORED], x[MAX_STORED..];
      BlocksRoundTrip(tail, more);
      ReadStep(false, d, StoredBlocks(tail) + more);
      Reassociate(StoredBlock(false, d), StoredBlocks(tail), more);
      assert d + tail == x;
    }
  }

  lemma BigEndianRoundTrip(n: u32)
    ensures ReadBigEndian32(BigEndian32(n)) == n
  {
    var a, b, c := n / 0x100, n / 0x1_0000, n / 0x100_0000;
    DivDiv(n);
    assert n == 0x100 * a + n % 0x100;
    assert a == 0x100 * b + a % 0x100;
    assert b == 0x100 * c + b % 0x100;
  }

  lemma DivDiv(n: nat)
    ensures n / 0x1_0000 == n / 0x100 / 0x100 && n / 0x100_0000 == n / 0x1_0000 / 0x100
  {
  }

  /** The stream is read back to the input, for every input but the empty one, for which the writer
      emits no block at all. */
  lemma ZlibRoundTrip(x: seq<byte>)
    ensures ReadZlib(Zlib(x)) == Some(x) <==> x != []
  {
    var tail := BigEndian32(Adler32(x));
    NoBlocks(tail);
    BigEndianRoundTrip(Adler32(x));
    if x != [] {
      BlocksRoundTrip(x, tail);
    }
    HeaderIsOk();
    hide HeaderOk, ReadBlocks, StoredBlocks, BigEndian32, ReadBigEndian32, Adler32;
    assert Zlib(x)[2..] == StoredBlocks(x) + tail;
  }

  lemma HeaderIsOk()
    ensures HeaderOk(0x78, 0x01)
  {
  }

  lemma NoBlocks(tail: seq<byte>)
    ensures StoredBlocks([]) == []
    ensures |tail| < 5 ==> ReadBlocks(StoredBlocks([]) + tail) == None
  {
  }

  function Chunks(n: nat): nat { (n + MAX_STORED - 1) / MAX_STORED }

  lemma {:induction false} BlocksSize(x: seq<byte>)
    ensures |StoredBlocks(x)| == 5 * Chunks(|x|) + |x|
    decreases |x|
  {
    if |x| <= MAX_STORED {
    } else {
      BlocksSize(x[MAX_STORED..]);
    }
  }

  /** The exact length of the stream. */
  lemma ZlibSize(x: seq<byte>)
    ensures |Zlib(x)| == 2 + 5 * Chunks(|x|) + |x| + 4
  {
    BlocksSize(x);
  }

  /** The buffer size the writer computes, with its 32-bit chunk count. */
  function BufferSize(n: u32): nat {
    2 + (n + 65534) % TWO_32 / 65535 * 5 + n + 4
  }

  /** The buffer is as long as the stream exactly while the chunk count does not wrap. */
  lemma BufferFits(x: seq<byte>)
    requires |x| < TWO_32
    ensures BufferSize(|x|) == |Zlib(x)| <==> |x| <= 0x1_0000_0000 - 65535
  {
    ZlibSize(x);
    ChunkCountWraps(|x|);
    hide Zlib;
  }

  lemma ChunkCountWraps(n: u32)
    ensures (n + 65534) % TWO_32 / 65535 == Chunks(n) <==> n <= 0x1_0000_0000 - 65535
  {
    if n <= 0x1_0000_0000 - 65535 {
      assert (n + 65534) % TWO_32 == n + 65534;
    } else {
      assert (n + 65534) % TWO_32 == n + 65534 - TWO_32;
    }
  }

  lemma BlocksUnfold(x: seq<byte>)
    requires x != []
    ensures var n := if |x| < MAX_STORED then |x| else MAX_STORED;
            StoredBlocks(x) == StoredBlock(n == |x|, x[..n]) + StoredBlocks(x[n..])
  {
    hide StoredBlock;
    if |x| <= MAX_STORED {
      assert x[..|x|] == x && x[|x|..] == [];
      assert StoredBlocks([]) == [];
      assert StoredBlock(true, x) + [] == StoredBlock(true, x);
    }
  }

  /** One stored block at `pos`; everything before it stays. */
  method WriteBlock(output: array<byte>, pos: nat, isFinal: bool, chunk: seq<byte>) returns (next: nat)
    requires |chunk| <= MAX_STORED && pos + 5 + |chunk| <= output.Length
    modifies output
    ensures next == pos + 5 + |chunk|
    ensures output[..next] == old(output[..pos]) + StoredBlock(isFinal, chunk)
  {
    BlockHead(isFinal, chunk);
    hide StoredBlock;
    var chunkSize := |chunk|;
    var nlen := 0xFFFF - chunkSize;
    output[pos] := if isFinal then 0x01 else 0x00;
    output[pos + 1], output[pos + 2] := chunkSize % 0x100, chunkSize / 0x100 % 0x100;
    output[pos + 3], output[pos + 4] := nlen % 0x100, nlen / 0x100 % 0x100;
    ghost var head := output[pos..pos + 5];
    assert StoredBlock(isFinal, chunk) == head + chunk;
    assert output[..pos + 5] == old(output[..pos]) + head;
    next := CopyChunk(output, pos + 5, chunk);
    Reassociate(old(output[..pos]), head, chunk);
  }

  method CopyChunk(output: array<byte>, pos: nat, chunk: seq<byte>) returns (next: nat)
    requires pos + |chunk| <= output.Length
    modifies output
    ensures next == pos + |chunk| && output[..next] == old(output[..pos]) + chunk
  {
    for k := 0 to |chunk|
      invariant output[..pos + k] == old(output[..pos]) + chunk[..k]
    {
      output[pos + k] := chunk[k];
      assert output[..pos + k + 1] == output[..pos + k] + [chunk[k]];
    }
    next := pos + |chunk|;
    assert chunk[..|chunk|] == chunk;
  }

  /** The checksum, most significant byte first, at the very end. */
  method WriteChecksum(output: array<byte>, pos: nat, adler: u32)
    requires pos + 4 == output.Length
    modifies output
    ensures output[..] == old(output[..pos]) + BigEndian32(adler)
  {
    output[pos], output[pos + 1] := adler / 0x100_0000, adler / 0x1_0000 % 0x100;
    output[pos + 2], output[pos + 3] := adler / 0x100 % 0x100, adler % 0x100;
    assert output[..pos] == old(output[..pos]);
    assert output[..] == output[..pos] + output[pos..];
  }

  lemma BufferNeverTooLong(x: seq<byte>)
    requires |x| < TWO_32
    ensures BufferSize(|x|) <= |Zlib(x)|
  {
    ZlibSize(x);
    hide Zlib;
  }

  /** The stored blocks, written by position behind the two header bytes. A block that would not fit is not
      written: there the program's behaviour is no longer defined. */
  method WriteBlocks(output: array<byte>, input: seq<byte>) returns (pos: nat, fits: bool)
    requires output.Length >= 2
    modifies output
    ensures fits <==> 2 + |StoredBlocks(input)| <= output.Length
    ensures fits ==> pos == 2 + |StoredBlocks(input)| && output[..pos] == old(output[..2]) + StoredBlocks(input)
  {
    hide StoredBlocks, StoredBlock;
    ghost var header := output[..2];
    var inputSize, offset := |input|, 0;
    pos, fits := 2, true;
    assert input[0..] == input;
    while offset < inputSize
      invariant 2 <= pos <= output.Length && offset <= inputSize
      invariant pos + |StoredBlocks(input[offset..])| == 2 + |StoredBlocks(input)|
      invariant output[..pos] + StoredBlocks(input[offset..]) == header + StoredBlocks(input)
      decreases inputSize - offset
    {
      ghost var tail := input[offset..];
      ghost var before := output[..pos];
      var chunkSize := if inputSize - offset < 65535 then inputSize - offset else 65535;
      var isFinal := offset + chunkSize >= inputSize;
      BlocksUnfold(tail);
      assert tail[..chunkSize] == input[offset..offset + chunkSize];
      assert tail[chunkSize..] == input[offset + chunkSize..];
      if pos + 5 + chunkSize > output.Length {
        return pos, false;
      }
      pos := WriteBlock(output, pos, isFinal, input[offset..offset + chunkSize]);
      Reassociate(before, StoredBlock(isFinal, tail[..chunkSize]), StoredBlocks(tail[chunkSize..]));
      offset := offset + chunkSize;
    }
    NoBlocks([]);
    assert input[offset..] == [];
    assert output[..pos] + [] == output[..pos];
  }

  /** The writer. It stays within its buffer for up to 2^32 - 65535 bytes of input, and for no more; then
      the buffer holds exactly the stream. */
  method CreateStoredZlib(input: seq<byte>) returns (output: array<byte>, fits: bool)
    requires |input| < TWO_32
    ensures fits <==> |input| <= 0x1_0000_0000 - 65535
    ensures fits ==> output[..] == Zlib(input) && output.Length == 2 + 5 * Chunks(|input|) + |input| + 4
  {
    ZlibSize(input);
    BufferFits(input);
    BufferNeverTooLong(input);
    hide StoredBlocks, BigEndian32, Adler32, Chunks;
    var adler32 := ComputeAdler32(input);
    var inputSize := |input|;
    var numChunks := (inputSize + 65534) % TWO_32 / 65535;
    output := new byte[2 + numChunks * 5 + inputSize + 4](i => 0);
    output[0], output[1] := 0x78, 0x01;
    assert output[..2] == [0x78, 0x01];
    var pos;
    pos, fits := WriteBlocks(output, input);
    if !fits {
      return;
    }
    if pos + 4 > output.Length {
      return output, false;
    }
    WriteChecksum(output, pos, adler32 as int);
  }

  /** The stored writer and its reader are a codec as the protocol needs one: blocks come back whole
      and never more than double. */
  lemma StoredCodecIsLawful(sha: seq<byte> -> Hash)
    ensures Lawful(Codec(sha, x => Zlib(x), s => ReadZlib(s)))
  {
    forall x: seq<byte> | 0 < |x| <= BLOCK_SIZE
      ensures |Zlib(x)| <= 2 * BLOCK_SIZE && ReadZlib(Zlib(x)) == Some(x)
    {
      ZlibSize(x);
      ZlibRoundTrip(x);
    }
  }
}
