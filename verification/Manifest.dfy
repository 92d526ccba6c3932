/** The binary form of a hash manifest (client/BlockHasher.cpp). */
module Manifest {
  import opened Bytes
  import opened Protocol

  const MANIFEST_MAGIC: u32 := 0x464D4842
  const MANIFEST_VERSION: u32 := 1
  const MANIFEST_HEADER: nat := 32
  const ENTRY_SIZE: nat := 40

  datatype Entry = Entry(blockIndex: u64, offset: u64, hash: Hash)
  datatype HashManifest = HashManifest(blockSize: u64, totalBlocks: u64, totalSize: u64, entries: seq<Entry>)

  function EntryBytes(e: Entry): (s: seq<byte>)
    ensures |s| == ENTRY_SIZE
  {
    LittleEndian(e.blockIndex, 8) + e.hash
  }

  function EntriesBytes(es: seq<Entry>): (s: seq<byte>)
    ensures |s| == ENTRY_SIZE * |es|
  {
    if es == [] then [] else EntriesBytes(es[..|es| - 1]) + EntryBytes(es[|es| - 1])
  }

  function HeaderBytes(m: HashManifest): (s: seq<byte>)
    ensures |s| == MANIFEST_HEADER
  {
    LittleEndian(MANIFEST_MAGIC, 4) + LittleEndian(MANIFEST_VERSION, 4) + LittleEndian(m.blockSize, 8)
    + LittleEndian(m.totalBlocks, 8) + LittleEndian(m.totalSize, 8)
  }

  function Serialized(m: HashManifest): seq<byte> {
    HeaderBytes(m) + EntriesBytes(m.entries)
  }

  /** Entry i as the reader restores it; the offset is not stored and comes back 0. */
  function EntryAt(data: seq<byte>, i: nat): Entry
    requires MANIFEST_HEADER + ENTRY_SIZE * (i + 1) <= |data|
  {
    var at := MANIFEST_HEADER + ENTRY_SIZE * i;
    Entry(ReadU64(data, at), 0, data[at + 8..at + 40])
  }

  function EntriesAt(data: seq<byte>, n: nat): (es: seq<Entry>)
    requires MANIFEST_HEADER + ENTRY_SIZE * n <= |data|
    ensures |es| == n
  {
    if n == 0 then [] else EntriesAt(data, n - 1) + [EntryAt(data, n - 1)]
  }

  /** What a buffer deserializes to: it needs the header, and all the entries the header announces. */
  function Deserialized(data: seq<byte>): Option<HashManifest> {
    if |data| < MANIFEST_HEADER || ReadU32(data, 0) != MANIFEST_MAGIC || ReadU32(data, 4) != MANIFEST_VERSION then None
    else
      var n := ReadU64(data, 16);
      if |data| < MANIFEST_HEADER + ENTRY_SIZE * n then None
      else Some(HashManifest(ReadU64(data, 8), n, ReadU64(data, 24), EntriesAt(data, n)))
  }

  method SerializeManifest(m: HashManifest) returns (out: seq<byte>)
    ensures out == Serialized(m)
  {
    hide LittleEndian;
    out := [];
    out := out + LittleEndian(MANIFEST_MAGIC, 4);
    out := out + LittleEndian(MANIFEST_VERSION, 4);
    out := out + LittleEndian(m.blockSize, 8);
    out := out + LittleEndian(m.totalBlocks, 8);
    out := out + LittleEndian(m.totalSize, 8);
    assert out == HeaderBytes(m);
    hide HeaderBytes;
    for i := 0 to |m.entries|
      invariant out == HeaderBytes(m) + EntriesBytes(m.entries[..i])
    {
      assert m.entries[..i + 1][..i] == m.entries[..i];
      out := out + LittleEndian(m.entries[i].blockIndex, 8);
      out := out + m.entries[i].hash;
    }
    assert m.entries[..|m.entries|] == m.entries;
  }

  /** The reader. Its size check is made in wrapping 64-bit arithmetic, but every read is bounded, so a
      header announcing more than the buffer holds is refused in any case. */
  method DeserializeManifest(data: seq<byte>) returns (r: Option<HashManifest>)
    requires |data| < 0x8000_0000_0000_0000
    ensures r == Deserialized(data)
  {
    if |data| < MANIFEST_HEADER || ReadU32(data, 0) != MANIFEST_MAGIC || ReadU32(data, 4) != MANIFEST_VERSION {
      return None;
    }
    var n := ReadU64(data, 16);
    var m := HashManifest(ReadU64(data, 8), n, ReadU64(data, 24), []);
    var expectedSize := (MANIFEST_HEADER + n * ENTRY_SIZE) % TWO_64;
    if |data| < expectedSize {
      return None;
    }
    var offset := MANIFEST_HEADER;
    for i := 0 to n
      invariant offset == MANIFEST_HEADER + ENTRY_SIZE * i <= |data|
      invariant m == HashManifest(ReadU64(data, 8), n, ReadU64(data, 24), EntriesAt(data, i))
    {
      if offset + 8 > |data| {
        return None;
      }
      var index := ReadU64(data, offset);
      offset := offset + 8;
      if offset + 32 > |data| {
        return None;
      }
      var hash: Hash := data[offset..offset + 32];
      offset := offset + 32;
      m := m.(entries := m.entries + [Entry(index, 0, hash)]);
    }
    r := Some(m);
  }

  lemma HeaderReads(m: HashManifest, rest: seq<byte>)
    ensures var s := HeaderBytes(m) + rest;
            && ReadU32(s, 0) == MANIFEST_MAGIC && ReadU32(s, 4) == MANIFEST_VERSION
            && ReadU64(s, 8) == m.blockSize && ReadU64(s, 16) == m.totalBlocks && ReadU64(s, 24) == m.totalSize
  {
    hide LittleEndian, ReadU32, ReadU64;
    var s := HeaderBytes(m) + rest;
    CutFive(LittleEndian(MANIFEST_MAGIC, 4), LittleEndian(MANIFEST_VERSION, 4), LittleEndian(m.blockSize, 8),
            LittleEndian(m.totalBlocks, 8), LittleEndian(m.totalSize, 8), rest);
    ReadU32Encoded(s, 0, MANIFEST_MAGIC);
    ReadU32Encoded(s, 4, MANIFEST_VERSION);
    ReadU64Encoded(s, 8, m.blockSize);
    ReadU64Encoded(s, 16, m.totalBlocks);
    ReadU64Encoded(s, 24, m.totalSize);
  }

  lemma {:induction false} EntriesBytesAt(es: seq<Entry>, i: nat)
    requires i < |es|
    ensures EntriesBytes(es)[ENTRY_SIZE * i..ENTRY_SIZE * (i + 1)] == EntryBytes(es[i])
  {
    var n := |es| - 1;
    if i == n {
    } else {
      EntriesBytesAt(es[..n], i);
      var t := EntriesBytes(es[..n]);
      assert EntriesBytes(es)[ENTRY_SIZE * i..ENTRY_SIZE * (i + 1)] == t[ENTRY_SIZE * i..ENTRY_SIZE * (i + 1)];
    }
  }

  function WithoutOffset(e: Entry): Entry { e.(offset := 0) }

  lemma EntryReadsAt(data: seq<byte>, at: nat, e: Entry)
    requires at + ENTRY_SIZE <= |data| && data[at..at + ENTRY_SIZE] == EntryBytes(e)
    ensures ReadU64(data, at) == e.blockIndex && data[at + 8..at + 40] == e.hash
  {
    hide LittleEndian, ReadU64;
    var whole := data[at..at + 40];
    assert data[at..at + 8] == whole[..8] == LittleEndian(e.blockIndex, 8);
    assert data[at + 8..at + 40] == whole[8..] == e.hash;
    ReadU64Encoded(data, at, e.blockIndex);
  }

  lemma SliceAfter(header: seq<byte>, body: seq<byte>, from: nat, to: nat)
    requires from <= to <= |body|
    ensures (header + body)[|header| + from..|header| + to] == body[from..to]
  {
  }

  lemma EntryReads(header: seq<byte>, es: seq<Entry>, i: nat)
    requires |header| == MANIFEST_HEADER && i < |es|
    ensures EntryAt(header + EntriesBytes(es), i) == WithoutOffset(es[i])
  {
    hide EntriesBytes, EntryBytes, ReadU64;
    EntriesBytesAt(es, i);
    SliceAfter(header, EntriesBytes(es), ENTRY_SIZE * i, ENTRY_SIZE * (i + 1));
    EntryReadsAt(header + EntriesBytes(es), MANIFEST_HEADER + ENTRY_SIZE * i, es[i]);
  }

  lemma {:induction false} EntriesRead(header: seq<byte>, es: seq<Entry>, n: nat)
    requires |header| == MANIFEST_HEADER && n <= |es|
    ensures var r := EntriesAt(header + EntriesBytes(es), n);
            forall i :: 0 <= i < n ==> r[i] == WithoutOffset(es[i])
  {
    if n == 0 {
    } else {
      EntriesRead(header, es, n - 1);
      EntryReads(header, es, n - 1);
    }
  }

  /** A serialized manifest comes back with the same sizes, indices and hashes: all of them when the
      entry count is TotalBlocks, the first TotalBlocks when there are more, nothing when there are
      fewer. */
  lemma ManifestRoundTrip(m: HashManifest)
    ensures var r := Deserialized(Serialized(m));
            && (r.Some? <==> m.totalBlocks <= |m.entries|)
            && (r.Some? ==>
                  && r.value.blockSize == m.blockSize && r.value.totalSize == m.totalSize
                  && r.value.totalBlocks == m.totalBlocks == |r.value.entries|
                  && forall i :: 0 <= i < m.totalBlocks ==> r.value.entries[i] == WithoutOffset(m.entries[i]))
  {
    HeaderReads(m, EntriesBytes(m.entries));
    if m.totalBlocks <= |m.entries| {
      EntriesRead(HeaderBytes(m), m.entries, m.totalBlocks);
    }
  }

  lemma EntryRewrites(data: seq<byte>, i: nat)
    requires MANIFEST_HEADER + ENTRY_SIZE * (i + 1) <= |data|
    ensures var at := MANIFEST_HEADER + ENTRY_SIZE * i;
            EntryBytes(EntryAt(data, i)) == data[at..at + ENTRY_SIZE]
  {
    hide ReadU64, LittleEndian;
    var at := MANIFEST_HEADER + ENTRY_SIZE * i;
    WriteU64Decoded(data, at);
    assert data[at..at + 8] + data[at + 8..at + 40] == data[at..at + 40];
  }

  lemma EntriesBytesNone()
    ensures EntriesBytes([]) == []
  {
  }

  lemma EntriesBytesAppend(es: seq<Entry>, e: Entry)
    ensures EntriesBytes(es + [e]) == EntriesBytes(es) + EntryBytes(e)
  {
    assert (es + [e])[..|es|] == es;
  }

  lemma Abut(data: seq<byte>, a: nat, b: nat, c: nat)
    requires a <= b <= c <= |data|
    ensures data[a..b] + data[b..c] == data[a..c]
  {
  }

  lemma {:induction false} EntriesRewrite(data: seq<byte>, n: nat)
    requires MANIFEST_HEADER + ENTRY_SIZE * n <= |data|
    ensures EntriesBytes(EntriesAt(data, n)) == data[MANIFEST_HEADER..MANIFEST_HEADER + ENTRY_SIZE * n]
  {
    EntriesBytesNone();
    hide EntriesBytes, EntryBytes, EntryAt;
    if n == 0 {
    } else {
      EntriesRewrite(data, n - 1);
      EntryRewrites(data, n - 1);
      EntriesBytesAppend(EntriesAt(data, n - 1), EntryAt(data, n - 1));
      Abut(data, MANIFEST_HEADER, MANIFEST_HEADER + ENTRY_SIZE * (n - 1), MANIFEST_HEADER + ENTRY_SIZE * n);
    }
  }

  lemma HeaderFields(data: seq<byte>)
    requires |data| >= MANIFEST_HEADER
    ensures data[0..4] + data[4..8] + data[8..16] + data[16..24] + data[24..32] == data[..MANIFEST_HEADER]
  {
  }

  lemma HeaderRewrites(data: seq<byte>, m: HashManifest)
    requires |data| >= MANIFEST_HEADER && ReadU32(data, 0) == MANIFEST_MAGIC && ReadU32(data, 4) == MANIFEST_VERSION
    requires m.blockSize == ReadU64(data, 8) && m.totalBlocks == ReadU64(data, 16) && m.totalSize == ReadU64(data, 24)
    ensures HeaderBytes(m) == data[..MANIFEST_HEADER]
  {
    hide ReadU64, ReadU32, LittleEndian;
    WriteU32Decoded(data, 0);
    WriteU32Decoded(data, 4);
    WriteU64Decoded(data, 8);
    WriteU64Decoded(data, 16);
    WriteU64Decoded(data, 24);
    HeaderFields(data);
  }

  /** Serializing what was read from any accepted buffer reproduces its front, byte for byte. */
  lemma AcceptedBufferRewrites(data: seq<byte>)
    requires Deserialized(data).Some?
    ensures var m := Deserialized(data).value;
            Serialized(m) == data[..MANIFEST_HEADER + ENTRY_SIZE * m.totalBlocks]
  {
    var n := ReadU64(data, 16);
    EntriesRewrite(data, n);
    HeaderRewrites(data, Deserialized(data).value);
    hide HeaderBytes, EntriesBytes, ReadU64, ReadU32;
    assert data[..32] + data[32..32 + ENTRY_SIZE * n] == data[..32 + ENTRY_SIZE * n];
  }
}
