/** Storing one block on a backing image: inflate, check the hash, write at its place
    (server/BlockProcessor.cpp). */
module BlockProcessor {
  import opened Bytes
  import opened Protocol

  /** The library code both ends rely on: SHA-256, the compressor and zlib's inflate. */
  datatype Codec = Codec(
    sha: seq<byte> -> Hash,
    compress: seq<byte> -> seq<byte>,
    inflate: seq<byte> -> Option<seq<byte>>)

  /** Blocks compress to at most twice the block size and inflate back to themselves. */
  ghost predicate Lawful(cd: Codec) {
    forall x: seq<byte> :: 0 < |x| <= BLOCK_SIZE ==>
      |cd.compress(x)| <= 2 * BLOCK_SIZE && cd.inflate(cd.compress(x)) == Some(x)
  }

  /** Backing images by device number. Opened files are non-empty and off_t is 63 bits wide. */
  type Disks = map<u32, seq<byte>>

  ghost predicate ValidDisks(disks: Disks) {
    forall d :: d in disks ==> 0 < |disks[d]| < 0x8000_0000_0000_0000
  }

  /** How a positioned write ends: completely, or short or failed with the region left as `left`. */
  datatype WriteOutcome = Complete | Failed(left: seq<byte>)

  const RAW_BUFFER_SIZE: nat := BLOCK_SIZE + 64

  datatype Processed = Processed(ack: AckBody, disks: Disks)

  /** `img` with `data` at `offset`. */
  function Overwrite(img: seq<byte>, offset: nat, data: seq<byte>): (r: seq<byte>)
    requires offset + |data| <= |img|
    ensures |r| == |img|
    ensures r[offset..offset + |data|] == data
    ensures forall p :: 0 <= p < |img| && !(offset <= p < offset + |data|) ==> r[p] == img[p]
  {
    img[..offset] + data + img[offset + |data|..]
  }

  /** The byte offset of a block in the server's 64-bit arithmetic. */
  function OffsetOf(blockIndex: u64): u64 {
    (blockIndex * BLOCK_SIZE) % TWO_64
  }

  function Answer(devNo: u32, bh: BlockHeader, status: u32): AckBody {
    AckBody(bh.blockIndex, status, devNo, bh.hash)
  }

  /** One DATA_BLOCK: the checks in order, then the write. `w` is how the write ends. */
  function Process(cd: Codec, disks: Disks, devNo: u32, bh: BlockHeader, payload: seq<byte>, w: WriteOutcome): Processed
  {
    if devNo !in disks then Processed(Answer(devNo, bh, INVALID_DEV), disks)
    else if bh.dataSize == 0 || bh.dataSize > BLOCK_SIZE then Processed(Answer(devNo, bh, OUT_OF_RANGE), disks)
    else
      var img := disks[devNo];
      var offset := OffsetOf(bh.blockIndex);
      if (offset + bh.dataSize) % TWO_64 > |img| then Processed(Answer(devNo, bh, OUT_OF_RANGE), disks)
      else
        var inflated := cd.inflate(payload);
        if inflated.None? || |inflated.value| > RAW_BUFFER_SIZE || |inflated.value| != bh.dataSize then
          Processed(Answer(devNo, bh, DECOMPRESS_ERROR), disks)
        else if cd.sha(inflated.value) != bh.hash then
          Processed(Answer(devNo, bh, HASH_MISMATCH), disks)
        else
          Store(disks, devNo, bh, inflated.value, w)
  }

  /** The positioned write. An offset that does not fit off_t is negative there and is refused. */
  function Store(disks: Disks, devNo: u32, bh: BlockHeader, raw: seq<byte>, w: WriteOutcome): Processed
    requires devNo in disks
  {
    var img := disks[devNo];
    var offset := OffsetOf(bh.blockIndex);
    if offset + |raw| > |img| then Processed(Answer(devNo, bh, WRITE_ERROR), disks)
    else match w
      case Complete =>
        Processed(Answer(devNo, bh, OK), disks[devNo := Overwrite(img, offset, raw)])
      case Failed(left) =>
        if |left| == |raw| then Processed(Answer(devNo, bh, WRITE_ERROR), disks[devNo := Overwrite(img, offset, left)])
        else Processed(Answer(devNo, bh, WRITE_ERROR), disks)
  }

  /** The status of a refused block names the first check it fails: an unknown device; a size or a place
      outside the image; bytes that do not inflate to the announced size; bytes of another hash. A block
      that fails none is written, and is OK only if the write completes inside the image. */
  lemma StatusNamesTheFailedCheck(cd: Codec, disks: Disks, devNo: u32, bh: BlockHeader, payload: seq<byte>, w: WriteOutcome)
    ensures var status, raw := Process(cd, disks, devNo, bh, payload, w).ack.status, cd.inflate(payload);
            var inRange := devNo in disks && 0 < bh.dataSize <= BLOCK_SIZE
                           && ((bh.blockIndex * BLOCK_SIZE) % TWO_64 + bh.dataSize) % TWO_64 <= |disks[devNo]|;
            var inflates := raw.Some? && |raw.value| == bh.dataSize;
            && (status == INVALID_DEV <==> devNo !in disks)
            && (status == OUT_OF_RANGE <==> devNo in disks && !inRange)
            && (status == DECOMPRESS_ERROR <==> inRange && !inflates)
            && (status == HASH_MISMATCH <==> inRange && inflates && cd.sha(raw.value) != bh.hash)
            && (inRange && inflates && cd.sha(raw.value) == bh.hash ==>
                  status == if w.Complete? && (bh.blockIndex * BLOCK_SIZE) % TWO_64 + bh.dataSize <= |disks[devNo]| then OK
                            else WRITE_ERROR)
  {
  }

  /** Every answer echoes the block's index and hash and the message's device. */
  lemma ProcessEchoes(cd: Codec, disks: Disks, devNo: u32, bh: BlockHeader, payload: seq<byte>, w: WriteOutcome)
    ensures var a := Process(cd, disks, devNo, bh, payload, w).ack;
            a.blockIndex == bh.blockIndex && a.devNo == devNo && a.hash == bh.hash
  {
  }

  /** OK means stored: the image holds bytes of the announced size and hash at the block's offset. */
  lemma OkMeansStored(cd: Codec, disks: Disks, devNo: u32, bh: BlockHeader, payload: seq<byte>, w: WriteOutcome)
    requires Process(cd, disks, devNo, bh, payload, w).ack.status == OK
    ensures var after := Process(cd, disks, devNo, bh, payload, w).disks;
            var at := OffsetOf(bh.blockIndex);
            && devNo in after
            && 0 < bh.dataSize <= BLOCK_SIZE
            && at + bh.dataSize <= |after[devNo]|
            && cd.inflate(payload) == Some(after[devNo][at..at + bh.dataSize])
            && cd.sha(after[devNo][at..at + bh.dataSize]) == bh.hash
  {
  }

  /** The offset is the block's own place, BlockIndex times 1 MiB, exactly for indices below 2^44. */
  lemma OffsetIsPlace(blockIndex: u64)
    ensures OffsetOf(blockIndex) == blockIndex * BLOCK_SIZE <==> blockIndex < 0x1000_0000_0000
  {
    if blockIndex >= 0x1000_0000_0000 {
      assert blockIndex * BLOCK_SIZE >= TWO_64;
    } else {
      assert blockIndex * BLOCK_SIZE < TWO_64;
    }
  }

  /** Nothing but the block's own range of its own device's image can change, and that only
      with status OK or WRITE_ERROR. */
  lemma ProcessFrame(cd: Codec, disks: Disks, devNo: u32, bh: BlockHeader, payload: seq<byte>, w: WriteOutcome)
    ensures var r := Process(cd, disks, devNo, bh, payload, w);
            && r.disks.Keys == disks.Keys
            && (forall d :: d in disks ==> |r.disks[d]| == |disks[d]|)
            && (forall d :: d in disks && d != devNo ==> r.disks[d] == disks[d])
            && (devNo in disks ==>
                  (forall p :: 0 <= p < |disks[devNo]|
                               && !(OffsetOf(bh.blockIndex) <= p < OffsetOf(bh.blockIndex) + bh.dataSize)
                               ==> r.disks[devNo][p] == disks[devNo][p]))
            && (r.ack.status != OK && r.ack.status != WRITE_ERROR ==> r.disks == disks)
  {
  }

  lemma InflateUndoesCompress(cd: Codec, raw: seq<byte>)
    requires Lawful(cd) && 0 < |raw| <= BLOCK_SIZE
    ensures cd.inflate(cd.compress(raw)) == Some(raw) && |cd.compress(raw)| <= 2 * BLOCK_SIZE
  {
  }

  /** A block that lies inside the image passes the range checks. */
  lemma InsideImage(blockIndex: u64, size: u32, imageSize: nat)
    requires blockIndex * BLOCK_SIZE + size <= imageSize < TWO_64
    ensures OffsetOf(blockIndex) == blockIndex * BLOCK_SIZE
    ensures (OffsetOf(blockIndex) + size) % TWO_64 == blockIndex * BLOCK_SIZE + size
  {
    OffsetIsPlace(blockIndex);
  }

  /** A block inside the image, built with a lawful codec, is answered OK or WRITE_ERROR,
      and OK exactly when the write completes. */
  lemma GoodBlockStatus(cd: Codec, disks: Disks, devNo: u32, bh: BlockHeader, raw: seq<byte>, w: WriteOutcome)
    requires Lawful(cd)
    requires devNo in disks && |disks[devNo]| < TWO_64
    requires 0 < |raw| <= BLOCK_SIZE && bh.dataSize == |raw| && bh.hash == cd.sha(raw)
    requires bh.blockIndex * BLOCK_SIZE + |raw| <= |disks[devNo]|
    ensures Process(cd, disks, devNo, bh, cd.compress(raw), w) == Store(disks, devNo, bh, raw, w)
    ensures OffsetOf(bh.blockIndex) == bh.blockIndex * BLOCK_SIZE
    ensures Store(disks, devNo, bh, raw, w).ack.status == if w.Complete? then OK else WRITE_ERROR
  {
    InsideImage(bh.blockIndex, bh.dataSize, |disks[devNo]|);
    InflateUndoesCompress(cd, raw);
    hide OffsetOf, Lawful;
  }
}
