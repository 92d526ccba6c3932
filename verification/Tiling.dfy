/** How a full backup cuts a disk into blocks, in 64-bit arithmetic (client/BackupEngine.cpp). */
module Tiling {
  import opened Bytes
  import opened Protocol
  import opened BlockProcessor

  function TotalBlocks(totalSize: u64): u64 {
    ((totalSize + BLOCK_SIZE - 1) % TWO_64) / BLOCK_SIZE
  }

  function BlockLen(totalSize: u64, i: u64): u32 {
    if i == TotalBlocks(totalSize) - 1 then
      var remain := (totalSize - i * BLOCK_SIZE) % TWO_64;
      if 0 < remain < BLOCK_SIZE then remain else BLOCK_SIZE
    else BLOCK_SIZE
  }

  lemma TotalIsCeiling(totalSize: u64)
    requires totalSize <= 0x8000_0000_0000_0000
    ensures var n := TotalBlocks(totalSize);
            (n - 1) * BLOCK_SIZE < totalSize <= n * BLOCK_SIZE || (totalSize == 0 && n == 0)
  {
  }

  /** Each block is non-empty, at most 1 MiB, inside the disk, and ends where the next one starts;
      the last one ends at the end of the disk. */
  lemma BlockFits(totalSize: u64, i: u64)
    requires totalSize <= 0x8000_0000_0000_0000 && i < TotalBlocks(totalSize)
    ensures 0 < BlockLen(totalSize, i) <= BLOCK_SIZE
    ensures i * BLOCK_SIZE + BlockLen(totalSize, i)
            == if i + 1 == TotalBlocks(totalSize) then totalSize else (i + 1) * BLOCK_SIZE
    ensures i * BLOCK_SIZE + BlockLen(totalSize, i) <= totalSize
  {
    TotalIsCeiling(totalSize);
  }

  predicate InBlock(totalSize: u64, i: u64, p: nat) {
    i * BLOCK_SIZE <= p < i * BLOCK_SIZE + BlockLen(totalSize, i)
  }

  /** The blocks tile the disk: every byte lies in exactly one of them. */
  lemma BlocksTile(totalSize: u64, p: nat)
    requires totalSize <= 0x8000_0000_0000_0000
    ensures p < totalSize ==> p / BLOCK_SIZE < TotalBlocks(totalSize) && InBlock(totalSize, p / BLOCK_SIZE, p)
    ensures forall i: u64 :: i < TotalBlocks(totalSize) && InBlock(totalSize, i, p)
                             ==> p < totalSize && i == p / BLOCK_SIZE
  {
    TotalIsCeiling(totalSize);
    if p < totalSize {
      assert p / BLOCK_SIZE < TotalBlocks(totalSize);
      BlockFits(totalSize, p / BLOCK_SIZE);
    }
    forall i: u64 | i < TotalBlocks(totalSize) && InBlock(totalSize, i, p)
      ensures p < totalSize && i == p / BLOCK_SIZE
    {
      BlockFits(totalSize, i);
    }
  }

  /** Once the HELLO is accepted, no block of the backup can be answered INVALID_DEV or OUT_OF_RANGE,
      whatever its payload, and its place is computed without wrap. */
  lemma HandshakeMakesBlocksValid(cd: Codec, disks: Disks, devNo: u32, totalSize: u64, bh: BlockHeader,
                                  payload: seq<byte>, w: WriteOutcome)
    requires ValidDisks(disks) && devNo in disks && totalSize <= |disks[devNo]|
    requires bh.blockIndex < TotalBlocks(totalSize) && bh.dataSize == BlockLen(totalSize, bh.blockIndex)
    ensures OffsetOf(bh.blockIndex) == bh.blockIndex * BLOCK_SIZE
    ensures var status := Process(cd, disks, devNo, bh, payload, w).ack.status;
            status != INVALID_DEV && status != OUT_OF_RANGE
  {
    BlockFits(totalSize, bh.blockIndex);
    OffsetIsPlace(bh.blockIndex);
    var end := bh.blockIndex * BLOCK_SIZE + bh.dataSize;
    assert end < TWO_64;
  }
}
