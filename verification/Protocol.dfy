/** Message layouts shared by the client and the server, and their byte images. */
module Protocol {
  import opened Bytes

  const PROTOCOL_MAGIC: u32 := 0x474F3243
  const HEADER_SIZE: nat := 16
  const BLOCK_HEADER_SIZE: nat := 52
  const ACK_BODY_SIZE: nat := 48
  const HELLO_BODY_SIZE: nat := 88
  const BLOCK_SIZE: nat := 1024 * 1024

  // Message types.
  const DATA_BLOCK: u32 := 1
  const ACK: u32 := 2
  const HELLO: u32 := 3
  const BYE: u32 := 4
  const ERROR: u32 := 5

  // Status codes of an ACK.
  const OK: u32 := 0
  const HASH_MISMATCH: u32 := 1
  const DECOMPRESS_ERROR: u32 := 2
  const WRITE_ERROR: u32 := 3
  const INVALID_DEV: u32 := 4
  const OUT_OF_RANGE: u32 := 5

  type Hash = h: seq<byte> | |h| == 32 witness seq(32, _ => 0)
  type VersionType = v: seq<byte> | |v| == 64 witness seq(64, _ => 0)

  function ZeroHash(): Hash {
    seq(32, _ => 0)
  }

  datatype MsgHeader = MsgHeader(magic: u32, msgType: u32, devNo: u32, reserved: u32)
  datatype BlockHeader = BlockHeader(blockIndex: u64, dataSize: u32, compressedSize: u32, hash: Hash, versionId: u32)
  datatype AckBody = AckBody(blockIndex: u64, status: u32, devNo: u32, hash: Hash)
  datatype HelloBody = HelloBody(versionId: u32, devNo: u32, totalBlocks: u64, totalSize: u64, versionType: VersionType)

  /** A message as it stands on the wire: its header and its body bytes. */
  datatype Frame = Frame(header: MsgHeader, body: seq<byte>)

  // ---------- structure layouts ----------

  function EncodeHeader(h: MsgHeader): (s: seq<byte>)
    ensures |s| == HEADER_SIZE
  {
    LittleEndian(h.magic, 4) + LittleEndian(h.msgType, 4) + LittleEndian(h.devNo, 4) + LittleEndian(h.reserved, 4)
  }

  function DecodeHeader(s: seq<byte>): MsgHeader
    requires |s| >= HEADER_SIZE
  {
    MsgHeader(ReadU32(s, 0), ReadU32(s, 4), ReadU32(s, 8), ReadU32(s, 12))
  }

  function EncodeBlockHeader(b: BlockHeader): (s: seq<byte>)
    ensures |s| == BLOCK_HEADER_SIZE
  {
    LittleEndian(b.blockIndex, 8) + LittleEndian(b.dataSize, 4) + LittleEndian(b.compressedSize, 4)
    + b.hash + LittleEndian(b.versionId, 4)
  }

  function DecodeBlockHeader(s: seq<byte>): BlockHeader
    requires |s| >= BLOCK_HEADER_SIZE
  {
    BlockHeader(ReadU64(s, 0), ReadU32(s, 8), ReadU32(s, 12), s[16..48], ReadU32(s, 48))
  }

  function EncodeAckBody(a: AckBody): (s: seq<byte>)
    ensures |s| == ACK_BODY_SIZE
  {
    LittleEndian(a.blockIndex, 8) + LittleEndian(a.status, 4) + LittleEndian(a.devNo, 4) + a.hash
  }

  function DecodeAckBody(s: seq<byte>): AckBody
    requires |s| >= ACK_BODY_SIZE
  {
    AckBody(ReadU64(s, 0), ReadU32(s, 8), ReadU32(s, 12), s[16..48])
  }

  function EncodeHelloBody(b: HelloBody): (s: seq<byte>)
    ensures |s| == HELLO_BODY_SIZE
  {
    LittleEndian(b.versionId, 4) + LittleEndian(b.devNo, 4) + LittleEndian(b.totalBlocks, 8)
    + LittleEndian(b.totalSize, 8) + b.versionType
  }

  function DecodeHelloBody(s: seq<byte>): HelloBody
    requires |s| >= HELLO_BODY_SIZE
  {
    HelloBody(ReadU32(s, 0), ReadU32(s, 4), ReadU64(s, 8), ReadU64(s, 16), s[24..88])
  }

  /** Reading a structure back gives the structure, whatever follows it, each field from its own place. */
  lemma HeaderRoundTrip(h: MsgHeader, rest: seq<byte>)
    ensures var s := EncodeHeader(h) + rest;
            && DecodeHeader(s) == h
            && ReadU32(s, 0) == h.magic && ReadU32(s, 4) == h.msgType && ReadU32(s, 8) == h.devNo && ReadU32(s, 12) == h.reserved
  {
    hide LittleEndian, ReadU32, ReadU64;
    var s := EncodeHeader(h) + rest;
    CutFour(LittleEndian(h.magic, 4), LittleEndian(h.msgType, 4), LittleEndian(h.devNo, 4), LittleEndian(h.reserved, 4), rest);
    ReadU32Encoded(s, 0, h.magic);
    ReadU32Encoded(s, 4, h.msgType);
    ReadU32Encoded(s, 8, h.devNo);
    ReadU32Encoded(s, 12, h.reserved);
  }

  lemma BlockHeaderRoundTrip(b: BlockHeader, rest: seq<byte>)
    ensures var s := EncodeBlockHeader(b) + rest;
            && DecodeBlockHeader(s) == b
            && ReadU64(s, 0) == b.blockIndex && ReadU32(s, 8) == b.dataSize && ReadU32(s, 12) == b.compressedSize
            && s[16..48] == b.hash && ReadU32(s, 48) == b.versionId
  {
    hide LittleEndian, ReadU32, ReadU64;
    var s := EncodeBlockHeader(b) + rest;
    CutFive(LittleEndian(b.blockIndex, 8), LittleEndian(b.dataSize, 4), LittleEndian(b.compressedSize, 4), b.hash,
            LittleEndian(b.versionId, 4), rest);
    ReadU64Encoded(s, 0, b.blockIndex);
    ReadU32Encoded(s, 8, b.dataSize);
    ReadU32Encoded(s, 12, b.compressedSize);
    ReadU32Encoded(s, 48, b.versionId);
  }

  lemma AckBodyRoundTrip(a: AckBody, rest: seq<byte>)
    ensures var s := EncodeAckBody(a) + rest;
            && DecodeAckBody(s) == a
            && ReadU64(s, 0) == a.blockIndex && ReadU32(s, 8) == a.status && ReadU32(s, 12) == a.devNo && s[16..48] == a.hash
  {
    hide LittleEndian, ReadU32, ReadU64;
    var s := EncodeAckBody(a) + rest;
    CutFour(LittleEndian(a.blockIndex, 8), LittleEndian(a.status, 4), LittleEndian(a.devNo, 4), a.hash, rest);
    ReadU64Encoded(s, 0, a.blockIndex);
    ReadU32Encoded(s, 8, a.status);
    ReadU32Encoded(s, 12, a.devNo);
  }

  lemma HelloBodyRoundTrip(b: HelloBody, rest: seq<byte>)
    ensures var s := EncodeHelloBody(b) + rest;
            && DecodeHelloBody(s) == b
            && ReadU32(s, 0) == b.versionId && ReadU32(s, 4) == b.devNo && ReadU64(s, 8) == b.totalBlocks
            && ReadU64(s, 16) == b.totalSize && s[24..88] == b.versionType
  {
    hide LittleEndian, ReadU32, ReadU64;
    var s := EncodeHelloBody(b) + rest;
    CutFive(LittleEndian(b.versionId, 4), LittleEndian(b.devNo, 4), LittleEndian(b.totalBlocks, 8),
            LittleEndian(b.totalSize, 8), b.versionType, rest);
    ReadU32Encoded(s, 0, b.versionId);
    ReadU32Encoded(s, 4, b.devNo);
    ReadU64Encoded(s, 8, b.totalBlocks);
    ReadU64Encoded(s, 16, b.totalSize);
  }

  /** No two headers share a byte image: the layout has no padding and no overlap. */
  lemma HeaderImage(s: seq<byte>)
    requires |s| >= HEADER_SIZE
    ensures EncodeHeader(DecodeHeader(s)) == s[..HEADER_SIZE]
  {
    hide ReadU32, LittleEndian;
    WriteU32Decoded(s, 0);
    WriteU32Decoded(s, 4);
    WriteU32Decoded(s, 8);
    WriteU32Decoded(s, 12);
    assert s[0..4] + s[4..8] + s[8..12] + s[12..16] == s[..16];
  }

  // ---------- messages ----------

  function EncodeFrame(f: Frame): (s: seq<byte>)
    ensures |s| == HEADER_SIZE + |f.body|
  {
    EncodeHeader(f.header) + f.body
  }

  /** A header as both sides build it: zeroed, then magic, type and device filled in. */
  function Header(msgType: u32, devNo: u32): MsgHeader {
    MsgHeader(PROTOCOL_MAGIC, msgType, devNo, 0)
  }

  /** What the client can send. */
  datatype Message =
    | Hello(helloDev: u32, hello: HelloBody)
    | Data(dataDev: u32, block: BlockHeader, payload: seq<byte>)
    | Bye(byeDev: u32)

  predicate Sendable(m: Message) {
    m.Data? ==> m.block.compressedSize == |m.payload| <= 2 * BLOCK_SIZE
  }

  function ToFrame(m: Message): Frame {
    match m
    case Hello(dev, body) => Frame(Header(HELLO, dev), EncodeHelloBody(body))
    case Data(dev, block, payload) => Frame(Header(DATA_BLOCK, dev), EncodeBlockHeader(block) + payload)
    case Bye(dev) => Frame(Header(BYE, dev), [])
  }

  /** The client message a frame carries, if it carries one. */
  function FromFrame(f: Frame): Option<Message> {
    if f.header.magic != PROTOCOL_MAGIC || f.header.reserved != 0 then None
    else if f.header.msgType == HELLO && |f.body| == HELLO_BODY_SIZE then
      Some(Hello(f.header.devNo, DecodeHelloBody(f.body)))
    else if f.header.msgType == DATA_BLOCK && |f.body| >= BLOCK_HEADER_SIZE then
      Some(Data(f.header.devNo, DecodeBlockHeader(f.body), f.body[BLOCK_HEADER_SIZE..]))
    else if f.header.msgType == BYE && f.body == [] then Some(Bye(f.header.devNo))
    else None
  }

  lemma FrameRoundTrip(m: Message)
    ensures FromFrame(ToFrame(m)) == Some(m)
  {
    match m
    case Hello(dev, body) =>
      HelloBodyRoundTrip(body, []);
      assert EncodeHelloBody(body) + [] == EncodeHelloBody(body);
    case Data(dev, block, payload) =>
      BlockHeaderRoundTrip(block, payload);
      assert ToFrame(m).body[BLOCK_HEADER_SIZE..] == payload;
    case Bye(dev) =>
  }

  function AckFrame(a: AckBody): Frame {
    Frame(Header(ACK, a.devNo), EncodeAckBody(a))
  }

  /** The bytes of a list of ACKs, in order: what the server owes the client. */
  function EncodeAcks(acks: seq<AckBody>): (s: seq<byte>)
    ensures |s| == (HEADER_SIZE + ACK_BODY_SIZE) * |acks|
  {
    if acks == [] then [] else EncodeFrame(AckFrame(acks[0])) + EncodeAcks(acks[1..])
  }

  lemma {:induction false} EncodeAcksAppend(acks: seq<AckBody>, a: AckBody)
    ensures EncodeAcks(acks + [a]) == EncodeAcks(acks) + EncodeFrame(AckFrame(a))
  {
    if acks == [] {
      assert acks + [a] == [a];
    } else {
      EncodeAcksAppend(acks[1..], a);
      assert (acks + [a])[1..] == acks[1..] + [a] && (acks + [a])[0] == acks[0];
      Reassociate(EncodeFrame(AckFrame(acks[0])), EncodeAcks(acks[1..]), EncodeFrame(AckFrame(a)));
    }
  }
}
