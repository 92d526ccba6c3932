/** Cutting messages out of the received byte stream (server/MessageParser.cpp). */
module MessageParser {
  import opened Bytes
  import opened Protocol

  datatype ParseResult =
    | NeedMore
    | Parsed(frame: Frame)
    | BadMagic(gotMagic: u32)
    | InvalidType(gotType: u32)
    | OversizeBlock(claimedSize: u32, claimedIndex: u64)

  /** One attempt to read a message off the front of the unread bytes. */
  function TryParse(buf: seq<byte>): ParseResult {
    if |buf| < HEADER_SIZE then NeedMore
    else
      var h := DecodeHeader(buf);
      if h.magic != PROTOCOL_MAGIC then BadMagic(h.magic)
      else if h.msgType == HELLO then TakeBody(buf, h, HELLO_BODY_SIZE)
      else if h.msgType == DATA_BLOCK then
        if |buf| < HEADER_SIZE + BLOCK_HEADER_SIZE then NeedMore
        else
          var b := DecodeBlockHeader(buf[HEADER_SIZE..]);
          if b.compressedSize > 2 * BLOCK_SIZE then OversizeBlock(b.compressedSize, b.blockIndex)
          else TakeBody(buf, h, BLOCK_HEADER_SIZE + b.compressedSize)
      else if h.msgType == BYE then TakeBody(buf, h, 0)
      else if h.msgType == ACK then TakeBody(buf, h, ACK_BODY_SIZE)
      else if h.msgType == ERROR then TakeBody(buf, h, 0)
      else InvalidType(h.msgType)
  }

  function TakeBody(buf: seq<byte>, h: MsgHeader, bodyLen: nat): ParseResult
    requires |buf| >= HEADER_SIZE
  {
    if |buf| < HEADER_SIZE + bodyLen then NeedMore
    else Parsed(Frame(h, buf[HEADER_SIZE..HEADER_SIZE + bodyLen]))
  }

  /** A frame whose body has the length its type (and block header) announce. */
  predicate WellFormed(f: Frame) {
    && f.header.magic == PROTOCOL_MAGIC
    && (|| (f.header.msgType == HELLO && |f.body| == HELLO_BODY_SIZE)
        || (f.header.msgType == DATA_BLOCK && |f.body| >= BLOCK_HEADER_SIZE
            && DecodeBlockHeader(f.body).compressedSize == |f.body| - BLOCK_HEADER_SIZE <= 2 * BLOCK_SIZE)
        || (f.header.msgType == BYE && f.body == [])
        || (f.header.msgType == ACK && |f.body| == ACK_BODY_SIZE)
        || (f.header.msgType == ERROR && f.body == []))
  }

  lemma DecodeIsLocal(s: seq<byte>, t: seq<byte>)
    ensures |s| >= HEADER_SIZE ==> DecodeHeader(s + t) == DecodeHeader(s)
    ensures |s| >= BLOCK_HEADER_SIZE ==> DecodeBlockHeader(s + t) == DecodeBlockHeader(s)
  {
    forall a: nat, b: nat | a <= b <= |s| ensures (s + t)[a..b] == s[a..b] {}
  }

  /** The body length a header announces, read off its bytes. */
  function AnnouncedLength(buf: seq<byte>): nat
    requires |buf| >= HEADER_SIZE + BLOCK_HEADER_SIZE || (|buf| >= HEADER_SIZE && ReadU32(buf, 4) != DATA_BLOCK)
  {
    var t := ReadU32(buf, 4);
    if t == DATA_BLOCK then 52 + ReadU32(buf, 28) else if t == ACK then 48 else if t == HELLO then 88 else 0
  }

  /** The header's magic and type are ones the protocol knows. */
  predicate KnownHeader(buf: seq<byte>)
    requires |buf| >= HEADER_SIZE
  {
    ReadU32(buf, 0) == 0x474F3243 && 1 <= ReadU32(buf, 4) <= 5
  }

  lemma ClaimedSize(buf: seq<byte>)
    requires |buf| >= HEADER_SIZE + BLOCK_HEADER_SIZE
    ensures DecodeBlockHeader(buf[HEADER_SIZE..]).compressedSize == ReadU32(buf, 28)
    ensures DecodeBlockHeader(buf[HEADER_SIZE..]).blockIndex == ReadU64(buf, 16)
  {
    var x := buf[HEADER_SIZE..];
    assert x[12..16] == buf[28..32] && x[0..8] == buf[16..24];
  }

  /** Which answer a buffer gets, in terms of its bytes: need-more below 16 bytes; bad magic; a type that is
      none of 1 to 5; a block of 68 header bytes that claims more than 2 MiB; a message that is all there;
      need-more otherwise. */
  lemma AnswerByBytes(buf: seq<byte>)
    ensures |buf| < 16 ==> TryParse(buf).NeedMore?
    ensures |buf| >= 16 ==>
              var r, magic, t := TryParse(buf), ReadU32(buf, 0), ReadU32(buf, 4);
              var claims := KnownHeader(buf) && t == DATA_BLOCK && |buf| >= 68 && ReadU32(buf, 28) > 0x20_0000;
              && (r.BadMagic? <==> magic != 0x474F3243) && (r.BadMagic? ==> r.gotMagic == magic)
              && (r.InvalidType? <==> magic == 0x474F3243 && !(1 <= t <= 5)) && (r.InvalidType? ==> r.gotType == t)
              && (r.OversizeBlock? <==> claims)
              && (r.OversizeBlock? ==> r.claimedSize == ReadU32(buf, 28) && r.claimedIndex == ReadU64(buf, 16))
              && (r.Parsed? <==> KnownHeader(buf) && !claims && (t == DATA_BLOCK ==> |buf| >= 68)
                                 && |buf| >= 16 + AnnouncedLength(buf))
              && (r.Parsed? ==> r.frame.header == DecodeHeader(buf) && r.frame.body == buf[16..16 + AnnouncedLength(buf)])
  {
    if |buf| >= HEADER_SIZE + BLOCK_HEADER_SIZE {
      ClaimedSize(buf);
    }
    hide ReadU32, ReadU64;
  }

  lemma AnswerNeedsHeader(buf: seq<byte>)
    requires !TryParse(buf).NeedMore?
    ensures |buf| >= HEADER_SIZE
  {
  }

  /** Every answer other than "need more" survives the arrival of further bytes. */
  lemma ParseIsStable(s: seq<byte>, t: seq<byte>)
    requires !TryParse(s).NeedMore?
    ensures TryParse(s + t) == TryParse(s)
  {
    DecodeIsLocal(s, t);
    var x := s[HEADER_SIZE..];
    assert (s + t)[HEADER_SIZE..] == x + t;
    DecodeIsLocal(x, t);
    forall b: nat | HEADER_SIZE <= b <= |s| ensures (s + t)[HEADER_SIZE..b] == s[HEADER_SIZE..b] {}
  }

  /** What the parser returns is a well-formed frame whose image is the front of the buffer. */
  lemma ParsedIsFront(buf: seq<byte>)
    requires TryParse(buf).Parsed?
    ensures var f := TryParse(buf).frame;
            WellFormed(f) && Prefix(EncodeFrame(f), buf)
  {
    var f := TryParse(buf).frame;
    HeaderImage(buf);
    assert buf[..HEADER_SIZE + |f.body|] == buf[..HEADER_SIZE] + f.body;
    if f.header.msgType == DATA_BLOCK {
      var x := buf[HEADER_SIZE..];
      DecodeIsLocal(f.body, x[|f.body|..]);
      assert f.body + x[|f.body|..] == x;
    }
  }

  /** A well-formed frame at the front of the buffer is exactly what the parser returns ... */
  lemma ParseWhole(f: Frame, rest: seq<byte>)
    requires WellFormed(f)
    ensures TryParse(EncodeFrame(f) + rest) == Parsed(f)
  {
    hide EncodeHeader, DecodeHeader, DecodeBlockHeader;
    var buf := EncodeFrame(f) + rest;
    Reassociate(EncodeHeader(f.header), f.body, rest);
    HeaderRoundTrip(f.header, f.body + rest);
    assert buf[HEADER_SIZE..] == f.body + rest;
    DecodeIsLocal(f.body, rest);
    assert buf[HEADER_SIZE..HEADER_SIZE + |f.body|] == f.body;
  }

  /** ... and until its last byte is there the parser only asks for more. */
  lemma ParsePartial(f: Frame, s: seq<byte>)
    requires WellFormed(f) && Prefix(s, EncodeFrame(f)) && |s| < |EncodeFrame(f)|
    ensures TryParse(s) == NeedMore
  {
    var whole := EncodeFrame(f);
    var rest := whole[|s|..];
    assert s + rest == whole;
    assert whole + [] == whole;
    ParseWhole(f, []);
    if !TryParse(s).NeedMore? {
      ParseIsStable(s, rest);
      ParsedIsFront(s);
    }
  }

  /** "Need more" is answered only to a buffer shorter than the longest message. */
  lemma NeedMoreIsShort(buf: seq<byte>)
    requires TryParse(buf).NeedMore?
    ensures |buf| < HEADER_SIZE + BLOCK_HEADER_SIZE + 2 * BLOCK_SIZE
  {
  }

  lemma SendableIsWellFormed(m: Message)
    requires Sendable(m)
    ensures WellFormed(ToFrame(m))
  {
    if m.Data? {
      BlockHeaderRoundTrip(m.block, m.payload);
    }
  }

  lemma AckIsWellFormed(a: AckBody)
    ensures WellFormed(AckFrame(a))
  {
  }
}
