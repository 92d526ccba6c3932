/** What the server does with its byte stream, on values: handlers, one turn of the message loop,
    the loop, and the arrival of chunks (server/Server.cpp). */
module ServerModel {
  import opened Bytes
  import opened Protocol
  import opened MessageParser
  import opened BlockProcessor

  /** How the k-th positioned write of the connection ends. */
  type Writes = nat -> WriteOutcome

  /** One connection, without its buffers; `acks` is every ACK queued so far, in order. */
  datatype Conn = Conn(open: bool, helloDone: bool, devno: u32,
                       blocksReceived: nat, bytesWritten: nat, errors: nat, acks: seq<AckBody>)

  const FRESH: Conn := Conn(true, false, 0, 0, 0, 0, [])

  datatype Server = Server(conn: Conn, disks: Disks)

  function Enqueue(c: Conn, a: AckBody): Conn {
    c.(acks := c.acks + [a])
  }

  function Close(c: Conn): Conn {
    c.(open := false)
  }

  function HandleHello(s: Server, f: Frame): Server {
    var c := s.conn;
    if c.helloDone then s
    else if |f.body| < HELLO_BODY_SIZE then
      s.(conn := Close(Enqueue(c, AckBody(0, INVALID_DEV, f.header.devNo, ZeroHash()))))
    else
      var hb := DecodeHelloBody(f.body);
      if hb.devNo !in s.disks then
        s.(conn := Close(Enqueue(c, AckBody(0, INVALID_DEV, hb.devNo, ZeroHash()))))
      else if |s.disks[hb.devNo]| < hb.totalSize then
        s.(conn := Close(Enqueue(c, AckBody(0, OUT_OF_RANGE, hb.devNo, ZeroHash()))))
      else
        s.(conn := Enqueue(c.(devno := hb.devNo, helloDone := true), AckBody(0, OK, hb.devNo, ZeroHash())))
  }

  function Count(c: Conn, status: u32, size: nat): Conn {
    if status == OK
    then c.(blocksReceived := c.blocksReceived + 1, bytesWritten := c.bytesWritten + size)
    else c.(blocksReceived := c.blocksReceived + 1, errors := c.errors + 1)
  }

  function HandleDataBlock(cd: Codec, w: WriteOutcome, s: Server, f: Frame): Server {
    var c := s.conn;
    if !c.helloDone then s.(conn := Close(c))
    else if |f.body| < BLOCK_HEADER_SIZE then s
    else
      var bh := DecodeBlockHeader(f.body);
      if |f.body| < (BLOCK_HEADER_SIZE + bh.compressedSize) % TWO_32 then s
      else
        var r := Process(cd, s.disks, f.header.devNo, bh, f.body[BLOCK_HEADER_SIZE..], w);
        Server(Enqueue(Count(c, r.ack.status, bh.dataSize), r.ack), r.disks)
  }

  function HandleBye(s: Server, f: Frame): Server {
    s.(conn := Close(Enqueue(s.conn, AckBody(0, OK, f.header.devNo, ZeroHash()))))
  }

  function Dispatch(cd: Codec, io: Writes, s: Server, f: Frame): Server {
    if f.header.msgType == HELLO then HandleHello(s, f)
    else if f.header.msgType == DATA_BLOCK then HandleDataBlock(cd, io(s.conn.blocksReceived), s, f)
    else if f.header.msgType == BYE then HandleBye(s, f)
    else s
  }

  // ---------- the message loop ----------

  datatype Event = Dispatched(frame: Frame) | Skipped(b: byte)

  /** A server with the bytes it has not yet taken apart, and a log of what it took off the stream.
      Once the connection is closed nothing is unread any more. */
  datatype Stream = Stream(server: Server, unread: seq<byte>, log: seq<Event>)

  predicate Stalled(st: Stream) {
    !st.server.conn.open || TryParse(st.unread).NeedMore?
  }

  /** One turn of the loop: a message is handled, a byte is skipped, or the connection closes. */
  function Iterate(cd: Codec, io: Writes, st: Stream): (r: Stream)
    requires !Stalled(st)
    ensures |r.unread| < |st.unread|
  {
    match TryParse(st.unread)
    case NeedMore => st
    case BadMagic(_) => Skip(st)
    case InvalidType(_) => Skip(st)
    case OversizeBlock(_, _) => Stream(st.server.(conn := Close(st.server.conn)), [], st.log)
    case Parsed(f) =>
      ParsedIsFront(st.unread);
      var s := Dispatch(cd, io, st.server, f);
      Stream(s, if s.conn.open then st.unread[HEADER_SIZE + |f.body|..] else [], st.log + [Dispatched(f)])
  }

  function Skip(st: Stream): Stream
    requires st.unread != []
  {
    st.(unread := st.unread[1..], log := st.log + [Skipped(st.unread[0])])
  }

  function Drain(cd: Codec, io: Writes, st: Stream): (r: Stream)
    ensures Stalled(r)
    ensures |r.unread| <= |st.unread|
    decreases |st.unread|
  {
    if Stalled(st) then st else Drain(cd, io, Iterate(cd, io, st))
  }

  /** A chunk arrives: it is appended to the unread bytes and the loop runs. */
  function Arrive(st: Stream, chunk: seq<byte>): Stream {
    if st.server.conn.open then st.(unread := st.unread + chunk) else st
  }

  function Feed(cd: Codec, io: Writes, st: Stream, chunk: seq<byte>): Stream {
    Drain(cd, io, Arrive(st, chunk))
  }

  function FeedAll(cd: Codec, io: Writes, st: Stream, chunks: seq<seq<byte>>): Stream
    decreases |chunks|
  {
    if chunks == [] then st else FeedAll(cd, io, Feed(cd, io, st, chunks[0]), chunks[1..])
  }

  // ---------- segmentation independence ----------

  lemma DropFront(unread: seq<byte>, more: seq<byte>, n: nat)
    requires n <= |unread|
    ensures (unread + more)[n..] == unread[n..] + more
  {
  }

  lemma IterateThenArrive(cd: Codec, io: Writes, st: Stream, more: seq<byte>)
    requires !Stalled(st)
    ensures !Stalled(Arrive(st, more))
    ensures Iterate(cd, io, Arrive(st, more)) == Arrive(Iterate(cd, io, st), more)
  {
    hide TryParse, Dispatch;
    ParseIsStable(st.unread, more);
    AnswerNeedsHeader(st.unread);
    match TryParse(st.unread)
    case NeedMore =>
    case BadMagic(_) => DropFront(st.unread, more, 1);
    case InvalidType(_) => DropFront(st.unread, more, 1);
    case OversizeBlock(_, _) =>
    case Parsed(f) =>
      ParsedIsFront(st.unread);
      DropFront(st.unread, more, HEADER_SIZE + |f.body|);
  }

  /** Draining before or after further bytes arrive makes no difference. */
  lemma {:induction false} DrainThenFeed(cd: Codec, io: Writes, st: Stream, more: seq<byte>)
    ensures Feed(cd, io, Drain(cd, io, st), more) == Feed(cd, io, st, more)
    decreases |st.unread|
  {
    if Stalled(st) {
    } else {
      IterateThenArrive(cd, io, st, more);
      DrainThenFeed(cd, io, Iterate(cd, io, st), more);
    }
  }

  lemma FeedTwice(cd: Codec, io: Writes, st: Stream, x: seq<byte>, y: seq<byte>)
    ensures Feed(cd, io, Feed(cd, io, st, x), y) == Feed(cd, io, st, x + y)
  {
    DrainThenFeed(cd, io, Arrive(st, x), y);
    assert Arrive(Arrive(st, x), y) == Arrive(st, x + y) by {
      assert st.unread + x + y == st.unread + (x + y);
    }
  }

  lemma {:induction false} FeedAllIsFeed(cd: Codec, io: Writes, st: Stream, chunks: seq<seq<byte>>)
    requires Stalled(st)
    ensures FeedAll(cd, io, st, chunks) == Feed(cd, io, st, Flatten(chunks))
    decreases |chunks|
  {
    if chunks == [] {
      assert Arrive(st, []) == st by { assert st.unread + [] == st.unread; }
    } else {
      FeedAllIsFeed(cd, io, Feed(cd, io, st, chunks[0]), chunks[1..]);
      FeedTwice(cd, io, st, chunks[0], Flatten(chunks[1..]));
    }
  }

  /** Two ways of cutting the same bytes into chunks leave the server in the same state: the same
      messages dispatched in order, the same bytes skipped, the same unread tail, the same ACKs
      and the same images. */
  lemma SegmentationIndependence(cd: Codec, io: Writes, st: Stream, one: seq<seq<byte>>, other: seq<seq<byte>>)
    requires Stalled(st)
    requires Flatten(one) == Flatten(other)
    ensures FeedAll(cd, io, st, one) == FeedAll(cd, io, st, other)
  {
    FeedAllIsFeed(cd, io, st, one);
    FeedAllIsFeed(cd, io, st, other);
  }

  /** The bytes an event took off the stream. */
  function EventImage(e: Event): seq<byte> {
    if e.Dispatched? then EncodeFrame(e.frame) else [e.b]
  }

  function EventBytes(log: seq<Event>): seq<byte> {
    if log == [] then [] else EventImage(log[0]) + EventBytes(log[1..])
  }

  lemma {:induction false} EventBytesAppend(log: seq<Event>, e: Event)
    ensures EventBytes(log + [e]) == EventBytes(log) + EventImage(e)
  {
    hide EventImage;
    if log == [] {
      assert log + [e] == [e];
    } else {
      EventBytesAppend(log[1..], e);
      assert (log + [e])[1..] == log[1..] + [e] && (log + [e])[0] == log[0];
      Reassociate(EventImage(log[0]), EventBytes(log[1..]), EventImage(e));
    }
  }

  /** One turn takes the image of the event it logs off the front of the unread bytes. */
  lemma TurnTakesEvent(cd: Codec, io: Writes, st: Stream)
    requires !Stalled(st) && Iterate(cd, io, st).server.conn.open
    ensures var r := Iterate(cd, io, st);
            && |r.log| == |st.log| + 1 && st.log <= r.log
            && st.unread == EventImage(r.log[|st.log|]) + r.unread
  {
    hide Dispatch, TryParse, EncodeFrame;
    AnswerNeedsHeader(st.unread);
    var r := Iterate(cd, io, st);
    match TryParse(st.unread)
    case NeedMore =>
    case BadMagic(_) => assert st.unread == [st.unread[0]] + st.unread[1..];
    case InvalidType(_) => assert st.unread == [st.unread[0]] + st.unread[1..];
    case OversizeBlock(_, _) =>
    case Parsed(f) =>
      ParsedIsFront(st.unread);
      assert st.unread == st.unread[..|EncodeFrame(f)|] + st.unread[|EncodeFrame(f)|..];
  }

  /** Nothing on the stream is lost or invented: what has been logged, in order, followed by the unread
      tail, is what had arrived, or a prefix of it once the connection is closed. */
  predicate Conserves(st: Stream, r: Stream) {
    var arrived, accounted := EventBytes(st.log) + st.unread, EventBytes(r.log) + r.unread;
    Prefix(accounted, arrived) && (r.server.conn.open ==> accounted == arrived)
  }

  lemma IterateConserves(cd: Codec, io: Writes, st: Stream)
    requires !Stalled(st)
    ensures Conserves(st, Iterate(cd, io, st))
  {
    hide EventImage, EventBytes, TryParse, Dispatch;
    var r := Iterate(cd, io, st);
    if r.server.conn.open {
      TurnTakesEvent(cd, io, st);
      var e := r.log[|st.log|];
      assert r.log == st.log + [e];
      EventBytesAppend(st.log, e);
      Reassociate(EventBytes(st.log), EventImage(e), r.unread);
    } else if TryParse(st.unread).Parsed? {
      ClosingTurnConserves(st, TryParse(st.unread).frame, r);
    }
  }

  lemma ClosingTurnConserves(st: Stream, f: Frame, r: Stream)
    requires TryParse(st.unread) == Parsed(f) && r.log == st.log + [Dispatched(f)] && r.unread == []
    requires !r.server.conn.open
    ensures Conserves(st, r)
  {
    hide EventBytes, TryParse, EncodeFrame;
    ParsedIsFront(st.unread);
    EventBytesAppend(st.log, Dispatched(f));
    var n := |EncodeFrame(f)|;
    assert st.unread == st.unread[..n] + st.unread[n..];
    Reassociate(EventBytes(st.log), EncodeFrame(f), st.unread[n..]);
  }

  lemma {:induction false} DrainConserves(cd: Codec, io: Writes, st: Stream)
    ensures Conserves(st, Drain(cd, io, st))
    decreases |st.unread|
  {
    hide Iterate, EventBytes;
    if Stalled(st) {
      assert Drain(cd, io, st) == st;
    } else {
      DrainConserves(cd, io, Iterate(cd, io, st));
      IterateConserves(cd, io, st);
      ConservesOnward(st, Iterate(cd, io, st), Drain(cd, io, st));
    }
  }

  lemma ConservesOnward(a: Stream, m: Stream, b: Stream)
    requires Conserves(a, m) && Conserves(m, b) && (b.server.conn.open ==> m.server.conn.open)
    ensures Conserves(a, b)
  {
    hide EventBytes;
  }

  /** The unread tail of an open connection is always shorter than one longest message, so the
      4 MiB receive buffer has room for more. */
  lemma TailIsShort(cd: Codec, io: Writes, st: Stream)
    ensures var r := Drain(cd, io, st);
            r.server.conn.open ==> |r.unread| < HEADER_SIZE + BLOCK_HEADER_SIZE + 2 * BLOCK_SIZE
  {
    var r := Drain(cd, io, st);
    if r.server.conn.open {
      NeedMoreIsShort(r.unread);
    }
  }

  // ---------- wire round trip ----------

  /** Framing alone, with no handler: messages and skipped bytes up to the unread tail. */
  datatype Framing = Framing(events: seq<Event>, rest: seq<byte>)

  function Frames(buf: seq<byte>): Framing
    decreases |buf|
  {
    match TryParse(buf)
    case NeedMore => Framing([], buf)
    case OversizeBlock(_, _) => Framing([], buf)
    case BadMagic(_) => var r := Frames(buf[1..]); r.(events := [Skipped(buf[0])] + r.events)
    case InvalidType(_) => var r := Frames(buf[1..]); r.(events := [Skipped(buf[0])] + r.events)
    case Parsed(f) => var r := Frames(buf[HEADER_SIZE + |f.body|..]); r.(events := [Dispatched(f)] + r.events)
  }

  function Handle(cd: Codec, io: Writes, s: Server, e: Event): Server {
    if e.Dispatched? then Dispatch(cd, io, s, e.frame) else s
  }

  /** The server after handling events in order, until one closes the connection. */
  function HandledAll(cd: Codec, io: Writes, s: Server, events: seq<Event>): Server
    decreases |events|
  {
    if events == [] || !s.conn.open then s else HandledAll(cd, io, Handle(cd, io, s, events[0]), events[1..])
  }

  /** How many of the events are handled: all up to, and with, the first that closes the connection. */
  function Handled(cd: Codec, io: Writes, s: Server, events: seq<Event>): (n: nat)
    ensures n <= |events|
    ensures HandledAll(cd, io, s, events).conn.open ==> n == |events|
    decreases |events|
  {
    if events == [] || !s.conn.open then 0 else 1 + Handled(cd, io, Handle(cd, io, s, events[0]), events[1..])
  }

  /** The loop is framing followed by handling: it logs what framing finds, cut behind the event that
      closes the connection, and leaves the server as handling those events does. An oversize block
      closes the connection without being logged. */
  predicate Follows(cd: Codec, io: Writes, st: Stream, r: Stream) {
    var found := Frames(st.unread);
    var s := HandledAll(cd, io, st.server, found.events);
    && r.log == st.log + found.events[..Handled(cd, io, st.server, found.events)]
    && r.server == (if s.conn.open && TryParse(found.rest).OversizeBlock? then s.(conn := Close(s.conn)) else s)
    && (r.server.conn.open ==> r.unread == found.rest)
    && (st.server.conn.open && !r.server.conn.open ==> r.unread == [])
  }

  lemma {:induction false} DrainFollowsFraming(cd: Codec, io: Writes, st: Stream)
    ensures Follows(cd, io, st, Drain(cd, io, st))
    ensures st.log <= Drain(cd, io, st).log <= st.log + Frames(st.unread).events
    decreases |st.unread|
  {
    hide TryParse, Dispatch;
    if Stalled(st) {
      assert Drain(cd, io, st) == st;
    } else {
      DrainFollowsFraming(cd, io, Iterate(cd, io, st));
      OneTurnFollows(cd, io, st, Drain(cd, io, st));
    }
  }

  /** One turn takes the first event found, or closes the connection over an oversize block. */
  lemma OneTurnFollows(cd: Codec, io: Writes, st: Stream, r: Stream)
    requires !Stalled(st) && Follows(cd, io, Iterate(cd, io, st), r)
    requires !Iterate(cd, io, st).server.conn.open ==> r == Iterate(cd, io, st)
    ensures Follows(cd, io, st, r)
  {
    hide TryParse, Dispatch, Follows, HandledAll, Handled;
    AnswerNeedsHeader(st.unread);
    var m, found := Iterate(cd, io, st), Frames(st.unread);
    if TryParse(st.unread).OversizeBlock? {
      FollowsOversize(cd, io, st, r);
    } else {
      var e, more := found.events[0], Framing(found.events[1..], found.rest);
      assert found == Framing([e] + more.events, more.rest);
      assert m.server == Handle(cd, io, st.server, e) && m.log == st.log + [e];
      assert m.server.conn.open ==> Frames(m.unread) == more;
      FollowsFrom(cd, io, st, e, more, m, r);
    }
  }

  lemma FollowsOversize(cd: Codec, io: Writes, st: Stream, r: Stream)
    requires st.server.conn.open && TryParse(st.unread).OversizeBlock?
    requires r == Stream(st.server.(conn := Close(st.server.conn)), [], st.log)
    ensures Follows(cd, io, st, r)
  {
    hide TryParse, Dispatch;
  }

  lemma FollowsFrom(cd: Codec, io: Writes, st: Stream, e: Event, more: Framing, m: Stream, r: Stream)
    requires st.server.conn.open && Frames(st.unread) == Framing([e] + more.events, more.rest)
    requires m.server == Handle(cd, io, st.server, e) && m.log == st.log + [e]
    requires if m.server.conn.open then Frames(m.unread) == more && Follows(cd, io, m, r) else r == m && m.unread == []
    ensures Follows(cd, io, st, r)
  {
    hide Frames, Handle, TryParse;
    var events := [e] + more.events;
    assert events[1..] == more.events;
    var n := Handled(cd, io, m.server, more.events);
    assert Handled(cd, io, st.server, events) == 1 + n;
    assert events[..1 + n] == [e] + more.events[..n];
  }

  // ---------- resynchronisation ----------

  /** A header that is no message's: a wrong magic, or an unknown type. */
  lemma StrayByteIsSkipped(cd: Codec, io: Writes, st: Stream)
    requires st.server.conn.open && |st.unread| >= 16 && !KnownHeader(st.unread)
    ensures var next := Stream(st.server, st.unread[1..], st.log + [Skipped(st.unread[0])]);
            !Stalled(st) && Iterate(cd, io, st) == next && Drain(cd, io, st) == Drain(cd, io, next)
  {
    AnswerByBytes(st.unread);
    hide TryParse;
  }

  /** A block claiming more than 2 MiB closes the connection; nothing more is dispatched. */
  lemma OversizeCloses(cd: Codec, io: Writes, st: Stream)
    requires st.server.conn.open && |st.unread| >= 68 && KnownHeader(st.unread)
    requires ReadU32(st.unread, 4) == DATA_BLOCK && ReadU32(st.unread, 28) > 0x20_0000
    ensures Drain(cd, io, st) == Stream(st.server.(conn := Close(st.server.conn)), [], st.log)
  {
    AnswerByBytes(st.unread);
    hide TryParse;
    var m := Iterate(cd, io, st);
    assert Drain(cd, io, m) == m;
  }

  function Skips(junk: seq<byte>): seq<Event> {
    if junk == [] then [] else [Skipped(junk[0])] + Skips(junk[1..])
  }

  /** At no position of `junk` does a message seem to start. */
  predicate IsJunk(junk: seq<byte>, rest: seq<byte>) {
    forall i :: 0 <= i < |junk| ==> |junk[i..] + rest| >= 16 && !KnownHeader(junk[i..] + rest)
  }

  /** Resynchronisation: stray bytes are skipped one by one, and what follows is served as if they had not
      been there. */
  lemma {:induction false} JunkIsSkipped(cd: Codec, io: Writes, st: Stream, junk: seq<byte>, rest: seq<byte>)
    requires st.server.conn.open && st.unread == junk + rest && IsJunk(junk, rest)
    ensures Drain(cd, io, st) == Drain(cd, io, Stream(st.server, rest, st.log + Skips(junk)))
    decreases |junk|
  {
    hide Drain, KnownHeader;
    if junk == [] {
      assert st.unread == rest && st.log + [] == st.log;
    } else {
      assert junk[0..] + rest == st.unread;
      StrayByteIsSkipped(cd, io, st);
      var next := Stream(st.server, st.unread[1..], st.log + [Skipped(st.unread[0])]);
      assert st.unread[1..] == junk[1..] + rest;
      assert forall i :: 0 <= i < |junk| - 1 ==> junk[1..][i..] == junk[i + 1..];
      JunkIsSkipped(cd, io, next, junk[1..], rest);
      Reassociate(st.log, [Skipped(junk[0])], Skips(junk[1..]));
    }
  }

  function Dispatches(ms: seq<Message>): seq<Event> {
    if ms == [] then [] else [Dispatched(ToFrame(ms[0]))] + Dispatches(ms[1..])
  }

  function EncodeMessages(ms: seq<Message>): seq<byte> {
    if ms == [] then [] else EncodeFrame(ToFrame(ms[0])) + EncodeMessages(ms[1..])
  }

  /** What the server reads back out of a log: the messages its frames carry. */
  function Received(log: seq<Event>): seq<Option<Message>> {
    if log == [] then []
    else [if log[0].Dispatched? then FromFrame(log[0].frame) else None] + Received(log[1..])
  }

  function Sent(ms: seq<Message>): seq<Option<Message>> {
    if ms == [] then [] else [Some(ms[0])] + Sent(ms[1..])
  }

  /** Any messages the client encodes, one after another, are parsed back into the same messages
      by the server, with no byte skipped and none left over. */
  lemma {:induction false} WireRoundTrip(ms: seq<Message>)
    requires forall m :: m in ms ==> Sendable(m)
    ensures Frames(EncodeMessages(ms)) == Framing(Dispatches(ms), [])
    ensures Received(Dispatches(ms)) == Sent(ms)
  {
    if ms == [] {
    } else {
      var f := ToFrame(ms[0]);
      var rest := EncodeMessages(ms[1..]);
      SendableIsWellFormed(ms[0]);
      ParseWhole(f, rest);
      assert EncodeMessages(ms)[HEADER_SIZE + |f.body|..] == rest;
      WireRoundTrip(ms[1..]);
      FrameRoundTrip(ms[0]);
    }
  }

  // ---------- the ACK stream ----------

  /** The messages of a log that are answered: the first HELLO, every DATA_BLOCK after it, a BYE. */
  function Answered(log: seq<Event>, helloDone: bool): seq<Frame> {
    if log == [] then []
    else IsAnswered(log[0], helloDone) + Answered(log[1..], HelloAfter(log[0], helloDone))
  }

  /** The message of event `e`, if it is answered. */
  function IsAnswered(e: Event, helloDone: bool): seq<Frame> {
    if !e.Dispatched? then []
    else
      var t := e.frame.header.msgType;
      if (t == HELLO && !helloDone) || (t == DATA_BLOCK && helloDone) || t == BYE then [e.frame] else []
  }

  predicate HelloAfter(e: Event, helloDone: bool) {
    helloDone || (e.Dispatched? && e.frame.header.msgType == HELLO)
  }

  /** The HELLO names a known device whose image is large enough. */
  predicate Accepts(disks: Disks, f: Frame) {
    && |f.body| >= HELLO_BODY_SIZE
    && var hb := DecodeHelloBody(f.body);
       hb.devNo in disks && hb.totalSize <= |disks[hb.devNo]|
  }

  /** `a` is an answer to `f`: to a HELLO, OK exactly if it is accepted, else why not; to a DATA_BLOCK,
      with the block's own index and hash; to a BYE, OK. */
  predicate Answers(disks: Disks, a: AckBody, f: Frame) {
    if f.header.msgType == HELLO then
      && |f.body| >= HELLO_BODY_SIZE && a.blockIndex == 0 && a.hash == ZeroHash() && a.devNo == DecodeHelloBody(f.body).devNo
      && (a.status == OK <==> Accepts(disks, f))
      && (DecodeHelloBody(f.body).devNo !in disks ==> a.status == INVALID_DEV)
      && (DecodeHelloBody(f.body).devNo in disks && !Accepts(disks, f) ==> a.status == OUT_OF_RANGE)
    else if f.header.msgType == DATA_BLOCK then
      && |f.body| >= BLOCK_HEADER_SIZE
      && a.blockIndex == DecodeBlockHeader(f.body).blockIndex
      && a.hash == DecodeBlockHeader(f.body).hash
      && a.devNo == f.header.devNo
    else a.blockIndex == 0 && a.hash == ZeroHash() && a.devNo == f.header.devNo && a.status == OK
  }

  predicate AllAnswered(disks: Disks, acks: seq<AckBody>, fs: seq<Frame>) {
    |acks| == |fs| && forall i :: 0 <= i < |fs| ==> Answers(disks, acks[i], fs[i])
  }

  /** The same devices with images of the same sizes. */
  predicate SameSizes(a: Disks, b: Disks) {
    a.Keys == b.Keys && forall d :: d in a ==> |a[d]| == |b[d]|
  }

  /** From `a` to `b`: the log and the ACK list only grew, and the new ACKs answer the new log. */
  predicate AnsweredSince(a: Stream, b: Stream) {
    && a.log <= b.log
    && a.server.conn.acks <= b.server.conn.acks
    && SameSizes(a.server.disks, b.server.disks)
    && AllAnswered(a.server.disks, b.server.conn.acks[|a.server.conn.acks|..],
                   Answered(b.log[|a.log|..], a.server.conn.helloDone))
  }

  /** On every stream, also one that ends in a BYE, in a refused HELLO or in a violation: the ACKs queued
      by the loop answer, one for one and in order, the first HELLO, every DATA_BLOCK dispatched after it
      and the BYE; nothing else is answered. */
  lemma {:induction false} OneAckEach(cd: Codec, io: Writes, st: Stream)
    ensures AnsweredSince(st, Drain(cd, io, st))
    decreases |st.unread|
  {
    hide AnsweredSince, Iterate;
    if Stalled(st) {
      NothingAnswered(st, st);
    } else {
      var m := Iterate(cd, io, st);
      OneTurnAnswers(cd, io, st);
      if m.server.conn.open {
        OneAckEach(cd, io, m);
        AnsweredTransitive(st, m, Drain(cd, io, st));
      } else {
        assert Drain(cd, io, m) == m;
      }
    }
  }

  lemma NothingAnswered(a: Stream, b: Stream)
    requires b.log == a.log && b.server.conn.acks == a.server.conn.acks && b.server.disks == a.server.disks
    ensures AnsweredSince(a, b)
  {
    assert b.log[|a.log|..] == [];
  }

  lemma AnsweredCons(e: Event, log: seq<Event>, helloDone: bool)
    ensures Answered([e] + log, helloDone) == Answered([e], helloDone) + Answered(log, HelloAfter(e, helloDone))
  {
    assert ([e] + log)[1..] == log;
    assert [e][1..] == [];
  }

  lemma AllAnsweredConcat(disks: Disks, disks': Disks, a: seq<AckBody>, b: seq<AckBody>, f: seq<Frame>, g: seq<Frame>)
    requires AllAnswered(disks, a, f) && AllAnswered(disks', b, g) && SameSizes(disks, disks')
    ensures AllAnswered(disks, a + b, f + g)
  {
  }

  lemma AnsweredTransitive(a: Stream, m: Stream, b: Stream)
    requires |m.log| == |a.log| + 1 && AnsweredSince(a, m) && AnsweredSince(m, b)
    requires m.server.conn.helloDone == HelloAfter(m.log[|a.log|], a.server.conn.helloDone)
    ensures AnsweredSince(a, b)
  {
    hide Answered, AllAnswered, HelloAfter;
    var e, hd := m.log[|a.log|], a.server.conn.helloDone;
    var k, l := |a.server.conn.acks|, |m.server.conn.acks|;
    assert m.log[|a.log|..] == [e];
    assert b.log[|a.log|..] == [e] + b.log[|m.log|..];
    AnsweredCons(e, b.log[|m.log|..], hd);
    assert b.server.conn.acks[k..] == m.server.conn.acks[k..] + b.server.conn.acks[l..];
    AllAnsweredConcat(a.server.disks, m.server.disks, m.server.conn.acks[k..], b.server.conn.acks[l..],
                      Answered([e], hd), Answered(b.log[|m.log|..], HelloAfter(e, hd)));
  }

  /** One turn of the loop: the ACK it adds, if any. */
  lemma OneTurnAnswers(cd: Codec, io: Writes, st: Stream)
    requires !Stalled(st)
    ensures var r := Iterate(cd, io, st);
            && AnsweredSince(st, r)
            && (r.server.conn.open ==>
                  |r.log| == |st.log| + 1
                  && r.server.conn.helloDone == HelloAfter(r.log[|st.log|], st.server.conn.helloDone))
  {
    hide TryParse, Dispatch, Answers;
    AnswerNeedsHeader(st.unread);
    var r := Iterate(cd, io, st);
    if TryParse(st.unread).OversizeBlock? {
      NothingAnswered(st, r);
    } else {
      var e := r.log[|st.log|];
      if TryParse(st.unread).Parsed? {
        ParsedIsFront(st.unread);
        OneHandlerAnswers(cd, io, st.server, e.frame);
      }
      OneEventAnswered(st, r, e);
    }
  }

  lemma OneEventAnswered(a: Stream, b: Stream, e: Event)
    requires b.log == a.log + [e] && SameSizes(a.server.disks, b.server.disks)
    requires var k := |a.server.conn.acks|;
             if IsAnswered(e, a.server.conn.helloDone) == [] then b.server.conn.acks == a.server.conn.acks
             else |b.server.conn.acks| == k + 1 && a.server.conn.acks <= b.server.conn.acks
                  && Answers(a.server.disks, b.server.conn.acks[k], e.frame)
    ensures AnsweredSince(a, b)
  {
    hide Answers;
    assert b.log[|a.log|..] == [e] && [e][1..] == [];
    assert Answered([e], a.server.conn.helloDone) == IsAnswered(e, a.server.conn.helloDone);
  }

  /** One message: its one ACK, or none. The silent returns of the block handler are never taken, because
      the parser gives the body its announced length. */
  lemma OneHandlerAnswers(cd: Codec, io: Writes, s: Server, f: Frame)
    requires WellFormed(f)
    ensures var r := Dispatch(cd, io, s, f);
            && SameSizes(s.disks, r.disks)
            && (r.conn.open ==> r.conn.helloDone == HelloAfter(Dispatched(f), s.conn.helloDone) && f.header.msgType != BYE)
            && if IsAnswered(Dispatched(f), s.conn.helloDone) == [] then r.conn.acks == s.conn.acks
               else |r.conn.acks| == |s.conn.acks| + 1 && s.conn.acks <= r.conn.acks
                    && Answers(s.disks, r.conn.acks[|s.conn.acks|], f)
  {
    hide DecodeHelloBody, DecodeBlockHeader;
    if f.header.msgType == DATA_BLOCK && s.conn.helloDone {
      var bh, payload, w := DecodeBlockHeader(f.body), f.body[BLOCK_HEADER_SIZE..], io(s.conn.blocksReceived);
      ProcessEchoes(cd, s.disks, f.header.devNo, bh, payload, w);
      ProcessFrame(cd, s.disks, f.header.devNo, bh, payload, w);
      hide Process;
    }
  }

  /** A message closes the connection exactly if it is a BYE, a block before the HELLO, or the first HELLO
      and not accepted. One that is not answered changes nothing else, and only a block changes an image. */
  lemma ClosesExactly(cd: Codec, io: Writes, s: Server, f: Frame)
    requires WellFormed(f) && s.conn.open
    ensures var r, t := Dispatch(cd, io, s, f), f.header.msgType;
            && (!r.conn.open <==> t == BYE || (t == DATA_BLOCK && !s.conn.helloDone)
                                  || (t == HELLO && !s.conn.helloDone && !Accepts(s.disks, f)))
            && (IsAnswered(Dispatched(f), s.conn.helloDone) == [] ==> r == s.(conn := s.conn.(open := r.conn.open)))
            && (t != DATA_BLOCK ==> r.disks == s.disks)
  {
    hide DecodeHelloBody, DecodeBlockHeader, Process;
  }

  // ---------- the counters ----------

  /** What a connection reports: blocks handled, bytes of the blocks answered OK, and the other blocks. */
  datatype Counts = Counts(blocks: nat, bytes: nat, errors: nat)

  function CountsOf(c: Conn): Counts {
    Counts(c.blocksReceived, c.bytesWritten, c.errors)
  }

  function Plus(a: Counts, b: Counts): Counts {
    Counts(a.blocks + b.blocks, a.bytes + b.bytes, a.errors + b.errors)
  }

  /** What the answer `a` to message `f` counts for. */
  function CountsFor(f: Frame, a: AckBody): Counts {
    if f.header.msgType != DATA_BLOCK || |f.body| < BLOCK_HEADER_SIZE then Counts(0, 0, 0)
    else if a.status == OK then Counts(1, DecodeBlockHeader(f.body).dataSize, 0)
    else Counts(1, 0, 1)
  }

  function Tally(fs: seq<Frame>, acks: seq<AckBody>): Counts
    requires |fs| == |acks|
  {
    if fs == [] then Counts(0, 0, 0) else Plus(CountsFor(fs[0], acks[0]), Tally(fs[1..], acks[1..]))
  }

  lemma {:induction false} TallyConcat(f: seq<Frame>, g: seq<Frame>, a: seq<AckBody>, b: seq<AckBody>)
    requires |f| == |a| && |g| == |b|
    ensures Tally(f + g, a + b) == Plus(Tally(f, a), Tally(g, b))
  {
    hide CountsFor;
    if f == [] {
      assert f + g == g && a + b == b;
    } else {
      TallyConcat(f[1..], g, a[1..], b);
      assert (f + g)[1..] == f[1..] + g && (a + b)[1..] == a[1..] + b;
    }
  }

  /** From `a` to `b`, the counters moved by what the new answers count for. */
  predicate CountedSince(a: Stream, b: Stream) {
    && AnsweredSince(a, b)
    && CountsOf(b.server.conn)
       == Plus(CountsOf(a.server.conn),
               Tally(Answered(b.log[|a.log|..], a.server.conn.helloDone), b.server.conn.acks[|a.server.conn.acks|..]))
  }

  lemma OneHandlerCounts(cd: Codec, io: Writes, s: Server, f: Frame)
    requires WellFormed(f)
    ensures var r := Dispatch(cd, io, s, f);
            CountsOf(r.conn) ==
              if |r.conn.acks| == |s.conn.acks| + 1 then Plus(CountsOf(s.conn), CountsFor(f, r.conn.acks[|s.conn.acks|]))
              else CountsOf(s.conn)
  {
    hide DecodeHelloBody, DecodeBlockHeader, Process;
  }

  lemma OneTurnCounts(cd: Codec, io: Writes, st: Stream)
    requires !Stalled(st)
    ensures CountedSince(st, Iterate(cd, io, st))
  {
    hide TryParse, Dispatch, Answers, CountedSince, AnsweredSince;
    OneTurnAnswers(cd, io, st);
    AnswerNeedsHeader(st.unread);
    var r := Iterate(cd, io, st);
    if TryParse(st.unread).OversizeBlock? {
      NothingCounted(st, r);
    } else {
      var e := r.log[|st.log|];
      if TryParse(st.unread).Parsed? {
        ParsedIsFront(st.unread);
        OneHandlerCounts(cd, io, st.server, e.frame);
        OneHandlerAnswers(cd, io, st.server, e.frame);
      }
      OneEventCounted(st, r, e);
    }
  }

  lemma OneEventCounted(a: Stream, b: Stream, e: Event)
    requires AnsweredSince(a, b) && b.log == a.log + [e]
    requires var k := |a.server.conn.acks|;
             if |b.server.conn.acks| == k + 1 then
               e.Dispatched? && CountsOf(b.server.conn) == Plus(CountsOf(a.server.conn), CountsFor(e.frame, b.server.conn.acks[k]))
             else CountsOf(b.server.conn) == CountsOf(a.server.conn)
    ensures CountedSince(a, b)
  {
    hide CountsFor, AllAnswered;
    var fs, acks := IsAnswered(e, a.server.conn.helloDone), b.server.conn.acks[|a.server.conn.acks|..];
    assert b.log[|a.log|..] == [e] && [e][1..] == [];
    assert Answered([e], a.server.conn.helloDone) == fs;
    AnsweredLengths(a, b);
    if fs != [] {
      var none: seq<AckBody> := acks[1..];
      assert fs[1..] == [] && none == [];
      assert Tally(fs, acks) == Plus(CountsFor(e.frame, acks[0]), Tally([], []));
    }
  }

  lemma CountedTransitive(a: Stream, m: Stream, b: Stream)
    requires |m.log| == |a.log| + 1 && CountedSince(a, m) && CountedSince(m, b)
    requires m.server.conn.helloDone == HelloAfter(m.log[|a.log|], a.server.conn.helloDone)
    ensures CountedSince(a, b)
  {
    hide Answered, AllAnswered, HelloAfter, Tally;
    AnsweredTransitive(a, m, b);
    var e, hd := m.log[|a.log|], a.server.conn.helloDone;
    var k, l := |a.server.conn.acks|, |m.server.conn.acks|;
    assert m.log[|a.log|..] == [e];
    assert b.log[|a.log|..] == [e] + b.log[|m.log|..];
    AnsweredCons(e, b.log[|m.log|..], hd);
    assert b.server.conn.acks[k..] == m.server.conn.acks[k..] + b.server.conn.acks[l..];
    AnsweredLengths(a, m);
    AnsweredLengths(m, b);
    TallyConcat(Answered([e], hd), Answered(b.log[|m.log|..], HelloAfter(e, hd)), m.server.conn.acks[k..], b.server.conn.acks[l..]);
  }

  lemma AnsweredLengths(a: Stream, b: Stream)
    requires AnsweredSince(a, b)
    ensures |Answered(b.log[|a.log|..], a.server.conn.helloDone)| == |b.server.conn.acks[|a.server.conn.acks|..]|
  {
  }

  /** On every stream the connection's counters say what was answered: each block answered once counts one
      block, and its bytes when it was answered OK, else one error. */
  lemma {:induction false} CountersSayWhatWasAnswered(cd: Codec, io: Writes, st: Stream)
    ensures CountedSince(st, Drain(cd, io, st))
    decreases |st.unread|
  {
    hide CountedSince, Iterate;
    if Stalled(st) {
      NothingCounted(st, st);
    } else {
      var m := Iterate(cd, io, st);
      OneTurnAnswers(cd, io, st);
      OneTurnCounts(cd, io, st);
      if m.server.conn.open {
        CountersSayWhatWasAnswered(cd, io, m);
        CountedTransitive(st, m, Drain(cd, io, st));
      } else {
        assert Drain(cd, io, m) == m;
      }
    }
  }

  lemma NothingCounted(a: Stream, b: Stream)
    requires b.log == a.log && b.server.conn.acks == a.server.conn.acks && b.server.disks == a.server.disks
    requires CountsOf(b.server.conn) == CountsOf(a.server.conn)
    ensures CountedSince(a, b)
  {
    NothingAnswered(a, b);
    assert b.log[|a.log|..] == [];
  }

  // ---------- a whole conversation ----------

  /** Blocks, perhaps with a BYE at the end. */
  predicate BlocksThenBye(ms: seq<Message>) {
    forall j :: 0 <= j < |ms| ==> Sendable(ms[j]) && (ms[j].Data? || (ms[j].Bye? && j == |ms| - 1))
  }

  /** A HELLO the server accepts, then blocks, perhaps with a BYE at the end. */
  predicate Conversation(disks: Disks, ms: seq<Message>) {
    && ms != [] && ms[0].Hello? && BlocksThenBye(ms[1..])
    && ms[0].hello.devNo in disks && ms[0].hello.totalSize <= |disks[ms[0].hello.devNo]|
  }

  predicate EndsInBye(ms: seq<Message>) { ms != [] && ms[|ms| - 1].Bye? }

  lemma ClosesExactlyOnBye(cd: Codec, io: Writes, s: Server, m: Message)
    requires s.conn.open && s.conn.helloDone && (m.Data? || m.Bye?)
    ensures var r := Dispatch(cd, io, s, ToFrame(m));
            (r.conn.open <==> m.Data?) && r.conn.helloDone
  {
    hide Process;
  }

  lemma AcceptedHelloKeepsOpen(cd: Codec, io: Writes, s: Server, m: Message)
    requires s.conn.open && !s.conn.helloDone && m.Hello?
    requires m.hello.devNo in s.disks && m.hello.totalSize <= |s.disks[m.hello.devNo]|
    ensures var r := Dispatch(cd, io, s, ToFrame(m)); r.conn.open && r.conn.helloDone
  {
    HelloBodyRoundTrip(m.hello, []);
    assert EncodeHelloBody(m.hello) + [] == EncodeHelloBody(m.hello);
  }

  lemma {:induction false} BlocksAreHandled(cd: Codec, io: Writes, s: Server, ms: seq<Message>)
    requires s.conn.open && s.conn.helloDone && BlocksThenBye(ms)
    ensures Handled(cd, io, s, Dispatches(ms)) == |Dispatches(ms)| == |ms|
    ensures HandledAll(cd, io, s, Dispatches(ms)).conn.open <==> !EndsInBye(ms)
    ensures |Answered(Dispatches(ms), true)| == |ms|
    decreases |ms|
  {
    hide Dispatch;
    if ms == [] {
    } else {
      var r := Dispatch(cd, io, s, ToFrame(ms[0]));
      ClosesExactlyOnBye(cd, io, s, ms[0]);
      var events := [Dispatched(ToFrame(ms[0]))] + Dispatches(ms[1..]);
      assert events[1..] == Dispatches(ms[1..]);
      if ms[0].Bye? {
        assert ms[1..] == [];
      } else {
        BlocksAreHandled(cd, io, r, ms[1..]);
      }
    }
  }

  lemma ConversationIsHandled(cd: Codec, io: Writes, s: Server, ms: seq<Message>)
    requires s.conn.open && !s.conn.helloDone && Conversation(s.disks, ms)
    ensures Handled(cd, io, s, Dispatches(ms)) == |Dispatches(ms)| == |ms|
    ensures HandledAll(cd, io, s, Dispatches(ms)).conn.open <==> !EndsInBye(ms)
    ensures |Answered(Dispatches(ms), false)| == |ms|
  {
    AcceptedHelloKeepsOpen(cd, io, s, ms[0]);
    hide Dispatch;
    BlocksAreHandled(cd, io, Dispatch(cd, io, s, ToFrame(ms[0])), ms[1..]);
    var events := [Dispatched(ToFrame(ms[0]))] + Dispatches(ms[1..]);
    assert events[1..] == Dispatches(ms[1..]);
  }

  /** A whole conversation, the closing BYE included, cut into chunks in any way: every message is
      dispatched once, in order, nothing is skipped or left over, each message gets its one ACK, the
      HELLO's being OK, and the connection is closed exactly if the last message is a BYE. */
  lemma ConversationIsServed(cd: Codec, io: Writes, s: Server, ms: seq<Message>, chunks: seq<seq<byte>>)
    requires s.conn.open && !s.conn.helloDone && Conversation(s.disks, ms)
    requires Flatten(chunks) == EncodeMessages(ms)
    ensures var st := Stream(s, [], []);
            var r := FeedAll(cd, io, st, chunks);
            && r.log == Dispatches(ms) && r.unread == []
            && (r.server.conn.open <==> !EndsInBye(ms))
            && |r.server.conn.acks| == |s.conn.acks| + |ms| && AnsweredSince(st, r)
  {
    hide TryParse, Dispatch, AnsweredSince, Drain, EncodeMessages, FeedAll, Conversation;
    var st, arrived := Stream(s, [], []), Stream(s, EncodeMessages(ms), []);
    EmptyIsStalled(st);
    FeedAllIsFeed(cd, io, st, chunks);
    assert [] + EncodeMessages(ms) == EncodeMessages(ms);
    DrainsConversation(cd, io, arrived, ms);
    OneAckEach(cd, io, arrived);
    ConversationIsHandled(cd, io, s, ms);
    CountAnswers(st, arrived, Drain(cd, io, arrived), ms);
  }

  lemma ConversationIsSendable(disks: Disks, ms: seq<Message>)
    requires Conversation(disks, ms)
    ensures forall m :: m in ms ==> Sendable(m)
  {
    forall m | m in ms ensures Sendable(m) {
      var j :| 0 <= j < |ms| && ms[j] == m;
      assert j > 0 ==> ms[1..][j - 1] == m;
    }
  }

  lemma DrainsConversation(cd: Codec, io: Writes, st: Stream, ms: seq<Message>)
    requires st.server.conn.open && !st.server.conn.helloDone && Conversation(st.server.disks, ms)
    requires st.unread == EncodeMessages(ms) && st.log == []
    ensures var r := Drain(cd, io, st);
            r.log == Dispatches(ms) && r.unread == [] && (r.server.conn.open <==> !EndsInBye(ms))
  {
    ConversationIsSendable(st.server.disks, ms);
    WireRoundTrip(ms);
    ConversationIsHandled(cd, io, st.server, ms);
    EmptyIsStalled(st.(unread := []));
    DrainFollowsFraming(cd, io, st);
    hide Dispatches, Drain, TryParse, Dispatch, Frames, HandledAll, Handled, EncodeMessages, Conversation;
    assert Dispatches(ms)[..|Dispatches(ms)|] == Dispatches(ms);
  }

  lemma EmptyIsStalled(st: Stream)
    requires st.unread == []
    ensures Stalled(st) && TryParse([]).NeedMore?
  {
  }

  lemma CountAnswers(st: Stream, arrived: Stream, r: Stream, ms: seq<Message>)
    requires AnsweredSince(arrived, r) && arrived.log == [] == st.log && arrived.server == st.server
    requires r.log == Dispatches(ms) && !st.server.conn.helloDone && |Answered(Dispatches(ms), false)| == |ms|
    ensures AnsweredSince(st, r) && |r.server.conn.acks| == |st.server.conn.acks| + |ms|
  {
    assert r.log[0..] == r.log;
  }
}
