/** One connection of the server, in place: its two buffers, its socket, the message loop and the
    handlers, each proved against the functions of ServerModel (server/Server.cpp). */
module Connection {
  import opened Bytes
  import opened Protocol
  import opened MessageParser
  import opened BlockProcessor
  import opened ServerModel
  import opened RingBuffer

  /** How the next send call ends: `extra` + 1 bytes are taken (fewer if fewer are offered), the call
      would block, or it fails. A socket out of answers blocks. */
  datatype SendResult = Accepts(extra: nat) | Blocks | Fails

  /** What a send call of `offered` bytes returns, given the answers to come: the number of bytes taken,
      -1 when it would block, -2 when it fails. */
  function Outcome(answers: seq<SendResult>, offered: nat): int {
    if answers == [] || answers[0].Blocks? then -1
    else if answers[0].Fails? then -2
    else if answers[0].extra + 1 < offered then answers[0].extra + 1 else offered
  }

  /** How many bytes the send calls so answered take, if they are offered enough. */
  function Capacity(answers: seq<SendResult>): nat {
    if answers == [] then 0
    else Capacity(answers[..|answers| - 1])
         + match answers[|answers| - 1] case Accepts(extra) => extra + 1 case Blocks => 0 case Fails => 0
  }

  /** From answers `a` to answers `b` the calls went in order, and only the last one can have failed:
      exactly then the connection is lost. Otherwise the `rest` bytes left queued are none, or the
      socket blocked, or they are `queued` bytes that no call was made for. */
  predicate SentOn(a: seq<SendResult>, b: seq<SendResult>, queued: nat, rest: nat, lost: bool) {
    var n := |a| - |b|;
    && n >= 0 && b == a[n..]
    && (forall k :: 0 <= k < n - 1 ==> !a[k].Fails?)
    && (lost <==> n > 0 && a[n - 1].Fails?)
    && (!lost ==> rest == 0 || b == [] || (n > 0 && a[n - 1].Blocks?) || (n == 0 && queued > 0))
  }

  /** The send loop on `queued` bytes: a call is made for as long as bytes are left and none has blocked
      or failed; what goes out is what the calls take. */
  predicate SentOut(a: seq<SendResult>, b: seq<SendResult>, queued: nat, rest: nat, lost: bool) {
    var n := |a| - |b|;
    && n >= 0 && b == a[n..]
    && (forall k :: 0 <= k < n - 1 ==> a[k].Accepts?)
    && (forall k :: 0 <= k < n ==> Capacity(a[..k]) < queued)
    && rest == (if Capacity(a[..n]) < queued then queued - Capacity(a[..n]) else 0)
    && (lost <==> n > 0 && a[n - 1].Fails?)
    && (!lost ==> rest == 0 || b == [] || (n > 0 && a[n - 1].Blocks?))
  }

  lemma SentOutIsOn(a: seq<SendResult>, b: seq<SendResult>, before: nat, queued: nat, rest: nat, lost: bool)
    requires SentOut(a, b, queued, rest, lost)
    ensures SentOn(a, b, before, rest, lost)
  {
    hide Capacity;
  }

  lemma SentOnTwice(a: seq<SendResult>, m: seq<SendResult>, b: seq<SendResult>, queued: nat, between: nat, rest: nat, lost: bool)
    requires SentOn(a, m, queued, between, false) && SentOn(m, b, between, rest, lost)
    ensures SentOn(a, b, queued, rest, lost)
  {
    var j, k := |m| - |b|, |a| - |m|;
    SuffixOfSuffix(a, k, j);
    assert |a| - |b| == k + j;
    forall i | 0 <= i < k + j - 1 ensures !a[i].Fails? {
      if i >= k {
        assert m[i - k] == a[i];
      }
    }
  }

  lemma SuffixOfSuffix(a: seq<SendResult>, k: nat, j: nat)
    requires k + j <= |a|
    ensures a[k..][j..] == a[k + j..]
    ensures j > 0 ==> a[k..][j - 1] == a[k + j - 1]
  {
  }

  /** The data bytes a socket still has to deliver, in order. */
  function ArrivedBytes(incoming: seq<Ready>): seq<byte> {
    if incoming == [] then []
    else (if incoming[0].Data? then incoming[0].bytes else []) + ArrivedBytes(incoming[1..])
  }

  class Socket {
    var answers: seq<SendResult>
    var sent: seq<byte>
    var incoming: seq<Ready>

    /** What a receive call finds; a socket with nothing to say would block. */
    function Peek(): Ready
      reads this
    {
      if incoming == [] then WouldBlock else incoming[0]
    }

    /** The first `n` bytes of the arrived data have been received. */
    method Took(n: nat)
      requires Peek().Data? && 0 < n <= |Peek().bytes|
      modifies this`incoming
      ensures ArrivedBytes(old(incoming)) == old(Peek()).bytes[..n] + ArrivedBytes(incoming)
      ensures |ArrivedBytes(incoming)| < |ArrivedBytes(old(incoming))|
    {
      ghost var before := incoming;
      var bytes := incoming[0].bytes;
      incoming := if n == |bytes| then incoming[1..] else [Ready.Data(bytes[n..])] + incoming[1..];
      assert bytes == bytes[..n] + bytes[n..];
      if n == |bytes| {
        assert bytes[..n] == bytes;
      } else {
        assert incoming[1..] == before[1..];
        Reassociate(bytes[..n], bytes[n..], ArrivedBytes(before[1..]));
      }
    }

    /** The number of bytes taken, -1 when the call would block, -2 when it fails. */
    method Send(data: seq<byte>) returns (n: int)
      requires data != []
      modifies this`answers, this`sent
      ensures n == Outcome(old(answers), |data|)
      ensures answers == if old(answers) == [] then [] else old(answers)[1..]
      ensures sent == if n > 0 then old(sent) + data[..n] else old(sent)
    {
      if answers == [] {
        return -1;
      }
      var a := answers[0];
      answers := answers[1..];
      match a {
        case Blocks => n := -1;
        case Fails => n := -2;
        case Accepts(extra) =>
          n := if extra + 1 < |data| then extra + 1 else |data|;
          sent := sent + data[..n];
      }
    }
  }

  /** The backing images and the processing of one block on them. */
  class BlockStore {
    var images: Disks
    const codec: Codec

    method ProcessBlock(devNo: u32, bh: BlockHeader, payload: seq<byte>, w: WriteOutcome) returns (ack: AckBody)
      modifies this
      ensures Processed(ack, images) == Process(codec, old(images), devNo, bh, payload, w)
    {
      ack := AckBody(bh.blockIndex, OK, devNo, bh.hash);
      if devNo !in images {
        return ack.(status := INVALID_DEV);
      }
      if bh.dataSize == 0 || bh.dataSize > BLOCK_SIZE {
        return ack.(status := OUT_OF_RANGE);
      }
      var offset := (bh.blockIndex * BLOCK_SIZE) % TWO_64;
      if (offset + bh.dataSize) % TWO_64 > |images[devNo]| {
        return ack.(status := OUT_OF_RANGE);
      }
      var inflated := codec.inflate(payload);
      if inflated.None? || |inflated.value| > RAW_BUFFER_SIZE || |inflated.value| != bh.dataSize {
        return ack.(status := DECOMPRESS_ERROR);
      }
      if codec.sha(inflated.value) != bh.hash {
        return ack.(status := HASH_MISMATCH);
      }
      var complete := PositionedWrite(devNo, offset, inflated.value, w);
      if !complete {
        return ack.(status := WRITE_ERROR);
      }
    }

    /** Writes at an offset; false if the write is refused, fails or is short. */
    method PositionedWrite(devNo: u32, offset: u64, data: seq<byte>, w: WriteOutcome) returns (complete: bool)
      requires devNo in images
      modifies this
      ensures complete == (w.Complete? && offset + |data| <= |old(images)[devNo]|)
      ensures images ==
              if offset + |data| > |old(images)[devNo]| then old(images)
              else if w.Complete? then old(images)[devNo := Overwrite(old(images)[devNo], offset, data)]
              else if |w.left| == |data| then old(images)[devNo := Overwrite(old(images)[devNo], offset, w.left)]
              else old(images)
    {
      complete := false;
      if offset + |data| <= |images[devNo]| {
        match w {
          case Complete =>
            images := images[devNo := Overwrite(images[devNo], offset, data)];
            complete := true;
          case Failed(left) =>
            if |left| == |data| {
              images := images[devNo := Overwrite(images[devNo], offset, left)];
            }
        }
      }
    }
  }

  const RECV_BUFFER_SIZE: nat := 4 * 1024 * 1024
  const SEND_BUFFER_SIZE: nat := 256 * 1024

  /** `s`, or `s` with its connection lost to a failed send. */
  predicate UpToLoss(r: Server, s: Server, lost: bool) {
    r == if lost then s.(conn := Close(s.conn)) else s
  }

  /** The stream after k turns of the message loop, or fewer if it stalls. */
  function Turns(cd: Codec, io: Writes, st: Stream, k: nat): Stream
    decreases k
  {
    if k == 0 || Stalled(st) then st else Turns(cd, io, Iterate(cd, io, st), k - 1)
  }

  lemma {:induction false} TurnsThenOne(cd: Codec, io: Writes, st: Stream, k: nat)
    requires !Stalled(Turns(cd, io, st, k))
    ensures Turns(cd, io, st, k + 1) == Iterate(cd, io, Turns(cd, io, st, k))
    decreases k
  {
    if k == 0 || Stalled(st) {
    } else {
      TurnsThenOne(cd, io, Iterate(cd, io, st), k - 1);
    }
  }

  lemma {:induction false} DrainIsTurns(cd: Codec, io: Writes, st: Stream, k: nat)
    requires Stalled(Turns(cd, io, st, k))
    ensures Drain(cd, io, st) == Turns(cd, io, st, k)
    decreases k
  {
    if k == 0 || Stalled(st) {
    } else {
      DrainIsTurns(cd, io, Iterate(cd, io, st), k - 1);
    }
  }

  lemma {:induction false} TurnsAfterDrain(cd: Codec, io: Writes, st: Stream, more: seq<byte>, k: nat) returns (total: nat)
    ensures Turns(cd, io, Arrive(Drain(cd, io, st), more), k) == Turns(cd, io, Arrive(st, more), total)
    decreases |st.unread|
  {
    hide Iterate, Arrive;
    if Stalled(st) {
      total := k;
    } else {
      total := TurnsAfterDrain(cd, io, Iterate(cd, io, st), more, k);
      IterateThenArrive(cd, io, st, more);
      total := total + 1;
    }
  }

  /** A connection lost in the middle of a chunk stands where it would had all the bytes so far come in
      one piece. */
  lemma LostInOnePiece(cd: Codec, io: Writes, start: Stream, got: seq<byte>, chunk: seq<byte>, k: nat, v: Stream)
    requires start.server.conn.open && LostAt(v, Turns(cd, io, Arrive(Feed(cd, io, start, got), chunk), k))
    ensures |v.log| >= |start.log| && LostAt(v, Turns(cd, io, Arrive(start, got + chunk), |v.log| - |start.log|))
  {
    hide Turns, Drain, LostAt;
    var total := TurnsAfterDrain(cd, io, Arrive(start, got), chunk, k);
    Reassociate(start.unread, got, chunk);
    TurnsAreLogged(cd, io, Arrive(start, got + chunk), total, v);
  }

  lemma OneTurnLogs(cd: Codec, io: Writes, st: Stream)
    requires !Stalled(st)
    ensures var m := Iterate(cd, io, st);
            if TryParse(st.unread).OversizeBlock? then m == Stream(st.server.(conn := Close(st.server.conn)), [], st.log)
            else |m.log| == |st.log| + 1
  {
    hide TryParse, Dispatch;
    AnswerNeedsHeader(st.unread);
  }

  /** A connection lost after some number of turns was lost after as many as it logged events. */
  lemma {:induction false} TurnsAreLogged(cd: Codec, io: Writes, st: Stream, k: nat, v: Stream)
    requires st.server.conn.open && LostAt(v, Turns(cd, io, st, k))
    ensures |v.log| >= |st.log| && LostAt(v, Turns(cd, io, st, |v.log| - |st.log|))
    decreases k
  {
    hide Iterate, TryParse;
    if k == 0 || Stalled(st) {
    } else {
      var m := Iterate(cd, io, st);
      OneTurnLogs(cd, io, st);
      if m.server.conn.open {
        TurnsAreLogged(cd, io, m, k - 1, v);
      }
    }
  }

  lemma SentOnNothing(a: seq<SendResult>, queued: nat)
    ensures SentOn(a, a, queued, queued, false)
  {
  }

  /** In the middle of the send loop: `calls` calls have been made, all took bytes, `n` bytes are left. */
  predicate Taking(a: seq<SendResult>, calls: nat, queued: nat, n: nat)
    requires calls <= |a|
  {
    && (forall k :: 0 <= k < calls ==> a[k].Accepts? && Capacity(a[..k]) < queued)
    && n == if Capacity(a[..calls]) < queued then queued - Capacity(a[..calls]) else 0
  }

  lemma NoCalls(a: seq<SendResult>, queued: nat)
    ensures Taking(a, 0, queued, queued)
  {
  }

  lemma OneMoreCall(a: seq<SendResult>, calls: nat, queued: nat, n: nat)
    requires calls <= |a| && Taking(a, calls, queued, n) && n > 0
    ensures var took := Outcome(a[calls..], n);
            if took > 0 then calls < |a| && Taking(a, calls + 1, queued, n - took)
            else SentOut(a, a[if calls < |a| then calls + 1 else calls..], queued, n, took == -2)
  {
    if calls < |a| {
      assert a[..calls + 1][..calls] == a[..calls];
    }
  }

  class Connection {
    const sock: Socket
    const store: BlockStore
    const recvBuf: RingBuffer
    const sendBuf: RingBuffer
    const io: Writes
    var open: bool
    var devno: u32
    var helloDone: bool
    var blocksReceived: nat
    var bytesWritten: nat
    var errors: nat
    ghost var acks: seq<AckBody>
    ghost var log: seq<Event>
    ghost var lost: bool

    ghost predicate Valid()
      reads this, sock, recvBuf, sendBuf, recvBuf.buf, sendBuf.buf
    {
      && recvBuf != sendBuf && recvBuf.buf != sendBuf.buf
      && recvBuf.Valid() && sendBuf.Valid()
      && recvBuf.buf.Length == RECV_BUFFER_SIZE && recvBuf.readPos == 0
      && sock.sent + sendBuf.Contents() == EncodeAcks(acks)
      && (lost ==> !open)
    }

    ghost function Sv(): Server
      reads this, store
    {
      Server(Conn(open, helloDone, devno, blocksReceived, bytesWritten, errors, acks), store.images)
    }

    ghost function View(): Stream
      reads this, store, recvBuf, recvBuf.buf
      requires recvBuf.Valid()
    {
      Stream(Sv(), if open then recvBuf.Contents() else [], log)
    }

    constructor (sock: Socket, store: BlockStore, io: Writes)
      requires sock.sent == []
      ensures Valid() && fresh(recvBuf) && fresh(sendBuf) && fresh(recvBuf.buf) && fresh(sendBuf.buf)
      ensures this.sock == sock && this.store == store && this.io == io
      ensures View() == Stream(Server(FRESH, store.images), [], []) && !lost
    {
      this.sock, this.store, this.io := sock, store, io;
      recvBuf := new RingBuffer(RECV_BUFFER_SIZE);
      sendBuf := new RingBuffer(SEND_BUFFER_SIZE);
      open, devno, helloDone, blocksReceived, bytesWritten, errors := true, 0, false, 0, 0, 0;
      acks, log, lost := [], [], false;
    }

    method CloseConn()
      modifies this`open
      ensures !open
    {
      open := false;
    }

    /** One send call on the queued bytes: what the socket takes leaves the queue, in order. */
    method SendOnce() returns (taken: int)
      requires Valid() && sendBuf.Contents() != []
      modifies sock`answers, sock`sent, sendBuf`readPos
      ensures Valid() && taken == Outcome(old(sock.answers), |old(sendBuf.Contents())|)
      ensures sock.answers == if old(sock.answers) == [] then [] else old(sock.answers)[1..]
      ensures |sendBuf.Contents()| == |old(sendBuf.Contents())| - if taken > 0 then taken else 0
    {
      hide EncodeAcks;
      ghost var before := sendBuf.Contents();
      taken := sock.Send(sendBuf.buf[sendBuf.readPos..sendBuf.writePos]);
      if taken > 0 {
        sendBuf.Consume(taken);
        assert before == before[..taken] + before[taken..];
        Reassociate(old(sock.sent), before[..taken], before[taken..]);
      }
    }

    /** Sends what is queued until it is all taken or the socket blocks; a failure closes the connection. */
    method HandleConnWritable()
      requires Valid() && open && !lost
      modifies sock`answers, sock`sent, sendBuf, sendBuf.buf, this`open, this`lost
      ensures Valid() && sendBuf.buf == old(sendBuf.buf)
      ensures open == !lost
      ensures SentOut(old(sock.answers), sock.answers, |old(sendBuf.Contents())|, |sendBuf.Contents()|, lost)
    {
      hide EncodeAcks, Capacity;
      ghost var a, queued, calls: nat := sock.answers, |sendBuf.Contents()|, 0;
      NoCalls(a, queued);
      var n := sendBuf.ReadableBytes();
      while n > 0
        invariant Valid() && open && !lost && sendBuf.buf == old(sendBuf.buf) && n == |sendBuf.Contents()|
        invariant calls <= |a| && sock.answers == a[calls..] && Taking(a, calls, queued, n)
        decreases |sock.answers|
      {
        OneMoreCall(a, calls, queued, n);
        var taken := SendOnce();
        calls := |a| - |sock.answers|;
        if taken == -2 {
          CloseConn();
          lost := true;
          return;
        }
        if taken == -1 {
          return;
        }
        n := sendBuf.ReadableBytes();
      }
      sendBuf.Compact();
    }

    /** Queues one ACK, encoded, and tries to send at once. */
    method EnqueueAck(a: AckBody)
      requires Valid() && open && !lost
      modifies sock`answers, sock`sent, sendBuf, sendBuf.buf, this`open, this`lost, this`acks
      ensures Valid() && (sendBuf.buf == old(sendBuf.buf) || fresh(sendBuf.buf))
      ensures acks == old(acks) + [a] && open == !lost
      ensures SentOn(old(sock.answers), sock.answers, |old(sendBuf.Contents())|, |sendBuf.Contents()|, lost)
      ensures SentOut(old(sock.answers), sock.answers, |old(sendBuf.Contents())| + 64, |sendBuf.Contents()|, lost)
    {
      EncodeAcksAppend(acks, a);
      hide EncodeAcks;
      var header, body := EncodeHeader(Header(ACK, a.devNo)), EncodeAckBody(a);
      assert EncodeFrame(AckFrame(a)) == header + body && |header| + |body| == 64;
      ghost var before := sendBuf.Contents();
      sendBuf.Append(header);
      sendBuf.Append(body);
      Reassociate(before, header, body);
      Reassociate(sock.sent, before, header + body);
      acks := acks + [a];
      assert Valid();
      var n := sendBuf.ReadableBytes();
      if n > 0 {
        HandleConnWritable();
      }
      SentOutIsOn(old(sock.answers), sock.answers, |before|, |before| + 64, |sendBuf.Contents()|, lost);
    }

    /** Queues one last ACK and closes the connection. */
    method Refuse(a: AckBody)
      requires Valid() && open && !lost
      modifies sock`answers, sock`sent, sendBuf, sendBuf.buf, this`open, this`lost, this`acks
      ensures Valid() && (sendBuf.buf == old(sendBuf.buf) || fresh(sendBuf.buf))
      ensures acks == old(acks) + [a] && !open
      ensures SentOn(old(sock.answers), sock.answers, |old(sendBuf.Contents())|, |sendBuf.Contents()|, lost)
    {
      hide EncodeAcks;
      EnqueueAck(a);
      CloseConn();
    }

    method HandleHello(f: Frame)
      requires Valid() && open && !lost
      modifies this`open, this`lost, this`acks, this`devno, this`helloDone, sock`answers, sock`sent, sendBuf, sendBuf.buf
      ensures Valid() && (sendBuf.buf == old(sendBuf.buf) || fresh(sendBuf.buf))
      ensures UpToLoss(Sv(), ServerModel.HandleHello(old(Sv()), f), lost)
      ensures SentOn(old(sock.answers), sock.answers, |old(sendBuf.Contents())|, |sendBuf.Contents()|, lost)
    {
      hide EncodeAcks, DecodeHelloBody;
      if helloDone {
        return;
      }
      if |f.body| < HELLO_BODY_SIZE {
        Refuse(AckBody(0, INVALID_DEV, f.header.devNo, ZeroHash()));
        return;
      }
      var hb := DecodeHelloBody(f.body);
      if hb.devNo !in store.images {
        Refuse(AckBody(0, INVALID_DEV, hb.devNo, ZeroHash()));
        return;
      }
      if |store.images[hb.devNo]| < hb.totalSize {
        Refuse(AckBody(0, OUT_OF_RANGE, hb.devNo, ZeroHash()));
        return;
      }
      devno := hb.devNo;
      helloDone := true;
      EnqueueAck(AckBody(0, OK, hb.devNo, ZeroHash()));
    }

    method HandleDataBlock(f: Frame)
      requires Valid() && open && !lost
      modifies this`open, this`lost, this`acks, this`blocksReceived, this`bytesWritten, this`errors
      modifies store, sock`answers, sock`sent, sendBuf, sendBuf.buf
      ensures Valid() && (sendBuf.buf == old(sendBuf.buf) || fresh(sendBuf.buf))
      ensures UpToLoss(Sv(), ServerModel.HandleDataBlock(store.codec, io(old(blocksReceived)), old(Sv()), f), lost)
      ensures SentOn(old(sock.answers), sock.answers, |old(sendBuf.Contents())|, |sendBuf.Contents()|, lost)
    {
      hide EncodeAcks, DecodeBlockHeader, Process;
      if !helloDone {
        CloseConn();
        return;
      }
      if |f.body| < BLOCK_HEADER_SIZE {
        return;
      }
      var bh := DecodeBlockHeader(f.body);
      if |f.body| < (BLOCK_HEADER_SIZE + bh.compressedSize) % TWO_32 {
        return;
      }
      var ack := store.ProcessBlock(f.header.devNo, bh, f.body[BLOCK_HEADER_SIZE..], io(blocksReceived));
      blocksReceived := blocksReceived + 1;
      if ack.status == OK {
        bytesWritten := bytesWritten + bh.dataSize;
      } else {
        errors := errors + 1;
      }
      EnqueueAck(ack);
    }

    method HandleBye(f: Frame)
      requires Valid() && open && !lost
      modifies this`open, this`lost, this`acks, sock`answers, sock`sent, sendBuf, sendBuf.buf
      ensures Valid() && (sendBuf.buf == old(sendBuf.buf) || fresh(sendBuf.buf))
      ensures UpToLoss(Sv(), ServerModel.HandleBye(old(Sv()), f), lost)
      ensures SentOn(old(sock.answers), sock.answers, |old(sendBuf.Contents())|, |sendBuf.Contents()|, lost)
    {
      EnqueueAck(AckBody(0, OK, f.header.devNo, ZeroHash()));
      CloseConn();
    }

    method DispatchFrame(f: Frame)
      requires Valid() && open && !lost
      modifies this`open, this`lost, this`acks, this`devno, this`helloDone
      modifies this`blocksReceived, this`bytesWritten, this`errors
      modifies store, sock`answers, sock`sent, sendBuf, sendBuf.buf
      ensures Valid() && (sendBuf.buf == old(sendBuf.buf) || fresh(sendBuf.buf))
      ensures UpToLoss(Sv(), Dispatch(store.codec, io, old(Sv()), f), lost)
      ensures SentOn(old(sock.answers), sock.answers, |old(sendBuf.Contents())|, |sendBuf.Contents()|, lost)
    {
      hide ServerModel.HandleHello, ServerModel.HandleDataBlock, ServerModel.HandleBye;
      if f.header.msgType == HELLO {
        HandleHello(f);
      } else if f.header.msgType == DATA_BLOCK {
        HandleDataBlock(f);
      } else if f.header.msgType == BYE {
        HandleBye(f);
      }
    }

    /** Drops `n` bytes off the front of the receive buffer and moves the rest to the start. */
    method Drop(n: nat)
      requires Valid() && n <= |recvBuf.Contents()|
      modifies recvBuf, recvBuf.buf
      ensures Valid() && recvBuf.buf == old(recvBuf.buf)
      ensures recvBuf.Contents() == old(recvBuf.Contents())[n..]
    {
      hide EncodeAcks;
      recvBuf.Consume(n);
      recvBuf.Compact();
    }

    /** Skips one byte to find the next message. */
    method SkipByte()
      requires Valid() && open && !lost && recvBuf.Contents() != []
      modifies this`log, recvBuf, recvBuf.buf
      ensures Valid() && recvBuf.buf == old(recvBuf.buf)
      ensures View() == Skip(old(View()))
    {
      hide EncodeAcks;
      log := log + [Skipped(recvBuf.buf[recvBuf.readPos])];
      Drop(1);
    }

    /** Handles one whole message and drops it from the receive buffer, unless the connection closed. */
    method TakeMessage(f: Frame)
      requires Valid() && open && !lost && |EncodeFrame(f)| <= |recvBuf.Contents()|
      modifies this, store, sock`answers, sock`sent, sendBuf, sendBuf.buf, recvBuf, recvBuf.buf
      ensures Valid() && recvBuf.buf == old(recvBuf.buf) && (sendBuf.buf == old(sendBuf.buf) || fresh(sendBuf.buf))
      ensures UpToLoss(Sv(), Dispatch(store.codec, io, old(Sv()), f), lost)
      ensures SentOn(old(sock.answers), sock.answers, |old(sendBuf.Contents())|, |sendBuf.Contents()|, lost)
      ensures log == old(log) + [Dispatched(f)]
      ensures open ==> recvBuf.Contents() == old(recvBuf.Contents())[HEADER_SIZE + |f.body|..]
    {
      hide EncodeAcks, Dispatch;
      ghost var unread := recvBuf.Contents();
      DispatchFrame(f);
      log := log + [Dispatched(f)];
      assert recvBuf.Contents() == unread;
      if open {
        Drop(HEADER_SIZE + |f.body|);
      }
    }

    /** One turn of the message loop; false when it stalls. */
    method OneTurn() returns (more: bool)
      requires Valid() && open && !lost
      modifies this, store, sock`answers, sock`sent, sendBuf, sendBuf.buf, recvBuf, recvBuf.buf
      ensures Valid() && recvBuf.buf == old(recvBuf.buf) && (sendBuf.buf == old(sendBuf.buf) || fresh(sendBuf.buf))
      ensures more == !Stalled(old(View()))
      ensures !more ==> View() == old(View()) && open && !lost
      ensures more && !lost ==> View() == Iterate(store.codec, io, old(View()))
      ensures more && lost ==> LostAt(View(), Iterate(store.codec, io, old(View())))
      ensures SentOn(old(sock.answers), sock.answers, |old(sendBuf.Contents())|, |sendBuf.Contents()|, lost)
    {
      hide EncodeAcks, TryParse, Dispatch;
      ghost var st := View();
      var unread := recvBuf.buf[recvBuf.readPos..recvBuf.writePos];
      assert st.unread == unread;
      match TryParse(unread) {
        case NeedMore =>
          return false;
        case BadMagic(_) =>
          ParsedNeedsBytes(unread);
          SkipByte();
        case InvalidType(_) =>
          ParsedNeedsBytes(unread);
          SkipByte();
        case OversizeBlock(_, _) =>
          CloseConn();
        case Parsed(f) =>
          ParsedIsFront(unread);
          TakeMessage(f);
      }
      more := true;
    }

    /** The message loop: it runs until it stalls or the connection closes. It ends because every turn
        shortens the unread bytes. */
    method ProcessMessages()
      requires Valid() && open && !lost
      modifies this, store, sock`answers, sock`sent, sendBuf, sendBuf.buf, recvBuf, recvBuf.buf
      ensures Valid() && recvBuf.buf == old(recvBuf.buf) && (sendBuf.buf == old(sendBuf.buf) || fresh(sendBuf.buf))
      ensures !lost ==> View() == Drain(store.codec, io, old(View()))
      ensures lost ==> |log| >= |old(log)| && LostAt(View(), Turns(store.codec, io, old(View()), |log| - |old(log)|))
      ensures SentOn(old(sock.answers), sock.answers, |old(sendBuf.Contents())|, |sendBuf.Contents()|, lost)
    {
      hide EncodeAcks, Iterate, SentOn;
      ghost var start := View();
      SentOnNothing(sock.answers, |sendBuf.Contents()|);
      ghost var k: nat := 0;
      while true
        invariant Valid() && open && !lost
        invariant recvBuf.buf == old(recvBuf.buf) && (sendBuf.buf == old(sendBuf.buf) || fresh(sendBuf.buf))
        invariant View() == Turns(store.codec, io, start, k)
        invariant SentOn(old(sock.answers), sock.answers, |old(sendBuf.Contents())|, |sendBuf.Contents()|, false)
        decreases |View().unread|
      {
        ghost var answers, queued := sock.answers, |sendBuf.Contents()|;
        var more := OneTurn();
        SentOnTwice(old(sock.answers), answers, sock.answers, |old(sendBuf.Contents())|, queued, |sendBuf.Contents()|, lost);
        if !more {
          DrainIsTurns(store.codec, io, start, k);
          return;
        }
        TurnsThenOne(store.codec, io, start, k);
        k := k + 1;
        if !open {
          if lost {
            TurnsAreLogged(store.codec, io, start, k, View());
          } else {
            DrainIsTurns(store.codec, io, start, k);
          }
          return;
        }
      }
    }

    /** One receive. The buffer always has room: it starts with less than one message unread. */
    method ReceiveChunk() returns (r: RecvResult, ghost chunk: seq<byte>)
      requires Valid() && open && !lost && Stalled(View())
      modifies recvBuf, recvBuf.buf, sock`incoming
      ensures Valid() && recvBuf.buf == old(recvBuf.buf) && !r.NoBufferSpace?
      ensures ArrivedBytes(old(sock.incoming)) == chunk + ArrivedBytes(sock.incoming)
      ensures View() == Arrive(old(View()), chunk)
      ensures r.Got? ==> |ArrivedBytes(sock.incoming)| < |ArrivedBytes(old(sock.incoming))|
      ensures !r.Got? ==> chunk == [] && if r.Again? then sock.Peek().WouldBlock? else HasEnded(sock.Peek())
    {
      hide EncodeAcks, TryParse;
      ghost var before := recvBuf.Contents();
      NeedMoreIsShort(before);
      var ready := sock.Peek();
      r := recvBuf.WriteFromFd(ready);
      chunk := [];
      if r.Got? {
        sock.Took(r.n);
        chunk := ready.bytes[..r.n];
      }
      assert recvBuf.Contents() == before + chunk;
    }

    /** One receive and the processing of what it brought; false when there is nothing more to receive. */
    method ReceiveAndProcess() returns (more: bool, ghost chunk: seq<byte>)
      requires Valid() && open && !lost && Stalled(View())
      modifies this, store, sock, sendBuf, sendBuf.buf, recvBuf, recvBuf.buf
      ensures Valid() && recvBuf.buf == old(recvBuf.buf) && (sendBuf.buf == old(sendBuf.buf) || fresh(sendBuf.buf))
      ensures ArrivedBytes(old(sock.incoming)) == chunk + ArrivedBytes(sock.incoming)
      ensures !lost ==> EndsAs(View(), Feed(store.codec, io, old(View()), chunk), sock.Peek())
      ensures !more && open ==> sock.Peek().WouldBlock?
      ensures open ==> !lost && View() == Feed(store.codec, io, old(View()), chunk)
      ensures lost ==> |log| >= |old(log)|
                       && LostAt(View(), Turns(store.codec, io, Arrive(old(View()), chunk), |log| - |old(log)|))
      ensures SentOn(old(sock.answers), sock.answers, |old(sendBuf.Contents())|, |sendBuf.Contents()|, lost)
      ensures more ==> |ArrivedBytes(sock.incoming)| < |ArrivedBytes(old(sock.incoming))|
    {
      hide EncodeAcks, Drain, Turns, TryParse, Stalled, SentOn;
      SentOnNothing(sock.answers, |sendBuf.Contents()|);
      ghost var before := View();
      var r;
      r, chunk := ReceiveChunk();
      more := r.Got?;
      if r.Got? || r.Again? {
        ProcessMessages();
      } else {
        FeedNothing(store.codec, io, before);
        assert before.unread + [] == before.unread;
        CloseConn();
      }
    }

    /** Everything the socket has is received and processed, chunk by chunk. Whatever the chunks were, an
        open connection ends up as if the bytes had come in one piece, with room for more, nothing left to
        receive, and every ACK sent unless sending blocked. */
    method HandleConnReadable() returns (ghost got: seq<byte>)
      requires Valid() && open && !lost && Stalled(View())
      modifies this, store, sock, sendBuf, sendBuf.buf, recvBuf, recvBuf.buf
      ensures Valid()
      ensures ArrivedBytes(old(sock.incoming)) == got + ArrivedBytes(sock.incoming)
      ensures !lost ==> EndsAs(View(), Feed(store.codec, io, old(View()), got), sock.Peek())
      ensures open ==> !lost && View() == Feed(store.codec, io, old(View()), got) && Stalled(View())
      ensures open ==> |recvBuf.Contents()| < HEADER_SIZE + BLOCK_HEADER_SIZE + 2 * BLOCK_SIZE
      ensures lost ==> |log| >= |old(log)|
                       && LostAt(View(), Turns(store.codec, io, Arrive(old(View()), got), |log| - |old(log)|))
      ensures SentOn(old(sock.answers), sock.answers, |old(sendBuf.Contents())|, |sendBuf.Contents()|, lost)
      ensures open ==> sock.Peek().WouldBlock?
    {
      hide EncodeAcks, Feed, Turns, TryParse, Stalled, LostAt, Arrive, SentOn;
      ghost var start := View();
      got := [];
      FeedNothing(store.codec, io, start);
      SentOnNothing(sock.answers, |sendBuf.Contents()|);
      var more := true;
      while more && open
        invariant Valid()
        invariant recvBuf.buf == old(recvBuf.buf) && (sendBuf.buf == old(sendBuf.buf) || fresh(sendBuf.buf))
        invariant ArrivedBytes(old(sock.incoming)) == got + ArrivedBytes(sock.incoming)
        invariant open ==> !lost && View() == Feed(store.codec, io, start, got)
        invariant !lost ==> EndsAs(View(), Feed(store.codec, io, start, got), sock.Peek())
        invariant !more && open ==> sock.Peek().WouldBlock?
        invariant SentOn(old(sock.answers), sock.answers, |old(sendBuf.Contents())|, |sendBuf.Contents()|, lost)
        invariant lost ==> |log| >= |start.log| && LostAt(View(), Turns(store.codec, io, Arrive(start, got), |log| - |start.log|))
        decreases |ArrivedBytes(sock.incoming)|, more
      {
        ghost var before, earlier := View(), got;
        ghost var answers, queued := sock.answers, |sendBuf.Contents()|;
        FedIsStalled(store.codec, io, start, got);
        ghost var chunk;
        more, chunk := ReceiveAndProcess();
        Reassociate(got, chunk, ArrivedBytes(sock.incoming));
        FeedTwice(store.codec, io, start, got, chunk);
        got := got + chunk;
        SentOnTwice(old(sock.answers), answers, sock.answers, |old(sendBuf.Contents())|, queued, |sendBuf.Contents()|, lost);
        if lost {
          LostInOnePiece(store.codec, io, start, earlier, chunk, |log| - |before.log|, View());
        }
      }
      FedIsStalled(store.codec, io, start, got);
      ShortWhenOpen(View());
    }
  }

  lemma FedIsStalled(cd: Codec, io: Writes, st: Stream, chunk: seq<byte>)
    ensures Stalled(Feed(cd, io, st, chunk))
  {
  }

  lemma ShortWhenOpen(st: Stream)
    ensures Stalled(st) && st.server.conn.open ==> |st.unread| < HEADER_SIZE + BLOCK_HEADER_SIZE + 2 * BLOCK_SIZE
  {
    if st.server.conn.open && TryParse(st.unread).NeedMore? {
      NeedMoreIsShort(st.unread);
    }
  }

  /** The socket's next item ends the connection: the peer closed it, or receiving fails. */
  predicate HasEnded(r: Ready) {
    r.PeerClosed? || r.Broken? || r == Ready.Data([])
  }

  /** The stream `v` is `f`, or `f` with the connection closed because the socket has ended. */
  predicate EndsAs(v: Stream, f: Stream, next: Ready) {
    v == f || (LostAt(v, f) && HasEnded(next))
  }

  lemma ParsedNeedsBytes(buf: seq<byte>)
    requires !TryParse(buf).NeedMore?
    ensures buf != []
  {
  }

  lemma FeedNothing(cd: Codec, io: Writes, st: Stream)
    requires Stalled(st)
    ensures Feed(cd, io, st, []) == st && Drain(cd, io, st) == st
  {
    assert st.unread + [] == st.unread;
  }

  /** `v` is `t` with the connection lost. */
  predicate LostAt(v: Stream, t: Stream) {
    v == Stream(t.server.(conn := Close(t.server.conn)), [], t.log)
  }
}
