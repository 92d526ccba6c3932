/** The same protocol on bytes: the client pushes encoded messages into a socket a few bytes at a time,
    the server receives arbitrary chunks, frames them and queues encoded ACKs, and the client reads
    those back in pieces. Every byte-level run is a run of the message-level protocol
    (client/NetworkClient.cpp, server/Server.cpp). */
module Network {
  import opened Bytes
  import opened Protocol
  import opened MessageParser
  import opened BlockProcessor
  import opened ServerModel
  import opened Tiling
  import opened Ownership
  import opened Pipeline
  import B = BlockState

  /** `pushed` counts the bytes of the message being sent already handed over; `up` and `down` are the
      bytes in flight each way; `unread` and `queued` are the server's buffers; `rx` is the part of
      the next ACK the client has read. */
  datatype Net = Net(client: Client, server: Server, pushed: nat, up: seq<byte>, unread: seq<byte>, draining: bool,
                     queued: seq<byte>, down: seq<byte>, rx: seq<byte>)

  ghost predicate NetInit(cf: Config, n: Net) {
    && Init(cf, Sys(n.client, n.server, [], 0, 0, []))
    && n.pushed == 0 && n.up == [] && n.unread == [] && !n.draining && n.queued == [] && n.down == [] && n.rx == []
  }

  datatype NetAction =
    | Step | Push(n: nat) | PushFailure
    | Arrival(n: nat) | Turn | Flush(n: nat)
    | Pull(n: nat) | PullFailure(alive: bool) | Cut

  function Image(m: Message): seq<byte> {
    EncodeFrame(ToFrame(m))
  }

  /** How many bytes the client asks for next: first a header, then a body. */
  function Room(rx: seq<byte>): nat {
    if |rx| < HEADER_SIZE then HEADER_SIZE - |rx|
    else if |rx| < HEADER_SIZE + ACK_BODY_SIZE then HEADER_SIZE + ACK_BODY_SIZE - |rx| else 0
  }

  /** The client after its receive buffer has become `rx`: a complete header is checked, a complete
      ACK is delivered. */
  function Received(n: Net, rx: seq<byte>): Net {
    if |rx| == HEADER_SIZE && (DecodeHeader(rx).magic != PROTOCOL_MAGIC || DecodeHeader(rx).msgType != ACK) then
      n.(client := AfterReceiveFailure(n.client, true), rx := [])
    else if |rx| == HEADER_SIZE + ACK_BODY_SIZE then
      n.(client := AfterReceive(n.client, DecodeAckBody(rx[HEADER_SIZE..])), rx := [])
    else n.(rx := rx)
  }

  /** One turn of the server's message loop on its receive buffer; new ACKs are queued as bytes. */
  function ServerTurn(cf: Config, n: Net): Net {
    var st := Stream(n.server, n.unread, []);
    if Stalled(st) then n.(draining := false)
    else
      var r := Iterate(cf.codec, cf.io, st);
      n.(server := r.server, unread := r.unread, queued := n.queued + NewAcks(n.server.conn.acks, r.server.conn.acks))
  }

  function NewAcks(before: seq<AckBody>, after: seq<AckBody>): seq<byte> {
    if |before| <= |after| then EncodeAcks(after[|before|..]) else []
  }

  ghost predicate NetDoes(cf: Config, n: Net, n': Net, a: NetAction) {
    match a
    case Step =>
      && n' == n.(client := n'.client) && LocalStep(cf, n.client, n'.client)
      && (n.client.ackThread.Polling? && n'.client.ackThread.Exited? ==> n.rx == [])
    case Push(k) =>
      && Outgoing(cf, n.client).Some?
      && var image := Image(Outgoing(cf, n.client).value);
         && 0 < k && n.pushed + k <= |image|
         && var up := n.up + image[n.pushed..n.pushed + k];
            if n.pushed + k == |image| then n' == n.(client := AfterSend(n.client), pushed := 0, up := up)
            else n' == n.(pushed := n.pushed + k, up := up)
    case PushFailure =>
      && Outgoing(cf, n.client.(connected := true)).Some?
      && n' == n.(client := AfterSendFailure(n.client), pushed := 0)
    case Arrival(k) =>
      && n.server.conn.open && !n.draining && 0 < k <= |n.up|
      && n' == n.(up := n.up[k..], unread := n.unread + n.up[..k], draining := true)
    case Turn => n.server.conn.open && n.draining && n' == ServerTurn(cf, n)
    case Flush(k) =>
      0 < k <= |n.queued| && n' == n.(queued := n.queued[k..], down := n.down + n.queued[..k])
    case Pull(k) =>
      && Wants(n.client) && 0 < k <= |n.down| && k <= Room(n.rx)
      && n' == Received(n.(down := n.down[k..]), n.rx + n.down[..k])
    case PullFailure(alive) =>
      && Wants(n.client) && (alive ==> n.rx == [])
      && n' == n.(client := AfterReceiveFailure(n.client, alive), rx := [])
    case Cut =>
      n' == n.(server := n.server.(conn := Close(n.server.conn)), draining := false)
  }

  ghost predicate NetNext(cf: Config, n: Net, n': Net) {
    exists a :: NetDoes(cf, n, n', a)
  }

  ghost predicate NetRun(cf: Config, nets: seq<Net>) {
    && nets != [] && NetInit(cf, nets[0])
    && forall k :: 0 <= k < |nets| - 1 ==> NetNext(cf, nets[k], nets[k + 1])
  }

  // ---------- the refinement relation ----------

  /** Part of a message, not all of it. */
  ghost predicate IsStub(x: seq<byte>) {
    exists f :: WellFormed(f) && Prefix(x, EncodeFrame(f)) && |x| < |EncodeFrame(f)|
  }

  /** The client will never send again. */
  predicate Mute(c: Client) {
    c.main == Greet(GaveUp) || (c.main.Tail? && !c.connected)
  }

  /** The client will never read again. */
  predicate Deaf(c: Client) {
    || c.main == Greet(GaveUp)
    || (c.main.Tail? && c.main.t.Finished?)
    || (!c.connected && c.ackThread.Exited? && !c.main.Greet? && !(c.main.Tail? && c.main.t.AwaitBye?))
  }

  predicate PartlyPushed(cf: Config, n: Net, stub: seq<byte>) {
    && Outgoing(cf, n.client).Some?
    && n.pushed < |Image(Outgoing(cf, n.client).value)|
    && stub == Image(Outgoing(cf, n.client).value)[..n.pushed]
  }

  /** Client to server: the bytes not yet taken apart are the messages not yet handled, then what has
      been pushed of the next one. */
  ghost predicate UpOk(cf: Config, n: Net, pending: seq<byte>) {
    var bytes := n.unread + n.up;
    Prefix(pending, bytes) &&
    var stub := bytes[|pending|..];
    && IsStub(stub)
    && (n.pushed > 0 ==> PartlyPushed(cf, n, stub))
    && (n.pushed == 0 && !Mute(n.client) ==> stub == [])
  }

  /** Server to client: the bytes not yet delivered are the ACKs not yet taken. */
  predicate DownOk(n: Net, acks: seq<AckBody>) {
    Deaf(n.client) || (|n.rx| < 64 && n.rx + n.down + n.queued == EncodeAcks(acks))
  }

  ghost predicate Refines(cf: Config, n: Net, s: Sys) {
    && n.client == s.client && n.server == s.server
    && s.taken <= |s.server.conn.acks| && s.served <= |s.msgs|
    && (n.server.conn.open ==> UpOk(cf, n, EncodeMessages(s.msgs[s.served..])))
    && DownOk(n, s.server.conn.acks[s.taken..])
    && (n.pushed > 0 ==> Outgoing(cf, n.client).Some?)
  }

  // ---------- each byte-level step is a step of the protocol, or none ----------

  /** The byte-level step can be matched by `s'`: the same state, or one step on. */
  ghost predicate Matched(cf: Config, n': Net, s: Sys, s': Sys) {
    (s' == s || NextState(cf, s, s')) && Refines(cf, n', s')
  }

  lemma {:induction false} EncodeMessagesAppend(ms: seq<Message>, m: Message)
    ensures EncodeMessages(ms + [m]) == EncodeMessages(ms) + Image(m)
  {
    if ms == [] {
      assert ms + [m] == [m];
    } else {
      EncodeMessagesAppend(ms[1..], m);
      assert (ms + [m])[1..] == ms[1..] + [m] && (ms + [m])[0] == ms[0];
      Reassociate(Image(ms[0]), EncodeMessages(ms[1..]), Image(m));
    }
  }

  lemma EmptyIsStub()
    ensures IsStub([])
  {
    AckIsWellFormed(AckBody(0, OK, 0, ZeroHash()));
  }

  /** While a message is partly pushed, the ACK thread's steps do not change it: at its send, the held
      slot contains exactly block i. */
  lemma OutgoingStable(cf: Config, s: Sys, c': Client)
    requires Inv(cf, s) && LocalStep(cf, s.client, c') && Outgoing(cf, s.client).Some?
    requires DataOk(cf, c'.main, c'.slots) && (c'.main.Work? ==> c'.main.s < |c'.slots|)
    ensures Outgoing(cf, c') == Outgoing(cf, s.client)
  {
    hide MsgsOk, ServerOk, TablesOk, SlotsOk, CountsOk, ProgressOk, Settled, PcOk, B.HashSet, B.AckSet;
  }

  /** What the client sends is always well formed. */
  lemma OutgoingWellFormed(cf: Config, s: Sys)
    requires Lawful(cf.codec) && cf.total == TotalBlocks(cf.totalSize) && Inv(cf, s)
    requires Outgoing(cf, s.client).Some?
    ensures WellFormed(ToFrame(Outgoing(cf, s.client).value))
  {
    hide MsgsOk, TablesOk, SlotsOk, CountsOk, ProgressOk, Settled, WellFormed;
    var c := s.client;
    if c.main.Work? {
      assert s.server.disks[cf.dev] in s.server.disks.Values;
      BlockMsgSendable(cf, c.main.i);
    }
    SendableIsWellFormed(Outgoing(cf, c).value);
  }

  lemma DeafStaysInLoop(cf: Config, c: Client, c': Client)
    requires Deaf(c) && LoopStep(cf, c, c')
    ensures Deaf(c')
  {
    LoopPhases(cf, c, c');
    LoopKeepsLink(cf, c, c');
    hide LoopStep;
  }

  lemma LoopKeepsLink(cf: Config, c: Client, c': Client)
    requires LoopStep(cf, c, c')
    ensures c'.connected == c.connected && (c'.main.Tail? ==> c'.main.t.LoopDone?)
  {
  }

  lemma DeafStaysOutside(cf: Config, c: Client, c': Client)
    requires Deaf(c) && (EdgeStep(cf, c, c') || AckStep(c, c'))
    ensures Deaf(c')
  {
    hide B.HashSet, B.AckSet;
  }

  lemma DeafStays(cf: Config, c: Client, c': Client)
    requires Deaf(c)
    requires || LocalStep(cf, c, c')
             || (Outgoing(cf, c).Some? && c' == AfterSend(c))
             || (Outgoing(cf, c.(connected := true)).Some? && c' == AfterSendFailure(c))
    ensures Deaf(c')
  {
    hide LoopStep, EdgeStep, AckStep;
    if LoopStep(cf, c, c') {
      DeafStaysInLoop(cf, c, c');
    } else if EdgeStep(cf, c, c') || AckStep(c, c') {
      DeafStaysOutside(cf, c, c');
    }
  }

  lemma MuteStays(cf: Config, c: Client, c': Client)
    requires Mute(c)
    requires LocalStep(cf, c, c') || (exists a :: c' == AfterReceive(c, a)) || (exists b :: c' == AfterReceiveFailure(c, b))
    ensures Mute(c')
  {
    hide B.HashSet, B.AckSet;
  }

  lemma MuteAfterFailure(cf: Config, c: Client)
    requires Outgoing(cf, c.(connected := true)).Some?
    ensures Mute(AfterSendFailure(c))
  {
  }

  lemma SimStep(cf: Config, n: Net, n': Net, s: Sys) returns (s': Sys)
    requires Lawful(cf.codec) && cf.total == TotalBlocks(cf.totalSize) && Inv(cf, s)
    requires Refines(cf, n, s) && NetDoes(cf, n, n', Step)
    ensures Matched(cf, n', s, s')
  {
    hide Inv, LocalStep, IsStub, Outgoing;
    s' := s.(client := n'.client);
    assert Does(cf, s, s', Local);
    StepKeeps(cf, s, s');
    if n.pushed > 0 {
      HeldFacts(cf, s');
      OutgoingStable(cf, s, n'.client);
    }
    if Mute(n.client) {
      MuteStays(cf, n.client, n'.client);
    }
    if Deaf(n.client) {
      DeafStays(cf, n.client, n'.client);
    }
  }

  lemma HeldFacts(cf: Config, s: Sys)
    requires Inv(cf, s)
    ensures DataOk(cf, s.client.main, s.client.slots)
    ensures s.client.main.Work? ==> s.client.main.s < |s.client.slots|
  {
    hide MsgsOk, ServerOk, TablesOk, CountsOk, ProgressOk, Settled, PcOk, DataOk, ThreadsOk;
  }

  /** Pushing bytes extends what has been pushed of the message. */
  lemma PushExtends(unread: seq<byte>, up: seq<byte>, pending: seq<byte>, image: seq<byte>, from: nat, to: nat)
    requires from <= to <= |image| && unread + up == pending + image[..from]
    ensures unread + (up + image[from..to]) == pending + image[..to]
  {
    assert image[..from] + image[from..to] == image[..to];
    Reassociate(unread, up, image[from..to]);
    Reassociate(pending, image[..from], image[from..to]);
  }

  lemma PushedSoFar(cf: Config, n: Net, pending: seq<byte>)
    requires Outgoing(cf, n.client).Some? && !Mute(n.client) && UpOk(cf, n, pending)
    ensures n.pushed <= |Image(Outgoing(cf, n.client).value)|
    ensures n.unread + n.up == pending + Image(Outgoing(cf, n.client).value)[..n.pushed]
  {
    hide Outgoing, IsStub, Image;
    var stub := (n.unread + n.up)[|pending|..];
    assert n.unread + n.up == pending + stub;
  }

  lemma PartIsUpOk(cf: Config, n: Net, pending: seq<byte>)
    requires Outgoing(cf, n.client).Some? && WellFormed(ToFrame(Outgoing(cf, n.client).value))
    requires 0 < n.pushed < |Image(Outgoing(cf, n.client).value)|
    requires n.unread + n.up == pending + Image(Outgoing(cf, n.client).value)[..n.pushed]
    ensures UpOk(cf, n, pending)
  {
    hide Outgoing, WellFormed;
    var f := ToFrame(Outgoing(cf, n.client).value);
    var stub := (n.unread + n.up)[|pending|..];
    assert stub == EncodeFrame(f)[..n.pushed];
    assert WellFormed(f) && Prefix(stub, EncodeFrame(f)) && |stub| < |EncodeFrame(f)|;
  }

  lemma SimPushPart(cf: Config, n: Net, n': Net, s: Sys, k: nat)
    requires Lawful(cf.codec) && cf.total == TotalBlocks(cf.totalSize) && Inv(cf, s)
    requires Refines(cf, n, s) && NetDoes(cf, n, n', Push(k))
    requires n.pushed + k < |Image(Outgoing(cf, n.client).value)|
    ensures Refines(cf, n', s)
  {
    hide Inv, Outgoing, WellFormed, Mute, Deaf, Image, UpOk, IsStub, PartlyPushed, EncodeAcks, EncodeMessages;
    hide LocalStep, Dispatch, Received, ServerTurn, AfterSend, AfterSendFailure, AfterReceiveFailure;
    OutgoingWellFormed(cf, s);
    NotMute(cf, n.client);
    if n.server.conn.open {
      PushPartUp(cf, n, n', EncodeMessages(s.msgs[s.served..]), k);
    }
  }

  lemma PushPartUp(cf: Config, n: Net, n': Net, pending: seq<byte>, k: nat)
    requires Outgoing(cf, n.client).Some? && WellFormed(ToFrame(Outgoing(cf, n.client).value)) && !Mute(n.client)
    requires UpOk(cf, n, pending)
    requires var image := Image(Outgoing(cf, n.client).value);
             && 0 < k && n.pushed + k < |image|
             && n' == n.(pushed := n.pushed + k, up := n.up + image[n.pushed..n.pushed + k])
    ensures UpOk(cf, n', pending)
  {
    hide Outgoing, WellFormed, Mute, Image;
    var image := Image(Outgoing(cf, n.client).value);
    PushedSoFar(cf, n, pending);
    PushExtends(n.unread, n.up, pending, image, n.pushed, n.pushed + k);
    PartIsUpOk(cf, n', pending);
  }

  lemma PushLastUp(cf: Config, n: Net, n': Net, s: Sys, m: Message)
    requires Refines(cf, n, s) && n.server.conn.open && Outgoing(cf, n.client) == Some(m) && !Mute(n.client)
    requires n.pushed <= |Image(m)| && n'.pushed == 0 && n'.unread == n.unread && n'.up == n.up + Image(m)[n.pushed..]
    ensures UpOk(cf, n', EncodeMessages((s.msgs + [m])[s.served..]))
  {
    var image, pending := Image(m), EncodeMessages(s.msgs[s.served..]);
    PushedSoFar(cf, n, pending);
    hide Outgoing, IsStub, Image, UpOk, DownOk, EncodeMessages;
    PushExtends(n.unread, n.up, pending, image, n.pushed, |image|);
    EncodeMessagesAppend(s.msgs[s.served..], m);
    assert (s.msgs + [m])[s.served..] == s.msgs[s.served..] + [m];
    assert image[..|image|] == image && image[n.pushed..|image|] == image[n.pushed..];
    WholeIsUpOk(cf, n', pending + image);
  }

  lemma PushLastShape(cf: Config, n: Net, n': Net, k: nat)
    requires NetDoes(cf, n, n', Push(k)) && n.pushed + k == |Image(Outgoing(cf, n.client).value)|
    ensures n' == n.(client := AfterSend(n.client), pushed := 0,
                     up := n.up + Image(Outgoing(cf, n.client).value)[n.pushed..])
  {
    hide Outgoing, AfterSend, Image;
    var image := Image(Outgoing(cf, n.client).value);
    assert image[n.pushed..|image|] == image[n.pushed..];
  }

  lemma PushLastRefines(cf: Config, n: Net, n': Net, s: Sys, s': Sys)
    requires Refines(cf, n, s)
    requires n' == n.(client := s'.client, pushed := 0, up := n'.up)
    requires s' == s.(client := s'.client, msgs := s'.msgs, holders := s'.holders) && |s.msgs| <= |s'.msgs|
    requires n.server.conn.open ==> UpOk(cf, n', EncodeMessages(s'.msgs[s.served..]))
    requires Deaf(n.client) ==> Deaf(n'.client)
    ensures Refines(cf, n', s')
  {
    hide Outgoing, UpOk, Deaf, EncodeAcks, EncodeMessages;
  }

  lemma SimPushLast(cf: Config, n: Net, n': Net, s: Sys, k: nat) returns (s': Sys)
    requires Refines(cf, n, s) && NetDoes(cf, n, n', Push(k)) && Outgoing(cf, n.client).Some?
    requires n.pushed + k == |Image(Outgoing(cf, n.client).value)|
    ensures Matched(cf, n', s, s')
  {
    NotMute(cf, n.client);
    RefinesShares(cf, n, s);
    PushLastShape(cf, n, n', k);
    hide Refines, NetDoes, Outgoing, AfterSend, Mute, Deaf, Image, UpOk, Holder;
    var m := Outgoing(cf, n.client).value;
    s' := s.(client := AfterSend(s.client), msgs := s.msgs + [m], holders := s.holders + [Holder(s.client.main)]);
    assert Does(cf, s, s', Send);
    if Deaf(n.client) {
      DeafStays(cf, n.client, n'.client);
    }
    if n.server.conn.open {
      PushLastUp(cf, n, n', s, m);
    }
    PushLastRefines(cf, n, n', s, s');
  }

  lemma PushHasMessage(cf: Config, n: Net, n': Net, k: nat)
    requires NetDoes(cf, n, n', Push(k))
    ensures Outgoing(cf, n.client).Some? && n.pushed + k <= |Image(Outgoing(cf, n.client).value)|
  {
  }

  lemma SimPush(cf: Config, n: Net, n': Net, s: Sys, k: nat) returns (s': Sys)
    requires Lawful(cf.codec) && cf.total == TotalBlocks(cf.totalSize) && Inv(cf, s)
    requires Refines(cf, n, s) && NetDoes(cf, n, n', Push(k))
    ensures Matched(cf, n', s, s')
  {
    PushHasMessage(cf, n, n', k);
    hide Inv, Refines, NetDoes, Outgoing, Image;
    if n.pushed + k == |Image(Outgoing(cf, n.client).value)| {
      s' := SimPushLast(cf, n, n', s, k);
    } else {
      SimPushPart(cf, n, n', s, k);
      s' := s;
    }
  }

  lemma NotMute(cf: Config, c: Client)
    requires Outgoing(cf, c).Some?
    ensures !Mute(c)
  {
  }

  lemma WholeIsUpOk(cf: Config, n: Net, pending: seq<byte>)
    requires n.unread + n.up == pending && n.pushed == 0
    ensures UpOk(cf, n, pending)
  {
    EmptyIsStub();
    assert pending[|pending|..] == [];
  }

  lemma SimPushFailure(cf: Config, n: Net, n': Net, s: Sys) returns (s': Sys)
    requires Refines(cf, n, s) && NetDoes(cf, n, n', PushFailure)
    ensures Matched(cf, n', s, s')
  {
    s' := s.(client := AfterSendFailure(s.client));
    assert Does(cf, s, s', SendFailure);
    MuteAfterFailure(cf, n.client);
    if Deaf(n.client) {
      DeafStays(cf, n.client, n'.client);
    }
    hide IsStub, Outgoing, AfterSendFailure, Mute, Deaf;
  }

  lemma MoveFront(a: seq<byte>, b: seq<byte>, k: nat)
    requires k <= |b|
    ensures (a + b[..k]) + b[k..] == a + b
  {
    assert b == b[..k] + b[k..];
  }

  lemma SimArrival(cf: Config, n: Net, n': Net, s: Sys, k: nat) returns (s': Sys)
    requires Refines(cf, n, s) && NetDoes(cf, n, n', Arrival(k))
    ensures Matched(cf, n', s, s')
  {
    hide IsStub, Outgoing, LocalStep, Dispatch, Received, ServerTurn, EncodeAcks, EncodeMessages, Mute, Deaf, NextState;
    s' := s;
    MoveFront(n.unread, n.up, k);
  }

  lemma SimFlush(cf: Config, n: Net, n': Net, s: Sys, k: nat) returns (s': Sys)
    requires Refines(cf, n, s) && NetDoes(cf, n, n', Flush(k))
    ensures Matched(cf, n', s, s')
  {
    hide IsStub, Outgoing, LocalStep, Dispatch, Received, ServerTurn, EncodeAcks, EncodeMessages, Mute, Deaf, NextState;
    s' := s;
    MoveFront(n.rx + n.down, n.queued, k);
    Reassociate(n.rx, n.down, n.queued[..k]);
  }

  lemma StubNeedsMore(unread: seq<byte>, up: seq<byte>)
    requires IsStub(unread + up)
    ensures TryParse(unread).NeedMore?
  {
    hide TryParse, WellFormed;
    var f :| WellFormed(f) && Prefix(unread + up, EncodeFrame(f)) && |unread + up| < |EncodeFrame(f)|;
    assert Prefix(unread, EncodeFrame(f));
    ParsePartial(f, unread);
  }

  /** A buffer whose bytes begin with a well-formed frame parses as that frame, or asks for more. */
  lemma FrontParses(unread: seq<byte>, up: seq<byte>, f: Frame)
    requires WellFormed(f) && Prefix(EncodeFrame(f), unread + up)
    ensures !TryParse(unread).NeedMore? ==> TryParse(unread) == Parsed(f) && Prefix(EncodeFrame(f), unread)
  {
    hide TryParse, WellFormed;
    var image := EncodeFrame(f);
    if |unread| < |image| {
      assert Prefix(unread, image);
      ParsePartial(f, unread);
    } else {
      assert Prefix(image, unread);
      assert unread == image + unread[|image|..];
      ParseWhole(f, unread[|image|..]);
    }
  }

  lemma FirstImageIsFront(bytes: seq<byte>, ms: seq<Message>)
    requires ms != [] && Prefix(EncodeMessages(ms), bytes)
    ensures Prefix(Image(ms[0]), bytes)
  {
    var image, all := Image(ms[0]), EncodeMessages(ms);
    assert all == image + EncodeMessages(ms[1..]);
    assert bytes[..|image|] == bytes[..|all|][..|image|];
  }

  /** The unread bytes are the front of the pending messages and the stub: if the parser finds
      anything, it is the first pending message, whole. */
  lemma TurnFindsMessage(unread: seq<byte>, up: seq<byte>, ms: seq<Message>)
    requires Prefix(EncodeMessages(ms), unread + up) && IsStub((unread + up)[|EncodeMessages(ms)|..])
    requires forall m :: m in ms ==> WellFormed(ToFrame(m))
    requires !TryParse(unread).NeedMore?
    ensures ms != [] && TryParse(unread) == Parsed(ToFrame(ms[0]))
    ensures Prefix(Image(ms[0]), unread)
    ensures unread[|Image(ms[0])|..] + up == (unread + up)[|Image(ms[0])|..]
  {
    hide TryParse, WellFormed, IsStub;
    var bytes := unread + up;
    if ms == [] {
      assert bytes[0..] == bytes;
      StubNeedsMore(unread, up);
    } else {
      FirstImageIsFront(bytes, ms);
      hide EncodeMessages;
      FrontParses(unread, up, ToFrame(ms[0]));
    }
  }

  lemma MsgsWellFormed(cf: Config, s: Sys)
    requires Lawful(cf.codec) && cf.total == TotalBlocks(cf.totalSize) && Inv(cf, s)
    ensures s.served <= |s.msgs| && forall m :: m in s.msgs[s.served..] ==> WellFormed(ToFrame(m))
  {
    InvTurn(cf, s);
    hide TablesOk, SlotsOk, CountsOk, ProgressOk, Settled, DataOk, ThreadsOk, WellFormed, MsgsOk, ServerOk;
    forall m | m in s.msgs[s.served..] ensures WellFormed(ToFrame(m)) {
      var j :| 0 <= j < |s.msgs| && s.msgs[j] == m;
      MsgAt(cf, MayHaveSaidBye(s.client.main), Bound(s.client.main), s.msgs, j);
      if IsBlock(s.msgs, j) {
        BlocksMeanGreeted(cf, s.client.main, |s.msgs|);
        AcceptedSize(cf, s);
        BlockMsgSendable(cf, Idx(s.msgs, j));
      }
      SendableIsWellFormed(m);
    }
  }

  lemma AcceptedSize(cf: Config, s: Sys)
    requires ServerOk(cf, true, s.server, s.msgs, s.served, s.taken)
    ensures cf.totalSize <= 0x8000_0000_0000_0000
  {
  }

  lemma PendingUp(cf: Config, n: Net, s: Sys)
    requires Refines(cf, n, s) && n.server.conn.open
    ensures n.server == s.server && s.served <= |s.msgs|
    ensures var pending := EncodeMessages(s.msgs[s.served..]);
            Prefix(pending, n.unread + n.up) && IsStub((n.unread + n.up)[|pending|..])
  {
    hide Outgoing, IsStub, EncodeMessages, DownOk;
  }

  /** A turn that finds a message finds the first pending one. */
  lemma TurnFinds(cf: Config, n: Net, s: Sys)
    requires Lawful(cf.codec) && cf.total == TotalBlocks(cf.totalSize) && Inv(cf, s)
    requires Refines(cf, n, s) && n.server.conn.open && !TryParse(n.unread).NeedMore?
    ensures s.served < |s.msgs| && TryParse(n.unread) == Parsed(ToFrame(s.msgs[s.served]))
    ensures var image := Image(s.msgs[s.served]);
            Prefix(image, n.unread) && n.unread[|image|..] + n.up == (n.unread + n.up)[|image|..]
  {
    hide Inv, Refines, TryParse, WellFormed, IsStub, Image, EncodeMessages;
    PendingUp(cf, n, s);
    MsgsWellFormed(cf, s);
    var ms := s.msgs[s.served..];
    TurnFindsMessage(n.unread, n.up, ms);
    assert ms[0] == s.msgs[s.served];
  }

  /** What the turn leaves in the server's buffers. */
  lemma TurnBuffers(cf: Config, n: Net, n': Net, f: Frame)
    requires NetDoes(cf, n, n', Turn) && TryParse(n.unread) == Parsed(f)
    ensures n'.server == Dispatch(cf.codec, cf.io, n.server, f)
    ensures n'.queued == n.queued + NewAcks(n.server.conn.acks, n'.server.conn.acks)
    ensures n'.server.conn.open ==> |EncodeFrame(f)| <= |n.unread| && n'.unread == n.unread[|EncodeFrame(f)|..]
    ensures n' == n.(server := n'.server, unread := n'.unread, queued := n'.queued)
  {
    ParsedIsFront(n.unread);
    hide Dispatch, TryParse, WellFormed, NewAcks;
  }

  lemma TurnDown(n: Net, n': Net, acks: seq<AckBody>, acks': seq<AckBody>, taken: nat)
    requires taken <= |acks| && acks <= acks' && DownOk(n, acks[taken..])
    requires n'.client == n.client && n'.rx == n.rx && n'.down == n.down && n'.queued == n.queued + NewAcks(acks, acks')
    ensures DownOk(n', acks'[taken..])
  {
    hide Deaf, EncodeAcks;
    EncodeAcksConcat(acks[taken..], acks'[|acks|..]);
    assert acks'[taken..] == acks[taken..] + acks'[|acks|..];
    Reassociate(n.rx + n.down, n.queued, NewAcks(acks, acks'));
  }

  lemma StallRefines(cf: Config, n: Net, n': Net, s: Sys)
    requires Refines(cf, n, s) && NetDoes(cf, n, n', Turn) && TryParse(n.unread).NeedMore?
    ensures Refines(cf, n', s)
  {
    hide Outgoing, TryParse, Deaf, IsStub, EncodeAcks, EncodeMessages, Mute, Image;
  }

  lemma TurnRefines(cf: Config, n: Net, n': Net, s: Sys, s': Sys)
    requires Refines(cf, n, s) && n.server.conn.open && s.served < |s.msgs|
    requires n' == n.(server := n'.server, unread := n'.unread, queued := n'.queued)
    requires n'.queued == n.queued + NewAcks(n.server.conn.acks, n'.server.conn.acks)
    requires s' == s.(server := n'.server, served := s.served + 1)
    requires s.server.conn.acks <= s'.server.conn.acks
    requires |Image(s.msgs[s.served])| <= |n.unread + n.up|
    requires n'.server.conn.open ==> n'.unread + n'.up == (n.unread + n.up)[|Image(s.msgs[s.served])|..]
    ensures Refines(cf, n', s')
  {
    hide Outgoing, IsStub, EncodeAcks, EncodeMessages, Deaf, Mute, Image, DownOk, UpOk, NewAcks;
    TurnDown(n, n', s.server.conn.acks, s'.server.conn.acks, s.taken);
    if n'.server.conn.open {
      assert s'.msgs[s'.served..] == s.msgs[s.served..][1..];
      TurnUp(cf, n, n', s.msgs[s.served..]);
    }
  }

  lemma SameServer(cf: Config, n: Net, n': Net, s: Sys)
    requires Refines(cf, n, s) && NetDoes(cf, n, n', Turn)
    ensures n.server == s.server && n.server.conn.open
  {
    hide UpOk, DownOk, ServerTurn, Outgoing;
  }

  lemma SimTurn(cf: Config, n: Net, n': Net, s: Sys) returns (s': Sys)
    requires Lawful(cf.codec) && cf.total == TotalBlocks(cf.totalSize) && Inv(cf, s)
    requires Refines(cf, n, s) && NetDoes(cf, n, n', Turn)
    ensures Matched(cf, n', s, s')
  {
    hide Inv, Refines, NetDoes, TryParse, Dispatch, NewAcks, Image;
    hide LocalStep, AfterSend, AfterSendFailure, AfterReceive, AfterReceiveFailure;
    SameServer(cf, n, n', s);
    if TryParse(n.unread).NeedMore? {
      StallRefines(cf, n, n', s);
      s' := s;
    } else {
      TurnFinds(cf, n, s);
      var f := ToFrame(s.msgs[s.served]);
      s' := s.(server := Dispatch(cf.codec, cf.io, s.server, f), served := s.served + 1);
      assert Does(cf, s, s', Serve);
      AcksOnlyGrow(cf, s, s');
      TurnBuffers(cf, n, n', f);
      ImageSize(s.msgs[s.served]);
      TurnRefines(cf, n, n', s, s');
    }
  }

  lemma ImageSize(m: Message)
    ensures Image(m) == EncodeFrame(ToFrame(m))
  {
  }

  lemma TurnUp(cf: Config, n: Net, n': Net, ms: seq<Message>)
    requires ms != [] && UpOk(cf, n, EncodeMessages(ms))
    requires n'.client == n.client && n'.pushed == n.pushed
    requires n'.unread + n'.up == (n.unread + n.up)[|Image(ms[0])|..]
    requires |Image(ms[0])| <= |n.unread + n.up|
    ensures UpOk(cf, n', EncodeMessages(ms[1..]))
  {
    hide Outgoing, IsStub, EncodeFrame, ToFrame;
    var a, b, bytes := Image(ms[0]), EncodeMessages(ms[1..]), n.unread + n.up;
    assert EncodeMessages(ms) == a + b;
    assert bytes[|a|..][..|b|] == b;
    assert bytes[|a|..][|b|..] == bytes[|a + b|..];
  }

  lemma InvTurn(cf: Config, s: Sys)
    requires Inv(cf, s)
    ensures s.taken <= |s.server.conn.acks| == s.served <= |s.msgs|
  {
    hide MsgsOk, TablesOk, SlotsOk, CountsOk, ProgressOk, Settled, DataOk, ThreadsOk, PcOk;
  }

  lemma AcksOnlyGrow(cf: Config, s: Sys, s': Sys)
    requires Lawful(cf.codec) && cf.total == TotalBlocks(cf.totalSize)
    requires Inv(cf, s) && Does(cf, s, s', Serve)
    ensures s.server.conn.acks <= s'.server.conn.acks
  {
    hide TablesOk, SlotsOk, CountsOk, ProgressOk, Settled, DataOk, ThreadsOk, MsgsOk, ServerOk, PcOk, Dispatch, Ascending;
    var m, served := s.client.main, s.served;
    MsgAt(cf, MayHaveSaidBye(m), Bound(m), s.msgs, served);
    if IsBlock(s.msgs, served) {
      BlocksMeanGreeted(cf, m, |s.msgs|);
      ServeBlockServer(cf, s.server, s'.server, s.msgs, served, s.taken, Bound(m));
    } else {
      ServeOtherServer(cf, Greeted(m), s.server, s'.server, s.msgs, served, s.taken);
    }
  }

  lemma {:induction false} EncodeAcksConcat(a: seq<AckBody>, b: seq<AckBody>)
    ensures EncodeAcks(a + b) == EncodeAcks(a) + EncodeAcks(b)
  {
    if a == [] {
      assert a + b == b;
    } else {
      EncodeAcksConcat(a[1..], b);
      assert (a + b)[1..] == a[1..] + b && (a + b)[0] == a[0];
      Reassociate(EncodeFrame(AckFrame(a[0])), EncodeAcks(a[1..]), EncodeAcks(b));
    }
  }

  /** The first 64 bytes the client reads are the next ACK, and their header passes its checks. */
  lemma FirstAck(rx: seq<byte>, rest: seq<byte>, acks: seq<AckBody>)
    requires rx + rest == EncodeAcks(acks) && 0 < |rx| <= 64
    ensures acks != []
    ensures |rx| == HEADER_SIZE ==> DecodeHeader(rx) == Header(ACK, acks[0].devNo)
    ensures |rx| == 64 ==> DecodeAckBody(rx[HEADER_SIZE..]) == acks[0] && rest == EncodeAcks(acks[1..])
  {
    var a := acks[0];
    var head, body, tail := EncodeHeader(AckFrame(a).header), EncodeAckBody(a), EncodeAcks(acks[1..]);
    var all := EncodeAcks(acks);
    assert all == (head + body) + tail;
    assert rx == all[..|rx|] && rest == all[|rx|..];
    if |rx| == HEADER_SIZE {
      assert all[..HEADER_SIZE] == head == head + [];
      HeaderRoundTrip(AckFrame(a).header, []);
    } else if |rx| == 64 {
      assert all[..64] == head + body && all[64..] == tail;
      assert (head + body)[HEADER_SIZE..] == body == body + [];
      AckBodyRoundTrip(a, []);
    }
  }

  /** What a read does: the header always passes, and a complete ACK is the next one. */
  lemma PullReads(cf: Config, n: Net, n': Net, s: Sys, k: nat)
    requires Refines(cf, n, s) && !Deaf(n.client) && NetDoes(cf, n, n', Pull(k))
    ensures var rx := n.rx + n.down[..k];
            if |rx| < 64 then n' == n.(rx := rx, down := n.down[k..]) && n'.rx + n'.down + n'.queued == n.rx + n.down + n.queued
            else s.taken < |s.server.conn.acks|
                 && n' == n.(client := AfterReceive(n.client, s.server.conn.acks[s.taken]), rx := [], down := n.down[k..])
                 && n'.rx + n'.down + n'.queued == EncodeAcks(s.server.conn.acks[s.taken + 1..])
  {
    hide UpOk, Outgoing, IsStub, DecodeHeader, DecodeAckBody, EncodeAcks, AfterReceive, AfterReceiveFailure;
    var rx, down, acks := n.rx + n.down[..k], n.down[k..], s.server.conn.acks[s.taken..];
    assert rx + (down + n.queued) == n.rx + n.down + n.queued == rx + down + n.queued;
    FirstAck(rx, down + n.queued, acks);
    if |rx| == 64 {
      assert s.server.conn.acks[s.taken + 1..] == acks[1..];
      assert [] + down + n.queued == down + n.queued;
    }
  }

  lemma PullRefinesPart(cf: Config, n: Net, n': Net, s: Sys)
    requires Refines(cf, n, s) && n' == n.(rx := n'.rx, down := n'.down) && |n'.rx| < 64
    requires n'.rx + n'.down + n'.queued == n.rx + n.down + n.queued
    ensures Refines(cf, n', s)
  {
    hide Outgoing, IsStub, EncodeAcks, EncodeMessages, Deaf, Mute, Image;
  }

  lemma PullRefinesWhole(cf: Config, n: Net, n': Net, s: Sys, s': Sys, a: AckBody)
    requires Refines(cf, n, s) && n' == n.(client := AfterReceive(n.client, a), rx := [], down := n'.down)
    requires s.taken < |s.server.conn.acks| && s' == s.(client := n'.client, taken := s.taken + 1)
    requires n'.rx + n'.down + n'.queued == EncodeAcks(s.server.conn.acks[s.taken + 1..])
    requires Outgoing(cf, n.client).Some? ==> Outgoing(cf, n'.client) == Outgoing(cf, n.client)
    requires Mute(n.client) ==> Mute(n'.client)
    ensures Refines(cf, n', s')
  {
    hide Outgoing, IsStub, EncodeAcks, EncodeMessages, Deaf, Mute, Image, AfterReceive;
  }

  lemma SimPull(cf: Config, n: Net, n': Net, s: Sys, k: nat) returns (s': Sys)
    requires Inv(cf, s)
    requires Refines(cf, n, s) && NetDoes(cf, n, n', Pull(k))
    ensures Matched(cf, n', s, s')
  {
    PullBegins(cf, n, n', s, k);
    hide Inv, Refines, NetDoes, Outgoing, Received, EncodeAcks, AfterReceive, Mute, Deaf;
    NotDeaf(cf, s);
    PullReads(cf, n, n', s, k);
    if |n.rx + n.down[..k]| < 64 {
      PullRefinesPart(cf, n, n', s);
      s' := s;
    } else {
      s' := SimWholePull(cf, n, n', s, k);
    }
  }

  /** The bytes read complete an ACK: the client takes it. */
  lemma SimWholePull(cf: Config, n: Net, n': Net, s: Sys, k: nat) returns (s': Sys)
    requires Inv(cf, s) && Refines(cf, n, s) && NetDoes(cf, n, n', Pull(k))
    requires k <= |n.down| && |n.rx + n.down[..k]| >= 64
    ensures Matched(cf, n', s, s')
  {
    hide Inv, Refines, NetDoes, Outgoing, Received, EncodeAcks, AfterReceive, Mute, Deaf;
    hide LocalStep, Dispatch, AfterSend, AfterSendFailure, AfterReceiveFailure;
    PullBegins(cf, n, n', s, k);
    NotDeaf(cf, s);
    PullReads(cf, n, n', s, k);
    var a := s.server.conn.acks[s.taken];
    ReceiveKeepsSending(cf, s, a);
    if Mute(n.client) {
      MuteStays(cf, n.client, n'.client);
    }
    s' := s.(client := AfterReceive(s.client, a), taken := s.taken + 1);
    assert Does(cf, s, s', Deliver);
    PullRefinesWhole(cf, n, n', s, s', a);
  }

  lemma PullBegins(cf: Config, n: Net, n': Net, s: Sys, k: nat)
    requires Refines(cf, n, s) && NetDoes(cf, n, n', Pull(k))
    ensures n.client == s.client && Wants(n.client) && k <= |n.down|
  {
    hide UpOk, DownOk, Received, Outgoing;
  }

  /** Whoever reads is not deaf, and nothing is half pushed by the thread that reads. */
  lemma NotDeaf(cf: Config, s: Sys)
    requires Inv(cf, s) && Wants(s.client)
    ensures !Deaf(s.client)
  {
    hide MsgsOk, TablesOk, SlotsOk, CountsOk, ProgressOk, Settled, DataOk, ServerOk, PcOk;
  }

  lemma ReceiveKeepsSending(cf: Config, s: Sys, a: AckBody)
    requires Wants(s.client) && Inv(cf, s)
    ensures Outgoing(cf, s.client).Some? ==> Outgoing(cf, AfterReceive(s.client, a)) == Outgoing(cf, s.client)
  {
    hide MsgsOk, TablesOk, SlotsOk, CountsOk, ProgressOk, Settled, DataOk, ServerOk, PcOk;
  }

  lemma SimPullFailure(cf: Config, n: Net, n': Net, s: Sys, alive: bool) returns (s': Sys)
    requires Inv(cf, s)
    requires Refines(cf, n, s) && NetDoes(cf, n, n', PullFailure(alive))
    ensures Matched(cf, n', s, s')
  {
    hide Inv, IsStub, AfterReceiveFailure;
    s' := s.(client := AfterReceiveFailure(s.client, alive));
    assert Does(cf, s, s', ReceiveFailure(alive));
    FailureKeepsSending(cf, s, alive);
    if Mute(n.client) {
      MuteStays(cf, n.client, n'.client);
    }
    hide Outgoing, Mute, Deaf;
  }

  lemma FailureKeepsSending(cf: Config, s: Sys, alive: bool)
    requires Wants(s.client) && Inv(cf, s)
    ensures var c' := AfterReceiveFailure(s.client, alive);
            && (Outgoing(cf, s.client).Some? ==> Outgoing(cf, c') == Outgoing(cf, s.client))
            && (!alive ==> Deaf(c'))
            && !Deaf(s.client)
  {
    hide MsgsOk, TablesOk, SlotsOk, CountsOk, ProgressOk, Settled, DataOk, ServerOk, PcOk;
  }

  lemma SimCut(cf: Config, n: Net, n': Net, s: Sys) returns (s': Sys)
    requires Refines(cf, n, s) && NetDoes(cf, n, n', Cut)
    ensures Matched(cf, n', s, s')
  {
    hide Outgoing, IsStub;
    s' := s.(server := s.server.(conn := Close(s.server.conn)));
    assert Does(cf, s, s', Hangup);
  }

  /** Simulation: whatever the network does with the bytes, the protocol takes one step or none. */
  lemma Simulate(cf: Config, n: Net, n': Net, s: Sys) returns (s': Sys)
    requires Lawful(cf.codec) && cf.total == TotalBlocks(cf.totalSize) && Inv(cf, s)
    requires Refines(cf, n, s) && NetNext(cf, n, n')
    ensures Matched(cf, n', s, s')
  {
    hide Inv, Refines, NetDoes;
    var a :| NetDoes(cf, n, n', a);
    match a
    case Step => s' := SimStep(cf, n, n', s);
    case Push(k) => s' := SimPush(cf, n, n', s, k);
    case PushFailure => s' := SimPushFailure(cf, n, n', s);
    case Arrival(k) => s' := SimArrival(cf, n, n', s, k);
    case Turn => s' := SimTurn(cf, n, n', s);
    case Flush(k) => s' := SimFlush(cf, n, n', s, k);
    case Pull(k) => s' := SimPull(cf, n, n', s, k);
    case PullFailure(alive) => s' := SimPullFailure(cf, n, n', s, alive);
    case Cut => s' := SimCut(cf, n, n', s);
  }

  // ---------- what holds in every byte-level run ----------

  lemma InitRefines(cf: Config, n: Net) returns (s: Sys)
    requires NetInit(cf, n)
    ensures Init(cf, s) && Refines(cf, n, s)
  {
    s := Sys(n.client, n.server, [], 0, 0, []);
    WholeIsUpOk(cf, n, []);
  }

  /** Every byte-level run is matched, state by state, by a run of the message-level protocol. */
  lemma {:induction false} RunRefines(cf: Config, nets: seq<Net>) returns (states: seq<Sys>)
    requires Lawful(cf.codec) && NetRun(cf, nets)
    ensures |states| == |nets| && Run(cf, states)
    ensures forall k :: 0 <= k < |nets| ==> Refines(cf, nets[k], states[k])
  {
    hide Refines, Init, Inv, NetNext, NextState, NetInit;
    var last := |nets| - 1;
    if last == 0 {
      var s := InitRefines(cf, nets[0]);
      states := [s];
    } else {
      var before := RunRefines(cf, nets[..last]);
      RunKeeps(cf, before, last - 1);
      var s := Simulate(cf, nets[last - 1], nets[last], before[last - 1]);
      states := before + [s];
    }
  }

  lemma RefinesShares(cf: Config, n: Net, s: Sys)
    requires Refines(cf, n, s)
    ensures n.client == s.client && n.server == s.server
  {
    hide UpOk, DownOk, Outgoing;
  }

  /** End-to-end safety down to the bytes: however the network cuts and delays the two streams, a
      block the client holds as acknowledged has its exact source bytes on the server's image. */
  lemma AcknowledgedMeansStoredOnWire(cf: Config, nets: seq<Net>, n: nat, k: u64)
    requires Lawful(cf.codec) && NetRun(cf, nets) && n < |nets|
    requires var bs := nets[n].client.tables.blocks; k < |bs| && bs[k].ack == B.Acknowledged
    ensures var disks := nets[n].server.disks;
            && cf.Readable(k) && cf.dev in disks
            && k * BLOCK_SIZE + cf.Len(k) <= |disks[cf.dev]|
            && disks[cf.dev][k * BLOCK_SIZE..k * BLOCK_SIZE + cf.Len(k)]
               == cf.source[k * BLOCK_SIZE..k * BLOCK_SIZE + cf.Len(k)]
  {
    hide Refines, NetRun, Run;
    var states := RunRefines(cf, nets);
    RefinesShares(cf, nets[n], states[n]);
    AcknowledgedMeansStored(cf, states, n, k);
  }

  /** A complete byte-level run with nothing failed leaves the whole source disk on the image. */
  lemma CompleteRunOnWire(cf: Config, nets: seq<Net>, n: nat)
    requires Lawful(cf.codec) && NetRun(cf, nets) && n < |nets|
    requires var c := nets[n].client; After(c.main) && c.main.i == cf.total && c.inFlight == 0 && c.report.Some?
    ensures var st, disks := nets[n].client.report.value, nets[n].server.disks;
            && st.sentBlocks + st.skippedBlocks == cf.total
            && st.ackedBlocks + st.failedBlocks == cf.total
            && (st.failedBlocks == 0 ==>
                  && cf.dev in disks && cf.totalSize <= |disks[cf.dev]| && cf.totalSize <= |cf.source|
                  && disks[cf.dev][..cf.totalSize] == cf.source[..cf.totalSize])
  {
    hide Refines, NetRun, Run;
    var states := RunRefines(cf, nets);
    RefinesShares(cf, nets[n], states[n]);
    CompleteRun(cf, states, n);
  }

  /** The server never loses its place in the client's stream: it always finds whole messages, never a
      byte to skip or a block too large. */
  lemma ServerStaysInStep(cf: Config, nets: seq<Net>, n: nat)
    requires Lawful(cf.codec) && NetRun(cf, nets) && n < |nets| && nets[n].server.conn.open
    ensures var r := TryParse(nets[n].unread); r.NeedMore? || r.Parsed?
  {
    hide Refines, NetRun, Run, TryParse, Inv;
    var states := RunRefines(cf, nets);
    RunKeeps(cf, states, n);
    if !TryParse(nets[n].unread).NeedMore? {
      TurnFinds(cf, nets[n], states[n]);
    }
  }

  /** Byte-level runs leave other devices' images, and the own image from totalSize on, as they were. */
  lemma NothingElseChangesOnWire(cf: Config, nets: seq<Net>, n: nat)
    requires Lawful(cf.codec) && NetRun(cf, nets) && n < |nets|
    ensures var a, b := nets[0].server.disks, nets[n].server.disks;
            && a.Keys == b.Keys
            && (forall d :: d in a ==> |a[d]| == |b[d]| && (d != cf.dev ==> a[d] == b[d]))
            && (cf.dev in a && cf.totalSize <= |a[cf.dev]| ==> a[cf.dev][cf.totalSize..] == b[cf.dev][cf.totalSize..])
  {
    hide Refines, NetRun, Run;
    var states := RunRefines(cf, nets);
    RefinesShares(cf, nets[0], states[0]);
    RefinesShares(cf, nets[n], states[n]);
    OnlySentBlocksChange(cf, states, n);
    hide WasSent;
  }
}
