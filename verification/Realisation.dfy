/** The converse of the refinement in Network: every run of the message-level protocol is one the bytes can
    take, so nothing proved of byte-level runs holds only because there are too few of them
    (client/NetworkClient.cpp, server/Server.cpp). */
module Realisation {
  import opened Bytes
  import opened Protocol
  import opened MessageParser
  import opened BlockProcessor
  import opened ServerModel
  import opened Tiling
  import opened Pipeline
  import opened Network
  import B = BlockState
  import R = Reachability
  import C = Completion

  /** The byte-level state between two steps: what was sent and not served is on its way up, what was
      answered and not taken is on its way down, and no buffer holds anything. */
  function NetOf(s: Sys): Net
    requires s.served <= |s.msgs| && s.taken <= |s.server.conn.acks|
  {
    Net(s.client, s.server, 0, EncodeMessages(s.msgs[s.served..]), [], false, [], EncodeAcks(s.server.conn.acks[s.taken..]), [])
  }

  /** From one byte-level state to another by byte-level steps. */
  ghost predicate Path(cf: Config, path: seq<Net>, a: Net, b: Net) {
    && path != [] && path[0] == a && path[|path| - 1] == b
    && forall k :: 0 <= k < |path| - 1 ==> NetNext(cf, path[k], path[k + 1])
  }

  lemma OneStep(cf: Config, a: Net, b: Net, act: NetAction)
    requires NetDoes(cf, a, b, act)
    ensures Path(cf, [a, b], a, b)
  {
    hide NetDoes;
    assert NetNext(cf, a, b);
  }

  lemma JoinPaths(cf: Config, p: seq<Net>, q: seq<Net>, a: Net, b: Net, c: Net)
    requires Path(cf, p, a, b) && Path(cf, q, b, c)
    ensures Path(cf, p + q[1..], a, c)
  {
    hide NetNext;
    var r := p + q[1..];
    forall k | 0 <= k < |r| - 1 ensures NetNext(cf, r[k], r[k + 1]) {
      if k >= |p| - 1 {
        assert r[k] == q[k - (|p| - 1)] && r[k + 1] == q[k + 1 - (|p| - 1)];
      }
    }
  }

  /** A message is pushed in one go. */
  lemma RealiseSend(cf: Config, s: Sys, s': Sys) returns (path: seq<Net>)
    requires s.served <= |s.msgs| && s.taken <= |s.server.conn.acks| && Does(cf, s, s', Send)
    ensures Path(cf, path, NetOf(s), NetOf(s'))
  {
    hide AfterSend, Outgoing, EncodeMessages, EncodeAcks, NetDoes, Path;
    var m := Outgoing(cf, s.client).value;
    EncodeMessagesAppend(s.msgs[s.served..], m);
    assert (s.msgs + [m])[s.served..] == s.msgs[s.served..] + [m];
    PushWhole(cf, NetOf(s), NetOf(s'), m);
    OneStep(cf, NetOf(s), NetOf(s'), Push(|Image(m)|));
    path := [NetOf(s), NetOf(s')];
  }

  lemma PushWhole(cf: Config, n: Net, n': Net, m: Message)
    requires Outgoing(cf, n.client) == Some(m) && n.pushed == 0
    requires n' == n.(client := AfterSend(n.client), up := n.up + Image(m))
    ensures NetDoes(cf, n, n', Push(|Image(m)|))
  {
    hide AfterSend, Outgoing;
    assert Image(m)[0..|Image(m)|] == Image(m);
  }

  /** A message arrives whole and is handled in one turn ... */
  lemma HandledPath(cf: Config, n: Net, m: Message, rest: seq<byte>, sv: Server) returns (path: seq<Net>)
    requires n.server.conn.open && !n.draining && n.unread == [] && n.queued == [] && n.up == Image(m) + rest
    requires WellFormed(ToFrame(m)) && |Image(m)| > 0 && sv == Dispatch(cf.codec, cf.io, n.server, ToFrame(m))
    ensures Path(cf, path, n, n.(server := sv, up := rest, draining := true, queued := NewAcks(n.server.conn.acks, sv.conn.acks)))
  {
    hide Dispatch, WellFormed, NewAcks, Image, NetDoes, Path;
    var arrived := n.(up := rest, unread := Image(m), draining := true);
    var turned := arrived.(server := sv, unread := [], queued := NewAcks(n.server.conn.acks, sv.conn.acks));
    ArriveWhole(cf, n, arrived, Image(m), rest);
    OneStep(cf, n, arrived, Arrival(|Image(m)|));
    TurnWhole(cf, arrived, turned, m);
    OneStep(cf, arrived, turned, Turn);
    path := [n, arrived] + [arrived, turned][1..];
    JoinPaths(cf, [n, arrived], [arrived, turned], n, arrived, turned);
  }

  /** ... its ACK, if there is one, is sent off, and the loop stalls or the connection is closed. */
  lemma SettledPath(cf: Config, n: Net) returns (path: seq<Net>)
    requires n.draining && n.unread == []
    ensures Path(cf, path, n, n.(queued := [], down := n.down + n.queued, draining := false))
  {
    hide NetDoes, Path;
    var flushed := n.(queued := [], down := n.down + n.queued);
    var end, last := flushed.(draining := false), if n.server.conn.open then Turn else Cut;
    Settle(cf, flushed, end, last);
    OneStep(cf, flushed, end, last);
    path := [flushed, end];
    if n.queued == [] {
      assert n.down + [] == n.down;
    } else {
      FlushWhole(cf, n, flushed);
      OneStep(cf, n, flushed, Flush(|n.queued|));
      JoinPaths(cf, [n, flushed], path, n, flushed, end);
      path := [n, flushed] + path[1..];
    }
  }

  lemma RealiseServe(cf: Config, s: Sys, s': Sys) returns (path: seq<Net>)
    requires s.served < |s.msgs| && s.taken <= |s.server.conn.acks| && s.server.conn.open
    requires WellFormed(ToFrame(s.msgs[s.served])) && s.server.conn.acks <= s'.server.conn.acks
    requires s' == s.(server := Dispatch(cf.codec, cf.io, s.server, ToFrame(s.msgs[s.served])), served := s.served + 1)
    ensures Path(cf, path, NetOf(s), NetOf(s'))
  {
    hide Dispatch, WellFormed, EncodeMessages, EncodeAcks, Path, Image, NewAcks;
    var n, m, acks, acks' := NetOf(s), s.msgs[s.served], s.server.conn.acks, s'.server.conn.acks;
    var rest := EncodeMessages(s'.msgs[s'.served..]);
    assert s.msgs[s.served..][0] == m && s.msgs[s.served..][1..] == s'.msgs[s'.served..];
    FirstOff(s.msgs[s.served..]);
    var handled := n.(server := s'.server, up := rest, draining := true, queued := NewAcks(acks, acks'));
    path := HandledPath(cf, n, m, rest, s'.server);
    var more := SettledPath(cf, handled);
    AcksInOrder(acks, acks', s.taken);
    path := JoinedPath(cf, path, more, n, handled, NetOf(s'));
  }

  lemma JoinedPath(cf: Config, p: seq<Net>, q: seq<Net>, a: Net, b: Net, c: Net) returns (path: seq<Net>)
    requires Path(cf, p, a, b) && Path(cf, q, b, c)
    ensures Path(cf, path, a, c)
  {
    hide NetNext;
    JoinPaths(cf, p, q, a, b, c);
    path := p + q[1..];
  }

  lemma AcksInOrder(acks: seq<AckBody>, acks': seq<AckBody>, taken: nat)
    requires taken <= |acks| && acks <= acks'
    ensures EncodeAcks(acks'[taken..]) == EncodeAcks(acks[taken..]) + NewAcks(acks, acks')
  {
    hide EncodeAcks;
    EncodeAcksConcat(acks[taken..], acks'[|acks|..]);
    assert acks'[taken..] == acks[taken..] + acks'[|acks|..];
  }

  lemma FirstOff(ms: seq<Message>)
    requires ms != []
    ensures EncodeMessages(ms) == Image(ms[0]) + EncodeMessages(ms[1..]) && |Image(ms[0])| >= HEADER_SIZE
  {
  }

  lemma ArriveWhole(cf: Config, n: Net, n': Net, image: seq<byte>, rest: seq<byte>)
    requires n.server.conn.open && !n.draining && n.unread == [] && n.up == image + rest && image != []
    requires n' == n.(up := rest, unread := image, draining := true)
    ensures NetDoes(cf, n, n', Arrival(|image|))
  {
    assert (image + rest)[..|image|] == image && (image + rest)[|image|..] == rest && [] + image == image;
  }

  lemma ParsesAlone(m: Message)
    requires WellFormed(ToFrame(m))
    ensures TryParse(Image(m)) == Parsed(ToFrame(m)) && |Image(m)| == HEADER_SIZE + |ToFrame(m).body|
  {
    hide TryParse, WellFormed;
    ParseWhole(ToFrame(m), []);
    assert Image(m) + [] == Image(m);
  }

  lemma HandlesAlone(cd: Codec, io: Writes, sv: Server, m: Message)
    requires sv.conn.open && WellFormed(ToFrame(m))
    ensures var st := Stream(sv, Image(m), []);
            !Stalled(st) && Iterate(cd, io, st).server == Dispatch(cd, io, sv, ToFrame(m)) && Iterate(cd, io, st).unread == []
  {
    ParsesAlone(m);
    hide Dispatch, TryParse, WellFormed, Image, ToFrame;
    assert Image(m)[HEADER_SIZE + |ToFrame(m).body|..] == [];
  }

  lemma TurnGives(cf: Config, n: Net, m: Message)
    requires n.server.conn.open && n.unread == Image(m) && n.queued == [] && WellFormed(ToFrame(m))
    ensures var sv := Dispatch(cf.codec, cf.io, n.server, ToFrame(m));
            ServerTurn(cf, n) == n.(server := sv, unread := [], queued := NewAcks(n.server.conn.acks, sv.conn.acks))
  {
    HandlesAlone(cf.codec, cf.io, n.server, m);
    hide Dispatch, WellFormed, NewAcks, Image, ToFrame, Stalled, Iterate;
    var sv := Dispatch(cf.codec, cf.io, n.server, ToFrame(m));
    assert n.queued + NewAcks(n.server.conn.acks, sv.conn.acks) == NewAcks(n.server.conn.acks, sv.conn.acks);
  }

  lemma TurnWhole(cf: Config, n: Net, n': Net, m: Message)
    requires n.server.conn.open && n.draining && n.unread == Image(m) && n.queued == [] && WellFormed(ToFrame(m))
    requires var sv := Dispatch(cf.codec, cf.io, n.server, ToFrame(m));
             n' == n.(server := sv, unread := [], queued := NewAcks(n.server.conn.acks, sv.conn.acks))
    ensures NetDoes(cf, n, n', Turn)
  {
    TurnGives(cf, n, m);
    hide Dispatch, WellFormed, NewAcks, Image, ToFrame, ServerTurn;
  }

  lemma FlushWhole(cf: Config, n: Net, n': Net)
    requires n.queued != [] && n' == n.(queued := [], down := n.down + n.queued)
    ensures NetDoes(cf, n, n', Flush(|n.queued|))
  {
    assert n.queued[..|n.queued|] == n.queued && n.queued[|n.queued|..] == [];
  }

  /** With nothing unread the loop stalls; a closed connection is simply done. */
  lemma Settle(cf: Config, n: Net, n': Net, last: NetAction)
    requires n.unread == [] && n.draining && n' == n.(draining := false)
    requires last == if n.server.conn.open then Turn else Cut
    ensures NetDoes(cf, n, n', last)
  {
    assert TryParse(n.unread).NeedMore?;
    hide TryParse, Iterate;
  }

  /** An ACK is read in two pieces: its header, then its body. */
  lemma RealiseDeliver(cf: Config, s: Sys, s': Sys) returns (path: seq<Net>)
    requires s.served <= |s.msgs| && Does(cf, s, s', Deliver)
    ensures Path(cf, path, NetOf(s), NetOf(s'))
  {
    hide AfterReceive, EncodeMessages, NetDoes, Path;
    var n, n' := NetOf(s), NetOf(s');
    var acks, k := s.server.conn.acks[s.taken..], HEADER_SIZE;
    var image := EncodeFrame(AckFrame(acks[0]));
    assert n.down == image + n'.down by {
      assert acks[1..] == s.server.conn.acks[s.taken + 1..];
    }
    hide EncodeAcks;
    var half := n.(rx := image[..k], down := image[k..] + n'.down);
    PullHeader(cf, n, half, acks[0], n'.down);
    OneStep(cf, n, half, Pull(HEADER_SIZE));
    PullBody(cf, half, n', acks[0]);
    OneStep(cf, half, n', Pull(ACK_BODY_SIZE));
    JoinPaths(cf, [n, half], [half, n'], n, half, n');
    path := [n, half] + [half, n'][1..];
  }

  lemma PullHeader(cf: Config, n: Net, n': Net, a: AckBody, rest: seq<byte>)
    requires Wants(n.client) && n.rx == [] && n.down == EncodeFrame(AckFrame(a)) + rest
    requires var image := EncodeFrame(AckFrame(a)); n' == n.(rx := image[..HEADER_SIZE], down := image[HEADER_SIZE..] + rest)
    ensures NetDoes(cf, n, n', Pull(HEADER_SIZE))
  {
    AckHeader(a);
    hide Wants, DecodeHeader, EncodeFrame, AckFrame;
    var image := EncodeFrame(AckFrame(a));
    assert n.down[..HEADER_SIZE] == image[..HEADER_SIZE] && n.down[HEADER_SIZE..] == image[HEADER_SIZE..] + rest;
    assert [] + image[..HEADER_SIZE] == image[..HEADER_SIZE];
  }

  /** The header of an ACK passes the client's checks. */
  lemma AckHeader(a: AckBody)
    ensures var image := EncodeFrame(AckFrame(a));
            |image| == HEADER_SIZE + ACK_BODY_SIZE && DecodeHeader(image[..HEADER_SIZE]) == Header(ACK, a.devNo)
  {
    hide DecodeHeader;
    var head := EncodeHeader(AckFrame(a).header);
    HeaderRoundTrip(AckFrame(a).header, []);
    assert EncodeFrame(AckFrame(a))[..HEADER_SIZE] == head == head + [];
  }

  lemma PullBody(cf: Config, n: Net, n': Net, a: AckBody)
    requires Wants(n.client)
    requires var image := EncodeFrame(AckFrame(a)); n.rx == image[..HEADER_SIZE] && n.down == image[HEADER_SIZE..] + n'.down
    requires n' == n.(client := AfterReceive(n.client, a), rx := [], down := n'.down)
    ensures NetDoes(cf, n, n', Pull(ACK_BODY_SIZE))
  {
    hide Wants, AfterReceive, DecodeAckBody;
    var head, body := EncodeHeader(AckFrame(a).header), EncodeAckBody(a);
    AckBodyRoundTrip(a, []);
    assert body + [] == body && (head + body)[..HEADER_SIZE] == head && (head + body)[HEADER_SIZE..] == body;
    assert n.down[..ACK_BODY_SIZE] == body && n.down[ACK_BODY_SIZE..] == n'.down;
    assert (head + body)[HEADER_SIZE..] == body;
  }

  /** A step the bytes need only one step for. */
  lemma RealiseOther(cf: Config, s: Sys, s': Sys, a: Action) returns (path: seq<Net>)
    requires s.taken <= |s.server.conn.acks| && s.served <= |s.msgs|
    requires Does(cf, s, s', a) && (a.Local? || a.SendFailure? || a.ReceiveFailure? || a.Hangup?)
    ensures Path(cf, path, NetOf(s), NetOf(s'))
  {
    hide LocalStep, Outgoing, Wants, AfterSendFailure, AfterReceiveFailure, EncodeMessages, EncodeAcks, Path;
    path := [NetOf(s), NetOf(s')];
    match a
    case Local => OneStep(cf, NetOf(s), NetOf(s'), Step);
    case SendFailure => OneStep(cf, NetOf(s), NetOf(s'), PushFailure);
    case ReceiveFailure(alive) => OneStep(cf, NetOf(s), NetOf(s'), PullFailure(alive));
    case Hangup => OneStep(cf, NetOf(s), NetOf(s'), Cut);
  }

  lemma NextIsWellFormed(cf: Config, s: Sys)
    requires Lawful(cf.codec) && cf.total == TotalBlocks(cf.totalSize) && Inv(cf, s) && s.served < |s.msgs|
    ensures WellFormed(ToFrame(s.msgs[s.served]))
  {
    hide Inv, WellFormed;
    MsgsWellFormed(cf, s);
    assert s.msgs[s.served] in s.msgs[s.served..];
  }

  /** Each step of the protocol can be taken on the bytes. */
  lemma RealiseStep(cf: Config, s: Sys, s': Sys) returns (path: seq<Net>)
    requires Lawful(cf.codec) && cf.total == TotalBlocks(cf.totalSize)
    requires Inv(cf, s) && Inv(cf, s') && NextState(cf, s, s')
    ensures s.taken <= |s.server.conn.acks| && s.served <= |s.msgs| && s'.taken <= |s'.server.conn.acks| && s'.served <= |s'.msgs|
    ensures Path(cf, path, NetOf(s), NetOf(s'))
  {
    InvTurn(cf, s);
    InvTurn(cf, s');
    hide Inv, Path, NetOf, LocalStep, Outgoing, Wants, Dispatch, WellFormed;
    hide AfterSend, AfterSendFailure, AfterReceive, AfterReceiveFailure;
    var a :| Does(cf, s, s', a);
    match a
    case Send => path := RealiseSend(cf, s, s');
    case Serve =>
      AcksOnlyGrow(cf, s, s');
      NextIsWellFormed(cf, s);
      path := RealiseServe(cf, s, s');
    case Deliver => path := RealiseDeliver(cf, s, s');
    case _ => path := RealiseOther(cf, s, s', a);
  }

  lemma OneMoreRealised(cf: Config, before: seq<Net>, s: Sys, s': Sys) returns (nets: seq<Net>)
    requires Lawful(cf.codec) && cf.total == TotalBlocks(cf.totalSize)
    requires Inv(cf, s) && Inv(cf, s') && (s' == s || NextState(cf, s, s'))
    requires s.served <= |s.msgs| && s.taken <= |s.server.conn.acks|
    requires NetRun(cf, before) && before != [] && before[|before| - 1] == NetOf(s)
    ensures s'.served <= |s'.msgs| && s'.taken <= |s'.server.conn.acks|
    ensures NetRun(cf, nets) && nets != [] && nets[|nets| - 1] == NetOf(s')
  {
    hide Inv, NextState, NetRun, Path, NetOf;
    nets := before;
    if s' != s {
      var path := RealiseStep(cf, s, s');
      nets := Extend(cf, before, path, NetOf(s), NetOf(s'));
    }
  }

  /** Every message-level run is one the bytes can go through. */
  lemma {:induction false} RunRealised(cf: Config, states: seq<Sys>, n: nat) returns (nets: seq<Net>)
    requires Lawful(cf.codec) && Run(cf, states) && n < |states|
    ensures NetRun(cf, nets) && nets != []
    ensures states[n].served <= |states[n].msgs| && states[n].taken <= |states[n].server.conn.acks|
    ensures nets[|nets| - 1] == NetOf(states[n])
  {
    hide Inv, NextState, NetRun, NetOf, Init, Run;
    RunAt(cf, states, n);
    if n == 0 {
      InitRealised(cf, states[0]);
      nets := [NetOf(states[0])];
    } else {
      RunAt(cf, states, n - 1);
      var before := RunRealised(cf, states, n - 1);
      nets := OneMoreRealised(cf, before, states[n - 1], states[n]);
    }
  }

  /** What a run says of its state n. */
  lemma RunAt(cf: Config, states: seq<Sys>, n: nat)
    requires Lawful(cf.codec) && Run(cf, states) && n < |states|
    ensures Inv(cf, states[n]) && cf.total == TotalBlocks(cf.totalSize)
    ensures states[n].served <= |states[n].msgs| && states[n].taken <= |states[n].server.conn.acks|
    ensures if n == 0 then Init(cf, states[0]) else states[n] == states[n - 1] || NextState(cf, states[n - 1], states[n])
  {
    RunKeeps(cf, states, n);
    InvTurn(cf, states[n]);
    hide Inv, NextState, Init;
    if n > 0 {
      var k := n - 1;
      assert states[k + 1] == states[n];
    }
  }

  lemma InitRealised(cf: Config, s: Sys)
    requires Init(cf, s)
    ensures NetRun(cf, [NetOf(s)])
  {
  }

  lemma Extend(cf: Config, before: seq<Net>, path: seq<Net>, a: Net, b: Net) returns (nets: seq<Net>)
    requires NetRun(cf, before) && before[|before| - 1] == a && Path(cf, path, a, b)
    ensures NetRun(cf, nets) && nets != [] && nets[|nets| - 1] == b
  {
    hide NetNext, NetInit;
    JoinPaths(cf, before, path, before[0], a, b);
    nets := before + path[1..];
  }

  ghost predicate MessagesReach(cf: Config, states: seq<Sys>, c: Client, sv: Server) {
    Run(cf, states) && states[|states| - 1].client == c && states[|states| - 1].server == sv
  }

  ghost predicate BytesReach(cf: Config, nets: seq<Net>, c: Client, sv: Server) {
    NetRun(cf, nets) && nets[|nets| - 1].client == c && nets[|nets| - 1].server == sv
  }

  lemma MessagesToBytes(cf: Config, states: seq<Sys>, c: Client, sv: Server) returns (nets: seq<Net>)
    requires Lawful(cf.codec) && MessagesReach(cf, states, c, sv)
    ensures BytesReach(cf, nets, c, sv)
  {
    hide Run, NetRun;
    RunNotEmpty(cf, states);
    nets := RunRealised(cf, states, |states| - 1);
  }

  lemma BytesToMessages(cf: Config, nets: seq<Net>, c: Client, sv: Server) returns (states: seq<Sys>)
    requires Lawful(cf.codec) && BytesReach(cf, nets, c, sv)
    ensures MessagesReach(cf, states, c, sv)
  {
    hide Refines, Run, NetRun;
    states := RunRefines(cf, nets);
    NetRunNotEmpty(cf, nets);
    RefinesShares(cf, nets[|nets| - 1], states[|states| - 1]);
  }

  lemma RunNotEmpty(cf: Config, states: seq<Sys>)
    requires Run(cf, states)
    ensures states != []
  {
  }

  lemma NetRunNotEmpty(cf: Config, nets: seq<Net>)
    requires NetRun(cf, nets)
    ensures nets != []
  {
  }

  /** The two levels have the same outcomes: a client and a server with its images end some run on
      messages exactly if they end some run on bytes. */
  lemma SameOutcomes(cf: Config, c: Client, sv: Server)
    requires Lawful(cf.codec)
    ensures (exists states: seq<Sys> :: MessagesReach(cf, states, c, sv)) <==> (exists nets: seq<Net> :: BytesReach(cf, nets, c, sv))
  {
    hide MessagesReach, BytesReach;
    if states: seq<Sys> :| MessagesReach(cf, states, c, sv) {
      var nets := MessagesToBytes(cf, states, c, sv);
    }
    if nets: seq<Net> :| BytesReach(cf, nets, c, sv) {
      var states := BytesToMessages(cf, nets, c, sv);
    }
  }

  /** Every readable disk the server accepts has a byte-level run that backs it up completely. */
  lemma BackupCanCompleteOnWire(cf: Config, disks: Disks) returns (nets: seq<Net>)
    requires C.Sound(cf) && R.Backable(cf, disks)
    ensures NetRun(cf, nets)
    ensures var c, image := nets[|nets| - 1].client, nets[|nets| - 1].server.disks;
            && After(c.main) && c.main.i == cf.total && c.inFlight == 0 && c.report == Some(Stats(cf.total, cf.total, 0, 0))
            && cf.dev in image && cf.totalSize <= |image[cf.dev]| && cf.totalSize <= |cf.source|
            && image[cf.dev][..cf.totalSize] == cf.source[..cf.totalSize]
  {
    var s := C.BackupCanComplete(cf, disks);
    var states := R.ReachableByRun(cf, s);
    nets := RunRealised(cf, states, |states| - 1);
  }
}
