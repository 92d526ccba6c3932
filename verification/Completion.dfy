/** No interleaving is a dead end: from every reachable state of a backup in which nothing has gone wrong,
    some continuation completes it. */
module Completion {
  import opened Bytes
  import opened Protocol
  import opened BlockProcessor
  import opened ServerModel
  import opened Tiling
  import opened Window
  import opened Ownership
  import opened Pipeline
  import opened Reachability
  import B = BlockState

  // ---------- what holds on the way ----------

  /** A disk that can be read and a server whose writes complete. */
  ghost predicate Sound(cf: Config) {
    && Lawful(cf.codec) && cf.window >= 1 && (forall n :: cf.io(n).Complete?)
    && cf.total == TotalBlocks(cf.totalSize) && forall k: u64 :: k < cf.total ==> cf.Readable(k)
  }

  /** Every block answered was answered OK. */
  ghost predicate BlocksOk(msgs: seq<Message>, acks: seq<AckBody>) {
    forall j :: IsBlock(msgs, j) && j < |acks| ==> acks[j].status == OK
  }

  ghost predicate Good(cf: Config, s: Sys) {
    && Inv(cf, s) && BlocksOk(s.msgs, s.server.conn.acks)
    && FlagsOk(s.client, |s.msgs|)
  }

  /** Waiting for the answer, the HELLO has been sent; in the loop, the ACK thread ends only with an error. */
  predicate FlagsOk(c: Client, msgCount: nat) {
    && (c.main == Greet(AwaitGreeting) ==> msgCount == 1)
    && (InLoop(c.main) ==> c.running && (c.ackThread.Exited? ==> c.error))
  }

  predicate InLoop(m: MainPc) { !m.Greet? && !m.Tail? }

  /** What the invariant says of a block about to be served. */
  lemma ServedBlock(cf: Config, s: Sys)
    requires Sound(cf) && Inv(cf, s) && IsBlock(s.msgs, s.served)
    ensures var k := Idx(s.msgs, s.served); k < cf.total && s.msgs[s.served] == cf.BlockMsg(k)
    ensures s.server.conn.helloDone && Backable(cf, s.server.disks) && |s.server.conn.acks| == s.served
  {
    hide SlotsOk, CountsOk, ProgressOk, Settled, DataOk, TablesOk, ThreadsOk;
    BlocksMeanGreeted(cf, s.client.main, |s.msgs|);
  }

  lemma ServeKeepsOk(cf: Config, s: Sys, s': Sys)
    requires Sound(cf) && Good(cf, s) && Does(cf, s, s', Serve)
    ensures BlocksOk(s'.msgs, s'.server.conn.acks)
  {
    hide Inv, Dispatch, Backable, BlocksOk, Sound;
    if IsBlock(s.msgs, s.served) {
      ServedBlock(cf, s);
      Reachability.Answers(cf, s.server, Idx(s.msgs, s.served));
      WritesComplete(cf, s.server.conn.blocksReceived);
    } else {
      OtherServed(cf, s, s');
    }
    OneMoreOk(s.msgs, s.server.conn.acks, s'.server.conn.acks);
  }

  lemma WritesComplete(cf: Config, n: nat)
    requires Sound(cf)
    ensures cf.io(n).Complete?
  {
  }

  lemma OneMoreOk(msgs: seq<Message>, acks: seq<AckBody>, acks': seq<AckBody>)
    requires BlocksOk(msgs, acks) && acks <= acks' && |acks'| == |acks| + 1
    requires IsBlock(msgs, |acks|) ==> acks'[|acks|].status == OK
    ensures BlocksOk(msgs, acks')
  {
  }

  lemma OtherServed(cf: Config, s: Sys, s': Sys)
    requires Inv(cf, s) && Does(cf, s, s', Serve) && !IsBlock(s.msgs, s.served)
    ensures s.server.conn.acks <= s'.server.conn.acks && |s'.server.conn.acks| == |s.server.conn.acks| + 1 == s.served + 1
  {
    hide SlotsOk, CountsOk, ProgressOk, Settled, DataOk, TablesOk, ThreadsOk, PcOk, Dispatch, MsgsOk;
    var m := s.client.main;
    MsgAt(cf, MayHaveSaidBye(m), Bound(m), s.msgs, s.served);
    ServeOtherServer(cf, Greeted(m), s.server, s'.server, s.msgs, s.served, s.taken);
  }

  lemma SendKeepsOk(cf: Config, s: Sys, s': Sys)
    requires Good(cf, s) && Does(cf, s, s', Send)
    ensures BlocksOk(s'.msgs, s'.server.conn.acks) && FlagsOk(s'.client, |s'.msgs|)
  {
    hide MsgsOk, TablesOk, ThreadsOk, SlotsOk, CountsOk, ProgressOk, Settled, DataOk;
    assert |s.server.conn.acks| <= |s.msgs|;
    assert forall j :: IsBlock(s'.msgs, j) && j < |s.msgs| ==> IsBlock(s.msgs, j);
  }

  lemma LoopKeepsFlags(cf: Config, c: Client, c': Client, n: nat)
    requires LoopStep(cf, c, c') && FlagsOk(c, n)
    ensures FlagsOk(c', n)
  {
  }

  lemma EdgeKeepsFlags(cf: Config, c: Client, c': Client, n: nat)
    requires EdgeStep(cf, c, c') && FlagsOk(c, n)
    ensures FlagsOk(c', n)
  {
  }

  lemma AckKeepsFlags(c: Client, c': Client, n: nat)
    requires AckStep(c, c') && FlagsOk(c, n)
    ensures FlagsOk(c', n)
  {
  }

  lemma OthersKeepFlags(cf: Config, s: Sys, s': Sys, a: Action)
    requires !a.Local? && !a.Send? && Does(cf, s, s', a) && FlagsOk(s.client, |s.msgs|)
    ensures FlagsOk(s'.client, |s'.msgs|) && (!a.Serve? ==> s'.msgs == s.msgs && s'.server.conn.acks == s.server.conn.acks)
  {
    hide Dispatch;
  }

  lemma StepKeepsGood(cf: Config, s: Sys, s': Sys)
    requires Sound(cf) && Good(cf, s) && NextState(cf, s, s')
    ensures Good(cf, s')
  {
    StepKeeps(cf, s, s');
    hide Inv, Dispatch, BlocksOk, FlagsOk, LoopStep, EdgeStep, AckStep;
    var a :| Does(cf, s, s', a);
    if a.Local? {
      if LoopStep(cf, s.client, s'.client) { LoopKeepsFlags(cf, s.client, s'.client, |s.msgs|); }
      else if EdgeStep(cf, s.client, s'.client) { EdgeKeepsFlags(cf, s.client, s'.client, |s.msgs|); }
      else { AckKeepsFlags(s.client, s'.client, |s.msgs|); }
    } else if a.Send? {
      SendKeepsOk(cf, s, s');
    } else {
      OthersKeepFlags(cf, s, s', a);
      if a.Serve? { ServeKeepsOk(cf, s, s'); }
    }
  }

  lemma {:induction false} PathKeepsGood(cf: Config, path: seq<Sys>, n: nat)
    requires Sound(cf) && IsPath(cf, path) && Good(cf, path[0]) && n < |path|
    ensures Good(cf, path[n])
  {
    hide Good, Sound, NextState;
    if n == 0 {
    } else {
      PathKeepsGood(cf, path, n - 1);
      StepKeepsGood(cf, path[n - 1], path[n]);
    }
  }

  lemma LeadsKeepsGood(cf: Config, o: Sys, s: Sys)
    requires Sound(cf) && Good(cf, o) && Leads(cf, o, s)
    ensures Good(cf, s)
  {
    hide Good, Sound;
    var path :| IsPath(cf, path) && path[0] == o && path[|path| - 1] == s;
    PathKeepsGood(cf, path, |path| - 1);
  }

  lemma ReachableIsGood(cf: Config, s: Sys)
    requires Sound(cf) && Reachable(cf, s)
    ensures Good(cf, s)
  {
    var o :| Init(cf, o) && Leads(cf, o, s);
    InitHolds(cf, o);
    hide Inv, Leads;
    assert Good(cf, o);
    LeadsKeepsGood(cf, o, s);
  }

  // ---------- nothing has gone wrong ----------

  /** Connected, the loop not left, no error, no failed block, none skipped, and a server that knows the
      disk. */
  ghost predicate Alive(cf: Config, s: Sys) {
    var c := s.client;
    && c.connected && s.server.conn.open && Backable(cf, s.server.disks)
    && !c.main.Tail? && c.main != Greet(GaveUp)
    && (Live(c.main) ==> !c.error && c.failed == 0 && c.skipped == 0)
  }

  ghost predicate Sane(cf: Config, o: Sys, s: Sys) {
    Sound(cf) && Leads(cf, o, s) && Good(cf, o) && Alive(cf, s)
  }

  lemma Goes(cf: Config, o: Sys, s: Sys, s': Sys, a: Action)
    requires Sane(cf, o, s) && Does(cf, s, s', a) && Alive(cf, s')
    ensures Sane(cf, o, s')
  {
    hide Sound, Leads, Good, Alive, Does;
    Moves(cf, o, s, s', a);
  }

  lemma StaysAlive(cf: Config, s: Sys, s': Sys)
    requires Alive(cf, s) && s'.server.conn.open && Backable(cf, s'.server.disks)
    requires var c, c' := s.client, s'.client;
             && (c'.main == c.main || (InLoop(c.main) && InLoop(c'.main)))
             && c'.connected == c.connected && c'.error == c.error && c'.failed == c.failed && c'.skipped == c.skipped
    ensures Alive(cf, s')
  {
    hide Backable;
  }

  lemma SaneIsGood(cf: Config, o: Sys, s: Sys)
    requires Sane(cf, o, s)
    ensures Good(cf, s) && Alive(cf, s)
  {
    hide Sound, Leads, Good, Alive;
    LeadsKeepsGood(cf, o, s);
  }

  // ---------- how far there is to go ----------

  /** Steps the main thread has before it. */
  function MainLeft(cf: Config, m: MainPc): nat {
    var n := cf.total;
    match m
    case Greet(Greeting) => 9 * n + 5
    case Greet(AwaitGreeting) => 9 * n + 4
    case Greet(Resetting) => 9 * n + 2
    case Greet(Opening) => 9 * n + 1
    case Greet(GaveUp) => 0
    case Next(i) => if i <= n then 9 * (n - i) else 0
    case Acquiring(i) => if i < n then 9 * (n - i) - 1 else 0
    case Work(i, _, w) => if i < n then 9 * (n - i) - 2 - WorkDone(w) else 0
    case Sent(i, _, counted) => if i < n then 9 * (n - i) - 7 - One(counted) else 0
    case Tail(_, _) => 0
  }

  function WorkDone(w: WorkStage): (d: nat)
    ensures d <= 4
  {
    match w
    case Filling => 0
    case Reading => 1
    case Hashing => 2
    case Compressing => 3
    case Sending => 4
  }

  /** Steps the ACK thread has before it in the callback. */
  function CallbackLeft(t: AckPc): nat {
    match t
    case Recording(_) => 4
    case Tallying(_) => 3
    case Releasing(_) => 2
    case Lowering(_) => 1
    case _ => 0
  }

  // ---------- the ACK side ----------

  predicate AckPending(s: Sys) {
    !s.client.ackThread.Polling? || s.taken < |s.msgs|
  }

  /** One step on the ACK side: the server answers, the ACK thread takes an answer, or the callback moves on. */
  ghost predicate AckSideMoved(s: Sys, s': Sys) {
    && s'.client.main == s.client.main && s'.msgs == s.msgs
    && (|| s'.taken > s.taken
        || (s'.taken == s.taken && s'.served > s.served)
        || (s'.taken == s.taken && s'.served == s.served && CallbackLeft(s'.client.ackThread) < CallbackLeft(s.client.ackThread)))
  }

  /** The next state of the client in the callback for an OK. */
  function CalledBack(c: Client): Client
    requires InCallback(c.ackThread)
  {
    var a := c.ackThread.ack;
    match c.ackThread
    case Recording(_) => c.(tables := B.AckSet(c.tables, a.blockIndex, B.Acknowledged), ackThread := Tallying(a))
    case Tallying(_) => c.(acked := c.acked + 1, ackThread := Releasing(a))
    case Releasing(_) =>
      c.(slots := AfterRelease(c.slots, a.blockIndex),
         ackThread := if FirstShowing(c.slots, a.blockIndex, 0) < |c.slots| then Lowering(a) else Polling)
    case _ => c.(inFlight := c.inFlight - 1, ackThread := Polling)
  }

  lemma CallbackMoves(c: Client)
    requires InCallback(c.ackThread) && c.ackThread.ack.status == OK && c.ackThread.ack.blockIndex != NO_BLOCK
    ensures var c' := CalledBack(c);
            && AckStep(c, c') && CallbackLeft(c'.ackThread) < CallbackLeft(c.ackThread)
            && c'.main == c.main && c'.connected == c.connected && c'.error == c.error
            && c'.failed == c.failed && c'.skipped == c.skipped
  {
    hide FirstShowing, AfterRelease;
  }

  lemma AliveServer(cf: Config, s: Sys)
    requires Alive(cf, s)
    ensures s.server.conn.open && Backable(cf, s.server.disks)
  {
    hide Backable;
  }

  lemma RunsCallback(cf: Config, o: Sys, s: Sys) returns (s': Sys)
    requires Sane(cf, o, s) && InLoop(s.client.main) && InCallback(s.client.ackThread)
    ensures Sane(cf, o, s') && AckSideMoved(s, s')
  {
    hide Sane, Good, Alive, Backable, CalledBack, LoopStep, EdgeStep, AckStep;
    SaneIsGood(cf, o, s);
    AliveServer(cf, s);
    CallbackIsOk(cf, s);
    CallbackMoves(s.client);
    s' := s.(client := CalledBack(s.client));
    StaysAlive(cf, s, s');
    Goes(cf, o, s, s', Local);
  }

  lemma CallbackIsOk(cf: Config, s: Sys)
    requires Good(cf, s) && InCallback(s.client.ackThread)
    ensures s.client.ackThread.ack.status == OK && s.client.ackThread.ack.blockIndex != NO_BLOCK
  {
    hide MsgsOk, TablesOk, SlotsOk, CountsOk, ProgressOk, Settled, DataOk, PcOk;
    CallbackFacts(cf, s);
    TotalIsCeiling(cf.totalSize);
  }

  lemma TakesAck(cf: Config, o: Sys, s: Sys) returns (s': Sys)
    requires Sane(cf, o, s) && InLoop(s.client.main) && s.client.ackThread.Polling? && s.taken < |s.server.conn.acks|
    ensures Sane(cf, o, s') && AckSideMoved(s, s')
  {
    hide Sane, Good, Alive, Backable;
    SaneIsGood(cf, o, s);
    AliveServer(cf, s);
    s' := s.(client := s.client.(ackThread := Recording(s.server.conn.acks[s.taken])), taken := s.taken + 1);
    assert AfterReceive(s.client, s.server.conn.acks[s.taken]) == s'.client;
    StaysAlive(cf, s, s');
    Goes(cf, o, s, s', Deliver);
  }

  lemma ServesBlock(cf: Config, o: Sys, s: Sys) returns (s': Sys)
    requires Sane(cf, o, s) && InLoop(s.client.main) && IsBlock(s.msgs, s.served)
    ensures Sane(cf, o, s') && AckSideMoved(s, s')
  {
    hide Good, Alive, Backable, Dispatch, Inv, Sound, Leads;
    SaneIsGood(cf, o, s);
    AliveServer(cf, s);
    GoodInv(cf, s);
    ServedBlock(cf, s);
    hide Sane;
    Reachability.Answers(cf, s.server, Idx(s.msgs, s.served));
    s' := s.(server := Dispatch(cf.codec, cf.io, s.server, ToFrame(s.msgs[s.served])), served := s.served + 1);
    StaysAlive(cf, s, s');
    Goes(cf, o, s, s', Serve);
  }

  lemma GoodInv(cf: Config, s: Sys)
    requires Good(cf, s)
    ensures Inv(cf, s)
  {
    hide Inv;
  }

  lemma NextIsBlock(cf: Config, s: Sys)
    requires Good(cf, s) && Alive(cf, s) && InLoop(s.client.main)
    ensures 1 <= s.taken <= s.served == |s.server.conn.acks| <= |s.msgs|
    ensures s.client.ackThread.Polling? || InCallback(s.client.ackThread)
    ensures s.served < |s.msgs| ==> IsBlock(s.msgs, s.served)
  {
    hide TablesOk, SlotsOk, CountsOk, ProgressOk, Settled, DataOk;
  }

  lemma AckSideMoves(cf: Config, o: Sys, s: Sys) returns (s': Sys)
    requires Sane(cf, o, s) && InLoop(s.client.main) && AckPending(s)
    ensures Sane(cf, o, s') && AckSideMoved(s, s')
  {
    SaneIsGood(cf, o, s);
    NextIsBlock(cf, s);
    hide Sane, Good, Alive, AckSideMoved;
    if InCallback(s.client.ackThread) {
      s' := RunsCallback(cf, o, s);
    } else if s.taken < |s.server.conn.acks| {
      s' := TakesAck(cf, o, s);
    } else {
      s' := ServesBlock(cf, o, s);
    }
  }

  // ---------- the main thread ----------

  /** The main thread's next local step: it goes on with the next block, or with the one at hand. */
  function Worked(cf: Config, c: Client): Client
    requires CanWork(cf, c)
  {
    match c.main
    case Next(i) => c.(main := Acquiring(i))
    case Acquiring(i) =>
      var f := FirstFree(c.slots, 0);
      c.(slots := c.slots[f := c.slots[f].(inUse := true)], main := Work(i, f, Filling))
    case Work(i, s, Filling) => c.(slots := c.slots[s := c.slots[s].(blockIndex := i)], main := Work(i, s, Reading))
    case Work(i, s, Reading) => c.(slots := c.slots[s := c.slots[s].(data := cf.BlockBytes(i))], main := Work(i, s, Hashing))
    case Work(i, s, Hashing) =>
      var h := cf.codec.sha(c.slots[s].data);
      c.(slots := c.slots[s := c.slots[s].(hash := h)], tables := B.HashSet(c.tables, i, h), main := Work(i, s, Compressing))
    case Work(i, s, Compressing) =>
      c.(slots := c.slots[s := c.slots[s].(compressed := cf.codec.compress(c.slots[s].data))], main := Work(i, s, Sending))
    case Sent(i, s, false) => c.(sent := c.sent + 1, inFlight := c.inFlight + 1, main := Sent(i, s, true))
    case Sent(i, s, true) => c.(slots := c.slots[s := c.slots[s].(data := [])], main := Next(i + 1))
    case _ => c
  }

  predicate CanWork(cf: Config, c: Client) {
    && InLoop(c.main) && !c.error && c.main.i < cf.total && cf.Readable(c.main.i) && c.main.i + 1 < TWO_64
    && (c.main.Work? ==> !c.main.w.Sending?)
    && (c.main.Work? || c.main.Sent? ==> c.main.s < |c.slots|)
    && (c.main.Acquiring? ==> FirstFree(c.slots, 0) < |c.slots|)
  }

  lemma WorkMoves(cf: Config, c: Client)
    requires CanWork(cf, c)
    ensures var c' := Worked(cf, c);
            && LoopStep(cf, c, c') && InLoop(c'.main) && MainLeft(cf, c'.main) < MainLeft(cf, c.main)
            && c'.connected == c.connected && c'.error == c.error && c'.failed == c.failed && c'.skipped == c.skipped
  {
    hide FirstFree;
  }

  lemma {:induction false} NoneInUse(w: seq<Slot>)
    requires InUseCount(w) == 0
    ensures forall t :: 0 <= t < |w| ==> !w[t].inUse
  {
    if w == [] {
    } else {
      NoneInUse(w[..|w| - 1]);
      assert forall t :: 0 <= t < |w| - 1 ==> w[..|w| - 1][t] == w[t];
    }
  }

  lemma FreeWhenAnswered(cf: Config, s: Sys)
    requires Good(cf, s) && cf.window >= 1 && InLoop(s.client.main) && !s.client.main.Work? && !AckPending(s)
    ensures FirstFree(s.client.slots, 0) < |s.client.slots|
  {
    hide MsgsOk, TablesOk, ServerOk, CountsOk, ProgressOk, Settled, DataOk, HoldersOk, StaleOk, IndicesBelow, DistinctOk, BlocksOk;
    NextTaken(cf, s);
    NoneInUse(s.client.slots);
  }

  lemma NextTaken(cf: Config, s: Sys)
    requires Good(cf, s)
    ensures s.taken <= |s.msgs|
  {
    hide MsgsOk, TablesOk, SlotsOk, CountsOk, ProgressOk, Settled, DataOk, BlocksOk;
  }

  lemma CanWorkNow(cf: Config, s: Sys)
    requires Sound(cf) && Good(cf, s) && Alive(cf, s) && InLoop(s.client.main)
    requires s.client.main.Acquiring? ==> !AckPending(s)
    requires s.client.main.Next? ==> s.client.main.i < cf.total
    requires s.client.main.Work? ==> !s.client.main.w.Sending?
    ensures CanWork(cf, s.client)
  {
    TotalIsCeiling(cf.totalSize);
    if s.client.main.Acquiring? {
      FreeWhenAnswered(cf, s);
    }
    hide MsgsOk, TablesOk, ServerOk, CountsOk, ProgressOk, Settled, DataOk, BlocksOk, FirstFree, HoldersOk, StaleOk, IndicesBelow, DistinctOk;
  }

  lemma Works(cf: Config, o: Sys, s: Sys) returns (s': Sys)
    requires Sane(cf, o, s) && InLoop(s.client.main) && CanWork(cf, s.client)
    ensures Sane(cf, o, s') && MainLeft(cf, s'.client.main) < MainLeft(cf, s.client.main)
  {
    hide Sane, Good, Alive, Backable, CanWork, Worked, LoopStep, EdgeStep, AckStep;
    SaneIsGood(cf, o, s);
    AliveServer(cf, s);
    WorkMoves(cf, s.client);
    s' := s.(client := Worked(cf, s.client));
    StaysAlive(cf, s, s');
    Goes(cf, o, s, s', Local);
  }

  lemma SendsBlock(cf: Config, o: Sys, s: Sys) returns (s': Sys)
    requires Sane(cf, o, s) && s.client.main.Work? && s.client.main.w.Sending?
    requires s.client.main.s < |s.client.slots| && s.client.main.i < cf.total
    ensures Sane(cf, o, s') && MainLeft(cf, s'.client.main) < MainLeft(cf, s.client.main)
  {
    hide Sane, Good, Alive, Backable;
    SaneIsGood(cf, o, s);
    AliveServer(cf, s);
    var msg := Outgoing(cf, s.client).value;
    s' := s.(client := AfterSend(s.client), msgs := s.msgs + [msg], holders := s.holders + [s.client.main.s]);
    StaysAlive(cf, s, s');
    Goes(cf, o, s, s', Send);
  }

  lemma HeldSlot(cf: Config, s: Sys)
    requires Good(cf, s) && s.client.main.Work?
    ensures s.client.main.s < |s.client.slots| && s.client.main.i < cf.total
  {
    hide MsgsOk, TablesOk, ServerOk, CountsOk, ProgressOk, Settled, DataOk, BlocksOk, HoldersOk, StaleOk, IndicesBelow, DistinctOk;
  }

  lemma LoopMoves(cf: Config, o: Sys, s: Sys) returns (s': Sys)
    requires Sane(cf, o, s) && InLoop(s.client.main)
    requires s.client.main.Acquiring? ==> !AckPending(s)
    requires s.client.main.Next? ==> s.client.main.i < cf.total
    ensures Sane(cf, o, s') && MainLeft(cf, s'.client.main) < MainLeft(cf, s.client.main)
  {
    SaneIsGood(cf, o, s);
    hide Leads, Good, Alive, Sound;
    if s.client.main.Work? && s.client.main.w.Sending? {
      HeldSlot(cf, s);
      s' := SendsBlock(cf, o, s);
    } else {
      CanWorkNow(cf, s);
      s' := Works(cf, o, s);
    }
  }

  // ---------- the handshake ----------

  lemma GreetMoves(cf: Config, o: Sys, s: Sys) returns (s': Sys)
    requires Sane(cf, o, s) && s.client.main.Greet?
    ensures Sane(cf, o, s') && MainLeft(cf, s'.client.main) < MainLeft(cf, s.client.main)
  {
    hide Sane, Good, Alive;
    SaneIsGood(cf, o, s);
    GreetFacts(cf, s);
    match s.client.main.g
    case Greeting => s' := SendsHello(cf, o, s);
    case AwaitGreeting => s' := AwaitsGreeting(cf, o, s);
    case Resetting => s' := ResetsWindow(cf, o, s);
    case Opening => s' := OpensSource(cf, o, s);
  }

  lemma SendsHello(cf: Config, o: Sys, s: Sys) returns (s': Sys)
    requires Sane(cf, o, s) && Alive(cf, s) && s.client.main == Greet(Greeting)
    ensures Sane(cf, o, s') && s'.client.main == Greet(AwaitGreeting)
  {
    hide Sane, Backable;
    s' := s.(client := AfterSend(s.client), msgs := s.msgs + [cf.GreetingMsg()], holders := s.holders + [0]);
    Goes(cf, o, s, s', Send);
  }

  lemma ResetsWindow(cf: Config, o: Sys, s: Sys) returns (s': Sys)
    requires Sane(cf, o, s) && Alive(cf, s) && s.client.main == Greet(Resetting) && s.client.skipped == 0
    ensures Sane(cf, o, s') && s'.client.main == Greet(Opening)
  {
    hide Sane, Backable, FreshSlots, AckStep;
    s' := s.(client := s.client.(slots := FreshSlots(cf.window), inFlight := 0, acked := 0, failed := 0, error := false,
                                 main := Greet(Opening)));
    Goes(cf, o, s, s', Local);
  }

  lemma OpensSource(cf: Config, o: Sys, s: Sys) returns (s': Sys)
    requires Sane(cf, o, s) && Alive(cf, s) && s.client.main == Greet(Opening)
    ensures Sane(cf, o, s') && s'.client.main == Next(0)
  {
    hide Sane, Backable, FreshSlots, AckStep;
    s' := s.(client := s.client.(running := true, ackThread := Polling, main := Next(0)));
    Goes(cf, o, s, s', Local);
  }

  /** What the invariant says during the handshake. */
  lemma GreetFacts(cf: Config, s: Sys)
    requires Good(cf, s) && Alive(cf, s) && s.client.main.Greet?
    ensures !Live(s.client.main) ==> s.client.skipped == 0
    ensures s.client.main == Greet(AwaitGreeting) ==> s.taken == 0 && s.msgs == [cf.GreetingMsg()] && s.served == |s.server.conn.acks| <= 1
    ensures s.client.main == Greet(AwaitGreeting) && s.served == 0 ==> !s.server.conn.helloDone
    ensures s.client.main == Greet(AwaitGreeting) && s.served == 1 ==> s.server.conn.acks[0].status == OK
    ensures s.client.main != Greet(GaveUp)
  {
    hide TablesOk, SlotsOk, CountsOk, ProgressOk, Settled, DataOk, BlocksOk, Backable;
  }

  lemma AwaitsGreeting(cf: Config, o: Sys, s: Sys) returns (s': Sys)
    requires Sane(cf, o, s) && s.client.main == Greet(AwaitGreeting)
    ensures Sane(cf, o, s') && s'.client.main == Greet(Resetting)
  {
    SaneIsGood(cf, o, s);
    GreetFacts(cf, s);
    hide Sane, Good, Alive;
    var m := s;
    if s.served == 0 {
      m := AnswersGreeting(cf, o, s);
    }
    s' := TakesGreeting(cf, o, m);
  }

  lemma TakesGreeting(cf: Config, o: Sys, s: Sys) returns (s': Sys)
    requires Sane(cf, o, s) && Alive(cf, s) && s.client.main == Greet(AwaitGreeting)
    requires s.taken == 0 && |s.server.conn.acks| == 1 && s.server.conn.acks[0].status == OK
    ensures Sane(cf, o, s') && s'.client.main == Greet(Resetting)
  {
    hide Sane, Backable;
    s' := s.(client := AfterReceive(s.client, s.server.conn.acks[0]), taken := 1);
    Goes(cf, o, s, s', Deliver);
  }

  lemma AnswersGreeting(cf: Config, o: Sys, s: Sys) returns (s': Sys)
    requires Sane(cf, o, s) && s.client.main == Greet(AwaitGreeting) && s.msgs == [cf.GreetingMsg()]
    requires s.served == 0 == |s.server.conn.acks| && !s.server.conn.helloDone
    ensures Sane(cf, o, s') && Alive(cf, s') && s' == s.(server := s'.server, served := 1)
    ensures |s'.server.conn.acks| == 1 && s'.server.conn.acks[0].status == OK
  {
    hide Leads, Good, Sound, Alive;
    AliveServer(cf, s);
    s' := ServesGreeting(cf, o, s);
    hide Backable;
    StaysAlive(cf, s, s');
  }

  // ---------- to the end ----------

  /** The totals once the last block is answered. */
  lemma TotalsAreFinal(cf: Config, s: Sys)
    requires Good(cf, s) && Alive(cf, s) && s.client.main == Next(cf.total) && !AckPending(s)
    ensures var c := s.client;
            && c.inFlight == 0 && c.sent == cf.total && c.acked == cf.total && c.failed == 0 && c.skipped == 0 && c.failedBlocks == 0
            && c.report == None && !c.error
  {
    hide TablesOk, SlotsOk, MsgsOk, ProgressOk, Settled, DataOk, BlocksOk, Backable;
  }

  lemma Finishes(cf: Config, o: Sys, s: Sys) returns (s': Sys)
    requires Leads(cf, o, s) && s.client.main == Next(cf.total) && s.client.ackThread == Polling
    requires var c := s.client;
             && c.inFlight == 0 && c.sent == cf.total && c.acked == cf.total && c.failed == 0 && c.skipped == 0 && c.failedBlocks == 0
    ensures Leads(cf, o, s') && Completed(cf, s')
  {
    hide Leads;
    var n, c := cf.total, s.client;
    s' := MovesLocally(cf, o, s, c.(main := Tail(n, LoopDone)));
    s' := MovesLocally(cf, o, s', c.(main := Tail(n, Stopping)));
    s' := MovesLocally(cf, o, s', c.(running := false, main := Tail(n, Joining)));
    s' := MovesLocally(cf, o, s', c.(running := false, main := Tail(n, Joining), ackThread := Exited));
    c := s'.client;
    s' := MovesLocally(cf, o, s', c.(main := Tail(n, Reporting)));
    s' := MovesLocally(cf, o, s', c.(report := Some(Stats(n, n, 0, 0)), main := Tail(n, Closing)));
  }

  /** The run is over: every block was sent and acknowledged. */
  predicate Completed(cf: Config, s: Sys) {
    && After(s.client.main) && s.client.main.i == cf.total && s.client.inFlight == 0
    && s.client.report == Some(Stats(cf.total, cf.total, 0, 0))
  }

  function Missing(all: nat, have: nat): nat {
    if have <= all then all - have else 0
  }

  /** `m` is closer to the end than `s`: the main thread moved, or the ACK side did. */
  ghost predicate Closer(cf: Config, s: Sys, m: Sys) {
    || MainLeft(cf, m.client.main) < MainLeft(cf, s.client.main)
    || (AckSideMoved(s, m) && m.taken <= |m.msgs| && m.served <= |m.msgs|)
  }

  predicate LoopIsDone(cf: Config, s: Sys) {
    s.client.main == Next(cf.total) && !AckPending(s)
  }

  /** First the ACK side is brought to rest, then the main thread moves. */
  lemma MovesOn(cf: Config, o: Sys, s: Sys) returns (m: Sys)
    requires Sane(cf, o, s) && !LoopIsDone(cf, s)
    ensures Sane(cf, o, m) && Closer(cf, s, m)
  {
    SaneIsGood(cf, o, s);
    MainIsNotDone(cf, s);
    hide Good, Alive, Sane, MainLeft, AckPending, AckSideMoved;
    if s.client.main.Greet? {
      m := GreetMoves(cf, o, s);
    } else if AckPending(s) {
      m := AckSideMoves(cf, o, s);
      SaneIsGood(cf, o, m);
      NextTaken(cf, m);
      ServedWithin(cf, m);
    } else {
      m := LoopMoves(cf, o, s);
    }
  }

  lemma {:induction false} Completes(cf: Config, o: Sys, s: Sys) returns (s': Sys)
    requires Sane(cf, o, s)
    ensures Leads(cf, o, s') && Completed(cf, s')
    decreases MainLeft(cf, s.client.main), Missing(|s.msgs|, s.taken), Missing(|s.msgs|, s.served), CallbackLeft(s.client.ackThread)
  {
    hide Leads, Sane, Completed, MainLeft;
    if LoopIsDone(cf, s) {
      SaneIsGood(cf, o, s);
      LeadsThere(cf, o, s);
      TotalsAreFinal(cf, s);
      s' := Finishes(cf, o, s);
    } else {
      var m := MovesOn(cf, o, s);
      s' := Completes(cf, o, m);
    }
  }

  lemma LeadsThere(cf: Config, o: Sys, s: Sys)
    requires Sane(cf, o, s)
    ensures Leads(cf, o, s)
  {
    hide Leads, Good, Alive, Sound;
  }

  lemma ServedWithin(cf: Config, s: Sys)
    requires Good(cf, s)
    ensures s.served <= |s.msgs|
  {
    hide MsgsOk, TablesOk, SlotsOk, CountsOk, ProgressOk, Settled, DataOk, BlocksOk;
  }

  lemma MainIsNotDone(cf: Config, s: Sys)
    requires Good(cf, s) && Alive(cf, s)
    ensures s.client.main.Greet? || InLoop(s.client.main)
    ensures s.client.main.Next? ==> s.client.main.i <= cf.total
  {
    hide MsgsOk, TablesOk, SlotsOk, CountsOk, ProgressOk, Settled, DataOk, BlocksOk, Backable;
  }

  /** No dead ends: from every reachable state in which the connection stands, the loop has not been left,
      and nothing has failed or been skipped, some continuation completes with every block acknowledged,
      and the image then is the source. */
  lemma NoDeadEnd(cf: Config, s: Sys) returns (s': Sys)
    requires Sound(cf) && Reachable(cf, s) && Alive(cf, s)
    ensures Leads(cf, s, s') && Reachable(cf, s') && Completed(cf, s')
    ensures var disks := s'.server.disks;
            && cf.dev in disks && cf.totalSize <= |disks[cf.dev]| && cf.totalSize <= |cf.source|
            && disks[cf.dev][..cf.totalSize] == cf.source[..cf.totalSize]
  {
    hide Leads, Alive, Good, Run;
    ReachableIsGood(cf, s);
    Stays(cf, s);
    s' := Completes(cf, s, s);
    ReachesOnward(cf, s, s');
    var states := ReachableByRun(cf, s');
    CompleteRun(cf, states, |states| - 1);
  }

  /** In particular, every readable disk the server accepts can be backed up from the start. */
  lemma BackupCanComplete(cf: Config, disks: Disks) returns (s: Sys)
    requires Sound(cf) && Backable(cf, disks)
    ensures Reachable(cf, s) && Completed(cf, s)
    ensures cf.dev in s.server.disks && cf.totalSize <= |s.server.disks[cf.dev]| && cf.totalSize <= |cf.source|
    ensures s.server.disks[cf.dev][..cf.totalSize] == cf.source[..cf.totalSize]
  {
    StartsRuns(cf, disks);
    StartReaches(cf, disks, Start(cf, disks));
    assert Alive(cf, Start(cf, disks));
    s := NoDeadEnd(cf, Start(cf, disks));
  }
}
