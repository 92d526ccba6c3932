/** The full-backup protocol as a transition system: the client's main thread, its ACK thread, the
    server, and two FIFO channels (client/BackupEngine.cpp, client/NetworkClient.cpp). A channel is
    the list of everything ever sent on it together with how far it has been read. */
module Pipeline {
  import opened Bytes
  import opened Protocol
  import opened BlockProcessor
  import opened ServerModel
  import opened Tiling
  import opened Window
  import opened Ownership
  import B = BlockState

  /** One backup: window size, disk, the block states before it, library code, and how writes end. */
  datatype Config = Config(window: nat, totalSize: u64, total: u64, source: seq<byte>, dev: u32, versionType: VersionType,
                           prior: B.Tables, codec: Codec, io: Writes)
  {
    function Len(k: u64): u32 { BlockLen(totalSize, k) }

    function VersionId(): u32 { prior.nextVersionId % TWO_32 }

    /** A read of block k can only succeed if the source holds all of it. */
    predicate Readable(k: u64) { k * BLOCK_SIZE + Len(k) <= |source| }

    function BlockBytes(k: u64): (s: seq<byte>)
      requires Readable(k)
      ensures |s| == Len(k)
    {
      source[k * BLOCK_SIZE..k * BLOCK_SIZE + Len(k)]
    }

    function GreetingMsg(): Message {
      Hello(dev, HelloBody(VersionId(), dev, total, totalSize, versionType))
    }

    function DataMsg(k: u64, hash: Hash, compressed: seq<byte>): Message {
      Data(dev, BlockHeader(k, Len(k), |compressed| % TWO_32, hash, VersionId()), compressed)
    }

    /** The message that carries block k faithfully. */
    function BlockMsg(k: u64): Message
      requires Readable(k)
    {
      DataMsg(k, codec.sha(BlockBytes(k)), codec.compress(BlockBytes(k)))
    }

    /** The block states the run starts from: a new version, every block pending. */
    function StartTables(): B.Tables {
      B.FullInitialized(B.Created(prior, "FULL", total, totalSize), prior.nextVersionId, total, [])
    }
  }

  /** Where the main thread stands: around the handshake; at the head of the loop; at work on block `i`
      in slot `s`; just after its send; or past the loop, which was left at `i`. */
  datatype MainPc =
    | Greet(g: GreetStage)
    | Next(i: u64)
    | Acquiring(i: u64)
    | Work(i: u64, s: nat, w: WorkStage)
    | Sent(i: u64, s: nat, counted: bool)
    | Tail(i: u64, t: TailStage)

  datatype GreetStage = Greeting | AwaitGreeting | GaveUp | Resetting | Opening
  datatype WorkStage = Filling | Reading | Hashing | Compressing | Sending
  datatype TailStage = LoopDone | Waiting | Stopping | Joining | Reporting | Closing | AwaitBye | Finished

  /** Where the ACK thread stands: polling, or inside the callback for one ACK. */
  datatype AckPc =
    | NotStarted | Polling
    | Recording(ack: AckBody) | Tallying(ack: AckBody) | Releasing(ack: AckBody) | Lowering(ack: AckBody)
    | Exited

  datatype Stats = Stats(sentBlocks: nat, ackedBlocks: nat, failedBlocks: nat, skippedBlocks: nat)

  datatype Client = Client(
    main: MainPc, ackThread: AckPc, running: bool, connected: bool,
    slots: seq<Slot>, inFlight: int, acked: nat, failed: nat, error: bool,
    tables: B.Tables, sent: nat, skipped: nat, failedBlocks: nat, report: Option<Stats>)

  // ---------- the main thread ----------

  /** A block that could not be read, hashed or compressed: its slot is freed and it is skipped. */
  function SkipBlock(c: Client, i: u64, s: nat): Client
    requires s < |c.slots| && i + 1 < TWO_64
  {
    c.(slots := c.slots[s := c.slots[s].(inUse := false, data := [])],
       skipped := c.skipped + 1, failedBlocks := c.failedBlocks + 1, main := Next(i + 1))
  }

  /** One step of the work on block i in slot s. */
  ghost predicate WorkStep(cf: Config, c: Client, c': Client, i: u64, s: nat, w: WorkStage)
    requires s < |c.slots| && i < cf.total
  {
    match w
    case Filling =>
      c' == c.(slots := c.slots[s := c.slots[s].(blockIndex := i)], main := Work(i, s, Reading))
    case Reading =>
      || c' == SkipBlock(c, i, s)
      || (cf.Readable(i) && c' == c.(slots := c.slots[s := c.slots[s].(data := cf.BlockBytes(i))],
                                     main := Work(i, s, Hashing)))
    case Hashing =>
      || c' == SkipBlock(c, i, s)
      || var h := cf.codec.sha(c.slots[s].data);
         c' == c.(slots := c.slots[s := c.slots[s].(hash := h)], tables := B.HashSet(c.tables, i, h),
                  main := Work(i, s, Compressing))
    case Compressing =>
      || c' == SkipBlock(c, i, s)
      || c' == c.(slots := c.slots[s := c.slots[s].(compressed := cf.codec.compress(c.slots[s].data))],
                  main := Work(i, s, Sending))
    case Sending => false
  }

  /** After the send: the block is counted, then the slot's raw data is dropped, whoever owns it by then. */
  ghost predicate SentStep(cf: Config, c: Client, c': Client, i: u64, s: nat, counted: bool)
    requires s < |c.slots| && i < cf.total
  {
    if !counted then c' == c.(sent := c.sent + 1, inFlight := c.inFlight + 1, main := Sent(i, s, true))
    else c' == c.(slots := c.slots[s := c.slots[s].(data := [])], main := Next(i + 1))
  }

  ghost predicate LoopStep(cf: Config, c: Client, c': Client) {
    match c.main
    case Next(i) =>
      if i >= cf.total || c.error then c' == c.(main := Tail(i, LoopDone)) else c' == c.(main := Acquiring(i))
    case Acquiring(i) =>
      var f := FirstFree(c.slots, 0);
      if c.error || f == |c.slots| then c' == c.(main := Tail(i, LoopDone))
      else c' == c.(slots := c.slots[f := c.slots[f].(inUse := true)], main := Work(i, f, Filling))
    case Work(i, s, w) => s < |c.slots| && i < cf.total && WorkStep(cf, c, c', i, s, w)
    case Sent(i, s, counted) => s < |c.slots| && i < cf.total && SentStep(cf, c, c', i, s, counted)
    case _ => false
  }

  /** Before and after the loop. A wait may always end at its timeout. */
  ghost predicate EdgeStep(cf: Config, c: Client, c': Client) {
    match c.main
    case Greet(Resetting) =>
      c' == c.(slots := FreshSlots(cf.window), inFlight := 0, acked := 0, failed := 0, error := false,
               main := Greet(Opening))
    case Greet(Opening) =>
      || c' == c.(main := Tail(0, Closing))
      || c' == c.(running := true, ackThread := Polling, main := Next(0))
    case Tail(i, LoopDone) => c' == c.(main := Tail(i, if c.inFlight > 0 && !c.error then Waiting else Stopping))
    case Tail(i, Waiting) => c' == c.(main := Tail(i, Stopping))
    case Tail(i, Stopping) => c' == c.(running := false, main := Tail(i, Joining))
    case Tail(i, Joining) => c.ackThread.Exited? && c' == c.(main := Tail(i, Reporting))
    case Tail(i, Reporting) =>
      c' == c.(report := Some(Stats(c.sent, c.acked, c.failedBlocks + c.failed, c.skipped)),
               failedBlocks := c.failedBlocks + c.failed, main := Tail(i, Closing))
    case Tail(i, Closing) => !c.connected && c' == c.(main := Tail(i, Finished))
    case _ => false
  }

  // ---------- the ACK thread ----------

  const NO_BLOCK: u64 := 0xFFFF_FFFF_FFFF_FFFF

  ghost predicate AckStep(c: Client, c': Client) {
    match c.ackThread
    case Polling => !c.running && c' == c.(ackThread := Exited)
    case Recording(a) =>
      if a.blockIndex == NO_BLOCK then c' == c.(error := true, ackThread := Polling)
      else c' == c.(tables := B.AckSet(c.tables, a.blockIndex, if a.status == OK then B.Acknowledged else B.Rejected),
                    ackThread := Tallying(a))
    case Tallying(a) =>
      if a.status == OK then c' == c.(acked := c.acked + 1, ackThread := Releasing(a))
      else c' == c.(failed := c.failed + 1, ackThread := Releasing(a))
    case Releasing(a) =>
      c' == c.(slots := AfterRelease(c.slots, a.blockIndex),
               ackThread := if FirstShowing(c.slots, a.blockIndex, 0) < |c.slots| then Lowering(a) else Polling)
    case Lowering(a) => c' == c.(inFlight := c.inFlight - 1, ackThread := Polling)
    case _ => false
  }

  ghost predicate LocalStep(cf: Config, c: Client, c': Client) {
    LoopStep(cf, c, c') || EdgeStep(cf, c, c') || AckStep(c, c')
  }

  // ---------- the client's ends of the channels ----------

  /** The message the client is about to send, if it is about to send one. */
  function Outgoing(cf: Config, c: Client): Option<Message> {
    match c.main
    case Greet(Greeting) => Some(cf.GreetingMsg())
    case Work(i, s, Sending) =>
      if s < |c.slots| then Some(cf.DataMsg(i, c.slots[s].hash, c.slots[s].compressed)) else None
    case Tail(i, Closing) => if c.connected then Some(Bye(cf.dev)) else None
    case _ => None
  }

  function AfterSend(c: Client): Client {
    match c.main
    case Greet(Greeting) => c.(main := Greet(AwaitGreeting))
    case Work(i, s, Sending) => c.(main := Sent(i, s, false))
    case Tail(i, Closing) => c.(main := Tail(i, AwaitBye))
    case _ => c
  }

  function AfterSendFailure(c: Client): Client {
    match c.main
    case Greet(Greeting) => c.(main := Greet(GaveUp), connected := false)
    case Work(i, s, Sending) =>
      if s < |c.slots| then
        c.(slots := c.slots[s := c.slots[s].(inUse := false, data := [])], error := true, connected := false,
           main := Tail(i, LoopDone))
      else c
    case Tail(i, Closing) => c.(main := Tail(i, Finished), connected := false)
    case _ => c
  }

  predicate MainWants(m: MainPc) {
    m == Greet(AwaitGreeting) || (m.Tail? && m.t.AwaitBye?)
  }

  /** Someone is reading the socket: the main thread around its handshakes, else the ACK thread. */
  predicate Wants(c: Client) {
    MainWants(c.main) || c.ackThread.Polling?
  }

  function AfterReceive(c: Client, a: AckBody): Client {
    match c.main
    case Greet(AwaitGreeting) => c.(main := Greet(if a.status == OK then Resetting else GaveUp))
    case Tail(i, AwaitBye) => c.(main := Tail(i, Finished))
    case _ => c.(ackThread := Recording(a))
  }

  /** A failed receive: `alive` tells whether the failure left the connection marked as up. */
  function AfterReceiveFailure(c: Client, alive: bool): Client {
    match c.main
    case Greet(AwaitGreeting) => c.(main := Greet(GaveUp), connected := c.connected && alive)
    case Tail(i, AwaitBye) => c.(main := Tail(i, Finished), connected := c.connected && alive)
    case _ => c.(error := true, ackThread := Exited, connected := c.connected && alive)
  }

  // ---------- the whole system ----------

  /** `msgs` is everything the client sent, the first `served` of it handled by the server; of the
      server's ACKs the client has taken `taken`. `holders[j]` is the slot message j was sent from. */
  datatype Sys = Sys(client: Client, server: Server, msgs: seq<Message>, served: nat, taken: nat, holders: seq<nat>)

  ghost predicate Init(cf: Config, s: Sys) {
    && cf.total == TotalBlocks(cf.totalSize)
    && s.client.main == Greet(Greeting) && s.client.ackThread == NotStarted && !s.client.running && s.client.connected
    && s.client.tables == cf.StartTables()
    && s.client.sent == 0 && s.client.skipped == 0 && s.client.failedBlocks == 0 && s.client.report == None
    && s.server.conn == FRESH && ValidDisks(s.server.disks)
    && s.msgs == [] && s.served == 0 && s.taken == 0 && s.holders == []
  }

  datatype Action = Local | Send | SendFailure | Serve | Deliver | ReceiveFailure(alive: bool) | Hangup

  function Holder(m: MainPc): nat {
    if m.Work? then m.s else 0
  }

  ghost predicate Does(cf: Config, s: Sys, s': Sys, a: Action) {
    match a
    case Local => s' == s.(client := s'.client) && LocalStep(cf, s.client, s'.client)
    case Send =>
      && Outgoing(cf, s.client).Some?
      && s' == s.(client := AfterSend(s.client), msgs := s.msgs + [Outgoing(cf, s.client).value],
                  holders := s.holders + [Holder(s.client.main)])
    case SendFailure =>
      && Outgoing(cf, s.client.(connected := true)).Some?
      && s' == s.(client := AfterSendFailure(s.client))
    case Serve =>
      && s.server.conn.open && s.served < |s.msgs|
      && s' == s.(server := Dispatch(cf.codec, cf.io, s.server, ToFrame(s.msgs[s.served])), served := s.served + 1)
    case Deliver =>
      && Wants(s.client) && s.taken < |s.server.conn.acks|
      && s' == s.(client := AfterReceive(s.client, s.server.conn.acks[s.taken]), taken := s.taken + 1)
    case ReceiveFailure(alive) =>
      Wants(s.client) && s' == s.(client := AfterReceiveFailure(s.client, alive))
    case Hangup =>
      s' == s.(server := s.server.(conn := Close(s.server.conn)))
  }

  ghost predicate NextState(cf: Config, s: Sys, s': Sys) {
    exists a :: Does(cf, s, s', a)
  }

  // ---------- the invariant ----------

  /** The handshake has succeeded. */
  predicate Greeted(m: MainPc) {
    !m.Greet? || m.g.Resetting? || m.g.Opening?
  }

  /** The send loop has been left and the ACK thread joined, or never started. */
  predicate After(m: MainPc) {
    m.Tail? && (m.t.Reporting? || m.t.Closing? || m.t.AwaitBye? || m.t.Finished?)
  }

  /** The window and the counters are in use. */
  predicate Live(m: MainPc) {
    if m.Greet? then m.g.Opening? else !After(m)
  }

  predicate MayHaveSaidBye(m: MainPc) {
    m.Tail? && (m.t.AwaitBye? || m.t.Finished?)
  }

  /** Every block sent so far is below this index. */
  function Bound(m: MainPc): nat {
    match m
    case Greet(_) => 0
    case Sent(i, _, _) => i + 1
    case Next(i) => i
    case Acquiring(i) => i
    case Work(i, _, _) => i
    case Tail(i, _) => i
  }

  function StanceOf(m: MainPc): Stance {
    if m.Work? then Stance(true, m.s, !m.w.Filling?, m.i, true) else Stance(false, 0, false, Bound(m), !m.Tail?)
  }

  // Whether the ACK just taken has yet to pass each point of the callback.
  function Unrecorded(t: AckPc): nat { if t.Recording? then 1 else 0 }
  function Untallied(t: AckPc): nat { if t.Recording? || t.Tallying? then 1 else 0 }
  function Unfreed(t: AckPc): nat { if t.Recording? || t.Tallying? || t.Releasing? then 1 else 0 }
  function Unlowered(t: AckPc): nat { if InCallback(t) then 1 else 0 }

  /** The image of the backed-up disk holds block k of the source. */
  predicate Stored(cf: Config, disks: Disks, k: u64) {
    && cf.Readable(k)
    && cf.dev in disks
    && k * BLOCK_SIZE + cf.Len(k) <= |disks[cf.dev]|
    && disks[cf.dev][k * BLOCK_SIZE..k * BLOCK_SIZE + cf.Len(k)] == cf.BlockBytes(k)
  }

  predicate GoodBlock(cf: Config, m: Message)
    requires m.Data?
  {
    var k := m.block.blockIndex;
    k < cf.total && cf.Readable(k) && m == cf.BlockMsg(k)
  }

  /** The client-to-server channel: the HELLO, blocks in increasing order, perhaps a BYE at the end. */
  ghost predicate MsgsOk(cf: Config, bye: bool, bound: nat, msgs: seq<Message>) {
    && (msgs != [] ==> msgs[0] == cf.GreetingMsg())
    && (forall j :: 1 <= j < |msgs| ==> msgs[j].Data? || (msgs[j] == Bye(cf.dev) && j == |msgs| - 1 && bye))
    && (forall j :: IsBlock(msgs, j) ==> GoodBlock(cf, msgs[j]))
    && Ascending(msgs, bound)
  }

  predicate PcOk(cf: Config, m: MainPc, msgCount: nat) {
    && Bound(m) <= cf.total
    && (m.Acquiring? || m.Work? ==> m.i < cf.total)
    && (m.Sent? ==> m.s < cf.window)
    && (m == Greet(Greeting) ==> msgCount == 0)
    && (m.Greet? ==> msgCount <= 1)
    && (Greeted(m) ==> msgCount >= 1)
  }

  predicate AckFor(cf: Config, disks: Disks, msgs: seq<Message>, acks: seq<AckBody>, j: int)
    requires IsBlock(msgs, j) && j < |acks|
  {
    && acks[j].blockIndex == Idx(msgs, j)
    && (acks[j].status == OK || acks[j].status == WRITE_ERROR)
    && (acks[j].status == OK ==> Stored(cf, disks, Idx(msgs, j)))
  }

  /** The server: one ACK per message handled, and an OK for a block only once it is stored. */
  ghost predicate ServerOk(cf: Config, greeted: bool, sv: Server, msgs: seq<Message>, served: nat, taken: nat) {
    var acks := sv.conn.acks;
    && ValidDisks(sv.disks)
    && taken <= served == |acks| <= |msgs|
    && (served == 0 ==> !sv.conn.helloDone)
    && (served >= 1 && acks[0].status == OK ==>
          sv.conn.helloDone && cf.dev in sv.disks && cf.totalSize <= |sv.disks[cf.dev]|)
    && (served >= 1 && acks[0].status != OK ==> !sv.conn.open)
    && (greeted ==> taken >= 1 && acks[0].status == OK)
    && (forall j :: IsBlock(msgs, j) && j < served ==> AckFor(cf, sv.disks, msgs, acks, j))
  }

  /** The block states: acknowledged means stored; what has not been recorded yet is pending. */
  ghost predicate TablesOk(cf: Config, bs: seq<B.Block>, disks: Disks, msgs: seq<Message>, recorded: int, bound: nat) {
    && |bs| == cf.total
    && (forall k: u64 :: k < |bs| && bs[k].ack == B.Acknowledged ==> Stored(cf, disks, k))
    && (forall j :: IsBlock(msgs, j) && recorded <= j && Idx(msgs, j) < |bs| ==> bs[Idx(msgs, j)].ack == B.Pending)
    && (forall k :: bound <= k < |bs| ==> bs[k].ack == B.Pending)
  }

  predicate InCallback(t: AckPc) {
    t.Recording? || t.Tallying? || t.Releasing? || t.Lowering?
  }

  predicate ThreadsOk(m: MainPc, t: AckPc, acks: seq<AckBody>, taken: nat) {
    && (t.Polling? || InCallback(t) ==> Live(m) && !m.Greet?)
    && (Live(m) && !m.Greet? ==> !t.NotStarted?)
    && (InCallback(t) ==> 2 <= taken <= |acks| && t.ack == acks[taken - 1])
    && (m.Greet? ==> t.NotStarted? && (m.g.GaveUp? || taken == if Greeted(m) then 1 else 0))
  }

  /** What the held slot contains at each stage of the work on a block. */
  predicate DataOk(cf: Config, m: MainPc, w: seq<Slot>) {
    m.Work? && (m.w.Hashing? || m.w.Compressing? || m.w.Sending?) ==>
      && m.s < |w|
      && cf.Readable(m.i)
      && w[m.s].data == cf.BlockBytes(m.i)
      && (!m.w.Hashing? ==> w[m.s].hash == cf.codec.sha(cf.BlockBytes(m.i)))
      && (m.w.Sending? ==> w[m.s].compressed == cf.codec.compress(cf.BlockBytes(m.i)))
  }

  /** A block is on the wire but the loop has not counted it yet. */
  function Uncounted(m: MainPc): nat {
    if m.Sent? && !m.counted then 1 else 0
  }

  predicate CountsOk(c: Client, msgs: seq<Message>, taken: nat) {
    var t := c.ackThread;
    && c.failedBlocks == c.skipped
    && c.acked + c.failed == taken - Untallied(t) - 1
    && c.sent == |msgs| - 1 - Uncounted(c.main)
    && c.inFlight == c.sent - (taken - Unlowered(t) - 1)
    && |msgs| - 1 + c.skipped == Bound(c.main)
  }

  /** With nothing skipped, message j carries block j - 1; with nothing failed, every tallied block
      is acknowledged. */
  ghost predicate ProgressOk(c: Client, msgs: seq<Message>, taken: nat) {
    var t, bs := c.ackThread, c.tables.blocks;
    && (c.skipped == 0 ==> forall j :: IsBlock(msgs, j) ==> Idx(msgs, j) == j - 1)
    && (c.failed == 0 ==> forall j :: IsBlock(msgs, j) && j < taken - Untallied(t) && Idx(msgs, j) < |bs| ==>
          bs[Idx(msgs, j)].ack == B.Acknowledged)
    && (t.Tallying? && t.ack.status == OK ==>
          t.ack.blockIndex < |bs| && bs[t.ack.blockIndex].ack == B.Acknowledged)
  }

  /** What the counters say once both threads are done with them. */
  predicate Settled(window: nat, c: Client) {
    && c.inFlight == c.sent - (c.acked + c.failed) && 0 <= c.inFlight <= window + 1
    && c.sent + c.skipped == Bound(c.main)
    && (c.report.None? ==> c.failedBlocks == c.skipped)
    && (c.main.Tail? && c.main.t.Reporting? ==> c.report.None?)
    && (c.report.Some? ==> c.report.value == Stats(c.sent, c.acked, c.skipped + c.failed, c.skipped))
    && (c.skipped == 0 && c.failed == 0 && c.inFlight == 0 ==>
          forall k :: 0 <= k < Bound(c.main) && k < |c.tables.blocks| ==> c.tables.blocks[k].ack == B.Acknowledged)
  }

  predicate Unstarted(c: Client) {
    c.sent == 0 && c.skipped == 0 && c.failedBlocks == 0
  }

  ghost predicate Inv(cf: Config, s: Sys) {
    var c, m := s.client, s.client.main;
    && PcOk(cf, m, |s.msgs|)
    && MsgsOk(cf, MayHaveSaidBye(m), Bound(m), s.msgs)
    && ServerOk(cf, Greeted(m), s.server, s.msgs, s.served, s.taken)
    && TablesOk(cf, c.tables.blocks, s.server.disks, s.msgs, s.taken - Unrecorded(c.ackThread), Bound(m))
    && ThreadsOk(m, c.ackThread, s.server.conn.acks, s.taken)
    && DataOk(cf, m, c.slots)
    && |s.holders| == |s.msgs|
    && (!After(m) ==> c.report == None)
    && (!Live(m) && !After(m) ==> Unstarted(c))
    && (Live(m) ==>
          && SlotsOk(cf.window, StanceOf(m), c.slots, s.msgs, s.holders, s.taken - Unfreed(c.ackThread))
          && CountsOk(c, s.msgs, s.taken)
          && ProgressOk(c, s.msgs, s.taken))
    && (After(m) ==> Settled(cf.window, c))
  }

  // ---------- every step keeps the invariant ----------

  lemma StartTablesPending(cf: Config)
    ensures var bs := cf.StartTables().blocks;
            |bs| == cf.total && forall k :: 0 <= k < |bs| ==> bs[k].ack == B.Pending
  {
  }

  lemma InitHolds(cf: Config, s: Sys)
    requires Init(cf, s)
    ensures Inv(cf, s)
  {
    assert TablesOk(cf, s.client.tables.blocks, s.server.disks, [], 0, 0) by {
      StartTablesPending(cf);
    }
    assert ServerOk(cf, false, s.server, [], 0, 0);
    hide TablesOk, ServerOk;
  }

  // -- before and after the loop --

  lemma EdgePosition(cf: Config, c: Client, c': Client, n: nat, acks: seq<AckBody>, taken: nat)
    requires PcOk(cf, c.main, n) && ThreadsOk(c.main, c.ackThread, acks, taken) && EdgeStep(cf, c, c')
    ensures PcOk(cf, c'.main, n) && ThreadsOk(c'.main, c'.ackThread, acks, taken)
    ensures Greeted(c.main) && Greeted(c'.main) && Bound(c'.main) == Bound(c.main)
    ensures c.tables == c'.tables && !c'.main.Work?
    ensures c.main.Greet? ==> n == 1 && Fresh(c, taken)
    ensures c'.ackThread == c.ackThread || (c.ackThread.NotStarted? && c'.ackThread.Polling?)
  {
  }

  lemma EdgePhases(cf: Config, c: Client, c': Client)
    requires EdgeStep(cf, c, c')
    ensures MayHaveSaidBye(c.main) ==> MayHaveSaidBye(c'.main)
    ensures After(c.main) || Live(c.main) || c.main == Greet(Resetting)
    ensures Live(c'.main) || After(c'.main)
    ensures After(c.main) ==> After(c'.main)
    ensures After(c'.main) ==> After(c.main) || Live(c.main)
    ensures Live(c'.main) ==> c'.report == c.report
  {
  }

  predicate Fresh(c: Client, taken: nat) {
    c.ackThread.NotStarted? && taken == 1
  }

  lemma EdgeSlots(cf: Config, c: Client, c': Client, msgs: seq<Message>, holders: seq<nat>, freed: int)
    requires EdgeStep(cf, c, c') && |holders| == |msgs|
    requires c.main.Greet? ==> |msgs| == 1 && freed == 1
    requires Live(c.main) ==> SlotsOk(cf.window, StanceOf(c.main), c.slots, msgs, holders, freed)
    ensures Live(c'.main) ==> SlotsOk(cf.window, StanceOf(c'.main), c'.slots, msgs, holders, freed)
  {
    hide SlotsOk;
    if c.main == Greet(Resetting) {
      WindowReset(cf.window, msgs, holders);
    }
  }

  lemma EdgeCounts(cf: Config, c: Client, c': Client, msgs: seq<Message>, taken: nat)
    requires EdgeStep(cf, c, c')
    requires c.main.Greet? ==> |msgs| == 1 && Fresh(c, taken)
    requires Live(c.main) ==> CountsOk(c, msgs, taken)
    requires c.main == Greet(Resetting) ==> Unstarted(c)
    ensures Live(c'.main) ==> CountsOk(c', msgs, taken)
  {
  }

  lemma EdgeProgress(cf: Config, c: Client, c': Client, msgs: seq<Message>, taken: nat)
    requires EdgeStep(cf, c, c')
    requires c.main.Greet? ==> |msgs| == 1 && Fresh(c, taken)
    requires Live(c.main) ==> ProgressOk(c, msgs, taken)
    ensures Live(c'.main) ==> ProgressOk(c', msgs, taken)
  {
  }

  /** When both threads are done, the counters add up. */
  lemma EdgeSettles(cf: Config, c: Client, c': Client, msgs: seq<Message>, taken: nat)
    requires EdgeStep(cf, c, c') && taken <= |msgs|
    requires MsgsOk(cf, false, Bound(c.main), msgs)
    requires Live(c.main) && CountsOk(c, msgs, taken) && ProgressOk(c, msgs, taken) && c.report == None
    requires c.inFlight <= cf.window + 1
    requires c.main.Greet? ==> |msgs| == 1 && Fresh(c, taken)
    ensures After(c'.main) ==> Settled(cf.window, c')
  {
    if After(c'.main) && c.skipped == 0 && c.failed == 0 && c.inFlight == 0 {
      forall k | 0 <= k < Bound(c.main) && k < |c.tables.blocks|
        ensures c.tables.blocks[k].ack == B.Acknowledged
      {
        assert IsBlock(msgs, k + 1);
      }
    }
  }

  lemma EdgeStaysSettled(cf: Config, c: Client, c': Client)
    requires EdgeStep(cf, c, c') && After(c.main) && Settled(cf.window, c)
    ensures After(c'.main) && Settled(cf.window, c')
  {
  }

  lemma MsgsWeaken(cf: Config, bye: bool, bye': bool, bound: nat, bound': nat, msgs: seq<Message>)
    requires MsgsOk(cf, bye, bound, msgs) && (bye ==> bye') && bound <= bound'
    ensures MsgsOk(cf, bye', bound', msgs)
  {
  }

  lemma TablesWeaken(cf: Config, bs: seq<B.Block>, bs': seq<B.Block>, disks: Disks, msgs: seq<Message>,
                     recorded: int, bound: nat, bound': nat)
    requires TablesOk(cf, bs, disks, msgs, recorded, bound) && bound <= bound'
    requires |bs'| == |bs| && forall k :: 0 <= k < |bs| ==> bs'[k].ack == bs[k].ack
    ensures TablesOk(cf, bs', disks, msgs, recorded, bound')
  {
  }

  lemma NoDataHeld(cf: Config, m: MainPc, w: seq<Slot>)
    requires !m.Work?
    ensures DataOk(cf, m, w)
  {
  }

  /** The in-flight counter lies between -1 and one more than the window. */
  lemma InFlightRange(n: nat, c: Client, msgs: seq<Message>, holders: seq<nat>, taken: nat)
    requires CountsOk(c, msgs, taken) && taken <= |msgs|
    requires SlotsOk(n, StanceOf(c.main), c.slots, msgs, holders, taken - Unfreed(c.ackThread))
    ensures -1 <= c.inFlight <= n + 1
    ensures c.main.Tail? ==> 0 <= c.inFlight && (c.inFlight == 0 ==> c.acked + c.failed == c.sent)
  {
    OutstandingBounded(n, StanceOf(c.main), c.slots, msgs, holders, taken - Unfreed(c.ackThread));
  }

  lemma EdgeKeeps(cf: Config, s: Sys, s': Sys)
    requires Inv(cf, s) && s' == s.(client := s'.client) && EdgeStep(cf, s.client, s'.client)
    ensures Inv(cf, s')
  {
    hide MsgsOk, ServerOk, TablesOk, ThreadsOk, SlotsOk, CountsOk, ProgressOk, Settled, PcOk, DataOk, EdgeStep;
    var c, c', n, taken := s.client, s'.client, |s.msgs|, s.taken;
    EdgePosition(cf, c, c', n, s.server.conn.acks, taken);
    EdgePhases(cf, c, c');
    MsgsWeaken(cf, MayHaveSaidBye(c.main), MayHaveSaidBye(c'.main), Bound(c.main), Bound(c'.main), s.msgs);
    NoDataHeld(cf, c'.main, c'.slots);
    EdgeSlots(cf, c, c', s.msgs, s.holders, taken - Unfreed(c.ackThread));
    EdgeCounts(cf, c, c', s.msgs, taken);
    EdgeProgress(cf, c, c', s.msgs, taken);
    if After(c.main) {
      EdgeStaysSettled(cf, c, c');
    } else if After(c'.main) {
      TakenSent(cf, s);
      InFlightRange(cf.window, c, s.msgs, s.holders, taken);
      EdgeSettles(cf, c, c', s.msgs, taken);
    }
  }

  lemma TakenSent(cf: Config, s: Sys)
    requires ServerOk(cf, Greeted(s.client.main), s.server, s.msgs, s.served, s.taken)
    ensures s.taken <= |s.server.conn.acks| == s.served <= |s.msgs|
  {
  }

  // -- the loop --

  lemma LoopPosition(cf: Config, c: Client, c': Client, n: nat, acks: seq<AckBody>, taken: nat)
    requires PcOk(cf, c.main, n) && ThreadsOk(c.main, c.ackThread, acks, taken) && LoopStep(cf, c, c')
    requires |c.slots| == cf.window
    ensures PcOk(cf, c'.main, n) && ThreadsOk(c'.main, c'.ackThread, acks, taken)
  {
    LoopPhases(cf, c, c');
    LoopPcs(cf, c, c');
    hide LoopStep;
  }

  lemma LoopPcs(cf: Config, c: Client, c': Client)
    requires LoopStep(cf, c, c') && |c.slots| == cf.window && Bound(c.main) <= cf.total
    requires c.main.Acquiring? ==> c.main.i < cf.total
    ensures Bound(c'.main) <= cf.total
    ensures c'.main.Acquiring? || c'.main.Work? ==> c'.main.i < cf.total
    ensures !c'.main.Sent? || c'.main.s < cf.window
  {
  }

  lemma LoopPhases(cf: Config, c: Client, c': Client)
    requires LoopStep(cf, c, c')
    ensures !c.main.Greet? && !c.main.Tail? && !c'.main.Greet? && !After(c'.main) && !MayHaveSaidBye(c'.main)
    ensures c'.ackThread == c.ackThread && Bound(c.main) <= Bound(c'.main)
    ensures c'.report == c.report
  {
  }

  lemma LoopIsLive(cf: Config, c: Client, c': Client)
    requires LoopStep(cf, c, c')
    ensures Live(c.main)
  {
  }

  lemma LoopTables(cf: Config, c: Client, c': Client)
    requires LoopStep(cf, c, c')
    ensures var bs, bs' := c.tables.blocks, c'.tables.blocks;
            |bs'| == |bs| && forall k :: 0 <= k < |bs| ==> bs'[k].ack == bs[k].ack
  {
  }

  lemma WorkData(cf: Config, c: Client, c': Client, i: u64, h: nat, w: WorkStage)
    requires c.main == Work(i, h, w) && h < |c.slots| && i < cf.total && WorkStep(cf, c, c', i, h, w)
    requires DataOk(cf, c.main, c.slots)
    ensures DataOk(cf, c'.main, c'.slots)
  {
  }

  lemma LoopData(cf: Config, c: Client, c': Client)
    requires LoopStep(cf, c, c') && DataOk(cf, c.main, c.slots)
    ensures DataOk(cf, c'.main, c'.slots)
  {
    if c.main.Work? {
      WorkData(cf, c, c', c.main.i, c.main.s, c.main.w);
      hide WorkStep, DataOk;
    }
  }

  lemma WorkSlots(cf: Config, c: Client, c': Client, msgs: seq<Message>, holders: seq<nat>, freed: int)
    requires c.main.Work? && LoopStep(cf, c, c') && Ascending(msgs, c.main.i)
    requires SlotsOk(cf.window, StanceOf(c.main), c.slots, msgs, holders, freed)
    ensures SlotsOk(cf.window, StanceOf(c'.main), c'.slots, msgs, holders, freed)
  {
    hide SlotsOk, Ascending;
    WorkKinds(cf, c, c');
    hide LoopStep, StanceOf;
    var i, h := c.main.i, c.main.s;
    if c.main.w.Filling? {
      WindowFill(cf.window, i, h, c.slots, msgs, holders, freed);
    } else if c'.main.Next? {
      WindowDrop(cf.window, i, true, h, c.slots, msgs, holders, freed);
    } else {
      WindowSame(cf.window, Stance(true, h, true, i, true), Stance(true, h, true, i, true), c.slots, c'.slots, msgs, holders, freed);
    }
  }

  /** What a step of the work does to the held slot: its index is written, it is freed, or only its
      contents change. */
  lemma WorkKinds(cf: Config, c: Client, c': Client)
    requires c.main.Work? && LoopStep(cf, c, c')
    ensures var i, h := c.main.i, c.main.s;
            && h < |c.slots| && StanceOf(c.main) == Stance(true, h, !c.main.w.Filling?, i, true)
            && if c.main.w.Filling? then
                 c'.slots == c.slots[h := c.slots[h].(blockIndex := i)] && StanceOf(c'.main) == Stance(true, h, true, i, true)
               else if c'.main.Next? then
                 && c'.slots == c.slots[h := c.slots[h].(inUse := false, data := [])]
                 && StanceOf(c'.main) == Stance(false, 0, false, i + One(true), true)
               else
                 && StanceOf(c'.main) == Stance(true, h, true, i, true) && |c'.slots| == |c.slots|
                 && forall t :: 0 <= t < |c.slots| ==>
                      c'.slots[t].inUse == c.slots[t].inUse && c'.slots[t].blockIndex == c.slots[t].blockIndex
  {
  }

  lemma LoopSlots(cf: Config, c: Client, c': Client, msgs: seq<Message>, holders: seq<nat>, freed: int)
    requires LoopStep(cf, c, c') && Ascending(msgs, Bound(c.main))
    requires SlotsOk(cf.window, StanceOf(c.main), c.slots, msgs, holders, freed)
    ensures SlotsOk(cf.window, StanceOf(c'.main), c'.slots, msgs, holders, freed)
  {
    hide SlotsOk;
    match c.main
    case Work(_, _, _) => WorkSlots(cf, c, c', msgs, holders, freed);
    case Acquiring(i) =>
      if c'.main.Work? {
        WindowAcquire(cf.window, i, c.slots, msgs, holders, freed);
      } else {
        WindowSame(cf.window, StanceOf(c.main), StanceOf(c'.main), c.slots, c'.slots, msgs, holders, freed);
      }
    case Next(_) => WindowSame(cf.window, StanceOf(c.main), StanceOf(c'.main), c.slots, c'.slots, msgs, holders, freed);
    case Sent(_, _, _) => WindowSame(cf.window, StanceOf(c.main), StanceOf(c'.main), c.slots, c'.slots, msgs, holders, freed);
    case _ => assert false;
  }

  /** What a step of the loop does to the counters. */
  ghost predicate CountersMove(c: Client, c': Client) {
    && c'.ackThread == c.ackThread && c'.acked == c.acked && c'.failed == c.failed
    && Bound(c.main) <= Bound(c'.main)
    && c'.skipped - c.skipped == c'.failedBlocks - c.failedBlocks == Bound(c'.main) - Bound(c.main)
    && c'.sent - c.sent == c'.inFlight - c.inFlight == Uncounted(c.main) - Uncounted(c'.main)
  }

  lemma WorkDelta(cf: Config, c: Client, c': Client, i: u64, s: nat, w: WorkStage)
    requires c.main == Work(i, s, w) && s < |c.slots| && i < cf.total && WorkStep(cf, c, c', i, s, w)
    ensures CountersMove(c, c')
  {
  }

  lemma LoopDelta(cf: Config, c: Client, c': Client)
    requires LoopStep(cf, c, c')
    ensures CountersMove(c, c')
  {
    if c.main.Work? {
      hide WorkStep;
      WorkDelta(cf, c, c', c.main.i, c.main.s, c.main.w);
    }
  }

  lemma LoopCounts(cf: Config, c: Client, c': Client, msgs: seq<Message>, taken: nat)
    requires LoopStep(cf, c, c') && CountsOk(c, msgs, taken)
    ensures CountsOk(c', msgs, taken)
  {
    LoopDelta(cf, c, c');
    hide LoopStep, Bound, Uncounted;
  }

  lemma LoopProgress(cf: Config, c: Client, c': Client, msgs: seq<Message>, taken: nat)
    requires LoopStep(cf, c, c') && ProgressOk(c, msgs, taken)
    ensures ProgressOk(c', msgs, taken)
  {
    LoopTables(cf, c, c');
    LoopDelta(cf, c, c');
    hide LoopStep;
  }

  /** What a step of the loop records: the hash of block i's source bytes once they are hashed. */
  ghost predicate HashRecorded(cf: Config, c: Client, c': Client) {
    if c.main.Work? && c.main.w.Hashing? && c'.main.Work? then
      && cf.Readable(c.main.i) && c.main.i < |c.tables.blocks|
      && var b := c.tables.blocks[c.main.i];
         c'.tables == c.tables.(blocks := c.tables.blocks[c.main.i := b.(hash := cf.codec.sha(cf.BlockBytes(c.main.i)))])
    else c'.tables == c.tables
  }

  lemma LoopRecords(cf: Config, c: Client, c': Client)
    requires LoopStep(cf, c, c') && DataOk(cf, c.main, c.slots) && |c.tables.blocks| == cf.total
    ensures HashRecorded(cf, c, c')
  {
    if c.main.Work? {
      WorkRecords(cf, c, c', c.main.i, c.main.s, c.main.w);
      hide WorkStep, DataOk;
    }
  }

  lemma WorkRecords(cf: Config, c: Client, c': Client, i: u64, h: nat, w: WorkStage)
    requires c.main == Work(i, h, w) && h < |c.slots| && i < cf.total && WorkStep(cf, c, c', i, h, w)
    requires DataOk(cf, c.main, c.slots) && |c.tables.blocks| == cf.total
    ensures HashRecorded(cf, c, c')
  {
  }

  lemma TableSize(cf: Config, bs: seq<B.Block>, disks: Disks, msgs: seq<Message>, recorded: int, bound: nat)
    requires TablesOk(cf, bs, disks, msgs, recorded, bound)
    ensures |bs| == cf.total
  {
  }

  lemma LoopKeeps(cf: Config, s: Sys, s': Sys)
    requires Inv(cf, s) && s' == s.(client := s'.client) && LoopStep(cf, s.client, s'.client)
    ensures Inv(cf, s')
    ensures HashRecorded(cf, s.client, s'.client)
  {
    hide MsgsOk, ServerOk, TablesOk, ThreadsOk, SlotsOk, CountsOk, ProgressOk, Settled, PcOk, DataOk, LoopStep, Ascending;
    var c, c', n, taken := s.client, s'.client, |s.msgs|, s.taken;
    LoopIsLive(cf, c, c');
    SlotsSize(cf.window, StanceOf(c.main), c.slots, s.msgs, s.holders, taken - Unfreed(c.ackThread));
    MsgsAscend(cf, MayHaveSaidBye(c.main), Bound(c.main), s.msgs);
    LoopPhases(cf, c, c');
    LoopPosition(cf, c, c', n, s.server.conn.acks, taken);
    MsgsWeaken(cf, MayHaveSaidBye(c.main), MayHaveSaidBye(c'.main), Bound(c.main), Bound(c'.main), s.msgs);
    LoopTables(cf, c, c');
    TablesWeaken(cf, c.tables.blocks, c'.tables.blocks, s.server.disks, s.msgs, taken - Unrecorded(c.ackThread),
                 Bound(c.main), Bound(c'.main));
    LoopData(cf, c, c');
    LoopSlots(cf, c, c', s.msgs, s.holders, taken - Unfreed(c.ackThread));
    LoopCounts(cf, c, c', s.msgs, taken);
    LoopProgress(cf, c, c', s.msgs, taken);
    TableSize(cf, c.tables.blocks, s.server.disks, s.msgs, taken - Unrecorded(c.ackThread), Bound(c.main));
    hide HashRecorded;
    LoopRecords(cf, c, c');
  }

  // -- the ACK thread --

  lemma RecordTables(cf: Config, bs: seq<B.Block>, bs': seq<B.Block>, disks: Disks, msgs: seq<Message>, j: int, bound: nat,
                     status: u32)
    requires TablesOk(cf, bs, disks, msgs, j, bound) && Ascending(msgs, bound)
    requires IsBlock(msgs, j) && Idx(msgs, j) < |bs|
    requires var k := Idx(msgs, j); bs' == bs[k := bs[k].(ack := if status == OK then B.Acknowledged else B.Rejected)]
    requires status == OK ==> Stored(cf, disks, Idx(msgs, j))
    ensures TablesOk(cf, bs', disks, msgs, j + 1, bound)
  {
    hide Stored;
    forall i | IsBlock(msgs, i) && j + 1 <= i && Idx(msgs, i) < |bs|
      ensures bs'[Idx(msgs, i)].ack == B.Pending
    {
      assert Idx(msgs, j) < Idx(msgs, i);
    }
  }

  /** The facts about the callback's ACK that its steps rely on. */
  ghost predicate AtHand(cf: Config, c: Client, disks: Disks, msgs: seq<Message>, taken: nat) {
    InCallback(c.ackThread) ==>
      && IsBlock(msgs, taken - 1)
      && c.ackThread.ack.blockIndex == Idx(msgs, taken - 1) < cf.total == |c.tables.blocks|
      && (c.ackThread.ack.status == OK ==> Stored(cf, disks, c.ackThread.ack.blockIndex))
  }

  /** The ACK in the callback is that of the last message taken, a block not yet released. */
  lemma CallbackFacts(cf: Config, s: Sys)
    requires Inv(cf, s)
    ensures AtHand(cf, s.client, s.server.disks, s.msgs, s.taken)
    ensures InCallback(s.client.ackThread) ==> Live(s.client.main)
  {
    hide SlotsOk, CountsOk, ProgressOk, Settled, DataOk, Stored;
    if InCallback(s.client.ackThread) {
      var j := s.taken - 1;
      assert IsBlock(s.msgs, j);
      assert AckFor(cf, s.server.disks, s.msgs, s.server.conn.acks, j);
    }
  }

  lemma AckTables(cf: Config, c: Client, c': Client, disks: Disks, msgs: seq<Message>, taken: nat, bound: nat)
    requires AckStep(c, c') && AtHand(cf, c, disks, msgs, taken) && Ascending(msgs, bound)
    requires TablesOk(cf, c.tables.blocks, disks, msgs, taken - Unrecorded(c.ackThread), bound)
    ensures TablesOk(cf, c'.tables.blocks, disks, msgs, taken - Unrecorded(c'.ackThread), bound)
  {
    hide Stored, TablesOk, Ascending;
    if c.ackThread.Recording? {
      RecordTables(cf, c.tables.blocks, c'.tables.blocks, disks, msgs, taken - 1, bound, c.ackThread.ack.status);
    }
  }

  lemma AckPosition(cf: Config, c: Client, c': Client, disks: Disks, msgs: seq<Message>, acks: seq<AckBody>, taken: nat)
    requires ThreadsOk(c.main, c.ackThread, acks, taken) && AckStep(c, c')
    requires AtHand(cf, c, disks, msgs, taken)
    ensures ThreadsOk(c'.main, c'.ackThread, acks, taken)
    ensures c'.main == c.main && !c.main.Greet? && Live(c.main) && c'.report == c.report
    ensures c.ackThread.Recording? ==> c'.ackThread.Tallying?
  {
  }

  lemma AckSlots(cf: Config, c: Client, c': Client, disks: Disks, msgs: seq<Message>, holders: seq<nat>, taken: nat, bound: nat)
    requires AckStep(c, c') && AtHand(cf, c, disks, msgs, taken) && Ascending(msgs, bound)
    requires SlotsOk(cf.window, StanceOf(c.main), c.slots, msgs, holders, taken - Unfreed(c.ackThread))
    ensures SlotsOk(cf.window, StanceOf(c'.main), c'.slots, msgs, holders, taken - Unfreed(c'.ackThread))
    ensures c.ackThread.Releasing? ==> c'.ackThread.Lowering?
  {
    hide Stored, SlotsOk, Ascending;
    if c.ackThread.Releasing? {
      WindowRelease(cf.window, StanceOf(c.main), c.slots, msgs, holders, taken - 1, bound);
    }
  }

  lemma AckData(cf: Config, c: Client, c': Client, disks: Disks, msgs: seq<Message>, holders: seq<nat>, taken: nat)
    requires AckStep(c, c') && AtHand(cf, c, disks, msgs, taken) && DataOk(cf, c.main, c.slots)
    requires SlotsOk(cf.window, StanceOf(c.main), c.slots, msgs, holders, taken - Unfreed(c.ackThread))
    ensures DataOk(cf, c'.main, c'.slots)
  {
    if c.ackThread.Releasing? {
      var st, j := StanceOf(c.main), taken - 1;
      ReleaseFindsHolder(cf.window, st, c.slots, msgs, holders, j, j);
      assert Active(st, c.slots, holders[j]);
    }
  }

  lemma AckCounts(c: Client, c': Client, msgs: seq<Message>, taken: nat)
    requires AckStep(c, c') && CountsOk(c, msgs, taken)
    requires c.ackThread.Releasing? ==> c'.ackThread.Lowering?
    requires c.ackThread.Recording? ==> c'.ackThread.Tallying?
    ensures CountsOk(c', msgs, taken)
  {
  }

  lemma RecordProgress(cf: Config, c: Client, c': Client, disks: Disks, msgs: seq<Message>, taken: nat, bound: nat)
    requires AckStep(c, c') && ProgressOk(c, msgs, taken) && Ascending(msgs, bound)
    requires AtHand(cf, c, disks, msgs, taken)
    requires c.ackThread.Recording? && c'.ackThread.Tallying?
    ensures ProgressOk(c', msgs, taken)
  {
    hide Stored;
    assert forall j :: IsBlock(msgs, j) && j < taken - 1 ==> Idx(msgs, j) < Idx(msgs, taken - 1);
  }

  lemma AckProgress(cf: Config, c: Client, c': Client, disks: Disks, msgs: seq<Message>, taken: nat, bound: nat)
    requires AckStep(c, c') && ProgressOk(c, msgs, taken) && Ascending(msgs, bound)
    requires AtHand(cf, c, disks, msgs, taken)
    requires c.ackThread.Recording? ==> c'.ackThread.Tallying?
    ensures ProgressOk(c', msgs, taken)
  {
    hide Stored, Ascending;
    if c.ackThread.Recording? {
      RecordProgress(cf, c, c', disks, msgs, taken, bound);
    }
  }

  lemma MsgsAscend(cf: Config, bye: bool, bound: nat, msgs: seq<Message>)
    requires MsgsOk(cf, bye, bound, msgs)
    ensures Ascending(msgs, bound)
  {
  }

  lemma AckKeeps(cf: Config, s: Sys, s': Sys)
    requires Inv(cf, s) && s' == s.(client := s'.client) && AckStep(s.client, s'.client)
    ensures Inv(cf, s')
  {
    var c, c' := s.client, s'.client;
    hide MsgsOk, ServerOk, TablesOk, ThreadsOk, SlotsOk, CountsOk, ProgressOk, Settled, PcOk, DataOk, Ascending;
    var disks, taken, bound := s.server.disks, s.taken, Bound(c.main);
    CallbackFacts(cf, s);
    MsgsAscend(cf, MayHaveSaidBye(c.main), bound, s.msgs);
    AckPosition(cf, c, c', disks, s.msgs, s.server.conn.acks, taken);
    AckTables(cf, c, c', disks, s.msgs, taken, bound);
    AckSlots(cf, c, c', disks, s.msgs, s.holders, taken, bound);
    AckData(cf, c, c', disks, s.msgs, s.holders, taken);
    AckCounts(c, c', s.msgs, taken);
    AckProgress(cf, c, c', disks, s.msgs, taken, bound);
  }

  // -- sending --

  lemma PushSystem(cf: Config, bye: bool, bye': bool, bound: nat, bound': nat, msgs: seq<Message>, msg: Message)
    requires MsgsOk(cf, bye, bound, msgs) && !bye && msgs != [] && bound <= bound'
    requires (msg.Data? && msg.block.blockIndex == bound && bound' == bound + 1 && GoodBlock(cf, msg)) || (msg == Bye(cf.dev) && bye')
    ensures MsgsOk(cf, bye', bound', msgs + [msg])
  {
    var msgs' := msgs + [msg];
    assert forall j :: IsBlock(msgs', j) ==> if j < |msgs| then IsBlock(msgs, j) && Idx(msgs', j) == Idx(msgs, j)
                                             else j == |msgs| && msg.Data? && Idx(msgs', j) == bound;
  }

  lemma PushServer(cf: Config, greeted: bool, sv: Server, msgs: seq<Message>, served: nat, taken: nat, msg: Message)
    requires ServerOk(cf, greeted, sv, msgs, served, taken)
    ensures ServerOk(cf, greeted, sv, msgs + [msg], served, taken)
  {
    hide Stored;
    var msgs', acks := msgs + [msg], sv.conn.acks;
    forall j | IsBlock(msgs', j) && j < served ensures AckFor(cf, sv.disks, msgs', acks, j) {
      assert IsBlock(msgs, j) && AckFor(cf, sv.disks, msgs, acks, j);
    }
  }

  lemma PushTables(cf: Config, bs: seq<B.Block>, disks: Disks, msgs: seq<Message>, recorded: int, bound: nat, bound': nat,
                   msg: Message)
    requires TablesOk(cf, bs, disks, msgs, recorded, bound) && bound <= bound'
    requires msg.Data? ==> msg.block.blockIndex == bound
    ensures TablesOk(cf, bs, disks, msgs + [msg], recorded, bound')
  {
    hide Stored;
    var msgs' := msgs + [msg];
    assert forall j :: IsBlock(msgs', j) ==> if j < |msgs| then IsBlock(msgs, j) && Idx(msgs', j) == Idx(msgs, j)
                                             else j == |msgs| && msg.Data? && Idx(msgs', j) == bound;
  }

  lemma PushProgress(c: Client, c': Client, msgs: seq<Message>, taken: nat, msg: Message)
    requires ProgressOk(c, msgs, taken) && CountsOk(c, msgs, taken) && taken <= |msgs|
    requires c' == c.(main := c'.main) && msg.Data? && msg.block.blockIndex == Bound(c.main)
    ensures ProgressOk(c', msgs + [msg], taken)
  {
    var msgs' := msgs + [msg];
    assert forall j :: IsBlock(msgs', j) ==> if j < |msgs| then IsBlock(msgs, j) && Idx(msgs', j) == Idx(msgs, j)
                                             else j == |msgs| && Idx(msgs', j) == Bound(c.main);
  }

  lemma SendBlockKeeps(cf: Config, s: Sys, s': Sys)
    requires Inv(cf, s) && s.client.main.Work? && Does(cf, s, s', Send)
    ensures Inv(cf, s')
  {
    hide MsgsOk, ServerOk, TablesOk, SlotsOk, CountsOk, ProgressOk, Settled, Ascending;
    var c, i, h, taken := s.client, s.client.main.i, s.client.main.s, s.taken;
    var msg := cf.DataMsg(i, c.slots[h].hash, c.slots[h].compressed);
    assert msg == cf.BlockMsg(i) && s'.msgs == s.msgs + [msg] && s'.holders == s.holders + [h];
    assert GoodBlock(cf, msg) && h < |c.slots|;
    TakenSent(cf, s);
    SlotsSize(cf.window, StanceOf(c.main), c.slots, s.msgs, s.holders, taken - Unfreed(c.ackThread));
    MsgsAscend(cf, false, i, s.msgs);
    PushSystem(cf, false, false, i, i + 1, s.msgs, msg);
    PushServer(cf, true, s.server, s.msgs, s.served, taken, msg);
    PushTables(cf, c.tables.blocks, s.server.disks, s.msgs, taken - Unrecorded(c.ackThread), i, i + 1, msg);
    PushProgress(c, s'.client, s.msgs, taken, msg);
    WindowSend(cf.window, i, h, c.slots, s.msgs, s.holders, taken - Unfreed(c.ackThread), msg);
    SendCounts(c, s'.client, s.msgs, taken, msg);
  }

  lemma SlotsSize(n: nat, st: Stance, w: seq<Slot>, msgs: seq<Message>, holders: seq<nat>, freed: int)
    requires SlotsOk(n, st, w, msgs, holders, freed)
    ensures |w| == n
  {
  }

  lemma SendCounts(c: Client, c': Client, msgs: seq<Message>, taken: nat, msg: Message)
    requires CountsOk(c, msgs, taken) && c.main.Work? && c' == c.(main := Sent(c.main.i, c.main.s, false))
    ensures CountsOk(c', msgs + [msg], taken)
  {
  }

  lemma SendKeeps(cf: Config, s: Sys, s': Sys)
    requires Inv(cf, s) && Does(cf, s, s', Send)
    ensures Inv(cf, s')
  {
    hide Inv;
    if s.client.main.Work? {
      SendBlockKeeps(cf, s, s');
    } else if s.client.main.Greet? {
      SendHelloKeeps(cf, s, s');
    } else {
      SendByeKeeps(cf, s, s');
    }
  }

  lemma SendHelloKeeps(cf: Config, s: Sys, s': Sys)
    requires Inv(cf, s) && s.client.main.Greet? && Does(cf, s, s', Send)
    ensures Inv(cf, s')
  {
    hide ServerOk, TablesOk, SlotsOk, CountsOk, ProgressOk, Settled;
    PushServer(cf, false, s.server, s.msgs, s.served, s.taken, cf.GreetingMsg());
    PushTables(cf, s.client.tables.blocks, s.server.disks, s.msgs, s.taken, 0, 0, cf.GreetingMsg());
  }

  lemma SendByeKeeps(cf: Config, s: Sys, s': Sys)
    requires Inv(cf, s) && s.client.main.Tail? && Does(cf, s, s', Send)
    ensures Inv(cf, s')
  {
    hide ServerOk, TablesOk, SlotsOk, CountsOk, ProgressOk, MsgsOk;
    var c, bye := s.client, Bye(cf.dev);
    PushServer(cf, true, s.server, s.msgs, s.served, s.taken, bye);
    PushTables(cf, c.tables.blocks, s.server.disks, s.msgs, s.taken, Bound(c.main), Bound(c.main), bye);
    PushSystem(cf, false, true, Bound(c.main), Bound(c.main), s.msgs, bye);
  }

  lemma SendFailureKeeps(cf: Config, s: Sys, s': Sys)
    requires Inv(cf, s) && Does(cf, s, s', SendFailure)
    ensures Inv(cf, s')
  {
    var c, c' := s.client, s'.client;
    hide ServerOk, TablesOk, SlotsOk, ProgressOk, Ascending;
    if c.main.Work? {
      MsgsAscend(cf, false, c.main.i, s.msgs);
      WindowDrop(cf.window, c.main.i, false, c.main.s, c.slots, s.msgs, s.holders, s.taken - Unfreed(c.ackThread));
      FailedProgress(c, c', s.msgs, s.taken);
    }
    hide MsgsOk;
  }

  lemma FailedProgress(c: Client, c': Client, msgs: seq<Message>, taken: nat)
    requires ProgressOk(c, msgs, taken) && c'.tables == c.tables && c'.skipped == c.skipped && c'.failed == c.failed
    requires c'.ackThread == c.ackThread
    ensures ProgressOk(c', msgs, taken)
  {
  }

  // -- the server --

  /** Handling the HELLO: one ACK; OK exactly when the device is known and large enough, otherwise
      the connection closes. */
  lemma DispatchHello(cf: Config, sv: Server)
    requires !sv.conn.helloDone
    ensures var r := Dispatch(cf.codec, cf.io, sv, ToFrame(cf.GreetingMsg()));
            && r.disks == sv.disks
            && |r.conn.acks| == |sv.conn.acks| + 1 && sv.conn.acks <= r.conn.acks
            && var accepted := cf.dev in sv.disks && cf.totalSize <= |sv.disks[cf.dev]|;
               && (r.conn.acks[|sv.conn.acks|].status == OK <==> accepted)
               && (accepted ==> r.conn.helloDone && r.conn.open == sv.conn.open)
               && (!accepted ==> !r.conn.open)
  {
    FrameRoundTrip(cf.GreetingMsg());
  }

  /** Handling a block after the HELLO: one ACK, that of the block processor. */
  lemma DispatchBlock(cf: Config, sv: Server, m: Message)
    requires sv.conn.helloDone && m.Data? && Sendable(m)
    ensures var r := Dispatch(cf.codec, cf.io, sv, ToFrame(m));
            var p := Process(cf.codec, sv.disks, m.dataDev, m.block, m.payload, cf.io(sv.conn.blocksReceived));
            && r.disks == p.disks && r.conn.acks == sv.conn.acks + [p.ack]
            && r.conn.open == sv.conn.open && r.conn.helloDone
  {
    FrameRoundTrip(m);
  }

  lemma DispatchBye(cf: Config, sv: Server, dev: u32)
    ensures var r := Dispatch(cf.codec, cf.io, sv, ToFrame(Bye(dev)));
            && r.disks == sv.disks && !r.conn.open && r.conn.helloDone == sv.conn.helloDone
            && |r.conn.acks| == |sv.conn.acks| + 1 && sv.conn.acks <= r.conn.acks
  {
  }

  /** A faithful block message on an accepted connection. */
  ghost predicate Acceptable(cf: Config, disks: Disks, k: u64) {
    && Lawful(cf.codec) && ValidDisks(disks)
    && cf.total == TotalBlocks(cf.totalSize) && k < cf.total && cf.Readable(k)
    && cf.dev in disks && cf.totalSize <= |disks[cf.dev]|
  }

  lemma BlockMsgSendable(cf: Config, k: u64)
    requires Lawful(cf.codec) && cf.totalSize <= 0x8000_0000_0000_0000
    requires cf.total == TotalBlocks(cf.totalSize) && k < cf.total && cf.Readable(k)
    ensures Sendable(cf.BlockMsg(k)) && 0 < cf.Len(k) <= BLOCK_SIZE
    ensures k * BLOCK_SIZE + cf.Len(k) <= cf.totalSize
  {
    BlockFits(cf.totalSize, k);
    assert |cf.codec.compress(cf.BlockBytes(k))| <= 2 * BLOCK_SIZE;
  }

  /** Processing a faithful block: OK or WRITE_ERROR, OK only if it is now stored, and every other
      block's place is left alone. */
  lemma ProcessFaithful(cf: Config, disks: Disks, k: u64, w: WriteOutcome)
    requires Acceptable(cf, disks, k)
    ensures var m := cf.BlockMsg(k);
            var p := Process(cf.codec, disks, cf.dev, m.block, m.payload, w);
            && p.ack.blockIndex == k
            && (p.ack.status == OK || p.ack.status == WRITE_ERROR)
            && (p.ack.status == OK ==> Stored(cf, p.disks, k))
            && ValidDisks(p.disks) && cf.dev in p.disks && |p.disks[cf.dev]| == |disks[cf.dev]|
  {
    var m := cf.BlockMsg(k);
    BlockMsgSendable(cf, k);
    var raw := cf.BlockBytes(k);
    GoodBlockStatus(cf.codec, disks, cf.dev, m.block, raw, w);
    ProcessEchoes(cf.codec, disks, cf.dev, m.block, m.payload, w);
    ProcessFrame(cf.codec, disks, cf.dev, m.block, m.payload, w);
    if w.Complete? {
      StoredByOverwrite(cf, disks, k);
    }
  }

  lemma StoredByOverwrite(cf: Config, disks: Disks, k: u64)
    requires cf.Readable(k) && cf.dev in disks && k * BLOCK_SIZE + cf.Len(k) <= |disks[cf.dev]|
    ensures Stored(cf, disks[cf.dev := Overwrite(disks[cf.dev], k * BLOCK_SIZE, cf.BlockBytes(k))], k)
  {
  }

  /** The images are the same but for block k of the backed-up disk. */
  predicate SameBut(cf: Config, k: u64, a: Disks, b: Disks) {
    && a.Keys == b.Keys
    && (forall d :: d in a ==> |a[d]| == |b[d]| && (d != cf.dev ==> a[d] == b[d]))
    && (cf.dev in a ==>
          forall p :: 0 <= p < |a[cf.dev]| && !(k * BLOCK_SIZE <= p < k * BLOCK_SIZE + cf.Len(k)) ==> a[cf.dev][p] == b[cf.dev][p])
  }

  /** Processing block k, whether or not its write completes, touches nothing but its own place. */
  lemma ProcessStaysInPlace(cf: Config, disks: Disks, k: u64, w: WriteOutcome)
    requires Acceptable(cf, disks, k)
    ensures var m := cf.BlockMsg(k);
            SameBut(cf, k, disks, Process(cf.codec, disks, cf.dev, m.block, m.payload, w).disks)
  {
    hide Process;
    var m := cf.BlockMsg(k);
    BlockMsgSendable(cf, k);
    OffsetIsPlace(k);
    assert OffsetOf(k) == k * BLOCK_SIZE;
    ProcessFrame(cf.codec, disks, cf.dev, m.block, m.payload, w);
    hide OffsetOf, Lawful;
  }

  lemma StaysStored(cf: Config, k: u64, j: u64, a: Disks, b: Disks)
    requires SameBut(cf, k, a, b) && Stored(cf, a, j) && j != k && cf.Len(k) <= BLOCK_SIZE && cf.Len(j) <= BLOCK_SIZE
    ensures Stored(cf, b, j)
  {
    SameBytes(a[cf.dev], b[cf.dev], k * BLOCK_SIZE, cf.Len(k), j * BLOCK_SIZE, cf.Len(j));
  }

  lemma ProcessElsewhere(cf: Config, disks: Disks, k: u64, j: u64, w: WriteOutcome)
    requires Acceptable(cf, disks, k) && Stored(cf, disks, j) && j != k
    ensures var m := cf.BlockMsg(k);
            Stored(cf, Process(cf.codec, disks, cf.dev, m.block, m.payload, w).disks, j)
  {
    hide Process, Stored, SameBut, Lawful;
    var m := cf.BlockMsg(k);
    ProcessStaysInPlace(cf, disks, k, w);
    BlockLenSmall(cf.totalSize, j);
    BlockLenSmall(cf.totalSize, k);
    StaysStored(cf, k, j, disks, Process(cf.codec, disks, cf.dev, m.block, m.payload, w).disks);
  }

  lemma BlockLenSmall(totalSize: u64, k: u64)
    ensures BlockLen(totalSize, k) <= BLOCK_SIZE
  {
  }

  /** A change inside one range leaves a disjoint range alone. */
  lemma SameBytes(a: seq<byte>, b: seq<byte>, at: nat, len: nat, from: nat, n: nat)
    requires |a| == |b| && from + n <= |a| && (from + n <= at || at + len <= from)
    requires forall p :: 0 <= p < |a| && !(at <= p < at + len) ==> b[p] == a[p]
    ensures a[from..from + n] == b[from..from + n]
  {
  }

  lemma ServeBlockServer(cf: Config, sv: Server, sv': Server, msgs: seq<Message>, served: nat, taken: nat, bound: nat)
    requires ServerOk(cf, true, sv, msgs, served, taken) && IsBlock(msgs, served) && sv.conn.open
    requires Lawful(cf.codec) && cf.total == TotalBlocks(cf.totalSize)
    requires GoodBlock(cf, msgs[served]) && Ascending(msgs, bound)
    requires sv' == Dispatch(cf.codec, cf.io, sv, ToFrame(msgs[served]))
    ensures ServerOk(cf, true, sv', msgs, served + 1, taken)
    ensures sv.conn.acks <= sv'.conn.acks
    ensures forall j: u64 :: Stored(cf, sv.disks, j) && j != Idx(msgs, served) ==> Stored(cf, sv'.disks, j)
  {
    hide Dispatch, Process, Stored;
    var k, w := Idx(msgs, served), cf.io(sv.conn.blocksReceived);
    assert Acceptable(cf, sv.disks, k);
    BlockMsgSendable(cf, k);
    DispatchBlock(cf, sv, msgs[served]);
    ProcessFaithful(cf, sv.disks, k, w);
    forall j: u64 | Stored(cf, sv.disks, j) && j != k ensures Stored(cf, sv'.disks, j) {
      ProcessElsewhere(cf, sv.disks, k, j, w);
    }
    hide ValidDisks;
    AcksStayTrue(cf, sv, sv', msgs, served, bound);
    hide AckFor, Acceptable;
  }

  /** Storing block `served` leaves the OKs of the earlier, lower blocks true. */
  lemma AcksStayTrue(cf: Config, sv: Server, sv': Server, msgs: seq<Message>, served: nat, bound: nat)
    requires Ascending(msgs, bound) && IsBlock(msgs, served) && served == |sv.conn.acks| < |sv'.conn.acks|
    requires sv.conn.acks <= sv'.conn.acks && AckFor(cf, sv'.disks, msgs, sv'.conn.acks, served)
    requires forall j :: IsBlock(msgs, j) && j < served ==> AckFor(cf, sv.disks, msgs, sv.conn.acks, j)
    requires forall j: u64 :: Stored(cf, sv.disks, j) && j != Idx(msgs, served) ==> Stored(cf, sv'.disks, j)
    ensures forall j :: IsBlock(msgs, j) && j < served + 1 ==> AckFor(cf, sv'.disks, msgs, sv'.conn.acks, j)
  {
    hide Stored;
    forall j | IsBlock(msgs, j) && j < served ensures AckFor(cf, sv'.disks, msgs, sv'.conn.acks, j) {
      assert AckFor(cf, sv.disks, msgs, sv.conn.acks, j);
      assert Idx(msgs, j) < Idx(msgs, served);
    }
  }

  lemma ServeTables(cf: Config, bs: seq<B.Block>, disks: Disks, disks': Disks, msgs: seq<Message>, recorded: int, bound: nat,
                    served: nat)
    requires TablesOk(cf, bs, disks, msgs, recorded, bound) && IsBlock(msgs, served) && recorded <= served
    requires forall j: u64 :: Stored(cf, disks, j) && j != Idx(msgs, served) ==> Stored(cf, disks', j)
    ensures TablesOk(cf, bs, disks', msgs, recorded, bound)
  {
    hide Stored;
  }

  lemma AcksGrow(m: MainPc, t: AckPc, acks: seq<AckBody>, acks': seq<AckBody>, taken: nat)
    requires ThreadsOk(m, t, acks, taken) && acks <= acks'
    ensures ThreadsOk(m, t, acks', taken)
  {
  }

  lemma ServeOtherServer(cf: Config, greeted: bool, sv: Server, sv': Server, msgs: seq<Message>, served: nat, taken: nat)
    requires ServerOk(cf, greeted, sv, msgs, served, taken) && served < |msgs| && sv.conn.open
    requires if served == 0 then msgs[0] == cf.GreetingMsg() else msgs[served].Bye?
    requires sv' == Dispatch(cf.codec, cf.io, sv, ToFrame(msgs[served]))
    ensures ServerOk(cf, greeted, sv', msgs, served + 1, taken)
    ensures sv.conn.acks <= sv'.conn.acks && sv'.disks == sv.disks
  {
    if served == 0 {
      DispatchHello(cf, sv);
    } else {
      DispatchBye(cf, sv, msgs[served].byeDev);
    }
    hide Stored;
    forall j | IsBlock(msgs, j) && j < served + 1 ensures AckFor(cf, sv'.disks, msgs, sv'.conn.acks, j) {
      assert AckFor(cf, sv.disks, msgs, sv.conn.acks, j);
    }
  }

  lemma MsgAt(cf: Config, bye: bool, bound: nat, msgs: seq<Message>, j: nat)
    requires MsgsOk(cf, bye, bound, msgs) && j < |msgs|
    ensures if IsBlock(msgs, j) then GoodBlock(cf, msgs[j]) && Ascending(msgs, bound)
            else if j == 0 then msgs[0] == cf.GreetingMsg() else msgs[j].Bye?
  {
  }

  lemma ServeKeeps(cf: Config, s: Sys, s': Sys)
    requires Lawful(cf.codec) && cf.total == TotalBlocks(cf.totalSize)
    requires Inv(cf, s) && Does(cf, s, s', Serve)
    ensures Inv(cf, s')
  {
    hide MsgsOk, ServerOk, TablesOk, ThreadsOk, SlotsOk, CountsOk, ProgressOk, Settled, PcOk, DataOk, Dispatch, Ascending, GoodBlock;
    var c, m, bound, served := s.client, s.client.main, Bound(s.client.main), s.served;
    MsgAt(cf, MayHaveSaidBye(m), bound, s.msgs, served);
    if IsBlock(s.msgs, served) {
      BlocksMeanGreeted(cf, m, |s.msgs|);
      ServeBlockServer(cf, s.server, s'.server, s.msgs, served, s.taken, bound);
      TakenSent(cf, s);
      ServeTables(cf, c.tables.blocks, s.server.disks, s'.server.disks, s.msgs, s.taken - Unrecorded(c.ackThread), bound, served);
    } else {
      ServeOtherServer(cf, Greeted(m), s.server, s'.server, s.msgs, served, s.taken);
    }
    AcksGrow(m, c.ackThread, s.server.conn.acks, s'.server.conn.acks, s.taken);
  }

  lemma BlocksMeanGreeted(cf: Config, m: MainPc, n: nat)
    requires PcOk(cf, m, n) && n > 1
    ensures Greeted(m)
  {
  }

  // -- receiving --

  lemma TablesLater(cf: Config, bs: seq<B.Block>, disks: Disks, msgs: seq<Message>, recorded: int, recorded': int, bound: nat)
    requires TablesOk(cf, bs, disks, msgs, recorded, bound) && recorded <= recorded'
    ensures TablesOk(cf, bs, disks, msgs, recorded', bound)
  {
  }

  lemma DeliverServer(cf: Config, s: Sys, greeted: bool)
    requires ServerOk(cf, Greeted(s.client.main), s.server, s.msgs, s.served, s.taken) && s.taken < |s.server.conn.acks|
    requires greeted ==> Greeted(s.client.main) || (s.taken == 0 && s.server.conn.acks[0].status == OK)
    ensures ServerOk(cf, greeted, s.server, s.msgs, s.served, s.taken + 1)
  {
  }

  lemma DeliverCounts(c: Client, c': Client, msgs: seq<Message>, taken: nat)
    requires CountsOk(c, msgs, taken) && ProgressOk(c, msgs, taken) && c.ackThread.Polling?
    requires c'.ackThread.Recording? && c' == c.(ackThread := c'.ackThread)
    ensures CountsOk(c', msgs, taken + 1) && ProgressOk(c', msgs, taken + 1)
  {
  }

  lemma DeliverKeeps(cf: Config, s: Sys, s': Sys)
    requires Inv(cf, s) && Does(cf, s, s', Deliver)
    ensures Inv(cf, s')
  {
    hide Inv;
    if s.client.ackThread.Polling? {
      DeliverToThread(cf, s, s');
    } else {
      DeliverToMain(cf, s, s');
    }
  }

  /** The ACK thread takes an ACK. */
  lemma DeliverToThread(cf: Config, s: Sys, s': Sys)
    requires Inv(cf, s) && Does(cf, s, s', Deliver) && s.client.ackThread.Polling?
    ensures Inv(cf, s')
  {
    var c, c' := s.client, s'.client;
    hide MsgsOk, ServerOk, TablesOk, SlotsOk, CountsOk, ProgressOk, Settled, DataOk, PcOk;
    DeliverServer(cf, s, Greeted(c.main));
    TakenSent(cf, s);
    assert c' == c.(ackThread := Recording(s.server.conn.acks[s.taken]));
    GreetedTook(cf, s);
    DeliverCounts(c, c', s.msgs, s.taken);
  }

  /** The main thread takes the answer to its HELLO or BYE. */
  lemma DeliverToMain(cf: Config, s: Sys, s': Sys)
    requires Inv(cf, s) && Does(cf, s, s', Deliver) && !s.client.ackThread.Polling?
    ensures Inv(cf, s')
  {
    var c, c', m' := s.client, s'.client, s'.client.main;
    hide MsgsOk, ServerOk, TablesOk, SlotsOk, CountsOk, ProgressOk, Settled, DataOk;
    DeliverServer(cf, s, Greeted(m'));
    TakenSent(cf, s);
    TablesLater(cf, c.tables.blocks, s.server.disks, s.msgs, s.taken - Unrecorded(c.ackThread), s.taken + 1, Bound(c.main));
    MsgsWeaken(cf, MayHaveSaidBye(c.main), MayHaveSaidBye(m'), Bound(c.main), Bound(m'), s.msgs);
    NoDataHeld(cf, m', c'.slots);
    if After(m') {
      StillSettled(cf.window, c, c');
    }
  }

  lemma GreetedTook(cf: Config, s: Sys)
    requires ServerOk(cf, true, s.server, s.msgs, s.served, s.taken)
    ensures s.taken >= 1
  {
  }

  lemma StillSettled(window: nat, c: Client, c': Client)
    requires Settled(window, c) && c.main.Tail? && c' == c.(main := Tail(c.main.i, Finished))
    ensures Settled(window, c')
  {
  }

  lemma FailurePosition(cf: Config, c: Client, c': Client, n: nat, acks: seq<AckBody>, taken: nat, alive: bool)
    requires PcOk(cf, c.main, n) && ThreadsOk(c.main, c.ackThread, acks, taken)
    requires Wants(c) && c' == AfterReceiveFailure(c, alive)
    ensures PcOk(cf, c'.main, n) && ThreadsOk(c'.main, c'.ackThread, acks, taken)
    ensures Greeted(c'.main) == Greeted(c.main) && Bound(c'.main) == Bound(c.main) && After(c'.main) == After(c.main)
    ensures MayHaveSaidBye(c'.main) == MayHaveSaidBye(c.main)
    ensures c'.main == c.main || (!Live(c'.main) && !c'.main.Work? && !c.ackThread.Polling?)
    ensures c.ackThread.Polling? ==> c'.main == c.main
    ensures Live(c.main) ==> c.ackThread.Polling?
  {
  }

  lemma FailureSettled(window: nat, c: Client, c': Client, alive: bool)
    requires Wants(c) && After(c.main) && Settled(window, c) && c' == AfterReceiveFailure(c, alive)
    ensures Settled(window, c')
  {
  }

  lemma ReceiveFailureKeeps(cf: Config, s: Sys, s': Sys, alive: bool)
    requires Inv(cf, s) && Does(cf, s, s', ReceiveFailure(alive))
    ensures Inv(cf, s')
  {
    hide Inv;
    if s.client.ackThread.Polling? {
      ThreadFailureKeeps(cf, s, s', alive);
    } else {
      MainFailureKeeps(cf, s, s', alive);
    }
  }

  /** The ACK thread's receive fails: it reports the error and ends. */
  lemma ThreadFailureKeeps(cf: Config, s: Sys, s': Sys, alive: bool)
    requires Inv(cf, s) && Does(cf, s, s', ReceiveFailure(alive)) && s.client.ackThread.Polling?
    ensures Inv(cf, s')
  {
    hide MsgsOk, ServerOk, TablesOk, ThreadsOk, SlotsOk, CountsOk, ProgressOk, Settled, PcOk, DataOk;
    var c, c' := s.client, s'.client;
    FailurePosition(cf, c, c', |s.msgs|, s.server.conn.acks, s.taken, alive);
    StoppedCounts(c, c', s.msgs, s.taken);
    if After(c.main) {
      FailureSettled(cf.window, c, c', alive);
    }
  }

  /** The main thread gets no answer to its HELLO or BYE. */
  lemma MainFailureKeeps(cf: Config, s: Sys, s': Sys, alive: bool)
    requires Inv(cf, s) && Does(cf, s, s', ReceiveFailure(alive)) && !s.client.ackThread.Polling?
    ensures Inv(cf, s')
  {
    hide MsgsOk, ServerOk, TablesOk, ThreadsOk, SlotsOk, CountsOk, ProgressOk, Settled, PcOk, DataOk;
    var c, c' := s.client, s'.client;
    FailurePosition(cf, c, c', |s.msgs|, s.server.conn.acks, s.taken, alive);
    MainFailureShape(c, c', alive);
    hide AfterReceiveFailure, Live, After, Greeted, Bound, MayHaveSaidBye, Wants;
    NoDataHeld(cf, c'.main, c'.slots);
    if After(c.main) {
      FailureSettled(cf.window, c, c', alive);
    }
  }

  lemma MainFailureShape(c: Client, c': Client, alive: bool)
    requires Wants(c) && !c.ackThread.Polling? && c' == AfterReceiveFailure(c, alive)
    ensures c' == c.(main := c'.main, connected := c'.connected)
    ensures !Live(c.main) && !Live(c'.main) && (!After(c.main) ==> c.main.Greet?) && !c'.main.Work?
  {
  }

  lemma StoppedCounts(c: Client, c': Client, msgs: seq<Message>, taken: nat)
    requires c.ackThread.Polling? && c'.ackThread.Exited? && c'.main == c.main
    requires c' == c.(error := c'.error, ackThread := Exited, connected := c'.connected)
    ensures CountsOk(c, msgs, taken) ==> CountsOk(c', msgs, taken)
    ensures ProgressOk(c, msgs, taken) ==> ProgressOk(c', msgs, taken)
  {
  }

  lemma HangupKeeps(cf: Config, s: Sys, s': Sys)
    requires Inv(cf, s) && Does(cf, s, s', Hangup)
    ensures Inv(cf, s')
  {
    hide SlotsOk, MsgsOk, TablesOk, Stored, CountsOk, ProgressOk, Settled;
    assert forall j :: IsBlock(s.msgs, j) && j < s.served ==>
      AckFor(cf, s'.server.disks, s.msgs, s'.server.conn.acks, j) == AckFor(cf, s.server.disks, s.msgs, s.server.conn.acks, j);
  }

  /** Every step of either thread, of the server or of the network keeps the invariant. */
  lemma StepKeeps(cf: Config, s: Sys, s': Sys)
    requires Lawful(cf.codec) && cf.total == TotalBlocks(cf.totalSize)
    requires Inv(cf, s) && NextState(cf, s, s')
    ensures Inv(cf, s')
  {
    hide Inv;
    var a :| Does(cf, s, s', a);
    match a
    case Local =>
      if LoopStep(cf, s.client, s'.client) { LoopKeeps(cf, s, s'); }
      else if EdgeStep(cf, s.client, s'.client) { EdgeKeeps(cf, s, s'); }
      else { AckKeeps(cf, s, s'); }
    case Send => SendKeeps(cf, s, s');
    case SendFailure => SendFailureKeeps(cf, s, s');
    case Serve => ServeKeeps(cf, s, s');
    case Deliver => DeliverKeeps(cf, s, s');
    case ReceiveFailure(alive) => ReceiveFailureKeeps(cf, s, s', alive);
    case Hangup => HangupKeeps(cf, s, s');
  }

  // ---------- what holds in every run ----------

  /** A run of the protocol: it starts in an initial state and moves by steps, or pauses. */
  ghost predicate Run(cf: Config, states: seq<Sys>) {
    && states != [] && Init(cf, states[0])
    && forall n :: 0 <= n < |states| - 1 ==> states[n + 1] == states[n] || NextState(cf, states[n], states[n + 1])
  }

  lemma {:induction false} RunKeeps(cf: Config, states: seq<Sys>, n: nat)
    requires Lawful(cf.codec) && Run(cf, states) && n < |states|
    ensures Inv(cf, states[n]) && cf.total == TotalBlocks(cf.totalSize)
  {
    if n == 0 {
      InitHolds(cf, states[0]);
    } else {
      RunKeeps(cf, states, n - 1);
      hide Inv;
      if states[n] != states[n - 1] {
        StepKeeps(cf, states[n - 1], states[n]);
      }
    }
  }

  /** End-to-end safety: in every state of every run, a block the client holds as acknowledged has
      its exact source bytes on the server's image, at its index times 1 MiB. */
  lemma AcknowledgedMeansStored(cf: Config, states: seq<Sys>, n: nat, k: u64)
    requires Lawful(cf.codec) && Run(cf, states) && n < |states|
    requires var bs := states[n].client.tables.blocks; k < |bs| && bs[k].ack == B.Acknowledged
    ensures var disks := states[n].server.disks;
            && cf.Readable(k) && cf.dev in disks
            && k * BLOCK_SIZE + cf.Len(k) <= |disks[cf.dev]|
            && disks[cf.dev][k * BLOCK_SIZE..k * BLOCK_SIZE + cf.Len(k)]
               == cf.source[k * BLOCK_SIZE..k * BLOCK_SIZE + cf.Len(k)]
  {
    hide MsgsOk, ServerOk, TablesOk, ThreadsOk, SlotsOk, CountsOk, ProgressOk, Settled, PcOk, DataOk, Run;
    RunKeeps(cf, states, n);
    var s := states[n];
    StoredIfAcked(cf, s.client.tables.blocks, s.server.disks, s.msgs, s.taken - Unrecorded(s.client.ackThread), Bound(s.client.main), k);
  }

  lemma StoredIfAcked(cf: Config, bs: seq<B.Block>, disks: Disks, msgs: seq<Message>, recorded: int, bound: nat, k: u64)
    requires TablesOk(cf, bs, disks, msgs, recorded, bound) && k < |bs| && bs[k].ack == B.Acknowledged
    ensures Stored(cf, disks, k)
  {
  }

  /** Every ACK that reaches the callback is that of a block the client sent, never the HELLO's (or
      the BYE's), although those carry block index 0 too. */
  lemma CallbackSeesOnlyBlocks(cf: Config, states: seq<Sys>, n: nat)
    requires Lawful(cf.codec) && Run(cf, states) && n < |states| && InCallback(states[n].client.ackThread)
    ensures var s := states[n];
            && IsBlock(s.msgs, s.taken - 1)
            && s.client.ackThread.ack.blockIndex == Idx(s.msgs, s.taken - 1) < cf.total
            && s.client.ackThread.ack.status in {OK, WRITE_ERROR}
  {
    hide MsgsOk, ServerOk, TablesOk, ThreadsOk, SlotsOk, CountsOk, ProgressOk, Settled, PcOk, DataOk, Run;
    RunKeeps(cf, states, n);
    var s := states[n];
    CallbackFacts(cf, s);
    CallbackStatus(cf, s);
  }

  lemma CallbackStatus(cf: Config, s: Sys)
    requires ServerOk(cf, Greeted(s.client.main), s.server, s.msgs, s.served, s.taken)
    requires ThreadsOk(s.client.main, s.client.ackThread, s.server.conn.acks, s.taken)
    requires InCallback(s.client.ackThread) && IsBlock(s.msgs, s.taken - 1)
    ensures s.client.ackThread.ack.status in {OK, WRITE_ERROR}
  {
    assert AckFor(cf, s.server.disks, s.msgs, s.server.conn.acks, s.taken - 1);
  }

  /** Block j of the channel has been sent and its slot has not been released. */
  predicate Outstanding(s: Sys, j: int) {
    IsBlock(s.msgs, j) && s.taken - Unfreed(s.client.ackThread) <= j
  }

  /** Slot t has just been acquired; its index is not written yet. */
  predicate Acquired(m: MainPc, t: nat) {
    m.Work? && m.w.Filling? && m.s == t
  }

  /** Slot ownership: a block in flight is found by ReleaseSlot in the one slot it was sent from. Any
      other slot showing its index was just acquired and shows its initial 0, past slot 0. */
  lemma SlotOwnership(cf: Config, states: seq<Sys>, n: nat, j: nat)
    requires Lawful(cf.codec) && Run(cf, states) && n < |states|
    requires Live(states[n].client.main) && Outstanding(states[n], j)
    ensures var s, w, k := states[n], states[n].client.slots, Idx(states[n].msgs, j);
            var h := FirstShowing(w, k, 0);
            && |s.holders| == |s.msgs|
            && h == s.holders[j] < |w| == cf.window
            && (forall t :: 0 <= t < |w| && Shows(w[t], k) && t != h ==>
                  Acquired(s.client.main, t) && k == 0 == h)
            && |s.msgs| - (s.taken - Unfreed(s.client.ackThread)) <= cf.window
  {
    RunKeeps(cf, states, n);
    var s, m, w := states[n], states[n].client.main, states[n].client.slots;
    var freed := s.taken - Unfreed(s.client.ackThread);
    ReleaseFindsHolder(cf.window, StanceOf(m), w, s.msgs, s.holders, j, freed);
    OutstandingBounded(cf.window, StanceOf(m), w, s.msgs, s.holders, freed);
    forall t | 0 <= t < |w| && Shows(w[t], Idx(s.msgs, j)) && t != s.holders[j]
      ensures Acquired(m, t) && Idx(s.msgs, j) == 0 == s.holders[j]
    {
      OneOwner(cf.window, StanceOf(m), w, s.msgs, s.holders, j, freed, t);
    }
  }

  /** The in-flight counter: bounded throughout; once the send loop has ended, never negative, and 0
      only when the callback has counted every sent block. */
  lemma InFlightBounds(cf: Config, states: seq<Sys>, n: nat)
    requires Lawful(cf.codec) && Run(cf, states) && n < |states|
    requires Live(states[n].client.main) || After(states[n].client.main)
    ensures var c := states[n].client;
            && -1 <= c.inFlight <= cf.window + 1
            && (c.main.Tail? ==> 0 <= c.inFlight && (c.inFlight == 0 ==> c.acked + c.failed == c.sent))
  {
    RunKeeps(cf, states, n);
    var s := states[n];
    if Live(s.client.main) {
      InFlightRange(cf.window, s.client, s.msgs, s.holders, s.taken);
    }
  }

  lemma ImageIsSource(cf: Config, disks: Disks)
    requires cf.total == TotalBlocks(cf.totalSize) && cf.totalSize <= 0x8000_0000_0000_0000
    requires cf.dev in disks && cf.totalSize <= |disks[cf.dev]|
    requires forall k: u64 :: k < cf.total ==> Stored(cf, disks, k)
    ensures cf.totalSize <= |cf.source|
    ensures disks[cf.dev][..cf.totalSize] == cf.source[..cf.totalSize]
  {
    TotalIsCeiling(cf.totalSize);
    if cf.total > 0 {
      BlockFits(cf.totalSize, cf.total - 1);
      assert Stored(cf, disks, cf.total - 1);
    }
    forall p | 0 <= p < cf.totalSize
      ensures p < |cf.source| && disks[cf.dev][p] == cf.source[p]
    {
      BlocksTile(cf.totalSize, p);
      var k := p / BLOCK_SIZE;
      assert Stored(cf, disks, k);
      var at := k * BLOCK_SIZE;
      assert disks[cf.dev][p] == disks[cf.dev][at..at + cf.Len(k)][p - at];
      assert cf.source[p] == cf.source[at..at + cf.Len(k)][p - at];
    }
  }

  /** Complete run: if the loop was left at the last block and nothing is in flight, every block is
      sent or skipped, and acknowledged or failed; and if nothing failed, the image starts with the
      whole source disk. */
  lemma CompleteRun(cf: Config, states: seq<Sys>, n: nat)
    requires Lawful(cf.codec) && Run(cf, states) && n < |states|
    requires var c := states[n].client; After(c.main) && c.main.i == cf.total && c.inFlight == 0 && c.report.Some?
    ensures var st, disks := states[n].client.report.value, states[n].server.disks;
            && st.sentBlocks + st.skippedBlocks == cf.total
            && st.ackedBlocks + st.failedBlocks == cf.total
            && (st.failedBlocks == 0 ==>
                  && cf.dev in disks && cf.totalSize <= |disks[cf.dev]| && cf.totalSize <= |cf.source|
                  && disks[cf.dev][..cf.totalSize] == cf.source[..cf.totalSize])
  {
    RunKeeps(cf, states, n);
    var s := states[n];
    if s.client.report.value.failedBlocks == 0 {
      var bs := s.client.tables.blocks;
      forall k: u64 | k < cf.total ensures Stored(cf, s.server.disks, k) {
        assert bs[k].ack == B.Acknowledged;
      }
      ImageIsSource(cf, s.server.disks);
    }
  }

  // ---------- what a backup leaves alone ----------

  /** Block k was sent. */
  ghost predicate WasSent(msgs: seq<Message>, k: nat) {
    exists j :: IsBlock(msgs, j) && Idx(msgs, j) == k
  }

  /** From images `a` to images `b`: no device comes or goes, no image changes its size, other devices'
      images are the same, and in the backed-up device's image a byte can only have changed if it is
      below totalSize and in a block that was sent. */
  ghost predicate OnlySentChange(cf: Config, msgs: seq<Message>, a: Disks, b: Disks) {
    && a.Keys == b.Keys
    && (forall d :: d in a ==> |a[d]| == |b[d]| && (d != cf.dev ==> a[d] == b[d]))
    && (cf.dev in a ==>
          forall p :: 0 <= p < |a[cf.dev]| && !(p < cf.totalSize && WasSent(msgs, p / BLOCK_SIZE)) ==> a[cf.dev][p] == b[cf.dev][p])
  }

  lemma SentBlockChanges(cf: Config, msgs: seq<Message>, j: nat, a: Disks, b: Disks)
    requires IsBlock(msgs, j) && SameBut(cf, Idx(msgs, j), a, b)
    requires var k := Idx(msgs, j); cf.Len(k) <= BLOCK_SIZE && k * BLOCK_SIZE + cf.Len(k) <= cf.totalSize
    ensures OnlySentChange(cf, msgs, a, b)
  {
    var k := Idx(msgs, j);
    forall p: nat | k * BLOCK_SIZE <= p < k * BLOCK_SIZE + cf.Len(k) ensures p < cf.totalSize && WasSent(msgs, p / BLOCK_SIZE) {
      assert p / BLOCK_SIZE == k;
    }
  }

  lemma ServeChangesOnlySent(cf: Config, s: Sys, s': Sys)
    requires Lawful(cf.codec) && cf.total == TotalBlocks(cf.totalSize)
    requires Inv(cf, s) && Does(cf, s, s', Serve)
    ensures OnlySentChange(cf, s'.msgs, s.server.disks, s'.server.disks)
  {
    hide MsgsOk, ServerOk, TablesOk, ThreadsOk, SlotsOk, CountsOk, ProgressOk, Settled, PcOk, DataOk, Dispatch, Ascending, GoodBlock, OnlySentChange;
    var m, served := s.client.main, s.served;
    MsgAt(cf, MayHaveSaidBye(m), Bound(m), s.msgs, served);
    if IsBlock(s.msgs, served) {
      BlocksMeanGreeted(cf, m, |s.msgs|);
      ServedBlockChanges(cf, s.server, s'.server, s.msgs, served, s.taken);
    } else {
      OtherServedChanges(cf, s.server, s'.server, s.msgs, served);
    }
  }

  lemma ServedBlockChanges(cf: Config, sv: Server, sv': Server, msgs: seq<Message>, served: nat, taken: nat)
    requires ServerOk(cf, true, sv, msgs, served, taken) && IsBlock(msgs, served)
    requires Lawful(cf.codec) && cf.total == TotalBlocks(cf.totalSize)
    requires GoodBlock(cf, msgs[served]) && sv' == Dispatch(cf.codec, cf.io, sv, ToFrame(msgs[served]))
    ensures OnlySentChange(cf, msgs, sv.disks, sv'.disks)
  {
    hide Dispatch, Process, Stored, OnlySentChange, SameBut;
    var k := Idx(msgs, served);
    assert Acceptable(cf, sv.disks, k);
    BlockMsgSendable(cf, k);
    DispatchBlock(cf, sv, msgs[served]);
    ProcessStaysInPlace(cf, sv.disks, k, cf.io(sv.conn.blocksReceived));
    SentBlockChanges(cf, msgs, served, sv.disks, sv'.disks);
  }

  lemma OtherServedChanges(cf: Config, sv: Server, sv': Server, msgs: seq<Message>, served: nat)
    requires served < |msgs| && !msgs[served].Data? && sv' == Dispatch(cf.codec, cf.io, sv, ToFrame(msgs[served]))
    ensures OnlySentChange(cf, msgs, sv.disks, sv'.disks)
  {
  }

  lemma StepChangesOnlySent(cf: Config, s: Sys, s': Sys)
    requires Lawful(cf.codec) && cf.total == TotalBlocks(cf.totalSize)
    requires Inv(cf, s) && NextState(cf, s, s')
    ensures OnlySentChange(cf, s'.msgs, s.server.disks, s'.server.disks) && s.msgs <= s'.msgs
  {
    hide Inv, LocalStep, Dispatch;
    var a :| Does(cf, s, s', a);
    if a.Serve? {
      ServeChangesOnlySent(cf, s, s');
    }
  }

  lemma ChangesAddUp(cf: Config, msgs: seq<Message>, msgs': seq<Message>, a: Disks, b: Disks, c: Disks)
    requires OnlySentChange(cf, msgs, a, b) && OnlySentChange(cf, msgs', b, c) && msgs <= msgs'
    ensures OnlySentChange(cf, msgs', a, c)
  {
    forall k: nat | WasSent(msgs, k) ensures WasSent(msgs', k) {
      var j :| IsBlock(msgs, j) && Idx(msgs, j) == k;
      assert IsBlock(msgs', j) && Idx(msgs', j) == k;
    }
  }

  /** In every state of every run: other devices' images are what they were at the start, and so is every
      byte of the own image from totalSize on or in a block that was never sent. */
  lemma {:induction false} OnlySentBlocksChange(cf: Config, states: seq<Sys>, n: nat)
    requires Lawful(cf.codec) && Run(cf, states) && n < |states|
    ensures OnlySentChange(cf, states[n].msgs, states[0].server.disks, states[n].server.disks)
  {
    hide OnlySentChange, Inv, Init, NextState, WasSent;
    if n == 0 {
      NothingChanged(cf, states[0].msgs, states[0].server.disks);
    } else {
      OnlySentBlocksChange(cf, states, n - 1);
      RunKeeps(cf, states, n - 1);
      if states[n] == states[n - 1] {
        NothingChanged(cf, states[n].msgs, states[n].server.disks);
      } else {
        StepChangesOnlySent(cf, states[n - 1], states[n]);
      }
      ChangesAddUp(cf, states[n - 1].msgs, states[n].msgs, states[0].server.disks, states[n - 1].server.disks, states[n].server.disks);
    }
  }

  lemma NothingChanged(cf: Config, msgs: seq<Message>, disks: Disks)
    ensures OnlySentChange(cf, msgs, disks, disks)
  {
  }
}
