/** Runs that exist: the bounds of the in-flight counter are reached for every window size, and the
    backup of every readable disk can complete. */
module Reachability {
  import opened Bytes
  import opened Protocol
  import opened BlockProcessor
  import opened ServerModel
  import opened Tiling
  import opened Window
  import opened Pipeline
  import B = BlockState

  /** A path of steps of the protocol. */
  ghost predicate IsPath(cf: Config, path: seq<Sys>) {
    path != [] && forall n :: 0 <= n < |path| - 1 ==> NextState(cf, path[n], path[n + 1])
  }

  /** Some path leads from `o` to `s`. */
  ghost predicate Leads(cf: Config, o: Sys, s: Sys) {
    exists path :: IsPath(cf, path) && path[0] == o && path[|path| - 1] == s
  }

  /** Some run ends in state `s`. */
  ghost predicate Reachable(cf: Config, s: Sys) {
    exists o :: Init(cf, o) && Leads(cf, o, s)
  }

  lemma Stays(cf: Config, o: Sys)
    ensures Leads(cf, o, o)
  {
    assert IsPath(cf, [o]) && [o][|[o]| - 1] == o;
  }

  lemma Moves(cf: Config, o: Sys, s: Sys, s': Sys, a: Action)
    requires Leads(cf, o, s) && Does(cf, s, s', a)
    ensures Leads(cf, o, s')
  {
    hide Does;
    var path :| IsPath(cf, path) && path[0] == o && path[|path| - 1] == s;
    var longer := path + [s'];
    assert NextState(cf, s, s');
    assert IsPath(cf, longer) && longer[0] == o && longer[|longer| - 1] == s';
  }

  lemma MovesLocally(cf: Config, o: Sys, s: Sys, c': Client) returns (s': Sys)
    requires Leads(cf, o, s) && LocalStep(cf, s.client, c')
    ensures s' == s.(client := c') && Leads(cf, o, s')
  {
    hide LocalStep, Leads;
    s' := s.(client := c');
    Moves(cf, o, s, s', Local);
  }

  /** Reachable states are exactly the last states of runs. */
  lemma ReachableByRun(cf: Config, s: Sys) returns (states: seq<Sys>)
    requires Reachable(cf, s)
    ensures Run(cf, states) && states[|states| - 1] == s
  {
    var o :| Init(cf, o) && Leads(cf, o, s);
    states :| IsPath(cf, states) && states[0] == o && states[|states| - 1] == s;
  }

  lemma ReachesOnward(cf: Config, s: Sys, t: Sys)
    requires Reachable(cf, s) && Leads(cf, s, t)
    ensures Reachable(cf, t)
  {
    hide Init, NextState;
    var o :| Init(cf, o) && Leads(cf, o, s);
    var a :| IsPath(cf, a) && a[0] == o && a[|a| - 1] == s;
    var b :| IsPath(cf, b) && b[0] == s && b[|b| - 1] == t;
    var path := a + b[1..];
    forall n | 0 <= n < |path| - 1 ensures NextState(cf, path[n], path[n + 1]) {
      if n >= |a| - 1 {
        assert path[n] == b[n - (|a| - 1)] && path[n + 1] == b[n + 1 - (|a| - 1)];
      }
    }
    assert IsPath(cf, path) && path[0] == o && path[|path| - 1] == t;
  }

  /** The disk to be backed up is known to the server and all of it can be read. */
  ghost predicate Backable(cf: Config, disks: Disks) {
    && Lawful(cf.codec) && ValidDisks(disks)
    && cf.total == TotalBlocks(cf.totalSize) && (forall k: u64 :: k < cf.total ==> cf.Readable(k))
    && cf.dev in disks && cf.totalSize <= |disks[cf.dev]|
  }

  // ---------- the handshake ----------

  predicate Welcomed(cf: Config, s: Sys) {
    && s.server.conn.open && s.server.conn.helloDone
    && s.msgs == [cf.GreetingMsg()] && s.served == 1 && s.taken == 1 && |s.server.conn.acks| == 1
    && s.client.sent == 0 && s.client.skipped == 0 && s.client.failedBlocks == 0
    && s.client.connected
  }

  /** Greeted, both threads running, the main thread at the head of the loop. */
  predicate Started(cf: Config, s: Sys) {
    var c := s.client;
    && Welcomed(cf, s)
    && c.main == Next(0) && c.ackThread == Polling && c.running && !c.error
    && c.slots == FreshSlots(cf.window) && c.inFlight == 0 && c.acked == 0 && c.failed == 0
  }

  /** The initial state with these images. */
  function Start(cf: Config, disks: Disks): Sys {
    var c := Client(Greet(Greeting), NotStarted, false, true, [], 0, 0, 0, false, cf.StartTables(), 0, 0, 0, None);
    Sys(c, Server(FRESH, disks), [], 0, 0, [])
  }

  lemma StartsRuns(cf: Config, disks: Disks)
    requires Backable(cf, disks)
    ensures Init(cf, Start(cf, disks)) && Leads(cf, Start(cf, disks), Start(cf, disks))
  {
    Stays(cf, Start(cf, disks));
  }

  lemma StartReaches(cf: Config, disks: Disks, s: Sys)
    requires Backable(cf, disks) && Leads(cf, Start(cf, disks), s)
    ensures Reachable(cf, s)
  {
    StartsRuns(cf, disks);
    hide Leads, Init;
  }

  lemma SendsGreeting(cf: Config, disks: Disks) returns (s: Sys)
    requires Backable(cf, disks)
    ensures Leads(cf, Start(cf, disks), s) && s.server == Server(FRESH, disks) && s.client.connected
    ensures s.client.main == Greet(AwaitGreeting) && s.client.ackThread == NotStarted
    ensures s.client.sent == 0 && s.client.skipped == 0 && s.client.failedBlocks == 0
    ensures s.msgs == [cf.GreetingMsg()] && s.served == 0 && s.taken == 0
  {
    var s0 := Start(cf, disks);
    StartsRuns(cf, disks);
    hide Leads, Backable;
    s := s0.(client := AfterSend(s0.client), msgs := s0.msgs + [cf.GreetingMsg()], holders := s0.holders + [0]);
    Moves(cf, Start(cf, disks), s0, s, Send);
  }

  lemma ServesGreeting(cf: Config, o: Sys, s: Sys) returns (s': Sys)
    requires Leads(cf, o, s) && s.server.conn.open && !s.server.conn.helloDone && |s.server.conn.acks| == 0
    requires s.msgs == [cf.GreetingMsg()] && s.served == 0
    requires cf.dev in s.server.disks && cf.totalSize <= |s.server.disks[cf.dev]|
    ensures Leads(cf, o, s') && s' == s.(server := s'.server, served := 1) && s'.server.disks == s.server.disks
    ensures s'.server.conn.open && s'.server.conn.helloDone
    ensures |s'.server.conn.acks| == 1 && s'.server.conn.acks[0].status == OK
  {
    hide Leads;
    DispatchHello(cf, s.server);
    hide Dispatch;
    s' := s.(server := Dispatch(cf.codec, cf.io, s.server, ToFrame(s.msgs[0])), served := 1);
    Moves(cf, o, s, s', Serve);
  }

  lemma Greets(cf: Config, disks: Disks) returns (s: Sys)
    requires Backable(cf, disks)
    ensures Leads(cf, Start(cf, disks), s) && Welcomed(cf, s) && s.server.disks == disks
    ensures s.client.main == Greet(Resetting) && s.client.ackThread == NotStarted
  {
    hide Leads;
    var s1 := SendsGreeting(cf, disks);
    hide Backable;
    var s2 := ServesGreeting(cf, Start(cf, disks), s1);
    s := s2.(client := AfterReceive(s2.client, s2.server.conn.acks[0]), taken := 1);
    Moves(cf, Start(cf, disks), s2, s, Deliver);
  }

  lemma Handshake(cf: Config, disks: Disks) returns (s: Sys)
    requires Backable(cf, disks)
    ensures Leads(cf, Start(cf, disks), s) && Started(cf, s) && s.server.disks == disks
  {
    s := Greets(cf, disks);
    hide Leads, Backable;
    var c := s.client;
    var c1 := c.(slots := FreshSlots(cf.window), inFlight := 0, acked := 0, failed := 0, error := false, main := Greet(Opening));
    s := MovesLocally(cf, Start(cf, disks), s, c1);
    s := MovesLocally(cf, Start(cf, disks), s, c1.(running := true, ackThread := Polling, main := Next(0)));
  }

  // ---------- one block out ----------

  predicate CanLoad(cf: Config, c: Client, i: u64) {
    i < cf.total && cf.Readable(i) && c.main == Next(i) && !c.error && FirstFree(c.slots, 0) < |c.slots|
  }

  /** The slot of block i when it goes out. */
  function LoadedSlot(cf: Config, i: u64): Slot
    requires cf.Readable(i)
  {
    Slot(true, i, cf.BlockBytes(i), cf.codec.compress(cf.BlockBytes(i)), cf.codec.sha(cf.BlockBytes(i)))
  }

  /** The client with block i read, hashed and compressed in the lowest free slot. */
  function Loaded(cf: Config, c: Client, i: u64): Client
    requires CanLoad(cf, c, i)
  {
    var f := FirstFree(c.slots, 0);
    c.(slots := c.slots[f := LoadedSlot(cf, i)], tables := B.HashSet(c.tables, i, cf.codec.sha(cf.BlockBytes(i))),
       main := Work(i, f, Sending))
  }

  lemma Acquires(cf: Config, o: Sys, s: Sys, i: u64) returns (s': Sys)
    requires Leads(cf, o, s) && CanLoad(cf, s.client, i)
    ensures Leads(cf, o, s')
    ensures var c := s.client;
            var f := FirstFree(c.slots, 0);
            s' == s.(client := c.(slots := c.slots[f := c.slots[f].(inUse := true, blockIndex := i)], main := Work(i, f, Reading)))
  {
    hide Leads;
    var c := s.client;
    var f := FirstFree(c.slots, 0);
    s' := MovesLocally(cf, o, s, c.(main := Acquiring(i)));
    s' := MovesLocally(cf, o, s', c.(slots := c.slots[f := c.slots[f].(inUse := true)], main := Work(i, f, Filling)));
    var c1 := s'.client;
    s' := MovesLocally(cf, o, s', c1.(slots := c1.slots[f := c1.slots[f].(blockIndex := i)], main := Work(i, f, Reading)));
  }

  lemma Loads(cf: Config, o: Sys, s: Sys, i: u64) returns (s': Sys)
    requires Leads(cf, o, s) && CanLoad(cf, s.client, i)
    ensures Leads(cf, o, s') && s' == s.(client := Loaded(cf, s.client, i))
  {
    s' := Acquires(cf, o, s, i);
    var f := FirstFree(s.client.slots, 0);
    hide Leads, FirstFree;
    var c := s'.client;
    s' := MovesLocally(cf, o, s', c.(slots := c.slots[f := c.slots[f].(data := cf.BlockBytes(i))], main := Work(i, f, Hashing)));
    c := s'.client;
    var h := cf.codec.sha(c.slots[f].data);
    s' := MovesLocally(cf, o, s', c.(slots := c.slots[f := c.slots[f].(hash := h)], tables := B.HashSet(c.tables, i, h),
                                  main := Work(i, f, Compressing)));
    c := s'.client;
    s' := MovesLocally(cf, o, s', c.(slots := c.slots[f := c.slots[f].(compressed := cf.codec.compress(c.slots[f].data))],
                                  main := Work(i, f, Sending)));
  }

  /** Block i is on the channel; the main thread has not counted it yet. */
  lemma Sends(cf: Config, o: Sys, s: Sys, i: u64) returns (s': Sys)
    requires Leads(cf, o, s) && CanLoad(cf, s.client, i)
    ensures Leads(cf, o, s')
    ensures var f := FirstFree(s.client.slots, 0);
            && s'.client == Loaded(cf, s.client, i).(main := Sent(i, f, false))
            && s'.msgs == s.msgs + [cf.BlockMsg(i)] && s'.server == s.server && s'.served == s.served && s'.taken == s.taken
  {
    var s1 := Loads(cf, o, s, i);
    var f := FirstFree(s.client.slots, 0);
    hide Leads, FirstFree;
    assert Outgoing(cf, s1.client) == Some(cf.BlockMsg(i));
    s' := s1.(client := AfterSend(s1.client), msgs := s1.msgs + [cf.BlockMsg(i)], holders := s1.holders + [f]);
    Moves(cf, o, s1, s', Send);
  }

  /** The send is counted and the raw data dropped. */
  lemma Counts(cf: Config, o: Sys, s: Sys, i: u64, f: nat) returns (s': Sys)
    requires Leads(cf, o, s) && i < cf.total && i + 1 < TWO_64
    requires s.client.main == Sent(i, f, false) && f < |s.client.slots|
    ensures Leads(cf, o, s')
    ensures var c := s.client;
            s' == s.(client := c.(sent := c.sent + 1, inFlight := c.inFlight + 1,
                                  slots := c.slots[f := c.slots[f].(data := [])], main := Next(i + 1)))
  {
    hide Leads;
    var c := s.client;
    s' := MovesLocally(cf, o, s, c.(sent := c.sent + 1, inFlight := c.inFlight + 1, main := Sent(i, f, true)));
    c := s'.client;
    s' := MovesLocally(cf, o, s', c.(slots := c.slots[f := c.slots[f].(data := [])], main := Next(i + 1)));
  }

  // ---------- one ACK back ----------

  predicate Accepting(cf: Config, s: Sys) {
    s.server.conn.open && s.server.conn.helloDone
  }

  lemma Answers(cf: Config, sv: Server, k: u64)
    requires sv.conn.helloDone && Backable(cf, sv.disks) && k < cf.total
    ensures var r := Dispatch(cf.codec, cf.io, sv, ToFrame(cf.BlockMsg(k)));
            && r.conn.open == sv.conn.open && r.conn.helloDone && Backable(cf, r.disks)
            && |r.conn.acks| == |sv.conn.acks| + 1 && sv.conn.acks <= r.conn.acks
            && var a := r.conn.acks[|sv.conn.acks|];
               a.blockIndex == k && (cf.io(sv.conn.blocksReceived).Complete? ==> a.status == OK)
  {
    hide Dispatch, Process, Stored;
    BlockMsgSendable(cf, k);
    DispatchBlock(cf, sv, cf.BlockMsg(k));
    var w := cf.io(sv.conn.blocksReceived);
    assert Acceptable(cf, sv.disks, k);
    ProcessFaithful(cf, sv.disks, k, w);
    GoodBlockStatus(cf.codec, sv.disks, cf.dev, cf.BlockMsg(k).block, cf.BlockBytes(k), w);
  }

  /** The server answers the next message, block k. */
  lemma Serves(cf: Config, o: Sys, s: Sys, k: u64) returns (s': Sys)
    requires Leads(cf, o, s) && k < cf.total && Accepting(cf, s) && Backable(cf, s.server.disks)
    requires s.served < |s.msgs| && s.msgs[s.served] == cf.BlockMsg(k)
    ensures Leads(cf, o, s') && Accepting(cf, s') && Backable(cf, s'.server.disks)
    ensures s' == s.(server := s'.server, served := s.served + 1)
    ensures |s'.server.conn.acks| == |s.server.conn.acks| + 1 && s.server.conn.acks <= s'.server.conn.acks
    ensures var a := s'.server.conn.acks[|s.server.conn.acks|];
            a.blockIndex == k && (cf.io(s.server.conn.blocksReceived).Complete? ==> a.status == OK)
  {
    hide Leads, Dispatch;
    Answers(cf, s.server, k);
    hide Backable;
    s' := s.(server := Dispatch(cf.codec, cf.io, s.server, ToFrame(s.msgs[s.served])), served := s.served + 1);
    Moves(cf, o, s, s', Serve);
  }

  /** The client after recording and tallying an ACK and freeing the slot; the counter is still to be lowered. */
  function Freed(c: Client, a: AckBody): Client {
    var ok := a.status == OK;
    c.(tables := B.AckSet(c.tables, a.blockIndex, if ok then B.Acknowledged else B.Rejected),
       acked := if ok then c.acked + 1 else c.acked, failed := if ok then c.failed else c.failed + 1,
       slots := AfterRelease(c.slots, a.blockIndex), ackThread := Lowering(a))
  }

  lemma CallsBack(cf: Config, o: Sys, s: Sys, a: AckBody) returns (s': Sys)
    requires Leads(cf, o, s) && s.client.ackThread == Recording(a)
    requires a.blockIndex != NO_BLOCK && FirstShowing(s.client.slots, a.blockIndex, 0) < |s.client.slots|
    ensures Leads(cf, o, s') && s' == s.(client := Freed(s.client, a))
  {
    hide Leads, FirstShowing, AfterRelease;
    var c, ok := s.client, a.status == OK;
    s' := MovesLocally(cf, o, s, c.(tables := B.AckSet(c.tables, a.blockIndex, if ok then B.Acknowledged else B.Rejected),
                                 ackThread := Tallying(a)));
    c := s'.client;
    s' := MovesLocally(cf, o, s', if ok then c.(acked := c.acked + 1, ackThread := Releasing(a))
                               else c.(failed := c.failed + 1, ackThread := Releasing(a)));
    s' := MovesLocally(cf, o, s', Freed(s.client, a));
  }

  /** The ACK thread takes the next ACK and runs the callback up to the lowering of the counter. */
  lemma Takes(cf: Config, o: Sys, s: Sys, k: u64) returns (s': Sys)
    requires Leads(cf, o, s) && s.client.ackThread == Polling && !MainWants(s.client.main) && !s.client.main.Greet?
    requires s.taken < |s.server.conn.acks| && s.server.conn.acks[s.taken].blockIndex == k
    requires k != NO_BLOCK && FirstShowing(s.client.slots, k, 0) < |s.client.slots|
    ensures Leads(cf, o, s')
    ensures s' == s.(client := Freed(s.client, s.server.conn.acks[s.taken]), taken := s.taken + 1)
  {
    hide Leads, FirstShowing, AfterRelease;
    var a := s.server.conn.acks[s.taken];
    var s1 := s.(client := s.client.(ackThread := Recording(a)), taken := s.taken + 1);
    assert AfterReceive(s.client, a) == s1.client;
    Moves(cf, o, s, s1, Deliver);
    s' := CallsBack(cf, o, s1, a);
  }

  lemma Lowers(cf: Config, o: Sys, s: Sys) returns (s': Sys)
    requires Leads(cf, o, s) && s.client.ackThread.Lowering?
    ensures Leads(cf, o, s')
    ensures s' == s.(client := s.client.(inFlight := s.client.inFlight - 1, ackThread := Polling))
  {
    hide Leads;
    s' := MovesLocally(cf, o, s, s.client.(inFlight := s.client.inFlight - 1, ackThread := Polling));
  }

  // ---------- the bounds of the in-flight counter are reached ----------

  lemma FirstOfFresh(n: nat)
    requires n >= 1
    ensures FirstFree(FreshSlots(n), 0) == 0
  {
  }

  /** For every window and every disk of at least one block, some run has the counter at -1: the ACK of
      the first block overtakes the counting of its send. */
  lemma LowerBoundReached(cf: Config, disks: Disks) returns (s: Sys)
    requires Backable(cf, disks) && cf.window >= 1 && cf.total >= 1
    ensures Reachable(cf, s) && s.client.inFlight == -1
  {
    s := Handshake(cf, disks);
    FirstOfFresh(cf.window);
    assert cf.Readable(0);
    s := Sends(cf, Start(cf, disks), s, 0);
    s := Serves(cf, Start(cf, disks), s, 0);
    assert Shows(s.client.slots[0], 0);
    hide Leads, Backable;
    s := Takes(cf, Start(cf, disks), s, 0);
    s := Lowers(cf, Start(cf, disks), s);
    StartReaches(cf, disks, s);
  }

  /** The first k blocks are out and counted, none is answered, and slot t holds block t. */
  predicate Filled(cf: Config, s: Sys, k: u64) {
    var c := s.client;
    && c.main == Next(k) && c.ackThread == Polling && !c.error && c.inFlight == k
    && |c.slots| == cf.window && k <= cf.window
    && (forall t: u64 :: t < k ==> Shows(c.slots[t], t))
    && (forall t :: k <= t < cf.window ==> !c.slots[t].inUse)
    && Accepting(cf, s) && s.served == 1 && s.taken == 1 && |s.server.conn.acks| == 1
    && |s.msgs| == k + 1 && (k >= 1 ==> cf.Readable(0) && s.msgs[1] == cf.BlockMsg(0))
  }

  lemma FirstFreeIs(w: seq<Slot>, k: nat)
    requires k < |w| && !w[k].inUse && forall t :: 0 <= t < k ==> w[t].inUse
    ensures FirstFree(w, 0) == k
  {
  }

  lemma FillsOneMore(cf: Config, o: Sys, s: Sys, k: u64) returns (s': Sys)
    requires Leads(cf, o, s) && Filled(cf, s, k) && k < cf.window && k < cf.total && cf.Readable(k)
    ensures Leads(cf, o, s') && Filled(cf, s', k + 1) && s'.server == s.server
  {
    hide Leads;
    forall t: nat | t < k ensures s.client.slots[t].inUse {
      assert Shows(s.client.slots[t], t);
    }
    FirstFreeIs(s.client.slots, k);
    var s1 := Sends(cf, o, s, k);
    s' := Counts(cf, o, s1, k, k);
    forall t: u64 | t < k + 1 ensures Shows(s'.client.slots[t], t) {
      assert t < k ==> Shows(s.client.slots[t], t);
    }
  }

  lemma StartedIsFilled(cf: Config, s: Sys)
    requires Started(cf, s)
    ensures Filled(cf, s, 0)
  {
  }

  lemma {:induction false} FillsWindow(cf: Config, disks: Disks, k: u64) returns (s: Sys)
    requires Backable(cf, disks) && k <= cf.window && k <= cf.total
    ensures Leads(cf, Start(cf, disks), s) && Filled(cf, s, k) && s.server.disks == disks
    decreases k
  {
    hide Leads, Filled;
    if k == 0 {
      s := Handshake(cf, disks);
      StartedIsFilled(cf, s);
    } else {
      var s0 := FillsWindow(cf, disks, k - 1);
      assert cf.Readable(k - 1);
      s := FillsOneMore(cf, Start(cf, disks), s0, k - 1);
    }
  }

  /** For every window and every disk with more blocks than that, some run has the counter at the window
      plus 1: a slot is freed, taken and sent from again before the counter is lowered. */
  lemma UpperBoundReached(cf: Config, disks: Disks) returns (s: Sys)
    requires Backable(cf, disks) && 1 <= cf.window < cf.total
    ensures Reachable(cf, s) && s.client.inFlight == cf.window + 1
  {
    var w: u64 := cf.window;
    s := FillsWindow(cf, disks, w);
    assert cf.Readable(w);
    assert Shows(s.client.slots[0], 0);
    s := Serves(cf, Start(cf, disks), s, 0);
    hide Leads, Backable;
    s := Takes(cf, Start(cf, disks), s, 0);
    s := Sends(cf, Start(cf, disks), s, w);
    s := Counts(cf, Start(cf, disks), s, w, 0);
    StartReaches(cf, disks, s);
  }
}
