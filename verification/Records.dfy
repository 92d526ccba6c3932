/** What the client records and sends during a full backup: which hash, status and counter its block table
    holds in every state of every run, what its messages say, and how an error stops it
    (client/BackupEngine.cpp, client/BlockStateManager.cpp). */
module Records {
  import opened Bytes
  import opened Protocol
  import opened BlockProcessor
  import opened ServerModel
  import opened Tiling
  import opened Ownership
  import opened Pipeline
  import opened Network
  import B = BlockState

  // ---------- what the table should say ----------

  /** Block k's entry holds the hash of its source bytes. */
  predicate HashRight(cf: Config, bs: seq<B.Block>, k: u64) {
    k < |bs| && cf.Readable(k) && bs[k].hash == cf.codec.sha(cf.BlockBytes(k))
  }

  /** Block k's entry: its place, the run's version, and a hash that is right or not there yet. */
  predicate EntryOk(cf: Config, bs: seq<B.Block>, k: u64)
    requires k < |bs|
  {
    && bs[k] == B.Block(k, (k * BLOCK_SIZE) % TWO_64, bs[k].hash, cf.prior.nextVersionId, bs[k].ack, true)
    && (HashRight(cf, bs, k) || bs[k].hash == ZeroHash())
  }

  /** The main thread is past recording the hash of the block it is at. */
  predicate Hashed(m: MainPc) {
    (m.Work? && (m.w.Compressing? || m.w.Sending?)) || m.Sent?
  }

  /** Every entry is in order; the block at hand, once hashed, and every block sent have the right hash. */
  ghost predicate HashesOk(cf: Config, m: MainPc, bs: seq<B.Block>, msgs: seq<Message>) {
    && |bs| == cf.total
    && (forall k: u64 :: k < |bs| ==> EntryOk(cf, bs, k))
    && (Hashed(m) ==> HashRight(cf, bs, m.i))
    && (forall j :: IsBlock(msgs, j) ==> HashRight(cf, bs, Idx(msgs, j)))
  }

  /** The window and the counters are in use, or were. */
  predicate Started(m: MainPc) { Live(m) || After(m) }

  /** The ACKs recorded so far are those before this one. */
  function Recorded(c: Client): nat { 1 + c.acked + c.failed + One(c.ackThread.Tallying?) }

  /** How many of the ACKs recorded so far were OK. */
  function RecordedOks(c: Client): nat { c.acked + One(c.ackThread.Tallying? && c.ackThread.ack.status == OK) }

  function StatusFor(a: AckBody): B.AckStatus { if a.status == OK then B.Acknowledged else B.Rejected }

  /** Block k was sent, and its ACK is among the first `recorded`. */
  ghost predicate RecordedAt(msgs: seq<Message>, recorded: int, k: int) {
    exists j :: IsBlock(msgs, j) && j < recorded && Idx(msgs, j) == k
  }

  /** A block whose ACK was recorded has the status its ACK calls for; every other block is pending. */
  ghost predicate StatusesOk(c: Client, msgs: seq<Message>, acks: seq<AckBody>) {
    var bs := c.tables.blocks;
    && (Started(c.main) ==> Recorded(c) <= |acks|)
    && (Started(c.main) ==> forall j :: IsBlock(msgs, j) && j < Recorded(c) && j < |acks| && Idx(msgs, j) < |bs| ==>
          bs[Idx(msgs, j)].ack == StatusFor(acks[j]))
    && (forall k :: 0 <= k < |bs| && bs[k].ack != B.Pending ==> Started(c.main) && RecordedAt(msgs, Recorded(c), k))
  }

  /** The tables are those the backup started from but for the blocks and the new version's counter,
      which counts the acknowledged blocks. */
  ghost predicate CounterOk(cf: Config, c: Client) {
    var v, n := cf.prior.nextVersionId, B.CountAcked(c.tables.blocks, cf.prior.nextVersionId);
    && c.tables == B.Tables(c.tables.blocks, cf.prior.versions[v := B.Version(v, "FULL", cf.total, cf.totalSize, cf.total, n)],
                            v + 1, cf.total)
    && (Started(c.main) ==> n == RecordedOks(c))
  }

  ghost predicate TableOk(cf: Config, s: Sys) {
    && HashesOk(cf, s.client.main, s.client.tables.blocks, s.msgs)
    && StatusesOk(s.client, s.msgs, s.server.conn.acks)
    && CounterOk(cf, s.client)
  }

  // ---------- what a step does to the table ----------

  /** The table stays as it is. */
  ghost predicate Quiet(c: Client, c': Client) {
    && c'.tables == c.tables
    && (Hashed(c'.main) ==> Hashed(c.main) && c'.main.i == c.main.i)
    && if Started(c.main) then Started(c'.main) && Recorded(c') == Recorded(c) && RecordedOks(c') == RecordedOks(c)
       else Started(c'.main) ==> Recorded(c') == 1 && RecordedOks(c') == 0
  }

  /** The main thread records the hash of the block it is at. */
  ghost predicate RecordsHash(cf: Config, c: Client, c': Client) {
    && c.main.Work? && c'.main.Work? && c'.main.i == c.main.i < cf.total && cf.Readable(c.main.i)
    && c'.tables == B.HashSet(c.tables, c.main.i, cf.codec.sha(cf.BlockBytes(c.main.i)))
    && Started(c.main) && Started(c'.main) && Recorded(c') == Recorded(c) && RecordedOks(c') == RecordedOks(c)
  }

  /** The ACK thread records the next ACK. */
  ghost predicate RecordsAck(c: Client, c': Client, msgs: seq<Message>, acks: seq<AckBody>) {
    var j := Recorded(c);
    && Started(c.main) && c'.main == c.main
    && IsBlock(msgs, j) && j < |acks| && Idx(msgs, j) < |c.tables.blocks| && c.tables.blocks[Idx(msgs, j)].ack == B.Pending
    && c'.tables == B.AckSet(c.tables, Idx(msgs, j), StatusFor(acks[j]))
    && Recorded(c') == j + 1 && RecordedOks(c') == RecordedOks(c) + One(acks[j].status == OK)
  }

  /** What a step adds to the channels: at most one message, which is the block at hand if it is one. */
  ghost predicate ChannelsGrow(s: Sys, s': Sys) {
    && s.msgs <= s'.msgs && |s'.msgs| <= |s.msgs| + 1
    && s.server.conn.acks <= s'.server.conn.acks
    && (IsBlock(s'.msgs, |s.msgs|) ==> Hashed(s.client.main) && Idx(s'.msgs, |s.msgs|) == s.client.main.i)
  }

  ghost predicate TableMoves(cf: Config, s: Sys, s': Sys) {
    var c, c' := s.client, s'.client;
    && ChannelsGrow(s, s')
    && (Started(c'.main) ==> |s'.server.conn.acks| >= 1)
    && (Quiet(c, c') || RecordsHash(cf, c, c') || RecordsAck(c, c', s.msgs, s.server.conn.acks))
  }

  lemma WorkMoves(cf: Config, c: Client, c': Client, i: u64, h: nat, w: WorkStage)
    requires c.main == Work(i, h, w) && h < |c.slots| && i < cf.total && WorkStep(cf, c, c', i, h, w)
    requires DataOk(cf, c.main, c.slots)
    ensures Quiet(c, c') || RecordsHash(cf, c, c')
  {
  }

  lemma LoopMoves(cf: Config, c: Client, c': Client)
    requires LoopStep(cf, c, c') && DataOk(cf, c.main, c.slots)
    ensures Quiet(c, c') || RecordsHash(cf, c, c')
  {
    hide WorkStep, DataOk, RecordsHash;
    if c.main.Work? {
      WorkMoves(cf, c, c', c.main.i, c.main.s, c.main.w);
    }
  }

  lemma EdgeMoves(cf: Config, c: Client, c': Client, n: nat, acks: seq<AckBody>, taken: nat)
    requires EdgeStep(cf, c, c') && PcOk(cf, c.main, n) && ThreadsOk(c.main, c.ackThread, acks, taken)
    ensures Quiet(c, c')
  {
  }

  /** The ACK about to be recorded is the next one, that of a pending block. */
  ghost predicate NextAck(c: Client, msgs: seq<Message>, acks: seq<AckBody>) {
    var j := Recorded(c);
    && Live(c.main) && IsBlock(msgs, j) && j < |acks| && c.ackThread == Recording(acks[j])
    && acks[j].blockIndex == Idx(msgs, j) < |c.tables.blocks| < TWO_64
    && c.tables.blocks[Idx(msgs, j)].ack == B.Pending
  }

  lemma CallbackHasNext(cf: Config, s: Sys)
    requires Inv(cf, s) && s.client.ackThread.Recording?
    ensures NextAck(s.client, s.msgs, s.server.conn.acks)
  {
    hide MsgsOk, ServerOk, SlotsOk, ProgressOk, Settled, PcOk, DataOk, Stored;
    CallbackFacts(cf, s);
  }

  lemma AckMoves(c: Client, c': Client, msgs: seq<Message>, acks: seq<AckBody>)
    requires AckStep(c, c')
    requires c.ackThread.Recording? ==> NextAck(c, msgs, acks)
    ensures Quiet(c, c') || RecordsAck(c, c', msgs, acks)
  {
    hide B.AckSet;
  }

  lemma SendMoves(cf: Config, c: Client, c': Client)
    requires Outgoing(cf, c).Some? && c' == AfterSend(c)
    ensures Quiet(c, c') && (Outgoing(cf, c).value.Data? ==> Hashed(c.main) && Outgoing(cf, c).value.block.blockIndex == c.main.i)
  {
  }

  lemma SendFailureMoves(cf: Config, c: Client)
    requires Outgoing(cf, c.(connected := true)).Some?
    ensures Quiet(c, AfterSendFailure(c))
  {
  }

  lemma ReceiveMoves(c: Client, a: AckBody)
    requires Wants(c)
    ensures Quiet(c, AfterReceive(c, a))
  {
  }

  lemma ReceiveFailureMoves(c: Client, alive: bool)
    requires Wants(c)
    ensures Quiet(c, AfterReceiveFailure(c, alive))
  {
  }

  /** What every step leaves of the channels, beside what it does to the table. */
  lemma StepMoves(cf: Config, s: Sys, s': Sys)
    requires Lawful(cf.codec) && cf.total == TotalBlocks(cf.totalSize)
    requires Inv(cf, s) && NextState(cf, s, s')
    ensures TableMoves(cf, s, s')
  {
    hide Inv, LocalStep, LoopStep, EdgeStep, AckStep, Dispatch, AfterSend, AfterSendFailure, AfterReceive, AfterReceiveFailure;
    hide Quiet, RecordsHash, RecordsAck, Outgoing, Wants, Started;
    StepKeeps(cf, s, s');
    StartedIsGreeted(cf, s');
    var c, c' := s.client, s'.client;
    var a :| Does(cf, s, s', a);
    match a
    case Local => LocalMoves(cf, s, c');
    case Send => SendMoves(cf, c, c');
    case SendFailure => SendFailureMoves(cf, c);
    case Serve =>
      AcksOnlyGrow(cf, s, s');
      NothingMoves(c);
    case Deliver => ReceiveMoves(c, s.server.conn.acks[s.taken]);
    case ReceiveFailure(alive) => ReceiveFailureMoves(c, alive);
    case Hangup => NothingMoves(c);
  }

  lemma NothingMoves(c: Client)
    ensures Quiet(c, c)
  {
  }

  lemma LocalMoves(cf: Config, s: Sys, c': Client)
    requires Inv(cf, s) && LocalStep(cf, s.client, c')
    ensures Quiet(s.client, c') || RecordsHash(cf, s.client, c') || RecordsAck(s.client, c', s.msgs, s.server.conn.acks)
  {
    hide Quiet, RecordsHash, RecordsAck, LoopStep, EdgeStep, AckStep, Inv, NextAck;
    var c := s.client;
    PartsOfInv(cf, s);
    if LoopStep(cf, c, c') {
      LoopMoves(cf, c, c');
    } else if EdgeStep(cf, c, c') {
      EdgeMoves(cf, c, c', |s.msgs|, s.server.conn.acks, s.taken);
    } else {
      if c.ackThread.Recording? {
        CallbackHasNext(cf, s);
      }
      AckMoves(c, c', s.msgs, s.server.conn.acks);
    }
  }

  lemma PartsOfInv(cf: Config, s: Sys)
    requires Inv(cf, s)
    ensures DataOk(cf, s.client.main, s.client.slots) && PcOk(cf, s.client.main, |s.msgs|)
    ensures ThreadsOk(s.client.main, s.client.ackThread, s.server.conn.acks, s.taken)
    ensures ServerOk(cf, Greeted(s.client.main), s.server, s.msgs, s.served, s.taken)
  {
    hide MsgsOk, ServerOk, TablesOk, ThreadsOk, SlotsOk, CountsOk, ProgressOk, Settled, PcOk, DataOk;
  }

  lemma StartedIsGreeted(cf: Config, s: Sys)
    requires Inv(cf, s)
    ensures Started(s.client.main) ==> |s.server.conn.acks| >= 1
  {
    PartsOfInv(cf, s);
    hide Inv, DataOk, ThreadsOk;
  }

  // ---------- every step keeps the table right ----------

  /** A block added to the channel is the block at hand. */
  lemma BlocksOfGrown(s: Sys, s': Sys, j: int)
    requires ChannelsGrow(s, s') && IsBlock(s'.msgs, j)
    ensures if IsBlock(s.msgs, j) then Idx(s'.msgs, j) == Idx(s.msgs, j)
            else j == |s.msgs| && Hashed(s.client.main) && Idx(s'.msgs, j) == s.client.main.i
  {
  }

  /** From `bs` to `bs'` only hashes may have changed, and only to right ones, or statuses. */
  ghost predicate EntriesStay(cf: Config, bs: seq<B.Block>, bs': seq<B.Block>) {
    && |bs'| == |bs|
    && forall k: u64 :: k < |bs| ==>
         || bs'[k] == bs[k].(ack := bs'[k].ack)
         || (bs'[k] == bs[k].(hash := bs'[k].hash) && HashRight(cf, bs', k))
  }

  lemma MovesEntries(cf: Config, s: Sys, s': Sys)
    requires TableMoves(cf, s, s')
    ensures EntriesStay(cf, s.client.tables.blocks, s'.client.tables.blocks)
  {
    hide StatusFor, ChannelsGrow, Started, Hashed;
  }

  lemma StayRight(cf: Config, bs: seq<B.Block>, bs': seq<B.Block>, k: u64)
    requires EntriesStay(cf, bs, bs')
    ensures HashRight(cf, bs, k) ==> HashRight(cf, bs', k)
    ensures k < |bs| && EntryOk(cf, bs, k) ==> EntryOk(cf, bs', k)
  {
  }

  lemma HashesKeep(cf: Config, s: Sys, s': Sys)
    requires HashesOk(cf, s.client.main, s.client.tables.blocks, s.msgs) && TableMoves(cf, s, s')
    ensures HashesOk(cf, s'.client.main, s'.client.tables.blocks, s'.msgs)
  {
    var m, m', bs, bs' := s.client.main, s'.client.main, s.client.tables.blocks, s'.client.tables.blocks;
    MovesEntries(cf, s, s');
    assert Hashed(m') ==> HashRight(cf, bs', m'.i) by {
      HandHashKeeps(cf, s, s');
    }
    hide EntriesStay, EntryOk, HashRight, Quiet, RecordsHash, RecordsAck, ChannelsGrow, Started, Hashed;
    forall k: u64 | k < |bs'| ensures EntryOk(cf, bs', k) {
      StayRight(cf, bs, bs', k);
    }
    forall j | IsBlock(s'.msgs, j) ensures HashRight(cf, bs', Idx(s'.msgs, j)) {
      BlocksOfGrown(s, s', j);
      StayRight(cf, bs, bs', Idx(s'.msgs, j));
    }
  }

  lemma HandHashKeeps(cf: Config, s: Sys, s': Sys)
    requires HashesOk(cf, s.client.main, s.client.tables.blocks, s.msgs) && TableMoves(cf, s, s')
    ensures Hashed(s'.client.main) ==> HashRight(cf, s'.client.tables.blocks, s'.client.main.i)
  {
    hide EntryOk, ChannelsGrow, Started;
    MovesEntries(cf, s, s');
    if Hashed(s'.client.main) && !RecordsHash(cf, s.client, s'.client) {
      StayRight(cf, s.client.tables.blocks, s'.client.tables.blocks, s'.client.main.i);
    }
  }

  /** A block recorded on a shorter channel is recorded on a longer one. */
  lemma RecordedLater(msgs: seq<Message>, msgs': seq<Message>, recorded: int, recorded': int, k: int)
    requires RecordedAt(msgs, recorded, k) && msgs <= msgs' && recorded <= recorded'
    ensures RecordedAt(msgs', recorded', k)
  {
    var j :| IsBlock(msgs, j) && j < recorded && Idx(msgs, j) == k;
    assert IsBlock(msgs', j) && Idx(msgs', j) == k;
  }

  /** No ACK is recorded: the statuses stay, whatever arrives on the channels. */
  lemma SameStatusesKeep(s: Sys, s': Sys)
    requires StatusesOk(s.client, s.msgs, s.server.conn.acks) && ChannelsGrow(s, s')
    requires |s.server.conn.acks| <= |s.msgs| && (Started(s'.client.main) ==> |s'.server.conn.acks| >= 1)
    requires var bs, bs' := s.client.tables.blocks, s'.client.tables.blocks;
             |bs'| == |bs| && forall k :: 0 <= k < |bs| ==> bs'[k].ack == bs[k].ack
    requires if Started(s.client.main) then Started(s'.client.main) && Recorded(s'.client) == Recorded(s.client)
             else Started(s'.client.main) ==> Recorded(s'.client) == 1
    ensures StatusesOk(s'.client, s'.msgs, s'.server.conn.acks)
  {
    hide Started, Hashed, StatusFor, RecordedAt, Recorded;
    var bs, n := s.client.tables.blocks, Recorded(s'.client);
    forall k | 0 <= k < |bs| && bs[k].ack != B.Pending ensures RecordedAt(s'.msgs, n, k) {
      RecordedLater(s.msgs, s'.msgs, Recorded(s.client), n, k);
    }
  }

  lemma AckStatusesKeep(s: Sys, s': Sys, bound: nat)
    requires StatusesOk(s.client, s.msgs, s.server.conn.acks) && ChannelsGrow(s, s')
    requires |s.server.conn.acks| <= |s.msgs| && Ascending(s.msgs, bound)
    requires RecordsAck(s.client, s'.client, s.msgs, s.server.conn.acks)
    ensures StatusesOk(s'.client, s'.msgs, s'.server.conn.acks)
  {
    hide Started, Hashed, StatusFor, RecordedAt, Recorded, RecordedOks;
    var bs, bs', msgs', acks', j := s.client.tables.blocks, s'.client.tables.blocks, s'.msgs, s'.server.conn.acks, Recorded(s.client);
    var k := Idx(s.msgs, j);
    assert bs' == bs[k := bs[k].(ack := StatusFor(acks'[j]))];
    forall i | IsBlock(msgs', i) && i < j + 1 && i < |acks'| && Idx(msgs', i) < |bs'|
      ensures bs'[Idx(msgs', i)].ack == StatusFor(acks'[i])
    {
      assert IsBlock(s.msgs, i) && Idx(msgs', i) == Idx(s.msgs, i);
      if i < j { assert Idx(s.msgs, i) < k; }
    }
    forall i | 0 <= i < |bs'| && bs'[i].ack != B.Pending ensures RecordedAt(msgs', j + 1, i) {
      if i == k {
        JustRecorded(msgs', j);
      } else {
        RecordedLater(s.msgs, msgs', j, j + 1, i);
      }
    }
  }

  lemma JustRecorded(msgs: seq<Message>, j: int)
    requires IsBlock(msgs, j)
    ensures RecordedAt(msgs, j + 1, Idx(msgs, j))
  {
  }

  lemma StatusesKeep(cf: Config, s: Sys, s': Sys)
    requires StatusesOk(s.client, s.msgs, s.server.conn.acks) && TableMoves(cf, s, s')
    requires |s.server.conn.acks| <= |s.msgs| && Ascending(s.msgs, Bound(s.client.main))
    ensures StatusesOk(s'.client, s'.msgs, s'.server.conn.acks)
  {
    hide StatusesOk, Ascending, ChannelsGrow, Bound, Hashed;
    if RecordsAck(s.client, s'.client, s.msgs, s.server.conn.acks) {
      AckStatusesKeep(s, s', Bound(s.client.main));
    } else {
      SameStatusesKeep(s, s');
    }
  }

  // ---------- the counter ----------

  lemma CounterKeeps(cf: Config, s: Sys, s': Sys)
    requires CounterOk(cf, s.client) && TableMoves(cf, s, s')
    requires forall k :: 0 <= k < |s.client.tables.blocks| ==> s.client.tables.blocks[k].versionId == cf.prior.nextVersionId
    requires !Started(s.client.main) ==> forall k :: 0 <= k < |s.client.tables.blocks| ==> s.client.tables.blocks[k].ack == B.Pending
    ensures CounterOk(cf, s'.client)
  {
    hide ChannelsGrow, Hashed, Started, Recorded, RecordedOks;
    var c, c', v := s.client, s'.client, cf.prior.nextVersionId;
    var bs := c.tables.blocks;
    if RecordsAck(c, c', s.msgs, s.server.conn.acks) {
      var k := Idx(s.msgs, Recorded(c));
      B.CountAckedUpdate(bs, v, k, c'.tables.blocks[k]);
    } else if RecordsHash(cf, c, c') {
      if c.main.i < |bs| {
        B.CountAckedUpdate(bs, v, c.main.i, c'.tables.blocks[c.main.i]);
      }
    } else {
      B.CountAckedZero(bs, v);
    }
  }

  lemma TableKeeps(cf: Config, s: Sys, s': Sys)
    requires Lawful(cf.codec) && cf.total == TotalBlocks(cf.totalSize)
    requires Inv(cf, s) && TableOk(cf, s) && NextState(cf, s, s')
    ensures TableOk(cf, s')
  {
    StepMoves(cf, s, s');
    InvTurn(cf, s);
    InvAscends(cf, s);
    hide Inv, TableMoves, Ascending;
    HashesKeep(cf, s, s');
    StatusesKeep(cf, s, s');
    hide HashRight;
    forall k | 0 <= k < |s.client.tables.blocks| ensures s.client.tables.blocks[k].versionId == cf.prior.nextVersionId {
      assert EntryOk(cf, s.client.tables.blocks, k);
    }
    CounterKeeps(cf, s, s');
  }

  lemma InvAscends(cf: Config, s: Sys)
    requires Inv(cf, s)
    ensures Ascending(s.msgs, Bound(s.client.main))
  {
    hide ServerOk, TablesOk, ThreadsOk, SlotsOk, CountsOk, ProgressOk, Settled, PcOk, DataOk;
  }

  /** A block of the table the backup starts from. */
  lemma StartEntry(cf: Config, k: u64)
    requires k < cf.total
    ensures var bs := cf.StartTables().blocks;
            |bs| == cf.total && bs[k].ack == B.Pending && EntryOk(cf, bs, k)
  {
    assert cf.StartTables().blocks[k] == B.FullBlock(k, cf.prior.nextVersionId, []);
    hide HashRight;
  }

  lemma InitTable(cf: Config, s: Sys)
    requires Init(cf, s)
    ensures TableOk(cf, s)
  {
    var bs, v := s.client.tables.blocks, cf.prior.nextVersionId;
    hide EntryOk, HashRight, RecordedAt, B.FullBlocks;
    assert |bs| == cf.total;
    forall k: u64 | k < cf.total ensures EntryOk(cf, bs, k) && bs[k].ack == B.Pending {
      StartEntry(cf, k);
    }
    assert forall k :: 0 <= k < |bs| ==> bs[k].ack == B.Pending;
    assert HashesOk(cf, s.client.main, bs, s.msgs);
    assert StatusesOk(s.client, s.msgs, s.server.conn.acks);
    B.CountAckedZero(bs, v);
    assert CounterOk(cf, s.client);
  }

  lemma {:induction false} RunTable(cf: Config, states: seq<Sys>, n: nat)
    requires Lawful(cf.codec) && Run(cf, states) && n < |states|
    ensures TableOk(cf, states[n])
  {
    hide Inv, TableOk, NextState, Init;
    if n == 0 {
      InitTable(cf, states[0]);
    } else {
      RunTable(cf, states, n - 1);
      RunKeeps(cf, states, n - 1);
      if states[n] != states[n - 1] {
        TableKeeps(cf, states[n - 1], states[n]);
      }
    }
  }

  // ---------- what holds in every run ----------

  /** In every state of every run, every block that was sent has the SHA-256 of its source bytes in the table. */
  lemma SentMeansHashed(cf: Config, states: seq<Sys>, n: nat, j: nat)
    requires Lawful(cf.codec) && Run(cf, states) && n < |states| && IsBlock(states[n].msgs, j)
    ensures var bs, k := states[n].client.tables.blocks, Idx(states[n].msgs, j);
            && k < |bs| && cf.Readable(k)
            && bs[k].hash == cf.codec.sha(cf.source[k * BLOCK_SIZE..k * BLOCK_SIZE + cf.Len(k)])
  {
    hide Run, StatusesOk, CounterOk, EntryOk;
    RunTable(cf, states, n);
    assert HashRight(cf, states[n].client.tables.blocks, Idx(states[n].msgs, j));
  }

  /** In every state of every run, block k's entry shows its index, its offset, the run's version, and the
      SHA-256 of its source bytes or zeros. */
  lemma EntryIsInOrder(cf: Config, states: seq<Sys>, n: nat, k: u64)
    requires Lawful(cf.codec) && Run(cf, states) && n < |states| && k < cf.total
    ensures var bs := states[n].client.tables.blocks;
            && |bs| == cf.total && bs[k].blockIndex == k && bs[k].offset == (k * BLOCK_SIZE) % TWO_64
            && bs[k].versionId == cf.prior.nextVersionId && bs[k].changed
            && (bs[k].hash == ZeroHash()
                || (cf.Readable(k) && bs[k].hash == cf.codec.sha(cf.source[k * BLOCK_SIZE..k * BLOCK_SIZE + cf.Len(k)])))
  {
    hide Run, StatusesOk, CounterOk;
    RunTable(cf, states, n);
    assert EntryOk(cf, states[n].client.tables.blocks, k);
  }

  /** In every state of every run, the statuses are exactly what the recorded ACKs say: a block sent as
      message j is pending until ACK j is recorded, then acknowledged or rejected as that ACK was OK or
      not; a block that was not sent is pending. */
  lemma StatusIsExact(cf: Config, states: seq<Sys>, n: nat)
    requires Lawful(cf.codec) && Run(cf, states) && n < |states|
    ensures var c, msgs, acks := states[n].client, states[n].msgs, states[n].server.conn.acks;
            var bs := c.tables.blocks;
            && |bs| == cf.total
            && (forall j :: IsBlock(msgs, j) ==>
                  && Idx(msgs, j) < |bs| && (j < Recorded(c) ==> j < |acks|)
                  && bs[Idx(msgs, j)].ack == if j >= Recorded(c) then B.Pending
                                             else if acks[j].status == OK then B.Acknowledged else B.Rejected)
            && (forall k :: 0 <= k < |bs| && !WasSent(msgs, k) ==> bs[k].ack == B.Pending)
  {
    hide Run, CounterOk, EntryOk, Recorded, Inv;
    RunTable(cf, states, n);
    RunKeeps(cf, states, n);
    InvAscends(cf, states[n]);
    var s := states[n];
    var c, msgs, bs := s.client, s.msgs, s.client.tables.blocks;
    forall j | IsBlock(msgs, j)
      ensures Idx(msgs, j) < |bs| && Started(c.main) && (j >= Recorded(c) ==> bs[Idx(msgs, j)].ack == B.Pending)
    {
      assert HashRight(cf, bs, Idx(msgs, j));
      BlocksMeanStarted(cf, s);
      if j >= Recorded(c) && bs[Idx(msgs, j)].ack != B.Pending {
        RecordedIsBefore(msgs, Recorded(c), j, Bound(c.main));
        assert false;
      }
    }
    forall k | 0 <= k < |bs| && !WasSent(msgs, k) ensures bs[k].ack == B.Pending {
      if bs[k].ack != B.Pending {
        RecordedWasSent(msgs, Recorded(c), k);
        assert false;
      }
    }
  }

  lemma BlocksMeanStarted(cf: Config, s: Sys)
    requires Inv(cf, s) && |s.msgs| > 1
    ensures Started(s.client.main)
  {
    PartsOfInv(cf, s);
    hide Inv, ThreadsOk, ServerOk, DataOk;
  }

  lemma RecordedIsBefore(msgs: seq<Message>, recorded: int, j: int, bound: nat)
    requires IsBlock(msgs, j) && RecordedAt(msgs, recorded, Idx(msgs, j)) && Ascending(msgs, bound)
    ensures j < recorded
  {
  }

  lemma RecordedWasSent(msgs: seq<Message>, recorded: int, k: nat)
    requires RecordedAt(msgs, recorded, k)
    ensures WasSent(msgs, k)
  {
  }

  /** In every state of every run, the new version's counter is the number of acknowledged blocks, and
      nothing else of the tables the backup started from has changed. */
  lemma CounterIsExact(cf: Config, states: seq<Sys>, n: nat)
    requires Lawful(cf.codec) && Run(cf, states) && n < |states|
    ensures var c, v := states[n].client, cf.prior.nextVersionId;
            var acked := B.CountAcked(c.tables.blocks, v);
            && c.tables.versions == cf.prior.versions[v := B.Version(v, "FULL", cf.total, cf.totalSize, cf.total, acked)]
            && c.tables.nextVersionId == v + 1 && c.tables.totalBlocks == cf.total
            && (Started(c.main) ==> acked == RecordedOks(c))
  {
    hide Run, HashesOk, StatusesOk;
    RunTable(cf, states, n);
  }

  /** A complete run in which nothing failed leaves a complete table: every block acknowledged and hashed,
      and all of them counted. */
  lemma CompleteTable(cf: Config, states: seq<Sys>, n: nat)
    requires Lawful(cf.codec) && Run(cf, states) && n < |states|
    requires var c := states[n].client; After(c.main) && c.main.i == cf.total && c.inFlight == 0 && c.report.Some?
    requires states[n].client.report.value.failedBlocks == 0
    ensures var t, v := states[n].client.tables, cf.prior.nextVersionId;
            && |t.blocks| == cf.total
            && (forall k: u64 :: k < cf.total ==>
                  && cf.Readable(k)
                  && t.blocks[k] == B.Block(k, (k * BLOCK_SIZE) % TWO_64, cf.codec.sha(cf.BlockBytes(k)), v, B.Acknowledged, true))
            && v in t.versions && t.versions[v] == B.Version(v, "FULL", cf.total, cf.totalSize, cf.total, cf.total)
  {
    var s := states[n];
    RunTable(cf, states, n);
    RunKeeps(cf, states, n);
    hide Run, RecordedAt, HashRight;
    CompleteSettles(cf, s);
    forall k: u64 | k < cf.total
      ensures cf.Readable(k)
      ensures s.client.tables.blocks[k] == B.Block(k, (k * BLOCK_SIZE) % TWO_64, cf.codec.sha(cf.BlockBytes(k)), cf.prior.nextVersionId,
                                                   B.Acknowledged, true)
    {
      RecordedMeansHashed(cf, s, k);
    }
  }

  lemma CompleteSettles(cf: Config, s: Sys)
    requires Inv(cf, s)
    requires var c := s.client; After(c.main) && c.main.i == cf.total && c.inFlight == 0 && c.report.Some?
    requires s.client.report.value.failedBlocks == 0
    ensures forall k :: 0 <= k < cf.total && k < |s.client.tables.blocks| ==> s.client.tables.blocks[k].ack == B.Acknowledged
    ensures RecordedOks(s.client) == cf.total
  {
    hide MsgsOk, ServerOk, TablesOk, SlotsOk, CountsOk, ProgressOk, PcOk, DataOk;
  }

  lemma RecordedMeansHashed(cf: Config, s: Sys, k: u64)
    requires TableOk(cf, s) && k < |s.client.tables.blocks| && s.client.tables.blocks[k].ack != B.Pending
    ensures HashRight(cf, s.client.tables.blocks, k) && EntryOk(cf, s.client.tables.blocks, k)
  {
    hide CounterOk, HashRight, EntryOk;
    var j :| IsBlock(s.msgs, j) && j < Recorded(s.client) && Idx(s.msgs, j) == k;
  }

  // ---------- and in every byte-level run ----------

  /** A right hash in the table is never lost. */
  lemma {:induction false} HashStays(cf: Config, states: seq<Sys>, m: nat, n: nat, k: u64)
    requires Lawful(cf.codec) && Run(cf, states) && m <= n < |states| && HashRight(cf, states[m].client.tables.blocks, k)
    ensures HashRight(cf, states[n].client.tables.blocks, k)
    decreases n
  {
    hide Inv, NextState, Init, TableMoves, HashRight;
    if m == n {
    } else {
      HashStays(cf, states, m, n - 1, k);
      RunKeeps(cf, states, n - 1);
      if states[n] != states[n - 1] {
        var s, s' := states[n - 1], states[n];
        StepMoves(cf, s, s');
        MovesEntries(cf, s, s');
        StayRight(cf, s.client.tables.blocks, s'.client.tables.blocks, k);
      }
    }
  }

  /** In every byte-level run: once the main thread has sent a block, its table entry holds the SHA-256
      of its source bytes, from then on. */
  lemma SentMeansHashedOnWire(cf: Config, nets: seq<Net>, m: nat, n: nat)
    requires Lawful(cf.codec) && NetRun(cf, nets) && m <= n < |nets| && nets[m].client.main.Sent?
    ensures var bs, k := nets[n].client.tables.blocks, nets[m].client.main.i;
            && k < |bs| && cf.Readable(k)
            && bs[k].hash == cf.codec.sha(cf.source[k * BLOCK_SIZE..k * BLOCK_SIZE + cf.Len(k)])
  {
    hide Refines, NetRun, Run, StatusesOk, CounterOk, EntryOk;
    var states := RunRefines(cf, nets);
    RefinesShares(cf, nets[m], states[m]);
    RefinesShares(cf, nets[n], states[n]);
    RunTable(cf, states, m);
    HashStays(cf, states, m, n, nets[m].client.main.i);
  }

  /** In every byte-level run: every entry's hash is right or still zeros, it is right once the block is
      acknowledged or rejected, and the counter is the number of acknowledged blocks. */
  lemma TableOnWire(cf: Config, nets: seq<Net>, n: nat, k: u64)
    requires Lawful(cf.codec) && NetRun(cf, nets) && n < |nets| && k < cf.total
    ensures var t, v := nets[n].client.tables, cf.prior.nextVersionId;
            && |t.blocks| == cf.total && EntryOk(cf, t.blocks, k)
            && (t.blocks[k].ack != B.Pending ==> HashRight(cf, t.blocks, k))
            && v in t.versions && t.versions[v].ackedBlocks == B.CountAcked(t.blocks, v)
  {
    hide Refines, NetRun, Run, HashRight, EntryOk;
    var states := RunRefines(cf, nets);
    RefinesShares(cf, nets[n], states[n]);
    RunTable(cf, states, n);
    CounterIsExact(cf, states, n);
    hide CounterOk;
    if nets[n].client.tables.blocks[k].ack != B.Pending {
      RecordedMeansHashed(cf, states[n], k);
    }
  }

  /** A complete byte-level run in which nothing failed leaves a complete table. */
  lemma CompleteTableOnWire(cf: Config, nets: seq<Net>, n: nat)
    requires Lawful(cf.codec) && NetRun(cf, nets) && n < |nets|
    requires var c := nets[n].client; After(c.main) && c.main.i == cf.total && c.inFlight == 0 && c.report.Some?
    requires nets[n].client.report.value.failedBlocks == 0
    ensures var t, v := nets[n].client.tables, cf.prior.nextVersionId;
            && |t.blocks| == cf.total
            && (forall k: u64 :: k < cf.total ==>
                  && cf.Readable(k)
                  && t.blocks[k] == B.Block(k, (k * BLOCK_SIZE) % TWO_64, cf.codec.sha(cf.BlockBytes(k)), v, B.Acknowledged, true))
            && v in t.versions && t.versions[v] == B.Version(v, "FULL", cf.total, cf.totalSize, cf.total, cf.total)
  {
    hide Refines, NetRun, Run;
    var states := RunRefines(cf, nets);
    RefinesShares(cf, nets[n], states[n]);
    CompleteTable(cf, states, n);
  }

  // ---------- what is sent ----------

  /** Every message of every run says what it should: the first is the HELLO of this disk and version, a
      block message carries its place, its sizes, the hash of its source bytes and a payload that inflates
      to them, blocks go in ascending order, and anything else is a BYE at the end. */
  lemma SentIsFaithful(cf: Config, states: seq<Sys>, n: nat, j: nat)
    requires Lawful(cf.codec) && Run(cf, states) && n < |states| && j < |states[n].msgs|
    ensures var msgs := states[n].msgs;
            match msgs[j]
            case Hello(dev, h) =>
              && j == 0 && dev == cf.dev && h.devNo == cf.dev && h.versionId == cf.prior.nextVersionId % TWO_32
              && h.totalBlocks == TotalBlocks(cf.totalSize) && h.totalSize == cf.totalSize && h.versionType == cf.versionType
            case Data(dev, b, payload) =>
              && j > 0 && dev == cf.dev && b.versionId == cf.prior.nextVersionId % TWO_32
              && var k := b.blockIndex;
                 && k < TotalBlocks(cf.totalSize) && cf.Readable(k)
                 && b.dataSize == BlockLen(cf.totalSize, k) && b.compressedSize == |payload|
                 && b.hash == cf.codec.sha(cf.source[k * BLOCK_SIZE..k * BLOCK_SIZE + b.dataSize])
                 && cf.codec.inflate(payload) == Some(cf.source[k * BLOCK_SIZE..k * BLOCK_SIZE + b.dataSize])
                 && forall i :: IsBlock(msgs, i) && i < j ==> Idx(msgs, i) < k
            case Bye(dev) => j > 0 && dev == cf.dev && j == |msgs| - 1
  {
    hide Run, Inv, Lawful, Ascending, GoodBlock;
    RunKeeps(cf, states, n);
    var s := states[n];
    MessageIsFaithful(cf, s, j);
    if s.msgs[j].Data? {
      BlockIsFaithful(cf, s, j);
    }
  }

  lemma MessageIsFaithful(cf: Config, s: Sys, j: nat)
    requires Inv(cf, s) && j < |s.msgs|
    ensures if j == 0 then s.msgs[j] == cf.GreetingMsg() else s.msgs[j].Data? || (s.msgs[j] == Bye(cf.dev) && j == |s.msgs| - 1)
    ensures Ascending(s.msgs, Bound(s.client.main)) && (s.msgs[j].Data? ==> j > 0 && GoodBlock(cf, s.msgs[j]))
  {
    hide ServerOk, TablesOk, ThreadsOk, SlotsOk, CountsOk, ProgressOk, Settled, PcOk, DataOk, Ascending, GoodBlock;
    assert s.msgs[j].Data? ==> j > 0 && IsBlock(s.msgs, j);
  }

  lemma BlockIsFaithful(cf: Config, s: Sys, j: nat)
    requires Lawful(cf.codec) && cf.total == TotalBlocks(cf.totalSize) && Inv(cf, s) && IsBlock(s.msgs, j)
    requires GoodBlock(cf, s.msgs[j]) && Ascending(s.msgs, Bound(s.client.main))
    ensures var k, m := Idx(s.msgs, j), s.msgs[j];
            && k < cf.total && cf.Readable(k) && m == cf.BlockMsg(k) && m.block.compressedSize == |m.payload|
            && cf.codec.inflate(m.payload) == Some(cf.BlockBytes(k))
            && forall i :: IsBlock(s.msgs, i) && i < j ==> Idx(s.msgs, i) < k
  {
    PartsOfInv(cf, s);
    BlocksMeanGreeted(cf, s.client.main, |s.msgs|);
    AcceptedSize(cf, s);
    hide Inv, Lawful, ServerOk, ThreadsOk, DataOk, PcOk;
    var k := Idx(s.msgs, j);
    BlockMsgSendable(cf, k);
    InflateUndoesCompress(cf.codec, cf.BlockBytes(k));
  }

  // ---------- errors ----------

  /** After an error, every block still sent is below this index: at most the block at hand is. */
  function Limit(m: MainPc): nat {
    if m.Work? then m.i + 1 else Bound(m)
  }

  /** In the send loop, or behind it while the ACK thread has not been told to stop. */
  predicate Running(m: MainPc) {
    m.Next? || m.Acquiring? || m.Work? || m.Sent? || (m.Tail? && (m.t.LoopDone? || m.t.Waiting? || m.t.Stopping?))
  }

  /** Until the ACK thread is told to stop, a lost connection or an ACK thread that is gone is flagged as an error. */
  predicate Noticed(c: Client) {
    && (c.main.Greet? && !c.main.g.GaveUp? ==> c.connected && c.ackThread.NotStarted?)
    && (Running(c.main) ==> c.running && !c.ackThread.NotStarted? && (!c.connected || c.ackThread.Exited? ==> c.error))
  }

  predicate Halting(c: Client, limit: nat) {
    c.error && !c.main.Greet? && Limit(c.main) <= limit
  }

  lemma WorkNotices(cf: Config, c: Client, c': Client, i: u64, h: nat, w: WorkStage, limit: nat)
    requires c.main == Work(i, h, w) && h < |c.slots| && i < cf.total && WorkStep(cf, c, c', i, h, w)
    ensures (Noticed(c) ==> Noticed(c')) && (Halting(c, limit) ==> Halting(c', limit))
  {
  }

  lemma LoopNotices(cf: Config, c: Client, c': Client, limit: nat)
    requires LoopStep(cf, c, c')
    ensures (Noticed(c) ==> Noticed(c')) && (Halting(c, limit) ==> Halting(c', limit))
  {
    hide WorkStep;
    if c.main.Work? {
      WorkNotices(cf, c, c', c.main.i, c.main.s, c.main.w, limit);
    }
  }

  lemma EdgeNotices(cf: Config, c: Client, c': Client, limit: nat)
    requires EdgeStep(cf, c, c')
    ensures (Noticed(c) ==> Noticed(c')) && (Halting(c, limit) ==> Halting(c', limit))
  {
  }

  lemma AckNotices(c: Client, c': Client, limit: nat)
    requires AckStep(c, c')
    ensures (Noticed(c) ==> Noticed(c')) && (Halting(c, limit) ==> Halting(c', limit))
  {
  }

  lemma SendNotices(cf: Config, c: Client, limit: nat)
    ensures var c' := AfterSend(c);
            Outgoing(cf, c).Some? ==> (Noticed(c) ==> Noticed(c')) && (Halting(c, limit) ==> Halting(c', limit))
    ensures var c' := AfterSendFailure(c);
            Outgoing(cf, c.(connected := true)).Some? ==> (Noticed(c) ==> Noticed(c')) && (Halting(c, limit) ==> Halting(c', limit))
  {
  }

  lemma ReceiveNotices(c: Client, a: AckBody, alive: bool, limit: nat)
    requires Wants(c)
    ensures var c' := AfterReceive(c, a); (Noticed(c) ==> Noticed(c')) && (Halting(c, limit) ==> Halting(c', limit))
    ensures var c' := AfterReceiveFailure(c, alive); (Noticed(c) ==> Noticed(c')) && (Halting(c, limit) ==> Halting(c', limit))
  {
  }

  lemma StepNotices(cf: Config, s: Sys, s': Sys, limit: nat)
    requires NextState(cf, s, s')
    ensures (Noticed(s.client) ==> Noticed(s'.client)) && (Halting(s.client, limit) ==> Halting(s'.client, limit))
  {
    hide Noticed, Halting, LoopStep, EdgeStep, AckStep, Dispatch, AfterSend, AfterSendFailure, AfterReceive, AfterReceiveFailure;
    hide Outgoing, Wants;
    var c, c' := s.client, s'.client;
    var a :| Does(cf, s, s', a);
    match a
    case Local =>
      if LoopStep(cf, c, c') { LoopNotices(cf, c, c', limit); }
      else if EdgeStep(cf, c, c') { EdgeNotices(cf, c, c', limit); }
      else { AckNotices(c, c', limit); }
    case Send => SendNotices(cf, c, limit);
    case SendFailure => SendNotices(cf, c, limit);
    case Serve =>
    case Deliver => ReceiveNotices(c, s.server.conn.acks[s.taken], false, limit);
    case ReceiveFailure(alive) => ReceiveNotices(c, AckBody(0, OK, 0, ZeroHash()), alive, limit);
    case Hangup =>
  }

  /** In every run, until the ACK thread is told to stop, a lost connection or an ACK thread that has ended
      shows as an error. */
  lemma {:induction false} FailuresShow(cf: Config, states: seq<Sys>, n: nat)
    requires Run(cf, states) && n < |states|
    ensures Noticed(states[n].client)
  {
    hide Noticed, NextState;
    if n == 0 {
      InitNotices(cf, states[0]);
    } else {
      FailuresShow(cf, states, n - 1);
      if states[n] != states[n - 1] {
        StepNotices(cf, states[n - 1], states[n], 0);
      }
    }
  }

  lemma InitNotices(cf: Config, s: Sys)
    requires Init(cf, s)
    ensures Noticed(s.client)
  {
  }

  lemma {:induction false} HaltingLasts(cf: Config, states: seq<Sys>, m: nat, n: nat, limit: nat)
    requires Run(cf, states) && m <= n < |states| && Halting(states[m].client, limit)
    ensures Halting(states[n].client, limit)
    decreases n
  {
    hide Halting, NextState;
    if m == n {
    } else {
      HaltingLasts(cf, states, m, n - 1, limit);
      if states[n] != states[n - 1] {
        StepNotices(cf, states[n - 1], states[n], limit);
      }
    }
  }

  /** An error stops the backup: once one is flagged, or the connection is lost or the ACK thread has ended
      before it was told to, no block after the one at hand is ever sent. */
  lemma ErrorStopsSending(cf: Config, states: seq<Sys>, m: nat, n: nat, j: nat)
    requires Lawful(cf.codec) && Run(cf, states) && m <= n < |states| && IsBlock(states[n].msgs, j)
    requires var c := states[m].client; Running(c.main) && (c.error || !c.connected || c.ackThread.Exited?)
    ensures Idx(states[n].msgs, j) <= states[m].client.main.i
    ensures !states[m].client.main.Work? && !states[m].client.main.Sent? ==> Idx(states[n].msgs, j) < states[m].client.main.i
  {
    hide Inv, Run, Ascending;
    FailuresShow(cf, states, m);
    HaltingLasts(cf, states, m, n, Limit(states[m].client.main));
    RunKeeps(cf, states, n);
    InvAscends(cf, states[n]);
    BelowBound(states[n].msgs, Bound(states[n].client.main), j);
  }

  lemma BelowBound(msgs: seq<Message>, bound: nat, j: nat)
    requires Ascending(msgs, bound) && IsBlock(msgs, j)
    ensures Idx(msgs, j) < bound
  {
  }
}
