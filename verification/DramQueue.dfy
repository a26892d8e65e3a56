/** The DRAM command queue as a value. */
module DramQueue {
  // The round over its queues, the latched refresh, and the one or two commands a controller cycle issues. The class
  // CommandQueue is proved against it.

  import opened Commands
  import opened Banks
  import opened Channels
  import opened Queues
  import Runs = ChannelRuns

  datatype DQueue = DQueue(queues: seq<seq<Command>>, queueIdx: int, isInRef: bool, refQIndices: set<int>)

  datatype Selection = Selection(answer: Answer, q: DQueue)

  predicate Entry(cfg: Config, structure: Structure, c: Command, idx: int) {
    c.IsReadWrite() && cfg.Has(IdOf(c.addr)) && QueueIndex(cfg, structure, c.addr) == idx
    && !c.isLastComps && c.numComps == 0
  }

  ghost predicate ValidEntries(cfg: Config, structure: Structure, queue: seq<Command>, idx: int) {
    forall n | 0 <= n < |queue| :: Entry(cfg, structure, queue[n], idx)
  }

  ghost predicate ValidQueue(cfg: Config, structure: Structure, q: DQueue) {
    && |q.queues| == NumQueues(cfg, structure)
    && 0 <= q.queueIdx < |q.queues|
    && forall i | 0 <= i < |q.queues| :: ValidEntries(cfg, structure, q.queues[i], i)
  }

  function EmptyQueue(cfg: Config, structure: Structure): DQueue {
    DQueue(seq(NumQueues(cfg, structure), _ => []), 0, false, {})
  }

  /** An entry's answer counts unless it is a precharge that must wait or a write with a pending earlier read. */
  predicate Passes(cfg: Config, ch: Channel, queue: seq<Command>, n: int, c: Command)
    requires ch.Valid(cfg) && 0 <= n < |queue| && cfg.Has(IdOf(queue[n].addr))
  {
    if c.kind == Precharge then ArbitratePrecharge(cfg, ch, queue, n)
    else c.IsWrite() ==> !HasRWDependency(queue, n)
  }

  /** The first entry from `n` on that is ready and passes. */
  function FirstReady(cfg: Config, structure: Structure, ch: Channel, clk: int, queue: seq<Command>, idx: int,
                      n: int): Answer
    requires ch.Valid(cfg) && ValidEntries(cfg, structure, queue, idx) && 0 <= n <= |queue|
    decreases |queue| - n
  {
    if n == |queue| then NotReady
    else
      match GetReadyCommand(cfg, ch, queue[n], clk)
      case Abort => Abort
      case NotReady => FirstReady(cfg, structure, ch, clk, queue, idx, n + 1)
      case Ready(c) =>
        if Passes(cfg, ch, queue, n, c) then Ready(c) else FirstReady(cfg, structure, ch, clk, queue, idx, n + 1)
  }

  function RoundRobin(cfg: Config, structure: Structure, q: DQueue, ch: Channel, clk: int, left: nat): Selection
    requires ch.Valid(cfg) && ValidQueue(cfg, structure, q)
    decreases left
  {
    if left == 0 then Selection(NotReady, q)
    else
      var q1 := q.(queueIdx := NextIndex(q.queueIdx, |q.queues|));
      if q1.isInRef && q1.queueIdx in q1.refQIndices then RoundRobin(cfg, structure, q1, ch, clk, left - 1)
      else
        var s := ServeQueue(cfg, structure, q1, ch, clk);
        if s.answer == NotReady then RoundRobin(cfg, structure, q1, ch, clk, left - 1) else s
  }

  /** One turn of the round: a selected read or write leaves the current queue. */
  function ServeQueue(cfg: Config, structure: Structure, q: DQueue, ch: Channel, clk: int): Selection
    requires ch.Valid(cfg) && ValidQueue(cfg, structure, q)
  {
    var i := q.queueIdx;
    var answer := FirstReady(cfg, structure, ch, clk, q.queues[i], i, 0);
    Selection(answer, if answer.Ready? && answer.cmd.IsReadWrite()
                      then q.(queues := q.queues[i := Erased(q.queues[i], answer.cmd)]) else q)
  }

  function GetCommandToIssue(cfg: Config, structure: Structure, q: DQueue, ch: Channel, clk: int): Selection
    requires ch.Valid(cfg) && ValidQueue(cfg, structure, q)
  {
    RoundRobin(cfg, structure, q, ch, clk, |q.queues|)
  }

  function FinishRefresh(cfg: Config, structure: Structure, q: DQueue, ch: Channel, clk: int): Selection
    requires ch.Valid(cfg) && ch.refreshQ != []
  {
    var ref := ch.refreshQ[0];
    var latched := if q.isInRef then q
      else q.(isInRef := true, refQIndices := q.refQIndices + RefQIndices(cfg, structure, ref.Rank()));
    var answer := GetReadyCommand(cfg, ch, ref, clk);
    Selection(answer, if answer.Ready? && answer.cmd.IsRefresh() then latched.(isInRef := false, refQIndices := {})
              else latched)
  }

  /** The first command of a cycle: what a waiting refresh needs, else what the queues offer. */
  function FirstCommand(cfg: Config, structure: Structure, q: DQueue, ch: Channel, clk: int): Selection
    requires ch.Valid(cfg) && ValidQueue(cfg, structure, q)
  {
    if ch.refreshQ == [] then GetCommandToIssue(cfg, structure, q, ch, clk)
    else
      var s := FinishRefresh(cfg, structure, q, ch, clk);
      if s.answer == NotReady then GetCommandToIssue(cfg, structure, s.q, ch, clk) else s
  }

  /** Whether the controller also issues the second command it selected: one is a read or write, the other is not. */
  predicate IssuedTogether(first: Command, second: Command) {
    !first.IsPimCommand() && !second.IsPimCommand() && second.IsReadWrite() != first.IsReadWrite()
  }

  // ---- where commands come from ----

  ghost predicate Serves(cfg: Config, ch: Channel, clk: int, req: Command, c: Command)
    requires ch.Valid(cfg)
  {
    cfg.Addressed(req) && GetReadyCommand(cfg, ch, req, clk) == Ready(c)
  }

  /** A selected command serves an entry of a queue no latched refresh holds back; a read or write is that entry
      itself and leaves its queue, anything else leaves the queues alone. */
  ghost predicate Origin(cfg: Config, structure: Structure, q: DQueue, ch: Channel, clk: int, s: Selection, i: int,
                         n: int)
    requires ch.Valid(cfg) && ValidQueue(cfg, structure, q)
  {
    && 0 <= i < |q.queues| && 0 <= n < |q.queues[i]|
    && (q.isInRef ==> i !in q.refQIndices)
    && s.answer.Ready?
    && Serves(cfg, ch, clk, q.queues[i][n], s.answer.cmd)
    && s.answer.cmd.addr == q.queues[i][n].addr
    && s.answer.cmd.kind in {Read, Write, Activate, Precharge, PimPrecharge}
    && s.q.queues == (if s.answer.cmd.IsReadWrite() then q.queues[i := Erased(q.queues[i], s.answer.cmd)] else q.queues)
    && (s.answer.cmd.IsReadWrite() ==> s.answer.cmd == q.queues[i][n])
  }

  lemma {:induction false} FirstReadyOrigin(cfg: Config, structure: Structure, ch: Channel, clk: int,
                                            queue: seq<Command>, idx: int, n: int) returns (m: int)
    requires ch.Valid(cfg) && ValidEntries(cfg, structure, queue, idx) && 0 <= n <= |queue|
    ensures FirstReady(cfg, structure, ch, clk, queue, idx, n) != Abort
    ensures var answer := FirstReady(cfg, structure, ch, clk, queue, idx, n);
      answer.Ready? ==>
        && n <= m < |queue| && Serves(cfg, ch, clk, queue[m], answer.cmd)
        && answer.cmd.addr == queue[m].addr
        && answer.cmd.kind in {Read, Write, Activate, Precharge, PimPrecharge}
        && (answer.cmd.IsReadWrite() ==> answer.cmd == queue[m])
    decreases |queue| - n
  {
    m := n;
    if n < |queue| {
      QueriesNeverAbort(cfg, ch, queue[n], clk);
      m := FirstReadyOrigin(cfg, structure, ch, clk, queue, idx, n + 1);
      var own := GetReadyCommand(cfg, ch, queue[n], clk);
      if own.Ready? {
        EntryAnswers(cfg, structure, ch, clk, queue[n], idx);
        if Passes(cfg, ch, queue, n, own.cmd) { m := n; }
      }
    }
  }

  lemma EntryAnswers(cfg: Config, structure: Structure, ch: Channel, clk: int, c: Command, idx: int)
    requires ch.Valid(cfg) && Entry(cfg, structure, c, idx) && GetReadyCommand(cfg, ch, c, clk).Ready?
    ensures var own := GetReadyCommand(cfg, ch, c, clk).cmd;
      && own.addr == c.addr
      && own.kind in {Read, Write, Activate, Precharge, PimPrecharge}
      && (own.IsReadWrite() ==> own == c)
  {
  }

  lemma {:induction false} RoundRobinOrigin(cfg: Config, structure: Structure, q: DQueue, ch: Channel, clk: int,
                                            left: nat)
    returns (i: int, n: int)
    requires ch.Valid(cfg) && ValidQueue(cfg, structure, q)
    ensures var s := RoundRobin(cfg, structure, q, ch, clk, left);
      && s.answer != Abort
      && ValidQueue(cfg, structure, s.q) && s.q.isInRef == q.isInRef && s.q.refQIndices == q.refQIndices
      && (s.answer.Ready? ==> Origin(cfg, structure, q, ch, clk, s, i, n))
      && (s.answer.NotReady? ==> s.q.queues == q.queues)
    decreases left
  {
    i, n := 0, 0;
    if left > 0 {
      var q1 := q.(queueIdx := NextIndex(q.queueIdx, |q.queues|));
      i := q1.queueIdx;
      n := FirstReadyOrigin(cfg, structure, ch, clk, q1.queues[i], i, 0);
      var answer := FirstReady(cfg, structure, ch, clk, q1.queues[i], i, 0);
      if (q1.isInRef && i in q1.refQIndices) || answer.NotReady? {
        i, n := RoundRobinOrigin(cfg, structure, q1, ch, clk, left - 1);
      } else {
        ErasedKeeps(cfg, structure, q1.queues[i], i, answer.cmd);
      }
    }
  }

  lemma {:induction false} ErasedKeeps(cfg: Config, structure: Structure, queue: seq<Command>, idx: int, c: Command)
    requires ValidEntries(cfg, structure, queue, idx)
    ensures ValidEntries(cfg, structure, Erased(queue, c), idx)
  {
    if queue != [] && !Matches(queue[0], c) { ErasedKeeps(cfg, structure, queue[1..], idx, c); }
  }

  // ---- a read or write never comes twice in one cycle ----

  predicate PositiveFor(delays: Delays, kind: CommandType) {
    exists e <- delays :: e.0 == kind && e.1 > 0
  }

  /** Every scope the channel has delays every read or write after every read or write by at least one cycle. */
  ghost predicate PositiveReadWrite(cfg: Config, table: TimingTable) {
    forall k, l | k in {Read, Write} && l in {Read, Write} :: PositivePair(cfg, table, k, l)
  }

  predicate PositivePair(cfg: Config, table: TimingTable, k: CommandType, l: CommandType) {
    && PositiveFor(table.sameBank(k), l)
    && (cfg.banksPerGroup > 1 ==> PositiveFor(table.otherBanksSameBankgroup(k), l))
    && (cfg.bankgroups > 1 ==> PositiveFor(table.otherBankgroupsSameRank(k), l))
    && (cfg.ranks > 1 ==> PositiveFor(table.otherRanks(k), l))
  }

  lemma BusyBankBlocks(b: Bank, req: Command, clk: int)
    requires req.IsReadWrite() && b.Earliest(req.kind) > clk
    ensures b.GetReady(req, clk).Ready? ==> !b.GetReady(req, clk).cmd.IsReadWrite()
  {
  }

  lemma EveryScopeIsPositive(cfg: Config, table: TimingTable, first: Command, id: BankId, kind: CommandType)
    requires first.IsReadWrite() && cfg.Addressed(first) && cfg.Has(id)
    requires PositiveReadWrite(cfg, table) && kind in {Read, Write}
    ensures PositiveFor(Entries(cfg, table, first, id), kind)
  {
    assert PositivePair(cfg, table, first.kind, kind);
  }

  /** After a read or write no bank lets another one issue in the same cycle. */
  lemma ReadWriteBlocksReadWrite(cfg: Config, table: TimingTable, ch: Channel, first: Command, clk: int, req: Command)
    requires ch.Valid(cfg) && cfg.Addressed(first) && first.IsReadWrite() && !UpdateAborts(ch, first)
    requires PositiveReadWrite(cfg, table)
    requires cfg.Addressed(req) && req.IsReadWrite()
    requires Issue(cfg, table, ch, first, clk).Valid(cfg)
    ensures var answer := GetReadyCommand(cfg, Issue(cfg, table, ch, first, clk), req, clk);
      answer.Ready? ==> !answer.cmd.IsReadWrite()
  {
    var id := IdOf(req.addr);
    var ch' := Issue(cfg, table, ch, first, clk);
    Runs.IssueRecords(cfg, table, ch, first, clk);
    EveryScopeIsPositive(cfg, table, first, id, req.kind);
    var e :| e in Entries(cfg, table, first, id) && e.0 == req.kind && e.1 > 0;
    assert id in ch.banks;
    assert ch'.banks[id].Earliest(e.0) >= clk + e.1;
    BusyBankBlocks(ch'.banks[id], req, clk);
  }

  // ---- a controller cycle ----

  /** What a cycle selected, and what queue and channel it leaves. */
  datatype Cycle = Cycle(first: Answer, second: Answer, q: DQueue, ch: Channel)

  lemma RefreshIsIssuable(cfg: Config, table: TimingTable, structure: Structure, q: DQueue, ch: Channel, clk: int)
    requires ch.Valid(cfg) && ValidQueue(cfg, structure, q) && ch.refreshQ != []
    ensures var s := FinishRefresh(cfg, structure, q, ch, clk);
      && ValidQueue(cfg, structure, s.q) && s.answer != Abort && s.q.queues == q.queues
      && (s.answer.Ready? ==>
            && cfg.Addressed(s.answer.cmd) && !UpdateAborts(ch, s.answer.cmd)
            && s.answer.cmd.kind in {Precharge, PimPrecharge, Refresh}
            && Issue(cfg, table, ch, s.answer.cmd, clk).Valid(cfg))
  {
    var ref := ch.refreshQ[0];
    assert ref.IsRefresh() && cfg.Addressed(ref);
    QueriesNeverAbort(cfg, ch, ref, clk);
    var answer := GetReadyCommand(cfg, ch, ref, clk);
    if answer.Ready? {
      RefreshAnswers(cfg, ch, ref, clk);
      Runs.CertifiedNeverAborts(cfg, ch, ref, clk, answer.cmd);
      Runs.IssueKeepsValid(cfg, table, ch, answer.cmd, clk);
    }
  }

  lemma FirstIsIssuable(cfg: Config, table: TimingTable, structure: Structure, q: DQueue, ch: Channel, clk: int)
    requires ch.Valid(cfg) && ValidQueue(cfg, structure, q)
    ensures var s := FirstCommand(cfg, structure, q, ch, clk);
      && ValidQueue(cfg, structure, s.q) && s.answer != Abort
      && (s.answer.Ready? ==>
            && cfg.Addressed(s.answer.cmd) && !UpdateAborts(ch, s.answer.cmd)
            && s.answer.cmd.kind in {Read, Write, Activate, Precharge, PimPrecharge, Refresh}
            && Issue(cfg, table, ch, s.answer.cmd, clk).Valid(cfg))
  {
    if ch.refreshQ == [] {
      NextIsIssuable(cfg, table, structure, q, ch, clk);
    } else {
      RefreshIsIssuable(cfg, table, structure, q, ch, clk);
      NextIsIssuable(cfg, table, structure, FinishRefresh(cfg, structure, q, ch, clk).q, ch, clk);
    }
  }

  /** A pending refresh answers with itself, every bank of its rank being closed, or with the precharge of an open
      one. */
  lemma RefreshAnswers(cfg: Config, ch: Channel, ref: Command, clk: int)
    requires ch.Valid(cfg) && cfg.Addressed(ref) && ref.IsRefresh() && GetReadyCommand(cfg, ch, ref, clk).Ready?
    ensures var c := GetReadyCommand(cfg, ch, ref, clk).cmd;
      && c.kind in {Refresh, Precharge, PimPrecharge}
      && c.Rank() == ref.Rank()
      && (c.kind == Refresh ==> c == ref && OpenBanks(cfg, ch, ref.Rank()) == {})
      && (c.kind != Refresh ==> IdOf(c.addr) in OpenBanks(cfg, ch, ref.Rank()))
      && (c.kind == PimPrecharge ==> ch.banks[IdOf(c.addr)].normal == Closed)
  {
    var c := GetReadyCommand(cfg, ch, ref, clk).cmd;
    ReadyIsCertified(cfg, ch, ref, clk);
    ScanFromStart(cfg, ch, ref, clk, ref.Rank() + 1, ref.Rank());
    if c != ref {
      RaisedKinds(ch.banks[IdOf(c.addr)], ref, clk);
    } else {
      forall id | cfg.Has(id) && id.rank == ref.Rank()
        ensures id in ch.banks && !IsOpen(ch.banks[id])
      {
        assert id in ch.banks && Gated(c, id);
      }
    }
  }

  predicate IsOpen(b: Bank) { b.normal.Open? || b.pim.Open? }

  /** The banks of a rank with a row in a buffer. */
  function OpenBanks(cfg: Config, ch: Channel, rank: int): set<BankId>
    requires ch.Valid(cfg)
  {
    set id | id in ch.banks && id.rank == rank && IsOpen(ch.banks[id])
  }

  lemma NextIsIssuable(cfg: Config, table: TimingTable, structure: Structure, q: DQueue, ch: Channel, clk: int)
    requires ch.Valid(cfg) && ValidQueue(cfg, structure, q)
    ensures var s := GetCommandToIssue(cfg, structure, q, ch, clk);
      && ValidQueue(cfg, structure, s.q) && s.answer != Abort
      && (s.answer.Ready? ==>
            && cfg.Addressed(s.answer.cmd) && !UpdateAborts(ch, s.answer.cmd)
            && s.answer.cmd.kind in {Read, Write, Activate, Precharge, PimPrecharge}
            && Issue(cfg, table, ch, s.answer.cmd, clk).Valid(cfg))
  {
    var i, n := RoundRobinOrigin(cfg, structure, q, ch, clk, |q.queues|);
    var s := GetCommandToIssue(cfg, structure, q, ch, clk);
    if s.answer.Ready? {
      Runs.CertifiedNeverAborts(cfg, ch, q.queues[i][n], clk, s.answer.cmd);
      Runs.IssueKeepsValid(cfg, table, ch, s.answer.cmd, clk);
    }
  }

  /** The queue a selected read or write left; everything else leaves the queues alone. */
  lemma TakenFrom(cfg: Config, structure: Structure, q: DQueue, ch: Channel, clk: int) returns (i: int)
    requires ch.Valid(cfg) && ValidQueue(cfg, structure, q)
    ensures var s := GetCommandToIssue(cfg, structure, q, ch, clk);
      if s.answer.Ready? && s.answer.cmd.IsReadWrite()
      then 0 <= i < |q.queues| && s.answer.cmd in q.queues[i]
        && s.q.queues == q.queues[i := Erased(q.queues[i], s.answer.cmd)]
      else s.q.queues == q.queues
    ensures var s := GetCommandToIssue(cfg, structure, q, ch, clk);
      s.q.isInRef == q.isInRef && s.q.refQIndices == q.refQIndices
  {
    var n;
    i, n := RoundRobinOrigin(cfg, structure, q, ch, clk, |q.queues|);
  }

  /** One cycle: the first command issues; on a dual-command channel a second one is selected after it, and a
      selected read or write leaves its queue before it is decided whether it issues too. */
  function RunCycle(cfg: Config, table: TimingTable, structure: Structure, dual: bool, q: DQueue, ch: Channel,
                    clk: int): Cycle
    requires ch.Valid(cfg) && ValidQueue(cfg, structure, q)
  {
    FirstIsIssuable(cfg, table, structure, q, ch, clk);
    var s := FirstCommand(cfg, structure, q, ch, clk);
    if !s.answer.Ready? then Cycle(s.answer, NotReady, s.q, ch)
    else
      var first := s.answer.cmd;
      var ch1 := Issue(cfg, table, ch, first, clk);
      if !dual then Cycle(s.answer, NotReady, s.q, ch1)
      else
        NextIsIssuable(cfg, table, structure, s.q, ch1, clk);
        var s2 := GetCommandToIssue(cfg, structure, s.q, ch1, clk);
        if s2.answer.Ready? && IssuedTogether(first, s2.answer.cmd) then
          Cycle(s.answer, s2.answer, s2.q, Issue(cfg, table, ch1, s2.answer.cmd, clk))
        else Cycle(s.answer, s2.answer, s2.q, ch1)
  }

  /** A read or write left its queue as second command and was not issued: it is lost. */
  predicate Drops(r: Cycle) {
    r.first.Ready? && r.second.Ready? && r.second.cmd.IsReadWrite() && !IssuedTogether(r.first.cmd, r.second.cmd)
  }

  /** With positive read/write delays in every scope the channel has, a read or write taken out of its queue as
      second command is issued. */
  lemma SecondReadWriteIsIssued(cfg: Config, table: TimingTable, structure: Structure, q: DQueue, ch: Channel, clk: int)
    requires ch.Valid(cfg) && ValidQueue(cfg, structure, q) && PositiveReadWrite(cfg, table)
    ensures !Drops(RunCycle(cfg, table, structure, true, q, ch, clk))
  {
    FirstIsIssuable(cfg, table, structure, q, ch, clk);
    var s := FirstCommand(cfg, structure, q, ch, clk);
    if s.answer.Ready? && s.answer.cmd.IsReadWrite() {
      var ch1 := Issue(cfg, table, ch, s.answer.cmd, clk);
      var i, n := RoundRobinOrigin(cfg, structure, s.q, ch1, clk, |s.q.queues|);
      var s2 := GetCommandToIssue(cfg, structure, s.q, ch1, clk);
      if s2.answer.Ready? && s2.answer.cmd.IsReadWrite() {
        ReadWriteBlocksReadWrite(cfg, table, ch, s.answer.cmd, clk, s.q.queues[i][n]);
      }
    }
  }
}
