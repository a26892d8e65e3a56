/** The controller losing a read. */
module DualIssueWitness {
  // With the HBM2 values, 39 cycles after the start. Only the requests that come in are chosen, at most one a cycle: a
  // read of rank 1; nine writes to rank 0, enough to start a drain; and one more read of rank 1. Which command enters
  // which queue when follows from the controller.

  import opened Commands
  import opened Banks
  import opened Channels
  import opened Queues
  import opened DramQueue
  import opened DualIssueLimits
  import opened DualIssuePiles
  import opened LateQueues
  import opened DualIssueTiming
  import TimingTables
  import opened Transactions
  import Counting
  import opened Books
  import opened ControllerModel
  import opened StrandedReads
  import opened Refreshes
  import Runs = ChannelRuns

  /** Eight of the writes go to bank A, the ninth to bank C, the reads to bank B. */
  const A := BankId(0, 3, 3)
  const B := BankId(1, 0, 0)
  const C := BankId(0, 0, 0)

  /** The HBM2 table: its read, write and activation rows; the other rows are arbitrary. */
  ghost predicate Hbm2Table(table: TimingTable) {
    && HasRows(HBM2, HBM2_LATENCIES, table)
    && table.sameBank(Activate)
       == [(Activate, 48), (Read, 14), (Write, 14), (Precharge, 34), (GAct, 48), (Gwrite, 14)]
    && table.otherBanksSameBankgroup(Activate) == [(Activate, 6), (GAct, 6)]
    && table.otherBankgroupsSameRank(Activate) == [(Activate, 4), (GAct, 4)]
    && table.otherRanks(Activate) == []
  }

  /** The table the simulator computes from the HBM2 values is one of these. */
  lemma OriginalHbm2Table()
    ensures var p := TimingTables.Parameters(HBM2_LATENCIES, 14, 34, 14, 14, 14, 6, 4, 30, 260, 0, false);
      Hbm2Table(TimingTables.TableOf(HBM2, p))
  {
  }

  // ---- the channel ----

  /** The latest of a time and what the entries for its kind demand. */
  function Latest(e: int, delays: Delays, clk: int, kind: CommandType): int
    decreases |delays|
  {
    if delays == [] then e
    else Latest(if delays[0].0 == kind then Max(e, clk + delays[0].1) else e, delays[1..], clk, kind)
  }

  lemma {:induction false} DelayedTo(b: Bank, delays: Delays, clk: int, kind: CommandType)
    ensures Delayed(b, delays, clk).Earliest(kind) == Latest(b.Earliest(kind), delays, clk, kind)
    decreases |delays|
  {
    if delays != [] { DelayedTo(b.UpdateTiming(delays[0].0, clk + delays[0].1), delays[1..], clk, kind); }
  }

  /** An issued command's effect on one time of one bank, and on the activation windows. */
  lemma IssuedTimes(table: TimingTable, ch: Channel, c: Command, clk: int, id: BankId, kind: CommandType)
    requires ch.Valid(HBM2) && HBM2.Addressed(c) && !UpdateAborts(ch, c) && HBM2.Has(id)
    requires c.kind in {Read, Activate}
    ensures var ch' := Issue(HBM2, table, ch, c, clk);
      && ch'.Valid(HBM2)
      && ch'.banks[id].Earliest(kind) == Latest(ch.banks[id].Earliest(kind), Entries(HBM2, table, c, id), clk, kind)
      && ch'.fourAw
         == if c.kind == Activate then ch.fourAw[c.Rank() := Activated(ch.fourAw[c.Rank()], 30, clk)] else ch.fourAw
  {
    Runs.IssueKeepsValid(HBM2, table, ch, c, clk);
    assert id in ch.banks;
    var b, mid := ch.banks[id], UpdateState(ch, c).banks[id];
    assert mid.timing == b.timing;
    hide Entries, Delayed;
    assert Issue(HBM2, table, ch, c, clk).banks[id] == Delayed(mid, Entries(HBM2, table, c, id), clk);
    DelayedTo(mid, Entries(HBM2, table, c, id), clk, kind);
    hide Issue, Latest;
  }

  /** Rows and times of the three banks, and rank 0's activation window. */
  ghost predicate Banks3(ch: Channel, a: RowBuffer, b: RowBuffer, c: RowBuffer, aw: int, br: int, cw: int,
                         aa: int, ca: int, window: seq<int>)
  {
    && ch.Valid(HBM2) && ch.refreshQ == []
    && ch.banks[A].normal == a && ch.banks[B].normal == b && ch.banks[C].normal == c
    && ch.banks[A].pim.Closed? && ch.banks[B].pim.Closed? && ch.banks[C].pim.Closed?
    && ch.banks[A].Earliest(Write) == aw && ch.banks[B].Earliest(Read) == br && ch.banks[C].Earliest(Write) == cw
    && ch.banks[A].Earliest(Activate) == aa && ch.banks[C].Earliest(Activate) == ca && ch.fourAw[0] == window
  }

  ghost predicate Stage0(ch: Channel) {
    Banks3(ch, Closed, Closed, Closed, 0, 0, 0, 0, 0, []) && ch.banks[B].Earliest(Activate) == 0 && ch.fourAw[1] == []
  }

  ghost predicate Stage1(ch: Channel) { Banks3(ch, Closed, Open(7), Closed, 0, 15, 0, 0, 0, []) }
  ghost predicate Stage2(ch: Channel) { Banks3(ch, Closed, Open(7), Closed, 29, 17, 29, 0, 0, []) }
  ghost predicate Stage3(ch: Channel) { Banks3(ch, Open(7), Open(7), Closed, 39, 17, 29, 73, 29, [55]) }
  ghost predicate Stage4(ch: Channel) { Banks3(ch, Open(7), Open(7), Open(7), 39, 17, 47, 73, 81, [55, 63]) }

  const R0 := Command(Read, Address(0, 1, 0, 0, 7, 0), 0, false, 0)
  const R1 := Command(Read, Address(0, 1, 0, 0, 7, 1), 1, false, 0)

  function W(i: int): Command {
    Command(Write, if i < 8 then Address(0, 0, 3, 3, 7, i) else Address(0, 0, 0, 0, 7, 0), 10 + i, false, 0)
  }

  lemma InitialStage()
    ensures Stage0(Initial(HBM2))
  {
  }

  lemma ToStage1(table: TimingTable, ch: Channel)
    requires Hbm2Table(table) && Stage0(ch) && !UpdateAborts(ch, R0.(kind := Activate))
    ensures Stage1(Issue(HBM2, table, ch, R0.(kind := Activate), 1))
  {
    hide Issue, UpdateAborts, Hbm2Table, HasRows, Latest;
    var c := R0.(kind := Activate);
    IssueKept(HBM2, table, ch, c, 1);
    IssuedTimes(table, ch, c, 1, A, Write);
    IssuedTimes(table, ch, c, 1, A, Activate);
    IssuedTimes(table, ch, c, 1, B, Read);
    IssuedTimes(table, ch, c, 1, C, Write);
    IssuedTimes(table, ch, c, 1, C, Activate);
    FoldActivate(table, 0, 1, Read);
    FoldOthers(table, 0, 1, Write);
    FoldOthers(table, 0, 1, Activate);
  }

  lemma ToStage2(table: TimingTable, ch: Channel)
    requires Hbm2Table(table) && Stage1(ch) && !UpdateAborts(ch, R0)
    ensures Stage2(Issue(HBM2, table, ch, R0, 15))
  {
    hide Issue, UpdateAborts, Hbm2Table, HasRows, Latest;
    IssueKept(HBM2, table, ch, R0, 15);
    IssuedTimes(table, ch, R0, 15, A, Write);
    IssuedTimes(table, ch, R0, 15, A, Activate);
    IssuedTimes(table, ch, R0, 15, B, Read);
    IssuedTimes(table, ch, R0, 15, C, Write);
    IssuedTimes(table, ch, R0, 15, C, Activate);
    FoldRead(table, 15, 15);
    FoldReadOthers(table, 0, 15);
  }

  /** The read row of its own bank and of the other rank. */
  lemma FoldRead(table: TimingTable, e: int, clk: int)
    requires Hbm2Table(table)
    ensures Latest(e, table.sameBank(Read), clk, Read) == Max(e, clk + 2)
  {
    var row := table.sameBank(Read);
    assert row[0] == (Read, 2);
    Unfold(e, row, clk, Read);
    hide HasRows, Latest;
  }

  lemma FoldReadOthers(table: TimingTable, e: int, clk: int)
    requires Hbm2Table(table)
    ensures Latest(e, table.otherRanks(Read), clk, Write) == Max(e, clk + 14)
    ensures Latest(e, table.otherRanks(Read), clk, Activate) == e
  {
    var row := table.otherRanks(Read);
    assert row[0].0 == Read && row[1] == (Write, 14);
    Unfold(e, row, clk, Write);
    Unfold(e, row, clk, Activate);
    hide HasRows, Latest;
  }

  lemma ToStage3(table: TimingTable, ch: Channel)
    requires Hbm2Table(table) && Stage2(ch) && !UpdateAborts(ch, W(0).(kind := Activate))
    ensures Stage3(Issue(HBM2, table, ch, W(0).(kind := Activate), 25))
  {
    hide Issue, UpdateAborts, Hbm2Table, HasRows, Latest;
    var c := W(0).(kind := Activate);
    IssueKept(HBM2, table, ch, c, 25);
    IssuedTimes(table, ch, c, 25, A, Write);
    IssuedTimes(table, ch, c, 25, A, Activate);
    IssuedTimes(table, ch, c, 25, B, Read);
    IssuedTimes(table, ch, c, 25, C, Write);
    IssuedTimes(table, ch, c, 25, C, Activate);
    FoldActivate(table, 29, 25, Write);
    FoldActivate(table, 0, 25, Activate);
    FoldOthers(table, 17, 25, Read);
    FoldOthers(table, 29, 25, Write);
    FoldOthers(table, 0, 25, Activate);
    assert Activated([], 30, 25) == [55];
  }

  lemma ToStage4(table: TimingTable, ch: Channel)
    requires Hbm2Table(table) && Stage3(ch) && !UpdateAborts(ch, W(8).(kind := Activate))
    ensures Stage4(Issue(HBM2, table, ch, W(8).(kind := Activate), 33))
  {
    hide Issue, UpdateAborts, Hbm2Table, HasRows, Latest;
    var c := W(8).(kind := Activate);
    IssueKept(HBM2, table, ch, c, 33);
    IssuedTimes(table, ch, c, 33, A, Write);
    IssuedTimes(table, ch, c, 33, A, Activate);
    IssuedTimes(table, ch, c, 33, B, Read);
    IssuedTimes(table, ch, c, 33, C, Write);
    IssuedTimes(table, ch, c, 33, C, Activate);
    FoldActivate(table, 29, 33, Write);
    FoldActivate(table, 29, 33, Activate);
    FoldOthers(table, 17, 33, Read);
    FoldOthers(table, 39, 33, Write);
    FoldOthers(table, 73, 33, Activate);
    assert Activated([55], 30, 33) == [55, 63];
  }

  /** The activation row of its own bank, and of banks of the rank's other bankgroups and the other rank. */
  lemma FoldActivate(table: TimingTable, e: int, clk: int, kind: CommandType)
    requires Hbm2Table(table) && kind in {Read, Write, Activate}
    ensures Latest(e, table.sameBank(Activate), clk, kind) == Max(e, clk + if kind == Activate then 48 else 14)
  {
    var row := table.sameBank(Activate);
    assert row[0] == (Activate, 48) && row[1] == (Read, 14) && row[2] == (Write, 14);
    assert forall m, n | 0 <= m < n < |row| :: row[m].0 != row[n].0;
    hide HasRows, Latest;
    Unfold(e, row, clk, kind);
  }

  lemma FoldOthers(table: TimingTable, e: int, clk: int, kind: CommandType)
    requires Hbm2Table(table) && kind in {Read, Write, Activate}
    ensures Latest(e, table.otherBankgroupsSameRank(Activate), clk, kind)
         == if kind == Activate then Max(e, clk + 4) else e
    ensures Latest(e, table.otherRanks(Activate), clk, kind) == e
  {
    var row := table.otherBankgroupsSameRank(Activate);
    assert row[0] == (Activate, 4) && row[1] == (GAct, 4);
    Unfold(e, row, clk, kind);
    Unfold(e, table.otherRanks(Activate), clk, kind);
    hide HasRows, Latest;
  }

  /** With at most one entry of the kind, that one counts. */
  lemma {:induction false} Unfold(e: int, delays: Delays, clk: int, kind: CommandType)
    requires forall m, n | 0 <= m < n < |delays| :: delays[m].0 != delays[n].0
    ensures forall n | 0 <= n < |delays| ::
      delays[n].0 == kind ==> Latest(e, delays, clk, kind) == Max(e, clk + delays[n].1)
    ensures (forall n | 0 <= n < |delays| :: delays[n].0 != kind) ==> Latest(e, delays, clk, kind) == e
    decreases |delays|
  {
    if delays != [] {
      var rest := delays[1..];
      Unfold(if delays[0].0 == kind then Max(e, clk + delays[0].1) else e, rest, clk, kind);
      forall n | 0 <= n < |delays| && delays[n].0 == kind
        ensures Latest(e, delays, clk, kind) == Max(e, clk + delays[n].1)
      {
        if n > 0 { assert rest[n - 1] == delays[n]; }
      }
    }
  }

  // ---- the controller ----

  /** Where the requests live. */
  ghost predicate Placed(mapping: int -> Address) {
    && mapping(0) == R0.addr && mapping(1) == R1.addr && forall i | 0 <= i < 9 :: mapping(10 + i) == W(i).addr
  }

  /** The HBM2 controller with its default queue sizes and dual issue. */
  ghost predicate Hbm2Controller(p: Params) {
    && p.cfg == HBM2 && p.structure == PerBank && p.capacity == 32 && p.queueSize == 8 && p.dual
    && Hbm2Table(p.table) && Mapped(p) && Placed(p.mapping)
  }

  /** What the run shows of the controller: queued and pending reads, the writes from `first` to `end` still
      buffered, of those already scheduled `gone` in bank A's queue, what waits in the queues of B and C, the queue
      last served, and the writes left to drain. */
  datatype View = View(queued: seq<int>, pending: seq<int>, first: nat, end: nat, gone: nat, qb: seq<Command>,
                       qc: seq<Command>, idx: int, draining: int)

  function Addrs(s: seq<Transaction>): (r: seq<int>)
    ensures |r| == |s| && forall i | 0 <= i < |s| :: r[i] == s[i].addr
  {
    seq(|s|, i requires 0 <= i < |s| => s[i].addr)
  }

  /** The addresses of writes `first` to `end`. */
  function Span(first: nat, end: nat): (r: seq<int>)
    requires first <= end
    ensures |r| == end - first && forall i | 0 <= i < end - first :: r[i] == 10 + first + i
  {
    seq(end - first, i => 10 + first + i)
  }

  function Writes(n: nat): seq<Command> { seq(n, i requires 0 <= i < n => W(i)) }

  ghost predicate QueuesAre(queues: seq<seq<Command>>, v: View) {
    && |queues| == 32 && queues[15] == Writes(v.gone) && queues[16] == v.qb && queues[0] == v.qc
    && forall i | 0 <= i < 32 && i !in {0, 15, 16} :: queues[i] == []
  }

  ghost predicate Sees(p: Params, x: Controller, v: View) {
    && Wellformed(p, x) && !x.isInRef && !x.lock && x.draining == v.draining && x.queueIdx == v.idx
    && QueuesAre(x.books.queues, v)
    && Addrs(x.books.readQueue) == v.queued && Addrs(x.books.pendingRd) == v.pending
    && v.first <= v.end <= 9 && Addrs(x.books.writeBuffer) == Span(v.first, v.end)
    && forall a :: a in x.books.pendingWr <==> 10 <= a < 10 + v.end
  }

  lemma FreshSees(p: Params)
    requires Hbm2Controller(p)
    ensures Sees(p, Fresh(p), View([], [], 0, 0, 0, [], [], 0, 0)) && Stage0(Fresh(p).ch)
  {
    InitialStage();
    FreshIsWellformed(p);
    assert NumQueues(HBM2, PerBank) == 32;
  }

  function Read1(a: int): Transaction { Transaction(a, ReadTrans, 0, 0, 0, if a > 0 then a else 0) }
  function Write1(i: nat): Transaction { Transaction(10 + i, WriteTrans, 0, 0, 0, 0) }

  lemma SeesRead(p: Params, x: Controller, v: View, a: int)
    requires Sees(p, x, v) && a in {0, 1} && v.pending == []
    ensures Sees(p, Added(x, Read1(a)), v.(queued := v.queued + [a], pending := [a])) && Added(x, Read1(a)).ch == x.ch
  {
    assert x.books.pendingRd == [];
    var x' := Added(x, Read1(a));
    assert Addrs(x'.books.readQueue) == v.queued + [a];
  }

  lemma SeesWrite(p: Params, x: Controller, v: View)
    requires Sees(p, x, v) && v.end < 9
    ensures Sees(p, Added(x, Write1(v.end)), v.(end := v.end + 1)) && Added(x, Write1(v.end)).ch == x.ch
  {
    var x' := Added(x, Write1(v.end));
    assert 10 + v.end !in x.books.pendingWr;
    assert Addrs(x'.books.writeBuffer) == Addrs(x.books.writeBuffer) + [10 + v.end];
    assert Span(v.first, v.end) + [10 + v.end] == Span(v.first, v.end + 1);
  }

  // ---- scheduling ----

  lemma SchedulesNothing(p: Params, x: Controller, v: View)
    requires Hbm2Controller(p) && Sees(p, x, v) && v.queued == [] && v.draining == 0 && v.end - v.first <= 8
    ensures Scheduled(p, x) == x
  {
    assert x.books.readQueue == [];
  }

  lemma SchedulesRead(p: Params, x: Controller, v: View, a: int)
    requires Hbm2Controller(p) && Sees(p, x, v) && a in {0, 1} && v.queued == [a] && v.draining == 0
    requires v.end - v.first <= 8
    requires v.qb == []
    ensures var c := if a == 0 then R0 else R1;
      Sees(p, Scheduled(p, x), v.(queued := [], qb := [c])) && Scheduled(p, x).ch == x.ch
  {
    assert x.books.readQueue[0].addr == a && |x.books.readQueue| == 1;
    assert QueueIndex(HBM2, PerBank, p.mapping(a)) == 16;
    ScheduleKeepsForm(p, x);
    assert FirstWithRoom(p, x.books.queues, x.books.readQueue, 0) == 0;
    assert Addrs(Scheduled(p, x).books.readQueue) == [];
  }

  /** Nine buffered writes and empty queues start a drain; a drain goes on. */
  lemma Drains(p: Params, x: Controller, v: View)
    requires Hbm2Controller(p) && Sees(p, x, v) && v.first < v.end == 9 && v.gone == v.first && v.qc == []
    requires v.draining == 9 - v.first || (v.first == 0 && v.draining == 0 && v.qb == [])
    ensures DrainStarted(p, x) == x.(draining := 9 - v.first)
  {
    assert |x.books.writeBuffer| == |Addrs(x.books.writeBuffer)| == 9 - v.first;
    if v.draining == 0 {
      assert Writes(0) == [];
      assert forall i | 0 <= i < 32 :: x.books.queues[i] == [];
    }
  }

  /** A drain moves the next write: the first eight into bank A's queue, the ninth into C's. */
  lemma SchedulesWrite(p: Params, x: Controller, v: View)
    requires Hbm2Controller(p) && Sees(p, x, v) && v.first < v.end == 9 && v.pending == [] && v.gone == v.first
    requires v.qc == []
    requires v.draining == 9 - v.first || (v.first == 0 && v.draining == 0 && v.qb == [])
    ensures Sees(p, Scheduled(p, x),
                 if v.first < 8 then v.(first := v.first + 1, gone := v.gone + 1, draining := 8 - v.first)
                                     else v.(first := 9, qc := [W(8)], draining := 0))
    ensures Scheduled(p, x).ch == x.ch
  {
    Drains(p, x, v);
    MovesWrite(p, x, v);
    hide DrainStarted, WriteScheduled, Hbm2Table, Placed, QueuesAre, Wellformed;
    ScheduleKeepsForm(p, x);
    var c, i := W(v.first), if v.first < 8 then 15 else 0;
    var x' := Scheduled(p, x);
    assert x' == x.(books := ScheduleWrite(x.books, 0, i, c), draining := 8 - v.first);
    QueueTakes(x.books.queues, v, i);
    FirstGone(x.books.writeBuffer, v.first);
  }

  lemma MovesWrite(p: Params, x: Controller, v: View)
    requires Hbm2Controller(p) && Sees(p, x, v) && v.first < v.end == 9 && v.pending == [] && v.gone == v.first
    requires v.qc == []
    ensures |x.books.writeBuffer| > 0 && |x.books.queues| == 32
    ensures var i := if v.first < 8 then 15 else 0;
      WriteScheduled(p, x.(draining := 9 - v.first))
      == x.(books := ScheduleWrite(x.books, 0, i, W(v.first)), draining := 8 - v.first)
  {
    var b := x.books.writeBuffer;
    assert |b| == |Addrs(b)| == 9 - v.first && b[0].addr == Addrs(b)[0] == 10 + v.first;
    assert |x.books.pendingRd| == |Addrs(x.books.pendingRd)| == 0;
    assert p.mapping(10 + v.first) == W(v.first).addr;
    assert QueueIndex(HBM2, PerBank, p.mapping(10 + v.first)) == if v.first < 8 then 15 else 0;
    assert FirstWithRoom(p, x.books.queues, b, 0) == 0;
    hide Hbm2Table, Placed, Wellformed;
  }

  lemma QueueTakes(queues: seq<seq<Command>>, v: View, i: int)
    requires QueuesAre(queues, v) && v.gone == v.first <= 8 && v.qc == [] && i == if v.first < 8 then 15 else 0
    ensures QueuesAre(queues[i := queues[i] + [W(v.first)]],
                      if v.first < 8 then v.(first := v.first + 1, gone := v.gone + 1, draining := 8 - v.first)
                      else v.(first := 9, qc := [W(8)], draining := 0))
  {
    assert Writes(v.gone) + [W(v.gone)] == Writes(v.gone + 1);
  }

  lemma FirstGone(b: seq<Transaction>, first: nat)
    requires first < 9 && Addrs(b) == Span(first, 9)
    ensures |b| > 0 && Addrs(Without(b, 0)) == Span(first + 1, 9)
  {
    assert |b| == |Addrs(b)|;
    assert Addrs(Without(b, 0)) == Addrs(b)[1..] == Span(first + 1, 9);
  }

  // ---- issuing ----

  /** Every queued command is on its open row and has to wait. */
  ghost predicate AllWait(x: Controller, v: View)
    requires x.ch.Valid(HBM2)
  {
    && v.gone <= 8 && v.qb in {[], [R0], [R1]} && v.qc in {[], [W(8)]}
    && (v.gone > 0 ==> x.ch.banks[A].normal == Open(7) && x.ch.banks[A].Earliest(Write) > x.clk)
    && (v.qb != [] ==> x.ch.banks[B].normal == Open(7) && x.ch.banks[B].Earliest(Read) > x.clk)
    && (v.qc != [] ==> x.ch.banks[C].normal == Open(7) && x.ch.banks[C].Earliest(Write) > x.clk)
  }

  lemma WaitingIsLate(p: Params, x: Controller, v: View)
    requires Hbm2Controller(p) && Sees(p, x, v) && AllWait(x, v)
    ensures forall j | 0 <= j < 32 :: LateQueue(HBM2, x.ch, x.clk, x.books.queues[j])
  {
    forall j | 0 <= j < 32
      ensures LateQueue(HBM2, x.ch, x.clk, x.books.queues[j])
    {
      if j == 15 { assert forall i | 0 <= i < v.gone :: Writes(v.gone)[i] == W(i); }
    }
  }

  lemma IssuesNothing(p: Params, x: Controller, v: View)
    requires Hbm2Controller(p) && Sees(p, x, v) && AllWait(x, v) && x.ch.refreshQ == []
    ensures Issued(p, x) == x
  {
    hide GetCommandToIssue, LateQueue, AllWait, QueuesAre;
    WaitingIsLate(p, x, v);
    AllLate(HBM2, PerBank, x.Queue(), x.ch, x.clk);
    assert WithQueue(x, x.Queue()) == x;
  }

  /** A command whose bank is closed is activated; nothing else can go. */
  lemma IssuesActivate(p: Params, x: Controller, v: View, i: int, c: Command)
    requires Hbm2Controller(p) && Sees(p, x, v) && x.ch.refreshQ == [] && i in {0, 15, 16}
    requires x.books.queues[i] == [c] && Plain(HBM2, c)
    requires GetReadyCommand(HBM2, x.ch, c, x.clk) == Ready(c.(kind := Activate))
    requires forall j | 0 <= j < 32 && j != i :: LateQueue(HBM2, x.ch, x.clk, x.books.queues[j])
    requires !UpdateAborts(x.ch, c.(kind := Activate)) ==>
      var ch' := Issue(HBM2, p.table, x.ch, c.(kind := Activate), x.clk);
      ch'.Valid(HBM2) ==> forall j | 0 <= j < 32 :: LateQueue(HBM2, ch', x.clk, x.books.queues[j])
    ensures !UpdateAborts(x.ch, c.(kind := Activate))
    ensures Issued(p, x) == x.(queueIdx := i, ch := Issue(HBM2, p.table, x.ch, c.(kind := Activate), x.clk))
  {
    hide GetCommandToIssue, LateQueue, Issue, GetReadyCommand, UpdateAborts;
    var act := c.(kind := Activate);
    FirstKeepsForm(p, x);
    FirstIsIssuable(HBM2, p.table, PerBank, x.Queue(), x.ch, x.clk);
    HeadSelected(HBM2, PerBank, x.Queue(), x.ch, x.clk, i);
    var x1 := FirstIssued(p, x).1;
    assert x1 == x.(queueIdx := i, ch := Issue(HBM2, p.table, x.ch, act, x.clk));
    AllLate(HBM2, PerBank, x1.Queue(), x1.ch, x1.clk);
    assert WithQueue(x1, x1.Queue()) == x1;
  }

  /** The first read issues alone. */
  lemma IssuesRead(p: Params, x: Controller, v: View)
    requires Hbm2Controller(p) && Sees(p, x, v) && x.ch.refreshQ == [] && v.idx == 16
    requires v.gone == 0 && v.qb == [R0] && v.qc == [] && v.pending == [0]
    requires GetReadyCommand(HBM2, x.ch, R0, x.clk) == Ready(R0)
    ensures !UpdateAborts(x.ch, R0)
    ensures Sees(p, Issued(p, x), v.(qb := [], pending := []))
      && Issued(p, x).ch == Issue(HBM2, p.table, x.ch, R0, x.clk)
  {
    hide GetCommandToIssue, Issue, GetReadyCommand, UpdateAborts;
    FirstKeepsForm(p, x);
    FirstIsIssuable(HBM2, p.table, PerBank, x.Queue(), x.ch, x.clk);
    assert Writes(0) == [];
    HeadSelected(HBM2, PerBank, x.Queue(), x.ch, x.clk, 16);
    assert Erased([R0], R0) == [];
    var x1 := FirstIssued(p, x).1;
    AllLate(HBM2, PerBank, x1.Queue(), x1.ch, x1.clk);
    assert WithQueue(x1, x1.Queue()) == x1;
    IssuedKeepsForm(p, x);
    assert |x.books.pendingRd| == |Addrs(x.books.pendingRd)| == 1 && x.books.pendingRd[0].addr == 0;
    assert Others(x.books.pendingRd, 0) == [];
  }

  // ---- the run ----

  /** What comes in before cycle `n`. */
  function Requests(n: nat): seq<Transaction> {
    if n == 0 then [Read1(0)] else if 16 <= n <= 24 then [Write1(n - 16)] else if n == 38 then [Read1(1)] else []
  }

  function ViewAt(n: nat): View
    requires n <= 39
  {
    if n == 0 then View([], [], 0, 0, 0, [], [], 0, 0)
    else if n == 1 then View([], [0], 0, 0, 0, [R0], [], 0, 0)
    else if n <= 15 then View([], [0], 0, 0, 0, [R0], [], 16, 0)
    else if n <= 24 then View([], [], 0, n - 16, 0, [], [], 16, 0)
    else if n == 25 then View([], [], 1, 9, 1, [], [], 16, 8)
    else if n <= 32 then View([], [], n - 24, 9, n - 24, [], [], 15, 33 - n)
    else if n == 33 then View([], [], 9, 9, 8, [], [W(8)], 15, 0)
    else if n <= 38 then View([], [], 9, 9, 8, [], [W(8)], 0, 0)
    else View([], [1], 9, 9, 8, [R1], [W(8)], 0, 0)
  }

  ghost predicate ChannelAt(ch: Channel, n: nat) {
    if n <= 1 then Stage0(ch) else if n <= 15 then Stage1(ch) else if n <= 25 then Stage2(ch)
    else if n <= 33 then Stage3(ch) else Stage4(ch)
  }

  ghost predicate Reached(p: Params, x: Controller, n: nat)
    requires n <= 39
  {
    x.clk == n && Sees(p, x, ViewAt(n)) && ChannelAt(x.ch, n)
  }

  /** One cycle of the run: the requests come in, commands issue, a transaction is scheduled; no refresh is due. */
  ghost function Went(p: Params, x: Controller, n: nat): Controller
    requires Wellformed(p, x)
  {
    AddingKeepsForm(p, x, Requests(n));
    Cycled(p, AddedAll(x, Requests(n)), -1)
  }

  lemma WentIs(p: Params, x: Controller, n: nat, y: Controller)
    requires Wellformed(p, x) && y == AddedAll(x, Requests(n))
    ensures Wellformed(p, y) && Went(p, x, n) == Scheduled(p, Issued(p, y)).(clk := y.clk + 1)
  {
    AddingKeepsForm(p, x, Requests(n));
    assert y.(ch := Arrived(p.cfg, y.ch, -1)) == y;
    hide Issued, Scheduled, AddedAll;
  }

  lemma OneRequest(x: Controller, t: Transaction)
    ensures AddedAll(x, [t]) == Added(x, t)
  {
    assert [t][1..] == [];
    assert AddedAll(Added(x, t), []) == Added(x, t);
    hide Added;
  }

  lemma NoRequest(x: Controller)
    ensures AddedAll(x, []) == x
  {
  }

  /** A cycle in which nothing issues. */
  lemma QuietCycle(p: Params, x: Controller, n: nat)
    requires Hbm2Controller(p) && n < 39 && n !in {1, 15, 25, 33} && Reached(p, x, n)
    ensures Reached(p, Went(p, x, n), n + 1)
  {
    hide Sees, Scheduled, Issued, Added, Banks3, AddedAll, Stage0, Hbm2Table;
    var v := ViewAt(n);
    var y := AddedAll(x, Requests(n));
    var w := if n == 0 then v.(queued := [0], pending := [0]) else if 16 <= n <= 24 then v.(end := n - 15)
             else if n == 38 then v.(queued := [1], pending := [1]) else v;
    SeesForm(p, x, v);
    WentIs(p, x, n, y);
    if n == 0 { OneRequest(x, Read1(0)); SeesRead(p, x, v, 0); assert [] + [0] == [0]; }
    else if 16 <= n <= 24 { OneRequest(x, Write1(n - 16)); SeesWrite(p, x, v); }
    else if n == 38 { OneRequest(x, Read1(1)); SeesRead(p, x, v, 1); assert [] + [1] == [1]; }
    else { NoRequest(x); }
    assert Sees(p, y, w) && y.ch == x.ch && y.clk == n by { AddingKeepsForm(p, x, Requests(n)); }
    StageWaits(y, w, n);
    IssuesNothing(p, y, w);
    Schedules(p, y, w, n);
    ClockOnly(p, Scheduled(p, y), ViewAt(n + 1), n + 1);
  }

  lemma SeesForm(p: Params, x: Controller, v: View)
    requires Sees(p, x, v)
    ensures Wellformed(p, x)
  {
  }

  lemma ClockOnly(p: Params, x: Controller, v: View, clk: int)
    requires Sees(p, x, v)
    ensures Sees(p, x.(clk := clk), v)
  {
  }

  /** In these cycles every queued command has to wait. */
  lemma StageWaits(y: Controller, w: View, n: nat)
    requires n < 39 && n !in {1, 15, 25, 33} && y.clk == n && ChannelAt(y.ch, n)
    requires w.gone == ViewAt(n).gone && w.qb == ViewAt(n).qb && w.qc == ViewAt(n).qc
    ensures y.ch.Valid(HBM2) && y.ch.refreshQ == [] && AllWait(y, w)
  {
  }

  lemma Schedules(p: Params, y: Controller, w: View, n: nat)
    requires Hbm2Controller(p) && n < 39 && n !in {1, 15, 25, 33} && Sees(p, y, w)
    requires var v := ViewAt(n);
      w == if n == 0 then v.(queued := [0], pending := [0]) else if 16 <= n <= 24 then v.(end := n - 15)
           else if n == 38 then v.(queued := [1], pending := [1]) else v
    ensures Sees(p, Scheduled(p, y), ViewAt(n + 1)) && Scheduled(p, y).ch == y.ch
  {
    hide Sees, Scheduled;
    if n == 0 { SchedulesRead(p, y, w, 0); }
    else if n == 38 { SchedulesRead(p, y, w, 1); }
    else if 24 <= n <= 32 { SchedulesWrite(p, y, w); }
    else { SchedulesNothing(p, y, w); }
  }

  /** An activation after which every queued command has to wait. */
  lemma ActivateGoes(p: Params, x: Controller, v: View, i: int, c: Command)
    requires Hbm2Controller(p) && Sees(p, x, v) && x.ch.refreshQ == [] && i in {0, 15, 16}
    requires x.books.queues[i] == [c] && Plain(HBM2, c)
    requires GetReadyCommand(HBM2, x.ch, c, x.clk) == Ready(c.(kind := Activate))
    requires forall j | 0 <= j < 32 && j != i :: LateQueue(HBM2, x.ch, x.clk, x.books.queues[j])
    requires !UpdateAborts(x.ch, c.(kind := Activate)) ==>
      var ch' := Issue(HBM2, p.table, x.ch, c.(kind := Activate), x.clk);
      ch'.Valid(HBM2) && AllWait(x.(ch := ch'), v)
    ensures !UpdateAborts(x.ch, c.(kind := Activate))
    ensures Sees(p, Issued(p, x), v.(idx := i)) && Issued(p, x).clk == x.clk
    ensures Issued(p, x).ch == Issue(HBM2, p.table, x.ch, c.(kind := Activate), x.clk)
  {
    hide GetReadyCommand, LateQueue, Issue, UpdateAborts, Issued;
    if !UpdateAborts(x.ch, c.(kind := Activate)) {
      var ch' := Issue(HBM2, p.table, x.ch, c.(kind := Activate), x.clk);
      WaitingIsLate(p, x.(ch := ch', queueIdx := i), v.(idx := i));
    }
    IssuesActivate(p, x, v, i, c);
  }

  lemma ActivationIsReady(ch: Channel, c: Command, clk: int)
    requires ch.Valid(HBM2) && Plain(HBM2, c)
    requires ch.banks[IdOf(c.addr)].normal.Closed? && ch.banks[IdOf(c.addr)].pim.Closed?
    requires ch.banks[IdOf(c.addr)].Earliest(Activate) <= clk && |ch.fourAw[c.Rank()]| < 4
    ensures GetReadyCommand(HBM2, ch, c, clk) == Ready(c.(kind := Activate))
  {
  }

  lemma WritesAreLate(ch: Channel, clk: int, n: nat)
    requires ch.Valid(HBM2) && n <= 8 && ch.banks[A].normal == Open(7) && ch.banks[A].Earliest(Write) > clk
    ensures LateQueue(HBM2, ch, clk, Writes(n))
  {
    assert forall i | 0 <= i < n :: Writes(n)[i] == W(i);
  }

  lemma BeforeB(p: Params, x: Controller)
    requires Hbm2Controller(p) && Reached(p, x, 1)
    ensures x.ch.Valid(HBM2) && x.ch.refreshQ == [] && |x.books.queues| == 32 && x.books.queues[16] == [R0]
    ensures GetReadyCommand(HBM2, x.ch, R0, 1) == Ready(R0.(kind := Activate))
    ensures forall j | 0 <= j < 32 && j != 16 :: LateQueue(HBM2, x.ch, 1, x.books.queues[j])
    ensures !UpdateAborts(x.ch, R0.(kind := Activate)) ==>
      var ch' := Issue(HBM2, p.table, x.ch, R0.(kind := Activate), 1);
      ch'.Valid(HBM2) && AllWait(x.(ch := ch'), ViewAt(1))
  {
    ActivationIsReady(x.ch, R0, 1);
    assert Writes(0) == [];
    if !UpdateAborts(x.ch, R0.(kind := Activate)) { ToStage1(p.table, x.ch); }
    hide Issue, UpdateAborts, GetReadyCommand, Hbm2Table, Placed;
  }

  lemma OpensB(p: Params, x: Controller)
    requires Hbm2Controller(p) && Reached(p, x, 1)
    ensures Reached(p, Went(p, x, 1), 2)
  {
    hide Issue, UpdateAborts, Issued, Scheduled, Hbm2Table, Placed, GetReadyCommand, Banks3, AllWait, LateQueue, Sees;
    SeesForm(p, x, ViewAt(1));
    BeforeB(p, x);
    NoRequest(x);
    WentIs(p, x, 1, x);
    ActivateGoes(p, x, ViewAt(1), 16, R0);
    ToStage1(p.table, x.ch);
    SchedulesNothing(p, Issued(p, x), ViewAt(2));
    ClockOnly(p, Issued(p, x), ViewAt(2), 2);
  }

  lemma ReadsB(p: Params, x: Controller)
    requires Hbm2Controller(p) && Reached(p, x, 15)
    ensures Reached(p, Went(p, x, 15), 16)
  {
    LateIsUnready(HBM2, x.ch, R0, 15);
    hide Issue, UpdateAborts, Issued, Scheduled, Hbm2Table, GetReadyCommand;
    NoRequest(x);
    WentIs(p, x, 15, x);
    IssuesRead(p, x, ViewAt(15));
    IssuedKeepsForm(p, x);
    ToStage2(p.table, x.ch);
    SchedulesNothing(p, Issued(p, x), ViewAt(16));
    ClockOnly(p, Issued(p, x), ViewAt(16), 16);
  }

  lemma BeforeA(p: Params, x: Controller)
    requires Hbm2Controller(p) && Reached(p, x, 25)
    ensures x.ch.Valid(HBM2) && x.ch.refreshQ == [] && |x.books.queues| == 32 && x.books.queues[15] == [W(0)]
    ensures GetReadyCommand(HBM2, x.ch, W(0), 25) == Ready(W(0).(kind := Activate))
    ensures forall j | 0 <= j < 32 && j != 15 :: LateQueue(HBM2, x.ch, 25, x.books.queues[j])
    ensures !UpdateAborts(x.ch, W(0).(kind := Activate)) ==>
      var ch' := Issue(HBM2, p.table, x.ch, W(0).(kind := Activate), 25);
      ch'.Valid(HBM2) && AllWait(x.(ch := ch'), ViewAt(25))
  {
    ActivationIsReady(x.ch, W(0), 25);
    assert Writes(1) == [W(0)];
    if !UpdateAborts(x.ch, W(0).(kind := Activate)) { ToStage3(p.table, x.ch); }
    hide Issue, UpdateAborts, GetReadyCommand, Hbm2Table, Placed;
  }

  lemma OpensA(p: Params, x: Controller)
    requires Hbm2Controller(p) && Reached(p, x, 25)
    ensures Reached(p, Went(p, x, 25), 26)
  {
    hide Issue, UpdateAborts, Issued, Scheduled, Hbm2Table, Placed, GetReadyCommand, Banks3, AllWait, LateQueue, Sees;
    SeesForm(p, x, ViewAt(25));
    BeforeA(p, x);
    NoRequest(x);
    WentIs(p, x, 25, x);
    ActivateGoes(p, x, ViewAt(25), 15, W(0));
    ToStage3(p.table, x.ch);
    SchedulesWrite(p, Issued(p, x), ViewAt(25).(idx := 15));
    ClockOnly(p, Scheduled(p, Issued(p, x)), ViewAt(26), 26);
  }

  lemma BeforeC(p: Params, x: Controller)
    requires Hbm2Controller(p) && Reached(p, x, 33)
    ensures x.ch.Valid(HBM2) && x.ch.refreshQ == [] && |x.books.queues| == 32 && x.books.queues[0] == [W(8)]
    ensures GetReadyCommand(HBM2, x.ch, W(8), 33) == Ready(W(8).(kind := Activate))
    ensures forall j | 0 <= j < 32 && j != 0 :: LateQueue(HBM2, x.ch, 33, x.books.queues[j])
    ensures !UpdateAborts(x.ch, W(8).(kind := Activate)) ==>
      var ch' := Issue(HBM2, p.table, x.ch, W(8).(kind := Activate), 33);
      ch'.Valid(HBM2) && AllWait(x.(ch := ch'), ViewAt(33))
  {
    ActivationIsReady(x.ch, W(8), 33);
    WritesAreLate(x.ch, 33, 8);
    if !UpdateAborts(x.ch, W(8).(kind := Activate)) { ToStage4(p.table, x.ch); }
    hide Issue, UpdateAborts, GetReadyCommand, Hbm2Table, Placed;
  }

  lemma OpensC(p: Params, x: Controller)
    requires Hbm2Controller(p) && Reached(p, x, 33)
    ensures Reached(p, Went(p, x, 33), 34)
  {
    hide Issue, UpdateAborts, Issued, Scheduled, Hbm2Table, Placed, GetReadyCommand, Banks3, AllWait, LateQueue, Sees;
    SeesForm(p, x, ViewAt(33));
    BeforeC(p, x);
    NoRequest(x);
    WentIs(p, x, 33, x);
    ActivateGoes(p, x, ViewAt(33), 0, W(8));
    ToStage4(p.table, x.ch);
    SchedulesNothing(p, Issued(p, x), ViewAt(34));
    ClockOnly(p, Issued(p, x), ViewAt(34), 34);
  }

  lemma StartReached(p: Params)
    requires Hbm2Controller(p)
    ensures Reached(p, Before(p, Requests, 1950, 0), 0)
  {
    FreshSees(p);
    hide Sees, Stage0;
  }

  lemma {:induction false} Reaches(p: Params, n: nat)
    requires Hbm2Controller(p) && n <= 39
    ensures Reached(p, Before(p, Requests, 1950, n), n)
  {
    hide Before, Went, Reached, Requests, Hbm2Table, Placed, Wellformed;
    if n == 0 {
      StartReached(p);
    } else {
      Reaches(p, n - 1);
      BeforeNext(p, n - 1);
      GoesOn(p, Before(p, Requests, 1950, n - 1), n - 1);
    }
  }

  lemma GoesOn(p: Params, x: Controller, n: nat)
    requires Hbm2Controller(p) && n < 39 && Reached(p, x, n)
    ensures Wellformed(p, x) && Reached(p, Went(p, x, n), n + 1)
  {
    SeesForm(p, x, ViewAt(n));
    hide Reached, Went, Wellformed, Hbm2Controller;
    if n == 1 { OpensB(p, x); }
    else if n == 15 { ReadsB(p, x); }
    else if n == 25 { OpensA(p, x); }
    else if n == 33 { OpensC(p, x); }
    else { QuietCycle(p, x, n); }
  }

  lemma BeforeNext(p: Params, n: nat)
    requires Hbm2Controller(p) && n < 40
    ensures Before(p, Requests, 1950, n + 1) == Went(p, Before(p, Requests, 1950, n), n)
  {
    Reports(2, 1950, n, 0, n);
    hide Cycled, AddedAll, ArrivalAt, Requests;
  }

  // ---- the loss ----

  lemma LastCycle(p: Params, x: Controller)
    requires Hbm2Controller(p) && Reached(p, x, 39)
    ensures Wellformed(p, x)
    ensures var r := RunCycle(HBM2, p.table, PerBank, true, x.Queue(), x.ch, 39);
      && r.first == Ready(W(0)) && r.second == Ready(R1) && Drops(r)
      && r.q.queues == x.books.queues[15 := Erased(Writes(8), W(0))][16 := []]
  {
    hide GetCommandToIssue, Issue, GetReadyCommand, UpdateAborts, Placed;
    assert Writes(8)[0] == W(0);
    LateIsUnready(HBM2, x.ch, W(0), 39);
    LateIsUnready(HBM2, x.ch, R1, 39);
    FirstIsIssuable(HBM2, p.table, PerBank, x.Queue(), x.ch, 39);
    HeadSelected(HBM2, PerBank, x.Queue(), x.ch, 39, 15);
    var q1 := x.Queue().(queueIdx := 15, queues := x.books.queues[15 := Erased(Writes(8), W(0))]);
    var ch1 := Issue(HBM2, p.table, x.ch, W(0), 39);
    WriteSpares(p.table);
    StillCertifiedExactly(HBM2, p.table, x.ch, W(0), R1, 39);
    HeadSelected(HBM2, PerBank, q1, ch1, 39, 16);
    assert Erased([R1], R1) == [];
  }

  /** A write does not delay a read of the other rank. */
  lemma WriteSpares(table: TimingTable)
    requires Hbm2Table(table)
    ensures !PositiveFor(Entries(HBM2, table, W(0), B), Read)
  {
    TwoEntries(table.otherRanks(Write));
  }

  /** The lost read leaves nothing behind but its pending entry. */
  lemma LastIssued(p: Params, x: Controller)
    requires Hbm2Controller(p) && Reached(p, x, 39)
    ensures Wellformed(p, x)
    ensures var b := Issued(p, x).books;
      && b.pendingRd == x.books.pendingRd && b.readQueue == x.books.readQueue && b.writeBuffer == x.books.writeBuffer
      && b.queues == x.books.queues[15 := Erased(Writes(8), W(0))][16 := []]
  {
    hide FirstCommand, GetCommandToIssue, Issue, UpdateAborts, Sees, ChannelAt, Hbm2Table, Placed;
    LastCycle(p, x);
    IssuedIsCycle(p, x);
    FirstKeepsForm(p, x);
    FirstIsIssuable(HBM2, p.table, PerBank, x.Queue(), x.ch, 39);
    assert FirstIssued(p, x).0 == Ready(W(0));
    var x1 := FirstIssued(p, x).1;
    assert x1.books.pendingRd == x.books.pendingRd && x1.books.readQueue == x.books.readQueue;
    assert x1.books.writeBuffer == x.books.writeBuffer;
  }

  lemma OnlyWrites(queues: seq<seq<Command>>, v: View)
    requires QueuesAre(queues, v) && v.gone == 8 && v.qc == [W(8)]
    ensures CountAll(queues[15 := Erased(Writes(8), W(0))][16 := []], Read, 1) == 0
  {
    var after := queues[15 := Erased(Writes(8), W(0))][16 := []];
    assert Writes(8)[0] == W(0) && Erased(Writes(8), W(0)) == Writes(8)[1..];
    forall j, n | 0 <= j < |after| && 0 <= n < |after[j]|
      ensures !Carries(Read, 1)(after[j][n])
    {
      assert after[j][n].kind == Write;
    }
    Counting.CountAllNone(after, Carries(Read, 1));
  }

  lemma Strands(p: Params, x: Controller)
    requires Hbm2Controller(p) && Reached(p, x, 39)
    ensures Wellformed(p, x) && exists t: Transaction :: t.addr == 1 && Stranded(Issued(p, x).books, t)
  {
    LastIssued(p, x);
    OnlyWrites(x.books.queues, ViewAt(39));
    hide Issued;
    assert |x.books.pendingRd| == |Addrs(x.books.pendingRd)| == 1;
    var t := x.books.pendingRd[0];
    assert t.addr == Addrs(x.books.pendingRd)[0] == 1;
    assert |x.books.readQueue| == |Addrs(x.books.readQueue)| == 0;
    assert Stranded(Issued(p, x).books, t);
  }

  /** At most one request comes in a cycle, the refresh unit is still in its first interval, and cycle 39 issues a write
      of rank 0 and loses a certified read of rank 1; from then on that read waits for good. */
  lemma Hbm2ControllerLosesARead(p: Params) returns (n: nat)
    requires Hbm2Controller(p)
    ensures n == 39 && forall m: nat :: |Requests(m)| <= 1
    ensures var x := Loaded(p, Requests, 1950, n);
      var r := RunCycle(HBM2, p.table, PerBank, true, x.Queue(), x.ch, n);
      r.first == Ready(W(0)) && r.second == Ready(R1) && Drops(r)
    ensures exists t: Transaction :: t.addr == 1 && Stranded(Before(p, Requests, 1950, n + 1).books, t)
  {
    hide Before, Loaded, RunCycle, Drops, Stranded, Issued, Hbm2Table, Placed, Reached;
    n := 39;
    var x := Before(p, Requests, 1950, n);
    Reaches(p, n);
    LoadedIsBefore(p, n);
    LastCycle(p, x);
    Strands(p, x);
    var t: Transaction :| t.addr == 1 && Stranded(Issued(p, x).books, t);
    AfterLoss(p, x, t, n);
  }

  lemma LoadedIsBefore(p: Params, n: nat)
    requires Hbm2Controller(p) && n == 39
    ensures Loaded(p, Requests, 1950, n) == Before(p, Requests, 1950, n)
  {
    hide Before;
    NoRequest(Before(p, Requests, 1950, n));
  }

  lemma AfterLoss(p: Params, x: Controller, t: Transaction, n: nat)
    requires Hbm2Controller(p) && n == 39 && x == Before(p, Requests, 1950, n) && Wellformed(p, x)
    requires Stranded(Issued(p, x).books, t)
    ensures Stranded(Before(p, Requests, 1950, n + 1).books, t)
  {
    hide Issued, Scheduled, Stranded, Before, Hbm2Table, Placed;
    BeforeNext(p, n);
    NoRequest(x);
    WentIs(p, x, n, x);
    IssuedKeepsForm(p, x);
    SchedulingKeeps(p, Issued(p, x), t);
  }
}
