/** Why the no-refresh assumption is needed: a concrete run, on one bank and a table without delays, in which a
    refresh completes between a header and its compute and the two buffers end up on the same row. */
module DualBufferLimits {
  // Driven as the controller drives it: a refresh every eight cycles, the slack as reported, one command a cycle. The
  // compute comes after the refresh, eight cycles behind its header.

  import opened Commands
  import opened Banks
  import opened Channels
  import opened Queues
  import opened NeuPims
  import opened DualBuffer
  import opened DualBufferDriven
  import opened Refreshes

  const ONE_BANK := Config(1, 1, 1, 0, 0, false, 0, 0, 0, 0)
  const ONLY := BankId(0, 0, 0)

  const HEADER := Command(PHeader, Address(0, -1, 0, 0, 7, 0), 1, false, 1)
  const COMPUTE := Command(CompsReadres, Address(0, -1, -1, -1, 7, 1), 2, true, 1)
  const READ := Command(Read, Address(0, 0, 0, 0, 7, 0), 3, false, 0)
  const REFRESH := RefreshCommand(0)
  const ACTIVATE := Command(Activate, Address(0, 0, 0, 0, 7, 0), 3, false, 0)
  const GROUP_ACTIVATE := Command(GAct, Address(-1, 0, 0, 0, 7, -1), 2, true, 1)

  function OneBank(normal: RowBuffer, pim: RowBuffer, window: seq<int>, refreshQ: seq<Command>): Channel {
    Channel(map[ONLY := Bank(normal, pim, 0, map[])], [window], [[]], refreshQ)
  }

  function OneQueue(normal: seq<Command>, pim: seq<Command>, reservedRow: int, slack: int): NQueue {
    NQueue([normal], pim, 0, false, {}, false, slack, reservedRow, false, NO_ADDRESS)
  }

  /** A cycle without a refresh, `remain` cycles reported as left. */
  function Left(remain: int): Action { Cycle(-1, remain, 0) }

  /** What the refresh unit makes of the cycles of the run. */
  function ReportedAt(clk: nat): Action {
    if clk == 8 then Cycle(0, 7, 0) else Left(if clk < 7 then 7 - clk else if clk == 7 then 8 else 15 - clk)
  }

  lemma Reported(clk: nat)
    requires clk <= 10
    ensures Tick(1, 8, clk, 0) == ReportedAt(clk)
  {
    Reports(1, 8, clk, if clk < 8 then 0 else 1, if clk < 8 then clk else clk - 8);
    hide ArrivalAt, Countdown;
  }

  lemma ScanOneBank(ch: Channel, cmd: Command, clk: int, own: Answer)
    requires ch.Valid(ONE_BANK) && own == ch.banks[ONLY].GetReady(cmd, clk) && own.Ready?
    requires cmd.IsChannelCmd() ==> own.cmd.kind in {cmd.kind, GAct}
    ensures Scan(ONE_BANK, ch, cmd, clk, 1, 0, 0, 0, 0, 1, NO_COMMAND)
         == if own.cmd.kind == cmd.kind then own else Ready(RaisedAt(cmd, own.cmd, 0, 0, 0))
  {
    var last := own.cmd;
    assert Scan(ONE_BANK, ch, cmd, clk, 1, 1, 0, 0, 1, 1, last) == Ready(last);
    assert Scan(ONE_BANK, ch, cmd, clk, 1, 0, 1, 0, 1, 1, last) == Ready(last);
    assert Scan(ONE_BANK, ch, cmd, clk, 1, 0, 0, 1, 1, 1, last) == Ready(last);
  }

  // ---- the worlds of the run ----

  const IDLE := OneBank(Closed, Closed, [], [])
  const W0 := World(IDLE, 0, OneQueue([], [], -1, 0), Idle)
  const W1 := World(IDLE, 1, OneQueue([], [], -1, 0), Idle)
  const W2 := World(IDLE, 1, OneQueue([], [HEADER], -1, 0), Idle)

  /** The header is consumed: row 7 is reserved and a phase is open. */
  function Reserving(clk: nat): World { World(IDLE, clk, OneQueue([], [], 7, 6), Gemv(7)) }

  const W9 := World(IDLE, 9, OneQueue([], [], -1, 0), Gemv(7))
  const W10 := World(IDLE, 9, OneQueue([READ], [], -1, 0), Gemv(7))
  const W11 := World(OneBank(Open(7), Closed, [9], []), 10, OneQueue([READ], [], -1, 0), Gemv(7))
  const W12 := World(OneBank(Open(7), Closed, [9], []), 10, OneQueue([READ], [COMPUTE], -1, 0), Gemv(7))
  const W13 := World(OneBank(Open(7), Open(7), [9], []), 11, OneQueue([READ], [COMPUTE], -1, 0), Gemv(7))

  lemma OneBankIsValid(normal: RowBuffer, pim: RowBuffer, window: seq<int>, refreshQ: seq<Command>)
    requires refreshQ in {[], [REFRESH]}
    ensures OneBank(normal, pim, window, refreshQ).Valid(ONE_BANK)
  {
  }

  lemma IssueOneBank(ch: Channel, c: Command, clk: int)
    requires ch.Valid(ONE_BANK) && c in {REFRESH, ACTIVATE, GROUP_ACTIVATE} && !UpdateAborts(ch, c)
    requires ch.banks == map[ONLY := ch.banks[ONLY]]
    ensures Issue(ONE_BANK, NO_DELAYS, ch, c, clk).banks == map[ONLY := ch.banks[ONLY].Update(c)]
    ensures Issue(ONE_BANK, NO_DELAYS, ch, c, clk).refreshQ
         == if c == REFRESH then RankRefreshed(ch.refreshQ, 0) else ch.refreshQ
    ensures Issue(ONE_BANK, NO_DELAYS, ch, c, clk).fourAw
         == if c == ACTIVATE then [Activated(ch.fourAw[0], 0, clk)] else ch.fourAw
    ensures Issue(ONE_BANK, NO_DELAYS, ch, c, clk).thirtyTwoAw == ch.thirtyTwoAw
  {
    assert ONLY in ch.banks;
  }

  /** What a step of the run shows. */
  ghost predicate Leads(w: World, a: Action, w': World) {
    ValidWorld(ONE_BANK, PerRank, w) && Step(ONE_BANK, NO_DELAYS, PerRank, 8, w, a) == w'
  }

  lemma IdleStep(w: World, a: Action)
    requires w.ch == IDLE && a.Cycle? && a.arrival == -1 && w.q == OneQueue([], [], w.q.reservedRow, w.q.remainSlack)
    ensures Leads(w, a, w.(clk := w.clk + 1))
  {
    OneBankIsValid(Closed, Closed, [], []);
    assert RoundRobin(ONE_BANK, PerRank, w.q, w.ch, w.clk, 1) == Selection(NotReady, w.q);
  }

  lemma HeaderStep()
    ensures Leads(W2, Left(6), Reserving(2))
  {
    OneBankIsValid(Closed, Closed, [], []);
    ScanOneBank(IDLE, HEADER, 1, Ready(HEADER));
    assert GetReadyCommand(ONE_BANK, IDLE, HEADER, 1) == Ready(HEADER);
  }

  /** The refresh arrives and issues at once: the reservation is gone. */
  lemma RefreshStep()
    ensures Leads(Reserving(8), Cycle(0, 7, 0), W9)
  {
    var ch := OneBank(Closed, Closed, [], [REFRESH]);
    OneBankIsValid(Closed, Closed, [], []);
    OneBankIsValid(Closed, Closed, [], [REFRESH]);
    ScanOneBank(ch, REFRESH, 8, Ready(REFRESH));
    assert GetReadyCommand(ONE_BANK, ch, REFRESH, 8) == Ready(REFRESH);
    assert Arrived(ONE_BANK, IDLE, 0) == ch;
    SelectedIsIssuable(ONE_BANK, PerRank, Reserving(8).q, ch, 8, 7, 0);
    IssueOneBank(ch, REFRESH, 8);
  }

  /** With the PIM queue empty a read of row 7 activates it in the normal buffer. */
  lemma ReadStep()
    ensures Leads(W10, Left(6), W11)
  {
    OneBankIsValid(Closed, Closed, [], []);
    var q := W10.q;
    assert NormalEntry(ONE_BANK, PerRank, READ, 0);
    assert GetReadyCommand(ONE_BANK, IDLE, READ, 9) == Ready(ACTIVATE);
    assert FirstReady(ONE_BANK, PerRank, q, IDLE, 9, q.queues[0], 0, 0) == (Ready(ACTIVATE), 0);
    assert ServeQueue(ONE_BANK, PerRank, q, IDLE, 9) == Selection(Ready(ACTIVATE), q);
    assert RoundRobin(ONE_BANK, PerRank, q, IDLE, 9, 1) == Selection(Ready(ACTIVATE), q);
    SelectedIsIssuable(ONE_BANK, PerRank, q, IDLE, 9, 6, 0);
    IssueOneBank(IDLE, ACTIVATE, 9);
    assert Activated([], 0, 9) == [9];
  }

  /** The late compute raises G_ACT on row 7 without looking at the normal buffer. */
  lemma ComputeStep()
    ensures Leads(W12, Left(5), W13)
  {
    var ch := OneBank(Open(7), Closed, [9], []);
    OneBankIsValid(Open(7), Closed, [9], []);
    assert NormalEntry(ONE_BANK, PerRank, READ, 0);
    ScanOneBank(ch, COMPUTE, 10, Ready(COMPUTE.(kind := GAct)));
    assert GetReadyCommand(ONE_BANK, ch, COMPUTE, 10) == Ready(GROUP_ACTIVATE);
    SelectedIsIssuable(ONE_BANK, PerRank, W12.q, ch, 10, 5, 0);
    IssueOneBank(ch, GROUP_ACTIVATE, 10);
  }

  lemma Arrivals()
    ensures Leads(W1, Add(HEADER), W2) && Leads(W9, Add(READ), W10) && Leads(W11, Add(COMPUTE), W12)
  {
    OneBankIsValid(Closed, Closed, [], []);
    OneBankIsValid(Open(7), Closed, [9], []);
    var none: seq<Command> := [];
    assert none + [HEADER] == [HEADER] && none + [READ] == [READ] && none + [COMPUTE] == [COMPUTE];
    assert NormalEntry(ONE_BANK, PerRank, READ, 0);
    assert AddCommand(ONE_BANK, PerRank, W1.q, 8, HEADER) == W2.q;
    assert AddCommand(ONE_BANK, PerRank, W9.q, 8, READ) == W10.q;
    assert AddCommand(ONE_BANK, PerRank, W11.q, 8, COMPUTE) == W12.q;
  }

  // ---- the run ----

  /** A run without any assumption. */
  ghost function Follow(w: World, actions: seq<Action>): (w': World)
    requires ValidWorld(ONE_BANK, PerRank, w)
    ensures ValidWorld(ONE_BANK, PerRank, w')
    decreases |actions|
  {
    if actions == [] then w
    else
      StepKeepsValid(ONE_BANK, NO_DELAYS, PerRank, 8, w, actions[0]);
      Follow(Step(ONE_BANK, NO_DELAYS, PerRank, 8, w, actions[0]), actions[1..])
  }

  /** From `w` the run ends in the clash. */
  ghost predicate Ends(w: World, run: seq<Action>) {
    && ValidWorld(ONE_BANK, PerRank, w)
    && var w' := Follow(w, run); ONLY in w'.ch.banks && w'.ch.banks[ONLY].Clash()
  }

  /** The step at `k` leads to the rest of the run, which is on time. */
  ghost predicate From(run: seq<Action>, k: nat, clk: nat, w: World) {
    k <= |run| && Ends(w, run[k..]) && OnTime(1, 8, run[k..], clk)
  }

  lemma Before(run: seq<Action>, k: nat, clk: nat, w: World, w': World)
    requires k < |run| && Leads(w, run[k], w') && (run[k].Cycle? ==> run[k] == ReportedAt(clk)) && clk <= 10
    requires From(run, k + 1, if run[k].Cycle? then clk + 1 else clk, w')
    ensures From(run, k, clk, w)
  {
    hide Step, ValidWorld, Tick;
    assert run[k..][0] == run[k] && run[k..][1..] == run[k + 1..];
    Reported(clk);
    OnTimeFrom(1, 8, run, k, clk);
  }

  lemma LastWorld(run: seq<Action>)
    requires |run| == 14
    ensures From(run, 14, 11, W13)
  {
    OneBankIsValid(Open(7), Open(7), [9], []);
    assert NormalEntry(ONE_BANK, PerRank, READ, 0);
    assert run[14..] == [];
  }

  lemma IdleSteps()
    ensures Leads(W0, Left(7), W1)
    ensures forall c, remain | 2 <= c < 8 :: Leads(Reserving(c), Left(remain), Reserving(c + 1))
  {
    IdleStep(W0, Left(7));
    forall c, remain | 2 <= c < 8
      ensures Leads(Reserving(c), Left(remain), Reserving(c + 1))
    {
      IdleStep(Reserving(c), Left(remain));
    }
  }

  /** The actions of the run. */
  lemma Actions() returns (r: seq<Action>)
    ensures |r| == 14
    ensures r[0] == Left(7) && r[1] == Add(HEADER) && r[2] == Left(6) && r[3] == Left(5) && r[4] == Left(4)
    ensures r[5] == Left(3) && r[6] == Left(2) && r[7] == Left(1) && r[8] == Left(8) && r[9] == Cycle(0, 7, 0)
    ensures r[10] == Add(READ) && r[11] == Left(6) && r[12] == Add(COMPUTE) && r[13] == Left(5)
    ensures Paced(r) && forall a <- r :: !a.GwriteDone? && (a.Add? ==> !a.cmd.IsGwrite())
  {
    r := [Left(7), Add(HEADER), Left(6), Left(5), Left(4), Left(3), Left(2), Left(1), Left(8), Cycle(0, 7, 0),
          Add(READ), Left(6), Add(COMPUTE), Left(5)];
  }

  lemma RunEnds(r: seq<Action>)
    requires |r| == 14
    requires r[0] == Left(7) && r[1] == Add(HEADER) && r[2] == Left(6) && r[3] == Left(5) && r[4] == Left(4)
    requires r[5] == Left(3) && r[6] == Left(2) && r[7] == Left(1) && r[8] == Left(8) && r[9] == Cycle(0, 7, 0)
    requires r[10] == Add(READ) && r[11] == Left(6) && r[12] == Add(COMPUTE) && r[13] == Left(5)
    ensures From(r, 0, 0, W0)
  {
    hide Leads, From;
    IdleSteps();
    Arrivals();
    HeaderStep();
    RefreshStep();
    ReadStep();
    ComputeStep();
    LastWorld(r);
    Before(r, 13, 10, W12, W13);
    Before(r, 12, 10, W11, W12);
    Before(r, 11, 9, W10, W11);
    Before(r, 10, 9, W9, W10);
    Before(r, 9, 8, Reserving(8), W9);
    Before(r, 8, 7, Reserving(7), Reserving(8));
    Before(r, 7, 6, Reserving(6), Reserving(7));
    Before(r, 6, 5, Reserving(5), Reserving(6));
    Before(r, 5, 4, Reserving(4), Reserving(5));
    Before(r, 4, 3, Reserving(3), Reserving(4));
    Before(r, 3, 2, Reserving(2), Reserving(3));
    Before(r, 2, 1, W2, Reserving(2));
    Before(r, 1, 1, W1, W2);
    Before(r, 0, 0, W0, W1);
  }

  lemma StartIs()
    ensures Start(ONE_BANK, PerRank) == W0
  {
    assert Initial(ONE_BANK).banks == IDLE.banks && Initial(ONE_BANK).fourAw == [[]];
    assert EmptyQueue(ONE_BANK, PerRank).queues == [[]];
  }

  lemma HeaderThenCompute()
    ensures StreamOk(Idle, [HEADER, COMPUTE])
  {
    assert StreamOk(Gemv(7), [COMPUTE]);
    assert [HEADER, COMPUTE][1..] == [COMPUTE];
  }

  /** The PIM stream is well-formed and the run is driven as the controller drives it, no GWRITE being involved, but a
      refresh completes between header and compute: exclusion fails. */
  lemma RefreshBetweenHeaderAndComputeBreaksExclusion() returns (run: seq<Action>)
    ensures StreamOk(Idle, [HEADER, COMPUTE]) && Driven(1, 8, run)
    ensures forall a <- run :: !a.GwriteDone? && (a.Add? ==> !a.cmd.IsGwrite())
    ensures ValidWorld(ONE_BANK, PerRank, Start(ONE_BANK, PerRank))
    ensures var w := Follow(Start(ONE_BANK, PerRank), run); ONLY in w.ch.banks && w.ch.banks[ONLY].Clash()
  {
    HeaderThenCompute();
    run := Actions();
    hide Follow, StreamOk, ValidWorld;
    StartIs();
    RunEnds(run);
    assert run[0..] == run;
  }
}
