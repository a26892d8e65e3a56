/** Running the DRAM queue on from a state. */
module DualIssueRuns {
  // Runs without refreshes and with dual issue: commands that are served in the end, rows opened on purpose, time that
  // passes.

  import opened Commands
  import opened Banks
  import opened Channels
  import opened Queues
  import opened DramQueue
  import opened DualIssueLimits
  import opened RefreshProgress
  import Runs = ChannelRuns

  // ---- running on ----

  lemma FollowNothing(cfg: Config, table: TimingTable, structure: Structure, size: nat, w: World)
    requires Linked(cfg, structure, w)
    ensures Follow(cfg, table, structure, true, size, w, []) == w
  {
    hide Linked;
  }

  lemma FollowFirst(cfg: Config, table: TimingTable, structure: Structure, size: nat, w: World, actions: seq<Action>)
    requires Linked(cfg, structure, w) && actions != []
    ensures Linked(cfg, structure, Step(cfg, table, structure, true, size, w, actions[0]))
    ensures Follow(cfg, table, structure, true, size, w, actions)
         == Follow(cfg, table, structure, true, size, Step(cfg, table, structure, true, size, w, actions[0]),
                   actions[1..])
  {
    StepKeepsLink(cfg, table, structure, true, size, w, actions[0]);
    hide Linked, Step;
  }

  lemma {:induction false} FollowAppends(cfg: Config, table: TimingTable, structure: Structure, size: nat, w: World,
                                         a: seq<Action>, b: seq<Action>)
    requires Linked(cfg, structure, w)
    ensures Follow(cfg, table, structure, true, size, w, a + b)
         == Follow(cfg, table, structure, true, size, Follow(cfg, table, structure, true, size, w, a), b)
    decreases |a|
  {
    LinkedIs(cfg, structure, w);
    hide Follow, Step, Linked, ValidQueue, Channel.Valid;
    if a == [] {
      FollowNothing(cfg, table, structure, size, w);
      assert a + b == b;
    } else {
      var w1 := Step(cfg, table, structure, true, size, w, a[0]);
      var all := a + b;
      assert all[0] == a[0] && all[1..] == a[1..] + b;
      FollowFirst(cfg, table, structure, size, w, a);
      FollowFirst(cfg, table, structure, size, w, all);
      FollowAppends(cfg, table, structure, size, w1, a[1..], b);
    }
  }

  lemma FollowOne(cfg: Config, table: TimingTable, structure: Structure, size: nat, w: World, a: Action)
    requires Linked(cfg, structure, w)
    ensures Follow(cfg, table, structure, true, size, w, [a]) == Step(cfg, table, structure, true, size, w, a)
  {
    LinkedIs(cfg, structure, w);
    hide Follow, Step, Linked;
    FollowFirst(cfg, table, structure, size, w, [a]);
    assert [a][1..] == [];
    FollowNothing(cfg, table, structure, size, Step(cfg, table, structure, true, size, w, a));
  }

  const TICK := Tick(-1)

  predicate AllTicks(actions: seq<Action>) { forall a <- actions :: a == TICK }

  /** No refresh arrives, and after every command that enters comes a cycle. */
  predicate Steady(actions: seq<Action>) {
    forall i | 0 <= i < |actions| :: SteadyAt(actions, i)
  }

  predicate SteadyAt(actions: seq<Action>, i: int)
    requires 0 <= i < |actions|
  {
    if actions[i].Tick? then actions[i] == TICK else i + 1 < |actions| && actions[i + 1] == TICK
  }

  lemma SteadyAppends(a: seq<Action>, b: seq<Action>)
    requires Steady(a) && Steady(b)
    ensures Steady(a + b)
  {
    forall i | 0 <= i < |a + b|
      ensures SteadyAt(a + b, i)
    {
      if i < |a| { assert SteadyAt(a, i); } else { assert SteadyAt(b, i - |a|); }
    }
  }

  lemma TicksAreSteady(actions: seq<Action>)
    requires AllTicks(actions)
    ensures Steady(actions)
  {
    forall i | 0 <= i < |actions|
      ensures SteadyAt(actions, i)
    {
      assert actions[i] in actions;
    }
  }

  lemma EntryIsSteady(c: Command, rest: seq<Action>)
    requires AllTicks(rest) && rest != []
    ensures Steady([Add(c)] + rest)
  {
    var all := [Add(c)] + rest;
    assert rest[0] in rest && all[1] == rest[0];
    forall i | 0 <= i < |all|
      ensures SteadyAt(all, i)
    {
      if i > 0 { assert all[i] == rest[i - 1] && rest[i - 1] in rest; }
    }
  }

  /** No refresh is waiting or latched. */
  ghost predicate Still(cfg: Config, structure: Structure, w: World) {
    Linked(cfg, structure, w) && w.ch.refreshQ == [] && !w.q.isInRef
  }

  predicate AllEmpty(q: DQueue) { forall j | 0 <= j < |q.queues| :: q.queues[j] == [] }

  ghost predicate Quiet(cfg: Config, structure: Structure, w: World) {
    Still(cfg, structure, w) && AllEmpty(w.q)
  }

  // ---- one command alone ----

  /** The only command in the queues is `c`; its bank is closed or already on its row. */
  ghost predicate Alone(cfg: Config, structure: Structure, q: DQueue, ch: Channel, c: Command) {
    var i := QueueIndex(cfg, structure, c.addr);
    && ch.Valid(cfg) && ValidQueue(cfg, structure, q) && ch.refreshQ == [] && !q.isInRef
    && 0 <= i < |q.queues| && q.queues[i] == [c] && EmptyBut(q, i) && Entry(cfg, structure, c, i)
    && ch.banks[IdOf(c.addr)].pim.Closed? && Openable(ch.banks[IdOf(c.addr)].normal, c.Row())
  }

  predicate Openable(buffer: RowBuffer, row: int) { buffer.Closed? || buffer == Open(row) }

  /** The row of `c` is open and every other buffer is as before. */
  ghost predicate RowsAfter(ch: Channel, ch': Channel, c: Command) {
    && ch'.banks.Keys == ch.banks.Keys
    && forall id | id in ch.banks ::
         && ch'.banks[id].pim == ch.banks[id].pim
         && ch'.banks[id].normal == if id == IdOf(c.addr) then Open(c.Row()) else ch.banks[id].normal
  }

  /** What such a command can ask for. */
  lemma AloneAnswers(cfg: Config, ch: Channel, c: Command, clk: int)
    requires ch.Valid(cfg) && cfg.Has(IdOf(c.addr)) && c.IsReadWrite() && !c.isLastComps && c.numComps == 0
    requires ch.banks[IdOf(c.addr)].pim.Closed? && Openable(ch.banks[IdOf(c.addr)].normal, c.Row())
    ensures GetReadyCommand(cfg, ch, c, clk)
         in {NotReady, if ch.banks[IdOf(c.addr)].normal.Closed? then Ready(c.(kind := Activate)) else Ready(c)}
  {
  }

  /** Issuing an activation or the command itself opens at most its row. */
  lemma IssueRowsOf(cfg: Config, table: TimingTable, ch: Channel, c: Command, kind: CommandType, clk: int)
    requires ch.Valid(cfg) && cfg.Has(IdOf(c.addr)) && kind in {Activate, Read, Write}
    requires cfg.Addressed(c.(kind := kind)) && !UpdateAborts(ch, c.(kind := kind))
    requires kind != Activate ==> ch.banks[IdOf(c.addr)].normal == Open(c.Row())
    ensures RowsAfter(ch, Issue(cfg, table, ch, c.(kind := kind), clk), c)
    ensures Issue(cfg, table, ch, c.(kind := kind), clk).Valid(cfg)
    ensures Issue(cfg, table, ch, c.(kind := kind), clk).refreshQ == ch.refreshQ
  {
    Runs.IssueFrame(cfg, table, ch, c.(kind := kind), clk);
    Runs.IssueRows(cfg, table, ch, c.(kind := kind), clk);
    hide Issue;
  }

  lemma RowsTwice(ch: Channel, mid: Channel, ch': Channel, c: Command)
    requires RowsAfter(ch, mid, c) && RowsAfter(mid, ch', c)
    ensures RowsAfter(ch, ch', c)
  {
  }

  lemma EmptyRound(cfg: Config, structure: Structure, q: DQueue, ch: Channel, clk: int)
    requires ch.Valid(cfg) && ValidQueue(cfg, structure, q) && !q.isInRef && AllEmpty(q)
    ensures GetCommandToIssue(cfg, structure, q, ch, clk) == Selection(NotReady, q)
  {
    OneQueueRound(cfg, structure, q, ch, clk, q.queueIdx);
  }

  /** One cycle with a lone command: it waits, or its row opens, or it issues. */
  lemma CycleAlone(cfg: Config, table: TimingTable, structure: Structure, q: DQueue, ch: Channel, clk: int, c: Command)
    requires Alone(cfg, structure, q, ch, c)
    ensures var r, answer := RunCycle(cfg, table, structure, true, q, ch, clk), GetReadyCommand(cfg, ch, c, clk);
      var i := QueueIndex(cfg, structure, c.addr);
      if answer.NotReady? then r.q == q && r.ch == ch
      else
        && RowsAfter(ch, r.ch, c)
        && (r.q == q.(queueIdx := i, queues := q.queues[i := []])
            || (r.q == q.(queueIdx := i) && ch.banks[IdOf(c.addr)].normal.Closed?))
  {
    hide RoundRobin, FirstReady, GetReadyCommand, Issue, GetCommandToIssue;
    var i := QueueIndex(cfg, structure, c.addr);
    FirstIsIssuable(cfg, table, structure, q, ch, clk);
    OneQueueRound(cfg, structure, q, ch, clk, i);
    HeadServed(cfg, structure, q, ch, clk, i);
    AloneAnswers(cfg, ch, c, clk);
    var answer := GetReadyCommand(cfg, ch, c, clk);
    if answer.Ready? {
      var ch1 := Issue(cfg, table, ch, answer.cmd, clk);
      IssueRowsOf(cfg, table, ch, c, answer.cmd.kind, clk);
      assert Erased([c], c) == [];
      if answer.cmd == c {
        EmptyRound(cfg, structure, q.(queueIdx := i, queues := q.queues[i := []]), ch1, clk);
      } else {
        SecondAlone(cfg, table, structure, q.(queueIdx := i), ch1, clk, c);
        if GetReadyCommand(cfg, ch1, c, clk).Ready? { RowsTwice(ch, ch1, Issue(cfg, table, ch1, c, clk), c); }
      }
    }
  }

  /** After the activation the command may issue in the same cycle. */
  lemma SecondAlone(cfg: Config, table: TimingTable, structure: Structure, q: DQueue, ch: Channel, clk: int, c: Command)
    requires Alone(cfg, structure, q, ch, c) && q.queueIdx == QueueIndex(cfg, structure, c.addr)
    requires ch.banks[IdOf(c.addr)].normal == Open(c.Row())
    ensures cfg.Addressed(c)
    ensures var s := GetCommandToIssue(cfg, structure, q, ch, clk);
      if GetReadyCommand(cfg, ch, c, clk).Ready?
      then s == Selection(Ready(c), q.(queues := q.queues[q.queueIdx := []])) && !UpdateAborts(ch, c)
           && RowsAfter(ch, Issue(cfg, table, ch, c, clk), c)
      else s == Selection(NotReady, q)
  {
    hide RoundRobin, FirstReady, GetReadyCommand, Issue;
    var i := q.queueIdx;
    NextIsIssuable(cfg, table, structure, q, ch, clk);
    OneQueueRound(cfg, structure, q, ch, clk, i);
    HeadServed(cfg, structure, q, ch, clk, i);
    AloneAnswers(cfg, ch, c, clk);
    assert Erased([c], c) == [];
    if GetReadyCommand(cfg, ch, c, clk).Ready? { IssueRowsOf(cfg, table, ch, c, c.kind, clk); }
  }

  /** The cycle from which a lone command waits no longer: for its activation or for itself. */
  function DueAt(cfg: Config, ch: Channel, c: Command): int
    requires ch.Valid(cfg) && cfg.Has(IdOf(c.addr))
  {
    var b, four, long := ch.banks[IdOf(c.addr)], ch.fourAw[c.Rank()], ch.thirtyTwoAw[c.Rank()];
    if b.normal.Open? then b.Earliest(c.kind)
    else Max(b.Earliest(Activate), Max(if four == [] then 0 else four[0], if long == [] then 0 else long[0]))
  }

  lemma WaitsUntilDue(cfg: Config, ch: Channel, c: Command, clk: int)
    requires ch.Valid(cfg) && cfg.Has(IdOf(c.addr)) && c.IsReadWrite() && !c.isLastComps && c.numComps == 0
    requires ch.banks[IdOf(c.addr)].pim.Closed? && Openable(ch.banks[IdOf(c.addr)].normal, c.Row())
    ensures GetReadyCommand(cfg, ch, c, clk).NotReady? ==> clk < DueAt(cfg, ch, c)
  {
  }

  /** The command has been served: its row is open, its queue was the last one served, nothing else moved. */
  ghost predicate Served(cfg: Config, structure: Structure, w: World, w': World, c: Command) {
    && Quiet(cfg, structure, w') && RowsAfter(w.ch, w'.ch, c)
    && w'.q.queueIdx == QueueIndex(cfg, structure, c.addr) && |w'.q.queues| == |w.q.queues|
  }

  lemma TickIs(cfg: Config, table: TimingTable, structure: Structure, size: nat, w: World)
    requires w.ch.Valid(cfg) && ValidQueue(cfg, structure, w.q)
    ensures var r := RunCycle(cfg, table, structure, true, w.q, w.ch, w.clk);
      Step(cfg, table, structure, true, size, w, TICK) == World(r.ch, r.q, w.clk + 1)
  {
    assert Arrived(cfg, w.ch, -1) == w.ch;
    hide RunCycle;
  }

  /** A lone command is served in the end, whatever the table says. */
  lemma {:induction false} Finishes(cfg: Config, table: TimingTable, structure: Structure, size: nat, w: World,
                                    c: Command)
    returns (actions: seq<Action>)
    requires Linked(cfg, structure, w) && Alone(cfg, structure, w.q, w.ch, c)
    ensures Served(cfg, structure, w, Follow(cfg, table, structure, true, size, w, actions), c)
    ensures AllTicks(actions) && actions != []
    decreases
      if w.ch.banks[IdOf(c.addr)].normal.Closed? then 1 else 0,
      if w.clk < DueAt(cfg, w.ch, c) then DueAt(cfg, w.ch, c) - w.clk else 0
  {
    hide RunCycle, Follow, Step, GetReadyCommand, Linked;
    var i := QueueIndex(cfg, structure, c.addr);
    StepKeepsLink(cfg, table, structure, true, size, w, TICK);
    TickIs(cfg, table, structure, size, w);
    CycleAlone(cfg, table, structure, w.q, w.ch, w.clk, c);
    WaitsUntilDue(cfg, w.ch, c, w.clk);
    var w1 := Step(cfg, table, structure, true, size, w, TICK);
    LinkedIs(cfg, structure, w1);
    if GetReadyCommand(cfg, w.ch, c, w.clk).NotReady? || w1.q.queues == w.q.queues {
      assert w1.q.queues == w.q.queues;
      StillAfter(cfg, table, structure, size, w);
      var rest := Finishes(cfg, table, structure, size, w1, c);
      actions := [TICK] + rest;
      FollowAppends(cfg, table, structure, size, w, [TICK], rest);
      FollowOne(cfg, table, structure, size, w, TICK);
      var w2 := Follow(cfg, table, structure, true, size, w1, rest);
      if w1.ch != w.ch { RowsTwice(w.ch, w1.ch, w2.ch, c); }
    } else {
      actions := [TICK];
      FollowOne(cfg, table, structure, size, w, TICK);
      StillAfter(cfg, table, structure, size, w);
    }
  }

  lemma LinkedIs(cfg: Config, structure: Structure, w: World)
    requires Linked(cfg, structure, w)
    ensures w.ch.Valid(cfg) && ValidQueue(cfg, structure, w.q)
  {
  }

  /** A tick without refreshes leaves none behind. */
  lemma StillAfter(cfg: Config, table: TimingTable, structure: Structure, size: nat, w: World)
    requires Still(cfg, structure, w)
    ensures Still(cfg, structure, Step(cfg, table, structure, true, size, w, TICK))
  {
    hide RunCycle;
    StepKeepsLink(cfg, table, structure, true, size, w, TICK);
    TickIs(cfg, table, structure, size, w);
    CommandsWithoutRefresh(cfg, table, structure, true, w.q, w.ch, w.clk);
  }

  // ---- setting up a loss ----

  const ORIGIN := BankId(0, 0, 0)

  /** A read or write, told apart by its column. */
  function At(kind: CommandType, id: BankId, row: int, n: int): Command {
    Command(kind, Address(0, id.rank, id.bankgroup, id.bank, row, n), n, false, 0)
  }

  lemma Enter(cfg: Config, table: TimingTable, structure: Structure, size: nat, w: World, c: Command)
    requires Still(cfg, structure, w) && cfg.Has(IdOf(c.addr)) && c.IsReadWrite() && !c.isLastComps && c.numComps == 0
    requires var i := QueueIndex(cfg, structure, c.addr); 0 <= i < |w.q.queues| ==> |w.q.queues[i]| < size
    ensures 0 <= QueueIndex(cfg, structure, c.addr) < |w.q.queues|
    ensures var i := QueueIndex(cfg, structure, c.addr);
      Step(cfg, table, structure, true, size, w, Add(c))
        == w.(q := w.q.(queues := w.q.queues[i := w.q.queues[i] + [c]]))
    ensures Still(cfg, structure, Step(cfg, table, structure, true, size, w, Add(c)))
  {
    IndexInRange(cfg, structure, c.addr);
    StepKeepsLink(cfg, table, structure, true, size, w, Add(c));
  }

  /** From quiet queues a command can be run until its row is open. */
  lemma Opens(cfg: Config, table: TimingTable, structure: Structure, size: nat, w: World, c: Command)
    returns (actions: seq<Action>)
    requires Quiet(cfg, structure, w) && size > 0
    requires cfg.Has(IdOf(c.addr)) && c.IsReadWrite() && !c.isLastComps && c.numComps == 0
    requires w.ch.banks[IdOf(c.addr)].pim.Closed? && Openable(w.ch.banks[IdOf(c.addr)].normal, c.Row())
    ensures Served(cfg, structure, w, Follow(cfg, table, structure, true, size, w, actions), c)
    ensures Steady(actions)
  {
    Enter(cfg, table, structure, size, w, c);
    var w1 := Step(cfg, table, structure, true, size, w, Add(c));
    LinkedIs(cfg, structure, w1);
    assert Alone(cfg, structure, w1.q, w1.ch, c);
    var rest := Finishes(cfg, table, structure, size, w1, c);
    actions := [Add(c)] + rest;
    EntryIsSteady(c, rest);
    hide Follow, Step, Linked, Steady;
    FollowOne(cfg, table, structure, size, w, Add(c));
    FollowAppends(cfg, table, structure, size, w, [Add(c)], rest);
  }

  lemma StartIsQuiet(cfg: Config, structure: Structure)
    requires cfg.Valid()
    ensures Quiet(cfg, structure, Start(cfg, structure))
    ensures forall id | cfg.Has(id) ::
      id in Start(cfg, structure).ch.banks && Start(cfg, structure).ch.banks[id] == FRESH_BANK
  {
  }

  /** The first cycle of a run does nothing. */
  lemma FirstTick(cfg: Config, table: TimingTable, structure: Structure, size: nat)
    requires cfg.Valid()
    ensures var w := Follow(cfg, table, structure, true, size, Start(cfg, structure), [TICK]);
      && Quiet(cfg, structure, w) && w.clk == 1
      && forall id | cfg.Has(id) :: id in w.ch.banks && w.ch.banks[id] == FRESH_BANK
  {
    var w := Start(cfg, structure);
    StartIsQuiet(cfg, structure);
    TickIs(cfg, table, structure, size, w);
    EmptyRound(cfg, structure, w.q, w.ch, w.clk);
    StillAfter(cfg, table, structure, size, w);
    FollowOne(cfg, table, structure, size, w, TICK);
  }
}
