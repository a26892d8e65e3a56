/** Which timing tables let a run lose a read or write. */
module DualIssueLoss {
  // Over runs in which at most one command enters the queue between two cycles and refreshes arrive on time, with
  // either queue structure: dual issue loses something in some run exactly when a scope the channel has holds no
  // positive delay between some pair of read and write.

  import opened Commands
  import opened Banks
  import opened Channels
  import opened Queues
  import opened DramQueue
  import opened DualIssueLimits
  import opened DualIssueRuns
  import opened DualIssuePiles
  import opened RefreshProgress
  import opened Refreshes
  import Runs = ChannelRuns
  import Bits

  // ---- losing runs ----

  /** The cycle issues a `k` of bank `a` and loses an `l` of bank `b`. */
  predicate Loss(r: Cycle, k: CommandType, a: BankId, l: CommandType, b: BankId) {
    Drops(r) && r.first.cmd.kind == k && IdOf(r.first.cmd.addr) == a && r.second.cmd.kind == l
      && IdOf(r.second.cmd.addr) == b
  }

  /** Going on like this, the next cycle is such a cycle. */
  ghost predicate LosesFrom(cfg: Config, table: TimingTable, structure: Structure, size: nat, w: World,
                            actions: seq<Action>,
                            k: CommandType, a: BankId, l: CommandType, b: BankId)
    requires Linked(cfg, structure, w)
  {
    && Steady(actions + [TICK])
    && var w' := Follow(cfg, table, structure, true, size, w, actions);
       Still(cfg, structure, w') && Loss(RunCycle(cfg, table, structure, true, w'.q, w'.ch, w'.clk), k, a, l, b)
  }

  lemma LosesLater(cfg: Config, table: TimingTable, structure: Structure, size: nat, w: World,
                   before: seq<Action>, actions: seq<Action>, k: CommandType, a: BankId, l: CommandType, b: BankId)
    requires Linked(cfg, structure, w) && Steady(before)
    requires LosesFrom(cfg, table, structure, size, Follow(cfg, table, structure, true, size, w, before), actions, k, a,
                       l, b)
    ensures LosesFrom(cfg, table, structure, size, w, before + actions, k, a, l, b)
  {
    hide Follow, RunCycle, Still, Loss, Steady;
    FollowAppends(cfg, table, structure, size, w, before, actions);
    SteadyAppends(before, actions + [TICK]);
    assert before + (actions + [TICK]) == (before + actions) + [TICK];
  }

  /** A pair whose scope lacks a positive delay loses its second. */
  lemma PairLoses(cfg: Config, table: TimingTable, structure: Structure, size: nat, w: World, first: Command,
                  second: Command)
    requires Still(cfg, structure, w) && Pair(cfg, structure, w.q, w.ch, w.clk, first, second)
    requires !PositiveFor(Entries(cfg, table, first, IdOf(second.addr)), second.kind)
    ensures LosesFrom(cfg, table, structure, size, w, [], first.kind, IdOf(first.addr), second.kind, IdOf(second.addr))
  {
    hide RunCycle, Pair, PositiveFor, Entries;
    SecondIsDroppedExactly(cfg, table, structure, w.q, w.ch, w.clk, first, second);
    FollowNothing(cfg, table, structure, size, w);
    assert [] + [TICK] == [TICK];
    hide Follow;
  }

  /** So does adding the command that completes such a pair. */
  lemma LastArrives(cfg: Config, table: TimingTable, structure: Structure, size: nat, w: World, c: Command,
                    first: Command, second: Command)
    requires Still(cfg, structure, w)
    requires var w1 := Step(cfg, table, structure, true, size, w, Add(c));
      Still(cfg, structure, w1) && Pair(cfg, structure, w1.q, w1.ch, w1.clk, first, second)
    requires !PositiveFor(Entries(cfg, table, first, IdOf(second.addr)), second.kind)
    ensures LosesFrom(cfg, table, structure, size, w, [Add(c)], first.kind, IdOf(first.addr), second.kind,
                      IdOf(second.addr))
  {
    hide RunCycle, Pair, PositiveFor, Entries;
    var w1 := Step(cfg, table, structure, true, size, w, Add(c));
    PairLoses(cfg, table, structure, size, w1, first, second);
    hide Follow, Step, Linked;
    FollowOne(cfg, table, structure, size, w, Add(c));
    FollowNothing(cfg, table, structure, size, w1);
    assert [Add(c)] + [TICK] == [Add(c), TICK];
  }

  /** The only command waits on its open row. */
  ghost predicate Waiting(cfg: Config, structure: Structure, w: World, c: Command) {
    var i := QueueIndex(cfg, structure, c.addr);
    && Still(cfg, structure, w) && Plain(cfg, c)
    && 0 <= i < |w.q.queues| && w.q.queues[i] == [c] && EmptyBut(w.q, i)
    && IdOf(c.addr) in w.ch.banks && w.ch.banks[IdOf(c.addr)].normal == Open(c.Row())
  }

  /** Cycles pass while it is not its time. */
  lemma {:induction false} Sits(cfg: Config, table: TimingTable, structure: Structure, size: nat, w: World, c: Command,
                                t: int)
    returns (actions: seq<Action>)
    requires Waiting(cfg, structure, w, c) && w.clk <= t <= w.ch.banks[IdOf(c.addr)].Earliest(c.kind)
    ensures Follow(cfg, table, structure, true, size, w, actions) == w.(clk := t)
    ensures Waiting(cfg, structure, w.(clk := t), c)
    ensures AllTicks(actions) && (w.clk < t ==> actions != [])
    decreases t - w.clk
  {
    hide RoundRobin, GetReadyCommand, Follow, Step;
    if w.clk == t {
      actions := [];
      FollowNothing(cfg, table, structure, size, w);
    } else {
      var i := QueueIndex(cfg, structure, c.addr);
      LateIsUnready(cfg, w.ch, c, w.clk);
      HeadServed(cfg, structure, w.q, w.ch, w.clk, i);
      OneQueueRound(cfg, structure, w.q, w.ch, w.clk, i);
      TickIs(cfg, table, structure, size, w);
      StillAfter(cfg, table, structure, size, w);
      FollowOne(cfg, table, structure, size, w, TICK);
      var rest := Sits(cfg, table, structure, size, w.(clk := w.clk + 1), c, t);
      actions := [TICK] + rest;
      FollowAppends(cfg, table, structure, size, w, [TICK], rest);
    }
  }

  /** A kind the entries do not delay beyond the cycle stays within its time or the cycle. */
  lemma {:induction false} NotDelayed(b: Bank, delays: Delays, kind: CommandType, clk: int)
    requires !PositiveFor(delays, kind)
    ensures Delayed(b, delays, clk).Earliest(kind) <= Max(b.Earliest(kind), clk)
    decreases |delays|
  {
    if delays != [] {
      assert delays == [delays[0]] + delays[1..];
      assert delays[0] in delays;
      NotDelayed(b.UpdateTiming(delays[0].0, clk + delays[0].1), delays[1..], kind, clk);
    }
  }

  /** What an issued read or write does to a kind at a bank: never earlier, and later than before or now only by a
      positive delay. */
  lemma IssueDelays(cfg: Config, table: TimingTable, ch: Channel, c: Command, clk: int, id: BankId, kind: CommandType)
    requires ch.Valid(cfg) && cfg.Addressed(c) && c.IsReadWrite() && !UpdateAborts(ch, c) && id in ch.banks
    ensures Issue(cfg, table, ch, c, clk).Valid(cfg) && id in Issue(cfg, table, ch, c, clk).banks
    ensures ch.banks[id].Earliest(kind) > clk ==> Issue(cfg, table, ch, c, clk).banks[id].Earliest(kind) > clk
    ensures !PositiveFor(Entries(cfg, table, c, id), kind) ==>
      Issue(cfg, table, ch, c, clk).banks[id].Earliest(kind) <= Max(ch.banks[id].Earliest(kind), clk)
  {
    Runs.IssueRows(cfg, table, ch, c, clk);
    var b, mid := ch.banks[id], UpdateState(ch, c).banks[id];
    assert mid.timing == b.timing;
    assert Issue(cfg, table, ch, c, clk).banks[id] == Delayed(mid, Entries(cfg, table, c, id), clk);
    hide Issue, Entries, Delayed, PositiveFor;
    if b.Earliest(kind) > clk { StaysLate(mid, Entries(cfg, table, c, id), kind, clk); }
    if !PositiveFor(Entries(cfg, table, c, id), kind) { NotDelayed(mid, Entries(cfg, table, c, id), kind, clk); }
  }

  // ---- both in one queue ----

  /** The twin of a command, one column on or back. */
  function Other(c: Command): Command {
    At(c.kind, IdOf(c.addr), c.Row(), if c.hexAddr == 0 then 1 else 0)
  }

  ghost predicate Flow(cfg: Config, table: TimingTable, structure: Structure, w: World, c: Command, d: Command) {
    && PiledUp(cfg, structure, w, c, []) && w.ch.banks[IdOf(c.addr)].normal == Open(c.Row())
    && c == At(c.kind, IdOf(c.addr), c.Row(), c.hexAddr) && c.hexAddr in {0, 1}
    && Plain(cfg, d) && d.hexAddr == 2 && QueueIndex(cfg, structure, d.addr) == w.q.queueIdx
    && w.ch.banks[IdOf(d.addr)].normal == Open(d.Row())
    && PositiveFor(table.sameBank(c.kind), c.kind) && !PositiveFor(Entries(cfg, table, c, IdOf(d.addr)), d.kind)
  }

  lemma FlowWaits(cfg: Config, table: TimingTable, structure: Structure, w: World, c: Command, d: Command)
    requires Flow(cfg, table, structure, w, c, d)
    ensures Waiting(cfg, structure, w, c)
  {
  }

  /** A twin joins a waiting command. */
  lemma TwinEnters(cfg: Config, table: TimingTable, structure: Structure, size: nat, w: World, c: Command, c': Command)
    requires PiledUp(cfg, structure, w, c, []) && Twins(c, c') && size > 1
    ensures var w1 := Step(cfg, table, structure, true, size, w, Add(c'));
      PiledUp(cfg, structure, w1, c, [c']) && w1 == w.(q := w1.q) && w1.q.queueIdx == w.q.queueIdx
  {
    hide RoundRobin, GetReadyCommand;
    Enter(cfg, table, structure, size, w, c');
    LinkedIs(cfg, structure, Step(cfg, table, structure, true, size, w, Add(c')));
    hide Step;
  }

  /** The head issues and leaves its twin. */
  lemma HeadLeaves(cfg: Config, table: TimingTable, structure: Structure, size: nat, w: World, x: Command, c: Command)
    requires PiledUp(cfg, structure, w, x, [c]) && GetReadyCommand(cfg, w.ch, x, w.clk) == Ready(x)
    requires PositiveFor(table.sameBank(x.kind), x.kind)
    ensures !UpdateAborts(w.ch, x)
    ensures var w' := Follow(cfg, table, structure, true, size, w, [TICK]);
      && PiledUp(cfg, structure, w', c, []) && w'.q.queueIdx == w.q.queueIdx && w'.clk == w.clk + 1
      && w'.ch == Issue(cfg, table, w.ch, x, w.clk) && Kept(w.ch, w'.ch, IdOf(x.addr))
      && w'.ch.banks[IdOf(x.addr)].normal == w.ch.banks[IdOf(x.addr)].normal == Open(x.Row())
      && w'.ch.banks[IdOf(x.addr)].Earliest(x.kind) >= w'.clk
  {
    hide RoundRobin, GetReadyCommand, Follow, RunCycle, PositiveFor, Issue;
    HeadIssues(cfg, table, structure, w.q, w.ch, w.clk, x, [c]);
    PileStep(cfg, table, structure, size, w, x, [c]);
  }

  /** One more of `c`'s kind arrives and `c` issues: the same again, with the time for `d` no further off. */
  lemma FlowsOn(cfg: Config, table: TimingTable, structure: Structure, size: nat, w: World, c: Command, d: Command)
    requires Flow(cfg, table, structure, w, c, d) && size > 1 && w.ch.banks[IdOf(c.addr)].Earliest(c.kind) <= w.clk
    ensures var w' := Follow(cfg, table, structure, true, size, w, [Add(Other(c)), TICK]);
      && Flow(cfg, table, structure, w', Other(c), d) && w'.clk == w.clk + 1
      && w'.ch.banks[IdOf(d.addr)].Earliest(d.kind) <= Max(w.ch.banks[IdOf(d.addr)].Earliest(d.kind), w.clk)
  {
    hide RoundRobin, GetReadyCommand, Follow, RunCycle, PositiveFor, Step, Linked;
    var c' := Other(c);
    TwinEnters(cfg, table, structure, size, w, c, c');
    var w1 := Step(cfg, table, structure, true, size, w, Add(c'));
    LateIsUnready(cfg, w.ch, c, w.clk);
    HeadLeaves(cfg, table, structure, size, w1, c, c');
    AddAndTick(cfg, table, structure, size, w, c');
    assert IdOf(d.addr) in w.ch.banks;
    IssueDelays(cfg, table, w1.ch, c, w1.clk, IdOf(d.addr), d.kind);
    SameEntries(cfg, table, c, c', IdOf(d.addr));
    hide Issue, Entries, Piled, UpdateAborts;
  }

  lemma SameEntries(cfg: Config, table: TimingTable, c: Command, c': Command, id: BankId)
    requires c.kind == c'.kind && IdOf(c.addr) == IdOf(c'.addr) && c.IsReadWrite()
    ensures Entries(cfg, table, c, id) == Entries(cfg, table, c', id)
  {
  }

  lemma AddAndTick(cfg: Config, table: TimingTable, structure: Structure, size: nat, w: World, c: Command)
    requires Linked(cfg, structure, w)
    ensures var w1 := Step(cfg, table, structure, true, size, w, Add(c));
      Linked(cfg, structure, w1)
      && Follow(cfg, table, structure, true, size, w, [Add(c), TICK])
        == Follow(cfg, table, structure, true, size, w1, [TICK])
  {
    StepKeepsLink(cfg, table, structure, true, size, w, Add(c));
    hide Follow, Step, Linked;
    FollowOne(cfg, table, structure, size, w, Add(c));
    assert [Add(c)] + [TICK] == [Add(c), TICK];
    FollowAppends(cfg, table, structure, size, w, [Add(c)], [TICK]);
  }

  /** A stream of `c`'s kind keeps coming until `d` could go, and then `d` arrives. */
  lemma {:induction false} FlowLoses(cfg: Config, table: TimingTable, structure: Structure, size: nat, w: World,
                                     c: Command, d: Command) returns (actions: seq<Action>)
    requires Flow(cfg, table, structure, w, c, d) && size > 1
    ensures LosesFrom(cfg, table, structure, size, w, actions, c.kind, IdOf(c.addr), d.kind, IdOf(d.addr))
    decreases Max(w.ch.banks[IdOf(d.addr)].Earliest(d.kind) - w.clk, 0),
      Max(w.ch.banks[IdOf(c.addr)].Earliest(c.kind) - w.clk, 0)
  {
    hide RoundRobin, GetReadyCommand, Follow, RunCycle, PositiveFor, Step, LosesFrom, Entries;
    var a, b := w.ch.banks[IdOf(c.addr)].Earliest(c.kind), w.ch.banks[IdOf(d.addr)].Earliest(d.kind);
    FlowWaits(cfg, table, structure, w, c, d);
    if a > w.clk {
      var wait := Sits(cfg, table, structure, size, w, c, w.clk + 1);
      TicksAreSteady(wait);
      var rest := FlowLoses(cfg, table, structure, size, w.(clk := w.clk + 1), c, d);
      actions := wait + rest;
      LosesLater(cfg, table, structure, size, w, wait, rest, c.kind, IdOf(c.addr), d.kind, IdOf(d.addr));
    } else if b > w.clk {
      FlowsOn(cfg, table, structure, size, w, c, d);
      var before := [Add(Other(c)), TICK];
      var rest := FlowLoses(cfg, table, structure, size, Follow(cfg, table, structure, true, size, w, before), Other(c),
                            d);
      actions := before + rest;
      LosesLater(cfg, table, structure, size, w, before, rest, c.kind, IdOf(c.addr), d.kind, IdOf(d.addr));
    } else {
      actions := [Add(d)];
      FlowEnds(cfg, table, structure, size, w, c, d);
      LastArrives(cfg, table, structure, size, w, d, c, d);
    }
  }

  lemma FlowEnds(cfg: Config, table: TimingTable, structure: Structure, size: nat, w: World, c: Command, d: Command)
    requires Flow(cfg, table, structure, w, c, d) && size > 1
    requires w.ch.banks[IdOf(c.addr)].Earliest(c.kind) <= w.clk && w.ch.banks[IdOf(d.addr)].Earliest(d.kind) <= w.clk
    ensures var w1 := Step(cfg, table, structure, true, size, w, Add(d));
      Still(cfg, structure, w1) && Pair(cfg, structure, w1.q, w1.ch, w1.clk, c, d)
  {
    hide GetReadyCommand, PositiveFor;
    LateIsUnready(cfg, w.ch, c, w.clk);
    LateIsUnready(cfg, w.ch, d, w.clk);
    Enter(cfg, table, structure, size, w, d);
    LinkedIs(cfg, structure, Step(cfg, table, structure, true, size, w, Add(d)));
    hide Step;
  }

  // ---- in two queues ----

  /** `d` waits in the queue last served; `c` of another queue has its row open. */
  ghost predicate Cross(cfg: Config, table: TimingTable, structure: Structure, w: World, c: Command, d: Command) {
    && PiledUp(cfg, structure, w, d, []) && w.ch.banks[IdOf(d.addr)].normal == Open(d.Row())
    && Plain(cfg, c) && QueueIndex(cfg, structure, c.addr) != w.q.queueIdx && c.hexAddr !in {0, 1}
    && w.ch.banks[IdOf(c.addr)].normal == Open(c.Row())
    && d == At(d.kind, IdOf(d.addr), d.Row(), d.hexAddr) && d.hexAddr in {0, 1}
    && PositiveFor(table.sameBank(d.kind), d.kind) && !PositiveFor(Entries(cfg, table, c, IdOf(d.addr)), d.kind)
  }

  /** Only `c` and, in the queue last served, `d` are queued; both rows are open. */
  ghost predicate BothQueued(cfg: Config, structure: Structure, q: DQueue, ch: Channel, c: Command, d: Command) {
    var i, j := QueueIndex(cfg, structure, c.addr), QueueIndex(cfg, structure, d.addr);
    && ch.Valid(cfg) && ValidQueue(cfg, structure, q) && ch.refreshQ == [] && !q.isInRef
    && Plain(cfg, c) && Plain(cfg, d)
    && 0 <= i < |q.queues| && 0 <= j < |q.queues| && i != j && q.queueIdx == j
    && q.queues[i] == [c] && q.queues[j] == [d]
    && (forall h | 0 <= h < |q.queues| && h != i && h != j :: q.queues[h] == [])
    && ch.banks[IdOf(c.addr)].normal == Open(c.Row()) && ch.banks[IdOf(d.addr)].normal == Open(d.Row())
  }

  /** The first selection passes over the unready command. */
  lemma ReadyOneFirst(cfg: Config, structure: Structure, q: DQueue, ch: Channel, clk: int, c: Command, d: Command)
    requires BothQueued(cfg, structure, q, ch, c, d)
    requires GetReadyCommand(cfg, ch, d, clk) == Ready(d) && GetReadyCommand(cfg, ch, c, clk) == NotReady
    ensures GetCommandToIssue(cfg, structure, q, ch, clk)
         == Selection(Ready(d), q.(queues := q.queues[q.queueIdx := []]))
  {
    hide RoundRobin, GetReadyCommand;
    var i, j := QueueIndex(cfg, structure, c.addr), q.queueIdx;
    assert q.(queueIdx := j) == q;
    HeadServed(cfg, structure, q, ch, clk, i);
    HeadServed(cfg, structure, q, ch, clk, j);
    assert Erased([d], d) == [];
    TwoQueueRound(cfg, structure, q, ch, clk, i, j);
  }

  /** With one command unready and one ready in another queue, the ready one issues alone. */
  lemma TurnIssues(cfg: Config, table: TimingTable, structure: Structure, q: DQueue, ch: Channel, clk: int,
                   c: Command, d: Command)
    requires BothQueued(cfg, structure, q, ch, c, d) && GetReadyCommand(cfg, ch, d, clk) == Ready(d)
    requires ch.banks[IdOf(c.addr)].Earliest(c.kind) > clk
    ensures !UpdateAborts(ch, d)
    ensures var r := RunCycle(cfg, table, structure, true, q, ch, clk);
      r.ch == Issue(cfg, table, ch, d, clk) && r.q == q.(queues := q.queues[q.queueIdx := []])
  {
    hide RoundRobin, GetReadyCommand, Issue, GetCommandToIssue, UpdateAborts;
    var i, j := QueueIndex(cfg, structure, c.addr), q.queueIdx;
    FirstIsIssuable(cfg, table, structure, q, ch, clk);
    LateIsUnready(cfg, ch, c, clk);
    ReadyOneFirst(cfg, structure, q, ch, clk, c, d);
    NextIsIssuable(cfg, table, structure, q, ch, clk);
    var ch1, q1 := Issue(cfg, table, ch, d, clk), q.(queues := q.queues[j := []]);
    StillLate(cfg, table, ch, c, d, clk);
    OneUnready(cfg, structure, q1, ch1, clk, i);
  }

  lemma OneUnready(cfg: Config, structure: Structure, q: DQueue, ch: Channel, clk: int, i: int)
    requires ch.Valid(cfg) && ValidQueue(cfg, structure, q) && !q.isInRef && 0 <= i < |q.queues| && EmptyBut(q, i)
    requires |q.queues[i]| == 1 && cfg.Addressed(q.queues[i][0])
    requires GetReadyCommand(cfg, ch, q.queues[i][0], clk) == NotReady
    ensures GetCommandToIssue(cfg, structure, q, ch, clk) == Selection(NotReady, q)
  {
    hide RoundRobin, GetReadyCommand, GetCommandToIssue;
    HeadServed(cfg, structure, q, ch, clk, i);
    OneQueueRound(cfg, structure, q, ch, clk, i);
  }

  lemma StillLate(cfg: Config, table: TimingTable, ch: Channel, c: Command, d: Command, clk: int)
    requires ch.Valid(cfg) && Plain(cfg, c) && Plain(cfg, d) && !UpdateAborts(ch, d) && IdOf(c.addr) in ch.banks
    requires ch.banks[IdOf(c.addr)].normal == Open(c.Row()) && ch.banks[IdOf(c.addr)].Earliest(c.kind) > clk
    ensures Issue(cfg, table, ch, d, clk).Valid(cfg)
    ensures GetReadyCommand(cfg, Issue(cfg, table, ch, d, clk), c, clk) == NotReady
  {
    IssueKept(cfg, table, ch, d, clk);
    IssueDelays(cfg, table, ch, d, clk, IdOf(c.addr), c.kind);
    hide Issue, GetReadyCommand;
    LateIsUnready(cfg, Issue(cfg, table, ch, d, clk), c, clk);
  }

  /** The twin of `d` that comes after it. */
  lemma CrossTwin(cfg: Config, table: TimingTable, structure: Structure, w: World, c: Command, d: Command)
    requires Cross(cfg, table, structure, w, c, d)
    ensures Plain(cfg, d) && Plain(cfg, Other(d)) && Twins(d, Other(d)) && Other(Other(d)) == d
    ensures QueueIndex(cfg, structure, Other(d).addr) == QueueIndex(cfg, structure, d.addr) == w.q.queueIdx
    ensures IdOf(Other(d).addr) == IdOf(d.addr)
  {
  }

  /** `d` has just issued and `c` or nothing is left. */
  ghost predicate AfterIssue(cfg: Config, table: TimingTable, structure: Structure, w: World, w': World, c: Command,
                             d: Command, left: seq<Command>)
    requires w.ch.Valid(cfg)
  {
    var i := QueueIndex(cfg, structure, c.addr);
    && Still(cfg, structure, w') && w'.clk == w.clk + 1 && d.IsReadWrite() && !UpdateAborts(w.ch, d)
    && w'.ch == Issue(cfg, table, w.ch, d, w.clk)
    && w'.q.queueIdx == w.q.queueIdx && 0 <= i < |w'.q.queues| && w'.q.queues[i] == left && EmptyBut(w'.q, i)
    && IdOf(c.addr) in w'.ch.banks && IdOf(d.addr) in w'.ch.banks
    && w'.ch.banks[IdOf(c.addr)].normal == Open(c.Row()) && w'.ch.banks[IdOf(d.addr)].normal == Open(d.Row())
    && w'.ch.banks[IdOf(d.addr)].pim.Closed?
    && w'.ch.banks[IdOf(c.addr)].Earliest(c.kind) >= w'.clk && w'.ch.banks[IdOf(d.addr)].Earliest(d.kind) >= w'.clk
  }

  lemma IssuesWithout(cfg: Config, table: TimingTable, structure: Structure, size: nat, w: World, c: Command,
                      d: Command)
    requires Cross(cfg, table, structure, w, c, d)
    requires w.ch.banks[IdOf(d.addr)].Earliest(d.kind) <= w.clk < w.ch.banks[IdOf(c.addr)].Earliest(c.kind)
    ensures AfterIssue(cfg, table, structure, w, Follow(cfg, table, structure, true, size, w, [TICK]), c, d, [])
  {
    hide RoundRobin, GetReadyCommand, Follow, RunCycle, PositiveFor, Entries, Issue, UpdateAborts;
    LateIsUnready(cfg, w.ch, d, w.clk);
    HeadIssues(cfg, table, structure, w.q, w.ch, w.clk, d, []);
    PileStep(cfg, table, structure, size, w, d, []);
    IssueDelays(cfg, table, w.ch, d, w.clk, IdOf(c.addr), c.kind);
    IndexInRange(cfg, structure, c.addr);
  }

  lemma IssuesWith(cfg: Config, table: TimingTable, structure: Structure, size: nat, w: World, c: Command, d: Command)
    requires Cross(cfg, table, structure, w, c, d) && size > 1
    requires w.ch.banks[IdOf(d.addr)].Earliest(d.kind) <= w.clk < w.ch.banks[IdOf(c.addr)].Earliest(c.kind)
    ensures AfterIssue(cfg, table, structure, w, Follow(cfg, table, structure, true, size, w, [Add(c), TICK]), c, d,
                       [c])
  {
    hide RoundRobin, GetReadyCommand, Follow, RunCycle, PositiveFor, Entries, Issue, UpdateAborts;
    LateIsUnready(cfg, w.ch, d, w.clk);
    JustIssuedKept(cfg, table, w.ch, d, w.clk);
    IssueDelays(cfg, table, w.ch, d, w.clk, IdOf(c.addr), c.kind);
    Enter(cfg, table, structure, size, w, c);
    var w1 := Step(cfg, table, structure, true, size, w, Add(c));
    LinkedIs(cfg, structure, w1);
    assert BothQueued(cfg, structure, w1.q, w1.ch, c, d);
    TurnIssues(cfg, table, structure, w1.q, w1.ch, w1.clk, c, d);
    TickIs(cfg, table, structure, size, w1);
    StillAfter(cfg, table, structure, size, w1);
    AddAndTick(cfg, table, structure, size, w, c);
    FollowOne(cfg, table, structure, size, w1, TICK);
    hide Step;
  }

  lemma JustIssuedKept(cfg: Config, table: TimingTable, ch: Channel, d: Command, clk: int)
    requires ch.Valid(cfg) && Plain(cfg, d) && GetReadyCommand(cfg, ch, d, clk) == Ready(d)
    requires PositiveFor(table.sameBank(d.kind), d.kind)
    ensures !UpdateAborts(ch, d)
    ensures var ch' := Issue(cfg, table, ch, d, clk);
      && ch'.Valid(cfg) && Kept(ch, ch', IdOf(d.addr)) && IdOf(d.addr) in ch'.banks
      && ch'.banks[IdOf(d.addr)].normal == ch.banks[IdOf(d.addr)].normal
      && ch'.banks[IdOf(d.addr)].Earliest(d.kind) > clk
  {
    ReadyIsCertified(cfg, ch, d, clk);
    Runs.CertifiedNeverAborts(cfg, ch, d, clk, d);
    hide GetReadyCommand, Issue, UpdateAborts;
    IssueKept(cfg, table, ch, d, clk);
    JustIssued(cfg, table, ch, d, clk);
  }

  /** Both due, one of them just arriving: a pair. */
  lemma CrossPair(cfg: Config, table: TimingTable, structure: Structure, size: nat, w: World, last: Command,
                  c: Command, d: Command)
    requires Still(cfg, structure, w) && size > 0 && (last == c || last == d)
    requires Waiting(cfg, structure, w, if last == c then d else c) && Plain(cfg, c) && Plain(cfg, d)
    requires QueueIndex(cfg, structure, d.addr) == w.q.queueIdx != QueueIndex(cfg, structure, c.addr)
    requires c.hexAddr != d.hexAddr
    requires w.ch.banks[IdOf(c.addr)].normal == Open(c.Row()) && w.ch.banks[IdOf(d.addr)].normal == Open(d.Row())
    requires w.ch.banks[IdOf(c.addr)].Earliest(c.kind) <= w.clk && w.ch.banks[IdOf(d.addr)].Earliest(d.kind) <= w.clk
    ensures var w1 := Step(cfg, table, structure, true, size, w, Add(last));
      Still(cfg, structure, w1) && Pair(cfg, structure, w1.q, w1.ch, w1.clk, c, d)
  {
    hide GetReadyCommand;
    LateIsUnready(cfg, w.ch, c, w.clk);
    LateIsUnready(cfg, w.ch, d, w.clk);
    IndexInRange(cfg, structure, last.addr);
    Enter(cfg, table, structure, size, w, last);
    LinkedIs(cfg, structure, Step(cfg, table, structure, true, size, w, Add(last)));
    hide Step;
  }

  /** One waits for its time from now on, the other arrives just before. */
  lemma OneWaits(cfg: Config, table: TimingTable, structure: Structure, size: nat, w: World, last: Command,
                 c: Command, d: Command) returns (actions: seq<Action>)
    requires Still(cfg, structure, w) && size > 0 && (last == c || last == d)
    requires Waiting(cfg, structure, w, if last == c then d else c) && Plain(cfg, c) && Plain(cfg, d)
    requires QueueIndex(cfg, structure, d.addr) == w.q.queueIdx != QueueIndex(cfg, structure, c.addr)
    requires c.hexAddr != d.hexAddr
    requires w.ch.banks[IdOf(c.addr)].normal == Open(c.Row()) && w.ch.banks[IdOf(d.addr)].normal == Open(d.Row())
    requires var a, b := w.ch.banks[IdOf(c.addr)].Earliest(c.kind), w.ch.banks[IdOf(d.addr)].Earliest(d.kind);
      if last == c then b >= w.clk && b >= a else a >= w.clk && a >= b
    requires !PositiveFor(Entries(cfg, table, c, IdOf(d.addr)), d.kind)
    ensures LosesFrom(cfg, table, structure, size, w, actions, c.kind, IdOf(c.addr), d.kind, IdOf(d.addr))
    ensures var one := if last == c then d else c;
      w.clk < w.ch.banks[IdOf(one.addr)].Earliest(one.kind) ==> actions != [] && actions[0] == TICK
  {
    hide RoundRobin, GetReadyCommand, Follow, RunCycle, PositiveFor, Step, LosesFrom, Entries, Linked, Pair;
    var one := if last == c then d else c;
    var t := w.ch.banks[IdOf(one.addr)].Earliest(one.kind);
    var wait := Sits(cfg, table, structure, size, w, one, t);
    TicksAreSteady(wait);
    CrossPair(cfg, table, structure, size, w.(clk := t), last, c, d);
    LastArrives(cfg, table, structure, size, w.(clk := t), last, c, d);
    LosesLater(cfg, table, structure, size, w, wait, [Add(last)], c.kind, IdOf(c.addr), d.kind, IdOf(d.addr));
    actions := wait + [Add(last)];
    if wait != [] { assert wait[0] in wait; }
  }

  /** A command that enters before a losing continuation that starts with a cycle. */
  lemma EntersFirst(cfg: Config, table: TimingTable, structure: Structure, size: nat, w: World, e: Command,
                    rest: seq<Action>, k: CommandType, a: BankId, l: CommandType, b: BankId)
    requires Linked(cfg, structure, w) && Linked(cfg, structure, Step(cfg, table, structure, true, size, w, Add(e)))
    requires LosesFrom(cfg, table, structure, size, Step(cfg, table, structure, true, size, w, Add(e)), rest, k, a, l,
                       b)
    requires rest != [] && rest[0] == TICK
    ensures LosesFrom(cfg, table, structure, size, w, [Add(e)] + rest, k, a, l, b)
  {
    hide Follow, RunCycle, Still, Loss, Step, Linked;
    FollowOne(cfg, table, structure, size, w, Add(e));
    FollowAppends(cfg, table, structure, size, w, [Add(e)], rest);
    var all := ([Add(e)] + rest) + [TICK];
    forall i | 0 <= i < |all|
      ensures SteadyAt(all, i)
    {
      if i > 0 { assert all[i] == (rest + [TICK])[i - 1] && SteadyAt(rest + [TICK], i - 1); }
    }
  }

  /** If `d` is due and `c` is not, `d` issues; then the later of `c` and the twin of `d` waits for its time, and the
      other one arrives just before. */
  lemma CrossLate(cfg: Config, table: TimingTable, structure: Structure, size: nat, w: World, c: Command, d: Command)
    returns (actions: seq<Action>)
    requires Cross(cfg, table, structure, w, c, d) && size > 1
    requires w.ch.banks[IdOf(d.addr)].Earliest(d.kind) <= w.clk < w.ch.banks[IdOf(c.addr)].Earliest(c.kind)
    ensures LosesFrom(cfg, table, structure, size, w, actions, c.kind, IdOf(c.addr), d.kind, IdOf(d.addr))
  {
    hide RoundRobin, GetReadyCommand, Follow, RunCycle, PositiveFor, Step, LosesFrom, Entries, Issue, UpdateAborts,
      Linked;
    CrossTwin(cfg, table, structure, w, c, d);
    var d' := Other(d);
    IssuesWith(cfg, table, structure, size, w, c, d);
    IssuesWithout(cfg, table, structure, size, w, c, d);
    var ch' := Issue(cfg, table, w.ch, d, w.clk);
    if ch'.banks[IdOf(c.addr)].Earliest(c.kind) >= ch'.banks[IdOf(d.addr)].Earliest(d.kind) {
      var before := [Add(c), TICK];
      var rest := OneWaits(cfg, table, structure, size, Follow(cfg, table, structure, true, size, w, before), d', c,
                           d');
      LosesLater(cfg, table, structure, size, w, before, rest, c.kind, IdOf(c.addr), d.kind, IdOf(d.addr));
      actions := before + rest;
    } else {
      var w1 := Follow(cfg, table, structure, true, size, w, [TICK]);
      var rest := TwinWaits(cfg, table, structure, size, w1, c, d');
      LosesLater(cfg, table, structure, size, w, [TICK], rest, c.kind, IdOf(c.addr), d.kind, IdOf(d.addr));
      actions := [TICK] + rest;
    }
  }

  /** From empty queues: `d` enters and waits, `c` arrives just before its time. */
  lemma TwinWaits(cfg: Config, table: TimingTable, structure: Structure, size: nat, w: World, c: Command, d: Command)
    returns (actions: seq<Action>)
    requires Quiet(cfg, structure, w) && Plain(cfg, c) && Plain(cfg, d) && size > 0 && c.hexAddr != d.hexAddr
    requires QueueIndex(cfg, structure, d.addr) == w.q.queueIdx != QueueIndex(cfg, structure, c.addr)
    requires IdOf(c.addr) in w.ch.banks && IdOf(d.addr) in w.ch.banks
    requires w.ch.banks[IdOf(c.addr)].normal == Open(c.Row()) && w.ch.banks[IdOf(d.addr)].normal == Open(d.Row())
    requires w.clk <= w.ch.banks[IdOf(c.addr)].Earliest(c.kind) < w.ch.banks[IdOf(d.addr)].Earliest(d.kind)
    requires !PositiveFor(Entries(cfg, table, c, IdOf(d.addr)), d.kind)
    ensures LosesFrom(cfg, table, structure, size, w, actions, c.kind, IdOf(c.addr), d.kind, IdOf(d.addr))
  {
    hide RoundRobin, GetReadyCommand, Follow, RunCycle, PositiveFor, LosesFrom, Entries;
    Enter(cfg, table, structure, size, w, d);
    var w1 := Step(cfg, table, structure, true, size, w, Add(d));
    LinkedIs(cfg, structure, w1);
    hide Step, Linked;
    var rest := OneWaits(cfg, table, structure, size, w1, c, c, d);
    EntersFirst(cfg, table, structure, size, w, d, rest, c.kind, IdOf(c.addr), d.kind, IdOf(d.addr));
    actions := [Add(d)] + rest;
  }

  lemma CrossLoses(cfg: Config, table: TimingTable, structure: Structure, size: nat, w: World, c: Command, d: Command)
    returns (actions: seq<Action>)
    requires Cross(cfg, table, structure, w, c, d) && size > 1
    ensures LosesFrom(cfg, table, structure, size, w, actions, c.kind, IdOf(c.addr), d.kind, IdOf(d.addr))
  {
    hide RoundRobin, GetReadyCommand, Follow, RunCycle, PositiveFor, Step, LosesFrom, Entries, Pair;
    CrossTwin(cfg, table, structure, w, c, d);
    assert Waiting(cfg, structure, w, d);
    var a, b := w.ch.banks[IdOf(c.addr)].Earliest(c.kind), w.ch.banks[IdOf(d.addr)].Earliest(d.kind);
    if b >= w.clk && b >= a {
      actions := OneWaits(cfg, table, structure, size, w, c, c, d);
    } else if a <= w.clk {
      actions := [Add(c)];
      CrossPair(cfg, table, structure, size, w, c, c, d);
      LastArrives(cfg, table, structure, size, w, c, c, d);
    } else if b <= w.clk {
      actions := CrossLate(cfg, table, structure, size, w, c, d);
    } else {
      var wait := Sits(cfg, table, structure, size, w, d, b);
      TicksAreSteady(wait);
      var rest := CrossLate(cfg, table, structure, size, w.(clk := b), c, d);
      LosesLater(cfg, table, structure, size, w, wait, rest, c.kind, IdOf(c.addr), d.kind, IdOf(d.addr));
      actions := wait + rest;
    }
  }

  // ---- from the start ----

  ghost function Begun(cfg: Config, table: TimingTable, structure: Structure, size: nat): (w: World)
    requires cfg.Valid()
    ensures Linked(cfg, structure, w)
  {
    Follow(cfg, table, structure, true, size, Start(cfg, structure), [TICK])
  }

  /** A run after which bank `o` is on row 7 and bank `t`, if another, on row 8. */
  lemma OpensRows(cfg: Config, table: TimingTable, structure: Structure, size: nat, t: BankId, o: BankId)
    returns (actions: seq<Action>)
    requires cfg.Valid() && size > 0 && cfg.Has(t) && cfg.Has(o)
    ensures Steady(actions)
    ensures var w := Follow(cfg, table, structure, true, size, Begun(cfg, table, structure, size), actions);
      && Quiet(cfg, structure, w) && t in w.ch.banks && o in w.ch.banks
      && w.ch.banks[t].normal == Open(8) && w.ch.banks[t].pim.Closed? && (o != t ==> w.ch.banks[o].normal == Open(7))
      && w.q.queueIdx == QueueIndex(cfg, structure, At(Read, t, 8, 3).addr)
  {
    FirstTick(cfg, table, structure, size);
    var w0 := Begun(cfg, table, structure, size);
    if o == t {
      actions := Opens(cfg, table, structure, size, w0, At(Read, t, 8, 3));
    } else {
      var a1 := Opens(cfg, table, structure, size, w0, At(Read, o, 7, 4));
      var w1 := Follow(cfg, table, structure, true, size, w0, a1);
      var a2 := Opens(cfg, table, structure, size, w1, At(Read, t, 8, 3));
      hide Follow, Step, Steady;
      FollowAppends(cfg, table, structure, size, w0, a1, a2);
      SteadyAppends(a1, a2);
      actions := a1 + a2;
    }
  }

  /** The head of the pile enters and its bank's old row begins to close; nothing else moves. */
  lemma HeadEnters(cfg: Config, table: TimingTable, structure: Structure, size: nat, w: World, x: Command)
    requires Quiet(cfg, structure, w) && Plain(cfg, x) && w.q.queueIdx == QueueIndex(cfg, structure, x.addr) && size > 0
    requires IdOf(x.addr) in w.ch.banks && w.ch.banks[IdOf(x.addr)].pim.Closed?
    requires w.ch.banks[IdOf(x.addr)].normal.Open? && w.ch.banks[IdOf(x.addr)].normal != Open(x.Row())
    ensures var w' := Follow(cfg, table, structure, true, size, w, [Add(x), TICK]);
      && PiledUp(cfg, structure, w', x, []) && Kept(w.ch, w'.ch, IdOf(x.addr))
      && w'.ch.banks[IdOf(x.addr)].normal != Open(x.Row())
  {
    hide RoundRobin, GetReadyCommand, Follow, RunCycle;
    Enter(cfg, table, structure, size, w, x);
    var w1 := Step(cfg, table, structure, true, size, w, Add(x));
    LinkedIs(cfg, structure, w1);
    assert w1.q.queues[w.q.queueIdx] == [x] + [];
    PileAnswers(cfg, w1.ch, x, w1.clk);
    PileCycle(cfg, table, structure, w1.q, w1.ch, w1.clk, x, []);
    PileStep(cfg, table, structure, size, w1, x, []);
    hide Step;
    AddAndTick(cfg, table, structure, size, w, x);
  }

  /** The twin enters and the pile ripens. */
  lemma TwinRipens(cfg: Config, table: TimingTable, structure: Structure, size: nat, w: World, x: Command, c: Command)
    returns (actions: seq<Action>)
    requires PiledUp(cfg, structure, w, x, []) && Twins(x, c) && size > 1
    requires w.ch.banks[IdOf(x.addr)].normal != Open(x.Row())
    ensures Steady(actions)
    ensures var w' := Follow(cfg, table, structure, true, size, w, actions);
      Ripe(cfg, table, structure, w', x, c) && Kept(w.ch, w'.ch, IdOf(x.addr))
  {
    hide RoundRobin, GetReadyCommand, Follow, RunCycle, Ripe;
    TwinEnters(cfg, table, structure, size, w, x, c);
    var w1 := Step(cfg, table, structure, true, size, w, Add(c));
    var rest := Ripens(cfg, table, structure, size, w1, x, c);
    hide Step;
    EntryIsSteady(c, rest);
    FollowOne(cfg, table, structure, size, w, Add(c));
    FollowAppends(cfg, table, structure, size, w, [Add(c)], rest);
    actions := [Add(c)] + rest;
  }

  /** A run from the start after which a pile of `m`s at bank `t` is ripe and bank `o` is on row 7. */
  lemma RipePile(cfg: Config, table: TimingTable, structure: Structure, size: nat, t: BankId, o: BankId, m: CommandType)
    returns (actions: seq<Action>)
    requires cfg.Valid() && size > 1 && cfg.Has(t) && cfg.Has(o) && m in {Read, Write}
    ensures Steady(actions)
    ensures var w := Follow(cfg, table, structure, true, size, Begun(cfg, table, structure, size), actions);
      && Ripe(cfg, table, structure, w, At(m, t, 7, 1), At(m, t, 7, 0))
      && o in w.ch.banks && w.ch.banks[o].normal == Open(7)
  {
    hide RoundRobin, GetReadyCommand, Follow, RunCycle, Ripe, Steady;
    var x, c := At(m, t, 7, 1), At(m, t, 7, 0);
    var w0 := Begun(cfg, table, structure, size);
    var a1 := OpensRows(cfg, table, structure, size, t, o);
    var w1 := Follow(cfg, table, structure, true, size, w0, a1);
    HeadEnters(cfg, table, structure, size, w1, x);
    var w2 := Follow(cfg, table, structure, true, size, w1, [Add(x), TICK]);
    var a3 := TwinRipens(cfg, table, structure, size, w2, x, c);
    RipeRow(cfg, table, structure, Follow(cfg, table, structure, true, size, w2, a3), x, c);
    EntryIsSteady(x, [TICK]);
    assert [Add(x)] + [TICK] == [Add(x), TICK];
    FollowAppends(cfg, table, structure, size, w0, a1, [Add(x), TICK]);
    FollowAppends(cfg, table, structure, size, w0, a1 + [Add(x), TICK], a3);
    SteadyAppends(a1, [Add(x), TICK]);
    SteadyAppends(a1 + [Add(x), TICK], a3);
    actions := a1 + [Add(x), TICK] + a3;
  }

  lemma RipeRow(cfg: Config, table: TimingTable, structure: Structure, w: World, x: Command, c: Command)
    requires Ripe(cfg, table, structure, w, x, c)
    ensures IdOf(x.addr) in w.ch.banks && w.ch.banks[IdOf(x.addr)].normal == Open(x.Row())
  {
  }

  // ---- the three kinds of gap ----

  /** With a positive delay between two of its kind a ripe pile comes to wait with one command. */
  lemma RipeHolds(cfg: Config, table: TimingTable, structure: Structure, size: nat, w: World, x: Command, c: Command)
    returns (actions: seq<Action>)
    requires Ripe(cfg, table, structure, w, x, c) && Twins(x, c) && PositiveFor(table.sameBank(x.kind), x.kind)
    ensures AllTicks(actions)
    ensures var w' := Follow(cfg, table, structure, true, size, w, actions);
      && PiledUp(cfg, structure, w', c, []) && w'.ch.banks[IdOf(c.addr)].normal == Open(c.Row())
      && Kept(w.ch, w'.ch, IdOf(c.addr))
  {
    hide RoundRobin, GetReadyCommand, Follow, RunCycle, PositiveFor;
    if Piled(cfg, structure, w.q, w.ch, c, []) {
      actions := [];
      FollowNothing(cfg, table, structure, size, w);
    } else {
      actions := [TICK];
      HeadLeaves(cfg, table, structure, size, w, x, c);
    }
  }

  /** Without one it loses its second at once, or the third. */
  lemma RipeLoses(cfg: Config, table: TimingTable, structure: Structure, size: nat, w: World, x: Command, c: Command)
    returns (actions: seq<Action>)
    requires Ripe(cfg, table, structure, w, x, c) && Twins(x, c) && Plain(cfg, x) && size > 1
    requires !PositiveFor(table.sameBank(x.kind), x.kind)
    ensures LosesFrom(cfg, table, structure, size, w, actions, x.kind, IdOf(x.addr), x.kind, IdOf(x.addr))
  {
    hide RoundRobin, GetReadyCommand, Follow, RunCycle, PositiveFor, LosesFrom;
    if Piled(cfg, structure, w.q, w.ch, c, []) {
      LateIsUnready(cfg, w.ch, c, w.clk);
      TwinAnswers(cfg, w.ch, c, x, w.clk);
      TwinEnters(cfg, table, structure, size, w, c, x);
      actions := [Add(x)];
      LinkedIs(cfg, structure, Step(cfg, table, structure, true, size, w, Add(x)));
      hide Step;
      LastArrives(cfg, table, structure, size, w, x, c, x);
    } else {
      TwinAnswers(cfg, w.ch, x, c, w.clk);
      actions := [];
      PairLoses(cfg, table, structure, size, w, x, c);
    }
  }

  ghost predicate LosesSoon(cfg: Config, table: TimingTable, structure: Structure, size: nat, actions: seq<Action>,
                            k: CommandType, a: BankId, l: CommandType, b: BankId)
    requires cfg.Valid()
  {
    LosesFrom(cfg, table, structure, size, Begun(cfg, table, structure, size), actions, k, a, l, b)
  }

  /** No positive delay of a kind after itself in one bank. */
  lemma SelfGapLoses(cfg: Config, table: TimingTable, structure: Structure, size: nat, m: CommandType)
    returns (actions: seq<Action>)
    requires cfg.Valid() && size > 1 && m in {Read, Write} && !PositiveFor(table.sameBank(m), m)
    ensures LosesSoon(cfg, table, structure, size, actions, m, ORIGIN, m, ORIGIN)
  {
    hide Follow, RunCycle, PositiveFor, LosesFrom, Ripe;
    var w0 := Begun(cfg, table, structure, size);
    var before := RipePile(cfg, table, structure, size, ORIGIN, ORIGIN, m);
    var w := Follow(cfg, table, structure, true, size, w0, before);
    var rest := RipeLoses(cfg, table, structure, size, w, At(m, ORIGIN, 7, 1), At(m, ORIGIN, 7, 0));
    LosesLater(cfg, table, structure, size, w0, before, rest, m, ORIGIN, m, ORIGIN);
    actions := before + rest;
  }

  /** A ripe pile of `m`s at `t`, run until one waits. */
  lemma Holds(cfg: Config, table: TimingTable, structure: Structure, size: nat, t: BankId, o: BankId, m: CommandType)
    returns (actions: seq<Action>)
    requires cfg.Valid() && size > 1 && cfg.Has(t) && cfg.Has(o) && m in {Read, Write}
    requires PositiveFor(table.sameBank(m), m)
    ensures Steady(actions)
    ensures var w := Follow(cfg, table, structure, true, size, Begun(cfg, table, structure, size), actions);
      && PiledUp(cfg, structure, w, At(m, t, 7, 0), []) && t in w.ch.banks && w.ch.banks[t].normal == Open(7)
      && o in w.ch.banks && w.ch.banks[o].normal == Open(7)
  {
    hide Follow, RunCycle, PositiveFor, Ripe, Steady;
    var w0 := Begun(cfg, table, structure, size);
    var before := RipePile(cfg, table, structure, size, t, o, m);
    var w := Follow(cfg, table, structure, true, size, w0, before);
    var rest := RipeHolds(cfg, table, structure, size, w, At(m, t, 7, 1), At(m, t, 7, 0));
    TicksAreSteady(rest);
    SteadyAppends(before, rest);
    FollowAppends(cfg, table, structure, size, w0, before, rest);
    actions := before + rest;
  }

  lemma OneQueueGapLoses(cfg: Config, table: TimingTable, structure: Structure, size: nat,
                         k: CommandType, l: CommandType, b: BankId) returns (actions: seq<Action>)
    requires cfg.Valid() && size > 1 && cfg.Has(b) && k in {Read, Write} && l in {Read, Write}
    requires QueueIndex(cfg, structure, At(k, ORIGIN, 7, 0).addr) == QueueIndex(cfg, structure, At(l, b, 7, 2).addr)
    requires PositiveFor(table.sameBank(k), k) && !PositiveFor(Entries(cfg, table, At(k, ORIGIN, 7, 0), b), l)
    ensures LosesSoon(cfg, table, structure, size, actions, k, ORIGIN, l, b)
  {
    hide Follow, RunCycle, PositiveFor, LosesFrom, Entries;
    var w0 := Begun(cfg, table, structure, size);
    var before := Holds(cfg, table, structure, size, ORIGIN, b, k);
    var w := Follow(cfg, table, structure, true, size, w0, before);
    var rest := FlowLoses(cfg, table, structure, size, w, At(k, ORIGIN, 7, 0), At(l, b, 7, 2));
    LosesLater(cfg, table, structure, size, w0, before, rest, k, ORIGIN, l, b);
    actions := before + rest;
  }

  lemma TwoQueueGapLoses(cfg: Config, table: TimingTable, structure: Structure, size: nat,
                         k: CommandType, l: CommandType, b: BankId) returns (actions: seq<Action>)
    requires cfg.Valid() && size > 1 && cfg.Has(b) && k in {Read, Write} && l in {Read, Write}
    requires QueueIndex(cfg, structure, At(k, ORIGIN, 7, 2).addr) != QueueIndex(cfg, structure, At(l, b, 7, 0).addr)
    requires PositiveFor(table.sameBank(l), l) && !PositiveFor(Entries(cfg, table, At(k, ORIGIN, 7, 2), b), l)
    ensures LosesSoon(cfg, table, structure, size, actions, k, ORIGIN, l, b)
  {
    hide Follow, RunCycle, PositiveFor, LosesFrom, Entries;
    var w0 := Begun(cfg, table, structure, size);
    var before := Holds(cfg, table, structure, size, b, ORIGIN, l);
    var w := Follow(cfg, table, structure, true, size, w0, before);
    var rest := CrossLoses(cfg, table, structure, size, w, At(k, ORIGIN, 7, 2), At(l, b, 7, 0));
    LosesLater(cfg, table, structure, size, w0, before, rest, k, ORIGIN, l, b);
    actions := before + rest;
  }

  /** A bank in each scope of the origin. */
  lemma GapHasBank(cfg: Config, table: TimingTable, k: CommandType, l: CommandType) returns (b: BankId)
    requires cfg.Valid() && k in {Read, Write} && !PositivePair(cfg, table, k, l)
    ensures cfg.Has(b) && forall n :: !PositiveFor(Entries(cfg, table, At(k, ORIGIN, 7, n), b), l)
  {
    b := if !PositiveFor(table.sameBank(k), l) then ORIGIN
         else if cfg.banksPerGroup > 1 && !PositiveFor(table.otherBanksSameBankgroup(k), l) then BankId(0, 0, 1)
         else if cfg.bankgroups > 1 && !PositiveFor(table.otherBankgroupsSameRank(k), l) then BankId(0, 1, 0)
         else BankId(1, 0, 0);
    hide PositiveFor;
  }

  lemma GapLoses(cfg: Config, table: TimingTable, structure: Structure, size: nat, k: CommandType, l: CommandType)
    returns (actions: seq<Action>, k': CommandType, a: BankId, l': CommandType, b: BankId)
    requires cfg.Valid() && size > 1 && k in {Read, Write} && l in {Read, Write} && !PositivePair(cfg, table, k, l)
    ensures LosesSoon(cfg, table, structure, size, actions, k', a, l', b)
  {
    hide PositiveFor, LosesSoon, Entries, PositivePair;
    if !PositiveFor(table.sameBank(k), k) {
      k', a, l', b := k, ORIGIN, k, ORIGIN;
      actions := SelfGapLoses(cfg, table, structure, size, k);
    } else if !PositiveFor(table.sameBank(l), l) {
      k', a, l', b := l, ORIGIN, l, ORIGIN;
      actions := SelfGapLoses(cfg, table, structure, size, l);
    } else {
      k', a, l' := k, ORIGIN, l;
      b := GapHasBank(cfg, table, k, l);
      if QueueIndex(cfg, structure, At(k, ORIGIN, 7, 0).addr) == QueueIndex(cfg, structure, At(l, b, 7, 2).addr) {
        actions := OneQueueGapLoses(cfg, table, structure, size, k, l, b);
      } else {
        actions := TwoQueueGapLoses(cfg, table, structure, size, k, l, b);
      }
    }
  }

  // ---- the claim over runs ----

  /** At most one command enters between two cycles, none before the first. */
  predicate Paced(run: seq<Action>) {
    forall i | 0 <= i < |run| && run[i].Add? :: i > 0 && run[i - 1].Tick?
  }

  /** Refreshes arrive as the refresh unit inserts them, from cycle `clk` on. */
  predicate OnTime(ranks: nat, interval: nat, run: seq<Action>, clk: nat)
    requires ranks > 0 && interval > 0
  {
    run == [] ||
      if run[0].Tick? then
        run[0].arrival == ArrivalAt(ranks, interval, clk) && OnTime(ranks, interval, run[1..], clk + 1)
      else OnTime(ranks, interval, run[1..], clk)
  }

  /** The last cycle of the run issues one read or write and loses another. */
  ghost predicate LosesLast(cfg: Config, table: TimingTable, structure: Structure, size: nat, run: seq<Action>)
    requires cfg.Valid()
  {
    run != [] && run[|run| - 1].Tick? && Drops(LastCycle(cfg, table, structure, size, run))
  }

  ghost function LastCycle(cfg: Config, table: TimingTable, structure: Structure, size: nat, run: seq<Action>): Cycle
    requires cfg.Valid() && run != [] && run[|run| - 1].Tick?
  {
    var w := Follow(cfg, table, structure, true, size, Start(cfg, structure), run[..|run| - 1]);
    RunCycle(cfg, table, structure, true, w.q, Arrived(cfg, w.ch, run[|run| - 1].arrival), w.clk)
  }

  /** A run as the controller can drive it: paced arrivals, refreshes on time, and a loss at its end. */
  ghost predicate Loses(cfg: Config, table: TimingTable, structure: Structure, size: nat, interval: nat,
                        run: seq<Action>)
    requires cfg.Valid() && interval > 0
  {
    Paced(run) && OnTime(cfg.ranks, interval, run, 0) && LosesLast(cfg, table, structure, size, run)
  }

  lemma SteadyIsPaced(actions: seq<Action>)
    requires Steady(actions + [TICK])
    ensures Paced([TICK] + actions + [TICK])
  {
    var run, tail := [TICK] + actions + [TICK], actions + [TICK];
    forall i | 0 <= i < |run| && run[i].Add?
      ensures i > 0 && run[i - 1].Tick?
    {
      assert run[i] == tail[i - 1] && SteadyAt(tail, i - 1);
      if i > 1 { assert run[i - 1] == tail[i - 2] && SteadyAt(tail, i - 2); }
    }
  }

  predicate NoArrivals(run: seq<Action>) { forall a <- run :: a.Tick? ==> a == TICK }

  /** Before the first interval is over the refresh unit inserts nothing. */
  lemma {:induction false} ShortIsOnTime(ranks: nat, interval: nat, run: seq<Action>, clk: nat)
    requires ranks > 0 && clk + |run| <= interval && interval > 0 && NoArrivals(run)
    ensures OnTime(ranks, interval, run, clk)
    decreases |run|
  {
    if run != [] {
      assert run[0] in run;
      ShortIsOnTime(ranks, interval, run[1..], if run[0].Tick? then clk + 1 else clk);
      if clk > 0 { Bits.Remainder(clk, interval, 0, clk); }
    }
  }

  lemma SteadyHasNoArrivals(actions: seq<Action>)
    requires Steady(actions + [TICK])
    ensures NoArrivals([TICK] + actions + [TICK])
  {
    var run, tail := [TICK] + actions + [TICK], actions + [TICK];
    forall a <- run | a.Tick? ensures a == TICK {
      var i :| 0 <= i < |run| && run[i] == a;
      if i > 0 { assert run[i] == tail[i - 1] && SteadyAt(tail, i - 1); }
    }
  }

  /** The whole run: a first cycle, the constructed part, and the cycle that loses. */
  lemma WholeRun(cfg: Config, table: TimingTable, structure: Structure, size: nat, actions: seq<Action>,
                 k: CommandType, a: BankId, l: CommandType, b: BankId) returns (run: seq<Action>)
    requires cfg.Valid() && LosesSoon(cfg, table, structure, size, actions, k, a, l, b)
    ensures run != [] && run[|run| - 1].Tick?
    ensures forall interval: nat | interval >= |run| :: Loses(cfg, table, structure, size, interval, run)
    ensures Loss(LastCycle(cfg, table, structure, size, run), k, a, l, b)
  {
    hide Follow, RunCycle, Loss;
    run := [TICK] + actions + [TICK];
    SteadyIsPaced(actions);
    SteadyHasNoArrivals(actions);
    hide Steady;
    assert run[..|run| - 1] == [TICK] + actions;
    FollowAppends(cfg, table, structure, size, Start(cfg, structure), [TICK], actions);
    var w := Follow(cfg, table, structure, true, size, Begun(cfg, table, structure, size), actions);
    assert Arrived(cfg, w.ch, -1) == w.ch;
    LossDrops(LastCycle(cfg, table, structure, size, run), k, a, l, b);
    forall interval | interval >= |run|
      ensures OnTime(cfg.ranks, interval, run, 0)
    {
      ShortIsOnTime(cfg.ranks, interval, run, 0);
    }
  }

  lemma LossDrops(r: Cycle, k: CommandType, a: BankId, l: CommandType, b: BankId)
    requires Loss(r, k, a, l, b)
    ensures Drops(r)
  {
  }

  /** With room for two commands in a queue: some run under dual issue, with paced arrivals and refreshes on time, loses
      a read or write exactly when a scope the channel has holds no positive delay between some pair of read and
      write. */
  lemma LossExactlyAtAGap(cfg: Config, table: TimingTable, structure: Structure, size: nat)
    requires cfg.Valid() && size > 1
    ensures (exists interval: nat, run: seq<Action> | interval > 0 :: Loses(cfg, table, structure, size, interval, run))
       <==> !PositiveReadWrite(cfg, table)
  {
    if PositiveReadWrite(cfg, table) {
      forall interval: nat, run: seq<Action> | interval > 0
        ensures !Loses(cfg, table, structure, size, interval, run)
      {
        if run != [] && run[|run| - 1].Tick? {
          var w := Follow(cfg, table, structure, true, size, Start(cfg, structure), run[..|run| - 1]);
          hide Follow, RunCycle, PositiveReadWrite;
          SecondReadWriteIsIssued(cfg, table, structure, w.q, Arrived(cfg, w.ch, run[|run| - 1].arrival), w.clk);
        }
      }
    } else {
      var k, l :| k in {Read, Write} && l in {Read, Write} && !PositivePair(cfg, table, k, l);
      var actions, k', a, l', b := GapLoses(cfg, table, structure, size, k, l);
      var run := WholeRun(cfg, table, structure, size, actions, k', a, l', b);
      hide Loses;
      assert Loses(cfg, table, structure, size, |run|, run);
    }
  }
}
