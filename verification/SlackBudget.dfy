/** How normal commands spend the slack before a refresh, and when PIM operations start. */
module SlackBudget {
  // A GWRITE or header at the head of the PIM queue sets the slack to what the next refresh leaves it. From then on
  // each precharge or activation taken from the normal queues while PIM work is queued costs what it will take, and
  // none is taken that the slack does not cover. A PIM operation that does not fit waits until a refresh has issued.

  import opened Commands
  import opened Banks
  import opened Channels
  import opened Queues
  import opened NeuPims
  import opened DualBuffer
  import Order = NeuPimsOrder

  // ---- who decides a cycle ----

  /** The waiting refresh, or a precharge it needs, takes the cycle. */
  predicate RefreshTakes(cfg: Config, ch: Channel, clk: int)
    requires ch.Valid(cfg)
  {
    ch.refreshQ != [] && cfg.Addressed(ch.refreshQ[0]) && GetReadyCommand(cfg, ch, ch.refreshQ[0], clk) != NotReady
  }

  /** The head of the PIM queue is looked at. */
  predicate HeadIsAsked(q: NQueue, ch: Channel) {
    q.pimQueue != [] && !q.skipPim && !q.isInRef && ch.refreshQ == []
  }

  /** It is a GWRITE or a header that wants to start. */
  predicate HeadStarts(q: NQueue, ch: Channel) {
    HeadIsAsked(q, ch) && !q.isGwriting && (q.pimQueue[0].IsGwrite() || q.pimQueue[0].IsPimHeader())
  }

  /** The slack the round over the normal queues finds. */
  function SlackFound(q: NQueue, ch: Channel, remain: int, latency: int): int {
    if !HeadStarts(q, ch) then q.remainSlack else if remain > latency then remain - latency else 0
  }

  /** The head takes the cycle: it may go on, and a command for it is ready. */
  predicate HeadTakes(cfg: Config, q: NQueue, ch: Channel, clk: int, remain: int, latency: int)
    requires ch.Valid(cfg) && (q.pimQueue != [] ==> cfg.Addressed(q.pimQueue[0]))
  {
    && HeadIsAsked(q, ch)
    && (q.isGwriting ==> q.pimQueue[0].IsGwrite())
    && (HeadStarts(q, ch) ==> remain > latency)
    && GetReadyCommand(cfg, ch, q.pimQueue[0], clk).Ready?
  }

  /** What a command costs. */
  function Price(cfg: Config, c: Command): int {
    if c.kind == Precharge then cfg.tRP else if c.kind == Activate then cfg.tRCDWR else 0
  }

  /** What the cycle's command costs: something only if it is taken from the normal queues while PIM work is queued and
      slack is left. */
  function Cost(cfg: Config, q: NQueue, ch: Channel, clk: int, remain: int, latency: int, answer: Answer): int
    requires ch.Valid(cfg) && (q.pimQueue != [] ==> cfg.Addressed(q.pimQueue[0]))
  {
    if !answer.Ready? || RefreshTakes(cfg, ch, clk) || HeadTakes(cfg, q, ch, clk, remain, latency) then 0
    else if q.pimQueue == [] || SlackFound(q, ch, remain, latency) <= 0 then 0
    else Price(cfg, answer.cmd)
  }

  // ---- one cycle ----

  /** What the slack left must still cover: after a precharge its row's activation, after an activation something. */
  predicate Covered(cfg: Config, c: Command, slack: int) {
    (c.kind == Precharge ==> slack > cfg.tRCDWR) && (c.kind == Activate ==> slack > 0)
  }

  lemma {:induction false} FirstReadyPays(cfg: Config, structure: Structure, q: NQueue, ch: Channel, clk: int,
                                          queue: seq<Command>, idx: int, n: int)
    requires ch.Valid(cfg) && ValidNormal(cfg, structure, queue, idx) && 0 <= n <= |queue|
    ensures var (answer, slack) := FirstReady(cfg, structure, q, ch, clk, queue, idx, n);
      if answer.Ready? && q.remainSlack > 0 && q.pimQueue != [] then
        slack == q.remainSlack - Price(cfg, answer.cmd) && Covered(cfg, answer.cmd, slack)
      else slack == q.remainSlack
    decreases |queue| - n
  {
    if n < |queue| {
      hide GetReadyCommand, ArbitratePrecharge, HasRWDependency;
      assert NormalEntry(cfg, structure, queue[n], idx);
      FirstReadyPays(cfg, structure, q, ch, clk, queue, idx, n + 1);
      EntryKinds(cfg, structure, ch, clk, queue[n], idx);
    }
  }

  lemma EntryKinds(cfg: Config, structure: Structure, ch: Channel, clk: int, c: Command, idx: int)
    requires ch.Valid(cfg) && NormalEntry(cfg, structure, c, idx)
    ensures var answer := GetReadyCommand(cfg, ch, c, clk);
      answer.Ready? ==> answer.cmd.kind in {c.kind, Activate, Precharge, PimPrecharge}
  {
    var b := ch.banks[IdOf(c.addr)];
    if b.GetReady(c, clk).Ready? { RaisedKinds(b, c, clk); }
  }

  lemma {:induction false} RoundPays(cfg: Config, structure: Structure, q: NQueue, ch: Channel, clk: int, left: nat)
    requires ch.Valid(cfg) && ValidQueue(cfg, structure, q)
    ensures var s := RoundRobin(cfg, structure, q, ch, clk, left);
      && s.q.pimQueue == q.pimQueue
      && if s.answer.Ready? && q.remainSlack > 0 && q.pimQueue != [] then
           s.q.remainSlack == q.remainSlack - Price(cfg, s.answer.cmd) && Covered(cfg, s.answer.cmd, s.q.remainSlack)
         else s.q.remainSlack == q.remainSlack
    decreases left
  {
    if left > 0 {
      hide FirstReady;
      var q1 := q.(queueIdx := NextIndex(q.queueIdx, |q.queues|));
      FirstReadyPays(cfg, structure, q1, ch, clk, q1.queues[q1.queueIdx], q1.queueIdx, 0);
      RoundPays(cfg, structure, q1, ch, clk, left - 1);
      NotReadyLeavesQueue(cfg, structure, q1, ch, clk);
    }
  }

  lemma NotReadyLeavesQueue(cfg: Config, structure: Structure, q: NQueue, ch: Channel, clk: int)
    requires ch.Valid(cfg) && ValidQueue(cfg, structure, q)
    ensures ServeQueue(cfg, structure, q, ch, clk).q.pimQueue == q.pimQueue
  {
    hide FirstReady;
  }

  lemma HeadIsAddressed(cfg: Config, structure: Structure, q: NQueue)
    requires ValidQueue(cfg, structure, q)
    ensures q.pimQueue != [] ==> cfg.Addressed(q.pimQueue[0]) && Queueable(q.pimQueue[0])
  {
    if q.pimQueue != [] { assert PimEntry(cfg, q.pimQueue[0]); }
  }

  /** Every cycle: an issued refresh clears the slack; otherwise it is what the round found less the cost of the
      command, and still covers what that command needs. */
  lemma CyclePays(cfg: Config, structure: Structure, q: NQueue, ch: Channel, clk: int, remain: int, latency: int)
    requires ch.Valid(cfg) && ValidQueue(cfg, structure, q)
    ensures q.pimQueue != [] ==> cfg.Addressed(q.pimQueue[0])
    ensures var s := CycleSelection(cfg, structure, q, ch, clk, remain, latency);
      var cost := Cost(cfg, q, ch, clk, remain, latency, s.answer);
      if s.answer.Ready? && s.answer.cmd.IsRefresh() then s.q.remainSlack == 0
      else
        && s.q.remainSlack == SlackFound(q, ch, remain, latency) - cost
        && (cost != 0 ==> Covered(cfg, s.answer.cmd, s.q.remainSlack))
  {
    hide GetReadyCommand, RoundRobin;
    HeadIsAddressed(cfg, structure, q);
    if ch.refreshQ == [] {
      PimCyclePays(cfg, structure, q, ch, clk, remain, latency);
    } else {
      assert ch.refreshQ[0].IsRefresh() && cfg.Addressed(ch.refreshQ[0]);
      var s := FinishRefresh(cfg, structure, q, ch, clk);
      if s.answer == NotReady {
        RoundPays(cfg, structure, s.q, ch, clk, |s.q.queues|);
        RoundShapeNoRefresh(cfg, structure, s.q, ch, clk);
      }
    }
  }

  lemma RoundShapeNoRefresh(cfg: Config, structure: Structure, q: NQueue, ch: Channel, clk: int)
    requires ch.Valid(cfg) && ValidQueue(cfg, structure, q)
    ensures var s := RoundRobin(cfg, structure, q, ch, clk, |q.queues|); s.answer.Ready? ==> !s.answer.cmd.IsRefresh()
  {
    RoundRobinShape(cfg, structure, q, ch, clk);
  }

  lemma PimCyclePays(cfg: Config, structure: Structure, q: NQueue, ch: Channel, clk: int, remain: int, latency: int)
    requires ch.Valid(cfg) && ValidQueue(cfg, structure, q) && ch.refreshQ == []
    requires q.pimQueue != [] ==> cfg.Addressed(q.pimQueue[0]) && Queueable(q.pimQueue[0])
    ensures var s := GetCommandToIssue(cfg, structure, q, ch, clk, remain, latency);
      var cost := Cost(cfg, q, ch, clk, remain, latency, s.answer);
      && (s.answer.Ready? ==> !s.answer.cmd.IsRefresh())
      && s.q.remainSlack == SlackFound(q, ch, remain, latency) - cost
      && (cost != 0 ==> Covered(cfg, s.answer.cmd, s.q.remainSlack))
  {
    hide GetReadyCommand, RoundRobin;
    if HeadIsAsked(q, ch) {
      assert PimEntry(cfg, q.pimQueue[0]);
      QueriesNeverAbort(cfg, ch, q.pimQueue[0], clk);
      ReadyInPimShape(cfg, structure, q, ch, clk, remain, latency);
      var s := ReadyInPim(cfg, q, ch, clk, remain, latency);
      if s.answer == NotReady {
        RoundPays(cfg, structure, s.q, ch, clk, |s.q.queues|);
        RoundShapeNoRefresh(cfg, structure, s.q, ch, clk);
      }
    } else {
      RoundPays(cfg, structure, q, ch, clk, |q.queues|);
      RoundShapeNoRefresh(cfg, structure, q, ch, clk);
    }
  }

  // ---- when PIM operations start ----

  /** Nothing leaves the PIM queue unless its head is asked; a GWRITE or header that does not fit before the refresh
      stays and is not asked again until a refresh has issued. */
  lemma OnlyFittingStarts(cfg: Config, structure: Structure, q: NQueue, ch: Channel, clk: int, remain: int,
                          latency: int)
    requires ch.Valid(cfg) && ValidQueue(cfg, structure, q)
    ensures var s := CycleSelection(cfg, structure, q, ch, clk, remain, latency);
      && (s.q.pimQueue != q.pimQueue ==> HeadIsAsked(q, ch) && (HeadStarts(q, ch) ==> remain > latency))
      && (HeadStarts(q, ch) && remain <= latency ==> s.q.skipPim && s.q.pimQueue == q.pimQueue)
      && (q.skipPim && !(s.answer.Ready? && s.answer.cmd.IsRefresh()) ==> s.q.skipPim && s.q.pimQueue == q.pimQueue)
      && (s.answer.Ready? && s.answer.cmd.IsRefresh() ==> !s.q.skipPim)
  {
    hide GetReadyCommand, RoundRobin;
    HeadIsAddressed(cfg, structure, q);
    if ch.refreshQ != [] {
      assert ch.refreshQ[0].IsRefresh() && cfg.Addressed(ch.refreshQ[0]);
      var f := FinishRefresh(cfg, structure, q, ch, clk).q;
      RoundRobinShape(cfg, structure, f, ch, clk);
    } else if HeadIsAsked(q, ch) {
      var p := ReadyInPim(cfg, q, ch, clk, remain, latency);
      RoundRobinShape(cfg, structure, p.q, ch, clk);
      ReadyInPimShape(cfg, structure, q, ch, clk, remain, latency);
    } else {
      RoundRobinShape(cfg, structure, q, ch, clk);
    }
  }

  /** The queue as the round over the normal queues finds it: a GWRITE or header that fits holds its bank or row and
      sets the slack; one that does not leaves none and is skipped from now on. */
  function Found(q: NQueue, ch: Channel, remain: int, latency: int): NQueue {
    if !HeadStarts(q, ch) then q
    else if remain <= latency then q.(remainSlack := 0, skipPim := true)
    else if q.pimQueue[0].kind == Gwrite then
      q.(remainSlack := remain - latency, isGwriting := true, gwriteTarget := q.pimQueue[0].addr)
    else q.(remainSlack := remain - latency, reservedRow := q.pimQueue[0].Row())
  }

  /** Without a refresh waiting: the head of the PIM queue goes first if it can, and leaves if the command is its
      own; if it is asked and cannot, with less than ten cycles of slack nothing goes; in all other cases the first
      entry of the normal queues that goes. */
  lemma HeadGoesFirst(cfg: Config, structure: Structure, q: NQueue, ch: Channel, clk: int, remain: int, latency: int)
    returns (t: int, n: int)
    requires ch.Valid(cfg) && ValidQueue(cfg, structure, q) && ch.refreshQ == []
    ensures q.pimQueue != [] ==> cfg.Addressed(q.pimQueue[0])
    ensures ValidQueue(cfg, structure, Found(q, ch, remain, latency))
    ensures var s, found := CycleSelection(cfg, structure, q, ch, clk, remain, latency), Found(q, ch, remain, latency);
      var takes := HeadTakes(cfg, q, ch, clk, remain, latency);
      var ends := HeadIsAsked(q, ch) && found.remainSlack < 10;
      && (takes ==>
            && s.answer == GetReadyCommand(cfg, ch, q.pimQueue[0], clk)
            && s.q == found.(pimQueue := if s.answer.cmd.kind in {Gwrite, PHeader, CompsReadres} then q.pimQueue[1..]
                                         else q.pimQueue))
      && (!takes && ends ==> s == Selection(NotReady, found))
      && (!takes && !ends ==>
            && (s.answer == NotReady <==>
                  forall i | 0 <= i < |q.queues| :: Order.Silent(cfg, structure, found, ch, clk, i))
            && (s.answer == NotReady ==> s.q == found)
            && (s.answer != NotReady ==>
                1 <= t <= |q.queues| && Order.FirstFit(cfg, structure, found, ch, clk, s, t, n)))
  {
    hide GetReadyCommand, RoundRobin, Order.Silent, Order.FirstFit, NumQueues, NormalEntry;
    HeadIsAddressed(cfg, structure, q);
    var found := Found(q, ch, remain, latency);
    t, n := Order.RoundIsFirstFit(cfg, structure, found, ch, clk);
    if HeadIsAsked(q, ch) {
      QueriesNeverAbort(cfg, ch, q.pimQueue[0], clk);
      ReadyInPimShape(cfg, structure, q, ch, clk, remain, latency);
      FoundByHead(cfg, q, ch, clk, remain, latency);
    }
  }

  /** What the look at the head leaves behind. */
  lemma FoundByHead(cfg: Config, q: NQueue, ch: Channel, clk: int, remain: int, latency: int)
    requires ch.Valid(cfg) && ValidPim(cfg, q.pimQueue) && HeadIsAsked(q, ch) && cfg.Addressed(q.pimQueue[0])
    requires GetReadyCommand(cfg, ch, q.pimQueue[0], clk) != Abort
    ensures var s := ReadyInPim(cfg, q, ch, clk, remain, latency);
      && s.q == Found(q, ch, remain, latency)
      && s.answer == (if HeadTakes(cfg, q, ch, clk, remain, latency) then GetReadyCommand(cfg, ch, q.pimQueue[0], clk)
                      else NotReady)
  {
    hide GetReadyCommand;
  }

  // ---- runs ----

  /** What a step spends. */
  ghost function SpentIn(cfg: Config, structure: Structure, w: World, a: Action): int
    requires ValidWorld(cfg, structure, w)
  {
    HeadIsAddressed(cfg, structure, w.q);
    if a.Cycle? then
      Cost(cfg, w.q, Arrived(cfg, w.ch, a.arrival), w.clk, a.remainToRefresh, a.latency, Selected(cfg, structure, w, a))
    else 0
  }

  /** The step neither finishes a GWRITE nor issues a refresh. */
  ghost predicate Leaves(cfg: Config, structure: Structure, w: World, a: Action)
    requires ValidWorld(cfg, structure, w)
  {
    && !a.GwriteDone?
    && (a.Cycle? ==> var answer := Selected(cfg, structure, w, a); !(answer.Ready? && answer.cmd.IsRefresh()))
  }

  ghost function After(cfg: Config, table: TimingTable, structure: Structure, size: nat, w: World,
                       actions: seq<Action>): (w': World)
    requires ValidWorld(cfg, structure, w)
    ensures ValidWorld(cfg, structure, w')
    decreases |actions|
  {
    if actions == [] then w
    else
      StepKeepsValid(cfg, table, structure, size, w, actions[0]);
      After(cfg, table, structure, size, Step(cfg, table, structure, size, w, actions[0]), actions[1..])
  }

  ghost function SpentOver(cfg: Config, table: TimingTable, structure: Structure, size: nat, w: World,
                           actions: seq<Action>): int
    requires ValidWorld(cfg, structure, w)
    decreases |actions|
  {
    if actions == [] then 0
    else
      StepKeepsValid(cfg, table, structure, size, w, actions[0]);
      SpentIn(cfg, structure, w, actions[0])
      + SpentOver(cfg, table, structure, size, Step(cfg, table, structure, size, w, actions[0]), actions[1..])
  }

  ghost predicate AllLeave(cfg: Config, table: TimingTable, structure: Structure, size: nat, w: World,
                           actions: seq<Action>)
    requires ValidWorld(cfg, structure, w)
    decreases |actions|
  {
    actions == [] ||
      (StepKeepsValid(cfg, table, structure, size, w, actions[0]);
       Leaves(cfg, structure, w, actions[0])
       && AllLeave(cfg, table, structure, size, Step(cfg, table, structure, size, w, actions[0]), actions[1..]))
  }

  lemma StepPays(cfg: Config, table: TimingTable, structure: Structure, size: nat, w: World, a: Action)
    requires ValidWorld(cfg, structure, w) && Leaves(cfg, structure, w, a) && cfg.tRP >= 0 && cfg.tRCDWR >= 0
    requires !(a.Cycle? && Selected(cfg, structure, w, a) == Abort)
    ensures var w', spent := Step(cfg, table, structure, size, w, a), SpentIn(cfg, structure, w, a);
      && spent >= 0 && (w.q.isGwriting ==> w'.q.isGwriting)
      && (a.Cycle? && HeadStarts(w.q, Arrived(cfg, w.ch, a.arrival)) ==>
            w'.q.remainSlack + spent == (if a.remainToRefresh > a.latency then a.remainToRefresh - a.latency else 0))
      && (!(a.Cycle? && HeadStarts(w.q, Arrived(cfg, w.ch, a.arrival))) ==>
            w'.q.remainSlack + spent == w.q.remainSlack)
      && (spent > 0 ==> w'.q.remainSlack > 0)
  {
    hide CycleSelection;
    if a.Cycle? {
      var ch := Arrived(cfg, w.ch, a.arrival);
      CyclePays(cfg, structure, w.q, ch, w.clk, a.remainToRefresh, a.latency);
      SelectedIsIssuable(cfg, structure, w.q, ch, w.clk, a.remainToRefresh, a.latency);
      GwriteGoesOn(cfg, structure, w.q, ch, w.clk, a.remainToRefresh, a.latency);
    }
  }

  lemma GwriteGoesOn(cfg: Config, structure: Structure, q: NQueue, ch: Channel, clk: int, remain: int, latency: int)
    requires ch.Valid(cfg) && ValidQueue(cfg, structure, q)
    ensures var s := CycleSelection(cfg, structure, q, ch, clk, remain, latency);
      && (q.isGwriting ==> s.q.isGwriting)
      && (HeadStarts(q, ch) && q.pimQueue[0].IsGwrite() && remain > latency ==> s.q.isGwriting)
  {
    hide GetReadyCommand, RoundRobin;
    if ch.refreshQ != [] {
      RoundRobinShape(cfg, structure, FinishRefresh(cfg, structure, q, ch, clk).q, ch, clk);
    } else if HeadIsAsked(q, ch) {
      ReadyInPimShape(cfg, structure, q, ch, clk, remain, latency);
      RoundRobinShape(cfg, structure, ReadyInPim(cfg, q, ch, clk, remain, latency).q, ch, clk);
    } else {
      RoundRobinShape(cfg, structure, q, ch, clk);
    }
  }

  /** While a GWRITE is underway, until it is done or a refresh issues, slack and costs add up to the slack it had. */
  lemma {:induction false} BudgetHolds(cfg: Config, table: TimingTable, structure: Structure, size: nat, w: World,
                                       actions: seq<Action>)
    requires ValidWorld(cfg, structure, w) && w.q.isGwriting && cfg.tRP >= 0 && cfg.tRCDWR >= 0
    requires AllLeave(cfg, table, structure, size, w, actions)
    ensures var w', spent := After(cfg, table, structure, size, w, actions),
                             SpentOver(cfg, table, structure, size, w, actions);
      && w'.q.isGwriting && w'.q.remainSlack + spent == w.q.remainSlack
      && spent >= 0 && (spent > 0 ==> w'.q.remainSlack > 0)
    decreases |actions|
  {
    if actions != [] {
      hide Step, SpentIn, Leaves;
      var a := actions[0];
      StepKeepsValid(cfg, table, structure, size, w, a);
      ExitLeavesSlack(cfg, table, structure, size, w, a);
      BudgetHolds(cfg, table, structure, size, Step(cfg, table, structure, size, w, a), actions[1..]);
    }
  }

  /** An exit spends nothing either. */
  lemma ExitLeavesSlack(cfg: Config, table: TimingTable, structure: Structure, size: nat, w: World, a: Action)
    requires ValidWorld(cfg, structure, w) && Leaves(cfg, structure, w, a) && cfg.tRP >= 0 && cfg.tRCDWR >= 0
    requires w.q.isGwriting
    ensures var w', spent := Step(cfg, table, structure, size, w, a), SpentIn(cfg, structure, w, a);
      && w'.q.isGwriting && w'.q.remainSlack + spent == w.q.remainSlack
      && spent >= 0 && (spent > 0 ==> w'.q.remainSlack > 0)
  {
    hide CycleSelection;
    if !(a.Cycle? && Selected(cfg, structure, w, a) == Abort) { StepPays(cfg, table, structure, size, w, a); }
  }

  /** From the cycle in which a GWRITE starts until it is done or a refresh issues: what normal commands cost and
      the slack left add up to the cycles left before the refresh less the estimate, and the costs stay below it. */
  lemma GwriteBudget(cfg: Config, table: TimingTable, structure: Structure, size: nat, w: World, a: Action,
                     actions: seq<Action>)
    requires ValidWorld(cfg, structure, w) && cfg.tRP >= 0 && cfg.tRCDWR >= 0
    requires a.Cycle? && HeadStarts(w.q, Arrived(cfg, w.ch, a.arrival)) && w.q.pimQueue[0].IsGwrite()
    requires a.remainToRefresh > a.latency && Selected(cfg, structure, w, a) != Abort
    requires AllLeave(cfg, table, structure, size, w, [a] + actions)
    ensures var w', spent := After(cfg, table, structure, size, w, [a] + actions),
                             SpentOver(cfg, table, structure, size, w, [a] + actions);
      && w'.q.remainSlack + spent == a.remainToRefresh - a.latency
      && 0 <= spent < a.remainToRefresh - a.latency
  {
    assert ([a] + actions)[1..] == actions;
    StepKeepsValid(cfg, table, structure, size, w, a);
    StepPays(cfg, table, structure, size, w, a);
    var ch := Arrived(cfg, w.ch, a.arrival);
    GwriteGoesOn(cfg, structure, w.q, ch, w.clk, a.remainToRefresh, a.latency);
    hide CycleSelection, SpentIn, Leaves;
    assert Step(cfg, table, structure, size, w, a).q.isGwriting;
    BudgetHolds(cfg, table, structure, size, Step(cfg, table, structure, size, w, a), actions);
  }
}
