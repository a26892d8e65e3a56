/** Twin commands piling up in one queue. */
module DualIssuePiles {
  // A command that finds another row open needs three commands of its own, so a twin that arrives one cycle later piles
  // up behind it. What the cycles do until the head of such a pile issues.

  import opened Commands
  import opened Banks
  import opened Channels
  import opened Queues
  import opened DramQueue
  import opened DualIssueLimits
  import opened DualIssueRuns
  import opened RefreshProgress
  import Runs = ChannelRuns

  // ---- one queue whose head decides ----

  /** Two reads or writes of one kind, bank and row. */
  predicate Twins(x: Command, c: Command) {
    c == x.(addr := x.addr.(column := c.addr.column), hexAddr := c.hexAddr) && c.hexAddr != x.hexAddr
  }

  predicate Plain(cfg: Config, c: Command) {
    c.IsReadWrite() && cfg.Has(IdOf(c.addr)) && !c.isLastComps && c.numComps == 0
  }

  lemma TwinAnswers(cfg: Config, ch: Channel, x: Command, c: Command, clk: int)
    requires ch.Valid(cfg) && Plain(cfg, x) && Twins(x, c)
    ensures GetReadyCommand(cfg, ch, c, clk).NotReady? <==> GetReadyCommand(cfg, ch, x, clk).NotReady?
    ensures GetReadyCommand(cfg, ch, x, clk) == Ready(x) ==> GetReadyCommand(cfg, ch, c, clk) == Ready(c)
  {
  }

  lemma LateIsUnready(cfg: Config, ch: Channel, c: Command, clk: int)
    requires ch.Valid(cfg) && Plain(cfg, c) && ch.banks[IdOf(c.addr)].normal == Open(c.Row())
    ensures GetReadyCommand(cfg, ch, c, clk)
         == if ch.banks[IdOf(c.addr)].Earliest(c.kind) <= clk then Ready(c) else NotReady
  {
  }

  /** Only `x` and possibly a twin behind it are queued, in the queue last served; the bank's PIM buffer is closed. */
  ghost predicate Piled(cfg: Config, structure: Structure, q: DQueue, ch: Channel, x: Command, rest: seq<Command>) {
    var i := QueueIndex(cfg, structure, x.addr);
    && ch.Valid(cfg) && ValidQueue(cfg, structure, q) && ch.refreshQ == [] && !q.isInRef
    && 0 <= i < |q.queues| && q.queueIdx == i && q.queues[i] == [x] + rest && EmptyBut(q, i)
    && Plain(cfg, x) && |rest| <= 1 && (rest != [] ==> Twins(x, rest[0]))
    && ch.banks[IdOf(x.addr)].pim.Closed?
  }

  /** What the head of the pile asks for now. */
  lemma PileAnswers(cfg: Config, ch: Channel, x: Command, clk: int)
    requires ch.Valid(cfg) && Plain(cfg, x) && ch.banks[IdOf(x.addr)].pim.Closed?
    ensures var b, answer := ch.banks[IdOf(x.addr)], GetReadyCommand(cfg, ch, x, clk);
      && answer in {NotReady, Ready(if b.normal.Closed? then x.(kind := Activate)
                                    else if b.normal.row == x.Row() then x else x.(kind := Precharge))}
      && (answer.NotReady? ==> clk < PileDue(cfg, ch, x))
  {
  }

  /** The cycle from which the head of the pile waits no longer for its next command. */
  function PileDue(cfg: Config, ch: Channel, x: Command): int
    requires ch.Valid(cfg) && cfg.Has(IdOf(x.addr))
  {
    var b := ch.banks[IdOf(x.addr)];
    if b.normal.Open? && b.normal.row != x.Row() then b.Earliest(Precharge) else DueAt(cfg, ch, x)
  }

  lemma PileServed(cfg: Config, structure: Structure, q: DQueue, ch: Channel, clk: int, x: Command, rest: seq<Command>)
    requires Piled(cfg, structure, q, ch, x, rest)
    ensures var i, answer := q.queueIdx, GetReadyCommand(cfg, ch, x, clk);
      GetCommandToIssue(cfg, structure, q, ch, clk)
      == Selection(answer, if answer == Ready(x) then q.(queues := q.queues[i := rest]) else q)
  {
    hide RoundRobin, GetReadyCommand;
    var i := q.queueIdx;
    PileAnswers(cfg, ch, x, clk);
    assert q.(queueIdx := i) == q;
    assert Entry(cfg, structure, q.queues[i][0], i);
    if rest != [] {
      assert Entry(cfg, structure, q.queues[i][1], i);
      TwinAnswers(cfg, ch, x, rest[0], clk);
    }
    FirstOfPile(cfg, structure, ch, clk, q.queues[i], i, x, rest);
    OneQueueRound(cfg, structure, q, ch, clk, i);
    assert Erased([x] + rest, x) == rest;
    hide FirstReady;
  }

  lemma FirstOfPile(cfg: Config, structure: Structure, ch: Channel, clk: int, queue: seq<Command>, i: int,
                    x: Command, rest: seq<Command>)
    requires ch.Valid(cfg) && ValidEntries(cfg, structure, queue, i) && queue == [x] + rest
    requires Plain(cfg, x) && |rest| <= 1 && (rest != [] ==> Twins(x, rest[0]))
    requires ch.banks[IdOf(x.addr)].pim.Closed?
    ensures FirstReady(cfg, structure, ch, clk, queue, i, 0) == GetReadyCommand(cfg, ch, x, clk)
  {
    hide GetReadyCommand;
    PileAnswers(cfg, ch, x, clk);
    if rest != [] {
      TwinAnswers(cfg, ch, x, rest[0], clk);
      assert FirstReady(cfg, structure, ch, clk, queue, i, 2) == NotReady;
    }
    var answer := GetReadyCommand(cfg, ch, x, clk);
    if answer.NotReady? {
      assert FirstReady(cfg, structure, ch, clk, queue, i, 1) == NotReady;
    } else {
      assert Passes(cfg, ch, queue, 0, answer.cmd);
    }
  }

  /** Everything but bank `id`'s normal buffer and the timings is as before. */
  ghost predicate Kept(ch: Channel, ch': Channel, id: BankId) {
    && ch'.banks.Keys == ch.banks.Keys
    && forall j | j in ch.banks ::
         ch'.banks[j].pim == ch.banks[j].pim && (j != id ==> ch'.banks[j].normal == ch.banks[j].normal)
  }

  lemma IssueKept(cfg: Config, table: TimingTable, ch: Channel, c: Command, clk: int)
    requires ch.Valid(cfg) && cfg.Addressed(c) && !UpdateAborts(ch, c)
    requires c.kind in {Read, Write, Activate, Precharge} && cfg.Has(IdOf(c.addr))
    ensures var ch' := Issue(cfg, table, ch, c, clk);
      && ch'.Valid(cfg) && Kept(ch, ch', IdOf(c.addr)) && ch'.refreshQ == ch.refreshQ
      && ch'.banks[IdOf(c.addr)].normal == (if c.kind == Activate then Open(c.Row())
                                            else if c.kind == Precharge then Closed else ch.banks[IdOf(c.addr)].normal)
  {
    Runs.IssueFrame(cfg, table, ch, c, clk);
    Runs.IssueRows(cfg, table, ch, c, clk);
    hide Issue;
  }

  /** One cycle with a pile whose head has still to open its row: time passes, or the bank comes one step closer; in the
      cycle of the activation the head may issue. */
  lemma PileCycle(cfg: Config, table: TimingTable, structure: Structure, q: DQueue, ch: Channel, clk: int,
                  x: Command, rest: seq<Command>)
    requires Piled(cfg, structure, q, ch, x, rest) && GetReadyCommand(cfg, ch, x, clk) != Ready(x)
    ensures var r, b := RunCycle(cfg, table, structure, true, q, ch, clk), ch.banks[IdOf(x.addr)];
      if GetReadyCommand(cfg, ch, x, clk).NotReady? then r.q == q && r.ch == ch
      else
        && Kept(ch, r.ch, IdOf(x.addr)) && r.ch.Valid(cfg)
        && (if b.normal.Open? then r.q == q && r.ch.banks[IdOf(x.addr)].normal.Closed?
            else r.ch.banks[IdOf(x.addr)].normal == Open(x.Row())
                 && (r.q == q || HeadJustIssued(cfg, table, q, r, clk, x, rest)))
  {
    hide RoundRobin, GetReadyCommand, Issue, GetCommandToIssue, UpdateAborts, NumQueues, Entry, Kept, FinishRefresh;
    FirstIsIssuable(cfg, table, structure, q, ch, clk);
    PileServed(cfg, structure, q, ch, clk, x, rest);
    PileAnswers(cfg, ch, x, clk);
    var answer := GetReadyCommand(cfg, ch, x, clk);
    if answer.Ready? {
      PilePrepared(cfg, table, structure, q, ch, clk, x, rest, answer.cmd);
      var ch1 := Issue(cfg, table, ch, answer.cmd, clk);
      PileGoesOn(cfg, table, structure, q, ch1, clk, x, rest);
      if GetCommandToIssue(cfg, structure, q, ch1, clk).answer == Ready(x) {
        KeptTwice(ch, ch1, Issue(cfg, table, ch1, x, clk), IdOf(x.addr));
      }
    }
  }

  /** Its bank opened or closed, the pile is still one. */
  lemma PilePrepared(cfg: Config, table: TimingTable, structure: Structure, q: DQueue, ch: Channel, clk: int,
                     x: Command, rest: seq<Command>, c: Command)
    requires Piled(cfg, structure, q, ch, x, rest) && cfg.Addressed(c) && !UpdateAborts(ch, c)
    requires c == x.(kind := Activate) || c == x.(kind := Precharge)
    ensures var ch1 := Issue(cfg, table, ch, c, clk);
      && Piled(cfg, structure, q, ch1, x, rest) && Kept(ch, ch1, IdOf(x.addr))
      && ch1.banks[IdOf(x.addr)].normal == if c.kind == Activate then Open(x.Row()) else Closed
  {
    hide Issue, UpdateAborts, NumQueues, Entry, EmptyBut, Twins;
    IssueKept(cfg, table, ch, c, clk);
  }

  lemma KeptTwice(ch: Channel, mid: Channel, ch': Channel, id: BankId)
    requires Kept(ch, mid, id)
    ensures Kept(mid, ch', id) ==> Kept(ch, ch', id)
  {
  }

  /** What a second selection in the same cycle finds. */
  lemma PileGoesOn(cfg: Config, table: TimingTable, structure: Structure, q: DQueue, ch: Channel, clk: int,
                   x: Command, rest: seq<Command>)
    requires Piled(cfg, structure, q, ch, x, rest)
    ensures var s, b := GetCommandToIssue(cfg, structure, q, ch, clk), ch.banks[IdOf(x.addr)];
      if s.answer == Ready(x) then
        && b.normal == Open(x.Row()) && cfg.Addressed(x) && !UpdateAborts(ch, x)
        && s.q == q.(queues := q.queues[q.queueIdx := rest])
        && var ch' := Issue(cfg, table, ch, x, clk);
           && ch'.Valid(cfg) && Kept(ch, ch', IdOf(x.addr)) && ch'.banks[IdOf(x.addr)].normal == b.normal
           && HeadJustIssued(cfg, table, q, Cycle(NotReady, NotReady, s.q, ch'), clk, x, rest)
      else s.q == q && (s.answer.Ready? ==> !s.answer.cmd.IsReadWrite() && !s.answer.cmd.IsPimCommand())
  {
    hide RoundRobin, GetReadyCommand, Issue, GetCommandToIssue, UpdateAborts;
    NextIsIssuable(cfg, table, structure, q, ch, clk);
    PileServed(cfg, structure, q, ch, clk, x, rest);
    PileAnswers(cfg, ch, x, clk);
    if GetReadyCommand(cfg, ch, x, clk) == Ready(x) {
      IssueKept(cfg, table, ch, x, clk);
      JustIssued(cfg, table, ch, x, clk);
    }
  }

  /** The head left its queue, and its bank holds the next of its kind back exactly if the table says so. */
  ghost predicate HeadJustIssued(cfg: Config, table: TimingTable, q: DQueue, r: Cycle, clk: int, x: Command,
                                 rest: seq<Command>)
    requires 0 <= q.queueIdx < |q.queues|
  {
    && r.q == q.(queues := q.queues[q.queueIdx := rest]) && IdOf(x.addr) in r.ch.banks
    && (r.ch.banks[IdOf(x.addr)].Earliest(x.kind) <= clk <==> !PositiveFor(table.sameBank(x.kind), x.kind))
  }

  lemma JustIssued(cfg: Config, table: TimingTable, ch: Channel, x: Command, clk: int)
    requires ch.Valid(cfg) && Plain(cfg, x) && !UpdateAborts(ch, x) && GetReadyCommand(cfg, ch, x, clk) == Ready(x)
    ensures var ch' := Issue(cfg, table, ch, x, clk);
      IdOf(x.addr) in ch'.banks
      && (ch'.banks[IdOf(x.addr)].Earliest(x.kind) <= clk <==> !PositiveFor(table.sameBank(x.kind), x.kind))
  {
    assert IdOf(x.addr) in ch.banks;
    OpenRowNeeded(ch.banks[IdOf(x.addr)], x, clk);
    IssuedBank(cfg, table, ch, x, clk, IdOf(x.addr));
    hide Issue;
  }

  /** One cycle with a ready head: it issues alone, since what is behind it is held back. */
  lemma HeadIssues(cfg: Config, table: TimingTable, structure: Structure, q: DQueue, ch: Channel, clk: int,
                   x: Command, rest: seq<Command>)
    requires Piled(cfg, structure, q, ch, x, rest) && GetReadyCommand(cfg, ch, x, clk) == Ready(x)
    requires rest != [] ==> PositiveFor(table.sameBank(x.kind), x.kind)
    ensures !UpdateAborts(ch, x)
    ensures var r := RunCycle(cfg, table, structure, true, q, ch, clk);
      && r.ch == Issue(cfg, table, ch, x, clk) && Kept(ch, r.ch, IdOf(x.addr))
      && r.ch.banks[IdOf(x.addr)].normal == ch.banks[IdOf(x.addr)].normal == Open(x.Row())
      && HeadJustIssued(cfg, table, q, r, clk, x, rest)
  {
    hide RoundRobin, GetReadyCommand, Issue, GetCommandToIssue, UpdateAborts, PositiveFor;
    FirstIsIssuable(cfg, table, structure, q, ch, clk);
    PileServed(cfg, structure, q, ch, clk, x, rest);
    PileAnswers(cfg, ch, x, clk);
    IssueKept(cfg, table, ch, x, clk);
    JustIssued(cfg, table, ch, x, clk);
    var ch1, q1 := Issue(cfg, table, ch, x, clk), q.(queues := q.queues[q.queueIdx := rest]);
    NextIsIssuable(cfg, table, structure, q, ch, clk);
    if rest == [] {
      EmptyRound(cfg, structure, q1, ch1, clk);
    } else {
      TwinIsHeld(cfg, table, ch, x, rest[0], clk);
      assert Entry(cfg, structure, q.queues[q.queueIdx][1], q.queueIdx);
      assert rest == [rest[0]] + [];
      PileServed(cfg, structure, q1, ch1, clk, rest[0], []);
    }
  }

  lemma TwinIsHeld(cfg: Config, table: TimingTable, ch: Channel, x: Command, c: Command, clk: int)
    requires ch.Valid(cfg) && Plain(cfg, x) && Twins(x, c) && !UpdateAborts(ch, x)
    requires GetReadyCommand(cfg, ch, x, clk) == Ready(x) && PositiveFor(table.sameBank(x.kind), x.kind)
    ensures Issue(cfg, table, ch, x, clk).Valid(cfg)
    ensures GetReadyCommand(cfg, Issue(cfg, table, ch, x, clk), c, clk) == NotReady
  {
    hide Issue, UpdateAborts, PositiveFor;
    TwinAnswers(cfg, ch, x, c, clk);
    StillCertifiedExactly(cfg, table, ch, x, c, clk);
    RowStaysOpen(cfg, table, ch, x, c, clk);
    hide GetReadyCommand;
  }

  // ---- piling up ----

  /** Between two cycles: only `x`, and possibly a twin behind it, is queued. */
  ghost predicate PiledUp(cfg: Config, structure: Structure, w: World, x: Command, rest: seq<Command>) {
    Linked(cfg, structure, w) && Piled(cfg, structure, w.q, w.ch, x, rest)
  }

  lemma PileStep(cfg: Config, table: TimingTable, structure: Structure, size: nat, w: World, x: Command,
                 rest: seq<Command>)
    requires PiledUp(cfg, structure, w, x, rest)
    ensures var r, w' := RunCycle(cfg, table, structure, true, w.q, w.ch, w.clk),
                         Follow(cfg, table, structure, true, size, w, [TICK]);
      Still(cfg, structure, w') && w' == World(r.ch, r.q, w.clk + 1)
  {
    TickIs(cfg, table, structure, size, w);
    StillAfter(cfg, table, structure, size, w);
    hide Follow, Step, RunCycle;
    FollowOne(cfg, table, structure, size, w, TICK);
  }

  /** The bank of `x` is on its row, and either `x` is certified with its twin behind it, or it has just issued and the
      twin is left. */
  ghost predicate Ripe(cfg: Config, table: TimingTable, structure: Structure, w: World, x: Command, c: Command) {
    && Still(cfg, structure, w) && IdOf(x.addr) in w.ch.banks && w.ch.banks[IdOf(x.addr)].normal == Open(x.Row())
    && ((Piled(cfg, structure, w.q, w.ch, x, [c]) && GetReadyCommand(cfg, w.ch, x, w.clk) == Ready(x))
        || (Piled(cfg, structure, w.q, w.ch, c, [])
            && (w.ch.banks[IdOf(x.addr)].Earliest(x.kind) <= w.clk - 1
                <==> !PositiveFor(table.sameBank(x.kind), x.kind))))
  }

  function Stage(b: Bank, row: int): nat {
    if b.normal.Closed? then 1 else if b.normal.row == row then 0 else 2
  }

  /** A pile ripens, whatever the table says. */
  lemma {:induction false} Ripens(cfg: Config, table: TimingTable, structure: Structure, size: nat, w: World,
                                  x: Command, c: Command) returns (actions: seq<Action>)
    requires PiledUp(cfg, structure, w, x, [c])
    ensures var w' := Follow(cfg, table, structure, true, size, w, actions);
      Ripe(cfg, table, structure, w', x, c) && Kept(w.ch, w'.ch, IdOf(x.addr))
    ensures AllTicks(actions) && (w.ch.banks[IdOf(x.addr)].normal != Open(x.Row()) ==> actions != [])
    decreases Stage(w.ch.banks[IdOf(x.addr)], x.Row()),
      if w.clk < PileDue(cfg, w.ch, x) then PileDue(cfg, w.ch, x) - w.clk else 0
  {
    hide RunCycle, Follow, Step, GetReadyCommand, PositiveFor;
    PileAnswers(cfg, w.ch, x, w.clk);
    if GetReadyCommand(cfg, w.ch, x, w.clk) == Ready(x) {
      actions := [];
      FollowNothing(cfg, table, structure, size, w);
    } else {
      PileCycle(cfg, table, structure, w.q, w.ch, w.clk, x, [c]);
      PileStep(cfg, table, structure, size, w, x, [c]);
      var w1 := Follow(cfg, table, structure, true, size, w, [TICK]);
      if w1.q != w.q {
        actions := [TICK];
      } else {
        var rest := Ripens(cfg, table, structure, size, w1, x, c);
        actions := [TICK] + rest;
        FollowAppends(cfg, table, structure, size, w, [TICK], rest);
      }
    }
  }
}
