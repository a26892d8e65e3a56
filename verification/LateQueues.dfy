/** Rounds of the DRAM queue over entries that have to wait. */
module LateQueues {
  // An entry on its open row whose time has not come offers nothing; a round passes such queues over.

  import opened Commands
  import opened Banks
  import opened Channels
  import opened Queues
  import opened DramQueue
  import opened DualIssueLimits
  import opened DualIssuePiles

  /** Every entry is on its open row and has to wait. */
  ghost predicate LateQueue(cfg: Config, ch: Channel, clk: int, queue: seq<Command>)
    requires ch.Valid(cfg)
  {
    forall n | 0 <= n < |queue| :: Plain(cfg, queue[n]) && Late(cfg, ch, clk, queue[n])
  }

  ghost predicate Late(cfg: Config, ch: Channel, clk: int, c: Command)
    requires ch.Valid(cfg) && cfg.Has(IdOf(c.addr))
  {
    ch.banks[IdOf(c.addr)].normal == Open(c.Row()) && ch.banks[IdOf(c.addr)].Earliest(c.kind) > clk
  }

  lemma {:induction false} LateOffersNothing(cfg: Config, structure: Structure, ch: Channel, clk: int,
                                             queue: seq<Command>, i: int, n: int)
    requires ch.Valid(cfg) && ValidEntries(cfg, structure, queue, i) && 0 <= n <= |queue|
    requires LateQueue(cfg, ch, clk, queue)
    ensures FirstReady(cfg, structure, ch, clk, queue, i, n) == NotReady
    decreases |queue| - n
  {
    hide GetReadyCommand;
    if n < |queue| {
      assert Late(cfg, ch, clk, queue[n]);
      LateIsUnready(cfg, ch, queue[n], clk);
      LateOffersNothing(cfg, structure, ch, clk, queue, i, n + 1);
    }
  }

  lemma LateIsPassed(cfg: Config, structure: Structure, q: DQueue, ch: Channel, clk: int, j: int)
    requires ch.Valid(cfg) && ValidQueue(cfg, structure, q) && 0 <= j < |q.queues|
    requires LateQueue(cfg, ch, clk, q.queues[j])
    ensures Serving(cfg, structure, q, ch, clk, j, NotReady)
  {
    LateOffersNothing(cfg, structure, ch, clk, q.queues[j], j, 0);
    hide FirstReady;
  }

  /** All queues late: nothing is selected. */
  lemma AllLate(cfg: Config, structure: Structure, q: DQueue, ch: Channel, clk: int)
    requires ch.Valid(cfg) && ValidQueue(cfg, structure, q) && !q.isInRef
    requires forall j | 0 <= j < |q.queues| :: LateQueue(cfg, ch, clk, q.queues[j])
    ensures GetCommandToIssue(cfg, structure, q, ch, clk) == Selection(NotReady, q)
  {
    hide RoundRobin, LateQueue, Serving;
    var n := |q.queues|;
    forall t | 1 <= t <= n
      ensures Serving(cfg, structure, q, ch, clk, Turn(q.queueIdx, n, t), NotReady)
    {
      LateIsPassed(cfg, structure, q, ch, clk, Turn(q.queueIdx, n, t));
    }
    RoundSkips(cfg, structure, q, ch, clk, n, n);
    assert Turn(q.queueIdx, n, n) == q.queueIdx && q.(queueIdx := q.queueIdx) == q;
    RoundEnds(cfg, structure, q, ch, clk);
  }

  /** The queues between the one last served and `i` late, and the head of `i` ready for other than a precharge. */
  lemma HeadSelected(cfg: Config, structure: Structure, q: DQueue, ch: Channel, clk: int, i: int)
    requires ch.Valid(cfg) && ValidQueue(cfg, structure, q) && !q.isInRef && 0 <= i < |q.queues| && q.queues[i] != []
    requires forall t | 1 <= t < Distance(q.queueIdx, i, |q.queues|) ::
      LateQueue(cfg, ch, clk, q.queues[Turn(q.queueIdx, |q.queues|, t)])
    requires cfg.Addressed(q.queues[i][0])
    requires var answer := GetReadyCommand(cfg, ch, q.queues[i][0], clk); answer.Ready? && answer.cmd.kind != Precharge
    ensures var answer := GetReadyCommand(cfg, ch, q.queues[i][0], clk);
      GetCommandToIssue(cfg, structure, q, ch, clk) ==
        Selection(answer, q.(queueIdx := i,
                             queues := if answer.cmd.IsReadWrite() then q.queues[i := Erased(q.queues[i], answer.cmd)]
                                       else q.queues))
  {
    hide RoundRobin, LateQueue, GetReadyCommand, FirstReady;
    var n, d := |q.queues|, Distance(q.queueIdx, i, |q.queues|);
    forall t | 1 <= t < d
      ensures Serving(cfg, structure, q, ch, clk, Turn(q.queueIdx, n, t), NotReady)
    {
      LateIsPassed(cfg, structure, q, ch, clk, Turn(q.queueIdx, n, t));
    }
    assert Turn(q.queueIdx, n, d) == i;
    HeadServed(cfg, structure, q, ch, clk, i);
    ServingIs(cfg, structure, q.(queueIdx := i), ch, clk);
    ServedAtTurn(cfg, structure, q, ch, clk, d);
  }
}
