/** The DRAM command queue as an object, updated in place; proved against the functions of DramQueue. */
module CommandQueues {
  import opened Commands
  import opened Banks
  import opened Channels
  import opened Queues
  import DramQueue

  class CommandQueue {
    const cfg: Config
    const structure: Structure
    const queueSize: nat
    var queues: seq<seq<Command>>
    var queueIdx: int
    var isInRef: bool
    var refQIndices: set<int>

    ghost function State(): DramQueue.DQueue
      reads this
    {
      DramQueue.DQueue(queues, queueIdx, isInRef, refQIndices)
    }

    ghost predicate Valid()
      reads this
    {
      cfg.Valid() && DramQueue.ValidQueue(cfg, structure, State())
    }

    constructor (cfg: Config, structure: Structure, queueSize: nat)
      requires cfg.Valid()
      ensures Valid() && State() == DramQueue.EmptyQueue(cfg, structure)
      ensures this.cfg == cfg && this.structure == structure && this.queueSize == queueSize
    {
      this.cfg, this.structure, this.queueSize := cfg, structure, queueSize;
      queues := seq(NumQueues(cfg, structure), _ => []);
      queueIdx, isInRef, refQIndices := 0, false, {};
      new;
      Positive(cfg.bankgroups, cfg.banksPerGroup);
      Positive(cfg.ranks, cfg.bankgroups * cfg.banksPerGroup);
    }

    method WillAcceptCommand(a: Address) returns (ok: bool)
      requires Valid() && cfg.Has(IdOf(a))
      ensures 0 <= QueueIndex(cfg, structure, a) < |queues|
      ensures ok == (|queues[QueueIndex(cfg, structure, a)]| < queueSize)
    {
      IndexInRange(cfg, structure, a);
      ok := |queues[QueueIndex(cfg, structure, a)]| < queueSize;
    }

    method QueueEmpty() returns (empty: bool)
      ensures empty == forall i | 0 <= i < |queues| :: queues[i] == []
    {
      for i := 0 to |queues|
        invariant forall j | 0 <= j < i :: queues[j] == []
      {
        if queues[i] != [] { return false; }
      }
      empty := true;
    }

    method AddCommand(c: Command) returns (added: bool)
      requires Valid()
      requires 0 <= QueueIndex(cfg, structure, c.addr) < |queues|
      requires DramQueue.Entry(cfg, structure, c, QueueIndex(cfg, structure, c.addr))
      modifies this`queues
      ensures Valid()
      ensures var i := QueueIndex(cfg, structure, c.addr);
        && added == (|old(queues)[i]| < queueSize)
        && queues == if added then old(queues)[i := old(queues)[i] + [c]] else old(queues)
    {
      var i := QueueIndex(cfg, structure, c.addr);
      added := |queues[i]| < queueSize;
      if added { queues := queues[i := queues[i] + [c]]; }
    }

    method GetFirstReadyInQueue(ch: Channel, clk: int, idx: int) returns (answer: Answer)
      requires Valid() && ch.Valid(cfg) && 0 <= idx < |queues|
      ensures answer == DramQueue.FirstReady(cfg, structure, ch, clk, queues[idx], idx, 0)
    {
      var queue := queues[idx];
      var n := 0;
      while n < |queue|
        invariant 0 <= n <= |queue|
        invariant DramQueue.FirstReady(cfg, structure, ch, clk, queue, idx, 0)
               == DramQueue.FirstReady(cfg, structure, ch, clk, queue, idx, n)
      {
        assert DramQueue.Entry(cfg, structure, queue[n], idx);
        answer := GetReadyCommand(cfg, ch, queue[n], clk);
        if answer.Abort? { return; }
        if answer.Ready? {
          var passed := true;
          if answer.cmd.kind == Precharge {
            passed := CheckArbitratePrecharge(cfg, ch, queue, n);
          } else if answer.cmd.IsWrite() {
            var depends := CheckRWDependency(queue, n);
            passed := !depends;
          }
          if passed { return; }
        }
        n := n + 1;
      }
      answer := NotReady;
    }

    method EraseRWCommand(cmd: Command)
      requires Valid() && 0 <= QueueIndex(cfg, structure, cmd.addr) < |queues|
      modifies this`queues
      ensures var i := QueueIndex(cfg, structure, cmd.addr); queues == old(queues)[i := Erased(old(queues)[i], cmd)]
    {
      var i := QueueIndex(cfg, structure, cmd.addr);
      var rest := EraseFirst(queues[i], cmd);
      queues := queues[i := rest];
    }

    method ServeCurrentQueue(ch: Channel, clk: int) returns (answer: Answer)
      requires Valid() && ch.Valid(cfg)
      modifies this`queues
      ensures DramQueue.Selection(answer, State()) == DramQueue.ServeQueue(cfg, structure, old(State()), ch, clk)
      ensures answer != Abort && (answer == NotReady ==> State() == old(State()))
    {
      ghost var m := DramQueue.FirstReadyOrigin(cfg, structure, ch, clk, queues[queueIdx], queueIdx, 0);
      answer := GetFirstReadyInQueue(ch, clk, queueIdx);
      if answer.Ready? && answer.cmd.IsReadWrite() {
        assert DramQueue.Entry(cfg, structure, queues[queueIdx][m], queueIdx);
        EraseRWCommand(answer.cmd);
      }
    }

    /** One round over the queues, skipping those a latched refresh holds back. */
    method GetCommandToIssue(ch: Channel, clk: int) returns (answer: Answer)
      requires Valid() && ch.Valid(cfg)
      modifies this`queues, this`queueIdx
      ensures Valid()
      ensures DramQueue.Selection(answer, State()) == DramQueue.GetCommandToIssue(cfg, structure, old(State()), ch, clk)
    {
      hide DramQueue.ServeQueue;
      ghost var start := State();
      ghost var i, n := DramQueue.RoundRobinOrigin(cfg, structure, start, ch, clk, |queues|);
      var left := |queues|;
      while left > 0
        invariant Valid() && 0 <= left <= |queues|
        invariant DramQueue.RoundRobin(cfg, structure, start, ch, clk, |start.queues|)
               == DramQueue.RoundRobin(cfg, structure, State(), ch, clk, left)
      {
        queueIdx := queueIdx + 1;
        if queueIdx == |queues| { queueIdx := 0; }
        if !(isInRef && queueIdx in refQIndices) {
          answer := ServeCurrentQueue(ch, clk);
          if answer.Ready? { return; }
        }
        left := left - 1;
      }
      answer := NotReady;
    }

    method GetRefQIndices(rank: int)
      requires Valid()
      modifies this`refQIndices
      ensures refQIndices == old(refQIndices) + RefQIndices(cfg, structure, rank)
    {
      if structure.PerRank? {
        refQIndices := refQIndices + {rank};
      } else {
        Positive(cfg.bankgroups, cfg.banksPerGroup);
        var count := |queues|;
        for i := 0 to count
          invariant refQIndices == old(refQIndices) + set n | 0 <= n < i && RankOf(cfg, structure, n) == rank
        {
          if i / (cfg.bankgroups * cfg.banksPerGroup) == rank { refQIndices := refQIndices + {i}; }
        }
      }
    }

    method FinishRefresh(ch: Channel, clk: int) returns (answer: Answer)
      requires Valid() && ch.Valid(cfg) && ch.refreshQ != []
      modifies this`isInRef, this`refQIndices
      ensures Valid()
      ensures DramQueue.Selection(answer, State()) == DramQueue.FinishRefresh(cfg, structure, old(State()), ch, clk)
    {
      var ref := ch.refreshQ[0];
      if !isInRef {
        GetRefQIndices(ref.Rank());
        isInRef := true;
      }
      answer := GetReadyCommand(cfg, ch, ref, clk);
      if answer.Ready? && answer.cmd.IsRefresh() {
        refQIndices, isInRef := {}, false;
      }
    }
  }
}
