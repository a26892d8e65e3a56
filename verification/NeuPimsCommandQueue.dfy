/** The NeuPIMs command queue as an object: fields updated in place, queues searched with loops. Each method is
    proved to return and leave exactly what the functions of NeuPims say. */
module NeuPimsQueues {
  import opened Commands
  import opened Banks
  import opened Channels
  import opened Queues
  import NeuPims

  class NeuPimsCommandQueue {
    const cfg: Config
    const structure: Structure
    const queueSize: nat
    var queues: seq<seq<Command>>
    var pimQueue: seq<Command>
    var queueIdx: int
    var isInRef: bool
    var refQIndices: set<int>
    var skipPim: bool
    var remainSlack: int
    var reservedRow: int
    var isGwriting: bool
    var gwriteTarget: Address

    ghost function State(): NeuPims.NQueue
      reads this
    {
      NeuPims.NQueue(queues, pimQueue, queueIdx, isInRef, refQIndices, skipPim, remainSlack, reservedRow, isGwriting,
                     gwriteTarget)
    }

    ghost predicate Valid()
      reads this
    {
      cfg.Valid() && NeuPims.ValidQueue(cfg, structure, State())
    }

    constructor (cfg: Config, structure: Structure, queueSize: nat)
      requires cfg.Valid()
      ensures Valid() && State() == NeuPims.EmptyQueue(cfg, structure)
      ensures this.cfg == cfg && this.structure == structure && this.queueSize == queueSize
    {
      this.cfg, this.structure, this.queueSize := cfg, structure, queueSize;
      queues := seq(NumQueues(cfg, structure), _ => []);
      pimQueue, queueIdx, isInRef, refQIndices := [], 0, false, {};
      skipPim, remainSlack, reservedRow, isGwriting, gwriteTarget := false, 0, -1, false, NO_ADDRESS;
      new;
      Positive(cfg.bankgroups, cfg.banksPerGroup);
      Positive(cfg.ranks, cfg.bankgroups * cfg.banksPerGroup);
    }

    /** Whether the operation fits before the next refresh; the slack left is remembered. */
    method CanMeetRefreshDeadline(remainToRefresh: int, latency: int) returns (ok: bool)
      modifies this`remainSlack
      ensures ok == (remainToRefresh - latency > 0)
      ensures remainSlack == NeuPims.SlackLeft(remainToRefresh, latency)
    {
      var slack := remainToRefresh - latency;
      remainSlack := 0;
      if slack > 0 { remainSlack := slack; }
      ok := slack > 0;
    }

    method GetReadyInPimQueue(ch: Channel, clk: int, remainToRefresh: int, latency: int) returns (answer: Answer)
      requires Valid() && ch.Valid(cfg)
      modifies this
      ensures Valid()
      ensures NeuPims.Selection(answer, State())
           == NeuPims.ReadyInPim(cfg, old(State()), ch, clk, remainToRefresh, latency)
    {
      if pimQueue == [] { return NotReady; }
      var head := pimQueue[0];
      if isGwriting {
        return if head.IsGwrite() then GetReadyCommand(cfg, ch, head, clk) else NotReady;
      }
      if head.IsGwrite() || head.IsPimHeader() {
        var ok := CanMeetRefreshDeadline(remainToRefresh, latency);
        if !ok {
          skipPim := true;
          return NotReady;
        }
        if head.IsGwrite() {
          isGwriting, gwriteTarget := true, head.addr;
        } else {
          reservedRow := head.Row();
        }
      }
      return GetReadyCommand(cfg, ch, head, clk);
    }

    method GetFirstReadyInQueue(ch: Channel, clk: int, idx: int) returns (answer: Answer)
      requires Valid() && ch.Valid(cfg) && 0 <= idx < |queues|
      modifies this`remainSlack
      ensures (answer, remainSlack) == NeuPims.FirstReady(cfg, structure, old(State()), ch, clk, queues[idx], idx, 0)
    {
      hide Channels.GetReadyCommand, ArbitratePrecharge, HasRWDependency;
      ghost var q := State();
      var queue := queues[idx];
      var n := 0;
      while n < |queue|
        invariant 0 <= n <= |queue| && State() == q
        invariant NeuPims.FirstReady(cfg, structure, q, ch, clk, queue, idx, 0)
               == NeuPims.FirstReady(cfg, structure, q, ch, clk, queue, idx, n)
      {
        var entry := queue[n];
        assert NeuPims.NormalEntry(cfg, structure, entry, idx);
        var passed := reservedRow == entry.Row() || (isGwriting && SameBank(gwriteTarget, entry.addr));
        if !passed {
          answer := GetReadyCommand(cfg, ch, entry, clk);
          if answer.Abort? { return; }
          passed := answer.NotReady?;
        }
        if !passed {
          if answer.cmd.kind == Precharge {
            var free := CheckArbitratePrecharge(cfg, ch, queue, n);
            passed := !free;
          } else if answer.cmd.IsWrite() {
            passed := CheckRWDependency(queue, n);
          }
        }
        if !passed {
          if remainSlack > 0 && pimQueue != [] {
            if answer.cmd.kind == Precharge {
              if remainSlack > cfg.tRP + cfg.tRCDWR {
                remainSlack := remainSlack - cfg.tRP;
                return;
              }
            } else if answer.cmd.kind == Activate {
              if remainSlack > cfg.tRCDWR {
                remainSlack := remainSlack - cfg.tRCDWR;
                return;
              }
            } else if answer.cmd.kind == entry.kind {
              return;
            } else {
              return Abort;
            }
          } else {
            return;
          }
        }
        n := n + 1;
      }
      answer := NotReady;
    }

    method GetNextQueue()
      requires Valid()
      modifies this`queueIdx
      ensures queueIdx == NextIndex(old(queueIdx), |queues|) && Valid()
    {
      queueIdx := queueIdx + 1;
      if queueIdx == |queues| { queueIdx := 0; }
    }

    /** Erases a command from the queue its address names. */
    method EraseRWCommand(cmd: Command)
      requires Valid()
      requires cmd.PimQCommand() || 0 <= QueueIndex(cfg, structure, cmd.addr) < |queues|
      modifies this`queues, this`pimQueue
      ensures cmd.PimQCommand() ==> queues == old(queues) && pimQueue == Erased(old(pimQueue), cmd)
      ensures !cmd.PimQCommand() ==> pimQueue == old(pimQueue)
      ensures !cmd.PimQCommand() ==>
        var i := QueueIndex(cfg, structure, cmd.addr); queues == old(queues)[i := Erased(old(queues)[i], cmd)]
    {
      if cmd.PimQCommand() {
        pimQueue := EraseFirst(pimQueue, cmd);
      } else {
        var i := QueueIndex(cfg, structure, cmd.addr);
        var rest := EraseFirst(queues[i], cmd);
        queues := queues[i := rest];
      }
    }

    method ServeCurrentQueue(ch: Channel, clk: int) returns (answer: Answer)
      requires Valid() && ch.Valid(cfg)
      modifies this
      ensures NeuPims.Selection(answer, State()) == NeuPims.ServeQueue(cfg, structure, old(State()), ch, clk)
      ensures answer == NotReady ==> State() == old(State())
    {
      NeuPims.FirstReadyStaysInQueue(cfg, structure, State(), ch, clk, queues[queueIdx], queueIdx, 0);
      NeuPims.UnreadyKeepsSlack(cfg, structure, State(), ch, clk, queues[queueIdx], queueIdx, 0);
      answer := GetFirstReadyInQueue(ch, clk, queueIdx);
      if answer.Ready? && answer.cmd.IsReadWrite() { EraseRWCommand(answer.cmd); }
    }

    /** One round over the normal queues, starting after the last one served. */
    method ServeNormalQueues(ch: Channel, clk: int) returns (answer: Answer)
      requires Valid() && ch.Valid(cfg)
      modifies this
      ensures Valid()
      ensures NeuPims.Selection(answer, State())
           == NeuPims.RoundRobin(cfg, structure, old(State()), ch, clk, |old(queues)|)
    {
      ghost var start := State();
      NeuPims.RoundRobinKeepsValid(cfg, structure, start, ch, clk, |queues|);
      var left := |queues|;
      while left > 0
        invariant Valid() && 0 <= left <= |queues|
        invariant NeuPims.RoundRobin(cfg, structure, start, ch, clk, |start.queues|)
               == NeuPims.RoundRobin(cfg, structure, State(), ch, clk, left)
      {
        GetNextQueue();
        if !(isInRef && queueIdx in refQIndices) {
          answer := ServeCurrentQueue(ch, clk);
          if answer != NotReady { return; }
        }
        left := left - 1;
      }
      answer := NotReady;
    }

    method GetCommandToIssue(ch: Channel, clk: int, remainToRefresh: int, latency: int) returns (answer: Answer)
      requires Valid() && ch.Valid(cfg)
      modifies this
      ensures Valid()
      ensures NeuPims.Selection(answer, State())
           == NeuPims.GetCommandToIssue(cfg, structure, old(State()), ch, clk, remainToRefresh, latency)
    {
      if !skipPim && pimQueue != [] && !isInRef {
        answer := GetReadyInPimQueue(ch, clk, remainToRefresh, latency);
        if answer.Abort? { return; }
        if answer.Ready? {
          if answer.cmd.IsPimCommand() || answer.cmd.IsPimHeader() {
            NeuPims.ErasedKeepsPim(cfg, pimQueue, answer.cmd);
            EraseRWCommand(answer.cmd);
          }
          return;
        }
        if remainSlack < 10 { return NotReady; }
      }
      answer := ServeNormalQueues(ch, clk);
    }

    method GetRefQIndices(rank: int)
      requires Valid()
      modifies this`refQIndices
      ensures refQIndices == old(refQIndices) + RefQIndices(cfg, structure, rank)
    {
      if structure.PerRank? {
        refQIndices := refQIndices + {rank};
      } else {
        Positive(cfg.bankgroups, cfg.banksPerGroup);
        var count := |queues|;
        for i := 0 to count
          invariant refQIndices == old(refQIndices) + set n | 0 <= n < i && RankOf(cfg, structure, n) == rank
        {
          if i / (cfg.bankgroups * cfg.banksPerGroup) == rank { refQIndices := refQIndices + {i}; }
        }
      }
    }

    method FinishRefresh(ch: Channel, clk: int) returns (answer: Answer)
      requires Valid() && ch.Valid(cfg) && ch.refreshQ != []
      modifies this
      ensures Valid()
      ensures NeuPims.Selection(answer, State()) == NeuPims.FinishRefresh(cfg, structure, old(State()), ch, clk)
    {
      var ref := ch.refreshQ[0];
      if !isInRef {
        GetRefQIndices(ref.Rank());
        isInRef := true;
      }
      answer := GetReadyCommand(cfg, ch, ref, clk);
      if answer.Ready? && answer.cmd.IsRefresh() {
        refQIndices, isInRef, skipPim, remainSlack, reservedRow := {}, false, false, 0, -1;
      }
    }

    method AddCommand(c: Command) returns (added: bool)
      requires Valid()
      requires c.PimQCommand() ==> NeuPims.PimEntry(cfg, c)
      requires !c.PimQCommand() ==> NeuPims.NormalEntry(cfg, structure, c, QueueIndex(cfg, structure, c.addr))
      requires !c.PimQCommand() ==> 0 <= QueueIndex(cfg, structure, c.addr) < |queues|
      modifies this
      ensures Valid() && State() == NeuPims.AddCommand(cfg, structure, old(State()), queueSize, c)
      ensures added == (State() != old(State()))
    {
      if c.PimQCommand() {
        added := |pimQueue| < queueSize;
        if added { pimQueue := pimQueue + [c]; }
      } else {
        var i := QueueIndex(cfg, structure, c.addr);
        added := |queues[i]| < queueSize;
        if added { queues := queues[i := queues[i] + [c]]; }
      }
    }

    method FinishGwrite()
      requires Valid()
      modifies this
      ensures Valid() && State() == NeuPims.FinishGwrite(old(State()))
    {
      isGwriting, remainSlack := false, 0;
    }
  }
}
