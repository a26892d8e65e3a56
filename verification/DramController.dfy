/** The DRAM controller: transactions in, commands out, answers back. Its queues and maps are fields updated in
    place. Whatever the interleaving, a read is answered once, with what a flat memory held when it was added. */
module DramControllers {
  import opened Commands
  import opened Banks
  import opened Channels
  import opened Queues
  import opened Transactions
  import Counting
  import opened Books
  import opened CommandQueues
  import opened DramQueue
  import opened ControllerModel
  import opened WriteDrains

  /** Nothing due, or the transaction that has just been returned. */
  datatype Returned = Nothing | Done(t: Transaction)

  class DramController {
    const cfg: Config
    const table: TimingTable
    const mapping: int -> Address
    const capacity: nat
    const readDelay: nat
    const dual: bool
    const cmdQueue: CommandQueue

    var clk: int
    var channel: Channel
    var readQueue: seq<Transaction>
    var writeBuffer: seq<Transaction>
    var pendingRd: seq<Transaction>
    var pendingWr: map<int, Transaction>
    var returnQueue: seq<Transaction>
    var writeDraining: int
    var dependencyLock: bool
    var dependencyAddr: int

    /** What the DRAM holds; the original moves no data. */
    var cells: map<int, int>
    ghost var flat: map<int, int>
    ghost var promised: map<nat, Promise>
    ghost var delivered: seq<Transaction>

    ghost function Account(): Books
      reads this, cmdQueue
    {
      Books(pendingRd, pendingWr, readQueue, writeBuffer, cmdQueue.queues, returnQueue, delivered, cells, flat,
            promised)
    }

    ghost function Params(): Params {
      ControllerModel.Params(cfg, table, cmdQueue.structure, mapping, capacity, cmdQueue.queueSize, readDelay, dual)
    }

    ghost function State(): Controller
      reads this, cmdQueue
    {
      Controller(Account(), cmdQueue.queueIdx, cmdQueue.isInRef, cmdQueue.refQIndices, channel, clk,
                 writeDraining, dependencyLock, dependencyAddr)
    }

    ghost predicate ValidWith(flight: seq<Command>)
      reads this, cmdQueue
    {
      && cmdQueue.Valid() && cmdQueue.cfg == cfg && channel.Valid(cfg)
      && (forall a :: cfg.Has(IdOf(mapping(a))))
      && (dual ==> DramQueue.PositiveReadWrite(cfg, table))
      && Balanced(Account(), flight)
      && (dependencyLock ==> HasAddr(readQueue, dependencyAddr))
    }

    ghost predicate Valid()
      reads this, cmdQueue
    {
      ValidWith([])
    }

    /** All of Valid but the lock. */
    ghost predicate ValidBooks()
      reads this, cmdQueue
    {
      && cmdQueue.Valid() && cmdQueue.cfg == cfg && channel.Valid(cfg)
      && (forall a :: cfg.Has(IdOf(mapping(a))))
      && (dual ==> DramQueue.PositiveReadWrite(cfg, table))
      && Balanced(Account(), [])
    }

    constructor (cfg: Config, table: TimingTable, structure: Structure, mapping: int -> Address,
                 capacity: nat, queueSize: nat, readDelay: nat, dual: bool)
      requires cfg.Valid() && (forall a :: cfg.Has(IdOf(mapping(a))))
      requires (dual ==> DramQueue.PositiveReadWrite(cfg, table))
      ensures Valid() && fresh(cmdQueue)
      ensures flat == map[] && promised == map[] && delivered == [] && pendingRd == [] && returnQueue == []
    {
      this.cfg, this.table, this.mapping, this.capacity := cfg, table, mapping, capacity;
      this.readDelay, this.dual := readDelay, dual;
      cmdQueue := new CommandQueue(cfg, structure, queueSize);
      clk, channel := 0, Initial(cfg);
      readQueue, writeBuffer, pendingRd, pendingWr, returnQueue := [], [], [], map[], [];
      writeDraining, dependencyLock, dependencyAddr := 0, false, 0;
      cells, flat, promised, delivered := map[], map[], map[], [];
      new;
      forall a
        ensures CountAll(cmdQueue.queues, Read, a) == 0 && CountAll(cmdQueue.queues, Write, a) == 0
      {
        EmptyQueuesCount(cmdQueue.queues, Read, a);
        EmptyQueuesCount(cmdQueue.queues, Write, a);
      }
    }

    /** Reads and writes join the books; a read is promised what the flat memory holds now. */
    method AddTransaction(t: Transaction)
      requires Valid() && (t.kind == ReadTrans ==> t.tag !in promised)
      modifies this`pendingRd, this`pendingWr, this`readQueue, this`writeBuffer, this`returnQueue, this`flat,
        this`promised
      ensures Valid() && State() == Added(old(State()), t)
      ensures Account() == if t.kind == WriteTrans then AddWrite(old(Account()), t, clk)
        else AddRead(old(Account()), t, clk)
    {
      if t.kind == WriteTrans { AddWriteTransaction(t); } else { AddReadTransaction(t); }
    }

    method AddWriteTransaction(t: Transaction)
      requires Valid() && t.kind == WriteTrans
      modifies this`pendingWr, this`writeBuffer, this`returnQueue, this`flat
      ensures Valid() && Account() == AddWrite(old(Account()), t, clk)
    {
      hide Balanced;
      AddWriteBalanced(Account(), t, clk);
      var trans := t.(addedCycle := clk);
      if trans.addr !in pendingWr {
        pendingWr := pendingWr[trans.addr := trans];
        writeBuffer := writeBuffer + [trans];
      } else {
        pendingWr := pendingWr[trans.addr := pendingWr[trans.addr].(data := trans.data)];
      }
      returnQueue := returnQueue + [trans.(completeCycle := clk + 1)];
      flat := flat[trans.addr := trans.data];
    }

    method AddReadTransaction(t: Transaction)
      requires Valid() && t.kind == ReadTrans && t.tag !in promised
      modifies this`pendingRd, this`readQueue, this`returnQueue, this`promised
      ensures Valid() && Account() == AddRead(old(Account()), t, clk)
    {
      hide Balanced, Value;
      AddReadBalanced(Account(), t, clk);
      var trans := t.(addedCycle := clk);
      promised := promised[trans.tag := Promise(trans.addr, Value(flat, trans.addr))];
      if trans.addr in pendingWr {
        returnQueue := returnQueue + [trans.(data := pendingWr[trans.addr].data, completeCycle := clk + 1)];
      } else {
        AwaitRead(trans);
      }
    }

    /** A read waits; only the first of its address is queued. */
    method AwaitRead(trans: Transaction)
      modifies this`pendingRd, this`readQueue
      ensures pendingRd == old(pendingRd) + [trans]
      ensures readQueue
           == if HasAddr(old(pendingRd), trans.addr) then old(readQueue) else old(readQueue) + [trans]
      ensures forall a :: HasAddr(old(readQueue), a) ==> HasAddr(readQueue, a)
    {
      var waiting := HasAddr(pendingRd, trans.addr);
      pendingRd := pendingRd + [trans];
      if !waiting {
        forall a | HasAddr(readQueue, a)
          ensures HasAddr(readQueue + [trans], a)
        {
          assert (readQueue + [trans])[AddrIndex(readQueue, a)].addr == a;
        }
        readQueue := readQueue + [trans];
      }
    }

    /** Every pending read of the address leaves with the cell's value. */
    method ReturnReads(a: int)
      modifies this`pendingRd, this`returnQueue
      ensures pendingRd == Others(old(pendingRd), a)
      ensures returnQueue == old(returnQueue) + Completed(old(pendingRd), a, Value(cells, a), clk + readDelay)
    {
      hide Value, Others, Completed;
      ghost var all := old(returnQueue) + Completed(pendingRd, a, Value(cells, a), clk + readDelay);
      var kept, n := [], 0;
      while n < |pendingRd|
        invariant 0 <= n <= |pendingRd| && pendingRd == old(pendingRd)
        invariant Others(pendingRd, a) == kept + Others(pendingRd[n..], a)
        invariant all == returnQueue + Completed(pendingRd[n..], a, Value(cells, a), clk + readDelay)
      {
        FromStep(pendingRd, n, a, Value(cells, a), clk + readDelay);
        if pendingRd[n].addr == a {
          returnQueue := returnQueue + [pendingRd[n].(data := Value(cells, a), completeCycle := clk + readDelay)];
        } else {
          kept := kept + [pendingRd[n]];
        }
        n := n + 1;
      }
      assert pendingRd[n..] == [];
      NoneLeft(a, Value(cells, a), clk + readDelay);
      pendingRd := kept;
    }

    /** A read or write that issues settles its address; then the channel moves. */
    method IssueCommand(c: Command)
      requires ValidWith([c]) && cfg.Addressed(c) && !UpdateAborts(channel, c)
      requires Issue(cfg, table, channel, c, clk).Valid(cfg)
      modifies this`pendingRd, this`pendingWr, this`returnQueue, this`cells, this`channel
      ensures Valid() && State() == Effect(Params(), old(State()), c)
    {
      hide Balanced, Issue;
      if c.kind == Read {
        SettleRead(c);
      } else if c.kind == Write {
        SettleWrite(c);
      } else {
        NoFlight(Account(), c);
      }
      UpdateTimingAndStates(c);
    }

    method UpdateTimingAndStates(c: Command)
      requires Valid() && cfg.Addressed(c) && !UpdateAborts(channel, c) && Issue(cfg, table, channel, c, clk).Valid(cfg)
      modifies this`channel
      ensures Valid() && channel == Issue(cfg, table, old(channel), c, clk)
      ensures Account() == old(Account())
    {
      ghost var b := Account();
      channel := Issue(cfg, table, channel, c, clk);
      assert Account() == b;
    }

    method SettleRead(c: Command)
      requires ValidWith([c]) && c.kind == Read
      modifies this`pendingRd, this`returnQueue
      ensures Valid() && Account() == IssueRead(old(Account()), c.hexAddr, clk + readDelay)
    {
      hide Others, Completed, Balanced, Value;
      IssueReadBalanced(Account(), c, clk + readDelay);
      ReturnReads(c.hexAddr);
    }

    method SettleWrite(c: Command)
      requires ValidWith([c]) && c.kind == Write
      modifies this`pendingWr, this`cells
      ensures c.hexAddr in old(pendingWr)
      ensures Valid() && Account() == IssueWrite(old(Account()), c.hexAddr)
    {
      hide Balanced;
      IssueWriteBalanced(Account(), c);
      cells := cells[c.hexAddr := pendingWr[c.hexAddr].data];
      pendingWr := pendingWr - {c.hexAddr};
    }

    /** At most one transaction moves into its command queue: a write only when no read waits for its address. */
    method ScheduleTransaction()
      requires Valid()
      modifies this`readQueue, this`writeBuffer, this`writeDraining, this`dependencyLock, this`dependencyAddr,
        cmdQueue`queues
      ensures Valid() && State() == Scheduled(Params(), old(State()))
      ensures ScheduleLaw(Params(), old(State()), State())
    {
      hide WriteScheduled, ReadScheduled, Balanced, ScheduleLaw;
      SchedulesByLaw(Params(), State());
      StartDrain();
      if writeDraining > 0 && !dependencyLock { ScheduleWrites(); } else { ScheduleReads(); }
    }

    method StartDrain()
      requires Valid()
      modifies this`writeDraining
      ensures Valid() && State() == DrainStarted(Params(), old(State()))
    {
      hide Balanced;
      if !dependencyLock && writeDraining == 0 {
        var idle := cmdQueue.QueueEmpty();
        if |writeBuffer| >= capacity || (|writeBuffer| > 8 && idle) {
          writeDraining := |writeBuffer|;
        }
      }
    }

    method ScheduleReads()
      requires Valid()
      modifies this`readQueue, this`dependencyLock, this`dependencyAddr, cmdQueue`queues
      ensures Valid() && State() == ReadScheduled(Params(), old(State()))
    {
      hide Balanced, HasAddr, ScheduleRead;
      var n := 0;
      while n < |readQueue|
        invariant 0 <= n <= |readQueue| && Valid() && State() == old(State())
        invariant FirstWithRoom(Params(), cmdQueue.queues, readQueue, 0)
             == FirstWithRoom(Params(), cmdQueue.queues, readQueue, n)
      {
        var c := CommandFor(mapping, Read, readQueue[n].addr);
        var room := cmdQueue.WillAcceptCommand(c.addr);
        if room {
          TakeRead(n, c);
          return;
        }
        n := n + 1;
      }
    }

    /** The read opens the lock that waits for its address, and moves. */
    method TakeRead(n: int, c: Command)
      requires Valid() && 0 <= n < |readQueue| && c == CommandFor(mapping, Read, readQueue[n].addr)
      requires n == FirstWithRoom(Params(), cmdQueue.queues, readQueue, 0)
      modifies this`readQueue, this`dependencyLock, this`dependencyAddr, cmdQueue`queues
      ensures Valid() && State() == ReadScheduled(Params(), old(State()))
    {
      hide Balanced, HasAddr, ScheduleRead, FirstWithRoom;
      if dependencyLock && dependencyAddr == c.hexAddr {
        dependencyAddr, dependencyLock := 0, false;
      }
      MoveRead(n, c);
    }

    method ScheduleWrites()
      requires Valid() && !dependencyLock
      modifies this`writeBuffer, this`writeDraining, this`dependencyLock, this`dependencyAddr, cmdQueue`queues
      ensures Valid() && State() == WriteScheduled(Params(), old(State()))
    {
      hide Balanced;
      var n := 0;
      while n < |writeBuffer|
        invariant 0 <= n <= |writeBuffer| && Valid() && State() == old(State()) && !dependencyLock
        invariant FirstWithRoom(Params(), cmdQueue.queues, writeBuffer, 0)
               == FirstWithRoom(Params(), cmdQueue.queues, writeBuffer, n)
      {
        var c := CommandFor(mapping, Write, writeBuffer[n].addr);
        var room := cmdQueue.WillAcceptCommand(c.addr);
        if room {
          if HasAddr(pendingRd, c.hexAddr) {
            StopDrain(c.hexAddr);
          } else {
            writeDraining := writeDraining - 1;
            MoveWrite(n, c);
          }
          return;
        }
        n := n + 1;
      }
    }

    /** A read waits for the next write's address: no more writes for now, and none at all before that read if it is
        still queued. */
    method StopDrain(a: int)
      requires Valid() && !dependencyLock
      modifies this`writeDraining, this`dependencyLock, this`dependencyAddr
      ensures Valid()
      ensures State() == if HasAddr(readQueue, a) then old(State()).(draining := 0, lock := true, lockAddr := a)
                         else old(State()).(draining := 0)
    {
      hide Balanced;
      writeDraining := 0;
      for m := 0 to |readQueue|
        invariant Valid() && State() == old(State()).(draining := 0) && !dependencyLock
        invariant forall l | 0 <= l < m :: readQueue[l].addr != a
      {
        if readQueue[m].addr == a {
          dependencyLock, dependencyAddr := true, a;
          return;
        }
      }
    }

    method MoveRead(n: int, c: Command)
      requires ValidBooks() && 0 <= n < |readQueue| && c == CommandFor(mapping, Read, readQueue[n].addr)
      requires dependencyLock ==> HasAddr(readQueue, dependencyAddr) && dependencyAddr != c.hexAddr
      requires var i := QueueIndex(cfg, cmdQueue.structure, c.addr);
        0 <= i < |cmdQueue.queues| && |cmdQueue.queues[i]| < cmdQueue.queueSize
      modifies this`readQueue, cmdQueue`queues
      ensures Valid()
      ensures Account() == ScheduleRead(old(Account()), n, QueueIndex(cfg, cmdQueue.structure, c.addr), c)
    {
      ScheduleReadBalanced(Account(), n, QueueIndex(cfg, cmdQueue.structure, c.addr), c);
      var added := cmdQueue.AddCommand(c);
      ghost var m := if dependencyLock then AddrIndex(readQueue, dependencyAddr) else 0;
      readQueue := Without(readQueue, n);
      if dependencyLock {
        assert readQueue[if m < n then m else m - 1].addr == dependencyAddr;
      }
    }

    method MoveWrite(n: int, c: Command)
      requires Valid() && 0 <= n < |writeBuffer| && c == CommandFor(mapping, Write, writeBuffer[n].addr)
      requires !HasAddr(pendingRd, c.hexAddr)
      requires var i := QueueIndex(cfg, cmdQueue.structure, c.addr);
        0 <= i < |cmdQueue.queues| && |cmdQueue.queues[i]| < cmdQueue.queueSize
      modifies this`writeBuffer, cmdQueue`queues
      ensures Valid()
      ensures Account() == ScheduleWrite(old(Account()), n, QueueIndex(cfg, cmdQueue.structure, c.addr), c)
    {
      ScheduleWriteBalanced(Account(), n, QueueIndex(cfg, cmdQueue.structure, c.addr), c);
      var added := cmdQueue.AddCommand(c);
      writeBuffer := Without(writeBuffer, n);
    }

    /** The next command the queues offer; a read or write is in flight until it is issued. */
    method SelectNext() returns (answer: Answer)
      requires Valid()
      modifies cmdQueue`queues, cmdQueue`queueIdx
      ensures var s := DramQueue.GetCommandToIssue(cfg, cmdQueue.structure, old(State()).Queue(), channel, clk);
        answer == s.answer && State() == WithQueue(old(State()), s.q)
      ensures answer != Abort && (answer.NotReady? ==> Valid())
      ensures answer.Ready? ==> Issuable(answer.cmd)
    {
      hide Balanced, DramQueue.GetCommandToIssue, Issue, UpdateAborts;
      ghost var before := Account();
      ghost var q := cmdQueue.State();
      ghost var i := DramQueue.TakenFrom(cfg, cmdQueue.structure, q, channel, clk);
      DramQueue.NextIsIssuable(cfg, table, cmdQueue.structure, q, channel, clk);
      answer := cmdQueue.GetCommandToIssue(channel, clk);
      if answer.Ready? {
        if answer.cmd.IsReadWrite() {
          TakeOutBalanced(before, i, answer.cmd);
        } else {
          NoFlight(before, answer.cmd);
        }
      }
    }

    /** In flight and certified: it can be issued. */
    ghost predicate Issuable(c: Command)
      reads this, cmdQueue
    {
      ValidWith([c]) && cfg.Addressed(c) && !UpdateAborts(channel, c) && Issue(cfg, table, channel, c, clk).Valid(cfg)
      && !c.IsPimCommand()
    }

    /** What a waiting refresh can do now. */
    method SelectRefresh() returns (answer: Answer)
      requires Valid() && channel.refreshQ != []
      modifies cmdQueue`isInRef, cmdQueue`refQIndices
      ensures DramQueue.Selection(answer, cmdQueue.State())
           == DramQueue.FinishRefresh(cfg, cmdQueue.structure, old(cmdQueue.State()), channel, clk)
      ensures answer != Abort && (answer.NotReady? ==> Valid())
      ensures answer.Ready? ==> Issuable(answer.cmd)
    {
      hide Balanced;
      ghost var before := Account();
      DramQueue.RefreshIsIssuable(cfg, table, cmdQueue.structure, cmdQueue.State(), channel, clk);
      answer := cmdQueue.FinishRefresh(channel, clk);
      assert Account() == before;
      if answer.Ready? { NoFlight(before, answer.cmd); }
    }

    /** A waiting refresh comes before the queues. */
    method SelectFirst() returns (answer: Answer)
      requires Valid()
      modifies cmdQueue
      ensures var s := DramQueue.FirstCommand(cfg, cmdQueue.structure, old(State()).Queue(), channel, clk);
        answer == s.answer && State() == WithQueue(old(State()), s.q)
      ensures answer != Abort && (answer.NotReady? ==> Valid())
      ensures answer.Ready? ==> Issuable(answer.cmd)
    {
      hide Balanced;
      answer := NotReady;
      if channel.refreshQ != [] { answer := SelectRefresh(); }
      if answer.NotReady? { answer := SelectNext(); }
    }

    /** One cycle: a refresh may arrive, one or two commands issue, one transaction is scheduled. */
    method ClockTick(arrival: int)
      requires Valid()
      modifies this, cmdQueue
      ensures Valid() && State() == Cycled(Params(), old(State()), arrival)
      ensures flat == old(flat) && promised == old(promised) && delivered == old(delivered)
    {
      hide Balanced, Issued, Scheduled;
      ArrivedIsValid(cfg, channel, arrival);
      CycleKeepsMemory(Params(), State(), arrival);
      channel := Arrived(cfg, channel, arrival);
      IssueCycle();
      ScheduleTransaction();
      clk := clk + 1;
    }

    /** The command half of a cycle; nothing taken out of a queue is lost, since a second read or write never
        follows a first. */
    method IssueCycle()
      requires Valid()
      modifies this`pendingRd, this`pendingWr, this`returnQueue, this`cells, this`channel, cmdQueue
      ensures Valid()
      ensures Wellformed(Params(), old(State())) && State() == Issued(Params(), old(State()))
    {
      hide Balanced, SecondIssued, FirstIssued, DramQueue.RunCycle, DramQueue.Drops;
      FirstKeepsForm(Params(), State());
      if dual { NothingLost(Params(), State()); }
      var first := IssueFirst();
      if first.Ready? && dual { IssueSecond(first.cmd); }
    }

    method IssueFirst() returns (first: Answer)
      requires Valid()
      modifies this`pendingRd, this`pendingWr, this`returnQueue, this`cells, this`channel, cmdQueue
      ensures Valid()
      ensures Wellformed(Params(), old(State())) && (first, State()) == FirstIssued(Params(), old(State()))
    {
      hide Balanced, DramQueue.FirstCommand, Effect;
      first := SelectFirst();
      if first.Ready? { IssueCommand(first.cmd); }
    }

    method IssueSecond(first: Command)
      requires Valid() && NothingLeft(Params(), State(), first)
      modifies this`pendingRd, this`pendingWr, this`returnQueue, this`cells, this`channel, cmdQueue`queues,
        cmdQueue`queueIdx
      ensures Valid()
      ensures Wellformed(Params(), old(State())) && State() == SecondIssued(Params(), old(State()), first)
    {
      hide Balanced, DramQueue.GetCommandToIssue, Effect;
      var second := SelectNext();
      if second.Ready? {
        if IssuedTogether(first, second.cmd) {
          IssueCommand(second.cmd);
        } else {
          NoFlight(Account(), second.cmd);
        }
      }
    }

    /** The first completed transaction that is due, if any; a read carries what it was promised. */
    method ReturnDoneTrans(now: int) returns (r: Returned)
      requires Valid()
      modifies this`returnQueue, this`delivered
      ensures Valid()
      ensures r == Nothing ==> Account() == old(Account())
      ensures r == Nothing ==> forall n | 0 <= n < |returnQueue| :: now < returnQueue[n].completeCycle
      ensures r.Done? ==> exists n | 0 <= n < |old(returnQueue)| ::
        r.t == old(returnQueue)[n] && now >= r.t.completeCycle && Account() == Return(old(Account()), n)
        && forall m | 0 <= m < n :: now < old(returnQueue)[m].completeCycle
      ensures r.Done? && r.t.kind == ReadTrans ==>
        r.t.tag in promised && promised[r.t.tag] == Promise(r.t.addr, r.t.data)
    {
      var n := 0;
      while n < |returnQueue|
        invariant 0 <= n <= |returnQueue|
        invariant forall m | 0 <= m < n :: now < returnQueue[m].completeCycle
      {
        if now >= returnQueue[n].completeCycle {
          ReturnBalanced(Account(), n, []);
          r := Done(returnQueue[n]);
          delivered := delivered + [returnQueue[n]];
          returnQueue := Without(returnQueue, n);
          return;
        }
        n := n + 1;
      }
      r := Nothing;
    }
  }

  ghost function AddrIndex(s: seq<Transaction>, a: int): (m: int)
    requires HasAddr(s, a)
    ensures 0 <= m < |s| && s[m].addr == a
  {
    var m :| 0 <= m < |s| && s[m].addr == a;
    m
  }

  lemma EmptyQueuesCount(queues: seq<seq<Command>>, kind: CommandType, a: int)
    requires forall i | 0 <= i < |queues| :: queues[i] == []
    ensures CountAll(queues, kind, a) == 0
  {
    Counting.CountAllNone(queues, Carries(kind, a));
  }

  /** No read or write is selected next that would not issue together with `first`. */
  ghost predicate NothingLeft(p: Params, x: Controller, first: Command)
    requires Wellformed(p, x)
  {
    var s := DramQueue.GetCommandToIssue(p.cfg, p.structure, x.Queue(), x.ch, x.clk);
    s.answer.Ready? && s.answer.cmd.IsReadWrite() ==> IssuedTogether(first, s.answer.cmd)
  }

  lemma NothingLost(p: Params, x: Controller)
    requires Wellformed(p, x) && p.dual && DramQueue.PositiveReadWrite(p.cfg, p.table)
    ensures Wellformed(p, FirstIssued(p, x).1)
    ensures FirstIssued(p, x).0.Ready? ==> NothingLeft(p, FirstIssued(p, x).1, FirstIssued(p, x).0.cmd)
  {
    hide DramQueue.FirstCommand, DramQueue.GetCommandToIssue, Issue, Settled;
    FirstKeepsForm(p, x);
    DramQueue.SecondReadWriteIsIssued(p.cfg, p.table, p.structure, x.Queue(), x.ch, x.clk);
    DramQueue.FirstIsIssuable(p.cfg, p.table, p.structure, x.Queue(), x.ch, x.clk);
    var s := DramQueue.FirstCommand(p.cfg, p.structure, x.Queue(), x.ch, x.clk);
    if s.answer.Ready? {
      SettledKeepsQueues(WithQueue(x, s.q).books, s.answer.cmd, x.clk + p.readDelay);
      assert FirstIssued(p, x).1.Queue() == s.q;
    }
  }
}
