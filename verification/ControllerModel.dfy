/** The DRAM controller as a value: which transaction is scheduled, and what one cycle does. */
module ControllerModel {
  // The class DramController is proved to take exactly these steps.

  import opened Commands
  import opened Channels
  import opened Queues
  import opened Transactions
  import opened Books
  import opened DramQueue
  import opened Refreshes

  datatype Params = Params(
    cfg: Config, table: TimingTable, structure: Structure, mapping: int -> Address,
    capacity: nat, queueSize: nat, readDelay: nat, dual: bool)

  /** The books hold the command queues themselves. */
  datatype Controller = Controller(
    books: Books, queueIdx: int, isInRef: bool, refQIndices: set<int>, ch: Channel, clk: int,
    draining: int, lock: bool, lockAddr: int)
  {
    function Queue(): DQueue { DQueue(books.queues, queueIdx, isInRef, refQIndices) }
  }

  ghost predicate Wellformed(p: Params, x: Controller) {
    x.ch.Valid(p.cfg) && ValidQueue(p.cfg, p.structure, x.Queue())
  }

  function CommandFor(mapping: int -> Address, kind: CommandType, a: int): Command {
    Command(kind, mapping(a), a, false, 0)
  }

  // ---- scheduling ----

  predicate Room(p: Params, queues: seq<seq<Command>>, a: int) {
    var i := QueueIndex(p.cfg, p.structure, p.mapping(a));
    0 <= i < |queues| && |queues[i]| < p.queueSize
  }

  /** The first transaction from `n` on whose command queue has room; the length if there is none. */
  function FirstWithRoom(p: Params, queues: seq<seq<Command>>, s: seq<Transaction>, n: nat): (m: nat)
    requires n <= |s|
    ensures n <= m <= |s| && (m < |s| ==> Room(p, queues, s[m].addr))
    decreases |s| - n
  {
    if n == |s| || Room(p, queues, s[n].addr) then n else FirstWithRoom(p, queues, s, n + 1)
  }

  /** A full write buffer, or nine writes and idle command queues, start a drain. */
  function DrainStarted(p: Params, x: Controller): Controller {
    var full := |x.books.writeBuffer| >= p.capacity;
    var many := |x.books.writeBuffer| > 8 && forall i | 0 <= i < |x.books.queues| :: x.books.queues[i] == [];
    if !x.lock && x.draining == 0 && (full || many) then x.(draining := |x.books.writeBuffer|) else x
  }

  /** The first read with room moves; it opens the lock that waits for its address. */
  function ReadScheduled(p: Params, x: Controller): Controller {
    var n := FirstWithRoom(p, x.books.queues, x.books.readQueue, 0);
    if n == |x.books.readQueue| then x
    else
      var c := CommandFor(p.mapping, Read, x.books.readQueue[n].addr);
      var opens := x.lock && x.lockAddr == c.hexAddr;
      x.(books := ScheduleRead(x.books, n, QueueIndex(p.cfg, p.structure, c.addr), c),
         lock := x.lock && !opens, lockAddr := if opens then 0 else x.lockAddr)
  }

  /** The first write with room moves, unless a read waits for its address: then the drain ends, and the address is
      locked if that read is still queued. */
  function WriteScheduled(p: Params, x: Controller): Controller {
    var n := FirstWithRoom(p, x.books.queues, x.books.writeBuffer, 0);
    if n == |x.books.writeBuffer| then x
    else
      var c := CommandFor(p.mapping, Write, x.books.writeBuffer[n].addr);
      if HasAddr(x.books.pendingRd, c.hexAddr) then
        if HasAddr(x.books.readQueue, c.hexAddr) then x.(draining := 0, lock := true, lockAddr := c.hexAddr)
        else x.(draining := 0)
      else
        x.(books := ScheduleWrite(x.books, n, QueueIndex(p.cfg, p.structure, c.addr), c), draining := x.draining - 1)
  }

  function Scheduled(p: Params, x: Controller): Controller {
    var x1 := DrainStarted(p, x);
    if x1.draining > 0 && !x1.lock then WriteScheduled(p, x1) else ReadScheduled(p, x1)
  }

  // ---- a cycle ----

  function WithQueue(x: Controller, q: DQueue): Controller {
    x.(books := x.books.(queues := q.queues), queueIdx := q.queueIdx, isInRef := q.isInRef,
       refQIndices := q.refQIndices)
  }

  /** An issued command settles in the books and moves the channel. */
  function Effect(p: Params, x: Controller, c: Command): Controller
    requires x.ch.Valid(p.cfg) && p.cfg.Addressed(c) && !UpdateAborts(x.ch, c)
  {
    x.(books := Settled(x.books, c, x.clk + p.readDelay), ch := Issue(p.cfg, p.table, x.ch, c, x.clk))
  }

  /** The first command of a cycle, and the controller once it has issued. */
  function FirstIssued(p: Params, x: Controller): (Answer, Controller)
    requires Wellformed(p, x)
  {
    FirstIsIssuable(p.cfg, p.table, p.structure, x.Queue(), x.ch, x.clk);
    var s := FirstCommand(p.cfg, p.structure, x.Queue(), x.ch, x.clk);
    var x1 := WithQueue(x, s.q);
    (s.answer, if s.answer.Ready? then Effect(p, x1, s.answer.cmd) else x1)
  }

  /** The second selection; what it selects leaves its queue, and issues only together with `first`. */
  function SecondIssued(p: Params, x: Controller, first: Command): Controller
    requires Wellformed(p, x)
  {
    NextIsIssuable(p.cfg, p.table, p.structure, x.Queue(), x.ch, x.clk);
    var s := GetCommandToIssue(p.cfg, p.structure, x.Queue(), x.ch, x.clk);
    var x1 := WithQueue(x, s.q);
    if s.answer.Ready? && IssuedTogether(first, s.answer.cmd) then Effect(p, x1, s.answer.cmd) else x1
  }

  function Issued(p: Params, x: Controller): Controller
    requires Wellformed(p, x)
  {
    FirstKeepsForm(p, x);
    var (answer, x1) := FirstIssued(p, x);
    if answer.Ready? && p.dual then SecondIssued(p, x1, answer.cmd) else x1
  }

  lemma FirstKeepsForm(p: Params, x: Controller)
    requires Wellformed(p, x)
    ensures Wellformed(p, FirstIssued(p, x).1) && FirstIssued(p, x).1.clk == x.clk
  {
    hide FirstCommand, Issue, Settled;
    FirstIsIssuable(p.cfg, p.table, p.structure, x.Queue(), x.ch, x.clk);
    var s := FirstCommand(p.cfg, p.structure, x.Queue(), x.ch, x.clk);
    if s.answer.Ready? { SettledKeepsQueues(WithQueue(x, s.q).books, s.answer.cmd, x.clk + p.readDelay); }
  }

  lemma SettledKeepsQueues(b: Books, c: Command, done: int)
    ensures Settled(b, c, done).queues == b.queues
  {
    hide Completed, Others;
  }

  /** Channel and queues move as in the cycle of the command queue. */
  lemma IssuedIsCycle(p: Params, x: Controller)
    requires Wellformed(p, x)
    ensures var r, x' := RunCycle(p.cfg, p.table, p.structure, p.dual, x.Queue(), x.ch, x.clk), Issued(p, x);
      x'.Queue() == r.q && x'.ch == r.ch
  {
    hide FirstCommand, GetCommandToIssue, Issue, Settled, UpdateAborts;
    FirstKeepsForm(p, x);
    FirstIsIssuable(p.cfg, p.table, p.structure, x.Queue(), x.ch, x.clk);
    var s := FirstCommand(p.cfg, p.structure, x.Queue(), x.ch, x.clk);
    if s.answer.Ready? {
      var x1 := FirstIssued(p, x).1;
      SettledKeepsQueues(WithQueue(x, s.q).books, s.answer.cmd, x.clk + p.readDelay);
      assert x1.Queue() == s.q;
      NextIsIssuable(p.cfg, p.table, p.structure, x1.Queue(), x1.ch, x1.clk);
      var s2 := GetCommandToIssue(p.cfg, p.structure, x1.Queue(), x1.ch, x1.clk);
      if s2.answer.Ready? { SettledKeepsQueues(WithQueue(x1, s2.q).books, s2.answer.cmd, x1.clk + p.readDelay); }
    }
  }

  /** A refresh may arrive, one or two commands issue, one transaction is scheduled. */
  function Cycled(p: Params, x: Controller, arrival: int): Controller
    requires Wellformed(p, x)
  {
    ArrivedIsValid(p.cfg, x.ch, arrival);
    var x1 := Scheduled(p, Issued(p, x.(ch := Arrived(p.cfg, x.ch, arrival))));
    x1.(clk := x.clk + 1)
  }

  function Added(x: Controller, t: Transaction): Controller {
    x.(books := if t.kind == WriteTrans then AddWrite(x.books, t, x.clk) else AddRead(x.books, t, x.clk))
  }

  predicate SameMemory(b: Books, b': Books) {
    b'.flat == b.flat && b'.promised == b.promised && b'.delivered == b.delivered
  }

  /** A cycle neither adds nor delivers. */
  lemma CycleKeepsMemory(p: Params, x: Controller, arrival: int)
    requires Wellformed(p, x)
    ensures SameMemory(x.books, Cycled(p, x, arrival).books)
  {
    ArrivedIsValid(p.cfg, x.ch, arrival);
    IssuedKeepsMemory(p, x.(ch := Arrived(p.cfg, x.ch, arrival)));
    hide Issued;
    ScheduleKeepsMemory(p, Issued(p, x.(ch := Arrived(p.cfg, x.ch, arrival))));
    hide Scheduled, Arrived;
  }

  lemma ScheduleKeepsMemory(p: Params, x: Controller)
    ensures SameMemory(x.books, Scheduled(p, x).books)
  {
    hide FirstWithRoom, HasAddr;
  }

  lemma IssuedKeepsMemory(p: Params, x: Controller)
    requires Wellformed(p, x)
    ensures SameMemory(x.books, Issued(p, x).books)
  {
    hide FirstCommand, GetCommandToIssue, Issue, UpdateAborts, Completed, Others;
    FirstKeepsForm(p, x);
    assert SameMemory(x.books, FirstIssued(p, x).1.books);
  }

  // ---- runs ----

  /** Every address belongs to a bank. */
  ghost predicate Mapped(p: Params) { p.cfg.Valid() && forall a :: p.cfg.Has(IdOf(p.mapping(a))) }

  lemma IssuedKeepsForm(p: Params, x: Controller)
    requires Wellformed(p, x)
    ensures Wellformed(p, Issued(p, x)) && Issued(p, x).clk == x.clk
  {
    hide FirstIssued, GetCommandToIssue, Issue, Settled;
    FirstKeepsForm(p, x);
    var x1 := FirstIssued(p, x).1;
    NextIsIssuable(p.cfg, p.table, p.structure, x1.Queue(), x1.ch, x1.clk);
    var s := GetCommandToIssue(p.cfg, p.structure, x1.Queue(), x1.ch, x1.clk);
    if s.answer.Ready? { SettledKeepsQueues(WithQueue(x1, s.q).books, s.answer.cmd, x1.clk + p.readDelay); }
  }

  lemma ScheduleKeepsForm(p: Params, x: Controller)
    requires Mapped(p) && Wellformed(p, x)
    ensures Wellformed(p, Scheduled(p, x)) && Scheduled(p, x).clk == x.clk
  {
    hide ReadScheduled, WriteScheduled;
    var x1 := DrainStarted(p, x);
    ReadKeepsForm(p, x1);
    WriteKeepsForm(p, x1);
  }

  lemma ReadKeepsForm(p: Params, x: Controller)
    requires Mapped(p) && Wellformed(p, x)
    ensures Wellformed(p, ReadScheduled(p, x)) && ReadScheduled(p, x).clk == x.clk
  {
    hide FirstWithRoom;
    var n := FirstWithRoom(p, x.books.queues, x.books.readQueue, 0);
    if n < |x.books.readQueue| { EntersInForm(p, x.Queue(), Read, x.books.readQueue[n].addr); }
  }

  lemma WriteKeepsForm(p: Params, x: Controller)
    requires Mapped(p) && Wellformed(p, x)
    ensures Wellformed(p, WriteScheduled(p, x)) && WriteScheduled(p, x).clk == x.clk
  {
    hide FirstWithRoom, HasAddr;
    var n := FirstWithRoom(p, x.books.queues, x.books.writeBuffer, 0);
    if n < |x.books.writeBuffer| { EntersInForm(p, x.Queue(), Write, x.books.writeBuffer[n].addr); }
  }

  lemma EntersInForm(p: Params, q: DQueue, kind: CommandType, a: int)
    requires Mapped(p) && ValidQueue(p.cfg, p.structure, q) && kind in {Read, Write}
    ensures var i := QueueIndex(p.cfg, p.structure, p.mapping(a));
      && 0 <= i < |q.queues|
      && ValidQueue(p.cfg, p.structure, q.(queues := q.queues[i := q.queues[i] + [CommandFor(p.mapping, kind, a)]]))
  {
    IndexInRange(p.cfg, p.structure, p.mapping(a));
  }

  lemma CycleKeepsForm(p: Params, x: Controller, arrival: int)
    requires Mapped(p) && Wellformed(p, x)
    ensures Wellformed(p, Cycled(p, x, arrival)) && Cycled(p, x, arrival).clk == x.clk + 1
  {
    ArrivedIsValid(p.cfg, x.ch, arrival);
    var x1 := x.(ch := Arrived(p.cfg, x.ch, arrival));
    hide Issued, Scheduled;
    IssuedKeepsForm(p, x1);
    ScheduleKeepsForm(p, Issued(p, x1));
  }

  /** Transactions come in one after the other. */
  function AddedAll(x: Controller, ts: seq<Transaction>): Controller
    decreases |ts|
  {
    if ts == [] then x else AddedAll(Added(x, ts[0]), ts[1..])
  }

  lemma {:induction false} AddingKeepsForm(p: Params, x: Controller, ts: seq<Transaction>)
    requires Wellformed(p, x)
    ensures Wellformed(p, AddedAll(x, ts)) && AddedAll(x, ts).ch == x.ch && AddedAll(x, ts).clk == x.clk
    decreases |ts|
  {
    if ts != [] { AddingKeepsForm(p, Added(x, ts[0]), ts[1..]); }
  }

  function Fresh(p: Params): Controller {
    Controller(Books([], map[], [], [], EmptyQueue(p.cfg, p.structure).queues, [], [], map[], map[], map[]),
               0, false, {}, Initial(p.cfg), 0, 0, false, 0)
  }

  lemma FreshIsWellformed(p: Params)
    requires Mapped(p)
    ensures Wellformed(p, Fresh(p))
  {
    Positive(p.cfg.bankgroups, p.cfg.banksPerGroup);
    Positive(p.cfg.ranks, p.cfg.bankgroups * p.cfg.banksPerGroup);
  }

  /** The controller before cycle `n`, if `requests` says what comes in before each cycle and the refresh unit inserts
      the refreshes: nothing else is left open. */
  ghost function Before(p: Params, requests: nat -> seq<Transaction>, interval: nat, n: nat): (x: Controller)
    requires Mapped(p) && interval > 0
    ensures Wellformed(p, x) && x.clk == n
    decreases n, 0
  {
    if n == 0 then (FreshIsWellformed(p); Fresh(p))
    else
      var x := Loaded(p, requests, interval, n - 1);
      CycleKeepsForm(p, x, ArrivalAt(p.cfg.ranks, interval, n - 1));
      Cycled(p, x, ArrivalAt(p.cfg.ranks, interval, n - 1))
  }

  /** With the requests of cycle `n`. */
  ghost function Loaded(p: Params, requests: nat -> seq<Transaction>, interval: nat, n: nat): (x: Controller)
    requires Mapped(p) && interval > 0
    ensures Wellformed(p, x) && x.clk == n
    decreases n, 1
  {
    AddingKeepsForm(p, Before(p, requests, interval, n), requests(n));
    AddedAll(Before(p, requests, interval, n), requests(n))
  }
}
