/** A read that has lost its command. */
module StrandedReads {
  // Once a pending read has neither a queued transaction nor a command, no later cycle or request gives it one: it is
  // never answered, and neither is any read of its address that comes to wait with it.

  import opened Commands
  import opened Channels
  import opened Queues
  import opened DramQueue
  import opened Transactions
  import opened Books
  import opened ControllerModel
  import Counting

  /** The read waits, and nothing carries its address. */
  ghost predicate Stranded(b: Books, t: Transaction) {
    t in b.pendingRd && Count(b.readQueue, t.addr) == 0 && CountAll(b.queues, Read, t.addr) == 0
  }

  lemma AddingKeeps(x: Controller, r: Transaction, t: Transaction)
    requires Stranded(x.books, t)
    ensures Stranded(Added(x, r).books, t)
  {
    var r1 := r.(addedCycle := x.clk);
    var n :| 0 <= n < |x.books.pendingRd| && x.books.pendingRd[n] == t;
    assert HasAddr(x.books.pendingRd, t.addr);
    CountConcat(x.books.readQueue, [r1], t.addr);
    CountSingle(r1, t.addr, 0);
    hide Count, CountAll;
  }

  lemma {:induction false} AddingAllKeeps(x: Controller, ts: seq<Transaction>, t: Transaction)
    requires Stranded(x.books, t)
    ensures Stranded(AddedAll(x, ts).books, t)
    decreases |ts|
  {
    hide Stranded, Added;
    if ts != [] {
      AddingKeeps(x, ts[0], t);
      AddingAllKeeps(Added(x, ts[0]), ts[1..], t);
    }
  }

  // ---- issuing ----

  lemma {:induction false} OthersStay(s: seq<Transaction>, a: int, t: Transaction)
    requires t in s && t.addr != a
    ensures t in Others(s, a)
  {
    if s[0] != t { OthersStay(s[1..], a, t); }
  }

  /** Settling any command but a read of its address leaves the read where it is. */
  lemma SettlingKeeps(b: Books, c: Command, done: int, t: Transaction)
    requires Stranded(b, t) && !(c.kind == Read && c.hexAddr == t.addr)
    ensures Stranded(Settled(b, c, done), t)
  {
    hide Count, CountAll, Completed, Others;
    if c.kind == Read { OthersStay(b.pendingRd, c.hexAddr, t); }
  }

  /** A selection takes no command of the address, and adds none. */
  lemma SelectingKeeps(p: Params, x: Controller, t: Transaction)
    requires Wellformed(p, x) && Stranded(x.books, t)
    ensures var s := GetCommandToIssue(p.cfg, p.structure, x.Queue(), x.ch, x.clk);
      && Stranded(WithQueue(x, s.q).books, t)
      && (s.answer.Ready? ==> !(s.answer.cmd.kind == Read && s.answer.cmd.hexAddr == t.addr))
  {
    hide GetCommandToIssue, CountAll, CountIn, Count;
    var q := x.Queue();
    var i := TakenFrom(p.cfg, p.structure, q, x.ch, x.clk);
    var s := GetCommandToIssue(p.cfg, p.structure, q, x.ch, x.clk);
    if s.answer.Ready? && s.answer.cmd.IsReadWrite() {
      var c := s.answer.cmd;
      var n :| 0 <= n < |q.queues[i]| && q.queues[i][n] == c;
      CountOfErased(q.queues[i], c, Read, t.addr);
      CountAllUpdate(q.queues, i, Erased(q.queues[i], c), Read, t.addr);
      PartOfAll(q.queues, i, Read, t.addr);
      if c.kind == Read && c.hexAddr == t.addr { CountInPositive(q.queues[i], n); }
    }
  }

  lemma PartOfAll(queues: seq<seq<Command>>, i: int, kind: CommandType, a: int)
    requires 0 <= i < |queues|
    ensures CountIn(queues[i], kind, a) <= CountAll(queues, kind, a)
  {
    Counting.CountAllUpdate(queues, i, [], Carries(kind, a));
  }

  lemma FirstKeeps(p: Params, x: Controller, t: Transaction)
    requires Wellformed(p, x) && Stranded(x.books, t)
    ensures Stranded(FirstIssued(p, x).1.books, t)
  {
    hide GetCommandToIssue, Stranded, Issue, Settled, UpdateAborts;
    var s := FirstCommand(p.cfg, p.structure, x.Queue(), x.ch, x.clk);
    FirstIsIssuable(p.cfg, p.table, p.structure, x.Queue(), x.ch, x.clk);
    if x.ch.refreshQ == [] {
      SelectingKeeps(p, x, t);
    } else {
      RefreshIsIssuable(p.cfg, p.table, p.structure, x.Queue(), x.ch, x.clk);
      var x1 := WithQueue(x, FinishRefresh(p.cfg, p.structure, x.Queue(), x.ch, x.clk).q);
      assert x1.books == x.books && x1.Queue() == FinishRefresh(p.cfg, p.structure, x.Queue(), x.ch, x.clk).q;
      SelectingKeeps(p, x1, t);
    }
    if s.answer.Ready? { SettlingKeeps(WithQueue(x, s.q).books, s.answer.cmd, x.clk + p.readDelay, t); }
  }

  lemma IssuingKeeps(p: Params, x: Controller, t: Transaction)
    requires Wellformed(p, x) && Stranded(x.books, t)
    ensures Stranded(Issued(p, x).books, t)
  {
    hide GetCommandToIssue, Stranded, Issue, Settled, UpdateAborts, FirstIssued;
    FirstKeepsForm(p, x);
    FirstKeeps(p, x, t);
    var x1 := FirstIssued(p, x).1;
    SelectingKeeps(p, x1, t);
    var s := GetCommandToIssue(p.cfg, p.structure, x1.Queue(), x1.ch, x1.clk);
    if s.answer.Ready? { SettlingKeeps(WithQueue(x1, s.q).books, s.answer.cmd, x1.clk + p.readDelay, t); }
  }

  // ---- scheduling ----

  lemma SchedulingKeeps(p: Params, x: Controller, t: Transaction)
    requires Stranded(x.books, t) && Mapped(p) && Wellformed(p, x)
    ensures Stranded(Scheduled(p, x).books, t)
  {
    hide ReadScheduled, WriteScheduled, Stranded;
    var x1 := DrainStarted(p, x);
    ReadKeeps(p, x1, t);
    WriteKeeps(p, x1, t);
  }

  lemma ReadKeeps(p: Params, x: Controller, t: Transaction)
    requires Stranded(x.books, t)
    ensures Stranded(ReadScheduled(p, x).books, t)
  {
    hide Count, CountAll, CountIn;
    var s := x.books.readQueue;
    var n := FirstWithRoom(p, x.books.queues, s, 0);
    if n < |s| {
      var c := CommandFor(p.mapping, Read, s[n].addr);
      CountWithout(s, n, t.addr);
      CountAppended(x.books.queues, QueueIndex(p.cfg, p.structure, c.addr), c, Read, t.addr);
      CountInSingle(c, Read, t.addr);
    }
  }

  lemma WriteKeeps(p: Params, x: Controller, t: Transaction)
    requires Stranded(x.books, t)
    ensures Stranded(WriteScheduled(p, x).books, t)
  {
    hide Count, CountAll, CountIn, HasAddr;
    var s := x.books.writeBuffer;
    var n := FirstWithRoom(p, x.books.queues, s, 0);
    if n < |s| {
      var c := CommandFor(p.mapping, Write, s[n].addr);
      CountAppended(x.books.queues, QueueIndex(p.cfg, p.structure, c.addr), c, Read, t.addr);
      CountInSingle(c, Read, t.addr);
    }
  }

  // ---- for good ----

  /** Requests and cycles, in any order. */
  datatype Event = Request(t: Transaction) | Clock(arrival: int)

  ghost function After(p: Params, x: Controller, events: seq<Event>): (x': Controller)
    requires Mapped(p) && Wellformed(p, x)
    ensures Wellformed(p, x')
    decreases |events|
  {
    if events == [] then x
    else
      match events[0]
      case Request(t) => After(p, Added(x, t), events[1..])
      case Clock(arrival) => CycleKeepsForm(p, x, arrival); After(p, Cycled(p, x, arrival), events[1..])
  }

  lemma CycleKeeps(p: Params, x: Controller, arrival: int, t: Transaction)
    requires Mapped(p) && Wellformed(p, x) && Stranded(x.books, t)
    ensures Stranded(Cycled(p, x, arrival).books, t)
  {
    ArrivedIsValid(p.cfg, x.ch, arrival);
    var x1 := x.(ch := Arrived(p.cfg, x.ch, arrival));
    hide Issued, Scheduled, Stranded;
    assert x1.books == x.books;
    IssuingKeeps(p, x1, t);
    IssuedKeepsForm(p, x1);
    SchedulingKeeps(p, Issued(p, x1), t);
  }

  /** Whatever comes in and however many cycles pass, the read waits on. */
  lemma {:induction false} StrandedForGood(p: Params, x: Controller, events: seq<Event>, t: Transaction)
    requires Mapped(p) && Wellformed(p, x) && Stranded(x.books, t)
    ensures Stranded(After(p, x, events).books, t)
    decreases |events|
  {
    hide Stranded, Cycled, Added;
    if events != [] {
      match events[0]
      case Request(r) =>
        AddingKeeps(x, r, t);
        RequestKeepsForm(p, x, r);
        StrandedForGood(p, Added(x, r), events[1..], t);
      case Clock(arrival) =>
        CycleKeeps(p, x, arrival, t);
        CycleKeepsForm(p, x, arrival);
        StrandedForGood(p, Cycled(p, x, arrival), events[1..], t);
    }
  }

  lemma RequestKeepsForm(p: Params, x: Controller, t: Transaction)
    requires Wellformed(p, x)
    ensures Wellformed(p, Added(x, t))
  {
  }

  // ---- what a lost command means ----

  /** Where every pending read has exactly one carrier, a cycle that loses a READ strands every read pending for its
      address. */
  lemma LossStrands(p: Params, x: Controller, t: Transaction)
    requires Wellformed(p, x) && ReadsCarried(x.books.pendingRd, x.books.readQueue, x.books.queues, [])
    requires p.dual && t in x.books.pendingRd
    requires var r := RunCycle(p.cfg, p.table, p.structure, true, x.Queue(), x.ch, x.clk);
      Drops(r) && r.second.cmd.kind == Read && r.second.cmd.hexAddr == t.addr
    ensures Stranded(Issued(p, x).books, t)
  {
    hide GetCommandToIssue, Issue, UpdateAborts, Count, CountAll, CountIn, Settled, FirstCommand;
    var n :| 0 <= n < |x.books.pendingRd| && x.books.pendingRd[n] == t;
    assert HasAddr(x.books.pendingRd, t.addr);
    assert ReadCarriers(x.books.readQueue, x.books.queues, [], t.addr) == 1;
    FirstKeepsForm(p, x);
    FirstIsIssuable(p.cfg, p.table, p.structure, x.Queue(), x.ch, x.clk);
    var s := FirstCommand(p.cfg, p.structure, x.Queue(), x.ch, x.clk);
    var x1 := FirstIssued(p, x).1;
    SettledKeepsQueues(WithQueue(x, s.q).books, s.answer.cmd, x.clk + p.readDelay);
    assert x1.Queue() == s.q;
    SecondLeaves(p, x1, t.addr);
    FirstTakes(p, x, t);
  }

  /** The lost command was one of the carriers left. */
  lemma SecondLeaves(p: Params, x: Controller, a: int)
    requires Wellformed(p, x)
    ensures var s := GetCommandToIssue(p.cfg, p.structure, x.Queue(), x.ch, x.clk);
      s.answer.Ready? && s.answer.cmd.kind == Read && s.answer.cmd.hexAddr == a ==>
        CountAll(s.q.queues, Read, a) == CountAll(x.books.queues, Read, a) - 1
  {
    hide GetCommandToIssue, CountAll, CountIn, Count;
    var q := x.Queue();
    var i := TakenFrom(p.cfg, p.structure, q, x.ch, x.clk);
    var s := GetCommandToIssue(p.cfg, p.structure, q, x.ch, x.clk);
    if s.answer.Ready? && s.answer.cmd.IsReadWrite() {
      var c := s.answer.cmd;
      CountOfErased(q.queues[i], c, Read, a);
      CountAllUpdate(q.queues, i, Erased(q.queues[i], c), Read, a);
      CountInSingle(c, Read, a);
    }
  }

  /** The queue the first command of a cycle left, if it is a read or write. */
  lemma FirstFrom(p: Params, x: Controller) returns (i: int)
    requires Wellformed(p, x)
    ensures var s := FirstCommand(p.cfg, p.structure, x.Queue(), x.ch, x.clk);
      if s.answer.Ready? && s.answer.cmd.IsReadWrite()
      then 0 <= i < |x.books.queues| && s.answer.cmd in x.books.queues[i]
           && s.q.queues == x.books.queues[i := Erased(x.books.queues[i], s.answer.cmd)]
      else s.q.queues == x.books.queues
  {
    hide GetCommandToIssue, Issue, UpdateAborts;
    if x.ch.refreshQ == [] {
      i := TakenFrom(p.cfg, p.structure, x.Queue(), x.ch, x.clk);
    } else {
      RefreshIsIssuable(p.cfg, p.table, p.structure, x.Queue(), x.ch, x.clk);
      i := TakenFrom(p.cfg, p.structure, FinishRefresh(p.cfg, p.structure, x.Queue(), x.ch, x.clk).q, x.ch, x.clk);
    }
  }

  /** The first command takes no carrier of the read if a second one of its address follows. */
  lemma FirstTakes(p: Params, x: Controller, t: Transaction)
    requires Wellformed(p, x) && t in x.books.pendingRd
    requires Count(x.books.readQueue, t.addr) + CountAll(x.books.queues, Read, t.addr) <= 1
    ensures var b := FirstIssued(p, x).1.books;
      && b.readQueue == x.books.readQueue
      && CountAll(b.queues, Read, t.addr) <= CountAll(x.books.queues, Read, t.addr)
      && (CountAll(b.queues, Read, t.addr) > 0 ==> t in b.pendingRd)
  {
    hide FirstCommand, CountAll, CountIn, Count, Issue, UpdateAborts, Completed, Others;
    FirstIsIssuable(p.cfg, p.table, p.structure, x.Queue(), x.ch, x.clk);
    var i := FirstFrom(p, x);
    var s := FirstCommand(p.cfg, p.structure, x.Queue(), x.ch, x.clk);
    if s.answer.Ready? && s.answer.cmd.IsReadWrite() {
      var c := s.answer.cmd;
      CountOfErased(x.books.queues[i], c, Read, t.addr);
      CountAllUpdate(x.books.queues, i, Erased(x.books.queues[i], c), Read, t.addr);
      CountInSingle(c, Read, t.addr);
      if c.kind == Read && c.hexAddr != t.addr { OthersStay(x.books.pendingRd, c.hexAddr, t); }
    }
  }
}
