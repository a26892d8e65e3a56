/** When the DRAM controller answers. */
module AnswerTimes {
  // A write is acknowledged, and a forwarded read answered, in the cycle after it came; any other read is answered
  // readDelay cycles after the READ of its address issues, together with all reads waiting for that address.

  import opened Commands
  import opened Channels
  import opened Queues
  import opened Transactions
  import opened Books
  import opened DramQueue
  import opened ControllerModel
  import opened StrandedReads

  // ---- adding ----

  /** A write is acknowledged at once, and so is a read of an address with a write pending, with that write's data. Any
      other read waits. */
  lemma AddingAnswers(x: Controller, t: Transaction)
    ensures var b, b' := x.books, Added(x, t).books;
      var now := t.(addedCycle := x.clk);
      && (t.kind == WriteTrans ==>
          b'.pendingRd == b.pendingRd && b'.done == b.done + [now.(completeCycle := x.clk + 1)])
      && (t.kind == ReadTrans && t.addr in b.pendingWr ==>
            && b'.pendingRd == b.pendingRd
            && b'.done == b.done + [now.(data := b.pendingWr[t.addr].data, completeCycle := x.clk + 1)])
      && (t.kind == ReadTrans && t.addr !in b.pendingWr ==>
            b'.pendingRd == b.pendingRd + [now] && b'.done == b.done)
  {
  }

  // ---- one issued command ----

  predicate AnswerTo(a: Transaction, t: Transaction, at: int) { a == t.(data := a.data, completeCycle := at) }

  /** Exactly the reads waiting for the address are answered, at that cycle. */
  ghost predicate AllAnswered(b: Books, b': Books, answers: seq<Transaction>, addr: int, at: int) {
    && b'.done == b.done + answers
    && (forall t <- b.pendingRd | t.addr != addr :: t in b'.pendingRd)
    && (forall t <- b.pendingRd | t.addr == addr :: exists a <- answers :: AnswerTo(a, t, at))
    && (forall t <- b'.pendingRd :: t in b.pendingRd && t.addr != addr)
    && (forall a <- answers :: exists t <- b.pendingRd :: t.addr == addr && AnswerTo(a, t, at))
  }

  lemma {:induction false} CompletedAnswers(s: seq<Transaction>, a: int, data: int, done: int, t: Transaction)
    requires t in s && t.addr == a
    ensures exists x <- Completed(s, a, data, done) :: AnswerTo(x, t, done)
  {
    if s[0] == t {
      assert AnswerTo(s[0].(data := data, completeCycle := done), t, done);
      assert Completed(s, a, data, done)[0] == s[0].(data := data, completeCycle := done);
    } else {
      CompletedAnswers(s[1..], a, data, done, t);
    }
  }

  lemma SettledAnswers(b: Books, c: Command, at: int) returns (answers: seq<Transaction>)
    ensures var b' := Settled(b, c, at);
      && (c.kind == Read ==> AllAnswered(b, b', answers, c.hexAddr, at))
      && (c.kind != Read ==> b'.done == b.done && b'.pendingRd == b.pendingRd)
  {
    var a, data := c.hexAddr, Value(b.cells, c.hexAddr);
    answers := Completed(b.pendingRd, a, data, at);
    hide Completed, Others;
    OthersKept(b.pendingRd, a);
    forall t <- b.pendingRd | t.addr != a ensures t in Others(b.pendingRd, a) { OthersStay(b.pendingRd, a, t); }
    forall t <- b.pendingRd | t.addr == a ensures exists x <- answers :: AnswerTo(x, t, at) {
      CompletedAnswers(b.pendingRd, a, data, at, t);
    }
    forall x <- answers ensures exists t <- b.pendingRd :: t.addr == a && AnswerTo(x, t, at) {
      var n :| 0 <= n < |answers| && answers[n] == x;
      var m := CompletedOrigin(b.pendingRd, a, data, at, n);
      assert b.pendingRd[m] in b.pendingRd && AnswerTo(x, b.pendingRd[m], at);
    }
  }

  // ---- one cycle ----

  /** The first command of a cycle, if it is a READ, answers exactly the reads of its address, readDelay cycles from
      now; any other answers none. */
  lemma FirstAnswers(p: Params, x: Controller) returns (answers: seq<Transaction>)
    requires Wellformed(p, x)
    ensures var (answer, x') := FirstIssued(p, x);
      && x'.clk == x.clk
      && (answer.Ready? && answer.cmd.kind == Read ==>
            AllAnswered(x.books, x'.books, answers, answer.cmd.hexAddr, x.clk + p.readDelay))
      && (!(answer.Ready? && answer.cmd.kind == Read) ==>
            x'.books.done == x.books.done && x'.books.pendingRd == x.books.pendingRd)
  {
    hide FirstCommand, Issue, Settled, UpdateAborts, AllAnswered;
    FirstIsIssuable(p.cfg, p.table, p.structure, x.Queue(), x.ch, x.clk);
    var s := FirstCommand(p.cfg, p.structure, x.Queue(), x.ch, x.clk);
    answers := [];
    if s.answer.Ready? {
      var b := WithQueue(x, s.q).books;
      answers := SettledAnswers(b, s.answer.cmd, x.clk + p.readDelay);
      if s.answer.cmd.kind == Read {
        SameReads(b, x.books, Settled(b, s.answer.cmd, x.clk + p.readDelay), answers, s.answer.cmd.hexAddr,
                  x.clk + p.readDelay);
      }
    }
  }

  lemma SameReads(b: Books, c: Books, b': Books, answers: seq<Transaction>, addr: int, at: int)
    requires c.done == b.done && c.pendingRd == b.pendingRd && AllAnswered(b, b', answers, addr, at)
    ensures AllAnswered(c, b', answers, addr, at)
  {
  }

  /** What is answered was waiting and gets this time; what is not waits on; nothing else comes to wait. */
  ghost predicate AnsweredAt(b: Books, b': Books, answers: seq<Transaction>, at: int) {
    && b'.done == b.done + answers
    && (forall t <- b.pendingRd :: t in b'.pendingRd || exists a <- answers :: AnswerTo(a, t, at))
    && (forall t <- b'.pendingRd :: t in b.pendingRd)
    && (forall a <- answers :: exists t <- b.pendingRd :: AnswerTo(a, t, at))
  }

  lemma AllIsAnsweredAt(b: Books, b': Books, answers: seq<Transaction>, addr: int, at: int)
    requires AllAnswered(b, b', answers, addr, at)
    ensures AnsweredAt(b, b', answers, at)
  {
  }

  lemma NoneIsAnswered(b: Books, b': Books, at: int)
    requires b'.done == b.done && b'.pendingRd == b.pendingRd
    ensures AnsweredAt(b, b', [], at)
  {
  }

  lemma AnsweredTwice(b: Books, mid: Books, b': Books, first: seq<Transaction>, second: seq<Transaction>, at: int)
    requires AnsweredAt(b, mid, first, at) && AnsweredAt(mid, b', second, at)
    ensures AnsweredAt(b, b', first + second, at)
  {
  }

  lemma SecondAnswers(p: Params, x: Controller, first: Command) returns (answers: seq<Transaction>)
    requires Wellformed(p, x)
    ensures AnsweredAt(x.books, SecondIssued(p, x, first).books, answers, x.clk + p.readDelay)
  {
    hide GetCommandToIssue, Issue, Settled, UpdateAborts, AllAnswered, AnsweredAt;
    NextIsIssuable(p.cfg, p.table, p.structure, x.Queue(), x.ch, x.clk);
    var s := GetCommandToIssue(p.cfg, p.structure, x.Queue(), x.ch, x.clk);
    var b, at := WithQueue(x, s.q).books, x.clk + p.readDelay;
    answers := [];
    if s.answer.Ready? && IssuedTogether(first, s.answer.cmd) {
      var settled := Settled(b, s.answer.cmd, at);
      var all := SettledAnswers(b, s.answer.cmd, at);
      if s.answer.cmd.kind == Read {
        answers := all;
        SameReads(b, x.books, settled, answers, s.answer.cmd.hexAddr, at);
        AllIsAnsweredAt(x.books, settled, answers, s.answer.cmd.hexAddr, at);
      } else {
        NoneIsAnswered(x.books, settled, at);
      }
    } else {
      NoneIsAnswered(x.books, b, at);
    }
  }

  lemma SchedulingAnswersNone(p: Params, x: Controller)
    ensures Scheduled(p, x).books.done == x.books.done && Scheduled(p, x).books.pendingRd == x.books.pendingRd
  {
    hide ReadScheduled, WriteScheduled;
    ReadSchedulingAnswersNone(p, DrainStarted(p, x));
    WriteSchedulingAnswersNone(p, DrainStarted(p, x));
  }

  lemma ReadSchedulingAnswersNone(p: Params, x: Controller)
    ensures ReadScheduled(p, x).books.done == x.books.done && ReadScheduled(p, x).books.pendingRd == x.books.pendingRd
  {
    hide FirstWithRoom, QueueIndex;
  }

  lemma WriteSchedulingAnswersNone(p: Params, x: Controller)
    ensures WriteScheduled(p, x).books.done == x.books.done && WriteScheduled(p, x).books.pendingRd == x.books.pendingRd
  {
    hide FirstWithRoom, HasAddr, QueueIndex;
  }

  /** Every cycle: the reads it answers were waiting and are due readDelay cycles later; the others wait on. */
  lemma CycleAnswers(p: Params, x: Controller, arrival: int) returns (answers: seq<Transaction>)
    requires Mapped(p) && Wellformed(p, x)
    ensures AnsweredAt(x.books, Cycled(p, x, arrival).books, answers, x.clk + p.readDelay)
  {
    hide FirstIssued, SecondIssued, Scheduled, AllAnswered, AnsweredAt, Arrived;
    ArrivedIsValid(p.cfg, x.ch, arrival);
    var x0, at := x.(ch := Arrived(p.cfg, x.ch, arrival)), x.clk + p.readDelay;
    FirstKeepsForm(p, x0);
    var (answer, x1) := FirstIssued(p, x0);
    answers := FirstAnswers(p, x0);
    if answer.Ready? && answer.cmd.kind == Read {
      AllIsAnsweredAt(x.books, x1.books, answers, answer.cmd.hexAddr, at);
    } else {
      answers := [];
      NoneIsAnswered(x.books, x1.books, at);
    }
    if answer.Ready? && p.dual {
      var more := SecondAnswers(p, x1, answer.cmd);
      AnsweredTwice(x.books, x1.books, SecondIssued(p, x1, answer.cmd).books, answers, more, at);
      answers := answers + more;
    }
    SchedulingAnswersNone(p, Issued(p, x0));
    SameBooks(x.books, Issued(p, x0).books, Cycled(p, x, arrival).books, answers, at);
  }

  lemma SameBooks(b: Books, mid: Books, b': Books, answers: seq<Transaction>, at: int)
    requires AnsweredAt(b, mid, answers, at) && b'.done == mid.done && b'.pendingRd == mid.pendingRd
    ensures AnsweredAt(b, b', answers, at)
  {
  }

  // ---- runs ----

  /** Nobody waits from the future; a read is answered a cycle after it came or readDelay cycles after some cycle it
      waited in; a write a cycle after it came. */
  ghost predicate Timely(p: Params, x: Controller) {
    && (forall t <- x.books.pendingRd :: t.kind == ReadTrans && t.addedCycle <= x.clk)
    && (forall t <- x.books.done ::
          || t.completeCycle == t.addedCycle + 1
          || (t.kind == ReadTrans && t.addedCycle + p.readDelay <= t.completeCycle < x.clk + p.readDelay))
  }

  lemma AddingIsTimely(p: Params, x: Controller, t: Transaction)
    requires Timely(p, x)
    ensures Timely(p, Added(x, t))
  {
    AddingAnswers(x, t);
  }

  lemma CycleIsTimely(p: Params, x: Controller, arrival: int)
    requires Mapped(p) && Wellformed(p, x) && Timely(p, x)
    ensures Timely(p, Cycled(p, x, arrival))
  {
    hide Cycled;
    var answers := CycleAnswers(p, x, arrival);
    CycleKeepsForm(p, x, arrival);
  }

  /** The acknowledgements of writes among the answers. */
  function Acks(s: seq<Transaction>): seq<Transaction> {
    if s == [] then []
    else Acks(s[..|s| - 1]) + if s[|s| - 1].kind == WriteTrans then [s[|s| - 1]] else []
  }

  /** What the writes of a run have to be acknowledged with, if it starts in cycle `clk`. */
  function WritesOf(events: seq<Event>, clk: int): seq<Transaction> {
    if events == [] then []
    else
      match events[0]
      case Clock(_) => WritesOf(events[1..], clk + 1)
      case Request(t) =>
        (if t.kind == WriteTrans then [t.(addedCycle := clk, completeCycle := clk + 1)] else [])
        + WritesOf(events[1..], clk)
  }

  lemma {:induction false} ReadsAckNothing(s: seq<Transaction>, answers: seq<Transaction>)
    requires forall a <- answers :: a.kind == ReadTrans
    ensures Acks(s + answers) == Acks(s)
  {
    if answers != [] {
      var init := answers[..|answers| - 1];
      ReadsAckNothing(s, init);
      assert (s + answers)[..|s + answers| - 1] == s + init;
    } else {
      assert s + answers == s;
    }
  }

  lemma AddingAcks(x: Controller, t: Transaction)
    ensures Acks(Added(x, t).books.done) == Acks(x.books.done)
      + if t.kind == WriteTrans then [t.(addedCycle := x.clk, completeCycle := x.clk + 1)] else []
  {
    AddingAnswers(x, t);
    var done := Added(x, t).books.done;
    if done != x.books.done { assert done[..|done| - 1] == x.books.done; }
  }

  lemma CycleAcks(p: Params, x: Controller, arrival: int)
    requires Mapped(p) && Wellformed(p, x) && Timely(p, x)
    ensures Acks(Cycled(p, x, arrival).books.done) == Acks(x.books.done)
  {
    hide Cycled, Acks;
    var answers := CycleAnswers(p, x, arrival);
    ReadsAckNothing(x.books.done, answers);
  }

  /** In every run of requests and cycles each write is acknowledged once, in the order they came, a cycle after it
      came; and each answered read a cycle after it came or at least readDelay cycles. */
  lemma {:induction false} EveryAnswerIsTimely(p: Params, x: Controller, events: seq<Event>)
    requires Mapped(p) && Wellformed(p, x) && Timely(p, x)
    ensures Timely(p, After(p, x, events))
    ensures Acks(After(p, x, events).books.done) == Acks(x.books.done) + WritesOf(events, x.clk)
    decreases |events|
  {
    hide Timely, Cycled, Acks, Added;
    if events != [] {
      match events[0]
      case Request(t) =>
        AddingIsTimely(p, x, t);
        AddingAcks(x, t);
        RequestKeepsTime(p, x, t);
        EveryAnswerIsTimely(p, Added(x, t), events[1..]);
      case Clock(arrival) =>
        CycleIsTimely(p, x, arrival);
        CycleAcks(p, x, arrival);
        CycleKeepsForm(p, x, arrival);
        EveryAnswerIsTimely(p, Cycled(p, x, arrival), events[1..]);
    }
  }

  lemma RequestKeepsTime(p: Params, x: Controller, t: Transaction)
    requires Wellformed(p, x)
    ensures Wellformed(p, Added(x, t)) && Added(x, t).clk == x.clk
  {
  }
}
