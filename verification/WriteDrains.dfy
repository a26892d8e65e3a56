/** When buffered writes are scheduled, and when reads. */
module WriteDrains {
  // A full buffer, or nine writes with the command queues empty, start a drain; it lasts for as many writes as it
  // found, unless a read waits for one of them. Otherwise reads are served.

  import opened Commands
  import opened Channels
  import opened Queues
  import opened Transactions
  import opened Books
  import opened DramQueue
  import opened ControllerModel
  import opened StrandedReads

  /** The command queue of an address has room. */
  predicate Fits(p: Params, queues: seq<seq<Command>>, a: int) {
    var i := QueueIndex(p.cfg, p.structure, p.mapping(a));
    0 <= i < |queues| && |queues[i]| < p.queueSize
  }

  /** The first transaction that fits. */
  predicate IsFirst(p: Params, queues: seq<seq<Command>>, s: seq<Transaction>, n: int) {
    0 <= n < |s| && Fits(p, queues, s[n].addr) && forall m | 0 <= m < n :: !Fits(p, queues, s[m].addr)
  }

  predicate NoneFits(p: Params, queues: seq<seq<Command>>, s: seq<Transaction>) {
    forall m | 0 <= m < |s| :: !Fits(p, queues, s[m].addr)
  }

  predicate Waits(s: seq<Transaction>, a: int) { exists m | 0 <= m < |s| :: s[m].addr == a }

  /** The command for the transaction joins its queue behind the others; the other queues stay. */
  predicate Joins(p: Params, x: Controller, x': Controller, kind: CommandType, a: int) {
    var i := QueueIndex(p.cfg, p.structure, p.mapping(a));
    && |x'.books.queues| == |x.books.queues| && 0 <= i < |x.books.queues|
    && x'.books.queues[i] == x.books.queues[i] + [Command(kind, p.mapping(a), a, false, 0)]
    && forall j | 0 <= j < |x.books.queues| && j != i :: x'.books.queues[j] == x.books.queues[j]
  }

  /** Everything but queues, read queue and write buffer. */
  predicate RestKept(x: Controller, x': Controller) {
    && x'.books == x.books.(queues := x'.books.queues, readQueue := x'.books.readQueue,
                            writeBuffer := x'.books.writeBuffer)
    && x' == x.(books := x'.books, draining := x'.draining, lock := x'.lock, lockAddr := x'.lockAddr)
  }

  /** Writes are drained: `left` of them still to go. The first that fits moves, unless a read waits for its address:
      then the drain is over, and if that read is still queued only reads are served until it has moved. */
  ghost predicate Drains(p: Params, x: Controller, x': Controller, left: int) {
    var s := x.books.writeBuffer;
    && RestKept(x, x') && x'.books.readQueue == x.books.readQueue
    && (NoneFits(p, x.books.queues, s) ==>
          && x'.books == x.books && x'.draining == left && x'.lock == x.lock && x'.lockAddr == x.lockAddr)
    && forall n | IsFirst(p, x.books.queues, s, n) ::
         if Waits(x.books.pendingRd, s[n].addr) then
           && x'.books == x.books && x'.draining == 0
           && x'.lock == Waits(x.books.readQueue, s[n].addr)
           && x'.lockAddr == if x'.lock then s[n].addr else x.lockAddr
         else
           && x'.books.writeBuffer == s[..n] + s[n + 1..] && Joins(p, x, x', Write, s[n].addr)
           && x'.draining == left - 1 && x'.lock == x.lock && x'.lockAddr == x.lockAddr
  }

  /** The first read that fits moves, and opens the lock that waits for its address; no write moves. */
  ghost predicate Serves(p: Params, x: Controller, x': Controller) {
    var s := x.books.readQueue;
    && RestKept(x, x') && x'.books.writeBuffer == x.books.writeBuffer && x'.draining == x.draining
    && (NoneFits(p, x.books.queues, s) ==> x'.books == x.books && x'.lock == x.lock && x'.lockAddr == x.lockAddr)
    && forall n | IsFirst(p, x.books.queues, s, n) ::
         var opens := x.lock && x.lockAddr == s[n].addr;
         && x'.books.readQueue == s[..n] + s[n + 1..] && Joins(p, x, x', Read, s[n].addr)
         && x'.lock == (x.lock && !opens) && x'.lockAddr == if opens then 0 else x.lockAddr
  }

  /** Which of the two: a drain underway goes on; without one, a full buffer, or more than eight writes and idle command
      queues, start one with every buffered write; otherwise, and while an address is locked, reads are served. */
  ghost predicate ScheduleLaw(p: Params, x: Controller, x': Controller) {
    var buffered := |x.books.writeBuffer|;
    var idle := forall i | 0 <= i < |x.books.queues| :: x.books.queues[i] == [];
    && (x.lock ==> Serves(p, x, x'))
    && (!x.lock && x.draining > 0 ==> Drains(p, x, x', x.draining))
    && (!x.lock && x.draining == 0 && buffered > 0 && buffered >= p.capacity ==> Drains(p, x, x', buffered))
    && (!x.lock && x.draining == 0 && buffered > 8 && idle ==> Drains(p, x, x', buffered))
    && (x.draining == 0 && buffered < p.capacity && (buffered <= 8 || !idle) ==> Serves(p, x, x'))
  }

  lemma {:induction false} FirstIsFirst(p: Params, queues: seq<seq<Command>>, s: seq<Transaction>, k: nat)
    requires k <= |s| && forall m | 0 <= m < k :: !Fits(p, queues, s[m].addr)
    ensures var n := FirstWithRoom(p, queues, s, k);
      if n == |s| then NoneFits(p, queues, s) else IsFirst(p, queues, s, n)
    decreases |s| - k
  {
    if k < |s| && !Fits(p, queues, s[k].addr) { FirstIsFirst(p, queues, s, k + 1); }
  }

  lemma OnlyOneFirst(p: Params, queues: seq<seq<Command>>, s: seq<Transaction>, n: int, m: int)
    requires IsFirst(p, queues, s, n) && IsFirst(p, queues, s, m)
    ensures n == m
  {
  }

  lemma TheFirst(p: Params, queues: seq<seq<Command>>, s: seq<Transaction>)
    ensures var n := FirstWithRoom(p, queues, s, 0);
      && (NoneFits(p, queues, s) <==> n == |s|)
      && (n < |s| ==> Fits(p, queues, s[n].addr))
      && forall m :: IsFirst(p, queues, s, m) <==> m == n < |s|
  {
    FirstIsFirst(p, queues, s, 0);
    hide FirstWithRoom, Fits;
    var n := FirstWithRoom(p, queues, s, 0);
    assert n < |s| ==> IsFirst(p, queues, s, n);
    forall m | IsFirst(p, queues, s, m) && n < |s|
      ensures m == n
    {
      OnlyOneFirst(p, queues, s, n, m);
    }
  }

  lemma WritesAreDrained(p: Params, x: Controller, left: int)
    requires !x.lock
    ensures var x1 := x.(draining := left); Drains(p, x, WriteScheduled(p, x1), left)
  {
    hide FirstWithRoom, IsFirst, NoneFits, QueueIndex;
    TheFirst(p, x.books.queues, x.books.writeBuffer);
  }

  lemma ReadsAreServed(p: Params, x: Controller)
    ensures Serves(p, x, ReadScheduled(p, x))
  {
    hide FirstWithRoom, IsFirst, NoneFits, QueueIndex;
    TheFirst(p, x.books.queues, x.books.readQueue);
  }

  /** Every controller, whatever it holds, schedules by this law. */
  lemma SchedulesByLaw(p: Params, x: Controller)
    ensures ScheduleLaw(p, x, Scheduled(p, x))
  {
    hide WriteScheduled, ReadScheduled, Drains, Serves;
    ReadsAreServed(p, x);
    if !x.lock {
      WritesAreDrained(p, x, x.draining);
      WritesAreDrained(p, x, |x.books.writeBuffer|);
      assert x.(draining := x.draining) == x;
    }
  }

  // ---- a drain ends ----

  /** The writes that leave the buffer in a cycle. */
  ghost function Moved(p: Params, x: Controller, arrival: int): int
    requires Mapped(p) && Wellformed(p, x)
  {
    |x.books.writeBuffer| - |Cycled(p, x, arrival).books.writeBuffer|
  }

  lemma IssuedKeepsBuffer(p: Params, x: Controller)
    requires Wellformed(p, x)
    ensures var x' := Issued(p, x);
      && x'.books.writeBuffer == x.books.writeBuffer && x'.draining == x.draining && x'.lock == x.lock
      && x'.lockAddr == x.lockAddr && x'.books.readQueue == x.books.readQueue
  {
    hide FirstCommand, GetCommandToIssue, Issue, UpdateAborts, Completed, Others, Value, CommandFor;
    FirstKeepsForm(p, x);
    assert FirstIssued(p, x).1.books.writeBuffer == x.books.writeBuffer;
  }

  /** One cycle of a drain: a write less to go if one moves, and never more than one; or a waiting read ends it. */
  lemma DrainStep(p: Params, x: Controller, arrival: int)
    requires Mapped(p) && Wellformed(p, x) && x.draining > 0 && !x.lock
    ensures var x' := Cycled(p, x, arrival);
      && 0 <= Moved(p, x, arrival) <= 1
      && (x'.draining == x.draining - Moved(p, x, arrival)
          || (x'.draining == 0 && Moved(p, x, arrival) == 0))
      && (x'.lock ==> x'.draining == 0)
  {
    ArrivedIsValid(p.cfg, x.ch, arrival);
    var x0 := x.(ch := Arrived(p.cfg, x.ch, arrival));
    hide Issued, Scheduled;
    IssuedKeepsBuffer(p, x0);
    var x1 := Issued(p, x0);
    SchedulesByLaw(p, x1);
    var s := x1.books.writeBuffer;
    TheFirst(p, x1.books.queues, s);
    hide FirstWithRoom, IsFirst, NoneFits;
    assert Drains(p, x1, Scheduled(p, x1), x1.draining);
  }

  /** The drain is underway after every event. */
  ghost predicate DrainLasts(p: Params, x: Controller, events: seq<Event>)
    requires Mapped(p) && Wellformed(p, x)
    decreases |events|
  {
    x.draining > 0 && !x.lock &&
      (events == [] ||
       match events[0]
       case Request(t) => DrainLasts(p, Added(x, t), events[1..])
       case Clock(arrival) => CycleKeepsForm(p, x, arrival); DrainLasts(p, Cycled(p, x, arrival), events[1..]))
  }

  ghost function MovedOver(p: Params, x: Controller, events: seq<Event>): int
    requires Mapped(p) && Wellformed(p, x)
    decreases |events|
  {
    if events == [] then 0
    else
      match events[0]
      case Request(t) => MovedOver(p, Added(x, t), events[1..])
      case Clock(arrival) =>
        CycleKeepsForm(p, x, arrival); Moved(p, x, arrival) + MovedOver(p, Cycled(p, x, arrival), events[1..])
  }

  /** As long as a drain lasts, the writes it has moved and those it still counts are the ones it began with, whatever
      arrives meanwhile; so it ends after at most that many, and reads are served again. */
  lemma {:induction false} DrainCountsDown(p: Params, x: Controller, events: seq<Event>)
    requires Mapped(p) && Wellformed(p, x) && DrainLasts(p, x, events)
    ensures After(p, x, events).draining + MovedOver(p, x, events) == x.draining
    ensures MovedOver(p, x, events) < x.draining
    decreases |events|
  {
    hide Cycled, Added;
    if events != [] {
      match events[0]
      case Request(t) =>
        AddedKeepsDrain(x, t);
        RequestKeepsForm(p, x, t);
        DrainCountsDown(p, Added(x, t), events[1..]);
      case Clock(arrival) =>
        CycleKeepsForm(p, x, arrival);
        DrainStep(p, x, arrival);
        DrainCountsDown(p, Cycled(p, x, arrival), events[1..]);
    }
  }

  lemma AddedKeepsDrain(x: Controller, t: Transaction)
    ensures Added(x, t).draining == x.draining && Added(x, t).lock == x.lock
  {
  }
}
