/** Transactions, and the invariants that tie a controller's queues, pending maps and return queue together.
    The original moves addresses only; here every transaction also carries its data and a tag. */
module Transactions {
  import opened Commands
  import opened Queues
  import Counting

  datatype TransactionKind = ReadTrans | WriteTrans

  datatype Transaction = Transaction(addr: int, kind: TransactionKind, data: int, addedCycle: int, completeCycle: int,
                                     tag: nat)

  /** What a read was promised when it was added: its address and the value the flat memory held there. */
  datatype Promise = Promise(addr: int, data: int)

  /** A memory that starts out all zero. */
  function Value(m: map<int, int>, a: int): int {
    if a in m then m[a] else 0
  }

  // ---- counting carriers ----

  ghost function ForAddr(a: int): Transaction -> bool { (t: Transaction) => t.addr == a }
  ghost function Tagged(tag: nat): Transaction -> bool { (t: Transaction) => t.kind == ReadTrans && t.tag == tag }
  ghost function Carries(kind: CommandType, a: int): Command -> bool {
    (c: Command) => c.kind == kind && c.hexAddr == a
  }

  /** How many of the transactions are for address `a`. */
  ghost function Count(s: seq<Transaction>, a: int): nat { Counting.Count(s, ForAddr(a)) }

  /** How many of the transactions are reads tagged `tag`. */
  ghost function CountTag(s: seq<Transaction>, tag: nat): nat { Counting.Count(s, Tagged(tag)) }

  /** How many entries of a command queue are of type `kind` and for address `a`. */
  ghost function CountIn(q: seq<Command>, kind: CommandType, a: int): nat { Counting.Count(q, Carries(kind, a)) }

  ghost function CountAll(queues: seq<seq<Command>>, kind: CommandType, a: int): nat {
    Counting.CountAll(queues, Carries(kind, a))
  }

  lemma CountConcat(s: seq<Transaction>, t: seq<Transaction>, a: int)
    ensures Count(s + t, a) == Count(s, a) + Count(t, a)
  {
    Counting.CountAppends(s, t, ForAddr(a));
  }

  lemma CountInConcat(s: seq<Command>, t: seq<Command>, kind: CommandType, a: int)
    ensures CountIn(s + t, kind, a) == CountIn(s, kind, a) + CountIn(t, kind, a)
  {
    Counting.CountAppends(s, t, Carries(kind, a));
  }

  lemma CountTagConcat(s: seq<Transaction>, t: seq<Transaction>, tag: nat)
    ensures CountTag(s + t, tag) == CountTag(s, tag) + CountTag(t, tag)
  {
    Counting.CountAppends(s, t, Tagged(tag));
  }

  lemma CountInSingle(c: Command, kind: CommandType, a: int)
    ensures CountIn([c], kind, a) == if c.kind == kind && c.hexAddr == a then 1 else 0
  {
    Counting.CountOne(c, Carries(kind, a));
  }

  lemma CountSingle(t: Transaction, a: int, tag: nat)
    ensures Count([t], a) == if t.addr == a then 1 else 0
    ensures CountTag([t], tag) == if t.kind == ReadTrans && t.tag == tag then 1 else 0
  {
    Counting.CountOne(t, ForAddr(a));
    Counting.CountOne(t, Tagged(tag));
  }

  lemma CountWithout(s: seq<Transaction>, n: int, a: int)
    requires 0 <= n < |s|
    ensures Count(s[..n] + s[n + 1..], a) + (if s[n].addr == a then 1 else 0) == Count(s, a)
  {
    Counting.CountWithout(s, n, ForAddr(a));
  }

  lemma CountTagWithout(s: seq<Transaction>, n: int, tag: nat)
    requires 0 <= n < |s|
    ensures CountTag(s[..n] + s[n + 1..], tag) + CountTag([s[n]], tag) == CountTag(s, tag)
  {
    Counting.CountWithout(s, n, Tagged(tag));
    Counting.CountOne(s[n], Tagged(tag));
  }

  lemma CountAllUpdate(queues: seq<seq<Command>>, i: int, q: seq<Command>, kind: CommandType, a: int)
    requires 0 <= i < |queues|
    ensures CountAll(queues[i := q], kind, a) + CountIn(queues[i], kind, a)
         == CountAll(queues, kind, a) + CountIn(q, kind, a)
  {
    Counting.CountAllUpdate(queues, i, q, Carries(kind, a));
  }

  lemma {:induction false} CountOfErased(queue: seq<Command>, c: Command, kind: CommandType, a: int)
    requires c in queue
    ensures CountIn(queue, kind, a) == CountIn(Erased(queue, c), kind, a) + CountIn([c], kind, a)
  {
    CountInSingle(c, kind, a);
    Counting.CountTail(queue, Carries(kind, a));
    if !Matches(queue[0], c) {
      CountOfErased(queue[1..], c, kind, a);
      CountInConcat([queue[0]], Erased(queue[1..], c), kind, a);
      CountInSingle(queue[0], kind, a);
    }
  }

  lemma CountPositive(s: seq<Transaction>, a: int)
    ensures Count(s, a) > 0 <==> HasAddr(s, a)
  {
    if HasAddr(s, a) {
      var n :| 0 <= n < |s| && s[n].addr == a;
      Counting.CountMember(s, n, ForAddr(a));
    } else if Count(s, a) > 0 {
      Counting.CountWitness(s, ForAddr(a));
    }
  }

  lemma CountInPositive(q: seq<Command>, n: int)
    requires 0 <= n < |q|
    ensures CountIn(q, q[n].kind, q[n].hexAddr) > 0
  {
    Counting.CountMember(q, n, Carries(q[n].kind, q[n].hexAddr));
  }

  // ---- the invariants ----

  predicate HasAddr(s: seq<Transaction>, a: int) {
    exists n | 0 <= n < |s| :: s[n].addr == a
  }

  ghost function ReadCarriers(readQueue: seq<Transaction>, queues: seq<seq<Command>>, flight: seq<Command>,
                              a: int): nat {
    Count(readQueue, a) + CountAll(queues, Read, a) + CountIn(flight, Read, a)
  }

  ghost function WriteCarriers(writeBuffer: seq<Transaction>, queues: seq<seq<Command>>, flight: seq<Command>,
                               a: int): nat {
    Count(writeBuffer, a) + WritesOut(queues, flight, a)
  }

  /** WRITE commands queued or in flight. */
  ghost function WritesOut(queues: seq<seq<Command>>, flight: seq<Command>, a: int): nat {
    CountAll(queues, Write, a) + CountIn(flight, Write, a)
  }

  /** Every pending read address has exactly one carrier: a queued read, a READ command, or the one in flight. */
  ghost predicate ReadsCarried(pending: seq<Transaction>, readQueue: seq<Transaction>, queues: seq<seq<Command>>,
                               flight: seq<Command>) {
    forall a :: ReadCarriers(readQueue, queues, flight, a) == if HasAddr(pending, a) then 1 else 0
  }

  ghost predicate WritesCarried(pending: map<int, Transaction>, writeBuffer: seq<Transaction>,
                                queues: seq<seq<Command>>, flight: seq<Command>) {
    forall a :: WriteCarriers(writeBuffer, queues, flight, a) == if a in pending then 1 else 0
  }

  /** No WRITE command is out for an address that a read still waits for. */
  ghost predicate ReadsFirst(pending: seq<Transaction>, queues: seq<seq<Command>>, flight: seq<Command>) {
    forall a | HasAddr(pending, a) :: WritesOut(queues, flight, a) == 0
  }

  /** The flat memory is the cells overlaid with the pending writes. */
  ghost predicate Coherent(flat: map<int, int>, cells: map<int, int>, pendingWr: map<int, Transaction>) {
    forall a :: Value(flat, a) == if a in pendingWr then pendingWr[a].data else Value(cells, a)
  }

  /** A pending read will be answered from its cell with what it was promised. */
  ghost predicate CellsKeepPromises(pending: seq<Transaction>, promised: map<nat, Promise>, cells: map<int, int>) {
    forall n | 0 <= n < |pending| ::
      pending[n].kind == ReadTrans && pending[n].tag in promised
        && promised[pending[n].tag] == Promise(pending[n].addr, Value(cells, pending[n].addr))
  }

  /** Every completed read carries what it was promised. */
  ghost predicate AnswersKeepPromises(done: seq<Transaction>, promised: map<nat, Promise>) {
    forall n | 0 <= n < |done| && done[n].kind == ReadTrans ::
      done[n].tag in promised && promised[done[n].tag] == Promise(done[n].addr, done[n].data)
  }

  /** Every promised read is in exactly one place, once: pending, completed, or delivered. */
  ghost predicate Conserved(promised: map<nat, Promise>, pending: seq<Transaction>, done: seq<Transaction>,
                            delivered: seq<Transaction>) {
    forall tag ::
      CountTag(pending, tag) + CountTag(done, tag) + CountTag(delivered, tag) == if tag in promised then 1 else 0
  }

  // ---- answering all pending reads of an address ----

  function Others(s: seq<Transaction>, a: int): seq<Transaction> {
    if s == [] then [] else (if s[0].addr == a then [] else [s[0]]) + Others(s[1..], a)
  }

  /** The transactions of address `a`, completed with `data` at cycle `done`. */
  function Completed(s: seq<Transaction>, a: int, data: int, done: int): seq<Transaction> {
    if s == [] then []
    else
      (if s[0].addr == a then [s[0].(data := data, completeCycle := done)] else [])
      + Completed(s[1..], a, data, done)
  }

  lemma FromStep(s: seq<Transaction>, n: nat, a: int, data: int, done: int)
    requires n < |s|
    ensures Others(s[n..], a) == (if s[n].addr == a then [] else [s[n]]) + Others(s[n + 1..], a)
    ensures Completed(s[n..], a, data, done)
         == (if s[n].addr == a then [s[n].(data := data, completeCycle := done)] else [])
           + Completed(s[n + 1..], a, data, done)
  {
    assert s[n..][1..] == s[n + 1..];
  }

  lemma NoneLeft(a: int, data: int, done: int)
    ensures Others([], a) == [] && Completed([], a, data, done) == []
  {
  }

  lemma {:induction false} OthersCount(s: seq<Transaction>, a: int, b: int)
    ensures Count(Others(s, a), b) == if b == a then 0 else Count(s, b)
  {
    if s != [] {
      OthersCount(s[1..], a, b);
      Counting.CountTail(s, ForAddr(b));
      CountSingle(s[0], b, 0);
      CountConcat(if s[0].addr == a then [] else [s[0]], Others(s[1..], a), b);
    }
  }

  lemma OthersAddrs(s: seq<Transaction>, a: int, b: int)
    ensures HasAddr(Others(s, a), b) <==> HasAddr(s, b) && b != a
  {
    OthersCount(s, a, b);
    CountPositive(s, b);
    CountPositive(Others(s, a), b);
  }

  lemma {:induction false} OthersKept(s: seq<Transaction>, a: int)
    ensures forall n | 0 <= n < |Others(s, a)| :: Others(s, a)[n] in s && Others(s, a)[n].addr != a
  {
    if s != [] { OthersKept(s[1..], a); }
  }

  lemma {:induction false} CompletedTags(s: seq<Transaction>, a: int, data: int, done: int, tag: nat)
    ensures CountTag(s, tag) == CountTag(Others(s, a), tag) + CountTag(Completed(s, a, data, done), tag)
  {
    if s != [] {
      CompletedTags(s[1..], a, data, done, tag);
      Counting.CountTail(s, Tagged(tag));
      CountSingle(s[0], a, tag);
      CountSingle(s[0].(data := data, completeCycle := done), a, tag);
      CountTagConcat(if s[0].addr == a then [] else [s[0]], Others(s[1..], a), tag);
      CountTagConcat(if s[0].addr == a then [s[0].(data := data, completeCycle := done)] else [],
                     Completed(s[1..], a, data, done), tag);
    }
  }

  /** A completed transaction is one of the originals, for that address, with the data it got. */
  lemma {:induction false} CompletedOrigin(s: seq<Transaction>, a: int, data: int, done: int, n: int) returns (m: int)
    requires 0 <= n < |Completed(s, a, data, done)|
    ensures 0 <= m < |s| && s[m].addr == a
      && Completed(s, a, data, done)[n] == s[m].(data := data, completeCycle := done)
  {
    if s[0].addr == a {
      if n == 0 { m := 0; } else { m := CompletedOrigin(s[1..], a, data, done, n - 1); m := m + 1; }
    } else {
      m := CompletedOrigin(s[1..], a, data, done, n);
      m := m + 1;
    }
  }
}
