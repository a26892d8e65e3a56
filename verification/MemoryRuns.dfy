/** Whole runs against a flat memory. */
module MemoryRuns {
  // A run is any sequence of added reads and writes, controller cycles and collected answers; a read is tagged with its
  // place in the sequence.

  import opened Commands
  import opened Channels
  import opened Queues
  import opened Transactions
  import opened Books
  import opened DramControllers
  import DramQueue

  datatype Op = AddRead(addr: int) | AddWrite(addr: int, data: int) | Cycle(arrival: int) | Collect(now: int)

  /** The reference: writes take effect at once, in the order they are added. */
  function FlatMemory(ops: seq<Op>): map<int, int> {
    if ops == [] then map[]
    else
      var before, last := FlatMemory(ops[..|ops| - 1]), ops[|ops| - 1];
      if last.AddWrite? then before[last.addr := last.data] else before
  }

  /** The answer a flat memory gives to read `tag` of the run, at the moment it is added. */
  predicate AnswersAsFlat(ops: seq<Op>, t: Transaction) {
    t.tag < |ops| && ops[t.tag] == AddRead(t.addr) && t.data == Value(FlatMemory(ops[..t.tag]), t.addr)
  }

  /** Memory refinement and conservation over any run: every answered read is one of the run's reads, answered with
      the flat memory's value at the moment it was added, whatever buffering, merging, forwarding and reordering
      happened since; and each read of the run is answered at most once and is otherwise still waiting, exactly once. */
  method Run(cfg: Config, table: TimingTable, structure: Structure, mapping: int -> Address,
             capacity: nat, queueSize: nat, readDelay: nat, dual: bool, ops: seq<Op>)
    returns (log: seq<Transaction>, waiting: seq<Transaction>)
    requires cfg.Valid() && (forall a :: cfg.Has(IdOf(mapping(a))))
    requires dual ==> DramQueue.PositiveReadWrite(cfg, table)
    ensures forall n | 0 <= n < |log| && log[n].kind == ReadTrans :: AnswersAsFlat(ops, log[n])
    ensures forall tag: nat :: CountTag(log, tag) + CountTag(waiting, tag)
              == if tag < |ops| && ops[tag].AddRead? then 1 else 0
  {
    hide Balanced;
    var c := new DramController(cfg, table, structure, mapping, capacity, queueSize, readDelay, dual);
    log := [];
    for i := 0 to |ops|
      invariant c.Valid() && fresh(c) && fresh(c.cmdQueue)
      invariant log == c.delivered
      invariant KeepsUp(c, ops[..i])
    {
      assert ops[..i + 1] == ops[..i] + [ops[i]];
      var answer := Perform(c, ops[..i], ops[i]);
      log := log + answer;
    }
    assert ops[..|ops|] == ops;
    waiting := c.pendingRd + c.returnQueue;
    Settle(c.Account(), ops, waiting);
  }

  /** Flat memory and promises are those of the operations performed so far. */
  ghost predicate KeepsUp(c: DramController, ops: seq<Op>)
    reads c
  {
    c.flat == FlatMemory(ops) && PromisesOf(c.promised, ops)
  }

  ghost predicate PromisesOf(promised: map<nat, Promise>, ops: seq<Op>) {
    && (forall tag: nat :: tag in promised <==> tag < |ops| && ops[tag].AddRead?)
    && (forall tag: nat | tag in promised ::
        promised[tag] == Promise(ops[tag].addr, Value(FlatMemory(ops[..tag]), ops[tag].addr)))
  }

  lemma FlatGrows(ops: seq<Op>, op: Op)
    ensures FlatMemory(ops + [op]) == if op.AddWrite? then FlatMemory(ops)[op.addr := op.data] else FlatMemory(ops)
  {
    assert (ops + [op])[..|ops|] == ops;
  }

  lemma PromisesGrow(promised: map<nat, Promise>, ops: seq<Op>, op: Op)
    requires PromisesOf(promised, ops)
    ensures PromisesOf(if op.AddRead? then promised[|ops| := Promise(op.addr, Value(FlatMemory(ops), op.addr))]
                       else promised,
                       ops + [op])
  {
    hide FlatMemory;
    var ops' := ops + [op];
    forall tag: nat | tag <= |ops|
      ensures ops'[..tag] == ops[..tag]
    {
    }
    assert ops[..|ops|] == ops;
  }

  method Perform(c: DramController, before: seq<Op>, op: Op) returns (answer: seq<Transaction>)
    requires c.Valid() && KeepsUp(c, before)
    modifies c, c.cmdQueue
    ensures c.Valid() && KeepsUp(c, before + [op]) && c.delivered == old(c.delivered) + answer
  {
    hide Balanced;
    PromisesGrow(c.promised, before, op);
    FlatGrows(before, op);
    answer := [];
    match op {
      case AddRead(a) => c.AddTransaction(Transaction(a, ReadTrans, 0, 0, 0, |before|));
      case AddWrite(a, data) => c.AddTransaction(Transaction(a, WriteTrans, data, 0, 0, |before|));
      case Cycle(arrival) => c.ClockTick(arrival);
      case Collect(now) =>
        var r := c.ReturnDoneTrans(now);
        if r.Done? { answer := [r.t]; }
    }
  }

  lemma Settle(b: Books, ops: seq<Op>, waiting: seq<Transaction>)
    requires Balanced(b, []) && PromisesOf(b.promised, ops) && waiting == b.pendingRd + b.done
    ensures forall n | 0 <= n < |b.delivered| && b.delivered[n].kind == ReadTrans :: AnswersAsFlat(ops, b.delivered[n])
    ensures forall tag: nat :: CountTag(b.delivered, tag) + CountTag(waiting, tag)
              == if tag < |ops| && ops[tag].AddRead? then 1 else 0
  {
    forall tag: nat
      ensures CountTag(b.delivered, tag) + CountTag(waiting, tag) == if tag < |ops| && ops[tag].AddRead? then 1 else 0
    {
      CountTagConcat(b.pendingRd, b.done, tag);
    }
  }
}
