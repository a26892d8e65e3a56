/** The DRAM controller's bookkeeping. */
module Books {
  // A value holding queues, buffers and pending maps, with the cells and the flat memory beside them, and its
  // transitions: adding, scheduling, taking out, issuing and returning. Each keeps the books balanced.

  import opened Commands
  import opened Queues
  import opened Transactions

  /** `cells` is what the DRAM holds, `flat` what a memory without queues would hold; `promised` is, for each read
      added, what the flat memory held at that moment; `delivered` is what has been returned. */
  datatype Books = Books(
    pendingRd: seq<Transaction>, pendingWr: map<int, Transaction>,
    readQueue: seq<Transaction>, writeBuffer: seq<Transaction>, queues: seq<seq<Command>>,
    done: seq<Transaction>, delivered: seq<Transaction>,
    cells: map<int, int>, flat: map<int, int>, promised: map<nat, Promise>)

  /** `flight` holds a read or write command that has left its queue and not yet been issued. */
  ghost predicate Balanced(b: Books, flight: seq<Command>) {
    && ReadsCarried(b.pendingRd, b.readQueue, b.queues, flight)
    && WritesCarried(b.pendingWr, b.writeBuffer, b.queues, flight)
    && ReadsFirst(b.pendingRd, b.queues, flight)
    && Coherent(b.flat, b.cells, b.pendingWr)
    && CellsKeepPromises(b.pendingRd, b.promised, b.cells)
    && AnswersKeepPromises(b.done, b.promised)
    && AnswersKeepPromises(b.delivered, b.promised)
    && Conserved(b.promised, b.pendingRd, b.done, b.delivered)
  }

  // ---- adding ----

  /** A write merges into a pending one or joins the buffer, and is acknowledged a cycle later. */
  function AddWrite(b: Books, t: Transaction, clk: int): Books
    requires t.kind == WriteTrans
  {
    var t1 := t.(addedCycle := clk);
    var merged := t.addr in b.pendingWr;
    b.(pendingWr := b.pendingWr[t.addr := if merged then b.pendingWr[t.addr].(data := t.data) else t1],
       writeBuffer := if merged then b.writeBuffer else b.writeBuffer + [t1],
       done := b.done + [t1.(completeCycle := clk + 1)],
       flat := b.flat[t.addr := t.data])
  }

  /** A read is answered from a pending write, or waits, queued once per address. */
  function AddRead(b: Books, t: Transaction, clk: int): Books
    requires t.kind == ReadTrans
  {
    var t1 := t.(addedCycle := clk);
    var b1 := b.(promised := b.promised[t.tag := Promise(t.addr, Value(b.flat, t.addr))]);
    if t.addr in b.pendingWr then
      b1.(done := b.done + [t1.(data := b.pendingWr[t.addr].data, completeCycle := clk + 1)])
    else
      b1.(pendingRd := b.pendingRd + [t1],
          readQueue := if HasAddr(b.pendingRd, t.addr) then b.readQueue else b.readQueue + [t1])
  }

  lemma AddWriteBalanced(b: Books, t: Transaction, clk: int)
    requires Balanced(b, []) && t.kind == WriteTrans
    ensures Balanced(AddWrite(b, t, clk), [])
  {
    hide Count, CountTag, CountIn, CountAll;
    var b', t1 := AddWrite(b, t, clk), t.(addedCycle := clk);
    forall a
      ensures WriteCarriers(b'.writeBuffer, b'.queues, [], a) == if a in b'.pendingWr then 1 else 0
    {
      CountConcat(b.writeBuffer, [t1], a);
      CountSingle(t1, a, 0);
      assert WriteCarriers(b.writeBuffer, b.queues, [], a) == if a in b.pendingWr then 1 else 0;
    }
    forall tag
      ensures CountTag(b'.done, tag) == CountTag(b.done, tag)
    {
      CountTagConcat(b.done, [t1.(completeCycle := clk + 1)], tag);
      CountSingle(t1.(completeCycle := clk + 1), 0, tag);
    }
  }

  lemma AddReadBalanced(b: Books, t: Transaction, clk: int)
    requires Balanced(b, []) && t.kind == ReadTrans && t.tag !in b.promised
    ensures Balanced(AddRead(b, t, clk), [])
  {
    if t.addr in b.pendingWr { ForwardBalanced(b, t, clk); } else { WaitBalanced(b, t, clk); }
  }

  lemma ForwardBalanced(b: Books, t: Transaction, clk: int)
    requires Balanced(b, []) && t.kind == ReadTrans && t.tag !in b.promised && t.addr in b.pendingWr
    ensures Balanced(AddRead(b, t, clk), [])
  {
    hide Count, CountTag, CountIn, CountAll;
    var b' := AddRead(b, t, clk);
    var answer := t.(addedCycle := clk, data := b.pendingWr[t.addr].data, completeCycle := clk + 1);
    forall tag
      ensures CountTag(b'.done, tag) == CountTag(b.done, tag) + if tag == t.tag then 1 else 0
    {
      CountTagConcat(b.done, [answer], tag);
      CountSingle(answer, 0, tag);
    }
  }

  lemma WaitBalanced(b: Books, t: Transaction, clk: int)
    requires Balanced(b, []) && t.kind == ReadTrans && t.tag !in b.promised && t.addr !in b.pendingWr
    ensures Balanced(AddRead(b, t, clk), [])
  {
    hide Count, CountTag, CountIn, CountAll;
    var b', t1 := AddRead(b, t, clk), t.(addedCycle := clk);
    forall a
      ensures HasAddr(b'.pendingRd, a) <==> HasAddr(b.pendingRd, a) || a == t.addr
      ensures Count(b'.readQueue, a) == Count(b.readQueue, a) + if a == t.addr && !HasAddr(b.pendingRd, a) then 1 else 0
    {
      CountPositive(b.pendingRd, a);
      CountPositive(b'.pendingRd, a);
      CountConcat(b.pendingRd, [t1], a);
      CountConcat(b.readQueue, [t1], a);
      CountSingle(t1, a, 0);
    }
    WaitKeepsCarriers(b, t.addr, b');
    forall tag
      ensures CountTag(b'.pendingRd, tag) == CountTag(b.pendingRd, tag) + if tag == t.tag then 1 else 0
    {
      CountTagConcat(b.pendingRd, [t1], tag);
      CountSingle(t1, 0, tag);
    }
    assert Value(b.flat, t.addr) == Value(b.cells, t.addr);
  }

  lemma WaitKeepsCarriers(b: Books, x: int, b': Books)
    requires Balanced(b, []) && x !in b.pendingWr
    requires b'.queues == b.queues
    requires forall a :: HasAddr(b'.pendingRd, a) <==> HasAddr(b.pendingRd, a) || a == x
    requires forall a ::
      Count(b'.readQueue, a) == Count(b.readQueue, a) + if a == x && !HasAddr(b.pendingRd, a) then 1 else 0
    ensures ReadsCarried(b'.pendingRd, b'.readQueue, b'.queues, []) && ReadsFirst(b'.pendingRd, b'.queues, [])
  {
    assert WriteCarriers(b.writeBuffer, b.queues, [], x) == 0;
    forall a
      ensures ReadCarriers(b'.readQueue, b'.queues, [], a) == if HasAddr(b'.pendingRd, a) then 1 else 0
    {
      assert ReadCarriers(b.readQueue, b.queues, [], a) == if HasAddr(b.pendingRd, a) then 1 else 0;
    }
    forall a | HasAddr(b'.pendingRd, a)
      ensures WritesOut(b'.queues, [], a) == 0
    {
      if a != x { assert WritesOut(b.queues, [], a) == 0; }
    }
  }

  // ---- scheduling into the command queues ----

  function Without<T>(s: seq<T>, n: int): seq<T>
    requires 0 <= n < |s|
  {
    s[..n] + s[n + 1..]
  }

  function ScheduleRead(b: Books, n: int, i: int, c: Command): Books
    requires 0 <= n < |b.readQueue| && 0 <= i < |b.queues|
  {
    b.(readQueue := Without(b.readQueue, n), queues := b.queues[i := b.queues[i] + [c]])
  }

  function ScheduleWrite(b: Books, n: int, i: int, c: Command): Books
    requires 0 <= n < |b.writeBuffer| && 0 <= i < |b.queues|
  {
    b.(writeBuffer := Without(b.writeBuffer, n), queues := b.queues[i := b.queues[i] + [c]])
  }

  lemma CountAppended(queues: seq<seq<Command>>, i: int, c: Command, kind: CommandType, a: int)
    requires 0 <= i < |queues|
    ensures CountAll(queues[i := queues[i] + [c]], kind, a) == CountAll(queues, kind, a) + CountIn([c], kind, a)
  {
    CountInConcat(queues[i], [c], kind, a);
    CountAllUpdate(queues, i, queues[i] + [c], kind, a);
  }

  lemma ScheduleReadBalanced(b: Books, n: int, i: int, c: Command)
    requires Balanced(b, []) && 0 <= n < |b.readQueue| && 0 <= i < |b.queues|
    requires c.kind == Read && c.hexAddr == b.readQueue[n].addr
    ensures Balanced(ScheduleRead(b, n, i, c), [])
  {
    hide Count, CountTag, CountIn, CountAll;
    var b' := ScheduleRead(b, n, i, c);
    forall a
      ensures ReadCarriers(b'.readQueue, b'.queues, [], a) == ReadCarriers(b.readQueue, b.queues, [], a)
      ensures CountAll(b'.queues, Write, a) == CountAll(b.queues, Write, a)
    {
      CountWithout(b.readQueue, n, a);
      CountAppended(b.queues, i, c, Read, a);
      CountAppended(b.queues, i, c, Write, a);
      CountInSingle(c, Read, a);
      CountInSingle(c, Write, a);
    }
  }

  /** A write may be scheduled only when no read waits for its address. */
  lemma ScheduleWriteBalanced(b: Books, n: int, i: int, c: Command)
    requires Balanced(b, []) && 0 <= n < |b.writeBuffer| && 0 <= i < |b.queues|
    requires c.kind == Write && c.hexAddr == b.writeBuffer[n].addr && !HasAddr(b.pendingRd, c.hexAddr)
    ensures Balanced(ScheduleWrite(b, n, i, c), [])
  {
    hide Count, CountTag, CountIn, CountAll;
    var b' := ScheduleWrite(b, n, i, c);
    forall a
      ensures WriteCarriers(b'.writeBuffer, b'.queues, [], a) == WriteCarriers(b.writeBuffer, b.queues, [], a)
      ensures CountAll(b'.queues, Read, a) == CountAll(b.queues, Read, a)
      ensures a != c.hexAddr ==> CountAll(b'.queues, Write, a) == CountAll(b.queues, Write, a)
    {
      CountWithout(b.writeBuffer, n, a);
      CountAppended(b.queues, i, c, Read, a);
      CountAppended(b.queues, i, c, Write, a);
      CountInSingle(c, Read, a);
      CountInSingle(c, Write, a);
    }
    forall a | HasAddr(b'.pendingRd, a)
      ensures WritesOut(b'.queues, [], a) == 0
    {
      assert HasAddr(b.pendingRd, a) && WritesOut(b.queues, [], a) == 0;
    }
  }

  // ---- taking out and issuing ----

  /** A selected read or write has left queue `i` and is in flight. */
  lemma TakeOutBalanced(b: Books, i: int, c: Command)
    requires Balanced(b, []) && 0 <= i < |b.queues| && c in b.queues[i]
    ensures Balanced(b.(queues := b.queues[i := Erased(b.queues[i], c)]), [c])
  {
    var queues' := b.queues[i := Erased(b.queues[i], c)];
    forall kind, a
      ensures CountAll(queues', kind, a) + CountIn([c], kind, a) == CountAll(b.queues, kind, a)
    {
      CountOfErased(b.queues[i], c, kind, a);
      CountAllUpdate(b.queues, i, Erased(b.queues[i], c), kind, a);
    }
  }

  /** READ returns every pending read of its address with the cell's value. */
  function IssueRead(b: Books, a: int, complete: int): Books {
    b.(pendingRd := Others(b.pendingRd, a),
       done := b.done + Completed(b.pendingRd, a, Value(b.cells, a), complete))
  }

  /** WRITE puts the pending data into the cell. */
  function IssueWrite(b: Books, a: int): Books
    requires a in b.pendingWr
  {
    b.(pendingWr := b.pendingWr - {a}, cells := b.cells[a := b.pendingWr[a].data])
  }

  /** What an issued command does to the books. */
  function Settled(b: Books, c: Command, complete: int): Books {
    if c.kind == Read then IssueRead(b, c.hexAddr, complete)
    else if c.kind == Write && c.hexAddr in b.pendingWr then IssueWrite(b, c.hexAddr)
    else b
  }

  lemma IssueReadBalanced(b: Books, c: Command, complete: int)
    requires Balanced(b, [c]) && c.kind == Read
    ensures HasAddr(b.pendingRd, c.hexAddr)
    ensures Balanced(IssueRead(b, c.hexAddr, complete), [])
  {
    hide Count, CountAll, CountTag, Completed, Others;
    var a := c.hexAddr;
    var b' := IssueRead(b, a, complete);
    CountInSingle(c, Read, a);
    assert ReadCarriers(b.readQueue, b.queues, [c], a) == 1;
    forall x
      ensures HasAddr(b'.pendingRd, x) <==> HasAddr(b.pendingRd, x) && x != a
    {
      OthersAddrs(b.pendingRd, a, x);
    }
    OthersKept(b.pendingRd, a);
    var answers := Completed(b.pendingRd, a, Value(b.cells, a), complete);
    forall tag
      ensures CountTag(b'.pendingRd, tag) + CountTag(b'.done, tag) == CountTag(b.pendingRd, tag) + CountTag(b.done, tag)
    {
      CompletedTags(b.pendingRd, a, Value(b.cells, a), complete, tag);
      CountTagConcat(b.done, answers, tag);
    }
    forall n | 0 <= n < |answers|
      ensures answers[n].tag in b.promised && b.promised[answers[n].tag] == Promise(answers[n].addr, answers[n].data)
    {
      var m := CompletedOrigin(b.pendingRd, a, Value(b.cells, a), complete, n);
    }
    IssuedReadCarried(b, c, b');
    forall x
      ensures WritesOut(b'.queues, [], x) == WritesOut(b.queues, [c], x)
      ensures WriteCarriers(b'.writeBuffer, b'.queues, [], x) == WriteCarriers(b.writeBuffer, b.queues, [c], x)
    {
      CountInSingle(c, Write, x);
    }
  }

  lemma IssuedReadCarried(b: Books, c: Command, b': Books)
    requires ReadsCarried(b.pendingRd, b.readQueue, b.queues, [c]) && c.kind == Read
    requires b'.readQueue == b.readQueue && b'.queues == b.queues
    requires forall x :: HasAddr(b'.pendingRd, x) <==> HasAddr(b.pendingRd, x) && x != c.hexAddr
    ensures ReadsCarried(b'.pendingRd, b'.readQueue, b'.queues, [])
  {
    forall x
      ensures ReadCarriers(b'.readQueue, b'.queues, [], x) == if HasAddr(b'.pendingRd, x) then 1 else 0
    {
      CountInSingle(c, Read, x);
      assert ReadCarriers(b.readQueue, b.queues, [c], x) == if HasAddr(b.pendingRd, x) then 1 else 0;
    }
  }

  lemma IssueWriteBalanced(b: Books, c: Command)
    requires Balanced(b, [c]) && c.kind == Write
    ensures c.hexAddr in b.pendingWr
    ensures Balanced(IssueWrite(b, c.hexAddr), [])
  {
    hide Count, CountAll, CountTag;
    var a := c.hexAddr;
    CountInSingle(c, Write, a);
    assert WriteCarriers(b.writeBuffer, b.queues, [c], a) == if a in b.pendingWr then 1 else 0;
    var b' := IssueWrite(b, a);
    assert HasAddr(b.pendingRd, a) ==> WritesOut(b.queues, [c], a) == 0;
    forall x
      ensures WriteCarriers(b'.writeBuffer, b'.queues, [], x) == if x in b'.pendingWr then 1 else 0
    {
      CountInSingle(c, Write, x);
      assert WriteCarriers(b.writeBuffer, b.queues, [c], x) == if x in b.pendingWr then 1 else 0;
    }
    forall x | HasAddr(b'.pendingRd, x)
      ensures WritesOut(b'.queues, [], x) == 0
    {
      assert WritesOut(b.queues, [c], x) == 0;
    }
    forall n | 0 <= n < |b.pendingRd|
      ensures b.pendingRd[n].addr != a
    {
    }
    forall x
      ensures ReadCarriers(b'.readQueue, b'.queues, [], x) == if HasAddr(b'.pendingRd, x) then 1 else 0
    {
      CountInSingle(c, Read, x);
      assert ReadCarriers(b.readQueue, b.queues, [c], x) == if HasAddr(b.pendingRd, x) then 1 else 0;
    }
  }

  /** A command that is neither a read nor a write does not touch the books. */
  lemma NoFlight(b: Books, c: Command)
    requires !c.IsReadWrite()
    ensures Balanced(b, [c]) <==> Balanced(b, [])
  {
    assert forall kind, a | kind in {Read, Write} :: CountIn([c], kind, a) == CountIn([], kind, a);
  }

  // ---- returning ----

  function Return(b: Books, n: int): Books
    requires 0 <= n < |b.done|
  {
    b.(done := Without(b.done, n), delivered := b.delivered + [b.done[n]])
  }

  lemma ReturnBalanced(b: Books, n: int, flight: seq<Command>)
    requires Balanced(b, flight) && 0 <= n < |b.done|
    ensures Balanced(Return(b, n), flight)
  {
    var b' := Return(b, n);
    forall tag
      ensures CountTag(b'.done, tag) + CountTag(b'.delivered, tag) == CountTag(b.done, tag) + CountTag(b.delivered, tag)
    {
      CountTagWithout(b.done, n, tag);
      CountTagConcat(b.delivered, [b.done[n]], tag);
    }
    forall m | 0 <= m < |b'.delivered| && b'.delivered[m].kind == ReadTrans
      ensures b'.delivered[m].tag in b.promised
        && b.promised[b'.delivered[m].tag] == Promise(b'.delivered[m].addr, b'.delivered[m].data)
    {
    }
  }
}
