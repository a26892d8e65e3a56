/** The way of a tile's instructions through a core. */
module CoreFlow {
  // Every instruction of every tile issued goes to the queue of its kind and leaves it once, in program order, whatever
  // the timing of requests, responses and pipelines; products also leave the systolic pipeline in that order.

  import opened CoreModel
  import opened CoreSafety
  import opened Scratchpads

  datatype Queue = Loading | Storing | Computing

  function QueueFor(i: Instr): Queue {
    match i.kind
    case MovIn => Loading
    case MovOut => Storing
    case Gemm | VectorOp => Computing
  }

  /** An instruction of the tile issued as number `tile`. */
  datatype Work = Work(tile: nat, instr: Instr)

  function Bare(jobs: seq<Job>): (w: seq<Work>)
    ensures |w| == |jobs|
  {
    if jobs == [] then [] else Bare(jobs[..|jobs| - 1]) + [Work(jobs[|jobs| - 1].tile, jobs[|jobs| - 1].instr)]
  }

  function WorkFor(instrs: seq<Instr>, tile: nat, q: Queue): seq<Work> {
    if instrs == [] then []
    else
      var last := instrs[|instrs| - 1];
      WorkFor(instrs[..|instrs| - 1], tile, q) + if QueueFor(last) == q then [Work(tile, last)] else []
  }

  function InQueue(c: Core, q: Queue): seq<Job> {
    match q
    case Loading => c.ld
    case Storing => c.st
    case Computing => c.ex
  }

  lemma {:induction false} BareOfMore(s: seq<Job>, t: seq<Job>)
    ensures Bare(s + t) == Bare(s) + Bare(t)
  {
    if t != [] {
      BareOfMore(s, t[..|t| - 1]);
      assert (s + t)[..|s + t| - 1] == s + t[..|t| - 1];
    } else {
      assert s + t == s;
    }
  }

  lemma BareOfTail(s: seq<Job>)
    requires s != []
    ensures Bare(s[1..]) == Bare(s)[1..]
  {
    assert s == s[..1] + s[1..];
    BareOfMore(s[..1], s[1..]);
  }

  // ---- one step ----

  lemma OneJoins(c: Core, t: nat, i: Instr, q: Queue)
    requires HasTile(c, t) && Queued(c, t, i).Ok?
    ensures var d := Queued(c, t, i).value;
      && Bare(InQueue(d, q)) == Bare(InQueue(c, q)) + (if QueueFor(i) == q then [Work(t, i)] else [])
      && d.units == c.units && d.flying == c.flying && d.next == c.next && d.running == c.running
  {
    hide Spad.Allocated, Spad.HasRoom;
    var o := c.objects[t];
    var job := Job(i, t, o.spad, o.acc);
    BareOfMore(InQueue(c, q), [job]);
    assert Bare([job]) == [Work(t, i)];
  }

  /** A tile's instructions all join the queues of their kinds, in order. */
  lemma {:induction false} AllJoin(c: Core, t: nat, instrs: seq<Instr>, q: Queue)
    requires HasTile(c, t) && AllQueued(c, t, instrs).Ok?
    ensures var d := AllQueued(c, t, instrs).value;
      && Bare(InQueue(d, q)) == Bare(InQueue(c, q)) + WorkFor(instrs, t, q)
      && d.units == c.units && d.flying == c.flying && d.next == c.next && d.running == c.running
    decreases |instrs|
  {
    hide Bare, Queued, QueueFor;
    if instrs != [] {
      var init, last := instrs[..|instrs| - 1], instrs[|instrs| - 1];
      AllJoin(c, t, init, q);
      OneJoins(AllQueued(c, t, init).value, t, last, q);
    }
  }

  /** The work a step brings to a queue. */
  function Brought(c: Core, s: Step, q: Queue): seq<Work> {
    if s.Issue? && !s.program.skip then WorkFor(s.program.instrs, c.next, q) else []
  }

  /** How many of the queue's front jobs the step took out. */
  function Gone(s: Step, q: Queue, before: nat, after: nat): nat {
    match s
    case Load(_) => if q == Loading then 1 else 0
    case Store(_) => if q == Storing && after != before then 1 else 0
    case Execute(_) => if q == Computing && after != before then 1 else 0
    case _ => 0
  }

  lemma IssueFlows(c: Core, p: Program, q: Queue)
    requires c.Shaped() && Issued(c, p).Ok?
    ensures var d := Issued(c, p).value;
      && Bare(InQueue(d, q)) == Bare(InQueue(c, q)) + Brought(c, Issue(p), q)
      && d.units == c.units && d.flying == c.flying && d.next == c.next + 1
  {
    if p.skip {
      assert Issued(c, p).value.next == c.next + 1;
    } else {
      var o := Opened(c, p.accum);
      assert InQueue(o, q) == InQueue(c, q);
      AllJoin(o, c.next, p.instrs, q);
    }
  }

  /** Every step takes at most the front job of one queue and brings what it issues to the back. */
  lemma StepFlows(c: Core, s: Step, q: Queue)
    requires Inv(c) && Allowed(c, s) && Do(c, s).Ok?
    ensures var d := Do(c, s).value;
      var gone := Gone(s, q, |InQueue(c, q)|, |InQueue(d, q)|);
      && gone <= |InQueue(c, q)|
      && Bare(InQueue(d, q)) == (Bare(InQueue(c, q)) + Brought(c, s, q))[gone..]
      && d.next == c.next + if s.Issue? then 1 else 0
  {
    hide Inv, Bare, CanIssue, CanCompute;
    ShapedInv(c);
    var d, x := Do(c, s).value, Bare(InQueue(c, q));
    assert x + [] == x;
    if s.Issue? {
      hide Issued;
      IssueFlows(c, s.program, q);
    } else {
      hide Issued, AllQueued;
      if InQueue(c, q) != [] { BareOfTail(InQueue(c, q)); }
    }
  }

  lemma OneBare(j: Job)
    ensures Bare([j]) == [Work(j.tile, j.instr)]
  {
  }

  // ---- products ----

  function Products(w: seq<Work>): seq<Work> {
    if w == [] then [] else Products(w[..|w| - 1]) + if w[|w| - 1].instr.kind.Gemm? then [w[|w| - 1]] else []
  }

  lemma {:induction false} ProductsOfMore(s: seq<Work>, t: seq<Work>)
    ensures Products(s + t) == Products(s) + Products(t)
  {
    if t != [] {
      ProductsOfMore(s, t[..|t| - 1]);
      assert (s + t)[..|s + t| - 1] == s + t[..|t| - 1];
    } else {
      assert s + t == s;
    }
  }

  lemma OneProduct(w: Work)
    ensures Products([w]) == if w.instr.kind.Gemm? then [w] else []
  {
  }

  /** Steps that leave the pipelines alone. */
  lemma UnitsStay(c: Core, s: Step)
    requires Inv(c) && Allowed(c, s) && Do(c, s).Ok? && !s.Execute? && !s.Complete?
    ensures Do(c, s).value.units == c.units
  {
    hide Inv, CanIssue, Issued, Spad.Reserved, Spad.Filled, Spad.Hit;
    ShapedInv(c);
    if s.Issue? { IssueFlows(c, s.program, Computing); }
  }

  lemma ExecuteSystolic(c: Core, u: nat)
    requires c.Shaped() && c.ex != [] && c.ex[0].spad < 2 && c.ex[0].acc < 2 && 0 < u < |c.units|
    requires Executed(c, u).Ok?
    ensures var d := Executed(c, u).value;
      && |d.units| == |c.units|
      && (d.ex == c.ex || d.ex == c.ex[1..])
      && Bare(d.units[0]) == Bare(c.units[0])
         + if d.ex != c.ex then Products([Work(c.ex[0].tile, c.ex[0].instr)]) else []
  {
    hide CanCompute, Spad.Reserved, Spad.CountedUp, Bare, Products;
    var j := c.ex[0];
    OneBare(j);
    OneProduct(Work(j.tile, j.instr));
    BareOfMore(c.units[0], [j]);
    assert Bare(c.units[0]) + [] == Bare(c.units[0]);
  }

  lemma CompleteSystolic(c: Core, u: nat)
    requires c.Shaped() && u < |c.units| && c.units[u] != [] && c.units[u][0].acc < 2 && Computed(c, u).Ok?
    ensures var d := Computed(c, u).value;
      && |d.units| == |c.units| && d.ex == c.ex
      && Bare(d.units[0]) == Bare(c.units[0])[if u == 0 then 1 else 0..]
  {
    hide Spad.Filled, Bare;
    BareOfTail(c.units[u]);
  }

  /** What a step does to the systolic pipeline: a product leaving the queue joins its end, its front completes. */
  lemma StepsSystolic(c: Core, s: Step)
    requires Inv(c) && Allowed(c, s) && Do(c, s).Ok?
    ensures |c.units| > 0 && |Do(c, s).value.units| == |c.units|
    ensures var d := Do(c, s).value;
      var entered := Products(Bare(c.ex)[..Gone(s, Computing, |c.ex|, |d.ex|)]);
      var left := if s == Complete(0) then 1 else 0;
      left <= |c.units[0]| && Bare(d.units[0]) == (Bare(c.units[0]) + entered)[left..]
  {
    hide Inv, CanIssue, Bare, Products, Executed, Computed;
    ShapedInv(c);
    NoProducts();
    var x := Bare(c.units[0]);
    assert x + [] == x;
    if s.Execute? {
      ExecutedKeepsInv(c, s.vector);
      ExecuteSystolic(c, s.vector);
      FrontBare(c.ex);
    } else if s.Complete? {
      ComputedKeepsInv(c, s.unit);
      CompleteSystolic(c, s.unit);
    } else {
      UnitsStay(c, s);
    }
  }

  lemma FrontBare(s: seq<Job>)
    requires s != []
    ensures Bare(s)[..1] == [Work(s[0].tile, s[0].instr)]
  {
    OneBare(s[0]);
    BareOfMore(s[..1], s[1..]);
    assert s == s[..1] + s[1..];
  }

  // ---- runs ----

  /** The work of all tiles issued, the first of them as number `next`. */
  function Planned(steps: seq<Step>, next: nat, q: Queue): seq<Work> {
    if steps == [] then []
    else if steps[0].Issue? then
      (if steps[0].program.skip then [] else WorkFor(steps[0].program.instrs, next, q))
      + Planned(steps[1..], next + 1, q)
    else Planned(steps[1..], next, q)
  }

  /** How many jobs left a queue in a run. */
  ghost function AllGone(c: Core, steps: seq<Step>, q: Queue): nat
    requires Inv(c) && Legal(c, steps)
    decreases |steps|
  {
    if steps == [] then 0
    else
      match Do(c, steps[0])
      case Ok(d) => Gone(steps[0], q, |InQueue(c, q)|, |InQueue(d, q)|) + AllGone(d, steps[1..], q)
      case Failed(_) => 0
  }

  lemma DropTwice<T>(s: seq<T>, t: seq<T>, m: nat, n: nat)
    requires m <= |s| && n <= |s[m..] + t|
    ensures (s[m..] + t)[n..] == (s + t)[m + n..]
  {
  }

  lemma TakeTwice<T>(s: seq<T>, t: seq<T>, m: nat, n: nat)
    requires m <= |s| && n <= |s[m..] + t|
    ensures (s + t)[..m + n] == s[..m] + (s[m..] + t)[..n]
  {
  }

  lemma {:induction false} RunFlows(c: Core, steps: seq<Step>, q: Queue)
    requires Inv(c) && Legal(c, steps) && After(c, steps).Ok?
    ensures var w := Bare(InQueue(c, q)) + Planned(steps, c.next, q);
      AllGone(c, steps, q) <= |w| && Bare(InQueue(After(c, steps).value, q)) == w[AllGone(c, steps, q)..]
    decreases |steps|
  {
    hide Inv, Do, Bare, Gone, InQueue, Allowed;
    var x := Bare(InQueue(c, q));
    if steps == [] {
      assert x + [] == x;
    } else {
      var s := steps[0];
      StepFlows(c, s, q);
      var d := Do(c, s).value;
      RunFlows(d, steps[1..], q);
      var gone, more := Gone(s, q, |InQueue(c, q)|, |InQueue(d, q)|), Planned(steps[1..], d.next, q);
      var all := x + Brought(c, s, q);
      assert x + Planned(steps, c.next, q) == all + more;
      DropTwice(all, more, gone, AllGone(d, steps[1..], q));
    }
  }

  /** How many products completed in a run. */
  function Completed(steps: seq<Step>): nat {
    if steps == [] then 0 else Completed(steps[1..]) + if steps[0] == Complete(0) then 1 else 0
  }

  lemma {:induction false} ProductsFlow(c: Core, steps: seq<Step>)
    requires Inv(c) && Legal(c, steps) && After(c, steps).Ok?
    ensures |c.units| > 0 && |After(c, steps).value.units| > 0
    ensures var w := Bare(c.ex) + Planned(steps, c.next, Computing);
      AllGone(c, steps, Computing) <= |w|
      && var entered := Bare(c.units[0]) + Products(w[..AllGone(c, steps, Computing)]);
         Completed(steps) <= |entered| && Bare(After(c, steps).value.units[0]) == entered[Completed(steps)..]
    decreases |steps|
  {
    hide Inv, Do, Bare, Gone, Allowed, Products;
    ShapedInv(c);
    var x, u := Bare(c.ex), Bare(c.units[0]);
    RunFlows(c, steps, Computing);
    if steps == [] {
      assert Products([]) == [] by { NoProducts(); }
      assert u + [] == u && (x + [])[..0] == [];
    } else {
      var s := steps[0];
      StepFlows(c, s, Computing);
      StepsSystolic(c, s);
      var d := Do(c, s).value;
      ProductsFlow(d, steps[1..]);
      RunFlows(d, steps[1..], Computing);
      var gone, more := Gone(s, Computing, |c.ex|, |d.ex|), Planned(steps[1..], d.next, Computing);
      var all, rest := x + Brought(c, s, Computing), AllGone(d, steps[1..], Computing);
      assert x + Planned(steps, c.next, Computing) == all + more;
      assert all[..gone] == x[..gone];
      ProductsSplit(all, more, gone, rest);
      DropAcross(u, Products(x[..gone]), Products((all[gone..] + more)[..rest]), if s == Complete(0) then 1 else 0,
                 Completed(steps[1..]));
    }
  }

  lemma ProductsSplit(all: seq<Work>, more: seq<Work>, gone: nat, rest: nat)
    requires gone <= |all| && rest <= |all[gone..] + more|
    ensures Products((all + more)[..gone + rest]) == Products(all[..gone]) + Products((all[gone..] + more)[..rest])
  {
    TakeTwice(all, more, gone, rest);
    ProductsOfMore(all[..gone], (all[gone..] + more)[..rest]);
  }

  lemma DropAcross<T>(u: seq<T>, here: seq<T>, later: seq<T>, m: nat, n: nat)
    requires m <= |u + here| && n <= |(u + here)[m..] + later|
    ensures ((u + here)[m..] + later)[n..] == (u + (here + later))[m + n..]
  {
    DropTwice(u + here, later, m, n);
    assert u + (here + later) == u + here + later;
  }

  lemma NoProducts()
    ensures Products([]) == []
  {
  }

  /** In every gated run: what waits in a queue is all the work of its kind of the tiles issued, in order, but what left
      it; and the systolic pipeline holds all products that left theirs, in order, but those completed. */
  lemma EveryInstructionFlows(size: nat, vectors: nat, steps: seq<Step>)
    requires vectors > 0 && Legal(Started(size, vectors), steps) && After(Started(size, vectors), steps).Ok?
    ensures var c, d := Started(size, vectors), After(Started(size, vectors), steps).value;
      && |d.units| > 0
      && (forall q :: AllGone(c, steps, q) <= |Planned(steps, 0, q)|
                      && Bare(InQueue(d, q)) == Planned(steps, 0, q)[AllGone(c, steps, q)..])
      && var entered := Products(Planned(steps, 0, Computing)[..AllGone(c, steps, Computing)]);
         Completed(steps) <= |entered| && Bare(d.units[0]) == entered[Completed(steps)..]
  {
    var c, d := Started(size, vectors), After(Started(size, vectors), steps).value;
    hide Inv, After, AllGone, Planned, Products, Started, Legal;
    forall q
      ensures AllGone(c, steps, q) <= |Planned(steps, 0, q)|
              && Bare(InQueue(d, q)) == Planned(steps, 0, q)[AllGone(c, steps, q)..]
    {
      StartsEmpty(size, vectors);
      RunFlows(c, steps, q);
      assert [] + Planned(steps, 0, q) == Planned(steps, 0, q);
    }
    StartsEmpty(size, vectors);
    ProductsFlow(c, steps);
    var w := Planned(steps, 0, Computing);
    assert [] + w == w && [] + Products(w[..AllGone(c, steps, Computing)])
        == Products(w[..AllGone(c, steps, Computing)]);
  }

  lemma StartsEmpty(size: nat, vectors: nat)
    requires vectors > 0
    ensures var c := Started(size, vectors);
      c.next == 0 && c.ld == c.st == c.ex == [] && |c.units| > 0 && c.units[0] == [] && Bare([]) == []
  {
  }

  // ---- requests ----

  /** A load that starts becomes all its requests, at the end of those on their way. */
  lemma LoadsAreRequested(c: Core, n: nat)
    requires Inv(c) && c.ld != [] && n > 0 && c.ld[0].spad < 2 && c.ld[0].acc < 2 && c.Shaped() && Loaded(c, n).Ok?
    ensures var j, d := c.ld[0], Loaded(c, n).value;
      && |d.flying| == |c.flying| + n && d.flying[..|c.flying|] == c.flying
      && forall i | |c.flying| <= i < |d.flying| ::
           d.flying[i] == Request(j.tile, false, j.instr.dest, if j.instr.dest >= ACCUM_BASE then j.acc else j.spad)
  {
    hide Inv;
  }

  /** A response takes away its own request and no other. */
  lemma ResponsesMatch(c: Core, i: nat)
    requires Inv(c) && i < |c.flying|
    ensures c.Shaped() && c.flying[i].half < 2 && Answered(c, i).Ok?
    ensures Answered(c, i).value.flying == c.flying[..i] + c.flying[i + 1..]
  {
    hide Inv;
    ShapedInv(c);
    AnsweredKeepsInv(c, i);
  }

  // ---- tiles ----

  function Times(s: seq<nat>, t: nat): nat { multiset(s)[t] }

  /** How often a tile is among the running and the finished ones. */
  ghost function Kept(c: Core, t: nat): nat { Times(c.running, t) + Times(c.finished, t) }

  lemma TimesOfMore(s: seq<nat>, u: seq<nat>, t: nat)
    ensures Times(s + u, t) == Times(s, t) + Times(u, t) && Times([], t) == 0
  {
  }

  lemma TimesOfOne(x: nat, t: nat)
    ensures Times([x], t) == if x == t then 1 else 0
  {
  }

  lemma {:induction false} SortedTimes(objects: map<nat, Tile>, ids: seq<nat>, t: nat)
    requires forall i :: 0 <= i < |ids| ==> ids[i] in objects
    ensures Times(StillRunning(objects, ids), t) + Times(NowDone(objects, ids), t) == Times(ids, t)
  {
    hide Times, Tile.Done;
    TimesOfMore([], [], t);
    if ids != [] {
      var init, last := ids[..|ids| - 1], ids[|ids| - 1];
      SortedTimes(objects, init, t);
      assert ids == init + [last];
      TimesOfMore(init, [last], t);
      TimesOfMore(StillRunning(objects, init), if objects[last].Done() then [] else [last], t);
      TimesOfMore(NowDone(objects, init), if objects[last].Done() then [last] else [], t);
    }
  }

  /** The tile a step hands back. */
  function Handed(c: Core, s: Step): seq<nat>
    requires s.HandBack? ==> c.finished != []
  {
    if s.HandBack? then [c.finished[0]] else []
  }

  lemma StepKeepsTiles(c: Core, s: Step, t: nat)
    requires Inv(c) && Allowed(c, s) && Do(c, s).Ok?
    ensures var d := Do(c, s).value;
      && d.next == c.next + (if s.Issue? then 1 else 0)
      && Kept(d, t) + Times(Handed(c, s), t) == Kept(c, t) + if s.Issue? && t == c.next then 1 else 0
  {
    hide Inv, CanIssue, Times, StillRunning, NowDone, Issued;
    ShapedInv(c);
    TimesOfMore([], [], t);
    match s
    case Issue(p) =>
      IssueBrings(c, p);
      TimesOfOne(c.next, t);
      TimesOfMore(c.running, [c.next], t);
      TimesOfMore(c.finished, [c.next], t);
    case Collect =>
      SortedTimes(c.objects, c.running, t);
      TimesOfMore(c.finished, NowDone(c.objects, c.running), t);
    case HandBack =>
      assert c.finished == [c.finished[0]] + c.finished[1..];
      TimesOfMore([c.finished[0]], c.finished[1..], t);
    case _ => WorkKeepsTiles(c, s);
  }

  lemma WorkKeepsTiles(c: Core, s: Step)
    requires Inv(c) && Allowed(c, s) && Do(c, s).Ok? && !s.Issue? && !s.Collect? && !s.HandBack?
    ensures var d := Do(c, s).value; d.running == c.running && d.finished == c.finished && d.next == c.next
  {
    hide Inv, CanIssue, CanCompute, Issued, Spad.Reserved, Spad.Filled, Spad.CountedUp, Spad.Hit, Requests;
    ShapedInv(c);
  }

  lemma IssueBrings(c: Core, p: Program)
    requires c.Shaped() && Issued(c, p).Ok?
    ensures var d := Issued(c, p).value;
      && d.next == c.next + 1
      && (if p.skip then d.running == c.running && d.finished == c.finished + [c.next]
          else d.running == c.running + [c.next] && d.finished == c.finished)
  {
    if !p.skip {
      AllJoin(Opened(c, p.accum), c.next, p.instrs, Loading);
      QueuingFinishesNone(Opened(c, p.accum), c.next, p.instrs);
    }
  }

  lemma {:induction false} QueuingFinishesNone(c: Core, t: nat, instrs: seq<Instr>)
    requires HasTile(c, t) && AllQueued(c, t, instrs).Ok?
    ensures AllQueued(c, t, instrs).value.finished == c.finished
    decreases |instrs|
  {
    hide Spad.Allocated, Spad.HasRoom;
    if instrs != [] { QueuingFinishesNone(c, t, instrs[..|instrs| - 1]); }
  }

  /** The tiles handed back in a run, in order. */
  ghost function AllHanded(c: Core, steps: seq<Step>): seq<nat>
    requires Inv(c) && Legal(c, steps)
    decreases |steps|
  {
    if steps == [] then []
    else
      match Do(c, steps[0])
      case Ok(d) => Handed(c, steps[0]) + AllHanded(d, steps[1..])
      case Failed(_) => []
  }

  /** How many tiles a run issues. */
  function Issues(steps: seq<Step>): nat {
    if steps == [] then 0 else (if steps[0].Issue? then 1 else 0) + Issues(steps[1..])
  }

  lemma {:induction false} TilesBalance(c: Core, steps: seq<Step>, t: nat)
    requires Inv(c) && Legal(c, steps) && After(c, steps).Ok?
    ensures Kept(After(c, steps).value, t) + Times(AllHanded(c, steps), t)
         == Kept(c, t) + if c.next <= t < c.next + Issues(steps) then 1 else 0
    decreases |steps|
  {
    hide Inv, Do, Allowed, Kept, Handed;
    if steps != [] {
      StepKeepsTiles(c, steps[0], t);
      TilesBalance(Do(c, steps[0]).value, steps[1..], t);
    }
  }

  /** In every gated run: each tile issued, those skipped included, is in one place, once: running, finished, or handed
      back; and no other tile is. */
  lemma EveryTileReturnsOnce(size: nat, vectors: nat, steps: seq<Step>, t: nat)
    requires vectors > 0 && Legal(Started(size, vectors), steps) && After(Started(size, vectors), steps).Ok?
    ensures var c, d := Started(size, vectors), After(Started(size, vectors), steps).value;
      multiset(d.running)[t] + multiset(d.finished)[t] + multiset(AllHanded(c, steps))[t]
      == if t < Issues(steps) then 1 else 0
  {
    hide Legal, After, AllHanded, Issues;
    TilesBalance(Started(size, vectors), steps, t);
  }
}
