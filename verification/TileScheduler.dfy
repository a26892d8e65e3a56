/** Launching a program's tiles. */
module TileSchedulers {
  // The scheduler takes the first operation of the ready list, hands out its tiles, and finishes it with its last tile.
  // Cores take and finish tiles in any order and at any time; the order of operations does not depend on it.

  import opened ReadyLists

  datatype Tile = Tile(op: OpId, index: nat)

  datatype Stat = Stat(total: nat, remain: int, launched: nat)

  /** How many tiles each operation has. */
  type Counts = map<OpId, nat>

  /** `flying` tiles are in cores, `done` ones have come back; `order` lists the operations as they finished. */
  datatype Sched = Sched(
    alive: bool, progress: Progress, queue: seq<Tile>, flying: set<Tile>, done: set<Tile>,
    active: map<OpId, Stat>, ended: map<OpId, Stat>, order: seq<OpId>)

  function TilesOf(op: OpId, n: nat): seq<Tile> { seq(n, i requires 0 <= i < n => Tile(op, i)) }

  predicate AllFinished(g: Graph, p: Progress) { g.inputs.Keys <= p.finished }

  // ---- steps ----

  /** Ends a finished program; otherwise, with no tile waiting, starts the first listed operation unless it is
      active. */
  function Refreshed(g: Graph, n: Counts, s: Sched): Sched
    requires s.alive && !AllFinished(g, s.progress) && s.queue == [] ==>
      s.progress.executable != [] && s.progress.executable[0] in n
  {
    if s.alive && AllFinished(g, s.progress) then s.(alive := false)
    else if s.alive && s.queue == [] then
      var op := s.progress.executable[0];
      if op in s.active then s
      else s.(queue := TilesOf(op, n[op]), active := s.active[op := Stat(n[op], n[op], 0)])
    else s
  }

  function Taken(s: Sched): Sched
    requires s.queue != [] && s.queue[0].op in s.active
  {
    var t := s.queue[0];
    s.(queue := s.queue[1..], flying := s.flying + {t},
       active := s.active[t.op := s.active[t.op].(launched := s.active[t.op].launched + 1)])
  }

  /** A tile comes back; with the last one of its operation the program moves on to `next`. */
  function ReturnedTo(s: Sched, t: Tile, next: Progress): Sched
    requires t in s.flying && t.op in s.active
  {
    var stat := s.active[t.op].(remain := s.active[t.op].remain - 1);
    var s1 := s.(flying := s.flying - {t}, done := s.done + {t});
    if stat.remain == 0 then
      s1.(progress := next, active := s.active - {t.op}, ended := s.ended[t.op := stat], order := s.order + [t.op])
    else s1.(active := s.active[t.op := stat])
  }

  /** The status is not refreshed yet. */
  ghost function Returned(g: Graph, s: Sched, t: Tile): Sched
    requires g.Closed() && t in s.flying && t.op in s.active && g.Has(t.op)
  {
    ReturnedTo(s, t, Finished(g, s.progress, t.op))
  }

  // ---- what every step keeps ----

  /** Every operation has tiles. */
  ghost predicate Tiled(g: Graph, n: Counts) { n.Keys == g.inputs.Keys && forall op :: op in n ==> n[op] > 0 }

  /** At most one operation is active: the first of the list. What remains of it is waiting or in a core. */
  ghost predicate OneActive(n: Counts, s: Sched) {
    && (forall op :: op in s.active ==> s.progress.executable != [] && op == s.progress.executable[0] && op in n)
    && (forall op :: op in s.active ==>
          var stat := s.active[op];
          && stat.total == n[op] && stat.launched + |s.queue| == n[op] && stat.remain == |s.queue| + |s.flying| > 0
          && (forall i :: 0 <= i < |s.queue| ==> s.queue[i] == Tile(op, stat.launched + i)))
    && (s.active == map[] ==> s.queue == [] && s.flying == {})
    && (forall t :: t in s.flying ==> t.op in s.active && t.index < s.active[t.op].launched)
  }

  /** Exactly the tiles of finished operations and the launched ones of the active operation that are in no core are
      done. */
  ghost predicate Accounted(n: Counts, s: Sched) {
    forall t: Tile :: t in s.done <==>
      (t.op in s.order && t.op in n && t.index < n[t.op])
        || (t.op in s.active && t.index < s.active[t.op].launched && t !in s.flying)
  }

  /** The first `k` operations to finish when the first of the list always does. */
  ghost function Fifo(g: Graph, k: nat): (ids: seq<OpId>)
    requires g.Valid() && g.Acyclic()
    ensures Runs(g, ids) && |ids| <= k
  {
    if k == 0 then []
    else
      var ids := Fifo(g, k - 1);
      if After(g, ids).executable == [] then ids
      else
        var next := ids + [After(g, ids).executable[0]];
        assert next[..|next| - 1] == ids;
        next
  }

  ghost predicate Ordered(g: Graph, s: Sched)
    requires g.Valid() && g.Acyclic()
  {
    s.order == Fifo(g, |s.order|) && s.progress == After(g, s.order)
  }

  ghost predicate Books(n: Counts, s: Sched) {
    OneActive(n, s) && Accounted(n, s) && s.ended.Keys == (set op | op in s.order)
  }

  ghost predicate Inv(g: Graph, n: Counts, s: Sched)
    requires g.Valid() && g.Acyclic()
  {
    Ordered(g, s) && Tiled(g, n) && Books(n, s) && (!s.alive ==> AllFinished(g, s.progress))
  }

  function Begin(g: Graph): Sched
    requires g.start in g.children && forall n :: 0 <= n < |g.children[g.start]| ==> g.Has(g.children[g.start][n])
  {
    Sched(true, Begun(g), [], {}, {}, map[], map[], [])
  }

  lemma BeginInv(g: Graph, n: Counts)
    requires g.Valid() && g.Acyclic() && Tiled(g, n)
    ensures forall n :: 0 <= n < |g.children[g.start]| ==> g.Has(g.children[g.start][n])
    ensures Inv(g, n, Begin(g))
  {
    BegunIsExact(g);
    hide Exact, Begun, Found;
    assert Fifo(g, 0) == [];
  }

  ghost function Started(g: Graph, n: Counts): (s: Sched)
    requires g.Valid() && g.Acyclic() && Tiled(g, n)
    ensures Inv(g, n, s)
  {
    BeginInv(g, n);
    Begin(g)
  }

  lemma ValidCloses(g: Graph)
    requires g.Valid()
    ensures g.Closed()
  {
  }

  lemma ListIsExact(g: Graph, s: Sched)
    requires g.Valid() && g.Acyclic() && Ordered(g, s)
    ensures g.Closed() && Exact(g, s.progress)
    ensures forall op :: op in s.progress.finished <==> op in s.order
    ensures s.progress.executable != [] ==> g.Has(s.progress.executable[0]) && s.progress.executable[0] !in s.order
  {
    hide Fifo, Runs, Graph.Acyclic;
    if s.progress.executable != [] { assert s.progress.executable[0] in s.progress.executable; }
  }

  /** The list is never empty when the scheduler looks for its first operation. */
  lemma FrontExists(g: Graph, s: Sched)
    requires g.Valid() && g.Acyclic() && Ordered(g, s) && !AllFinished(g, s.progress)
    ensures s.progress.executable != [] && g.Has(s.progress.executable[0]) && s.progress.executable[0] !in s.order
  {
    ListIsExact(g, s);
    hide Fifo, Runs, After, Graph.Acyclic, Exact;
    SomethingIsExecutable(g, s.progress);
  }

  lemma RefreshedBooks(g: Graph, n: Counts, s: Sched)
    requires Books(n, s)
    requires s.alive && !AllFinished(g, s.progress) && s.queue == [] ==>
      s.progress.executable != [] && s.progress.executable[0] in n && s.progress.executable[0] !in s.order
        && n[s.progress.executable[0]] > 0
    ensures Books(n, Refreshed(g, n, s))
    ensures Refreshed(g, n, s).alive ==> Refreshed(g, n, s).queue != [] || Refreshed(g, n, s).flying != {}
  {
    hide AllFinished;
    var s' := Refreshed(g, n, s);
    if s'.queue != s.queue { assert s.active == map[]; }
    else if s'.alive && s.queue == [] { assert |s.flying| > 0; }
  }

  lemma RefreshedKeepsInv(g: Graph, n: Counts, s: Sched)
    requires g.Valid() && g.Acyclic() && Inv(g, n, s)
    ensures s.alive && !AllFinished(g, s.progress) && s.queue == [] ==>
      s.progress.executable != [] && s.progress.executable[0] in n
    ensures Inv(g, n, Refreshed(g, n, s))
    ensures Refreshed(g, n, s).alive ==> Refreshed(g, n, s).queue != [] || Refreshed(g, n, s).flying != {}
  {
    hide Fifo, After, Books, Graph.Valid, Graph.Acyclic;
    if !AllFinished(g, s.progress) { FrontExists(g, s); }
    RefreshedBooks(g, n, s);
  }

  /** With tiles waiting, the active operation is theirs. */
  lemma WaitingIsActive(n: Counts, s: Sched)
    requires OneActive(n, s) && s.queue != []
    ensures var t := s.queue[0];
      t.op in s.active && s.active.Keys == {t.op} && t == Tile(t.op, s.active[t.op].launched) && t !in s.flying
      && s.active[t.op].launched + |s.queue| == s.active[t.op].total
  {
    var op :| op in s.active;
    assert s.queue[0] == Tile(op, s.active[op].launched);
  }

  lemma TakenOneActive(n: Counts, s: Sched)
    requires OneActive(n, s) && s.queue != [] && s.queue[0].op in s.active
    ensures OneActive(n, Taken(s))
  {
    WaitingIsActive(n, s);
    var s', op := Taken(s), s.queue[0].op;
    var stat, stat' := s.active[op], s'.active[op];
    assert s.flying + {s.queue[0]} == s'.flying && |s'.flying| == |s.flying| + 1;
    assert stat'.launched == stat.launched + 1 && stat'.remain == stat.remain && stat'.total == stat.total;
    assert s'.active.Keys == {op};
    forall i | 0 <= i < |s'.queue| ensures s'.queue[i] == Tile(op, stat'.launched + i) {
      assert s'.queue[i] == s.queue[i + 1] == Tile(op, stat.launched + (i + 1));
    }
    forall t | t in s'.flying ensures t.op == op && t.index < stat'.launched {
      if t != s.queue[0] { assert t in s.flying; }
    }
  }

  lemma TakenAccounted(n: Counts, s: Sched)
    requires OneActive(n, s) && Accounted(n, s) && s.queue != [] && s.queue[0].op in s.active
    ensures Accounted(n, Taken(s))
  {
    WaitingIsActive(n, s);
    hide OneActive;
  }

  lemma TakenBooks(n: Counts, s: Sched)
    requires Books(n, s) && s.queue != []
    ensures s.queue[0].op in s.active && Books(n, Taken(s))
  {
    WaitingIsActive(n, s);
    TakenOneActive(n, s);
    TakenAccounted(n, s);
  }

  lemma TakenKeepsInv(g: Graph, n: Counts, s: Sched)
    requires g.Valid() && g.Acyclic() && Inv(g, n, s) && s.queue != []
    ensures s.queue[0].op in s.active && Inv(g, n, Taken(s))
  {
    hide Fifo, After, Books, Graph.Valid, Graph.Acyclic, AllFinished;
    TakenBooks(n, s);
  }

  lemma ReturnIsActive(n: Counts, s: Sched, t: Tile)
    requires Books(n, s) && t in s.flying
    ensures t.op in s.active && s.active[t.op].remain > 0
    ensures s.progress.executable != [] && t.op == s.progress.executable[0]
    ensures t.op !in s.order ==> t.op !in s.ended && t !in s.done
  {
  }

  /** The assertions about a returning tile hold: its operation is active, not ended, and expects it. */
  lemma ReturnIsExpected(g: Graph, n: Counts, s: Sched, t: Tile)
    requires g.Valid() && g.Acyclic() && Inv(g, n, s) && t in s.flying
    ensures t.op in s.active && t.op !in s.ended && t.op !in s.order && s.active[t.op].remain > 0 && t !in s.done
    ensures s.progress.executable != [] && t.op == s.progress.executable[0] && g.Closed() && g.Has(t.op)
  {
    hide Fifo, After, Books, Graph.Valid, Graph.Acyclic, AllFinished, Exact;
    ListIsExact(g, s);
    ReturnIsActive(n, s, t);
  }

  lemma FifoGrows(g: Graph, ids: seq<OpId>, op: OpId)
    requires g.Valid() && g.Acyclic() && ids == Fifo(g, |ids|) && After(g, ids).executable != []
    requires op == After(g, ids).executable[0]
    ensures g.Closed() && g.Has(op) && ids + [op] == Fifo(g, |ids| + 1)
    ensures Runs(g, ids + [op]) && After(g, ids + [op]) == Finished(g, After(g, ids), op)
  {
    assert op in After(g, ids).executable;
    hide Graph.Acyclic, Exact, Finished;
    assert (ids + [op])[..|ids|] == ids;
    ValidCloses(g);
  }

  lemma ReturnedOneActive(n: Counts, s: Sched, t: Tile, next: Progress)
    requires OneActive(n, s) && t in s.flying
    ensures t.op in s.active && OneActive(n, ReturnedTo(s, t, next))
  {
    var s' := ReturnedTo(s, t, next);
    assert |s'.flying| == |s.flying| - 1;
    if s.active[t.op].remain == 1 {
      assert s.queue == [] && s'.flying == {};
      assert s'.active == map[];
    }
  }

  /** A tile in a core is of the one active operation, and with one tile remaining it is the only one left. */
  lemma ReturningIs(n: Counts, s: Sched, t: Tile)
    requires OneActive(n, s) && t in s.flying
    ensures t.op in s.active && s.active.Keys == {t.op} && t.op in n && t.index < s.active[t.op].launched <= n[t.op]
    ensures s.active[t.op].remain == 1 ==> s.flying == {t} && s.active[t.op].launched == n[t.op]
  {
    if s.active[t.op].remain == 1 {
      assert |s.flying - {t}| == |s.flying| - 1;
      assert s.flying == {t};
    }
  }

  lemma ReturnedAccounted(n: Counts, s: Sched, t: Tile, next: Progress)
    requires OneActive(n, s) && Accounted(n, s) && t in s.flying && t.op in s.active
    ensures Accounted(n, ReturnedTo(s, t, next))
  {
    ReturningIs(n, s, t);
    hide OneActive;
  }

  lemma ReturnedBooks(n: Counts, s: Sched, t: Tile, next: Progress)
    requires Books(n, s) && t in s.flying && t.op !in s.order
    ensures t.op in s.active && Books(n, ReturnedTo(s, t, next))
  {
    ReturnedOneActive(n, s, t, next);
    ReturnedAccounted(n, s, t, next);
    hide OneActive, Accounted;
  }

  lemma ReturnedKeepsInv(g: Graph, n: Counts, s: Sched, t: Tile)
    requires g.Valid() && g.Acyclic() && Inv(g, n, s) && t in s.flying
    ensures g.Closed() && t.op in s.active && g.Has(t.op) && Inv(g, n, Returned(g, s, t))
  {
    ReturnIsExpected(g, n, s, t);
    FifoGrows(g, s.order, t.op);
    ReturnedBooks(n, s, t, Finished(g, s.progress, t.op));
    StaysFinished(g, s.progress, t.op);
    hide Fifo, After, Books, Graph.Valid, Graph.Acyclic, Finished, Exact, Runs;
  }

  lemma StaysFinished(g: Graph, p: Progress, op: OpId)
    requires g.Closed() && g.Has(op)
    ensures AllFinished(g, p) ==> AllFinished(g, Finished(g, p, op))
  {
  }

  // ---- runs ----

  datatype Action = Take | Finish(tile: Tile) | Refresh

  ghost predicate Allowed(s: Sched, a: Action) {
    match a case Take => s.queue != [] case Finish(t) => t in s.flying case Refresh => true
  }

  ghost function Step(g: Graph, n: Counts, s: Sched, a: Action): (s': Sched)
    requires g.Valid() && g.Acyclic() && Inv(g, n, s) && Allowed(s, a)
    ensures Inv(g, n, s')
  {
    match a
    case Take => TakenKeepsInv(g, n, s); Taken(s)
    case Finish(t) =>
      ReturnedKeepsInv(g, n, s, t);
      RefreshedKeepsInv(g, n, Returned(g, s, t));
      Refreshed(g, n, Returned(g, s, t))
    case Refresh => RefreshedKeepsInv(g, n, s); Refreshed(g, n, s)
  }

  ghost predicate Legal(g: Graph, n: Counts, s: Sched, actions: seq<Action>)
    requires g.Valid() && g.Acyclic() && Inv(g, n, s)
    decreases |actions|
  {
    actions == [] || (Allowed(s, actions[0]) && Legal(g, n, Step(g, n, s, actions[0]), actions[1..]))
  }

  ghost function Exec(g: Graph, n: Counts, s: Sched, actions: seq<Action>): (s': Sched)
    requires g.Valid() && g.Acyclic() && Inv(g, n, s) && Legal(g, n, s, actions)
    ensures Inv(g, n, s')
    decreases |actions|
  {
    if actions == [] then s else Exec(g, n, Step(g, n, s, actions[0]), actions[1..])
  }

  /** The operations finished are the first ones of the one fixed order, which is topological; every tile in a core is
      expected; a program that has ended has done every tile of every operation. */
  ghost predicate OnTrack(g: Graph, n: Counts, s: Sched)
    requires g.Valid() && g.Acyclic()
  {
    && s.order == Fifo(g, |s.order|) && Topological(g, s.order)
    && (forall t | t in s.flying :: t.op in s.active && t.op !in s.ended && s.active[t.op].remain > 0)
    && (!s.alive ==> forall op, i: nat | op in n && i < n[op] :: Tile(op, i) in s.done)
  }

  lemma EndedIsDone(g: Graph, n: Counts, s: Sched)
    requires g.Valid() && g.Acyclic() && Inv(g, n, s) && !s.alive
    ensures forall op, i: nat | op in n && i < n[op] :: Tile(op, i) in s.done
  {
    hide Graph.Acyclic, Fifo, After, Exact, OneActive;
    ListIsExact(g, s);
    hide Graph.Valid;
    forall op, i: nat | op in n && i < n[op] ensures Tile(op, i) in s.done {
      assert op in s.progress.finished;
      assert op in s.order;
    }
  }

  lemma InvMeansOnTrack(g: Graph, n: Counts, s: Sched)
    requires g.Valid() && g.Acyclic() && Inv(g, n, s)
    ensures OnTrack(g, n, s)
  {
    hide Graph.Valid, Graph.Acyclic, Fifo, After, Books, Exact, Topological, Runs, AllFinished;
    ListIsExact(g, s);
    RunsAreTopologicalOrders(g, s.order);
    forall t | t in s.flying
      ensures t.op in s.active && t.op !in s.ended && s.active[t.op].remain > 0 { ReturnIsExpected(g, n, s, t); }
    if !s.alive { EndedIsDone(g, n, s); }
  }

  /** After any run, whenever tiles came back. */
  lemma OrderIsFixed(g: Graph, n: Counts, actions: seq<Action>)
    requires g.Valid() && g.Acyclic() && Tiled(g, n) && Legal(g, n, Started(g, n), actions)
    ensures OnTrack(g, n, Exec(g, n, Started(g, n), actions))
  {
    hide *;
    InvMeansOnTrack(g, n, Exec(g, n, Started(g, n), actions));
  }

  /** After a refresh a live program has a tile to hand out or one in a core: it never waits for nothing. */
  lemma NeverStuck(g: Graph, n: Counts, s: Sched)
    requires g.Valid() && g.Acyclic() && Inv(g, n, s)
    ensures var s' := Step(g, n, s, Refresh); s'.alive ==> s'.queue != [] || s'.flying != {}
  {
    RefreshedKeepsInv(g, n, s);
  }

  // ---- the scheduler as an object ----

  class Scheduler {
    const program: StageProgram
    const counts: Counts
    var alive: bool
    var queue: seq<Tile>
    var flying: set<Tile>
    var active: map<OpId, Stat>
    var ended: map<OpId, Stat>
    ghost var done: set<Tile>
    ghost var order: seq<OpId>

    ghost function State(): Sched
      reads this, program
    {
      Sched(alive, program.State(), queue, flying, done, active, ended, order)
    }

    constructor (program: StageProgram, counts: Counts)
      requires program.graph.Valid() && program.graph.Acyclic() && Tiled(program.graph, counts)
      requires forall n :: 0 <= n < |program.graph.children[program.graph.start]| ==>
        program.graph.Has(program.graph.children[program.graph.start][n])
      requires program.State() == Begun(program.graph)
      ensures this.program == program && this.counts == counts && State() == Begin(program.graph)
    {
      this.program, this.counts := program, counts;
      alive, queue, flying, active, ended, done, order := true, [], {}, map[], map[], {}, [];
    }

    ghost predicate Valid()
      reads this, program
    {
      program.graph.Valid() && program.graph.Acyclic() && Inv(program.graph, counts, State())
    }

    method RefreshStatus()
      requires Valid()
      modifies this`alive, this`queue, this`active
      ensures State().alive && !AllFinished(program.graph, State().progress) && old(State()).queue == [] ==>
        State().progress.executable != [] && State().progress.executable[0] in counts
      ensures Valid() && State() == Step(program.graph, counts, old(State()), Refresh)
    {
      hide Graph.Valid, Graph.Acyclic, Ordered, Books;
      RefreshedKeepsInv(program.graph, counts, State());
      if alive {
        var finish := program.CheckFinish();
        if finish { alive := false; }
      }
      if alive && queue == [] {
        var op := program.executable[0];
        if op in active { return; }
        queue := TilesOf(op, counts[op]);
        active := active[op := Stat(|queue|, |queue|, 0)];
      }
    }

    method GetTile() returns (t: Tile)
      requires Valid() && queue != []
      modifies this`queue, this`flying, this`active
      ensures Valid() && t == old(queue)[0] && State() == Step(program.graph, counts, old(State()), Take)
    {
      hide Graph.Valid, Graph.Acyclic, Ordered, Books;
      TakenKeepsInv(program.graph, counts, State());
      t := queue[0];
      active := active[t.op := active[t.op].(launched := active[t.op].launched + 1)];
      queue := queue[1..];
      flying := flying + {t};
    }

    /** The asserted conditions hold; the result tells whether the operation finished. */
    method FinishTile(t: Tile) returns (result: bool)
      requires Valid() && t in flying
      modifies this, program
      ensures Valid() && State() == Step(program.graph, counts, old(State()), Finish(t))
      ensures result == (order != old(order))
    {
      hide Graph.Valid, Graph.Acyclic, Graph.Closed, Ordered, Books, Finished;
      ghost var was := State();
      ReturnIsExpected(program.graph, counts, was, t);
      ReturnedKeepsInv(program.graph, counts, was, t);
      assert t.op in active && t.op !in ended && active[t.op].remain > 0;
      result := false;
      flying, done := flying - {t}, done + {t};
      active := active[t.op := active[t.op].(remain := active[t.op].remain - 1)];
      if active[t.op].remain == 0 {
        result := true;
        program.FinishOperation(t.op);
        ended := ended[t.op := active[t.op]];
        active := active - {t.op};
        order := order + [t.op];
      }
      assert State() == Returned(program.graph, was, t);
      RefreshStatus();
    }
  }
}
