/** A stage program's list of executable operations, kept by looking only at the children of each operation that
    finishes. */
module ReadyLists {
  type OpId = nat
  type TensorId = nat

  /** Operations with their input and output tensors; `children` lists, tensor by tensor, the operations registered
      on it; `given` are the tensors produced from the beginning (weights, caches, the start tensor). */
  datatype Graph = Graph(
    inputs: map<OpId, seq<TensorId>>, outputs: map<OpId, seq<TensorId>>, children: map<TensorId, seq<OpId>>,
    given: set<TensorId>, start: TensorId)
  {
    predicate Has(op: OpId) { op in inputs }

    predicate Reads(op: OpId, t: TensorId)
      requires Has(op)
    {
      t in inputs[op]
    }

    predicate Writes(op: OpId, t: TensorId)
      requires op in outputs
    {
      t in outputs[op]
    }

    predicate Child(t: TensorId, op: OpId)
      requires t in children
    {
      op in children[t]
    }

    /** All names resolve. */
    ghost predicate Closed() {
      && outputs.Keys == inputs.Keys
      && start in children
      && (forall op, t :: Has(op) && Writes(op, t) ==> t in children)
      && (forall t, op :: t in children && Child(t, op) ==> Has(op))
    }

    /** A tensor's children read it, and every reader of a tensor that is not given is its child. */
    ghost predicate Wired()
      requires Closed()
    {
      && (forall t, op :: t in children && Child(t, op) ==> Reads(op, t))
      && (forall op, t :: Has(op) && Reads(op, t) && t !in given ==> t in children && Child(t, op))
    }

    /** Output tensors are new, and each has one producer. */
    ghost predicate Fresh()
      requires Closed()
    {
      && (forall op, t :: Has(op) && Writes(op, t) ==> t !in given)
      && (forall p, q, t :: Has(p) && Has(q) && Writes(p, t) && Writes(q, t) ==> p == q)
    }

    /** What is ready at the beginning hangs on the start tensor, which names no operation twice. */
    ghost predicate Rooted()
      requires Closed()
    {
      && (forall op :: Has(op) && AllProduced(this, given, op) ==> Child(start, op))
      && Distinct(children[start])
    }

    ghost predicate Valid() { Closed() && Wired() && Fresh() && Rooted() }

    /** `rank` grows along the graph and every input comes from somewhere. */
    ghost predicate RankedBy(rank: map<OpId, nat>)
      requires Closed()
    {
      && rank.Keys == inputs.Keys
      && forall op, t :: Has(op) && Reads(op, t) && t !in given ==>
           exists p :: Has(p) && Writes(p, t) && rank[p] < rank[op]
    }

    ghost predicate Acyclic()
      requires Closed()
    {
      exists rank :: RankedBy(rank)
    }
  }

  predicate Distinct(s: seq<OpId>) {
    forall i, j :: 0 <= i < j < |s| ==> s[i] != s[j]
  }

  /** An operation is executable when all its inputs are produced. */
  predicate AllProduced(g: Graph, produced: set<TensorId>, op: OpId)
    requires g.Has(op)
  {
    forall n :: 0 <= n < |g.inputs[op]| ==> g.inputs[op][n] in produced
  }

  function ChildrenOf(g: Graph, tensors: seq<TensorId>): seq<OpId>
    requires forall n :: 0 <= n < |tensors| ==> tensors[n] in g.children
  {
    if tensors == [] then [] else ChildrenOf(g, tensors[..|tensors| - 1]) + g.children[tensors[|tensors| - 1]]
  }

  lemma {:induction false} ChildrenOfHas(g: Graph, tensors: seq<TensorId>, op: OpId)
    requires forall n :: 0 <= n < |tensors| ==> tensors[n] in g.children
    ensures op in ChildrenOf(g, tensors) <==> exists n :: 0 <= n < |tensors| && op in g.children[tensors[n]]
  {
    if tensors != [] {
      ChildrenOfHas(g, tensors[..|tensors| - 1], op);
      var last := tensors[|tensors| - 1];
      if op in g.children[last] { assert tensors[|tensors| - 1] == last; }
    }
  }

  /** The candidates that are executable, as they come. */
  function Found(g: Graph, produced: set<TensorId>, candidates: seq<OpId>): seq<OpId>
    requires forall n :: 0 <= n < |candidates| ==> g.Has(candidates[n])
  {
    if candidates == [] then []
    else
      var rest, c := Found(g, produced, candidates[..|candidates| - 1]), candidates[|candidates| - 1];
      if AllProduced(g, produced, c) then rest + [c] else rest
  }

  /** The list with the executable candidates it does not hold yet appended. */
  function Appended(g: Graph, produced: set<TensorId>, list: seq<OpId>, candidates: seq<OpId>): seq<OpId>
    requires forall n :: 0 <= n < |candidates| ==> g.Has(candidates[n])
  {
    if candidates == [] then list
    else
      var rest, c := Appended(g, produced, list, candidates[..|candidates| - 1]), candidates[|candidates| - 1];
      if AllProduced(g, produced, c) && c !in rest then rest + [c] else rest
  }

  function Without(list: seq<OpId>, op: OpId): seq<OpId> {
    if list == [] then [] else if list[0] == op then list[1..] else [list[0]] + Without(list[1..], op)
  }

  datatype Progress = Progress(produced: set<TensorId>, finished: set<OpId>, executable: seq<OpId>)

  function Begun(g: Graph): Progress
    requires g.start in g.children && forall n :: 0 <= n < |g.children[g.start]| ==> g.Has(g.children[g.start][n])
  {
    Progress(g.given, {}, Found(g, g.given, g.children[g.start]))
  }

  function Produced(g: Graph, produced: set<TensorId>, op: OpId): set<TensorId>
    requires op in g.outputs
  {
    produced + set t | t in g.outputs[op]
  }

  ghost function Finished(g: Graph, s: Progress, id: OpId): Progress
    requires g.Closed() && g.Has(id)
  {
    var produced := Produced(g, s.produced, id);
    ChildrenResolve(g, id);
    Progress(produced, s.finished + {id},
             Appended(g, produced, Without(s.executable, id), ChildrenOf(g, g.outputs[id])))
  }

  lemma ChildrenResolve(g: Graph, id: OpId)
    requires g.Closed() && g.Has(id)
    ensures forall n :: 0 <= n < |g.outputs[id]| ==> g.outputs[id][n] in g.children
    ensures forall n :: 0 <= n < |ChildrenOf(g, g.outputs[id])| ==> g.Has(ChildrenOf(g, g.outputs[id])[n])
  {
    forall n | 0 <= n < |g.outputs[id]|
      ensures g.outputs[id][n] in g.children { assert g.Writes(id, g.outputs[id][n]); }
    var c := ChildrenOf(g, g.outputs[id]);
    forall n | 0 <= n < |c| ensures g.Has(c[n]) {
      ChildrenOfHas(g, g.outputs[id], c[n]);
      var m :| 0 <= m < |g.outputs[id]| && c[n] in g.children[g.outputs[id][m]];
      assert g.Child(g.outputs[id][m], c[n]);
    }
  }

  // ---- the lists ----

  lemma {:induction false} FoundIs(g: Graph, produced: set<TensorId>, candidates: seq<OpId>)
    requires forall n :: 0 <= n < |candidates| ==> g.Has(candidates[n])
    ensures forall op :: op in Found(g, produced, candidates) <==> op in candidates && AllProduced(g, produced, op)
    ensures Distinct(candidates) ==> Distinct(Found(g, produced, candidates))
  {
    if candidates != [] {
      var init, c := candidates[..|candidates| - 1], candidates[|candidates| - 1];
      FoundIs(g, produced, init);
      assert candidates == init + [c];
    }
  }

  lemma {:induction false} AppendedIs(g: Graph, produced: set<TensorId>, list: seq<OpId>, candidates: seq<OpId>)
    requires forall n :: 0 <= n < |candidates| ==> g.Has(candidates[n])
    requires Distinct(list)
    ensures Distinct(Appended(g, produced, list, candidates))
    ensures forall op :: op in Appended(g, produced, list, candidates) <==>
      op in list || (op in candidates && AllProduced(g, produced, op))
  {
    if candidates != [] {
      var init, c := candidates[..|candidates| - 1], candidates[|candidates| - 1];
      AppendedIs(g, produced, list, init);
      assert candidates == init + [c];
    }
  }

  lemma {:induction false} WithoutIs(list: seq<OpId>, op: OpId)
    requires Distinct(list)
    ensures Distinct(Without(list, op))
    ensures forall x :: x in Without(list, op) <==> x in list && x != op
  {
    if list != [] {
      WithoutIs(list[1..], op);
      assert list == [list[0]] + list[1..];
      assert list[0] !in list[1..];
    }
  }

  // ---- the invariant ----

  /** The list holds, once each, the unfinished operations whose inputs are all produced; what is produced was given or
      is an output of something finished, and finished operations had their inputs. */
  ghost predicate Exact(g: Graph, s: Progress)
    requires g.Closed()
  {
    && Distinct(s.executable)
    && (forall op :: op in s.executable <==> g.Has(op) && op !in s.finished && AllProduced(g, s.produced, op))
    && (forall op :: op in s.finished ==> g.Has(op) && AllProduced(g, s.produced, op))
    && (forall t :: t in s.produced <==> t in g.given || exists p :: p in s.finished && g.Has(p) && g.Writes(p, t))
  }

  lemma BegunIsExact(g: Graph)
    requires g.Valid()
    ensures forall n :: 0 <= n < |g.children[g.start]| ==> g.Has(g.children[g.start][n])
    ensures Exact(g, Begun(g))
  {
    assert forall n :: 0 <= n < |g.children[g.start]| ==> g.Child(g.start, g.children[g.start][n]);
    FoundIs(g, g.given, g.children[g.start]);
  }

  /** A child of something finishing now cannot be finished, since that output is new. */
  lemma ChildIsUnfinished(g: Graph, s: Progress, id: OpId, t: TensorId, op: OpId)
    requires g.Valid() && Exact(g, s) && g.Has(id) && id !in s.finished && g.Writes(id, t) && t in g.children
    requires g.Child(t, op)
    ensures op !in s.finished && !(g.Has(op) && AllProduced(g, s.produced, op))
  {
    assert g.Reads(op, t) && t !in s.produced;
  }

  lemma FinishedKeepsExact(g: Graph, s: Progress, id: OpId)
    requires g.Valid() && Exact(g, s) && id in s.executable
    ensures Exact(g, Finished(g, s, id))
  {
    var s' := Finished(g, s, id);
    var rest, outs := Without(s.executable, id), g.outputs[id];
    ChildrenResolve(g, id);
    WithoutIs(s.executable, id);
    AppendedIs(g, s'.produced, rest, ChildrenOf(g, outs));
    forall op ensures op in s'.executable <==> g.Has(op) && op !in s'.finished && AllProduced(g, s'.produced, op) {
      ChildrenOfHas(g, outs, op);
      if op in ChildrenOf(g, outs) {
        var n :| 0 <= n < |outs| && op in g.children[outs[n]];
        assert g.Writes(id, outs[n]) && g.Child(outs[n], op);
        ChildIsUnfinished(g, s, id, outs[n], op);
      }
      if g.Has(op) && AllProduced(g, s'.produced, op) && !AllProduced(g, s.produced, op) {
        var n :| 0 <= n < |g.inputs[op]| && g.inputs[op][n] !in s.produced;
        var t := g.inputs[op][n];
        assert g.Reads(op, t) && t in outs;
        assert g.Child(t, op);
        var m :| 0 <= m < |outs| && outs[m] == t;
        assert op in g.children[outs[m]];
      }
    }
    forall t ensures t in s'.produced <==> t in g.given || exists p :: p in s'.finished && g.Has(p) && g.Writes(p, t) {
      if t in outs { assert g.Writes(id, t) && id in s'.finished; }
    }
  }

  /** While an operation is unfinished in an acyclic graph, something is executable. */
  lemma SomethingIsExecutable(g: Graph, s: Progress)
    requires g.Valid() && g.Acyclic() && Exact(g, s) && s.finished != g.inputs.Keys
    ensures s.executable != []
  {
    var rank :| g.RankedBy(rank);
    var op :| g.Has(op) && op !in s.finished;
    LowestIsExecutable(g, s, rank, op);
  }

  lemma LowestIsExecutable(g: Graph, s: Progress, rank: map<OpId, nat>, op: OpId)
    requires g.Valid() && g.RankedBy(rank) && Exact(g, s) && g.Has(op) && op !in s.finished
    ensures s.executable != []
    decreases rank[op]
  {
    if !AllProduced(g, s.produced, op) {
      var n :| 0 <= n < |g.inputs[op]| && g.inputs[op][n] !in s.produced;
      var t := g.inputs[op][n];
      assert g.Reads(op, t);
      var p :| g.Has(p) && g.Writes(p, t) && rank[p] < rank[op];
      LowestIsExecutable(g, s, rank, p);
    } else {
      assert op in s.executable;
    }
  }

  // ---- runs ----

  /** `ids` finish one after the other, each taken from the list as it then is. */
  ghost predicate Runs(g: Graph, ids: seq<OpId>)
    requires g.Valid()
    decreases |ids|, 0
  {
    ids == [] || (Runs(g, ids[..|ids| - 1]) && ids[|ids| - 1] in After(g, ids[..|ids| - 1]).executable)
  }

  ghost function After(g: Graph, ids: seq<OpId>): (s: Progress)
    requires g.Valid() && Runs(g, ids)
    ensures Exact(g, s)
    ensures forall op :: op in s.finished <==> op in ids
    decreases |ids|, 1
  {
    BegunIsExact(g);
    if ids == [] then Begun(g)
    else
      var init, id := ids[..|ids| - 1], ids[|ids| - 1];
      assert ids == init + [id];
      FinishedKeepsExact(g, After(g, init), id);
      Finished(g, After(g, init), id)
  }

  /** No operation twice, and each one's inputs are given or outputs of earlier ones. */
  ghost predicate Topological(g: Graph, ids: seq<OpId>)
    requires g.Closed()
  {
    Distinct(ids) && forall j :: 0 <= j < |ids| ==> g.Has(ids[j]) && Supplied(g, ids[..j], ids[j])
  }

  ghost predicate Supplied(g: Graph, earlier: seq<OpId>, op: OpId)
    requires g.Closed() && g.Has(op)
  {
    forall t :: g.Reads(op, t) ==>
      t in g.given || exists i :: 0 <= i < |earlier| && g.Has(earlier[i]) && g.Writes(earlier[i], t)
  }

  lemma ExecutableIffSupplied(g: Graph, ids: seq<OpId>, op: OpId)
    requires g.Valid() && Runs(g, ids)
    ensures op in After(g, ids).executable <==> g.Has(op) && op !in ids && Supplied(g, ids, op)
  {
    var s := After(g, ids);
    if g.Has(op) {
      if AllProduced(g, s.produced, op) {
        forall t | g.Reads(op, t) && t !in g.given
          ensures exists i :: 0 <= i < |ids| && g.Has(ids[i]) && g.Writes(ids[i], t)
        {
          var n :| 0 <= n < |g.inputs[op]| && g.inputs[op][n] == t;
          assert t in s.produced;
          var p :| p in s.finished && g.Has(p) && g.Writes(p, t);
          var i :| 0 <= i < |ids| && ids[i] == p;
        }
      }
      if Supplied(g, ids, op) {
        forall n | 0 <= n < |g.inputs[op]| ensures g.inputs[op][n] in s.produced {
          var t := g.inputs[op][n];
          assert g.Reads(op, t);
          if t !in g.given {
            var i :| 0 <= i < |ids| && g.Has(ids[i]) && g.Writes(ids[i], t);
            assert ids[i] in s.finished;
          }
        }
      }
    }
  }

  lemma TopologicalStep(g: Graph, init: seq<OpId>, id: OpId)
    requires g.Closed()
    ensures Topological(g, init + [id]) <==> Topological(g, init) && g.Has(id) && id !in init && Supplied(g, init, id)
  {
    var ids := init + [id];
    assert ids[..|init|] == init && ids[|init|] == id;
    assert forall j :: 0 <= j < |init| ==> ids[..j] == init[..j] && ids[j] == init[j];
    if Topological(g, ids) {
      assert forall i, j :: 0 <= i < j < |init| ==> ids[i] != ids[j];
      assert id !in init by { assert forall i :: 0 <= i < |init| ==> ids[i] != ids[|init|]; }
      assert g.Has(ids[|init|]) && Supplied(g, ids[..|init|], ids[|init|]);
    }
  }

  /** The runs of the incremental list are exactly the topological orders of the graph's operations. */
  lemma {:induction false} RunsAreTopologicalOrders(g: Graph, ids: seq<OpId>)
    requires g.Valid()
    ensures Runs(g, ids) <==> Topological(g, ids)
    decreases |ids|
  {
    hide Supplied, Topological, After, Finished, Exact;
    if ids == [] {
      NothingIsTopological(g);
    } else {
      var init, id := ids[..|ids| - 1], ids[|ids| - 1];
      assert ids == init + [id];
      RunsAreTopologicalOrders(g, init);
      TopologicalStep(g, init, id);
      if Runs(g, init) { ExecutableIffSupplied(g, init, id); }
    }
  }

  lemma NothingIsTopological(g: Graph)
    requires g.Closed()
    ensures Topological(g, [])
  {
  }

  /** A run of an acyclic graph stops only when every operation has finished, and it then has finished each once. */
  lemma RunsToTheEnd(g: Graph, ids: seq<OpId>)
    requires g.Valid() && g.Acyclic() && Runs(g, ids)
    ensures After(g, ids).executable == [] <==> forall op :: g.Has(op) ==> op in ids
    ensures Distinct(ids)
  {
    var s := After(g, ids);
    RunsAreTopologicalOrders(g, ids);
    if s.executable == [] && s.finished != g.inputs.Keys { SomethingIsExecutable(g, s); }
    assert s.executable != [] ==> s.executable[0] !in ids && g.Has(s.executable[0]);
  }

  /** The start tensor's children are not screened for repetition: the first list is free of duplicates exactly when no
      executable operation is registered on the start tensor twice. */
  lemma StartListIsDistinct(g: Graph)
    requires g.Closed()
    ensures forall n :: 0 <= n < |g.children[g.start]| ==> g.Has(g.children[g.start][n])
    ensures Distinct(Begun(g).executable) <==>
      forall i, j :: 0 <= i < j < |g.children[g.start]| && AllProduced(g, g.given, g.children[g.start][i]) ==>
        g.children[g.start][i] != g.children[g.start][j]
  {
    assert forall n :: 0 <= n < |g.children[g.start]| ==> g.Child(g.start, g.children[g.start][n]);
    FoundDistinct(g, g.given, g.children[g.start]);
  }

  lemma {:induction false} FoundDistinct(g: Graph, produced: set<TensorId>, c: seq<OpId>)
    requires forall n :: 0 <= n < |c| ==> g.Has(c[n])
    ensures Distinct(Found(g, produced, c)) <==>
      forall i, j :: 0 <= i < j < |c| && AllProduced(g, produced, c[i]) ==> c[i] != c[j]
  {
    if c != [] {
      var init, last := c[..|c| - 1], c[|c| - 1];
      assert c == init + [last];
      FoundDistinct(g, produced, init);
      FoundIs(g, produced, init);
      var f := Found(g, produced, init);
      if AllProduced(g, produced, last) {
        assert Found(g, produced, c) == f + [last];
        if last in f {
          var k :| 0 <= k < |f| && f[k] == last;
          assert (f + [last])[k] == (f + [last])[|f|];
          var m :| 0 <= m < |init| && init[m] == last;
          assert c[m] == c[|c| - 1];
        } else {
          assert Distinct(f) <==> Distinct(f + [last]) by {
            if Distinct(f + [last]) { assert forall i :: 0 <= i < |f| ==> (f + [last])[i] == f[i]; }
          }
        }
      }
    }
  }

  // ---- the program as an object ----

  class StageProgram {
    const graph: Graph
    var produced: set<TensorId>
    var finished: set<OpId>
    var executable: seq<OpId>

    function State(): Progress
      reads this
    {
      Progress(produced, finished, executable)
    }

    /** Empty list, then the start tensor is searched. */
    constructor (g: Graph)
      requires g.Valid()
      ensures graph == g && State() == Begun(g) && Exact(g, State())
    {
      graph, produced, finished, executable := g, g.given, {}, [];
      new;
      BegunIsExact(g);
      FindExecutableNode(g.start);
    }

    method FindExecutableNode(t: TensorId)
      requires t in graph.children && forall n :: 0 <= n < |graph.children[t]| ==> graph.Has(graph.children[t][n])
      modifies this`executable
      ensures executable == old(executable) + Found(graph, produced, graph.children[t])
    {
      var nodes := graph.children[t];
      for i := 0 to |nodes|
        invariant executable == old(executable) + Found(graph, produced, nodes[..i])
      {
        assert nodes[..i + 1][..i] == nodes[..i];
        var ready := CheckExecutable(nodes[i]);
        if ready { executable := executable + [nodes[i]]; }
      }
      assert nodes[..|nodes|] == nodes;
    }

    method CheckExecutable(op: OpId) returns (ready: bool)
      requires graph.Has(op)
      ensures ready <==> AllProduced(graph, produced, op)
    {
      ready := true;
      for i := 0 to |graph.inputs[op]|
        invariant ready <==> forall n :: 0 <= n < i ==> graph.inputs[op][n] in produced
      {
        ready := ready && graph.inputs[op][i] in produced;
      }
    }

    method GetChildNodes(op: OpId) returns (nodes: seq<OpId>)
      requires op in graph.outputs
      requires forall n :: 0 <= n < |graph.outputs[op]| ==> graph.outputs[op][n] in graph.children
      ensures nodes == ChildrenOf(graph, graph.outputs[op])
    {
      nodes := [];
      var outs := graph.outputs[op];
      for i := 0 to |outs|
        invariant nodes == ChildrenOf(graph, outs[..i])
      {
        assert outs[..i + 1][..i] == outs[..i];
        nodes := nodes + graph.children[outs[i]];
      }
      assert outs[..|outs|] == outs;
    }

    method SetFinish(op: OpId)
      requires op in graph.outputs
      modifies this`produced, this`finished
      ensures produced == Produced(graph, old(produced), op) && finished == old(finished) + {op}
    {
      var outs := graph.outputs[op];
      for i := 0 to |outs|
        invariant produced == old(produced) + set t | t in outs[..i]
        invariant finished == old(finished)
      {
        produced := produced + {outs[i]};
        assert outs[..i + 1] == outs[..i] + [outs[i]];
      }
      assert outs[..|outs|] == outs;
      finished := finished + {op};
    }

    /** Takes the first occurrence out of the list. */
    method EraseExecutable(id: OpId)
      modifies this`executable
      ensures executable == Without(old(executable), id)
    {
      var i := 0;
      while i < |executable| && executable[i] != id
        invariant 0 <= i <= |executable|
        invariant Without(executable, id) == executable[..i] + Without(executable[i..], id)
      {
        i := i + 1;
      }
      if i < |executable| { executable := executable[..i] + executable[i + 1..]; }
    }

    method FinishOperation(id: OpId)
      requires graph.Closed() && graph.Has(id)
      modifies this
      ensures State() == Finished(graph, old(State()), id)
    {
      ChildrenResolve(graph, id);
      SetFinish(id);
      EraseExecutable(id);
      ghost var rest := executable;
      var nodes := GetChildNodes(id);
      for i := 0 to |nodes|
        invariant executable == Appended(graph, produced, rest, nodes[..i])
        invariant produced == Produced(graph, old(produced), id) && finished == old(finished) + {id}
      {
        assert nodes[..i + 1][..i] == nodes[..i];
        var ready := CheckExecutable(nodes[i]);
        if ready && nodes[i] !in executable { executable := executable + [nodes[i]]; }
      }
      assert nodes[..|nodes|] == nodes;
    }

    /** All operations have finished. */
    method CheckFinish() returns (finish: bool)
      ensures finish <==> graph.inputs.Keys <= finished
    {
      finish := true;
      var keys := graph.inputs.Keys;
      while keys != {}
        invariant keys <= graph.inputs.Keys
        invariant finish <==> graph.inputs.Keys - keys <= finished
        decreases |keys|
      {
        var op :| op in keys;
        finish := finish && op in finished;
        keys := keys - {op};
      }
    }
  }
}
