/** The simple interconnect between cores and memory channels: one buffer per source node, and each cycle at most one
    packet per destination, sources being looked at in an order that rotates. */
module Interconnects {
  datatype Platform = SA | PIM

  datatype Access = Access(id: nat, platform: Platform)

  datatype Entity = Entity(finish: nat, dest: nat, access: Access)

  datatype Config = Config(cores: nat, channels: nat, latency: nat, subBatch: bool) {
    function Offset(): nat { cores * channels }
    function Nodes(): nat { Offset() + channels }
  }

  datatype Port = Out(node: nat) | Mem1(channel: nat) | Mem2(channel: nat)

  /** Without sub-batches everything goes to the first memory queue. */
  function Sent(cfg: Config, dest: nat, a: Access): Access {
    if dest < cfg.Offset() || cfg.subBatch then a else a.(platform := SA)
  }

  function PortFor(cfg: Config, dest: nat, a: Access): Port {
    if dest < cfg.Offset() then Out(dest)
    else if Sent(cfg, dest, a).platform.SA? then Mem1(dest - cfg.Offset()) else Mem2(dest - cfg.Offset())
  }

  datatype Net = Net(
    cycles: nat, start: nat, ins: seq<seq<Entity>>, outs: seq<seq<Access>>, mem1: seq<seq<Access>>,
      mem2: seq<seq<Access>>)
  {
    predicate Shaped(cfg: Config) {
      && |ins| == cfg.Nodes() && |outs| == cfg.Offset() && |mem1| == cfg.channels && |mem2| == cfg.channels
      && forall s, i :: 0 <= s < |ins| && 0 <= i < |ins[s]| ==> ins[s][i].dest < cfg.Nodes()
    }

    predicate HasPort(p: Port) {
      match p case Out(n) => n < |outs| case Mem1(c) => c < |mem1| case Mem2(c) => c < |mem2|
    }

    function Queue(p: Port): seq<Access>
      requires HasPort(p)
    {
      match p case Out(n) => outs[n] case Mem1(c) => mem1[c] case Mem2(c) => mem2[c]
    }

    /** The source's first packet has arrived at the switch. */
    predicate Ready(src: nat)
      requires src < |ins|
    {
      ins[src] != [] && ins[src][0].finish <= cycles
    }

    predicate Wants(src: nat, dest: nat)
      requires src < |ins|
    {
      Ready(src) && ins[src][0].dest == dest
    }
  }

  function Empty(cfg: Config, start: nat): Net {
    Net(0, start, seq(cfg.Nodes(), _ => []), seq(cfg.Offset(), _ => []), seq(cfg.channels, _ => []),
        seq(cfg.channels, _ => []))
  }

  // ---- operations ----

  function Pushed(cfg: Config, net: Net, src: nat, dest: nat, a: Access): Net
    requires net.Shaped(cfg) && src < cfg.Nodes() && dest < cfg.Nodes()
  {
    var b := net.ins[src];
    var finish := if b == [] then net.cycles + cfg.latency else b[|b| - 1].finish + 1;
    net.(ins := net.ins[src := b + [Entity(finish, dest, a)]])
  }

  /** The source looked at in turn `k`. */
  function SourceAt(start: nat, nodes: nat, k: nat): (src: nat)
    requires nodes > 0
    ensures src < nodes
  {
    (start + k) % nodes
  }

  /** The first source, in this cycle's order, whose head is ready for `dest`, among the first `k` turns. */
  function Winner(net: Net, dest: nat, k: nat): (w: Chosen)
    requires k <= |net.ins|
    ensures w.Some? ==> w.src < |net.ins| && net.Wants(w.src, dest)
  {
    if k == 0 then None
    else
      var w, src := Winner(net, dest, k - 1), SourceAt(net.start, |net.ins|, k - 1);
      if w.Some? then w else if net.Wants(src, dest) then Some(src) else None
  }

  datatype Chosen = None | Some(src: nat)

  predicate Sends(net: Net, src: nat)
    requires src < |net.ins|
  {
    net.Ready(src) && Winner(net, net.ins[src][0].dest, |net.ins|) == Some(src)
  }

  /** What destination `dest` receives in a cycle. */
  function Received(net: Net, dest: nat, k: nat): (r: seq<Access>)
    requires k <= |net.ins|
    ensures |r| <= 1
  {
    var w := Winner(net, dest, k);
    if w.Some? then [net.ins[w.src][0].access] else []
  }

  function At(cfg: Config, net: Net, dest: nat, k: nat, p: Port): seq<Access>
    requires k <= |net.ins|
  {
    var r := Received(net, dest, k);
    if r != [] && PortFor(cfg, dest, r[0]) == p then [Sent(cfg, dest, r[0])] else []
  }

  /** One cycle, destination by destination: each takes its winner's packet; nothing else moves. */
  function Cycled(cfg: Config, net: Net): Net
    requires net.Shaped(cfg) && cfg.Nodes() > 0
  {
    var n := cfg.Nodes();
    Net(net.cycles + 1, (net.start + 1) % n,
        seq(n, s requires 0 <= s < n => if Sends(net, s) then net.ins[s][1..] else net.ins[s]),
        seq(cfg.Offset(), d requires 0 <= d < cfg.Offset() => net.outs[d] + At(cfg, net, d, n, Out(d))),
        seq(cfg.channels, c requires 0 <= c < cfg.channels => net.mem1[c] + At(cfg, net, cfg.Offset() + c, n, Mem1(c))),
        seq(cfg.channels, c requires 0 <= c < cfg.channels => net.mem2[c] + At(cfg, net, cfg.Offset() + c, n, Mem2(c))))
  }

  function Popped(net: Net, p: Port): Net
    requires net.HasPort(p) && net.Queue(p) != []
  {
    match p
    case Out(n) => net.(outs := net.outs[n := net.outs[n][1..]])
    case Mem1(c) => net.(mem1 := net.mem1[c := net.mem1[c][1..]])
    case Mem2(c) => net.(mem2 := net.mem2[c := net.mem2[c][1..]])
  }

  datatype Op = Push(src: nat, dest: nat, access: Access) | Cycle | Pop(port: Port)

  predicate Allowed(cfg: Config, net: Net, op: Op)
    requires net.Shaped(cfg)
  {
    match op
    case Push(src, dest, _) => src < cfg.Nodes() && dest < cfg.Nodes()
    case Cycle => cfg.Nodes() > 0
    case Pop(p) => net.HasPort(p) && net.Queue(p) != []
  }

  function Step(cfg: Config, net: Net, op: Op): (r: Net)
    requires net.Shaped(cfg) && Allowed(cfg, net, op)
    ensures r.Shaped(cfg)
  {
    match op
    case Push(src, dest, a) => Pushed(cfg, net, src, dest, a)
    case Cycle => Cycled(cfg, net)
    case Pop(p) => Popped(net, p)
  }

  // ---- the rotation ----

  /** How many sources are looked at before `src`. */
  function Turn(start: nat, nodes: nat, src: nat): (k: nat)
    requires nodes > 0
    ensures k < nodes
  {
    (src - start) % nodes
  }

  lemma MultipleIsFar(d: int, n: nat)
    requires n > 0
    ensures d >= 1 ==> d * n >= n
    ensures d <= -1 ==> d * n + n <= 0
  {
  }

  lemma ModUnique(x: int, n: nat, q: int, r: nat)
    requires n > 0 && x == q * n + r && r < n
    ensures x % n == r
  {
    var d := x / n - q;
    assert d * n == r - x % n by {
      assert x == (x / n) * n + x % n;
      assert d * n == (x / n) * n - q * n;
    }
    MultipleIsFar(d, n);
    assert d == 0;
  }

  lemma TurnsAndSources(start: nat, nodes: nat, src: nat, k: nat)
    requires nodes > 0 && src < nodes && k < nodes
    ensures SourceAt(start, nodes, k) == src <==> k == Turn(start, nodes, src)
  {
    var t := Turn(start, nodes, src);
    var q := (src - start) / nodes;
    assert start + t == -q * nodes + src;
    ModUnique(start + t, nodes, -q, src);
    if SourceAt(start, nodes, k) == src {
      var p := (start + k) / nodes;
      assert src - start == -p * nodes + k;
      ModUnique(src - start, nodes, -p, k);
    }
  }

  lemma TurnAdvances(start: nat, nodes: nat, src: nat)
    requires nodes > 0 && src < nodes
    ensures Turn((start + 1) % nodes, nodes, src) ==
      if Turn(start, nodes, src) == 0 then nodes - 1 else Turn(start, nodes, src) - 1
  {
    var t := Turn(start, nodes, src);
    var q, p := (src - start) / nodes, (start + 1) / nodes;
    var s := (start + 1) % nodes;
    assert src - start == q * nodes + t && start + 1 == p * nodes + s;
    var r := if t == 0 then nodes - 1 else t - 1;
    var m := if t == 0 then q + p - 1 else q + p;
    assert src - s == m * nodes + r by {
      assert src - s == (q * nodes + t) + (p * nodes) - 1;
      assert (q + p) * nodes == q * nodes + p * nodes;
      assert (q + p - 1) * nodes == (q + p) * nodes - nodes;
    }
    ModUnique(src - s, nodes, m, r);
  }

  predicate FirstAt(net: Net, dest: nat, j: nat)
    requires j < |net.ins|
  {
    && net.Wants(SourceAt(net.start, |net.ins|, j), dest)
    && forall i :: 0 <= i < j ==> !net.Wants(SourceAt(net.start, |net.ins|, i), dest)
  }

  /** The winner is the ready source with the smallest turn. */
  lemma {:induction false} WinnerIsFirst(net: Net, dest: nat, k: nat)
    requires k <= |net.ins|
    ensures Winner(net, dest, k).None? <==> forall j ::
      0 <= j < k ==> !net.Wants(SourceAt(net.start, |net.ins|, j), dest)
    ensures Winner(net, dest, k).Some? ==>
      exists j :: 0 <= j < k && FirstAt(net, dest, j) && Winner(net, dest, k).src == SourceAt(net.start, |net.ins|, j)
  {
    if k > 0 {
      WinnerIsFirst(net, dest, k - 1);
    }
  }

  /** A ready head whose source is looked at first leaves. */
  lemma {:induction false} FirstTurnSends(net: Net, src: nat, k: nat)
    requires src < |net.ins| && net.Ready(src) && Turn(net.start, |net.ins|, src) == 0 && 0 < k <= |net.ins|
    ensures Winner(net, net.ins[src][0].dest, k) == Some(src)
  {
    TurnsAndSources(net.start, |net.ins|, src, 0);
    if k > 1 { FirstTurnSends(net, src, k - 1); } else { assert Winner(net, net.ins[src][0].dest, 0).None?; }
  }

  lemma SendsFirst(net: Net, src: nat)
    requires src < |net.ins| && net.Ready(src)
    ensures Turn(net.start, |net.ins|, src) == 0 ==> Sends(net, src)
  {
    if Turn(net.start, |net.ins|, src) == 0 { FirstTurnSends(net, src, |net.ins|); }
  }

  // ---- what every step keeps ----

  ghost predicate Ordered(b: seq<Entity>) {
    forall i, j :: 0 <= i < j < |b| ==> b[i].finish < b[j].finish
  }

  /** Shapes hold and finish cycles strictly increase along every input buffer. */
  ghost predicate Inv(cfg: Config, net: Net) {
    net.Shaped(cfg) && forall s :: 0 <= s < |net.ins| ==> Ordered(net.ins[s])
  }

  lemma StepKeepsInv(cfg: Config, net: Net, op: Op)
    requires Inv(cfg, net) && Allowed(cfg, net, op)
    ensures Inv(cfg, Step(cfg, net, op))
  {
    var net' := Step(cfg, net, op);
    forall s | 0 <= s < |net'.ins| ensures Ordered(net'.ins[s]) {
      assert Ordered(net.ins[s]);
    }
  }

  // ---- bounded waiting ----

  predicate Legal(cfg: Config, net: Net, ops: seq<Op>)
    requires net.Shaped(cfg)
    decreases |ops|
  {
    ops == [] || (Allowed(cfg, net, ops[0]) && Legal(cfg, Step(cfg, net, ops[0]), ops[1..]))
  }

  function Cycles(ops: seq<Op>): nat {
    if ops == [] then 0 else (if ops[0].Cycle? then 1 else 0) + Cycles(ops[1..])
  }

  /** How many packets leave `src` during the run. */
  function Departures(cfg: Config, net: Net, ops: seq<Op>, src: nat): nat
    requires net.Shaped(cfg) && Legal(cfg, net, ops) && src < cfg.Nodes()
    decreases |ops|
  {
    if ops == [] then 0
    else (if ops[0].Cycle? && Sends(net, src) then 1 else 0) + Departures(cfg, Step(cfg, net, ops[0]), ops[1..], src)
  }

  /** What a step does to one source's buffer: only its own push adds, only its own sending takes the head. */
  lemma BufferStep(cfg: Config, net: Net, op: Op, src: nat)
    requires Inv(cfg, net) && Allowed(cfg, net, op) && src < cfg.Nodes()
    ensures var b, b' := net.ins[src], Step(cfg, net, op).ins[src];
      b' ==
            if op.Cycle? && Sends(net, src) then b[1..]
            else if op.Push? && op.src == src then b + [b'[|b' | - 1]] else b
    ensures op.Push? && op.src == src ==> Step(cfg, net, op).ins[src] != []
    ensures Step(cfg, net, op).start == if op.Cycle? then (net.start + 1) % cfg.Nodes() else net.start
    ensures Step(cfg, net, op).cycles >= net.cycles
    ensures Sends(net, src) ==> net.ins[src] != []
  {
  }

  /** The cycles within which `ready` due packets leave, the first of them in turn `turn`. */
  function Span(turn: nat, ready: nat, nodes: nat): nat {
    if ready == 0 then 0 else if ready == 1 then turn + 1 else nodes + Span(turn, ready - 1, nodes)
  }

  lemma {:induction false} SpanTurn(turn: nat, ready: nat, nodes: nat)
    requires ready > 0
    ensures turn > 0 ==> Span(turn, ready, nodes) == Span(turn - 1, ready, nodes) + 1
    ensures nodes > 0 && ready > 1 ==> Span(nodes - 1, ready - 1, nodes) + 1 + turn == Span(turn, ready, nodes)
    ensures Span(turn, ready, nodes) == turn + 1 + (ready - 1) * nodes
  {
    if ready > 1 {
      SpanTurn(turn, ready - 1, nodes);
      assert (ready - 1) * nodes == (ready - 2) * nodes + nodes;
    }
  }

  /** One cycle of a source with something due: it sends, or its turn comes one nearer. */
  lemma CycleBringsNearer(cfg: Config, net: Net, src: nat)
    requires Inv(cfg, net) && cfg.Nodes() > 0 && src < cfg.Nodes() && net.Ready(src)
    ensures var turn, turn' := Turn(net.start, cfg.Nodes(), src), Turn(Step(cfg, net, Cycle).start, cfg.Nodes(), src);
      if Sends(net, src) then turn' < cfg.Nodes() && (turn > 0 ==> turn' == turn - 1)
        && (turn == 0 ==> turn' == cfg.Nodes() - 1)
      else turn > 0 && turn' == turn - 1
  {
    hide Winner, Turn, Sends;
    TurnAdvances(net.start, cfg.Nodes(), src);
    SendsFirst(net, src);
  }

  lemma DueHeadIsReady(cfg: Config, net: Net, src: nat, ready: nat)
    requires Inv(cfg, net) && src < cfg.Nodes() && 0 < ready <= |net.ins[src]|
    requires net.ins[src][ready - 1].finish <= net.cycles
    ensures net.Ready(src)
  {
    assert Ordered(net.ins[src]);
  }

  lemma DeparturesStep(cfg: Config, net: Net, ops: seq<Op>, src: nat)
    requires net.Shaped(cfg) && ops != [] && Legal(cfg, net, ops) && src < cfg.Nodes()
    ensures Allowed(cfg, net, ops[0]) && Legal(cfg, Step(cfg, net, ops[0]), ops[1..])
    ensures Departures(cfg, net, ops, src) ==
      (if ops[0].Cycle? && Sends(net, src) then 1 else 0) + Departures(cfg, Step(cfg, net, ops[0]), ops[1..], src)
    ensures Cycles(ops) == (if ops[0].Cycle? then 1 else 0) + Cycles(ops[1..])
  {
  }

  /** Whatever the other sources do: if the first `ready` packets of a source are due, then `ready` of its packets leave
      within its turn plus `ready - 1` rounds of the rotation. */
  lemma {:induction false} BoundedWaiting(cfg: Config, net: Net, ops: seq<Op>, src: nat, ready: nat)
    requires Inv(cfg, net) && Legal(cfg, net, ops) && src < cfg.Nodes()
    requires 0 < ready <= |net.ins[src]| && net.ins[src][ready - 1].finish <= net.cycles
    requires Cycles(ops) >= Span(Turn(net.start, cfg.Nodes(), src), ready, cfg.Nodes())
    ensures Departures(cfg, net, ops, src) >= ready
    decreases |ops|
  {
    hide Winner, Step, Turn, Sends, Span, Departures, Legal, Ordered;
    var n := cfg.Nodes();
    SpanTurn(Turn(net.start, n, src), ready, n);
    assert ops != [] by { assert (ready - 1) * n >= 0; }
    var op := ops[0];
    DeparturesStep(cfg, net, ops, src);
    var net' := Step(cfg, net, op);
    StepKeepsInv(cfg, net, op);
    BufferStep(cfg, net, op, src);
    if op.Cycle? {
      DueHeadIsReady(cfg, net, src, ready);
      CycleBringsNearer(cfg, net, src);
    }
    if op.Cycle? && Sends(net, src) {
      if ready > 1 {
        SpanTurn(Turn(net'.start, n, src), ready - 1, n);
        BoundedWaiting(cfg, net', ops[1..], src, ready - 1);
      }
    } else {
      BoundedWaiting(cfg, net', ops[1..], src, ready);
    }
  }

  /** A ready head leaves within as many cycles as there are nodes. */
  lemma ReadyHeadLeaves(cfg: Config, net: Net, ops: seq<Op>, src: nat)
    requires Inv(cfg, net) && Legal(cfg, net, ops) && src < cfg.Nodes()
    requires net.Ready(src) && Cycles(ops) >= cfg.Nodes()
    ensures Departures(cfg, net, ops, src) >= 1
  {
    BoundedWaiting(cfg, net, ops, src, 1);
  }

  // ---- order and conservation ----

  datatype Packet = Packet(src: nat, dest: nat, access: Access)

  /** The net with what was ever pushed, what crossed the switch, and what was popped. */
  datatype World = World(net: Net, pushed: seq<Packet>, crossed: seq<Packet>, popped: seq<(Port, Access)>)

  /** The packet crossing to a destination in one cycle, if any. */
  function CrossingTo(net: Net, dest: nat): seq<Packet> {
    var w := Winner(net, dest, |net.ins|);
    if w.Some? then [Packet(w.src, dest, net.ins[w.src][0].access)] else []
  }

  /** The packets crossing to destinations 0..d-1. */
  function Crossing(net: Net, d: nat): seq<Packet> {
    if d == 0 then [] else Crossing(net, d - 1) + CrossingTo(net, d - 1)
  }

  function WorldStep(cfg: Config, w: World, op: Op): World
    requires w.net.Shaped(cfg) && Allowed(cfg, w.net, op)
  {
    var net := Step(cfg, w.net, op);
    match op
    case Push(src, dest, a) => World(net, w.pushed + [Packet(src, dest, a)], w.crossed, w.popped)
    case Cycle => World(net, w.pushed, w.crossed + Crossing(w.net, cfg.Nodes()), w.popped)
    case Pop(p) => World(net, w.pushed, w.crossed, w.popped + [(p, w.net.Queue(p)[0])])
  }

  /** The accesses of one source to one destination. */
  function Flow(log: seq<Packet>, src: nat, dest: nat): seq<Access> {
    if log == [] then []
    else
      var p := log[|log| - 1];
      Flow(log[..|log| - 1], src, dest) + if p.src == src && p.dest == dest then [p.access] else []
  }

  function Buffered(b: seq<Entity>, dest: nat): seq<Access> {
    if b == [] then []
    else Buffered(b[..|b| - 1], dest) + if b[|b| - 1].dest == dest then [b[|b| - 1].access] else []
  }

  /** What the crossings put in one port. */
  function Into(cfg: Config, log: seq<Packet>, port: Port): seq<Access> {
    if log == [] then []
    else
      var p := log[|log| - 1];
      Into(cfg, log[..|log| - 1], port)
      + if PortFor(cfg, p.dest, p.access) == port then [Sent(cfg, p.dest, p.access)] else []
  }

  function Taken(log: seq<(Port, Access)>, port: Port): seq<Access> {
    if log == [] then []
    else Taken(log[..|log| - 1], port) + if log[|log| - 1].0 == port then [log[|log| - 1].1] else []
  }

  ghost predicate Conserved(cfg: Config, w: World)
    requires w.net.Shaped(cfg)
  {
    && (forall src, dest :: 0 <= src < cfg.Nodes() && 0 <= dest ==>
          Flow(w.pushed, src, dest) == Flow(w.crossed, src, dest) + Buffered(w.net.ins[src], dest))
    && (forall p :: w.net.HasPort(p) ==> Into(cfg, w.crossed, p) == Taken(w.popped, p) + w.net.Queue(p))
  }

  lemma FlowAppends(a: seq<Packet>, b: seq<Packet>, src: nat, dest: nat)
    ensures Flow(a + b, src, dest) == Flow(a, src, dest) + Flow(b, src, dest)
    decreases |b|
  {
    if b == [] { assert a + b == a; } else {
      FlowAppends(a, b[..|b| - 1], src, dest);
      assert (a + b)[..|a + b| - 1] == a + b[..|b| - 1];
    }
  }

  lemma IntoAppends(cfg: Config, a: seq<Packet>, b: seq<Packet>, p: Port)
    ensures Into(cfg, a + b, p) == Into(cfg, a, p) + Into(cfg, b, p)
    decreases |b|
  {
    hide PortFor, Sent;
    if b == [] { assert a + b == a; } else {
      IntoAppends(cfg, a, b[..|b| - 1], p);
      assert (a + b)[..|a + b| - 1] == a + b[..|b| - 1];
    }
  }

  lemma {:induction false} BufferedHead(b: seq<Entity>, dest: nat)
    requires b != []
    ensures Buffered(b, dest) == (if b[0].dest == dest then [b[0].access] else []) + Buffered(b[1..], dest)
  {
    if |b| == 1 {
      assert b[..0] == [] && b[1..] == [];
    } else {
      BufferedHead(b[..|b| - 1], dest);
      assert b[1..][..|b| - 2] == b[..|b| - 1][1..];
    }
  }

  lemma CrossingToFlow(net: Net, d: nat, src: nat, dest: nat)
    requires src < |net.ins|
    ensures Flow(CrossingTo(net, d), src, dest) ==
      if dest == d && Sends(net, src) && net.ins[src][0].dest == dest then [net.ins[src][0].access] else []
  {
    hide Winner;
    var c := CrossingTo(net, d);
    if c != [] { assert c[..0] == []; assert Flow(c[..0], src, dest) == []; }
  }

  lemma NoFlow(src: nat, dest: nat)
    ensures Flow([], src, dest) == []
  {
  }

  /** A cycle crosses from a source to a destination exactly its head, when it sends there. */
  lemma {:induction false} CrossingFlow(net: Net, d: nat, src: nat, dest: nat)
    requires src < |net.ins|
    ensures Flow(Crossing(net, d), src, dest) ==
      if dest < d && Sends(net, src) && net.ins[src][0].dest == dest then [net.ins[src][0].access] else []
  {
    hide CrossingTo, Sends, Flow, Winner;
    NoFlow(src, dest);
    if d > 0 {
      CrossingFlow(net, d - 1, src, dest);
      CrossingToFlow(net, d - 1, src, dest);
      FlowAppends(Crossing(net, d - 1), CrossingTo(net, d - 1), src, dest);
    }
  }

  lemma CrossingToInto(cfg: Config, net: Net, d: nat, p: Port)
    requires net.HasPort(p) && net.Shaped(cfg)
    ensures Into(cfg, CrossingTo(net, d), p) == if DestOf(cfg, p) == d then At(cfg, net, d, |net.ins|, p) else []
  {
    hide Winner;
    var c := CrossingTo(net, d);
    if c != [] { assert c[..0] == []; assert Into(cfg, c[..0], p) == []; }
  }

  lemma {:induction false} CrossingInto(cfg: Config, net: Net, d: nat, p: Port)
    requires net.HasPort(p) && net.Shaped(cfg)
    ensures Into(cfg, Crossing(net, d), p) ==
      if DestOf(cfg, p) < d then At(cfg, net, DestOf(cfg, p), |net.ins|, p) else []
  {
    hide CrossingTo, At;
    if d > 0 {
      CrossingInto(cfg, net, d - 1, p);
      CrossingToInto(cfg, net, d - 1, p);
      IntoAppends(cfg, Crossing(net, d - 1), CrossingTo(net, d - 1), p);
    }
  }

  lemma PushConserves(cfg: Config, w: World, op: Op)
    requires Inv(cfg, w.net) && Conserved(cfg, w) && Allowed(cfg, w.net, op) && op.Push?
    ensures Conserved(cfg, WorldStep(cfg, w, op))
  {
    var w' := WorldStep(cfg, w, op);
    forall src, dest | 0 <= src < cfg.Nodes() && 0 <= dest
      ensures Flow(w'.pushed, src, dest) == Flow(w'.crossed, src, dest) + Buffered(w'.net.ins[src], dest)
    {
      assert w'.pushed[..|w.pushed|] == w.pushed;
      if src == op.src { assert w'.net.ins[src][..|w.net.ins[src]|] == w.net.ins[src]; }
    }
    assert forall p :: w'.net.HasPort(p) ==> w.net.HasPort(p) && w'.net.Queue(p) == w.net.Queue(p);
  }

  lemma PopConserves(cfg: Config, w: World, op: Op)
    requires Inv(cfg, w.net) && Conserved(cfg, w) && Allowed(cfg, w.net, op) && op.Pop?
    ensures Conserved(cfg, WorldStep(cfg, w, op))
  {
    hide Flow, Buffered, Into, Popped, Taken;
    var w' := WorldStep(cfg, w, op);
    PoppedQueues(cfg, w.net, op.port);
    forall p | w'.net.HasPort(p) ensures Into(cfg, w'.crossed, p) == Taken(w'.popped, p) + w'.net.Queue(p) {
      assert w.net.HasPort(p) && Into(cfg, w.crossed, p) == Taken(w.popped, p) + w.net.Queue(p);
      TakenOneMore(w.popped, op.port, w.net.Queue(op.port)[0], p);
      if p == op.port { assert w.net.Queue(p) == [w.net.Queue(p)[0]] + w'.net.Queue(p); }
    }
  }

  lemma PoppedQueues(cfg: Config, net: Net, p: Port)
    requires net.Shaped(cfg) && net.HasPort(p) && net.Queue(p) != []
    ensures Popped(net, p).ins == net.ins
    ensures forall o :: Popped(net, p).HasPort(o) <==> net.HasPort(o)
    ensures forall o :: net.HasPort(o) ==>
      Popped(net, p).Queue(o) == if o == p then net.Queue(p)[1..] else net.Queue(o)
  {
  }

  lemma TakenOneMore(log: seq<(Port, Access)>, port: Port, a: Access, p: Port)
    ensures Taken(log + [(port, a)], p) == Taken(log, p) + if p == port then [a] else []
  {
    assert (log + [(port, a)])[..|log|] == log;
  }

  lemma CycleFills(cfg: Config, net: Net, p: Port)
    requires net.Shaped(cfg) && cfg.Nodes() > 0 && net.HasPort(p)
    ensures Step(cfg, net, Cycle).HasPort(p)
    ensures Step(cfg, net, Cycle).Queue(p) == net.Queue(p) + At(cfg, net, DestOf(cfg, p), cfg.Nodes(), p)
  {
  }

  lemma CycleKeepsFlow(cfg: Config, w: World, src: nat, dest: nat)
    requires Inv(cfg, w.net) && Conserved(cfg, w) && Allowed(cfg, w.net, Cycle) && src < cfg.Nodes()
    ensures var w' := WorldStep(cfg, w, Cycle);
      Flow(w'.pushed, src, dest) == Flow(w'.crossed, src, dest) + Buffered(w'.net.ins[src], dest)
  {
    hide Winner, Crossing, Step, Into, Taken, At, Flow, Buffered, Sends;
    var w', crossing := WorldStep(cfg, w, Cycle), Crossing(w.net, cfg.Nodes());
    FlowAppends(w.crossed, crossing, src, dest);
    CrossingFlow(w.net, cfg.Nodes(), src, dest);
    BufferStep(cfg, w.net, Cycle, src);
    if Sends(w.net, src) { BufferedHead(w.net.ins[src], dest); }
    assert Flow(w.pushed, src, dest) == Flow(w.crossed, src, dest) + Buffered(w.net.ins[src], dest);
  }

  lemma CycleKeepsPorts(cfg: Config, w: World, p: Port)
    requires Inv(cfg, w.net) && Conserved(cfg, w) && Allowed(cfg, w.net, Cycle) && w.net.HasPort(p)
    ensures var w' := WorldStep(cfg, w, Cycle);
      w'.net.HasPort(p) && Into(cfg, w'.crossed, p) == Taken(w'.popped, p) + w'.net.Queue(p)
  {
    hide Winner, Crossing, Step, Flow, Buffered, At, Into, Taken;
    CycleFills(cfg, w.net, p);
    IntoAppends(cfg, w.crossed, Crossing(w.net, cfg.Nodes()), p);
    CrossingInto(cfg, w.net, cfg.Nodes(), p);
    assert Into(cfg, w.crossed, p) == Taken(w.popped, p) + w.net.Queue(p);
  }

  lemma CycleConserves(cfg: Config, w: World)
    requires Inv(cfg, w.net) && Conserved(cfg, w) && Allowed(cfg, w.net, Cycle)
    ensures Conserved(cfg, WorldStep(cfg, w, Cycle))
  {
    hide Winner, Crossing, At, Flow, Into, Taken, Buffered, Sends;
    var w' := WorldStep(cfg, w, Cycle);
    forall src, dest | 0 <= src < cfg.Nodes() && 0 <= dest
      ensures Flow(w'.pushed, src, dest) == Flow(w'.crossed, src, dest) + Buffered(w'.net.ins[src], dest)
    {
      CycleKeepsFlow(cfg, w, src, dest);
    }
    forall p | w'.net.HasPort(p) ensures Into(cfg, w'.crossed, p) == Taken(w'.popped, p) + w'.net.Queue(p) {
      assert w.net.HasPort(p);
      CycleKeepsPorts(cfg, w, p);
    }
  }

  function Played(cfg: Config, start: nat, ops: seq<Op>): (w: Outcome)
    ensures w.Ran? ==> w.world.net.Shaped(cfg)
  {
    if ops == [] then Ran(World(Empty(cfg, start), [], [], []))
    else
      var w, op := Played(cfg, start, ops[..|ops| - 1]), ops[|ops| - 1];
      if w.Ran? && Allowed(cfg, w.world.net, op) then Ran(WorldStep(cfg, w.world, op)) else Refused
  }

  datatype Outcome = Refused | Ran(world: World)

  /** In every run, whatever the first source looked at: along each source-destination pair the accesses pushed are
      those that crossed followed by those still buffered, in order; and into each port went exactly, in order, what
      was popped from it followed by what it holds. */
  lemma {:induction false} Delivery(cfg: Config, start: nat, ops: seq<Op>)
    requires Played(cfg, start, ops).Ran?
    ensures Inv(cfg, Played(cfg, start, ops).world.net) && Conserved(cfg, Played(cfg, start, ops).world)
  {
    if ops != [] {
      var init, op := ops[..|ops| - 1], ops[|ops| - 1];
      Delivery(cfg, start, init);
      var w := Played(cfg, start, init).world;
      StepKeepsInv(cfg, w.net, op);
      match op
      case Push(_, _, _) => PushConserves(cfg, w, op);
      case Cycle => CycleConserves(cfg, w);
      case Pop(_) => PopConserves(cfg, w, op);
    }
  }

  predicate AllOf(s: seq<Access>, p: Platform) { forall i :: 0 <= i < |s| ==> s[i].platform == p }

  lemma MoreOf(s: seq<Access>, t: seq<Access>, p: Platform)
    requires AllOf(s, p)
    ensures AllOf(t, p) ==> AllOf(s + t, p)
    ensures s != [] ==> AllOf(s[1..], p)
  {
  }

  /** The first queue of a channel holds accesses of the systolic array only, the second accesses of the PIM side, and
      only with sub-batches. */
  ghost predicate PlatformsApart(cfg: Config, net: Net) {
    && (forall c :: 0 <= c < |net.mem1| ==> AllOf(net.mem1[c], SA))
    && (forall c :: 0 <= c < |net.mem2| ==> AllOf(net.mem2[c], PIM) && (!cfg.subBatch ==> net.mem2[c] == []))
  }

  lemma CycleKeepsPlatforms(cfg: Config, net: Net)
    requires net.Shaped(cfg) && cfg.Nodes() > 0 && PlatformsApart(cfg, net)
    ensures PlatformsApart(cfg, Cycled(cfg, net))
  {
    hide At, Cycled, AllOf;
    var d, n := Cycled(cfg, net), cfg.Nodes();
    CycleFillsAll(cfg, net);
    forall c | 0 <= c < |d.mem1| ensures AllOf(d.mem1[c], SA) {
      ArrivalsByPlatform(cfg, net, cfg.Offset() + c, Mem1(c));
      MoreOf(net.mem1[c], At(cfg, net, cfg.Offset() + c, n, Mem1(c)), SA);
    }
    forall c | 0 <= c < |d.mem2| ensures AllOf(d.mem2[c], PIM) && (!cfg.subBatch ==> d.mem2[c] == []) {
      ArrivalsByPlatform(cfg, net, cfg.Offset() + c, Mem2(c));
      MoreOf(net.mem2[c], At(cfg, net, cfg.Offset() + c, n, Mem2(c)), PIM);
    }
  }

  lemma CycleFillsAll(cfg: Config, net: Net)
    requires net.Shaped(cfg) && cfg.Nodes() > 0
    ensures var d, n := Cycled(cfg, net), cfg.Nodes();
      && |d.mem1| == |d.mem2| == cfg.channels
      && (forall c: nat :: c < cfg.channels ==> d.mem1[c] == net.mem1[c] + At(cfg, net, cfg.Offset() + c, n, Mem1(c)))
      && (forall c: nat :: c < cfg.channels ==> d.mem2[c] == net.mem2[c] + At(cfg, net, cfg.Offset() + c, n, Mem2(c)))
  {
    hide Winner, At;
  }

  lemma ArrivalsByPlatform(cfg: Config, net: Net, dest: nat, p: Port)
    requires net.Shaped(cfg)
    ensures var s := At(cfg, net, dest, cfg.Nodes(), p);
      && (p.Mem1? ==> AllOf(s, SA))
      && (p.Mem2? ==> AllOf(s, PIM) && (!cfg.subBatch ==> s == []))
  {
    hide Winner;
  }

  lemma StepKeepsPlatforms(cfg: Config, net: Net, op: Op)
    requires net.Shaped(cfg) && Allowed(cfg, net, op) && PlatformsApart(cfg, net)
    ensures PlatformsApart(cfg, Step(cfg, net, op))
  {
    hide Cycled, AllOf;
    match op
    case Cycle => CycleKeepsPlatforms(cfg, net);
    case Pop(Mem1(c)) => MoreOf(net.mem1[c], [], SA);
    case Pop(Mem2(c)) => MoreOf(net.mem2[c], [], PIM);
    case _ =>
  }

  lemma NothingApart(cfg: Config, start: nat)
    ensures PlatformsApart(cfg, Empty(cfg, start))
  {
  }

  /** In every run the two queues of a channel keep the platforms apart. */
  lemma {:induction false} QueuesByPlatform(cfg: Config, start: nat, ops: seq<Op>)
    requires Played(cfg, start, ops).Ran?
    ensures PlatformsApart(cfg, Played(cfg, start, ops).world.net)
  {
    hide Step, Crossing, PlatformsApart;
    if ops != [] {
      var init, op := ops[..|ops| - 1], ops[|ops| - 1];
      QueuesByPlatform(cfg, start, init);
      StepKeepsPlatforms(cfg, Played(cfg, start, init).world.net, op);
    } else {
      NothingApart(cfg, start);
    }
  }

  // ---- the interconnect as an object ----

  class SimpleInterconnect {
    const cfg: Config
    var cycles: nat
    var start: nat
    var ins: seq<seq<Entity>>
    var outs: seq<seq<Access>>
    var mem1: seq<seq<Access>>
    var mem2: seq<seq<Access>>
    var busy: seq<bool>

    function State(): Net
      reads this
    {
      Net(cycles, start, ins, outs, mem1, mem2)
    }

    predicate Valid()
      reads this
    {
      State().Shaped(cfg) && busy == seq(cfg.Nodes(), _ => false)
    }

    /** `first` is the rotation's start, which the original leaves unset. */
    constructor (cfg: Config, first: nat)
      ensures this.cfg == cfg && Valid() && State() == Empty(cfg, first)
    {
      this.cfg := cfg;
      cycles, start := 0, first;
      ins, outs := seq(cfg.Nodes(), _ => []), seq(cfg.Offset(), _ => []);
      mem1, mem2 := seq(cfg.channels, _ => []), seq(cfg.channels, _ => []);
      busy := seq(cfg.Nodes(), _ => false);
    }

    method PushPacket(src: nat, dest: nat, a: Access)
      requires Valid() && src < cfg.Nodes() && dest < cfg.Nodes()
      modifies this`ins
      ensures Valid() && State() == Pushed(cfg, old(State()), src, dest, a)
    {
      var finish := cycles + cfg.latency;
      if ins[src] != [] { finish := ins[src][|ins[src]| - 1].finish + 1; }
      ins := ins[src := ins[src] + [Entity(finish, dest, a)]];
    }

    method PopPort(p: Port) returns (a: Access)
      requires Valid() && State().HasPort(p) && State().Queue(p) != []
      modifies this`outs, this`mem1, this`mem2
      ensures Valid() && a == old(State()).Queue(p)[0] && State() == Popped(old(State()), p)
    {
      match p
      case Out(n) => a := outs[n][0]; outs := outs[n := outs[n][1..]];
      case Mem1(c) => a := mem1[c][0]; mem1 := mem1[c := mem1[c][1..]];
      case Mem2(c) => a := mem2[c][0]; mem2 := mem2[c := mem2[c][1..]];
    }

    method Deliver(dest: nat, access: Access)
      requires State().Shaped(cfg) && dest < cfg.Nodes()
      modifies this`outs, this`mem1, this`mem2
      ensures State().Shaped(cfg)
      ensures Added(old(State()), State(), PortFor(cfg, dest, access), [Sent(cfg, dest, access)])
    {
      if dest < cfg.Offset() {
        outs := outs[dest := outs[dest] + [access]];
      } else {
        var channel, request := dest - cfg.Offset(), access;
        if !cfg.subBatch { request := request.(platform := SA); }
        if request.platform.SA? {
          mem1 := mem1[channel := mem1[channel] + [request]];
        } else {
          mem2 := mem2[channel := mem2[channel] + [request]];
        }
      }
    }

    method LookAt(src: nat)
      requires State().Shaped(cfg) && src < cfg.Nodes() && |busy| == cfg.Nodes()
      modifies this`ins, this`outs, this`mem1, this`mem2, this`busy
      ensures Moved(cfg, old(State()), old(busy), State(), busy, src)
    {
      if ins[src] != [] && ins[src][0].finish <= cycles {
        var head := ins[src][0];
        if !busy[head.dest] {
          Deliver(head.dest, head.access);
          ins := ins[src := ins[src][1..]];
          busy := busy[head.dest := true];
        }
      }
    }

    method RunCycle()
      requires Valid() && cfg.Nodes() > 0
      modifies this
      ensures Valid() && State() == Cycled(cfg, old(State()))
    {
      hide Winner, PortFor, Sent, Turn, SourceAt, Turned, Moved, At, Sends;
      var n := cfg.Nodes();
      ghost var was := State();
      NothingTurned(cfg, was, busy);
      for node := 0 to n
        invariant State().Shaped(cfg) && |busy| == n && start == was.start
        invariant Turned(cfg, was, State(), busy, node)
      {
        ghost var before, busyBefore := State(), busy;
        LookAt(SourceAt(start, n, node));
        TurnedStep(cfg, was, before, busyBefore, State(), busy, node);
      }
      AllTurned(cfg, was, State(), busy);
      for node := 0 to n
        invariant |busy| == n && forall d :: 0 <= d < node ==> !busy[d]
        invariant State() == Cycled(cfg, was).(cycles := was.cycles, start := was.start)
      {
        busy := busy[node := false];
      }
      start := (start + 1) % n;
      cycles := cycles + 1;
    }
  }

  // ---- the cycle's loop ----

  /** The source sent within the first `k` turns. */
  predicate TakenBy(net: Net, src: nat, k: nat)
    requires src < |net.ins| && k <= |net.ins|
  {
    net.Ready(src) && Winner(net, net.ins[src][0].dest, k) == Some(src)
  }

  /** What looking at one source does. */
  ghost predicate Moved(cfg: Config, was: Net, wasBusy: seq<bool>, now: Net, busy: seq<bool>, src: nat) {
    && was.Shaped(cfg) && now.Shaped(cfg) && |wasBusy| == |busy| == cfg.Nodes() && src < cfg.Nodes()
    && now.cycles == was.cycles && now.start == was.start
    && if was.Ready(src) && !wasBusy[was.ins[src][0].dest] then
         var head := was.ins[src][0];
         && now.ins == was.ins[src := was.ins[src][1..]]
         && busy == wasBusy[head.dest := true]
         && Added(was, now, PortFor(cfg, head.dest, head.access), [Sent(cfg, head.dest, head.access)])
       else now == was && busy == wasBusy
  }

  ghost predicate Added(was: Net, now: Net, port: Port, what: seq<Access>) {
    forall p :: was.HasPort(p) ==> now.HasPort(p) && now.Queue(p) == was.Queue(p) + if p == port then what else []
  }

  /** Where the cycle that began at `was` stands after `k` turns. */
  ghost predicate Turned(cfg: Config, was: Net, now: Net, busy: seq<bool>, k: nat) {
    && was.Shaped(cfg) && now.Shaped(cfg) && k <= cfg.Nodes() == |busy|
    && now.cycles == was.cycles && now.start == was.start
    && (forall d :: 0 <= d < cfg.Nodes() ==> busy[d] == Winner(was, d, k).Some?)
    && (forall s :: 0 <= s < cfg.Nodes() ==> now.ins[s] == if TakenBy(was, s, k) then was.ins[s][1..] else was.ins[s])
    && (forall p :: was.HasPort(p) ==>
        now.HasPort(p) && now.Queue(p) == was.Queue(p) + At(cfg, was, DestOf(cfg, p), k, p))
  }

  function DestOf(cfg: Config, p: Port): nat {
    match p case Out(n) => n case Mem1(c) => cfg.Offset() + c case Mem2(c) => cfg.Offset() + c
  }

  lemma NothingTurned(cfg: Config, was: Net, busy: seq<bool>)
    requires was.Shaped(cfg) && busy == seq(cfg.Nodes(), _ => false)
    ensures Turned(cfg, was, was, busy, 0)
  {
  }

  /** A source whose turn has not come has not sent. */
  lemma {:induction false} NotYetTaken(net: Net, src: nat, dest: nat, k: nat)
    requires src < |net.ins| && k <= Turn(net.start, |net.ins|, src)
    ensures Winner(net, dest, k) != Some(src)
  {
    if k > 0 {
      NotYetTaken(net, src, dest, k - 1);
      TurnsAndSources(net.start, |net.ins|, src, k - 1);
    }
  }

  lemma WinnerStep(net: Net, dest: nat, k: nat)
    requires k < |net.ins|
    ensures var src := SourceAt(net.start, |net.ins|, k);
      Winner(net, dest, k + 1) ==
        if Winner(net, dest, k).None? && net.Wants(src, dest) then Some(src) else Winner(net, dest, k)
  {
  }

  /** Turn `k` as each destination sees it. */
  lemma TurnSeen(was: Net, k: nat)
    requires k < |was.ins|
    ensures var src := SourceAt(was.start, |was.ins|, k);
      forall d: nat :: Winner(was, d, k) != Some(src) &&
        Winner(was, d, k + 1) == if Winner(was, d, k).None? && was.Wants(src, d) then Some(src) else Winner(was, d, k)
  {
    hide Winner;
    var src := SourceAt(was.start, |was.ins|, k);
    TurnsAndSources(was.start, |was.ins|, src, k);
    forall d: nat
      ensures Winner(was, d, k) != Some(src)
      ensures Winner(was, d, k + 1) ==
        if Winner(was, d, k).None? && was.Wants(src, d) then Some(src) else Winner(was, d, k)
    {
      NotYetTaken(was, src, d, k);
      WinnerStep(was, d, k);
    }
  }

  lemma TurnedSources(cfg: Config, was: Net, now: Net, busy: seq<bool>, next: Net, nextBusy: seq<bool>, k: nat)
    requires Turned(cfg, was, now, busy, k) && k < cfg.Nodes()
    requires Moved(cfg, now, busy, next, nextBusy, SourceAt(was.start, cfg.Nodes(), k))
    ensures forall d :: 0 <= d < cfg.Nodes() ==> nextBusy[d] == Winner(was, d, k + 1).Some?
    ensures forall s ::
      0 <= s < cfg.Nodes() ==> next.ins[s] == if TakenBy(was, s, k + 1) then was.ins[s][1..] else was.ins[s]
    ensures now.ins[SourceAt(was.start, cfg.Nodes(), k)] == was.ins[SourceAt(was.start, cfg.Nodes(), k)]
  {
    hide Winner, Turn, SourceAt, PortFor, Sent, Added, At;
    var src := SourceAt(was.start, cfg.Nodes(), k);
    TurnSeen(was, k);
    assert now.ins[src] == was.ins[src];
    forall s | 0 <= s < cfg.Nodes()
      ensures next.ins[s] == if TakenBy(was, s, k + 1) then was.ins[s][1..] else was.ins[s]
    {
      if s != src { assert TakenBy(was, s, k + 1) == TakenBy(was, s, k); }
    }
  }

  lemma TurnedQueue(cfg: Config, was: Net, now: Net, busy: seq<bool>, next: Net, nextBusy: seq<bool>, k: nat, p: Port)
    requires Turned(cfg, was, now, busy, k) && k < cfg.Nodes() && was.HasPort(p)
    requires Moved(cfg, now, busy, next, nextBusy, SourceAt(was.start, cfg.Nodes(), k))
    requires now.ins[SourceAt(was.start, cfg.Nodes(), k)] == was.ins[SourceAt(was.start, cfg.Nodes(), k)]
    ensures next.HasPort(p) && next.Queue(p) == was.Queue(p) + At(cfg, was, DestOf(cfg, p), k + 1, p)
  {
    hide Winner, Turn, SourceAt, Sent;
    var src := SourceAt(was.start, cfg.Nodes(), k);
    TurnSeen(was, k);
    var d := DestOf(cfg, p);
    assert busy[d] == Winner(was, d, k).Some?;
  }

  lemma TurnedStep(cfg: Config, was: Net, now: Net, busy: seq<bool>, next: Net, nextBusy: seq<bool>, k: nat)
    requires Turned(cfg, was, now, busy, k) && k < cfg.Nodes()
    requires Moved(cfg, now, busy, next, nextBusy, SourceAt(was.start, cfg.Nodes(), k))
    ensures Turned(cfg, was, next, nextBusy, k + 1)
  {
    TurnedSources(cfg, was, now, busy, next, nextBusy, k);
    forall p | was.HasPort(p)
      ensures next.HasPort(p) && next.Queue(p) == was.Queue(p) + At(cfg, was, DestOf(cfg, p), k + 1, p)
    {
      TurnedQueue(cfg, was, now, busy, next, nextBusy, k, p);
    }
    hide Winner, Turn, SourceAt, PortFor, Sent, Added, At;
  }

  lemma AllTurned(cfg: Config, was: Net, now: Net, busy: seq<bool>)
    requires cfg.Nodes() > 0 && Turned(cfg, was, now, busy, cfg.Nodes())
    ensures now == Cycled(cfg, was).(cycles := was.cycles, start := was.start)
  {
    hide Winner, PortFor, Sent;
    var end := Cycled(cfg, was);
    forall s | 0 <= s < cfg.Nodes()
      ensures now.ins[s] == end.ins[s] { assert TakenBy(was, s, cfg.Nodes()) <==> Sends(was, s); }
    forall d | 0 <= d < cfg.Offset()
      ensures now.outs[d] == end.outs[d] { assert was.HasPort(Out(d)) && now.Queue(Out(d)) == now.outs[d]; }
    forall c | 0 <= c < cfg.channels ensures now.mem1[c] == end.mem1[c] && now.mem2[c] == end.mem2[c] {
      assert was.HasPort(Mem1(c)) && now.Queue(Mem1(c)) == now.mem1[c];
      assert was.HasPort(Mem2(c)) && now.Queue(Mem2(c)) == now.mem2[c];
    }
    assert now.ins == end.ins && now.outs == end.outs && now.mem1 == end.mem1 && now.mem2 == end.mem2;
  }
}
