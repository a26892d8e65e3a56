/** When packets cross the interconnect. */
module CrossingTimes {
  // A buffer gives its first packet the full latency and every packet after it one cycle more than the last, however
  // late it is pushed. So the n-th packet since the buffer was last empty is due n cycles after the first, and has
  // crossed with less than the latency if it came later than that.

  import opened Interconnects

  /** The cycle in which the buffer was last pushed to while empty, and the pushes since, that one included. */
  datatype Period = Period(since: nat, count: nat)

  ghost function PeriodOf(cfg: Config, start: nat, ops: seq<Op>, src: nat): Period
    requires Played(cfg, start, ops).Ran? && src < cfg.Nodes()
  {
    if ops == [] then Period(0, 0)
    else
      var init, op := ops[..|ops| - 1], ops[|ops| - 1];
      var before, net := PeriodOf(cfg, start, init, src), Played(cfg, start, init).world.net;
      if !(op.Push? && op.src == src) then before
      else if net.ins[src] == [] then Period(net.cycles, 1)
      else before.(count := before.count + 1)
  }

  /** In every run: the packets a buffer holds are the last pushed of its period, and each is due its place in the
      period after the latency. */
  lemma {:induction false} DueByPlace(cfg: Config, start: nat, ops: seq<Op>, src: nat)
    requires Played(cfg, start, ops).Ran? && src < cfg.Nodes()
    ensures var b, p := Played(cfg, start, ops).world.net.ins[src], PeriodOf(cfg, start, ops, src);
      |b| <= p.count && forall i | 0 <= i < |b| :: b[i].finish == p.since + cfg.latency + (p.count - |b| + i)
    decreases |ops|
  {
    if ops != [] {
      var init, op := ops[..|ops| - 1], ops[|ops| - 1];
      DueByPlace(cfg, start, init, src);
      hide Winner, Cycled, Conserved, Crossing, Received;
      BufferMoves(cfg, Played(cfg, start, init).world.net, op, src);
    }
  }

  lemma BufferMoves(cfg: Config, net: Net, op: Op, src: nat)
    requires net.Shaped(cfg) && Allowed(cfg, net, op) && src < cfg.Nodes()
    ensures var b, b' := net.ins[src], Step(cfg, net, op).ins[src];
      if op.Push? && op.src == src then
        |b'| == |b| + 1 && b'[..|b|] == b
        && b'[|b|].finish == if b == [] then net.cycles + cfg.latency else b[|b| - 1].finish + 1
      else b' == b || (b != [] && b' == b[1..])
  {
  }

  /** A buffer's first packet is ready exactly from its time on. */
  lemma ReadyExactly(cfg: Config, start: nat, ops: seq<Op>, src: nat)
    requires Played(cfg, start, ops).Ran? && src < cfg.Nodes()
    requires Played(cfg, start, ops).world.net.ins[src] != []
    ensures var net, p := Played(cfg, start, ops).world.net, PeriodOf(cfg, start, ops, src);
      net.Ready(src) <==> p.since + cfg.latency + (p.count - |net.ins[src]|) <= net.cycles
  {
    DueByPlace(cfg, start, ops, src);
  }

  /** A packet leaves its buffer in a cycle, and not before its time. */
  lemma NeverEarly(cfg: Config, start: nat, ops: seq<Op>, op: Op, src: nat)
    requires Played(cfg, start, ops + [op]).Ran? && src < cfg.Nodes()
    ensures (ops + [op])[..|ops|] == ops && Played(cfg, start, ops).Ran?
    ensures var net, p := Played(cfg, start, ops).world.net, PeriodOf(cfg, start, ops, src);
      |Played(cfg, start, ops + [op]).world.net.ins[src]| < |net.ins[src]| ==>
        op == Cycle && p.since + cfg.latency + (p.count - |net.ins[src]|) <= net.cycles
  {
    assert (ops + [op])[..|ops|] == ops;
    assert (ops + [op])[|ops|] == op;
    var net := Played(cfg, start, ops).world.net;
    hide Winner;
    if net.ins[src] != [] { ReadyExactly(cfg, start, ops, src); }
  }

  /** A pushed packet gets the full latency exactly if its buffer is empty or has been pushed to at least once for every
      cycle since it last was. */
  lemma FullLatencyExactly(cfg: Config, start: nat, ops: seq<Op>, src: nat, dest: nat, a: Access)
    requires Played(cfg, start, ops).Ran? && src < cfg.Nodes() && dest < cfg.Nodes()
    ensures var net, p := Played(cfg, start, ops).world.net, PeriodOf(cfg, start, ops, src);
      var b' := Pushed(cfg, net, src, dest, a).ins[src];
      |b'| > 0
      && (b'[|b'| - 1].finish >= net.cycles + cfg.latency <==> net.ins[src] == [] || p.count >= net.cycles - p.since)
  {
    DueByPlace(cfg, start, ops, src);
  }

  lemma PlayedStep(cfg: Config, start: nat, ops: seq<Op>, op: Op)
    requires Played(cfg, start, ops).Ran? && Allowed(cfg, Played(cfg, start, ops).world.net, op)
    ensures Played(cfg, start, ops + [op]) == Ran(WorldStep(cfg, Played(cfg, start, ops).world, op))
  {
    assert (ops + [op])[..|ops|] == ops;
  }

  /** With a latency of three, a packet pushed two cycles after the first is due after two. */
  lemma SecondIsEarly(a: Access)
    ensures var cfg, ops := Config(1, 1, 3, false), [Push(0, 0, a), Cycle, Cycle, Push(0, 0, a)];
      && Played(cfg, 0, ops).Ran?
      && var net := Played(cfg, 0, ops).world.net;
         net.cycles == 2 && |net.ins[0]| == 2 && net.ins[0][1].finish == 4
  {
    var cfg, push := Config(1, 1, 3, false), Push(0, 0, a);
    assert Played(cfg, 0, []).Ran?;
    PlayedStep(cfg, 0, [], push);
    assert [] + [push] == [push];
    PlayedStep(cfg, 0, [push], Cycle);
    NotYet(cfg, Played(cfg, 0, [push]).world.net);
    assert [push] + [Cycle] == [push, Cycle];
    PlayedStep(cfg, 0, [push, Cycle], Cycle);
    NotYet(cfg, Played(cfg, 0, [push, Cycle]).world.net);
    assert [push, Cycle] + [Cycle] == [push, Cycle, Cycle];
    PlayedStep(cfg, 0, [push, Cycle, Cycle], push);
    assert [push, Cycle, Cycle] + [push] == [push, Cycle, Cycle, push];
  }

  /** A buffer whose first packet is not due is left alone. */
  lemma NotYet(cfg: Config, net: Net)
    requires net.Shaped(cfg) && cfg.Nodes() > 0 && net.ins[0] != [] && net.ins[0][0].finish > net.cycles
    ensures Cycled(cfg, net).ins[0] == net.ins[0] && Cycled(cfg, net).cycles == net.cycles + 1
  {
  }
}
