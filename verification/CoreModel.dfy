/** A core's systolic side as a state machine: tiles issued into alternating scratchpad halves, their loads, stores and
    computations in any timing. */
module CoreModel {
  import opened Scratchpads

  /** Addresses from here on are in the accumulation scratchpad. */
  const ACCUM_BASE: nat := 0x2000_0000

  datatype Kind = MovIn | MovOut | Gemm | VectorOp

  datatype Instr = Instr(kind: Kind, dest: nat, size: nat, sources: seq<nat>, fromAccum: bool) {
    predicate InAccum() { dest >= ACCUM_BASE }
  }

  /** A tile of a program as it is handed to the core. */
  datatype Program = Program(instrs: seq<Instr>, accum: bool, skip: bool)

  /** A tile object with its counters of outstanding work. */
  datatype Tile = Tile(spad: nat, acc: nat, loads: int, computes: int, accIo: int) {
    predicate Done() { loads == 0 && computes == 0 && accIo == 0 }
  }

  /** An instruction with its tile and the halves it works in. */
  datatype Job = Job(instr: Instr, tile: nat, spad: nat, acc: nat) {
    function Half(): nat { if instr.InAccum() then acc else spad }
  }

  /** A memory request on its way, until its response arrives. */
  datatype Request = Request(tile: nat, write: bool, dest: nat, half: nat)

  /** `units[0]` is the systolic pipeline, the others the vector pipelines. Tile objects live in `objects`; `running`
      and `finished` are the core's queues of them. */
  datatype Core = Core(
    objects: map<nat, Tile>, running: seq<nat>, finished: seq<nat>, next: nat, curSpad: nat, curAcc: nat,
    spad: Spad, acc: Spad, ld: seq<Job>, st: seq<Job>, ex: seq<Job>, units: seq<seq<Job>>, flying: seq<Request>)
  {
    predicate Shaped() {
      spad.Valid() && acc.Valid() && curSpad < 2 && curAcc < 2 && |units| > 1
    }

    predicate Lives(tile: nat) { tile in objects }
  }

  function Start(size: nat, vectors: nat): Core
    requires vectors > 0
  {
    Core(map[], [], [], 0, 0, 0, Empty(size), Empty(size), [], [], [], seq(vectors + 1, _ => []), [])
  }

  // ---- issuing ----

  /** The other halves must have no loads or computations left, and for a tile that begins an accumulation no work on
      the accumulation half. */
  predicate CanIssue(c: Core, accum: bool)
    requires c.Shaped() && forall i :: 0 <= i < |c.running| ==> c.running[i] in c.objects
  {
    && (forall i :: 0 <= i < |c.running| && c.objects[c.running[i]].spad == 1 - c.curSpad ==>
          c.objects[c.running[i]].loads == 0 && c.objects[c.running[i]].computes == 0)
    && (accum || forall i :: 0 <= i < |c.running| && c.objects[c.running[i]].acc == 1 - c.curAcc ==>
          c.objects[c.running[i]].accIo == 0)
  }

  /** The halves flushed and the tile object made, before its instructions are queued. */
  function Opened(c: Core, accum: bool): Core
    requires c.Shaped()
  {
    var h, a := 1 - c.curSpad, if accum then c.curAcc else 1 - c.curAcc;
    c.(curSpad := h, curAcc := a, spad := c.spad.Flushed(h), acc := if accum then c.acc else c.acc.Flushed(a),
       objects := c.objects[c.next := Tile(h, a, 0, 0, 0)], running := c.running + [c.next], next := c.next + 1)
  }

  function Queued(c: Core, t: nat, i: Instr): Outcome<Core>
    requires c.Shaped() && c.Lives(t) && c.objects[t].spad < 2 && c.objects[t].acc < 2
  {
    var o := c.objects[t];
    var job := Job(i, t, o.spad, o.acc);
    match i.kind
    case MovIn =>
      var buffer := if i.InAccum() then c.acc else c.spad;
      if buffer.Allocated(i.dest, job.Half()) then Failed(Occupied)
      else if !buffer.HasRoom(i.size, job.Half()) then Failed(Full)
      else Ok(c.(objects := c.objects[t := o.(loads := o.loads + 1)], ld := c.ld + [job]))
    case MovOut => Ok(c.(objects := c.objects[t := o.(accIo := o.accIo + 1)], st := c.st + [job]))
    case _ =>
      Ok(c.(objects := c.objects[t := o.(accIo := o.accIo + 1, computes := o.computes + 1)], ex := c.ex + [job]))
  }

  ghost predicate HasTile(c: Core, t: nat) {
    c.Shaped() && c.Lives(t) && c.objects[t].spad < 2 && c.objects[t].acc < 2
  }

  function AllQueued(c: Core, t: nat, instrs: seq<Instr>): (r: Outcome<Core>)
    requires HasTile(c, t)
    ensures r.Ok? ==> HasTile(r.value, t)
    decreases |instrs|
  {
    if instrs == [] then Ok(c)
    else
      match AllQueued(c, t, instrs[..|instrs| - 1])
      case Failed(why) => Failed(why)
      case Ok(d) => Queued(d, t, instrs[|instrs| - 1])
  }

  function Issued(c: Core, p: Program): Outcome<Core>
    requires c.Shaped()
  {
    if p.skip then
      Ok(c.(objects := c.objects[c.next := Tile(0, 0, 0, 0, 0)], finished := c.finished + [c.next], next := c.next + 1))
    else AllQueued(Opened(c, p.accum), c.next, p.instrs)
  }

  // ---- work ----

  function Requests(n: nat, r: Request): seq<Request> { seq(n, _ => r) }

  /** The first load of the queue becomes `n` memory requests. */
  function Loaded(c: Core, n: nat): Outcome<Core>
    requires c.Shaped() && c.ld != [] && c.ld[0].spad < 2 && c.ld[0].acc < 2
  {
    var j := c.ld[0];
    match (if j.instr.InAccum() then c.acc else c.spad).Reserved(j.instr.dest, j.Half(), j.instr.size, n)
    case Failed(why) => Failed(why)
    case Ok(buffer) =>
      if !c.Lives(j.tile) then Failed(NoTile)
      else
        var o := c.objects[j.tile];
        var d := if j.instr.InAccum() then c.(acc := buffer) else c.(spad := buffer);
        Ok(d.(objects := c.objects[j.tile := o.(loads := o.loads + n - 1)], ld := c.ld[1..],
              flying := c.flying + Requests(n, Request(j.tile, false, j.instr.dest, j.Half()))))
  }

  /** The first store of the queue, once its data is there, becomes `n` memory requests. */
  function Stored(c: Core, n: nat): Outcome<Core>
    requires c.Shaped() && c.st != [] && c.st[0].spad < 2 && c.st[0].acc < 2
  {
    var j := c.st[0];
    if !(if j.instr.InAccum() then c.acc else c.spad).Hit(j.instr.dest, j.Half()) then Ok(c)
    else if !c.Lives(j.tile) then Failed(NoTile)
    else
      var o := c.objects[j.tile];
      Ok(c.(objects := c.objects[j.tile := o.(accIo := o.accIo + n - 1)], st := c.st[1..],
            flying := c.flying + Requests(n, Request(j.tile, true, j.instr.dest, j.Half()))))
  }

  /** All operands are loaded. */
  predicate CanCompute(c: Core, j: Job)
    requires c.Shaped() && j.spad < 2 && j.acc < 2
  {
    forall i :: 0 <= i < |j.instr.sources| ==>
      var addr := j.instr.sources[i];
      if j.instr.fromAccum && addr >= ACCUM_BASE then c.acc.Hit(addr, j.acc) else c.spad.Hit(addr, j.spad)
  }

  /** The first computation of the queue, once it can run, enters the systolic pipeline or vector pipeline `u`, and the
      accumulation scratchpad waits for it. */
  function Executed(c: Core, u: nat): Outcome<Core>
    requires c.Shaped() && c.ex != [] && c.ex[0].spad < 2 && c.ex[0].acc < 2 && 0 < u < |c.units|
  {
    var j := c.ex[0];
    var unit := if j.instr.kind.Gemm? then 0 else u;
    if !CanCompute(c, j) then Ok(c)
    else if j.instr.kind.Gemm? && !c.Lives(j.tile) then Failed(NoTile)
    else
      match if c.acc.Allocated(j.instr.dest, j.acc) then c.acc.CountedUp(j.instr.dest, j.acc)
            else c.acc.Reserved(j.instr.dest, j.acc, j.instr.size, 1)
      case Failed(why) => Failed(why)
      case Ok(acc) => Ok(c.(acc := acc, ex := c.ex[1..], units := c.units[unit := c.units[unit] + [j]]))
  }

  /** The first computation of a pipeline is done. */
  function Computed(c: Core, u: nat): Outcome<Core>
    requires c.Shaped() && u < |c.units| && c.units[u] != [] && c.units[u][0].acc < 2
  {
    var j := c.units[u][0];
    if !j.instr.InAccum() then Failed(BadTarget)
    else
      match c.acc.Filled(j.instr.dest, j.acc)
      case Failed(why) => Failed(why)
      case Ok(acc) =>
        if !c.Lives(j.tile) then Failed(NoTile)
        else
          var o := c.objects[j.tile];
          Ok(c.(acc := acc, units := c.units[u := c.units[u][1..]],
                objects := c.objects[j.tile := o.(accIo := o.accIo - 1, computes := o.computes - 1)]))
  }

  /** The response to the `i`-th request arrives. */
  function Answered(c: Core, i: nat): Outcome<Core>
    requires c.Shaped() && i < |c.flying| && c.flying[i].half < 2
  {
    var r := c.flying[i];
    var rest := c.flying[..i] + c.flying[i + 1..];
    if !c.Lives(r.tile) then Failed(NoTile)
    else
      var o := c.objects[r.tile];
      if r.write then Ok(c.(flying := rest, objects := c.objects[r.tile := o.(accIo := o.accIo - 1)]))
      else if o.loads <= 0 then Failed(Underflow)
      else
        var d := c.(flying := rest, objects := c.objects[r.tile := o.(loads := o.loads - 1)]);
        match (if r.dest >= ACCUM_BASE then c.acc else c.spad).Filled(r.dest, r.half)
        case Failed(why) => Failed(why)
        case Ok(buffer) => Ok(if r.dest >= ACCUM_BASE then d.(acc := buffer) else d.(spad := buffer))
  }

  /** Tiles without outstanding work move, in order, from the running to the finished. */
  function StillRunning(objects: map<nat, Tile>, ids: seq<nat>): seq<nat>
    requires forall i :: 0 <= i < |ids| ==> ids[i] in objects
  {
    if ids == [] then []
    else StillRunning(objects, ids[..|ids| - 1]) + if objects[ids[|ids| - 1]].Done() then [] else [ids[|ids| - 1]]
  }

  function NowDone(objects: map<nat, Tile>, ids: seq<nat>): seq<nat>
    requires forall i :: 0 <= i < |ids| ==> ids[i] in objects
  {
    if ids == [] then []
    else NowDone(objects, ids[..|ids| - 1]) + if objects[ids[|ids| - 1]].Done() then [ids[|ids| - 1]] else []
  }

  function Collected(c: Core): Core
    requires forall i :: 0 <= i < |c.running| ==> c.running[i] in c.objects
  {
    c.(running := StillRunning(c.objects, c.running), finished := c.finished + NowDone(c.objects, c.running))
  }

  /** The first finished tile is handed back, and its object is gone. */
  function HandedBack(c: Core): Core
    requires c.finished != []
  {
    c.(finished := c.finished[1..], objects := map t | t in c.objects && t != c.finished[0] :: c.objects[t])
  }
}
