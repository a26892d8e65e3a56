/** The core as an object over its two scratchpads; every method does what the state machine's step says. */
module NeuPIMSCores {
  import opened Scratchpads
  import opened CoreModel

  lemma OtherHalf(h: nat)
    requires h < 2
    ensures (h + 1) % 2 == 1 - h
  {
  }

  class NeuPIMSCore {
    const spad: Sram
    const acc: Sram
    var objects: map<nat, Tile>
    var running: seq<nat>
    var finished: seq<nat>
    var next: nat
    var curSpad: nat
    var curAcc: nat
    var ld: seq<Job>
    var st: seq<Job>
    var ex: seq<Job>
    var units: seq<seq<Job>>
    var flying: seq<Request>

    predicate Valid()
      reads this, spad, acc
    {
      spad != acc && spad.Valid() && acc.Valid() && curSpad < 2 && curAcc < 2 && |units| > 1
    }

    function State(): (c: Core)
      reads this, spad, acc
      requires Valid()
      ensures c.Shaped()
    {
      Core(objects, running, finished, next, curSpad, curAcc, spad.State(), acc.State(), ld, st, ex, units, flying)
    }

    constructor (size: nat, vectors: nat)
      requires vectors > 0
      ensures Valid() && State() == Start(size, vectors) && fresh(spad) && fresh(acc)
    {
      spad := new Sram(size);
      acc := new Sram(size);
      objects, running, finished, next, curSpad, curAcc := map[], [], [], 0, 0, 0;
      ld, st, ex, units, flying := [], [], [], seq(vectors + 1, _ => []), [];
    }

    method CanIssueTile(accum: bool) returns (ok: bool)
      requires Valid() && forall i :: 0 <= i < |running| ==> running[i] in objects
      ensures ok == CanIssue(State(), accum)
    {
      if running == [] { return true; }
      var nextSpad, nextAcc := 1 - curSpad, 1 - curAcc;
      for i := 0 to |running|
        invariant forall k :: 0 <= k < i && objects[running[k]].spad == nextSpad ==>
          objects[running[k]].loads == 0 && objects[running[k]].computes == 0
      {
        var tile := objects[running[i]];
        if tile.spad == nextSpad && (tile.loads != 0 || tile.computes != 0) { return false; }
      }
      if !accum {
        for i := 0 to |running|
          invariant forall k :: 0 <= k < i && objects[running[k]].acc == nextAcc ==> objects[running[k]].accIo == 0
        {
          var tile := objects[running[i]];
          if tile.acc == nextAcc && tile.accIo != 0 { return false; }
        }
      }
      ok := true;
    }

    /** Switches to the other halves, flushing them, and makes the tile's object. */
    method Open(accum: bool) returns (t: nat)
      requires Valid()
      modifies this, spad, acc
      ensures Valid() && t == old(next) && State() == Opened(old(State()), accum)
    {
      hide Spad.Flushed, Sram.State;
      t := next;
      next := next + 1;
      curSpad := (curSpad + 1) % 2;
      spad.Flush(curSpad);
      if !accum {
        curAcc := (curAcc + 1) % 2;
        acc.Flush(curAcc);
      }
      OtherHalf(old(curSpad));
      OtherHalf(old(curAcc));
      objects := objects[t := Tile(curSpad, curAcc, 0, 0, 0)];
      running := running + [t];
    }

    method QueueAll(t: nat, instrs: seq<Instr>) returns (r: Outcome<()>)
      requires Valid() && HasTile(State(), t)
      modifies this
      ensures Valid()
      ensures match AllQueued(old(State()), t, instrs)
        case Ok(c) => r.Ok? && State() == c
        case Failed(why) => r == Failed(why)
    {
      hide Queued, HasTile;
      ghost var began := State();
      AllQueuedPrefix(began, t, instrs, 0);
      for i := 0 to |instrs|
        invariant Valid() && HasTile(State(), t)
        invariant AllQueued(began, t, instrs[..i]) == Ok(State())
      {
        ghost var before := State();
        assert instrs[..i + 1][..i] == instrs[..i];
        r := Queue(t, instrs[i]);
        if r.Failed? {
          AllQueuedFails(began, t, instrs, i + 1, r.why);
          return;
        }
        assert AllQueued(began, t, instrs[..i + 1]) == Ok(State());
      }
      assert instrs[..|instrs|] == instrs;
      r := Ok(());
    }

    method Issue(p: Program) returns (r: Outcome<()>)
      requires Valid()
      modifies this, spad, acc
      ensures Valid()
      ensures match Issued(old(State()), p)
        case Ok(c) => r.Ok? && State() == c
        case Failed(why) => r == Failed(why)
    {
      if p.skip {
        objects := objects[next := Tile(0, 0, 0, 0, 0)];
        finished := finished + [next];
        next := next + 1;
        return Ok(());
      }
      var t := Open(p.accum);
      r := QueueAll(t, p.instrs);
    }

    method Queue(t: nat, i: Instr) returns (r: Outcome<()>)
      requires Valid() && HasTile(State(), t)
      modifies this
      ensures Valid()
      ensures match Queued(old(State()), t, i)
        case Ok(c) => r.Ok? && State() == c
        case Failed(why) => r == Failed(why)
    {
      var tile := objects[t];
      var job := Job(i, t, tile.spad, tile.acc);
      match i.kind {
      case MovIn =>
        var buffer := if i.InAccum() then acc else spad;
        if i.dest in buffer.tables[job.Half()] { return Failed(Occupied); }
        if buffer.used[job.Half()] + i.size > buffer.size / 2 { return Failed(Full); }
        objects := objects[t := tile.(loads := tile.loads + 1)];
        ld := ld + [job];
      case MovOut =>
        objects := objects[t := tile.(accIo := tile.accIo + 1)];
        st := st + [job];
      case _ =>
        objects := objects[t := tile.(accIo := tile.accIo + 1, computes := tile.computes + 1)];
        ex := ex + [job];
      }
      r := Ok(());
    }

    /** One round of the load queue's loop; the instruction touches `n` addresses. */
    method StartLoad(n: nat) returns (r: Outcome<()>)
      requires Valid() && ld != [] && ld[0].spad < 2 && ld[0].acc < 2
      modifies this, spad, acc
      ensures Valid()
      ensures match Loaded(old(State()), n)
        case Ok(c) => r.Ok? && State() == c
        case Failed(why) => r == Failed(why)
    {
      var front := ld[0];
      var buffer := if front.instr.InAccum() then acc else spad;
      r := buffer.Reserve(front.instr.dest, front.Half(), front.instr.size, n);
      if r.Failed? { return; }
      if front.tile !in objects { return Failed(NoTile); }
      var tile := objects[front.tile];
      objects := objects[front.tile := tile.(loads := tile.loads + n - 1)];
      flying := flying + Requests(n, Request(front.tile, false, front.instr.dest, front.Half()));
      ld := ld[1..];
    }

    method StQueueCycle(n: nat) returns (r: Outcome<()>)
      requires Valid() && st != [] && st[0].spad < 2 && st[0].acc < 2
      modifies this
      ensures Valid()
      ensures match Stored(old(State()), n)
        case Ok(c) => r.Ok? && State() == c
        case Failed(why) => r == Failed(why)
    {
      var front := st[0];
      var buffer := if front.instr.InAccum() then acc else spad;
      var hit := buffer.CheckHit(front.instr.dest, front.Half());
      if hit {
        if front.tile !in objects { return Failed(NoTile); }
        var tile := objects[front.tile];
        objects := objects[front.tile := tile.(accIo := tile.accIo + n - 1)];
        flying := flying + Requests(n, Request(front.tile, true, front.instr.dest, front.Half()));
        st := st[1..];
      }
      r := Ok(());
    }

    method CanIssueCompute(j: Job) returns (ok: bool)
      requires Valid() && j.spad < 2 && j.acc < 2
      ensures ok == CanCompute(State(), j)
    {
      ok := true;
      for i := 0 to |j.instr.sources|
        invariant ok <==> forall k :: 0 <= k < i ==>
          var addr := j.instr.sources[k];
          if j.instr.fromAccum && addr >= ACCUM_BASE then acc.State().Hit(addr, j.acc)
            else spad.State().Hit(addr, j.spad)
      {
        var addr := j.instr.sources[i];
        var hit;
        if j.instr.fromAccum && addr >= ACCUM_BASE { hit := acc.CheckHit(addr, j.acc); }
        else { hit := spad.CheckHit(addr, j.spad); }
        ok := ok && hit;
      }
    }

    /** `u` is the vector pipeline chosen when the instruction is a vector one. */
    method ExQueueCycle(u: nat) returns (r: Outcome<()>)
      requires Valid() && ex != [] && ex[0].spad < 2 && ex[0].acc < 2 && 0 < u < |units|
      modifies this, acc
      ensures Valid()
      ensures match Executed(old(State()), u)
        case Ok(c) => r.Ok? && State() == c
        case Failed(why) => r == Failed(why)
    {
      var inst := ex[0];
      var ready := CanIssueCompute(inst);
      if !ready { return Ok(()); }
      ex := ex[1..];
      if inst.instr.kind.Gemm? {
        if inst.tile !in objects { return Failed(NoTile); }
        units := units[0 := units[0] + [inst]];
      } else {
        units := units[u := units[u] + [inst]];
      }
      if inst.instr.dest in acc.tables[inst.acc] { r := acc.CountUp(inst.instr.dest, inst.acc); }
      else { r := acc.Reserve(inst.instr.dest, inst.acc, inst.instr.size, 1); }
    }

    /** The systolic pipeline (0) or a vector pipeline completes its front. */
    method UnitCycle(u: nat) returns (r: Outcome<()>)
      requires Valid() && u < |units| && units[u] != [] && units[u][0].acc < 2
      modifies this, acc
      ensures Valid()
      ensures match Computed(old(State()), u)
        case Ok(c) => r.Ok? && State() == c
        case Failed(why) => r == Failed(why)
    {
      var inst := units[u][0];
      if !inst.instr.InAccum() { return Failed(BadTarget); }
      r := acc.Fill(inst.instr.dest, inst.acc);
      if r.Failed? { return; }
      if inst.tile !in objects { return Failed(NoTile); }
      var tile := objects[inst.tile];
      objects := objects[inst.tile := tile.(accIo := tile.accIo - 1, computes := tile.computes - 1)];
      units := units[u := units[u][1..]];
    }

    method PushMemoryResponse(i: nat) returns (r: Outcome<()>)
      requires Valid() && i < |flying| && flying[i].half < 2
      modifies this, spad, acc
      ensures Valid()
      ensures match Answered(old(State()), i)
        case Ok(c) => r.Ok? && State() == c
        case Failed(why) => r == Failed(why)
    {
      var response := flying[i];
      flying := flying[..i] + flying[i + 1..];
      if response.tile !in objects { return Failed(NoTile); }
      var tile := objects[response.tile];
      if response.write {
        objects := objects[response.tile := tile.(accIo := tile.accIo - 1)];
        return Ok(());
      }
      if tile.loads <= 0 { return Failed(Underflow); }
      objects := objects[response.tile := tile.(loads := tile.loads - 1)];
      if response.dest >= ACCUM_BASE { r := acc.Fill(response.dest, response.half); }
      else { r := spad.Fill(response.dest, response.half); }
    }

    /** Moves tiles without outstanding work to the finished ones. */
    method Cycle()
      requires Valid() && forall i :: 0 <= i < |running| ==> running[i] in objects
      modifies this
      ensures Valid() && State() == Collected(old(State()))
    {
      var all, still, done := running, [], [];
      for i := 0 to |all|
        invariant still == StillRunning(objects, all[..i]) && done == NowDone(objects, all[..i])
      {
        assert all[..i + 1][..i] == all[..i];
        if objects[all[i]].Done() { done := done + [all[i]]; } else { still := still + [all[i]]; }
      }
      assert all[..|all|] == all;
      running := still;
      finished := finished + done;
    }

    method PopFinishedTile() returns (t: nat)
      requires Valid() && finished != []
      modifies this
      ensures Valid() && t == old(finished)[0] && State() == HandedBack(old(State()))
    {
      t := finished[0];
      finished := finished[1..];
      objects := map x | x in objects && x != t :: objects[x];
    }
  }

  lemma AllQueuedPrefix(c: Core, t: nat, instrs: seq<Instr>, i: nat)
    requires HasTile(c, t) && i == 0
    ensures AllQueued(c, t, instrs[..i]) == Ok(c)
  {
  }

  /** A refused instruction refuses the tile. */
  lemma {:induction false} AllQueuedFails(c: Core, t: nat, instrs: seq<Instr>, i: nat, why: Fault)
    requires HasTile(c, t) && i <= |instrs| && AllQueued(c, t, instrs[..i]) == Failed(why)
    ensures AllQueued(c, t, instrs) == Failed(why)
    decreases |instrs| - i
  {
    if i == |instrs| { assert instrs[..i] == instrs; } else {
      assert instrs[..i + 1][..i] == instrs[..i];
      AllQueuedFails(c, t, instrs, i + 1, why);
    }
  }
}
