/** A tile whose scratchpad loads fit half the scratchpad is never refused one. */
module CoreRoom {
  // Loads are checked when a tile is queued and allocated when they start, with other tiles in between. In runs of
  // tiles that fit, past the gate, both succeed for every load into the scratchpad.

  import opened Scratchpads
  import opened CoreModel
  import opened CoreSafety
  import CoreWork

  predicate IntoSpad(i: Instr) { i.kind.MovIn? && !i.InAccum() }

  function BytesOf(instrs: seq<Instr>): nat {
    if instrs == [] then 0
    else BytesOf(instrs[..|instrs| - 1]) + if IntoSpad(instrs[|instrs| - 1]) then instrs[|instrs| - 1].size else 0
  }

  /** The scratchpad loads of a program have different addresses and fit one half. */
  ghost predicate Fitting(size: nat, instrs: seq<Instr>) {
    && BytesOf(instrs) <= size / 2
    && forall i, k | 0 <= i < k < |instrs| && IntoSpad(instrs[i]) && IntoSpad(instrs[k]) ::
      instrs[i].dest != instrs[k].dest
  }

  predicate LoadsInto(j: Job, h: nat) { !j.instr.InAccum() && j.spad == h }

  function QueuedBytes(ld: seq<Job>, h: nat): nat {
    if ld == [] then 0
    else QueuedBytes(ld[..|ld| - 1], h) + if LoadsInto(ld[|ld| - 1], h) then ld[|ld| - 1].instr.size else 0
  }

  /** The half has room for every load still queued for it, at an address of its own. */
  ghost predicate HalfHasRoom(c: Core, h: nat)
    requires c.spad.Valid() && h < 2
  {
    && c.spad.halves[h].used + QueuedBytes(c.ld, h) <= c.spad.size / 2
    && (forall i | 0 <= i < |c.ld| && LoadsInto(c.ld[i], h) :: c.ld[i].instr.dest !in c.spad.halves[h].table)
    && (forall i, k | 0 <= i < k < |c.ld| && LoadsInto(c.ld[i], h) && LoadsInto(c.ld[k], h) ::
          c.ld[i].instr.dest != c.ld[k].instr.dest)
  }

  ghost predicate RoomForAll(c: Core)
    requires c.spad.Valid()
  {
    HalfHasRoom(c, 0) && HalfHasRoom(c, 1)
  }

  lemma {:induction false} TailBytes(ld: seq<Job>, h: nat)
    requires ld != []
    ensures QueuedBytes(ld, h) == QueuedBytes(ld[1..], h) + if LoadsInto(ld[0], h) then ld[0].instr.size else 0
  {
    if |ld| > 1 {
      TailBytes(ld[..|ld| - 1], h);
      assert ld[..|ld| - 1][1..] == ld[1..][..|ld| - 2];
    } else {
      assert ld[1..] == [] && ld[..0] == [];
    }
  }

  lemma {:induction false} NoBytes(ld: seq<Job>, h: nat)
    requires forall i | 0 <= i < |ld| :: !LoadsInto(ld[i], h)
    ensures QueuedBytes(ld, h) == 0
  {
    if ld != [] { NoBytes(ld[..|ld| - 1], h); }
  }

  // ---- issuing ----

  /** An issue begins with an empty scratchpad half, and with an empty accumulation half unless it goes on accumulating;
      the other halves keep what they hold. */
  lemma IssueBeginsEmpty(c: Core, accum: bool)
    requires c.Shaped()
    ensures var d := Opened(c, accum);
      && d.Shaped() && d.curSpad == 1 - c.curSpad && d.curAcc == (if accum then c.curAcc else 1 - c.curAcc)
      && d.spad.halves[d.curSpad] == Half(map[], 0) && d.spad.halves[c.curSpad] == c.spad.halves[c.curSpad]
      && d.acc.halves[d.curAcc] == (if accum then c.acc.halves[c.curAcc] else Half(map[], 0))
      && (!accum ==> d.acc.halves[c.curAcc] == c.acc.halves[c.curAcc])
  {
  }

  lemma GateMeansCurrentLoads(c: Core, accum: bool)
    requires Inv(c) && CanIssue(c, accum)
    ensures forall i | 0 <= i < |c.ld| :: c.ld[i].spad == c.curSpad
  {
    CoreWork.GateOpensExactly(c, accum);
    forall i | 0 <= i < |c.ld| ensures c.ld[i].spad == c.curSpad {
      assert JobFits(c, c.ld[i]);
      var k :| 0 <= k < |c.running| && c.running[k] == c.ld[i].tile;
      assert CoreWork.Reading(c, c.running[k]);
      assert !CoreWork.Blocks(c, accum, c.running[k]);
    }
  }

  /** What has been queued of a tile: its half is still empty, and its loads are among those queued. */
  ghost predicate Queueing(c: Core, t: nat, instrs: seq<Instr>) {
    && HasTile(c, t) && RoomForAll(c)
    && var h := c.objects[t].spad;
    && c.spad.halves[h] == Half(map[], 0) && QueuedBytes(c.ld, h) == BytesOf(instrs)
    && forall i | 0 <= i < |c.ld| && LoadsInto(c.ld[i], h) ::
         exists k | 0 <= k < |instrs| :: IntoSpad(instrs[k]) && instrs[k].dest == c.ld[i].instr.dest
  }

  lemma OpenedIsQueueing(c: Core, accum: bool)
    requires Inv(c) && CanIssue(c, accum) && RoomForAll(c)
    ensures Queueing(Opened(c, accum), c.next, [])
  {
    GateMeansCurrentLoads(c, accum);
    IssueBeginsEmpty(c, accum);
    hide Inv, CanIssue;
    var d := Opened(c, accum);
    NoBytes(d.ld, d.curSpad);
    assert HalfHasRoom(d, d.curSpad);
    assert HalfHasRoom(d, c.curSpad) by { assert HalfHasRoom(c, c.curSpad); }
  }

  /** One more instruction: a load into the scratchpad is not refused. */
  lemma QueuedHasRoom(c: Core, t: nat, instrs: seq<Instr>, x: Instr, size: nat)
    requires Queueing(c, t, instrs) && c.spad.size == size && Fitting(size, instrs + [x])
    ensures IntoSpad(x) ==> Queued(c, t, x).Ok?
    ensures Queued(c, t, x).Ok? ==>
      Queueing(Queued(c, t, x).value, t, instrs + [x]) && Queued(c, t, x).value.spad == c.spad
  {
    var all, h := instrs + [x], c.objects[t].spad;
    assert all[..|instrs|] == instrs;
    if IntoSpad(x) {
      forall i | 0 <= i < |c.ld| && LoadsInto(c.ld[i], h) ensures c.ld[i].instr.dest != x.dest {
        var k :| 0 <= k < |instrs| && IntoSpad(instrs[k]) && instrs[k].dest == c.ld[i].instr.dest;
        assert all[k] == instrs[k] && all[|instrs|] == x;
      }
    }
    if Queued(c, t, x).Ok? { QueuedIsQueueing(c, t, instrs, x, size); }
  }

  lemma QueuedIsQueueing(c: Core, t: nat, instrs: seq<Instr>, x: Instr, size: nat)
    requires Queueing(c, t, instrs) && c.spad.size == size && BytesOf(instrs + [x]) <= size / 2
    requires Queued(c, t, x).Ok?
    requires IntoSpad(x) ==>
      forall i | 0 <= i < |c.ld| && LoadsInto(c.ld[i], c.objects[t].spad) :: c.ld[i].instr.dest != x.dest
    ensures Queueing(Queued(c, t, x).value, t, instrs + [x]) && Queued(c, t, x).value.spad == c.spad
  {
    var d, all, h := Queued(c, t, x).value, instrs + [x], c.objects[t].spad;
    assert all[..|instrs|] == instrs;
    if x.kind.MovIn? {
      assert d.ld[..|c.ld|] == c.ld;
      forall g: nat | g < 2 ensures HalfHasRoom(d, g) { assert HalfHasRoom(c, g); }
    }
    forall i | 0 <= i < |d.ld| && LoadsInto(d.ld[i], h)
      ensures exists k | 0 <= k < |all| :: IntoSpad(all[k]) && all[k].dest == d.ld[i].instr.dest
    {
      if i < |c.ld| {
        var k :| 0 <= k < |instrs| && IntoSpad(instrs[k]) && instrs[k].dest == c.ld[i].instr.dest;
        assert all[k] == instrs[k];
      } else {
        assert all[|instrs|] == x;
      }
    }
  }

  lemma FittingPrefix(size: nat, instrs: seq<Instr>)
    requires instrs != [] && Fitting(size, instrs)
    ensures Fitting(size, instrs[..|instrs| - 1])
  {
  }

  lemma {:induction false} AllQueuedHaveRoom(c: Core, t: nat, instrs: seq<Instr>)
    requires Queueing(c, t, []) && Fitting(c.spad.size, instrs)
    ensures HasTile(c, t)
    ensures (forall i | 0 <= i < |instrs| && instrs[i].kind.MovIn? :: IntoSpad(instrs[i])) ==>
      AllQueued(c, t, instrs).Ok?
    ensures AllQueued(c, t, instrs).Ok? ==>
      Queueing(AllQueued(c, t, instrs).value, t, instrs) && AllQueued(c, t, instrs).value.spad == c.spad
    decreases |instrs|
  {
    if instrs != [] {
      var init, last := instrs[..|instrs| - 1], instrs[|instrs| - 1];
      FittingPrefix(c.spad.size, instrs);
      AllQueuedHaveRoom(c, t, init);
      assert init + [last] == instrs;
      if AllQueued(c, t, init).Ok? {
        hide Queueing, Fitting;
        QueuedHasRoom(AllQueued(c, t, init).value, t, init, last, c.spad.size);
      }
    }
  }

  /** A tile that fits is queued whole, unless it loads into the accumulation scratchpad; and there is still room
      for every load queued. */
  lemma IssueHasRoom(c: Core, p: Program)
    requires Inv(c) && CanIssue(c, p.accum) && RoomForAll(c) && Fitting(c.spad.size, p.instrs)
    ensures (forall i | 0 <= i < |p.instrs| && p.instrs[i].kind.MovIn? :: IntoSpad(p.instrs[i])) ==> Issued(c, p).Ok?
    ensures Issued(c, p).Ok? ==>
      var d := Issued(c, p).value; d.spad.Valid() && RoomForAll(d) && d.spad.size == c.spad.size
  {
    if !p.skip {
      OpenedIsQueueing(c, p.accum);
      AllQueuedHaveRoom(Opened(c, p.accum), c.next, p.instrs);
      hide Inv, Queued, AllQueued;
    }
  }

  // ---- loading ----

  /** A load into the scratchpad starts. */
  lemma LoadHasRoom(c: Core, n: nat)
    requires Inv(c) && c.ld != [] && n > 0 && RoomForAll(c)
    ensures c.ld[0].spad < 2 && c.ld[0].acc < 2
    ensures !c.ld[0].instr.InAccum() ==> Loaded(c, n).Ok?
    ensures Loaded(c, n).Ok? ==>
      var d := Loaded(c, n).value; d.spad.Valid() && RoomForAll(d) && d.spad.size == c.spad.size
  {
    assert JobFits(c, c.ld[0]);
    hide Inv;
    assert HalfHasRoom(c, c.ld[0].spad);
    TailBytes(c.ld, c.ld[0].spad);
    if Loaded(c, n).Ok? {
      forall h: nat | h < 2 ensures HalfHasRoom(Loaded(c, n).value, h) { LoadedHalf(c, n, h); }
    }
  }

  lemma LoadedHalf(c: Core, n: nat, h: nat)
    requires c.Shaped() && c.ld != [] && c.ld[0].spad < 2 && c.ld[0].acc < 2 && Loaded(c, n).Ok?
    requires h < 2 && HalfHasRoom(c, h)
    ensures Loaded(c, n).value.spad.Valid() && HalfHasRoom(Loaded(c, n).value, h)
  {
    TailBytes(c.ld, h);
    hide QueuedBytes, Requests;
  }

  // ---- the other steps ----

  /** The same loads are queued, and no half of the scratchpad has taken or given room. */
  ghost predicate SameRoom(c: Core, d: Core) {
    && c.spad.Valid() && d.spad.Valid() && d.ld == c.ld && d.spad.size == c.spad.size
    && forall h | 0 <= h < 2 ::
         d.spad.halves[h].used == c.spad.halves[h].used && d.spad.halves[h].table.Keys == c.spad.halves[h].table.Keys
  }

  lemma SameRoomIsRoom(c: Core, d: Core)
    requires SameRoom(c, d) && RoomForAll(c)
    ensures RoomForAll(d)
  {
  }

  lemma FilledKeepsRoom(s: Spad, addr: nat, h: nat)
    requires s.Valid() && h < 2 && s.Filled(addr, h).Ok?
    ensures var r := s.Filled(addr, h).value;
      && r.Valid() && r.size == s.size
      && forall g | 0 <= g < 2 ::
           r.halves[g].used == s.halves[g].used && r.halves[g].table.Keys == s.halves[g].table.Keys
  {
  }

  lemma OtherStepsKeepRoom(c: Core, s: Step)
    requires Inv(c) && Allowed(c, s) && !s.Issue? && !s.Load? && c.spad.Valid() && Do(c, s).Ok?
    ensures SameRoom(c, Do(c, s).value)
  {
    hide Inv, Spad.Filled, Spad.Reserved, Spad.CountedUp, Spad.Hit, CanCompute, StillRunning, NowDone, Issued, Loaded;
    if s.Respond? { ResponseKeepsRoom(c, s.which); }
  }

  lemma ResponseKeepsRoom(c: Core, i: nat)
    requires Inv(c) && i < |c.flying| && c.spad.Valid()
    ensures c.Shaped() && c.flying[i].half < 2 && Answered(c, i).Ok?
    ensures SameRoom(c, Answered(c, i).value)
  {
    hide Inv, Spad.Filled;
    ShapedInv(c);
    AnsweredKeepsInv(c, i);
    var r := c.flying[i];
    if !r.write && r.dest < ACCUM_BASE { FilledKeepsRoom(c.spad, r.dest, r.half); }
  }

  // ---- runs ----

  ghost predicate AllFit(size: nat, steps: seq<Step>) {
    forall i | 0 <= i < |steps| && steps[i].Issue? :: Fitting(size, steps[i].program.instrs)
  }

  lemma StepKeepsRoom(c: Core, s: Step)
    requires Inv(c) && Allowed(c, s) && c.spad.Valid() && RoomForAll(c)
    requires s.Issue? ==> Fitting(c.spad.size, s.program.instrs)
    ensures Do(c, s).Ok? ==>
      Do(c, s).value.spad.Valid() && RoomForAll(Do(c, s).value) && Do(c, s).value.spad.size == c.spad.size
  {
    hide Inv, RoomForAll, Fitting, SameRoom;
    if s.Issue? {
      IssueHasRoom(c, s.program);
    } else if s.Load? {
      LoadHasRoom(c, s.count);
    } else if Do(c, s).Ok? {
      OtherStepsKeepRoom(c, s);
      hide Do;
      SameRoomIsRoom(c, Do(c, s).value);
      SameSize(c, Do(c, s).value);
    }
  }

  lemma SameSize(c: Core, d: Core)
    requires SameRoom(c, d)
    ensures d.spad.Valid() && d.spad.size == c.spad.size
  {
  }

  lemma {:induction false} RunKeepsRoom(c: Core, steps: seq<Step>)
    requires Inv(c) && Legal(c, steps) && c.spad.Valid() && RoomForAll(c) && AllFit(c.spad.size, steps)
    ensures After(c, steps).Ok? ==>
      var d := After(c, steps).value; d.spad.Valid() && RoomForAll(d) && d.spad.size == c.spad.size
    decreases |steps|
  {
    hide Inv, RoomForAll, Do, Allowed, Fitting;
    if steps != [] {
      StepKeepsRoom(c, steps[0]);
      if Do(c, steps[0]).Ok? {
        assert forall i | 0 <= i < |steps[1..]| :: steps[1..][i] == steps[i + 1];
        RunKeepsRoom(Do(c, steps[0]).value, steps[1..]);
      }
    }
  }

  lemma StartHasRoom(size: nat, vectors: nat)
    requires vectors > 0
    ensures var c := Started(size, vectors); c.spad.Valid() && RoomForAll(c) && c.spad.size == size
  {
  }

  /** After any gated run of tiles whose scratchpad loads fit: the next load into the scratchpad starts, and the
      next tile that fits is queued whole, if it loads nothing into the accumulation scratchpad. */
  lemma NoScratchpadLoadIsRefused(size: nat, vectors: nat, steps: seq<Step>)
    requires vectors > 0 && Legal(Started(size, vectors), steps) && AllFit(size, steps)
    ensures After(Started(size, vectors), steps).Ok? ==>
      var c := After(Started(size, vectors), steps).value;
      && (forall n: nat | n > 0 && c.ld != [] && !c.ld[0].instr.InAccum() :: Do(c, Load(n)).Ok?)
      && (forall p: Program | Allowed(c, Issue(p)) && Fitting(size, p.instrs)
            && (forall i | 0 <= i < |p.instrs| && p.instrs[i].kind.MovIn? :: IntoSpad(p.instrs[i])) ::
            Do(c, Issue(p)).Ok?)
  {
    StartHasRoom(size, vectors);
    RunKeepsRoom(Started(size, vectors), steps);
    hide Started, Legal, After, Inv, RoomForAll, Fitting, CanIssue;
    if After(Started(size, vectors), steps).Ok? {
      var c := After(Started(size, vectors), steps).value;
      forall n: nat | n > 0 && c.ld != [] && !c.ld[0].instr.InAccum() ensures Do(c, Load(n)).Ok? { LoadHasRoom(c, n); }
      forall p: Program | Allowed(c, Issue(p)) && Fitting(size, p.instrs)
        && (forall i | 0 <= i < |p.instrs| && p.instrs[i].kind.MovIn? :: IntoSpad(p.instrs[i]))
        ensures Do(c, Issue(p)).Ok?
      {
        IssueHasRoom(c, p);
      }
    }
  }
}
