/** The busy/idle ledger: outstanding loads and stores, and for loads, stores and either of them the busy and idle
    time, its histograms and the event list, all kept online at each change. */
module Ledger {
  datatype RunStage = A | B | C | D | E | F | Finished

  datatype MemOp = Load | Store | LoadOrStore

  datatype EventType = MemEventStart(op: MemOp) | MemEventEnd(op: MemOp) | StageStart | StageEnd

  datatype Event = Event(cycle: nat, stage: RunStage, event: EventType)

  /** The state and the cycle it began. */
  datatype MemStatus = Idle(since: nat) | Busy(since: nat)

  datatype HistoEntry = HistoEntry(count: nat, stages: seq<RunStage>)

  type Histogram = map<nat, HistoEntry>

  function Recorded(h: Histogram, duration: nat, stage: RunStage): Histogram {
    h[duration := if duration in h then HistoEntry(h[duration].count + 1, h[duration].stages + [stage])
                  else HistoEntry(1, [stage])]
  }

  /** One of the three ledgers. */
  datatype Track = Track(status: MemStatus, busy: nat, idle: nat, busyHisto: Histogram, idleHisto: Histogram) {
    /** Idle to busy; an idle time of zero is not recorded. */
    function Start(cycle: nat, stage: RunStage): Track
      requires status.Idle? && status.since <= cycle
    {
      var d := cycle - status.since;
      this.(status := Busy(cycle), idle := idle + d,
            idleHisto := if d != 0 then Recorded(idleHisto, d, stage) else idleHisto)
    }

    /** Busy to idle; a busy time of zero is recorded. */
    function Stop(cycle: nat, stage: RunStage): Track
      requires status.Busy? && status.since <= cycle
    {
      var d := cycle - status.since;
      this.(status := Idle(cycle), busy := busy + d, busyHisto := Recorded(busyHisto, d, stage))
    }
  }

  const FRESH := Track(Idle(0), 0, 0, map[], map[])

  datatype Counts = Counts(
    loads: nat, stores: nat, allLoads: nat, allStores: nat, stage: RunStage,
    loadTrack: Track, storeTrack: Track, bothTrack: Track, events: seq<Event>)
  {
    predicate Before(cycle: nat) {
      loadTrack.status.since <= cycle && storeTrack.status.since <= cycle && bothTrack.status.since <= cycle
    }

    function Logged(cycle: nat, event: EventType): Counts {
      this.(events := events + [Event(cycle, stage, event)])
    }
  }

  const START := Counts(0, 0, 0, 0, A, FRESH, FRESH, FRESH, [])

  function BothStarted(c: Counts, cycle: nat): Counts
    requires c.Before(cycle)
  {
    if c.bothTrack.status.Idle?
    then c.(bothTrack := c.bothTrack.Start(cycle, c.stage)).Logged(cycle, MemEventStart(LoadOrStore))
    else c
  }

  function LoadsAdded(c: Counts, n: nat, cycle: nat): Counts
    requires c.Before(cycle)
  {
    var c1 := c.(loads := c.loads + n, allLoads := c.allLoads + n);
    if c1.loads == n && c1.loadTrack.status.Idle? then
      BothStarted(c1.(loadTrack := c1.loadTrack.Start(cycle, c1.stage)).Logged(cycle, MemEventStart(Load)), cycle)
    else c1
  }

  function StoresAdded(c: Counts, n: nat, cycle: nat): Counts
    requires c.Before(cycle)
  {
    var c1 := c.(stores := c.stores + n, allStores := c.allStores + n);
    if c1.stores == n && c1.storeTrack.status.Idle? then
      BothStarted(c1.(storeTrack := c1.storeTrack.Start(cycle, c1.stage)).Logged(cycle, MemEventStart(Store)), cycle)
    else c1
  }

  /** The combined ledger stops only when the other side is idle too. */
  function BothStopped(c: Counts, other: Track, cycle: nat): Counts
    requires c.Before(cycle)
  {
    if c.bothTrack.status.Busy? && other.status.Idle?
    then c.(bothTrack := c.bothTrack.Stop(cycle, c.stage)).Logged(cycle, MemEventEnd(LoadOrStore))
    else c
  }

  /** Reducing below zero is refused and changes nothing. */
  function LoadsReduced(c: Counts, n: nat, cycle: nat): Counts
    requires c.Before(cycle)
  {
    if c.loads < n then c
    else
      var c1 := c.(loads := c.loads - n);
      if c1.loads == 0 && c1.loadTrack.status.Busy? then
        var c2 := c1.(loadTrack := c1.loadTrack.Stop(cycle, c1.stage)).Logged(cycle, MemEventEnd(Load));
        BothStopped(c2, c2.storeTrack, cycle)
      else c1
  }

  function StoresReduced(c: Counts, n: nat, cycle: nat): Counts
    requires c.Before(cycle)
  {
    if c.stores < n then c
    else
      var c1 := c.(stores := c.stores - n);
      if c1.stores == 0 && c1.storeTrack.status.Busy? then
        var c2 := c1.(storeTrack := c1.storeTrack.Stop(cycle, c1.stage)).Logged(cycle, MemEventEnd(Store));
        BothStopped(c2, c2.loadTrack, cycle)
      else c1
  }

  // ---- runs ----

  datatype Op =
    | AddL(amount: nat, cycle: nat) | AddS(amount: nat, cycle: nat)
    | ReduceL(amount: nat, cycle: nat) | ReduceS(amount: nat, cycle: nat)
    | UpdateStage(next: RunStage, cycle: nat)

  function Perform(c: Counts, op: Op): Counts
    requires c.Before(op.cycle)
  {
    match op
    case AddL(n, cycle) => LoadsAdded(c, n, cycle)
    case AddS(n, cycle) => StoresAdded(c, n, cycle)
    case ReduceL(n, cycle) => LoadsReduced(c, n, cycle)
    case ReduceS(n, cycle) => StoresReduced(c, n, cycle)
    case UpdateStage(next, cycle) => c.(events := c.events + [Event(cycle, next, StageStart)], stage := next)
  }

  function LastCycle(ops: seq<Op>): nat {
    if ops == [] then 0 else ops[|ops| - 1].cycle
  }

  /** Cycles never go back. */
  predicate Forward(ops: seq<Op>) {
    ops == [] || (Forward(ops[..|ops| - 1]) && LastCycle(ops[..|ops| - 1]) <= ops[|ops| - 1].cycle)
  }

  // ---- the reference: what is outstanding at each cycle ----

  /** Loads (or stores) outstanding once all operations of cycle `t` and before have happened. */
  function Outstanding(ops: seq<Op>, side: MemOp, t: int): nat
    requires side != LoadOrStore
  {
    if ops == [] then 0
    else
      var before, last := Outstanding(ops[..|ops| - 1], side, t), ops[|ops| - 1];
      if last.cycle > t then before
      else if (side == Load && last.AddL?) || (side == Store && last.AddS?) then before + last.amount
      else if ((side == Load && last.ReduceL?) || (side == Store && last.ReduceS?)) && last.amount <= before
      then before - last.amount
      else before
  }

  /** An add adds something, or something of its side is outstanding already. */
  predicate AddsSomething(ops: seq<Op>, o: Op) {
    && (o.AddL? ==> o.amount > 0 || Outstanding(ops, Load, LastCycle(ops)) > 0)
    && (o.AddS? ==> o.amount > 0 || Outstanding(ops, Store, LastCycle(ops)) > 0)
  }

  predicate Orderly(ops: seq<Op>) {
    ops == [] ||
      (var init, last := ops[..|ops| - 1], ops[|ops| - 1];
       Orderly(init) && LastCycle(init) <= last.cycle && AddsSomething(init, last))
  }

  predicate BusyAt(ops: seq<Op>, op: MemOp, t: int) {
    match op
    case LoadOrStore => Outstanding(ops, Load, t) > 0 || Outstanding(ops, Store, t) > 0
    case _ => Outstanding(ops, op, t) > 0
  }

  /** How many of the cycles 0..n-1 are busy. */
  function BusyCycles(ops: seq<Op>, op: MemOp, n: nat): nat {
    if n == 0 then 0 else BusyCycles(ops, op, n - 1) + if BusyAt(ops, op, n - 1) then 1 else 0
  }

  // ---- what the ledgers say ----

  function TrackOf(c: Counts, op: MemOp): Track {
    match op case Load => c.loadTrack case Store => c.storeTrack case LoadOrStore => c.bothTrack
  }

  /** Busy time, counting a running busy period up to `now`. */
  function BusyTime(t: Track, now: nat): int {
    t.busy + if t.status.Busy? then now - t.status.since else 0
  }

  /** Busy totals from the event list: closed periods, and the start of the open one if any. */
  datatype Replayed = Replayed(total: int, open: bool, since: int)

  function Extended(r: Replayed, e: Event, op: MemOp): Replayed {
    if e.event == MemEventStart(op) then Replayed(r.total, true, e.cycle)
    else if e.event == MemEventEnd(op) then Replayed(r.total + e.cycle - r.since, false, 0)
    else r
  }

  function Replay(events: seq<Event>, op: MemOp): Replayed {
    if events == [] then Replayed(0, false, 0)
    else Extended(Replay(events[..|events| - 1], op), events[|events| - 1], op)
  }

  /** The total time a histogram accounts for. */
  ghost function TimeIn(h: Histogram): nat
    decreases |h|
  {
    if h == map[] then 0
    else
      var d :| d in h;
      d * h[d].count + TimeIn(h - {d})
  }

  lemma {:induction false} TimeInAny(h: Histogram, d: nat)
    requires d in h
    ensures TimeIn(h) == d * h[d].count + TimeIn(h - {d})
    decreases |h|
  {
    var e :| e in h && TimeIn(h) == e * h[e].count + TimeIn(h - {e});
    if e != d {
      TimeInAny(h - {e}, d);
      TimeInAny(h - {d}, e);
      assert h - {e} - {d} == h - {d} - {e};
    }
  }

  lemma OneMore(d: nat, count: nat)
    ensures d * (count + 1) == d * count + d
  {
  }

  lemma TimeInRecorded(h: Histogram, d: nat, stage: RunStage)
    ensures TimeIn(Recorded(h, d, stage)) == TimeIn(h) + d
  {
    hide TimeIn;
    var h' := Recorded(h, d, stage);
    TimeInAny(h', d);
    if d in h {
      TimeInAny(h, d);
      assert h' - {d} == h - {d};
      OneMore(d, h[d].count);
    } else {
      assert h' - {d} == h;
      OneMore(d, 0);
    }
  }

  ghost predicate TrackInv(t: Track, replayed: Replayed, busyNow: bool, busyCycles: nat, now: nat) {
    && t.status.since <= now
    && t.status.Busy? == busyNow
    && t.busy + t.idle == t.status.since
    && TimeIn(t.busyHisto) == t.busy && TimeIn(t.idleHisto) == t.idle
    && BusyTime(t, now) == busyCycles
    && replayed == Replayed(t.busy, t.status.Busy?, if t.status.Busy? then t.status.since else 0)
  }

  lemma Advance(t: Track, r: Replayed, busyNow: bool, k: nat, now: nat, later: nat)
    requires TrackInv(t, r, busyNow, k, now) && now <= later
    ensures TrackInv(t, r, busyNow, k + if busyNow then later - now else 0, later)
  {
  }

  lemma StartKeepsInv(t: Track, r: Replayed, k: nat, now: nat, stage: RunStage)
    requires TrackInv(t, r, false, k, now)
    ensures TrackInv(t.Start(now, stage), Replayed(r.total, true, now), true, k, now)
  {
    TimeInRecorded(t.idleHisto, now - t.status.since, stage);
  }

  lemma StopKeepsInv(t: Track, r: Replayed, k: nat, now: nat, stage: RunStage)
    requires TrackInv(t, r, true, k, now)
    ensures TrackInv(t.Stop(now, stage), Replayed(r.total + now - r.since, false, 0), false, k, now)
  {
    TimeInRecorded(t.busyHisto, now - t.status.since, stage);
  }

  lemma ReplayStep(events: seq<Event>, e: Event, op: MemOp)
    ensures Replay(events + [e], op) == Extended(Replay(events, op), e, op)
  {
    assert (events + [e])[..|events|] == events;
  }

  // ---- the reference over time ----

  lemma {:induction false} QuietAfterLast(ops: seq<Op>, side: MemOp, t: int)
    requires side != LoadOrStore && Forward(ops) && LastCycle(ops) <= t
    ensures Outstanding(ops, side, t) == Outstanding(ops, side, LastCycle(ops))
    decreases |ops|
  {
    if ops != [] {
      var init := ops[..|ops| - 1];
      QuietAfterLast(init, side, t);
      QuietAfterLast(init, side, LastCycle(ops));
    }
  }

  lemma OutstandingStep(ops: seq<Op>, o: Op, side: MemOp, t: int)
    requires side != LoadOrStore
    ensures t < o.cycle ==> Outstanding(ops + [o], side, t) == Outstanding(ops, side, t)
    ensures t >= o.cycle ==> var before := Outstanding(ops, side, t);
      Outstanding(ops + [o], side, t) ==
        if (side == Load && o.AddL?) || (side == Store && o.AddS?) then before + o.amount
        else if ((side == Load && o.ReduceL?) || (side == Store && o.ReduceS?)) && o.amount <= before
        then before - o.amount
        else before
  {
    assert (ops + [o])[..|ops|] == ops;
  }

  lemma BusyAtEarlier(ops: seq<Op>, o: Op, op: MemOp, t: int)
    requires Forward(ops) && t < o.cycle
    ensures BusyAt(ops + [o], op, t) == BusyAt(ops, op, if t < LastCycle(ops) then t else LastCycle(ops))
  {
    hide Outstanding, Forward, LastCycle;
    OutstandingStep(ops, o, Load, t);
    OutstandingStep(ops, o, Store, t);
    if t >= LastCycle(ops) {
      QuietAfterLast(ops, Load, t);
      QuietAfterLast(ops, Store, t);
    }
  }

  /** Until the next operation the outstanding amounts stay, so the busy cycles grow by the gap or not at all. */
  lemma {:induction false} BusyUntil(ops: seq<Op>, o: Op, op: MemOp, n: nat)
    requires Forward(ops) && n <= o.cycle
    ensures BusyCycles(ops + [o], op, n) ==
      if n <= LastCycle(ops) then BusyCycles(ops, op, n)
      else BusyCycles(ops, op, LastCycle(ops)) + if BusyAt(ops, op, LastCycle(ops)) then n - LastCycle(ops) else 0
    decreases n
  {
    hide Forward, LastCycle, BusyAt;
    if n > 0 {
      BusyUntil(ops, o, op, n - 1);
      BusyAtEarlier(ops, o, op, n - 1);
    }
  }

  ghost predicate OpInv(c: Counts, ops: seq<Op>, op: MemOp) {
    TrackInv(TrackOf(c, op), Replay(c.events, op), BusyAt(ops, op, LastCycle(ops)), BusyCycles(ops, op, LastCycle(ops)),
             LastCycle(ops))
  }

  ghost predicate Inv(c: Counts, ops: seq<Op>) {
    && OpInv(c, ops, Load) && OpInv(c, ops, Store) && OpInv(c, ops, LoadOrStore)
    && c.loads == Outstanding(ops, Load, LastCycle(ops))
    && c.stores == Outstanding(ops, Store, LastCycle(ops))
  }

  /** The ledger just before `o`, its clock moved up to `o`'s cycle. */
  ghost predicate Ready(c: Counts, ops: seq<Op>, o: Op, op: MemOp) {
    TrackInv(TrackOf(c, op), Replay(c.events, op), BusyAt(ops, op, LastCycle(ops)), BusyCycles(ops + [o], op, o.cycle),
             o.cycle)
  }

  lemma ReadyFor(c: Counts, ops: seq<Op>, o: Op, op: MemOp)
    requires Forward(ops) && LastCycle(ops) <= o.cycle && OpInv(c, ops, op)
    ensures LastCycle(ops + [o]) == o.cycle
    ensures Ready(c, ops, o, op)
  {
    assert (ops + [o])[..|ops|] == ops;
    BusyUntil(ops, o, op, o.cycle);
    Advance(TrackOf(c, op), Replay(c.events, op), BusyAt(ops, op, LastCycle(ops)), BusyCycles(ops, op, LastCycle(ops)),
            LastCycle(ops), o.cycle);
  }

  /** What is outstanding after the last operation. */
  lemma OutstandingNow(ops: seq<Op>, o: Op, side: MemOp)
    requires side != LoadOrStore && Forward(ops) && LastCycle(ops) <= o.cycle
    ensures var before := Outstanding(ops, side, LastCycle(ops));
      Outstanding(ops + [o], side, o.cycle) ==
        if (side == Load && o.AddL?) || (side == Store && o.AddS?) then before + o.amount
        else if ((side == Load && o.ReduceL?) || (side == Store && o.ReduceS?)) && o.amount <= before
        then before - o.amount
        else before
  {
    QuietAfterLast(ops, side, o.cycle);
    OutstandingStep(ops, o, side, o.cycle);
  }

  lemma ReplayAll(events: seq<Event>, e: Event)
    ensures forall op :: Replay(events + [e], op) == Extended(Replay(events, op), e, op)
  {
    forall op { ReplayStep(events, e, op); }
  }

  /** The three ledgers agree with the events so far: whether each is busy, and for how many cycles it has been. */
  ghost predicate Tracks(c: Counts, load: bool, store: bool, both: bool, kl: nat, ks: nat, kb: nat, now: nat) {
    && TrackInv(c.loadTrack, Replay(c.events, Load), load, kl, now)
    && TrackInv(c.storeTrack, Replay(c.events, Store), store, ks, now)
    && TrackInv(c.bothTrack, Replay(c.events, LoadOrStore), both, kb, now)
  }

  lemma LoadStarts(c: Counts, store: bool, both: bool, kl: nat, ks: nat, kb: nat, now: nat)
    requires Tracks(c, false, store, both, kl, ks, kb, now)
    ensures Tracks(c.(loadTrack := c.loadTrack.Start(now, c.stage)).Logged(now, MemEventStart(Load)),
                   true, store, both, kl, ks, kb, now)
  {
    StartKeepsInv(c.loadTrack, Replay(c.events, Load), kl, now, c.stage);
    ReplayAll(c.events, Event(now, c.stage, MemEventStart(Load)));
    hide TrackInv, Replay;
  }

  lemma StoreStarts(c: Counts, load: bool, both: bool, kl: nat, ks: nat, kb: nat, now: nat)
    requires Tracks(c, load, false, both, kl, ks, kb, now)
    ensures Tracks(c.(storeTrack := c.storeTrack.Start(now, c.stage)).Logged(now, MemEventStart(Store)),
                   load, true, both, kl, ks, kb, now)
  {
    StartKeepsInv(c.storeTrack, Replay(c.events, Store), ks, now, c.stage);
    ReplayAll(c.events, Event(now, c.stage, MemEventStart(Store)));
    hide TrackInv, Replay;
  }

  lemma BothStarts(c: Counts, load: bool, store: bool, both: bool, kl: nat, ks: nat, kb: nat, now: nat)
    requires Tracks(c, load, store, both, kl, ks, kb, now)
    ensures Tracks(BothStarted(c, now), load, store, true, kl, ks, kb, now)
  {
    if c.bothTrack.status.Idle? {
      StartKeepsInv(c.bothTrack, Replay(c.events, LoadOrStore), kb, now, c.stage);
      ReplayAll(c.events, Event(now, c.stage, MemEventStart(LoadOrStore)));
    }
    hide TrackInv, Replay;
  }

  lemma LoadStops(c: Counts, store: bool, both: bool, kl: nat, ks: nat, kb: nat, now: nat)
    requires Tracks(c, true, store, both, kl, ks, kb, now)
    ensures Tracks(c.(loadTrack := c.loadTrack.Stop(now, c.stage)).Logged(now, MemEventEnd(Load)),
                   false, store, both, kl, ks, kb, now)
  {
    StopKeepsInv(c.loadTrack, Replay(c.events, Load), kl, now, c.stage);
    ReplayAll(c.events, Event(now, c.stage, MemEventEnd(Load)));
    hide TrackInv, Replay;
  }

  lemma StoreStops(c: Counts, load: bool, both: bool, kl: nat, ks: nat, kb: nat, now: nat)
    requires Tracks(c, load, true, both, kl, ks, kb, now)
    ensures Tracks(c.(storeTrack := c.storeTrack.Stop(now, c.stage)).Logged(now, MemEventEnd(Store)),
                   load, false, both, kl, ks, kb, now)
  {
    StopKeepsInv(c.storeTrack, Replay(c.events, Store), ks, now, c.stage);
    ReplayAll(c.events, Event(now, c.stage, MemEventEnd(Store)));
    hide TrackInv, Replay;
  }

  lemma BothStops(c: Counts, other: Track, load: bool, store: bool, kl: nat, ks: nat, kb: nat, now: nat)
    requires Tracks(c, load, store, true, kl, ks, kb, now)
    ensures Tracks(BothStopped(c, other, now), load, store, other.status.Busy?, kl, ks, kb, now)
  {
    if other.status.Idle? {
      StopKeepsInv(c.bothTrack, Replay(c.events, LoadOrStore), kb, now, c.stage);
      ReplayAll(c.events, Event(now, c.stage, MemEventEnd(LoadOrStore)));
    }
    hide TrackInv, Replay;
  }

  /** The busy cycles before `o`, per ledger. */
  function BusyBefore(ops: seq<Op>, o: Op, op: MemOp): nat { BusyCycles(ops + [o], op, o.cycle) }

  function LoadsAfter(c: Counts, o: Op): nat {
    if o.AddL? then c.loads + o.amount else if o.ReduceL? && o.amount <= c.loads then c.loads - o.amount else c.loads
  }

  function StoresAfter(c: Counts, o: Op): nat {
    if o.AddS? then c.stores + o.amount else if o.ReduceS? && o.amount <= c.stores then c.stores - o.amount
    else c.stores
  }

  /** The ledger with its clock moved up to the cycle of `o`. */
  ghost predicate Prepared(c: Counts, ops: seq<Op>, o: Op) {
    Tracks(c, c.loads > 0, c.stores > 0, c.loads > 0 || c.stores > 0,
           BusyBefore(ops, o, Load), BusyBefore(ops, o, Store), BusyBefore(ops, o, LoadOrStore), o.cycle)
  }

  /** The ledger after `o`. */
  ghost predicate Settled(c: Counts, c': Counts, ops: seq<Op>, o: Op) {
    && c'.loads == LoadsAfter(c, o) && c'.stores == StoresAfter(c, o)
    && Tracks(c', c'.loads > 0, c'.stores > 0, c'.loads > 0 || c'.stores > 0,
              BusyBefore(ops, o, Load), BusyBefore(ops, o, Store), BusyBefore(ops, o, LoadOrStore), o.cycle)
  }

  lemma Prepare(c: Counts, ops: seq<Op>, o: Op)
    requires Forward(ops) && LastCycle(ops) <= o.cycle && Inv(c, ops)
    ensures Prepared(c, ops, o)
  {
    hide Replay, Outstanding, BusyCycles, TrackInv, Forward;
    ReadyFor(c, ops, o, Load);
    ReadyFor(c, ops, o, Store);
    ReadyFor(c, ops, o, LoadOrStore);
  }

  lemma Settle(c: Counts, c': Counts, ops: seq<Op>, o: Op)
    requires Forward(ops) && LastCycle(ops) <= o.cycle && Inv(c, ops) && Settled(c, c', ops, o)
    ensures Inv(c', ops + [o])
  {
    hide Replay, Outstanding, BusyCycles, TrackInv, Forward;
    OutstandingNow(ops, o, Load);
    OutstandingNow(ops, o, Store);
    assert LastCycle(ops + [o]) == o.cycle;
  }

  lemma AddLoadsSettles(c: Counts, ops: seq<Op>, o: Op)
    requires o.AddL? && Prepared(c, ops, o) && c.Before(o.cycle) && (o.amount > 0 || c.loads > 0)
    ensures Settled(c, LoadsAdded(c, o.amount, o.cycle), ops, o)
  {
    hide BusyBefore, Replay, Tracks;
    StatusIs(c, ops, o);
    var kl, ks, kb := BusyBefore(ops, o, Load), BusyBefore(ops, o, Store), BusyBefore(ops, o, LoadOrStore);
    var c1 := c.(loads := c.loads + o.amount, allLoads := c.allLoads + o.amount);
    SameTracks(c, c1, c.loads > 0, c.stores > 0, c.loads > 0 || c.stores > 0, kl, ks, kb, o.cycle);
    if c.loads == 0 {
      LoadStarts(c1, c.stores > 0, c.stores > 0, kl, ks, kb, o.cycle);
      BothStarts(c1.(loadTrack := c1.loadTrack.Start(o.cycle, c1.stage)).Logged(o.cycle, MemEventStart(Load)),
                 true, c.stores > 0, c.stores > 0, kl, ks, kb, o.cycle);
    }
  }

  lemma AddStoresSettles(c: Counts, ops: seq<Op>, o: Op)
    requires o.AddS? && Prepared(c, ops, o) && c.Before(o.cycle) && (o.amount > 0 || c.stores > 0)
    ensures Settled(c, StoresAdded(c, o.amount, o.cycle), ops, o)
  {
    hide BusyBefore, Replay, Tracks;
    StatusIs(c, ops, o);
    var kl, ks, kb := BusyBefore(ops, o, Load), BusyBefore(ops, o, Store), BusyBefore(ops, o, LoadOrStore);
    var c1 := c.(stores := c.stores + o.amount, allStores := c.allStores + o.amount);
    SameTracks(c, c1, c.loads > 0, c.stores > 0, c.loads > 0 || c.stores > 0, kl, ks, kb, o.cycle);
    if c.stores == 0 {
      StoreStarts(c1, c.loads > 0, c.loads > 0, kl, ks, kb, o.cycle);
      BothStarts(c1.(storeTrack := c1.storeTrack.Start(o.cycle, c1.stage)).Logged(o.cycle, MemEventStart(Store)),
                 c.loads > 0, true, c.loads > 0, kl, ks, kb, o.cycle);
    }
  }

  lemma ReduceLoadsSettles(c: Counts, ops: seq<Op>, o: Op)
    requires o.ReduceL? && Prepared(c, ops, o) && c.Before(o.cycle)
    ensures Settled(c, LoadsReduced(c, o.amount, o.cycle), ops, o)
  {
    hide BusyBefore, Replay, Tracks;
    StatusIs(c, ops, o);
    if o.amount <= c.loads {
      var kl, ks, kb := BusyBefore(ops, o, Load), BusyBefore(ops, o, Store), BusyBefore(ops, o, LoadOrStore);
      var c1 := c.(loads := c.loads - o.amount);
      SameTracks(c, c1, c.loads > 0, c.stores > 0, c.loads > 0 || c.stores > 0, kl, ks, kb, o.cycle);
      if c1.loads == 0 && c.loads > 0 {
        LoadStops(c1, c.stores > 0, true, kl, ks, kb, o.cycle);
        var c2 := c1.(loadTrack := c1.loadTrack.Stop(o.cycle, c1.stage)).Logged(o.cycle, MemEventEnd(Load));
        BothStops(c2, c2.storeTrack, false, c.stores > 0, kl, ks, kb, o.cycle);
      }
    }
  }

  lemma ReduceStoresSettles(c: Counts, ops: seq<Op>, o: Op)
    requires o.ReduceS? && Prepared(c, ops, o) && c.Before(o.cycle)
    ensures Settled(c, StoresReduced(c, o.amount, o.cycle), ops, o)
  {
    hide BusyBefore, Replay, Tracks;
    StatusIs(c, ops, o);
    if o.amount <= c.stores {
      var kl, ks, kb := BusyBefore(ops, o, Load), BusyBefore(ops, o, Store), BusyBefore(ops, o, LoadOrStore);
      var c1 := c.(stores := c.stores - o.amount);
      SameTracks(c, c1, c.loads > 0, c.stores > 0, c.loads > 0 || c.stores > 0, kl, ks, kb, o.cycle);
      if c1.stores == 0 && c.stores > 0 {
        StoreStops(c1, c.loads > 0, true, kl, ks, kb, o.cycle);
        var c2 := c1.(storeTrack := c1.storeTrack.Stop(o.cycle, c1.stage)).Logged(o.cycle, MemEventEnd(Store));
        BothStops(c2, c2.loadTrack, c.loads > 0, false, kl, ks, kb, o.cycle);
      }
    }
  }

  lemma StageSettles(c: Counts, ops: seq<Op>, o: Op)
    requires o.UpdateStage? && Prepared(c, ops, o) && c.Before(o.cycle)
    ensures Settled(c, Perform(c, o), ops, o)
  {
    hide BusyBefore, TrackInv, Replay;
    ReplayAll(c.events, Event(o.cycle, o.next, StageStart));
  }

  lemma SameTracks(c: Counts, c': Counts, load: bool, store: bool, both: bool, kl: nat, ks: nat, kb: nat, now: nat)
    requires Tracks(c, load, store, both, kl, ks, kb, now)
    requires c'.loadTrack == c.loadTrack && c'.storeTrack == c.storeTrack && c'.bothTrack == c.bothTrack
    requires c'.events == c.events
    ensures Tracks(c', load, store, both, kl, ks, kb, now)
  {
  }

  /** Each ledger is busy exactly while something of its kind is outstanding. */
  lemma StatusIs(c: Counts, ops: seq<Op>, o: Op)
    requires Prepared(c, ops, o)
    ensures c.loadTrack.status.Busy? == (c.loads > 0) && c.storeTrack.status.Busy? == (c.stores > 0)
    ensures c.bothTrack.status.Busy? == (c.loads > 0 || c.stores > 0)
    ensures c.Before(o.cycle)
  {
    hide Replay, BusyBefore, TimeIn, BusyTime;
  }

  lemma StartTrackInv(op: MemOp)
    ensures OpInv(START, [], op)
  {
    var t := TrackOf(START, op);
    assert t == FRESH;
    assert TimeIn(t.busyHisto) == 0 && TimeIn(t.idleHisto) == 0 by { hide Replay, BusyCycles, Outstanding; }
    assert Replay(START.events, op) == Replayed(0, false, 0) && BusyCycles([], op, 0) == 0
      && !BusyAt([], op, 0) by { hide TimeIn; }
    hide TimeIn, Replay, BusyCycles, BusyAt;
  }

  lemma StartInv()
    ensures Inv(START, [])
  {
    hide OpInv;
    StartTrackInv(Load);
    StartTrackInv(Store);
    StartTrackInv(LoadOrStore);
  }

  lemma PerformKeepsTime(c: Counts, o: Op)
    requires c.Before(o.cycle)
    ensures Perform(c, o).Before(o.cycle)
  {
    hide Recorded;
  }

  /** The ledger after a run. */
  function Run(ops: seq<Op>): (c: Counts)
    requires Forward(ops)
    ensures c.Before(LastCycle(ops))
    decreases |ops|
  {
    if ops == [] then START
    else
      var c := Run(ops[..|ops| - 1]);
      PerformKeepsTime(c, ops[|ops| - 1]);
      Perform(c, ops[|ops| - 1])
  }

  lemma {:induction false} OrderlyIsForward(ops: seq<Op>)
    requires Orderly(ops)
    ensures Forward(ops)
    decreases |ops|
  {
    if ops != [] { OrderlyIsForward(ops[..|ops| - 1]); }
  }

  lemma EmptyInv()
    ensures Forward([]) && Inv(Run([]), [])
  {
    hide OpInv;
    StartInv();
  }

  lemma RunStep(init: seq<Op>, o: Op)
    requires Forward(init + [o])
    ensures Forward(init) && Run(init).Before(o.cycle) && Run(init + [o]) == Perform(Run(init), o)
  {
    assert (init + [o])[..|init|] == init;
    hide Perform;
  }

  lemma OrderlyStep(init: seq<Op>, o: Op)
    requires Orderly(init + [o])
    ensures Orderly(init) && LastCycle(init) <= o.cycle && AddsSomething(init, o)
    ensures Forward(init) && Forward(init + [o])
  {
    assert (init + [o])[..|init|] == init;
    OrderlyIsForward(init + [o]);
    hide AddsSomething;
  }

  lemma {:induction false} RunInv(ops: seq<Op>)
    requires Orderly(ops)
    ensures Forward(ops) && Inv(Run(ops), ops)
    decreases |ops|
  {
    hide *;
    if ops == [] {
      EmptyInv();
    } else {
      var init, o := ops[..|ops| - 1], ops[|ops| - 1];
      assert ops == init + [o];
      OrderlyStep(init, o);
      RunStep(init, o);
      RunInv(init);
      PerformKeepsInv(Run(init), init, o);
    }
  }

  lemma PerformKeepsInv(c: Counts, ops: seq<Op>, o: Op)
    requires Forward(ops) && LastCycle(ops) <= o.cycle && AddsSomething(ops, o) && Inv(c, ops) && c.Before(o.cycle)
    ensures Inv(Perform(c, o), ops + [o])
  {
    hide Prepared, Settled, OpInv;
    Prepare(c, ops, o);
    match o {
      case AddL(_, _) => AddLoadsSettles(c, ops, o);
      case AddS(_, _) => AddStoresSettles(c, ops, o);
      case ReduceL(_, _) => ReduceLoadsSettles(c, ops, o);
      case ReduceS(_, _) => ReduceStoresSettles(c, ops, o);
      case UpdateStage(_, _) => StageSettles(c, ops, o);
    }
    Settle(c, Perform(c, o), ops, o);
  }

  /** After any orderly run, for loads, stores and either: busy and idle time add up to the last transition, both
      histograms account for exactly their totals, busy time is the number of cycles so far with something
      outstanding, and replaying the event list gives the busy total back. */
  lemma LedgerIsExact(ops: seq<Op>, op: MemOp)
    requires Orderly(ops)
    ensures Forward(ops)
    ensures var t, now := TrackOf(Run(ops), op), LastCycle(ops);
      && t.busy + t.idle == t.status.since <= now
      && TimeIn(t.busyHisto) == t.busy && TimeIn(t.idleHisto) == t.idle
      && BusyTime(t, now) == BusyCycles(ops, op, now)
      && Replay(Run(ops).events, op).total == t.busy
      && (t.status.Busy? <==> BusyAt(ops, op, now))
  {
    RunInv(ops);
    hide Run, Replay, TimeIn, BusyCycles, BusyAt, Orderly, Forward;
    assert OpInv(Run(ops), ops, op);
  }

  /** Adding zero when nothing is outstanding opens a busy period with nothing in it: an add keeps busy and
      outstanding together exactly when it adds something or something was outstanding before. */
  lemma ZeroAddOpensBusyPeriod(c: Counts, n: nat, cycle: nat)
    requires c.Before(cycle)
    ensures (c.loadTrack.status.Busy? <==> c.loads > 0) ==>
      var c' := LoadsAdded(c, n, cycle); (c'.loadTrack.status.Busy? <==> c'.loads > 0) <==> n > 0 || c.loads > 0
    ensures (c.storeTrack.status.Busy? <==> c.stores > 0) ==>
      var c' := StoresAdded(c, n, cycle); (c'.storeTrack.status.Busy? <==> c'.stores > 0) <==> n > 0 || c.stores > 0
  {
  }

  /** Loads and stores are outstanding exactly while their ledger is busy. */
  predicate Agrees(c: Counts) {
    (c.loadTrack.status.Busy? <==> c.loads > 0) && (c.storeTrack.status.Busy? <==> c.stores > 0)
  }

  ghost predicate AgreesThroughout(ops: seq<Op>)
    requires Forward(ops)
    decreases |ops|
  {
    Agrees(Run(ops)) && (ops == [] || AgreesThroughout(ops[..|ops| - 1]))
  }

  /** Over a run, busy and outstanding stay together throughout exactly if no add of zero meets nothing outstanding. */
  lemma {:induction false} AgreesExactlyIfOrderly(ops: seq<Op>)
    requires Forward(ops)
    ensures AgreesThroughout(ops) <==> Orderly(ops)
    decreases |ops|
  {
    if ops != [] {
      var init, o := ops[..|ops| - 1], ops[|ops| - 1];
      AgreesExactlyIfOrderly(init);
      if Orderly(init) {
        RunInv(init);
        ZeroAddOpensBusyPeriod(Run(init), if o.AddL? || o.AddS? then o.amount else 0, o.cycle);
      }
      if Orderly(ops) {
        RunInv(ops);
        InvAgrees(Run(ops), ops);
      }
    }
  }

  lemma InvAgrees(c: Counts, ops: seq<Op>)
    requires Inv(c, ops)
    ensures Agrees(c)
  {
    hide Replay, TimeIn, BusyCycles, Outstanding;
  }

  // ---- the context as an object ----

  class GlobalCounts {
    var loads: nat
    var stores: nat
    var allLoads: nat
    var allStores: nat
    var stage: RunStage
    var loadTrack: Track
    var storeTrack: Track
    var bothTrack: Track
    var events: seq<Event>

    function State(): Counts
      reads this
    {
      Counts(loads, stores, allLoads, allStores, stage, loadTrack, storeTrack, bothTrack, events)
    }

    constructor ()
      ensures State() == START
    {
      loads, stores, allLoads, allStores, stage := 0, 0, 0, 0, A;
      loadTrack, storeTrack, bothTrack, events := FRESH, FRESH, FRESH, [];
    }

    method UpdateStage(next: RunStage, cycle: nat)
      requires State().Before(cycle)
      modifies this
      ensures State() == Perform(old(State()), Op.UpdateStage(next, cycle))
    {
      events := events + [Event(cycle, next, StageStart)];
      stage := next;
    }

    method StartBoth(cycle: nat)
      requires State().Before(cycle)
      modifies this`bothTrack, this`events
      ensures State() == BothStarted(old(State()), cycle)
    {
      if bothTrack.status.Idle? {
        bothTrack := bothTrack.Start(cycle, stage);
        events := events + [Event(cycle, stage, MemEventStart(LoadOrStore))];
      }
    }

    method StopBoth(other: Track, cycle: nat)
      requires State().Before(cycle)
      modifies this`bothTrack, this`events
      ensures State() == BothStopped(old(State()), other, cycle)
    {
      if bothTrack.status.Busy? && other.status.Idle? {
        bothTrack := bothTrack.Stop(cycle, stage);
        events := events + [Event(cycle, stage, MemEventEnd(LoadOrStore))];
      }
    }

    method AddLoads(n: nat, cycle: nat)
      requires State().Before(cycle)
      modifies this
      ensures State() == LoadsAdded(old(State()), n, cycle)
    {
      loads := loads + n;
      allLoads := allLoads + n;
      if loads == n && loadTrack.status.Idle? {
        loadTrack := loadTrack.Start(cycle, stage);
        events := events + [Event(cycle, stage, MemEventStart(Load))];
        StartBoth(cycle);
      }
    }

    method AddStores(n: nat, cycle: nat)
      requires State().Before(cycle)
      modifies this
      ensures State() == StoresAdded(old(State()), n, cycle)
    {
      stores := stores + n;
      allStores := allStores + n;
      if stores == n && storeTrack.status.Idle? {
        storeTrack := storeTrack.Start(cycle, stage);
        events := events + [Event(cycle, stage, MemEventStart(Store))];
        StartBoth(cycle);
      }
    }

    method ReduceLoads(n: nat, cycle: nat) returns (ok: bool)
      requires State().Before(cycle)
      modifies this
      ensures ok == (old(loads) >= n) && State() == LoadsReduced(old(State()), n, cycle)
    {
      if loads < n { return false; }
      loads := loads - n;
      if loads == 0 && loadTrack.status.Busy? {
        loadTrack := loadTrack.Stop(cycle, stage);
        events := events + [Event(cycle, stage, MemEventEnd(Load))];
        StopBoth(storeTrack, cycle);
      }
      ok := true;
    }

    method ReduceStores(n: nat, cycle: nat) returns (ok: bool)
      requires State().Before(cycle)
      modifies this
      ensures ok == (old(stores) >= n) && State() == StoresReduced(old(State()), n, cycle)
    {
      if stores < n { return false; }
      stores := stores - n;
      if stores == 0 && storeTrack.status.Busy? {
        storeTrack := storeTrack.Stop(cycle, stage);
        events := events + [Event(cycle, stage, MemEventEnd(Store))];
        StopBoth(loadTrack, cycle);
      }
      ok := true;
    }
  }
}
