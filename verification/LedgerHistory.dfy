/** What the ledger's histograms, totals and stages say about its event list. */
module LedgerHistory {
  // Reading the event list back gives every busy and every idle period of a side with the stage it ended in; the
  // histograms hold exactly these, grouped by length and in order.

  import opened Ledger

  /** A closed period: how long it lasted, and the stage in which it ended. */
  datatype Period = Period(length: nat, stage: RunStage)

  /** What the events of one side tell: whether it is busy, since when, and the periods so far. */
  datatype Past = Past(busy: bool, since: nat, busyPeriods: seq<Period>, idlePeriods: seq<Period>)

  function Length(from: nat, to: nat): nat { if to >= from then to - from else 0 }

  function Told(p: Past, e: Event, op: MemOp): Past {
    var d := Length(p.since, e.cycle);
    if e.event == MemEventStart(op) then
      Past(true, e.cycle, p.busyPeriods, if d > 0 then p.idlePeriods + [Period(d, e.stage)] else p.idlePeriods)
    else if e.event == MemEventEnd(op) then Past(false, e.cycle, p.busyPeriods + [Period(d, e.stage)], p.idlePeriods)
    else p
  }

  function History(events: seq<Event>, op: MemOp): Past {
    if events == [] then Past(false, 0, [], [])
    else Told(History(events[..|events| - 1], op), events[|events| - 1], op)
  }

  /** The stages of the periods of one length, in order. */
  function OfLength(periods: seq<Period>, d: nat): seq<RunStage> {
    if periods == [] then []
    else
      var last := periods[|periods| - 1];
      OfLength(periods[..|periods| - 1], d) + if last.length == d then [last.stage] else []
  }

  /** The histogram counts exactly these periods. */
  ghost predicate Tallies(h: Histogram, periods: seq<Period>) {
    forall d: nat ::
      && (d in h <==> OfLength(periods, d) != [])
      && (d in h ==> h[d].count == |OfLength(periods, d)| && h[d].stages == OfLength(periods, d))
  }

  lemma TallyOneMore(h: Histogram, periods: seq<Period>, d: nat, stage: RunStage)
    requires Tallies(h, periods)
    ensures Tallies(Recorded(h, d, stage), periods + [Period(d, stage)])
  {
    assert (periods + [Period(d, stage)])[..|periods|] == periods;
  }

  ghost predicate Remembers(t: Track, p: Past) {
    && t.status == (if p.busy then Busy(p.since) else Idle(p.since))
    && Tallies(t.busyHisto, p.busyPeriods) && Tallies(t.idleHisto, p.idlePeriods)
  }

  lemma StartRemembers(t: Track, p: Past, cycle: nat, stage: RunStage, op: MemOp)
    requires Remembers(t, p) && t.status.Idle? && t.status.since <= cycle
    ensures Remembers(t.Start(cycle, stage), Told(p, Event(cycle, stage, MemEventStart(op)), op))
  {
    hide Tallies, Recorded;
    TallyOneMore(t.idleHisto, p.idlePeriods, cycle - t.status.since, stage);
  }

  lemma StopRemembers(t: Track, p: Past, cycle: nat, stage: RunStage, op: MemOp)
    requires Remembers(t, p) && t.status.Busy? && t.status.since <= cycle
    ensures Remembers(t.Stop(cycle, stage), Told(p, Event(cycle, stage, MemEventEnd(op)), op))
  {
    hide Tallies, Recorded;
    TallyOneMore(t.busyHisto, p.busyPeriods, cycle - t.status.since, stage);
  }

  lemma HistoryGrows(events: seq<Event>, e: Event)
    ensures forall op :: History(events + [e], op) == Told(History(events, op), e, op)
  {
    assert (events + [e])[..|events|] == events;
  }

  // ---- runs ----

  /** Each ledger remembers its events. */
  ghost predicate AllRemember(c: Counts) {
    && Remembers(c.loadTrack, History(c.events, Load)) && Remembers(c.storeTrack, History(c.events, Store))
    && Remembers(c.bothTrack, History(c.events, LoadOrStore))
  }

  lemma LoggedStart(c: Counts, c': Counts, op: MemOp, cycle: nat)
    requires AllRemember(c) && c.Before(cycle) && TrackOf(c, op).status.Idle?
    requires c'.events == c.events + [Event(cycle, c.stage, MemEventStart(op))]
    requires forall side: MemOp ::
      TrackOf(c', side) == if side == op then TrackOf(c, side).Start(cycle, c.stage) else TrackOf(c, side)
    ensures AllRemember(c')
  {
    hide History, Remembers, Track.Start;
    var e := Event(cycle, c.stage, MemEventStart(op));
    HistoryGrows(c.events, e);
    StartRemembers(TrackOf(c, op), History(c.events, op), cycle, c.stage, op);
    forall side: MemOp | side != op ensures Told(History(c.events, side), e, side) == History(c.events, side) {}
    hide Told;
    assert TrackOf(c', Load) == c'.loadTrack && TrackOf(c', Store) == c'.storeTrack
      && TrackOf(c', LoadOrStore) == c'.bothTrack;
  }

  lemma LoggedStop(c: Counts, c': Counts, op: MemOp, cycle: nat)
    requires AllRemember(c) && c.Before(cycle) && TrackOf(c, op).status.Busy?
    requires c'.events == c.events + [Event(cycle, c.stage, MemEventEnd(op))]
    requires forall side: MemOp ::
      TrackOf(c', side) == if side == op then TrackOf(c, side).Stop(cycle, c.stage) else TrackOf(c, side)
    ensures AllRemember(c')
  {
    hide History, Remembers, Track.Stop;
    var e := Event(cycle, c.stage, MemEventEnd(op));
    HistoryGrows(c.events, e);
    StopRemembers(TrackOf(c, op), History(c.events, op), cycle, c.stage, op);
    forall side: MemOp | side != op ensures Told(History(c.events, side), e, side) == History(c.events, side) {}
    hide Told;
    assert TrackOf(c', Load) == c'.loadTrack && TrackOf(c', Store) == c'.storeTrack
      && TrackOf(c', LoadOrStore) == c'.bothTrack;
  }

  lemma BothStartedRemembers(c: Counts, cycle: nat)
    requires AllRemember(c) && c.Before(cycle)
    ensures AllRemember(BothStarted(c, cycle))
  {
    hide AllRemember;
    if c.bothTrack.status.Idle? { LoggedStart(c, BothStarted(c, cycle), LoadOrStore, cycle); }
  }

  lemma BothStoppedRemembers(c: Counts, other: Track, cycle: nat)
    requires AllRemember(c) && c.Before(cycle)
    ensures AllRemember(BothStopped(c, other, cycle))
  {
    hide AllRemember;
    if c.bothTrack.status.Busy? && other.status.Idle? {
      LoggedStop(c, BothStopped(c, other, cycle), LoadOrStore, cycle);
    }
  }

  /** The same ledgers and events. */
  lemma SameRemembers(c: Counts, c': Counts)
    requires AllRemember(c) && c'.events == c.events
    requires c'.loadTrack == c.loadTrack && c'.storeTrack == c.storeTrack && c'.bothTrack == c.bothTrack
    ensures AllRemember(c')
  {
  }

  lemma PerformRemembers(c: Counts, o: Op)
    requires AllRemember(c) && c.Before(o.cycle)
    ensures AllRemember(Perform(c, o))
  {
    hide AllRemember;
    match o
    case AddL(n, cycle) =>
      var c1 := c.(loads := c.loads + n, allLoads := c.allLoads + n);
      SameRemembers(c, c1);
      if c1.loads == n && c1.loadTrack.status.Idle? {
        var c2 := c1.(loadTrack := c1.loadTrack.Start(cycle, c1.stage)).Logged(cycle, MemEventStart(Load));
        LoggedStart(c1, c2, Load, cycle);
        BothStartedRemembers(c2, cycle);
      }
    case AddS(n, cycle) =>
      var c1 := c.(stores := c.stores + n, allStores := c.allStores + n);
      SameRemembers(c, c1);
      if c1.stores == n && c1.storeTrack.status.Idle? {
        var c2 := c1.(storeTrack := c1.storeTrack.Start(cycle, c1.stage)).Logged(cycle, MemEventStart(Store));
        LoggedStart(c1, c2, Store, cycle);
        BothStartedRemembers(c2, cycle);
      }
    case ReduceL(n, cycle) =>
      if c.loads >= n {
        var c1 := c.(loads := c.loads - n);
        SameRemembers(c, c1);
        if c1.loads == 0 && c1.loadTrack.status.Busy? {
          var c2 := c1.(loadTrack := c1.loadTrack.Stop(cycle, c1.stage)).Logged(cycle, MemEventEnd(Load));
          LoggedStop(c1, c2, Load, cycle);
          BothStoppedRemembers(c2, c2.storeTrack, cycle);
        }
      }
    case ReduceS(n, cycle) =>
      if c.stores >= n {
        var c1 := c.(stores := c.stores - n);
        SameRemembers(c, c1);
        if c1.stores == 0 && c1.storeTrack.status.Busy? {
          var c2 := c1.(storeTrack := c1.storeTrack.Stop(cycle, c1.stage)).Logged(cycle, MemEventEnd(Store));
          LoggedStop(c1, c2, Store, cycle);
          BothStoppedRemembers(c2, c2.loadTrack, cycle);
        }
      }
    case UpdateStage(next, cycle) => StageRemembers(c, next, cycle);
  }

  lemma StageRemembers(c: Counts, next: RunStage, cycle: nat)
    requires AllRemember(c) && c.Before(cycle)
    ensures AllRemember(Perform(c, UpdateStage(next, cycle)))
  {
    HistoryGrows(c.events, Event(cycle, next, StageStart));
    hide History;
  }

  /** Everything ever added to a side. */
  function Added(ops: seq<Op>, side: MemOp): nat
    requires side != LoadOrStore
  {
    if ops == [] then 0
    else
      var last := ops[|ops| - 1];
      Added(ops[..|ops| - 1], side)
      + if side == Load && last.AddL? then last.amount else if side == Store && last.AddS? then last.amount else 0
  }

  function StageAfter(ops: seq<Op>): RunStage {
    if ops == [] then A
    else if ops[|ops| - 1].UpdateStage? then ops[|ops| - 1].next else StageAfter(ops[..|ops| - 1])
  }

  /** After any run that never goes back in time, orderly or not: each histogram counts, for every length, exactly
      the periods between the events of its side, with their stages in order; the totals are the sums of everything
      added; and the stage is the one last set. */
  lemma {:induction false} HistogramsAreTallies(ops: seq<Op>)
    requires Forward(ops)
    ensures AllRemember(Run(ops))
    ensures Run(ops).allLoads == Added(ops, Load) && Run(ops).allStores == Added(ops, Store)
    ensures Run(ops).stage == StageAfter(ops)
    decreases |ops|
  {
    hide AllRemember;
    StartRemembersNothing();
    if ops != [] {
      HistogramsAreTallies(ops[..|ops| - 1]);
      PerformRemembers(Run(ops[..|ops| - 1]), ops[|ops| - 1]);
      hide BothStarted, BothStopped;
    }
  }

  lemma StartRemembersNothing()
    ensures AllRemember(START)
  {
    assert History(START.events, Load) == History(START.events, Store) == Past(false, 0, [], []);
  }
}
