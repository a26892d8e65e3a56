/** The dual row-buffer protocol. */
module DualBuffer {
  // Whole runs of the NeuPIMs controller: header, reservation and compute. A bank's normal and PIM buffers never hold
  // the same row, and a compute command always finds every PIM buffer open on its header's row, although neither
  // G_ACT nor COMPS_READRES compares rows.

  import opened Commands
  import opened Banks
  import opened Channels
  import Runs = ChannelRuns
  import opened Queues
  import opened NeuPims

  /** Between a consumed header and its last compute command the channel works on the header's row. */
  datatype Phase = Idle | Gemv(row: int)

  function PhaseAfter(phase: Phase, c: Command): Phase {
    if c.IsPimHeader() then Gemv(c.Row())
    else if c.IsChannelCmd() && c.isLastComps then Idle
    else phase
  }

  /** A well-formed PIM stream: each header is followed by its computes, on its row, the last one marked;
      GWRITEs come only between such groups. */
  predicate StreamOk(phase: Phase, s: seq<Command>)
    decreases |s|
  {
    if s == [] then true
    else if phase.Idle? then (s[0].IsGwrite() || s[0].IsPimHeader()) && StreamOk(PhaseAfter(phase, s[0]), s[1..])
    else s[0].IsChannelCmd() && s[0].Row() == phase.row && StreamOk(PhaseAfter(phase, s[0]), s[1..])
  }

  datatype World = World(ch: Channel, clk: int, q: NQueue, phase: Phase)

  /** A cycle brings possibly a refresh (rank -1 for none), the cycles left before the next one, and the latency
      estimate of the PIM operation at the head; commands arrive and GWRITEs complete in between. */
  datatype Action =
    | Cycle(arrival: int, remainToRefresh: int, latency: int)
    | Add(cmd: Command)
    | GwriteDone

  ghost predicate ValidWorld(cfg: Config, structure: Structure, w: World) {
    w.ch.Valid(cfg) && ValidQueue(cfg, structure, w.q)
  }

  // ---- where a selected command comes from ----

  /** `c` is what `req` needs now. */
  ghost predicate Serves(cfg: Config, ch: Channel, clk: int, req: Command, c: Command)
    requires ch.Valid(cfg)
  {
    cfg.Addressed(req) && Queueable(req) && GetReadyCommand(cfg, ch, req, clk) == Ready(c)
  }

  /** The command is what some normal-queue entry needs now, and that entry does not want the reserved row. */
  ghost predicate FromNormal(cfg: Config, queues: seq<seq<Command>>, reservedRow: int, ch: Channel, clk: int,
                             c: Command)
    requires ch.Valid(cfg)
  {
    exists i, n | 0 <= i < |queues| && 0 <= n < |queues[i]| ::
      queues[i][n].IsReadWrite() && queues[i][n].Row() != reservedRow && Serves(cfg, ch, clk, queues[i][n], c)
  }

  /** The protocol fields and the PIM queue are those of `q`. */
  predicate SameProtocol(q: NQueue, q': NQueue) {
    q'.pimQueue == q.pimQueue && q'.reservedRow == q.reservedRow && q'.isGwriting == q.isGwriting
    && q'.gwriteTarget == q.gwriteTarget && q'.isInRef == q.isInRef && q'.skipPim == q.skipPim
  }

  lemma {:induction false} FirstReadyOrigin(cfg: Config, structure: Structure, q: NQueue, ch: Channel, clk: int,
                                            queue: seq<Command>, idx: int, n: int) returns (m: int)
    requires ch.Valid(cfg) && ValidNormal(cfg, structure, queue, idx) && 0 <= n <= |queue|
    ensures var answer := FirstReady(cfg, structure, q, ch, clk, queue, idx, n).0;
      answer.Ready? ==> n <= m < |queue| && !HeldBack(q, queue[m]) && Serves(cfg, ch, clk, queue[m], answer.cmd)
    decreases |queue| - n
  {
    m := n;
    if n < |queue| && FirstReady(cfg, structure, q, ch, clk, queue, idx, n).0.Ready? {
      if HeldBack(q, queue[n])
        || GetReadyCommand(cfg, ch, queue[n], clk) != FirstReady(cfg, structure, q, ch, clk, queue, idx, n).0
      {
        m := FirstReadyOrigin(cfg, structure, q, ch, clk, queue, idx, n + 1);
      }
    }
  }

  lemma ServeQueueOrigin(cfg: Config, structure: Structure, q: NQueue, ch: Channel, clk: int)
    requires ch.Valid(cfg) && ValidQueue(cfg, structure, q)
    ensures var s := ServeQueue(cfg, structure, q, ch, clk);
      && ValidQueue(cfg, structure, s.q) && SameProtocol(q, s.q)
      && (s.answer.Ready? ==> FromNormal(cfg, q.queues, q.reservedRow, ch, clk, s.answer.cmd))
  {
    var i := q.queueIdx;
    var n := FirstReadyOrigin(cfg, structure, q, ch, clk, q.queues[i], i, 0);
    var answer := FirstReady(cfg, structure, q, ch, clk, q.queues[i], i, 0).0;
    if answer.Ready? {
      ErasedKeepsEntries(q.queues[i], answer.cmd);
      assert q.queues[i][n].Row() != q.reservedRow;
    }
  }

  lemma {:induction false} RoundRobinOrigin(cfg: Config, structure: Structure, q: NQueue, ch: Channel, clk: int,
                                            left: nat)
    requires ch.Valid(cfg) && ValidQueue(cfg, structure, q)
    ensures var s := RoundRobin(cfg, structure, q, ch, clk, left);
      && ValidQueue(cfg, structure, s.q) && SameProtocol(q, s.q)
      && (s.answer.Ready? ==> FromNormal(cfg, q.queues, q.reservedRow, ch, clk, s.answer.cmd))
    decreases left
  {
    if left > 0 {
      var q1 := q.(queueIdx := NextIndex(q.queueIdx, |q.queues|));
      ServeQueueOrigin(cfg, structure, q1, ch, clk);
      RoundRobinOrigin(cfg, structure, q1, ch, clk, left - 1);
    }
  }

  /** The command is what the head of the PIM queue needs now, outside a refresh. */
  ghost predicate FromPim(cfg: Config, structure: Structure, q: NQueue, ch: Channel, clk: int, c: Command)
    requires ch.Valid(cfg) && ValidQueue(cfg, structure, q)
  {
    q.pimQueue != [] && !q.isInRef && Serves(cfg, ch, clk, q.pimQueue[0], c)
  }

  /** How a cycle's queue state relates to the one before: reservations move only at headers and refreshes. */
  ghost predicate Moves(q: NQueue, q': NQueue, answer: Answer) {
    && q'.pimQueue == (if answer.Ready? && answer.cmd.PimQCommand() && q.pimQueue != [] then q.pimQueue[1..]
                       else q.pimQueue)
    && (q'.reservedRow == q.reservedRow
        || (q.pimQueue != [] && q.pimQueue[0].IsPimHeader() && q'.reservedRow == q.pimQueue[0].Row())
        || (answer.Ready? && answer.cmd.IsRefresh()))
  }

  lemma PimQueueKinds(cfg: Config, ch: Channel, clk: int, req: Command, c: Command)
    requires ch.Valid(cfg) && Serves(cfg, ch, clk, req, c)
    ensures c.PimQCommand() ==> c.kind == req.kind && Matches(req, c) && c.Row() == req.Row()
    ensures c.IsReadWrite() || c.IsRefresh() ==> c.kind == req.kind
    ensures c.kind == GAct ==> req.IsChannelCmd()
    ensures c.kind == Activate ==> req.kind in {Read, Write, Gwrite}
    ensures c.IsChannelCmd() || c.IsPimHeader() ==> c == req
  {
    ReadyIsCertified(cfg, ch, req, clk);
    if req.IsChannelCmd() || req.IsPimHeader() || req.IsRankCmd() {
      var i, iHi := if req.IsRankCmd() then req.Rank() else 0, if req.IsRankCmd() then req.Rank() + 1 else cfg.ranks;
      ScanFromStart(cfg, ch, req, clk, iHi, i);
      if c != req { RaisedKinds(ch.banks[IdOf(c.addr)], req, clk); }
    } else {
      RaisedKinds(ch.banks[IdOf(req.addr)], req, clk);
    }
  }

  /** Every command a cycle selects from the queues serves the PIM head or an unreserved normal entry. */
  lemma PimOrigin(cfg: Config, structure: Structure, q: NQueue, ch: Channel, clk: int, remain: int, latency: int)
    requires ch.Valid(cfg) && ValidQueue(cfg, structure, q)
    ensures var s := GetCommandToIssue(cfg, structure, q, ch, clk, remain, latency);
      && ValidQueue(cfg, structure, s.q) && Moves(q, s.q, s.answer) && s.q.isInRef == q.isInRef
      && (s.answer.Ready? && s.answer.cmd.IsPimHeader() ==> s.q.reservedRow == s.answer.cmd.Row())
      && (s.answer.Ready? ==>
            || FromPim(cfg, structure, q, ch, clk, s.answer.cmd)
            || FromNormal(cfg, q.queues, s.q.reservedRow, ch, clk, s.answer.cmd))
  {
    hide ReadyInPim, RoundRobin, GetReadyCommand, FromNormal;
    if !q.skipPim && q.pimQueue != [] && !q.isInRef {
      var s := ReadyInPim(cfg, q, ch, clk, remain, latency);
      ReadyInPimShape(cfg, structure, q, ch, clk, remain, latency);
      if s.answer.NotReady? { RoundRobinShape(cfg, structure, s.q, ch, clk); }
    } else {
      RoundRobinShape(cfg, structure, q, ch, clk);
    }
  }

  lemma ReadyInPimShape(cfg: Config, structure: Structure, q: NQueue, ch: Channel, clk: int, remain: int, latency: int)
    requires ch.Valid(cfg) && ValidQueue(cfg, structure, q) && q.pimQueue != [] && !q.isInRef
    ensures var s := ReadyInPim(cfg, q, ch, clk, remain, latency);
      && ValidQueue(cfg, structure, s.q)
      && s.q.queues == q.queues && s.q.pimQueue == q.pimQueue && s.q.isInRef == q.isInRef
      && (s.q.reservedRow == q.reservedRow || (q.pimQueue[0].IsPimHeader() && s.q.reservedRow == q.pimQueue[0].Row()))
      && (s.answer.Ready? ==>
            var c := s.answer.cmd;
            && FromPim(cfg, structure, q, ch, clk, c)
            && !c.IsRefresh()
            && (c.PimQCommand() ==> Erased(q.pimQueue, c) == q.pimQueue[1..])
            && (c.IsPimHeader() ==> s.q.reservedRow == c.Row()))
  {
    var s := ReadyInPim(cfg, q, ch, clk, remain, latency);
    assert PimEntry(cfg, q.pimQueue[0]);
    if s.answer.Ready? { PimQueueKinds(cfg, ch, clk, q.pimQueue[0], s.answer.cmd); }
  }

  lemma RoundRobinShape(cfg: Config, structure: Structure, q: NQueue, ch: Channel, clk: int)
    requires ch.Valid(cfg) && ValidQueue(cfg, structure, q)
    ensures var s := RoundRobin(cfg, structure, q, ch, clk, |q.queues|);
      && ValidQueue(cfg, structure, s.q) && SameProtocol(q, s.q)
      && (s.answer.Ready? ==>
            FromNormal(cfg, q.queues, q.reservedRow, ch, clk, s.answer.cmd)
            && s.answer.cmd.kind in {Read, Write, Activate, Precharge, PimPrecharge})
  {
    RoundRobinOrigin(cfg, structure, q, ch, clk, |q.queues|);
    NormalKinds(cfg, q.queues, q.reservedRow, ch, clk, RoundRobin(cfg, structure, q, ch, clk, |q.queues|).answer);
  }

  lemma NormalKinds(cfg: Config, queues: seq<seq<Command>>, reservedRow: int, ch: Channel, clk: int, answer: Answer)
    requires ch.Valid(cfg)
    requires answer.Ready? ==> FromNormal(cfg, queues, reservedRow, ch, clk, answer.cmd)
    ensures answer.Ready? ==> answer.cmd.kind in {Read, Write, Activate, Precharge, PimPrecharge}
  {
    if answer.Ready? {
      var i, n :| 0 <= i < |queues| && 0 <= n < |queues[i]| && queues[i][n].IsReadWrite()
        && queues[i][n].Row() != reservedRow && Serves(cfg, ch, clk, queues[i][n], answer.cmd);
      RaisedKinds(ch.banks[IdOf(queues[i][n].addr)], queues[i][n], clk);
    }
  }

  ghost predicate FromRefresh(cfg: Config, ch: Channel, clk: int, c: Command)
    requires ch.Valid(cfg)
  {
    ch.refreshQ != [] && Serves(cfg, ch, clk, ch.refreshQ[0], c)
  }

  lemma CycleOrigin(cfg: Config, structure: Structure, q: NQueue, ch: Channel, clk: int, remain: int, latency: int)
    requires ch.Valid(cfg) && ValidQueue(cfg, structure, q)
    ensures var s := CycleSelection(cfg, structure, q, ch, clk, remain, latency);
      && ValidQueue(cfg, structure, s.q) && Moves(q, s.q, s.answer)
      && (s.answer.Ready? && s.answer.cmd.IsPimHeader() ==> s.q.reservedRow == s.answer.cmd.Row())
      && (s.answer.Ready? ==>
            || FromRefresh(cfg, ch, clk, s.answer.cmd)
            || FromPim(cfg, structure, q, ch, clk, s.answer.cmd)
            || FromNormal(cfg, q.queues, s.q.reservedRow, ch, clk, s.answer.cmd))
  {
    if ch.refreshQ == [] {
      PimOrigin(cfg, structure, q, ch, clk, remain, latency);
    } else {
      assert ch.refreshQ[0].IsRefresh() && cfg.Addressed(ch.refreshQ[0]);
      var s := FinishRefresh(cfg, structure, q, ch, clk);
      if s.answer == NotReady {
        PimOrigin(cfg, structure, s.q, ch, clk, remain, latency);
      } else if s.answer.Ready? {
        PimQueueKinds(cfg, ch, clk, ch.refreshQ[0], s.answer.cmd);
      }
    }
  }

  /** Any command a cycle selects can be issued without reaching an exit branch. */
  lemma SelectedIsIssuable(cfg: Config, structure: Structure, q: NQueue, ch: Channel, clk: int, remain: int,
                           latency: int)
    requires ch.Valid(cfg) && ValidQueue(cfg, structure, q)
    ensures var s := CycleSelection(cfg, structure, q, ch, clk, remain, latency);
      s.answer.Ready? ==>
        && cfg.Addressed(s.answer.cmd)
        && (!s.answer.cmd.IsPimHeader() ==> !UpdateAborts(ch, s.answer.cmd))
        && exists req :: Serves(cfg, ch, clk, req, s.answer.cmd)
  {
    CycleOrigin(cfg, structure, q, ch, clk, remain, latency);
    var s := CycleSelection(cfg, structure, q, ch, clk, remain, latency);
    if s.answer.Ready? {
      var c := s.answer.cmd;
      var req := if FromRefresh(cfg, ch, clk, c) then ch.refreshQ[0]
        else if FromPim(cfg, structure, q, ch, clk, c) then q.pimQueue[0]
        else NormalSource(cfg, q.queues, s.q.reservedRow, ch, clk, c);
      assert Serves(cfg, ch, clk, req, c);
      Runs.CertifiedNeverAborts(cfg, ch, req, clk, c);
    }
  }

  ghost function NormalSource(cfg: Config, queues: seq<seq<Command>>, reservedRow: int, ch: Channel, clk: int,
                              c: Command): (req: Command)
    requires ch.Valid(cfg) && FromNormal(cfg, queues, reservedRow, ch, clk, c)
    ensures req.IsReadWrite() && req.Row() != reservedRow && Serves(cfg, ch, clk, req, c)
  {
    var i, n :| 0 <= i < |queues| && 0 <= n < |queues[i]| && queues[i][n].IsReadWrite()
      && queues[i][n].Row() != reservedRow && Serves(cfg, ch, clk, queues[i][n], c);
    queues[i][n]
  }

  // ---- runs ----

  /** The effect of the selected command: a header only opens a phase, everything else reaches the banks. An exit
      stops the run. */
  ghost function Step(cfg: Config, table: TimingTable, structure: Structure, size: nat, w: World, a: Action): World
    requires ValidWorld(cfg, structure, w)
  {
    match a
    case Cycle(arrival, remain, latency) =>
      var ch := Arrived(cfg, w.ch, arrival);
      var s := CycleSelection(cfg, structure, w.q, ch, w.clk, remain, latency);
      (match s.answer
       case Abort => w
       case NotReady => World(ch, w.clk + 1, s.q, w.phase)
       case Ready(c) =>
         if c.IsPimHeader() then World(ch, w.clk + 1, s.q, PhaseAfter(w.phase, c))
         else
           SelectedIsIssuable(cfg, structure, w.q, ch, w.clk, remain, latency);
           World(Issue(cfg, table, ch, c, w.clk), w.clk + 1, s.q, PhaseAfter(w.phase, c)))
    case Add(c) =>
      if Enters(cfg, structure, c) then w.(q := AddCommand(cfg, structure, w.q, size, c)) else w
    case GwriteDone => w.(q := FinishGwrite(w.q))
  }

  ghost predicate Enters(cfg: Config, structure: Structure, c: Command) {
    if c.PimQCommand() then PimEntry(cfg, c)
    else
      && c.IsReadWrite() && cfg.Has(IdOf(c.addr)) && c.Row() >= 0 && !c.isLastComps && c.numComps == 0
      && 0 <= QueueIndex(cfg, structure, c.addr) < NumQueues(cfg, structure)
  }

  /** The command the cycle selects, if any. */
  ghost function Selected(cfg: Config, structure: Structure, w: World, a: Action): Answer
    requires ValidWorld(cfg, structure, w) && a.Cycle?
  {
    CycleSelection(cfg, structure, w.q, Arrived(cfg, w.ch, a.arrival), w.clk, a.remainToRefresh, a.latency).answer
  }

  /** The assumptions on the environment: the PIM stream stays well-formed, and no refresh completes between a
      header and its last compute. */
  ghost predicate Admissible(cfg: Config, structure: Structure, size: nat, w: World, a: Action)
    requires ValidWorld(cfg, structure, w)
  {
    match a
    case Cycle(_, _, _) =>
      var answer := Selected(cfg, structure, w, a);
      w.phase.Gemv? && answer.Ready? ==> !answer.cmd.IsRefresh()
    case Add(c) => c.PimQCommand() && |w.q.pimQueue| < size ==> StreamOk(w.phase, w.q.pimQueue + [c])
    case GwriteDone => true
  }

  /** No bank has both buffers on one row. */
  ghost predicate Exclusive(ch: Channel) {
    forall id | id in ch.banks :: !ch.banks[id].Clash()
  }

  /** During a phase on `row` every PIM buffer is closed or on that row, and no normal buffer is on it. */
  ghost predicate Reserved(ch: Channel, row: int) {
    forall id | id in ch.banks ::
      (ch.banks[id].pim == Closed || ch.banks[id].pim == Open(row)) && ch.banks[id].normal != Open(row)
  }

  ghost predicate Inv(cfg: Config, structure: Structure, w: World) {
    && ValidWorld(cfg, structure, w)
    && StreamOk(w.phase, w.q.pimQueue)
    && Exclusive(w.ch)
    && (w.phase.Gemv? ==> w.q.reservedRow == w.phase.row && Reserved(w.ch, w.phase.row))
  }

  /** An issue keeps both buffers apart, and the reservation, if a group activation only comes in a phase and on
      its row, and an activation never on the phase's row. */
  lemma IssueKeepsApart(cfg: Config, table: TimingTable, ch: Channel, clk: int, req: Command, c: Command, phase: Phase)
    requires ch.Valid(cfg) && Serves(cfg, ch, clk, req, c) && !c.IsPimHeader() && cfg.Addressed(c)
    requires !UpdateAborts(ch, c)
    requires Exclusive(ch) && (phase.Gemv? ==> Reserved(ch, phase.row))
    requires c.kind == GAct ==> phase == Gemv(c.Row())
    requires c.kind == Activate ==> phase != Gemv(c.Row())
    ensures Exclusive(Issue(cfg, table, ch, c, clk))
    ensures phase.Gemv? ==> Reserved(Issue(cfg, table, ch, c, clk), phase.row)
  {
    ReadyIsCertified(cfg, ch, req, clk);
    Runs.IssueRows(cfg, table, ch, c, clk);
    var ch' := Issue(cfg, table, ch, c, clk);
    forall id | id in ch'.banks
      ensures !ch'.banks[id].Clash()
      ensures phase.Gemv? ==> (ch'.banks[id].pim == Closed || ch'.banks[id].pim == Open(phase.row))
                              && ch'.banks[id].normal != Open(phase.row)
    {
      assert !ch.banks[id].Clash();
      if c.kind == Activate && Affects(c, id) {
        CertifiedUpdateIsDefined(ch.banks[id], req, clk);
      }
    }
  }

  /** A consumed header leaves every PIM buffer closed or on its row, and no normal buffer on it. */
  lemma HeaderReserves(cfg: Config, ch: Channel, clk: int, req: Command, c: Command)
    requires ch.Valid(cfg) && Serves(cfg, ch, clk, req, c) && c.IsPimHeader() && Exclusive(ch)
    ensures Reserved(ch, c.Row())
  {
    PimQueueKinds(cfg, ch, clk, req, c);
    ReadyIsCertified(cfg, ch, req, clk);
    forall id | id in ch.banks
      ensures (ch.banks[id].pim == Closed || ch.banks[id].pim == Open(c.Row())) && ch.banks[id].normal != Open(c.Row())
    {
      assert Gated(c, id);
      assert !ch.banks[id].Clash();
    }
  }

  lemma StreamExtends(phase: Phase, s: seq<Command>, c: Command)
    requires StreamOk(phase, s + [c])
    ensures StreamOk(phase, s)
    decreases |s|
  {
    if s != [] {
      assert (s + [c])[1..] == s[1..] + [c];
      StreamExtends(PhaseAfter(phase, s[0]), s[1..], c);
    }
  }

  lemma AddKeepsValid(cfg: Config, structure: Structure, q: NQueue, size: nat, c: Command)
    requires ValidQueue(cfg, structure, q) && Enters(cfg, structure, c)
    ensures ValidQueue(cfg, structure, AddCommand(cfg, structure, q, size, c))
  {
    var q' := AddCommand(cfg, structure, q, size, c);
    forall i, n | 0 <= i < |q'.queues| && 0 <= n < |q'.queues[i]|
      ensures NormalEntry(cfg, structure, q'.queues[i][n], i)
    {
      if n < |q.queues[i]| { assert NormalEntry(cfg, structure, q.queues[i][n], i); }
    }
  }

  /** The request a selected command serves. */
  ghost function SourceOf(cfg: Config, structure: Structure, w: World, a: Action): (req: Command)
    requires ValidWorld(cfg, structure, w) && a.Cycle? && Selected(cfg, structure, w, a).Ready?
    ensures Serves(cfg, Arrived(cfg, w.ch, a.arrival), w.clk, req, Selected(cfg, structure, w, a).cmd)
    ensures var s := CycleSelection(cfg, structure, w.q, Arrived(cfg, w.ch, a.arrival), w.clk, a.remainToRefresh,
                                    a.latency);
      req.IsRefresh() || (w.q.pimQueue != [] && req == w.q.pimQueue[0])
        || (req.IsReadWrite() && req.Row() != s.q.reservedRow)
  {
    var ch := Arrived(cfg, w.ch, a.arrival);
    var s := CycleSelection(cfg, structure, w.q, ch, w.clk, a.remainToRefresh, a.latency);
    CycleOrigin(cfg, structure, w.q, ch, w.clk, a.remainToRefresh, a.latency);
    if FromRefresh(cfg, ch, w.clk, s.answer.cmd) then ch.refreshQ[0]
    else if FromPim(cfg, structure, w.q, ch, w.clk, s.answer.cmd) then w.q.pimQueue[0]
    else NormalSource(cfg, w.q.queues, s.q.reservedRow, ch, w.clk, s.answer.cmd)
  }

  /** Stream and reservation after a cycle. */
  lemma CycleKeepsStream(cfg: Config, structure: Structure, size: nat, w: World, a: Action)
    requires Inv(cfg, structure, w) && a.Cycle? && Admissible(cfg, structure, size, w, a)
    ensures var s := CycleSelection(cfg, structure, w.q, Arrived(cfg, w.ch, a.arrival), w.clk, a.remainToRefresh,
                                    a.latency);
      var phase := if s.answer.Ready? then PhaseAfter(w.phase, s.answer.cmd) else w.phase;
      && ValidQueue(cfg, structure, s.q)
      && StreamOk(phase, s.q.pimQueue)
      && (w.phase.Gemv? ==> s.q.reservedRow == w.phase.row)
      && (phase.Gemv? ==> s.q.reservedRow == phase.row)
  {
    hide CycleSelection, ValidQueue;
    var ch := Arrived(cfg, w.ch, a.arrival);
    CycleOrigin(cfg, structure, w.q, ch, w.clk, a.remainToRefresh, a.latency);
    var answer := Selected(cfg, structure, w, a);
    if answer.Ready? {
      var req := SourceOf(cfg, structure, w, a);
      PimQueueKinds(cfg, ch, w.clk, req, answer.cmd);
      RequestKind(cfg, structure, w, req);
    }
  }

  lemma CycleKeepsInv(cfg: Config, table: TimingTable, structure: Structure, size: nat, w: World, a: Action)
    requires Inv(cfg, structure, w) && a.Cycle? && Admissible(cfg, structure, size, w, a)
    ensures Inv(cfg, structure, Step(cfg, table, structure, size, w, a))
  {
    hide CycleSelection;
    var ch := Arrived(cfg, w.ch, a.arrival);
    CycleKeepsStream(cfg, structure, size, w, a);
    SelectedIsIssuable(cfg, structure, w.q, ch, w.clk, a.remainToRefresh, a.latency);
    var answer := Selected(cfg, structure, w, a);
    if answer.Ready? {
      var c, req := answer.cmd, SourceOf(cfg, structure, w, a);
      PimQueueKinds(cfg, ch, w.clk, req, c);
      RequestKind(cfg, structure, w, req);
      if c.IsPimHeader() {
        HeaderReserves(cfg, ch, w.clk, req, c);
      } else {
        ActivateRow(cfg, ch, w.clk, req, c);
        IssueKeepsApart(cfg, table, ch, w.clk, req, c, w.phase);
        Runs.IssueKeepsValid(cfg, table, ch, c, w.clk);
      }
    }
  }

  lemma ActivateRow(cfg: Config, ch: Channel, clk: int, req: Command, c: Command)
    requires ch.Valid(cfg) && Serves(cfg, ch, clk, req, c)
    ensures c.kind in {Activate, GAct} ==> c.Row() == req.Row()
  {
    ReadyIsCertified(cfg, ch, req, clk);
  }

  /** Who can ask for what: headers and GWRITEs only outside a phase, computes only inside one and on its row. */
  lemma RequestKind(cfg: Config, structure: Structure, w: World, req: Command)
    requires Inv(cfg, structure, w)
    requires (w.q.pimQueue != [] && req == w.q.pimQueue[0]) || req.IsReadWrite() || req.IsRefresh()
    ensures req.IsChannelCmd() ==> w.phase == Gemv(req.Row())
    ensures req.IsPimHeader() || req.IsGwrite() ==> w.phase == Idle
  {
  }

  /** Any step, admissible or not, leaves a well-formed world. */
  lemma StepKeepsValid(cfg: Config, table: TimingTable, structure: Structure, size: nat, w: World, a: Action)
    requires ValidWorld(cfg, structure, w)
    ensures ValidWorld(cfg, structure, Step(cfg, table, structure, size, w, a))
  {
    match a
    case Cycle(arrival, remain, latency) =>
      var ch := Arrived(cfg, w.ch, arrival);
      CycleOrigin(cfg, structure, w.q, ch, w.clk, remain, latency);
      SelectedIsIssuable(cfg, structure, w.q, ch, w.clk, remain, latency);
      var answer := Selected(cfg, structure, w, a);
      if answer.Ready? && !answer.cmd.IsPimHeader() { Runs.IssueKeepsValid(cfg, table, ch, answer.cmd, w.clk); }
    case Add(c) => if Enters(cfg, structure, c) { AddKeepsValid(cfg, structure, w.q, size, c); }
    case GwriteDone =>
  }

  /** One step of an admissible run keeps the protocol invariant. */
  lemma StepKeepsInv(cfg: Config, table: TimingTable, structure: Structure, size: nat, w: World, a: Action)
    requires Inv(cfg, structure, w) && Admissible(cfg, structure, size, w, a)
    ensures Inv(cfg, structure, Step(cfg, table, structure, size, w, a))
  {
    match a
    case Cycle(_, _, _) => CycleKeepsInv(cfg, table, structure, size, w, a);
    case Add(c) => if Enters(cfg, structure, c) { AddKeepsValid(cfg, structure, w.q, size, c); }
    case GwriteDone =>
  }

  // ---- the claims over runs ----

  ghost function Start(cfg: Config, structure: Structure): World
    requires cfg.Valid()
  {
    World(Initial(cfg), 0, EmptyQueue(cfg, structure), Idle)
  }

  /** The world after a run; `Admitted` says every step of it met the assumptions. */
  ghost function Exec(cfg: Config, table: TimingTable, structure: Structure, size: nat,
                      actions: seq<Action>): (w: World)
    requires cfg.Valid() && Admitted(cfg, table, structure, size, actions)
    ensures Inv(cfg, structure, w)
    decreases |actions|, 1
  {
    if actions == [] then (StartIsSafe(cfg, structure); Start(cfg, structure))
    else
      var w, a := Exec(cfg, table, structure, size, actions[..|actions| - 1]), actions[|actions| - 1];
      StepKeepsInv(cfg, table, structure, size, w, a);
      Step(cfg, table, structure, size, w, a)
  }

  ghost predicate Admitted(cfg: Config, table: TimingTable, structure: Structure, size: nat, actions: seq<Action>)
    requires cfg.Valid()
    decreases |actions|, 0
  {
    actions == [] ||
      (Admitted(cfg, table, structure, size, actions[..|actions| - 1])
       && Admissible(cfg, structure, size, Exec(cfg, table, structure, size, actions[..|actions| - 1]),
                     actions[|actions| - 1]))
  }

  lemma StartIsSafe(cfg: Config, structure: Structure)
    requires cfg.Valid()
    ensures Inv(cfg, structure, Start(cfg, structure))
  {
    if structure.PerBank? {
      Positive(cfg.bankgroups, cfg.banksPerGroup);
      Positive(cfg.ranks, cfg.bankgroups * cfg.banksPerGroup);
    }
  }

  /** Dual-buffer exclusion: after any admissible run no bank holds one row in both buffers. */
  lemma DualBufferExclusion(cfg: Config, table: TimingTable, structure: Structure, size: nat, actions: seq<Action>)
    requires cfg.Valid() && Admitted(cfg, table, structure, size, actions)
    ensures forall id | cfg.Has(id) ::
      var b := Exec(cfg, table, structure, size, actions).ch.banks[id];
      b.normal.Open? && b.pim.Open? ==> b.normal.row != b.pim.row
  {
    var w := Exec(cfg, table, structure, size, actions);
    forall id | cfg.Has(id)
      ensures !w.ch.banks[id].Clash()
    {
      assert id in w.ch.banks;
    }
  }

  /** In a safe world a selected compute or group activation belongs to the current phase and to its row. */
  lemma SelectedInPhase(cfg: Config, structure: Structure, w: World, a: Action)
    requires Inv(cfg, structure, w) && a.Cycle? && Selected(cfg, structure, w, a).Ready?
    ensures var c := Selected(cfg, structure, w, a).cmd;
      c.kind in {CompsReadres, GAct} ==> w.phase == Gemv(c.Row())
  {
    var ch := Arrived(cfg, w.ch, a.arrival);
    var c, req := Selected(cfg, structure, w, a).cmd, SourceOf(cfg, structure, w, a);
    PimQueueKinds(cfg, ch, w.clk, req, c);
    RequestKind(cfg, structure, w, req);
    ActivateRow(cfg, ch, w.clk, req, c);
  }

  /** Compute safety: whenever, after an admissible run, the next cycle issues COMPS_READRES, a header opened the
      current phase on the command's row and every bank has its PIM buffer open on exactly that row. */
  lemma ComputeSafety(cfg: Config, table: TimingTable, structure: Structure, size: nat, actions: seq<Action>, a: Action)
    requires cfg.Valid() && Admitted(cfg, table, structure, size, actions) && a.Cycle?
    ensures var w := Exec(cfg, table, structure, size, actions);
      var answer := Selected(cfg, structure, w, a);
      answer.Ready? && answer.cmd.kind == CompsReadres ==>
        w.phase == Gemv(answer.cmd.Row()) && forall id | cfg.Has(id) :: w.ch.banks[id].pim == Open(answer.cmd.Row())
  {
    var w := Exec(cfg, table, structure, size, actions);
    if Selected(cfg, structure, w, a).Ready? && Selected(cfg, structure, w, a).cmd.kind == CompsReadres {
      var ch := Arrived(cfg, w.ch, a.arrival);
      var c, req := Selected(cfg, structure, w, a).cmd, SourceOf(cfg, structure, w, a);
      SelectedInPhase(cfg, structure, w, a);
      PimQueueKinds(cfg, ch, w.clk, req, c);
      ReadyIsCertified(cfg, ch, req, w.clk);
      forall id | cfg.Has(id)
        ensures w.ch.banks[id].pim == Open(c.Row())
      {
        assert id in ch.banks && Gated(c, id);
        ComputeNeedsOpenPim(ch.banks[id], req, w.clk);
      }
    }
  }

  lemma ComputeNeedsOpenPim(b: Bank, req: Command, clk: int)
    requires req.IsChannelCmd() && b.GetReady(req, clk).Ready? && b.GetReady(req, clk).cmd.kind == CompsReadres
    ensures b.pim.Open?
  {
  }

  /** Whenever the next cycle issues G_ACT, no bank of the group has another row open in its PIM buffer, nor the
      command's row in its normal one. */
  lemma GroupActivationSafety(cfg: Config, table: TimingTable, structure: Structure, size: nat, actions: seq<Action>,
                              a: Action)
    requires cfg.Valid() && Admitted(cfg, table, structure, size, actions) && a.Cycle?
    ensures var w := Exec(cfg, table, structure, size, actions);
      var answer := Selected(cfg, structure, w, a);
      answer.Ready? && answer.cmd.kind == GAct ==>
        var row := answer.cmd.Row();
        w.phase == Gemv(row)
        && forall id | cfg.Has(id) && Affects(answer.cmd, id) ::
             (w.ch.banks[id].pim.Open? ==> w.ch.banks[id].pim.row == row) && w.ch.banks[id].normal != Open(row)
  {
    var w := Exec(cfg, table, structure, size, actions);
    if Selected(cfg, structure, w, a).Ready? && Selected(cfg, structure, w, a).cmd.kind == GAct {
      SelectedInPhase(cfg, structure, w, a);
      assert Reserved(w.ch, w.phase.row);
    }
  }

  // ---- where the claims stop ----

  /** G_ACT looks at no normal buffer: it keeps the buffers apart exactly when no bank of its group has the row
      open in its normal buffer. */
  lemma GroupActivationExact(cfg: Config, table: TimingTable, ch: Channel, c: Command, clk: int)
    requires ch.Valid(cfg) && cfg.Addressed(c) && c.kind == GAct && !UpdateAborts(ch, c) && Exclusive(ch)
    ensures Exclusive(Issue(cfg, table, ch, c, clk))
       <==> forall id | id in ch.banks && Affects(c, id) :: ch.banks[id].normal != Open(c.Row())
  {
    Runs.IssueRows(cfg, table, ch, c, clk);
    var ch' := Issue(cfg, table, ch, c, clk);
    if Exclusive(ch') {
      forall id | id in ch.banks && Affects(c, id)
        ensures ch.banks[id].normal != Open(c.Row())
      {
        assert !ch'.banks[id].Clash();
      }
    } else {
      var id :| id in ch'.banks && ch'.banks[id].Clash();
      assert !ch.banks[id].Clash();
    }
  }
}
