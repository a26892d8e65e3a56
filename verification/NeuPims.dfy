/** The NeuPIMs command queue as a value: which command leaves it each cycle, with the header, the row
    reservation, the GWRITE hold and the slack budget. The class NeuPimsCommandQueue is proved against it. */
module NeuPims {
  import opened Commands
  import opened Banks
  import opened Channels
  import opened Queues

  datatype NQueue = NQueue(
    queues: seq<seq<Command>>, pimQueue: seq<Command>, queueIdx: int,
    isInRef: bool, refQIndices: set<int>, skipPim: bool, remainSlack: int,
    reservedRow: int, isGwriting: bool, gwriteTarget: Address)

  /** What one selection returns: the command and the queue state it leaves. */
  datatype Selection = Selection(answer: Answer, q: NQueue)

  predicate NormalEntry(cfg: Config, structure: Structure, c: Command, idx: int) {
    c.IsReadWrite() && cfg.Has(IdOf(c.addr)) && c.Row() >= 0 && QueueIndex(cfg, structure, c.addr) == idx
    && !c.isLastComps && c.numComps == 0
  }

  predicate PimEntry(cfg: Config, c: Command) {
    && c.PimQCommand() && c.Row() >= 0
    && (c.IsGwrite() ==> cfg.Has(IdOf(c.addr)))
  }

  ghost predicate ValidPim(cfg: Config, queue: seq<Command>) {
    forall n | 0 <= n < |queue| :: PimEntry(cfg, queue[n])
  }

  ghost predicate ValidQueue(cfg: Config, structure: Structure, q: NQueue) {
    && |q.queues| == NumQueues(cfg, structure)
    && 0 <= q.queueIdx < |q.queues|
    && (forall i, n | 0 <= i < |q.queues| && 0 <= n < |q.queues[i]| :: NormalEntry(cfg, structure, q.queues[i][n], i))
    && ValidPim(cfg, q.pimQueue)
  }

  ghost predicate ValidNormal(cfg: Config, structure: Structure, queue: seq<Command>, idx: int) {
    forall n | 0 <= n < |queue| :: NormalEntry(cfg, structure, queue[n], idx)
  }

  function EmptyQueue(cfg: Config, structure: Structure): NQueue {
    NQueue(seq(NumQueues(cfg, structure), _ => []), [], 0, false, {}, false, 0, -1, false, NO_ADDRESS)
  }

  /** Slack left before the next refresh after an operation of the estimated latency, never below 0. */
  function SlackLeft(remainToRefresh: int, latency: int): int {
    if remainToRefresh - latency > 0 then remainToRefresh - latency else 0
  }

  /** Only the head of the PIM queue is ever considered. */
  function ReadyInPim(cfg: Config, q: NQueue, ch: Channel, clk: int, remainToRefresh: int, latency: int): Selection
    requires ch.Valid(cfg) && ValidPim(cfg, q.pimQueue)
  {
    if q.pimQueue == [] then Selection(NotReady, q)
    else
      var head := q.pimQueue[0];
      if q.isGwriting then
        Selection(if head.IsGwrite() then GetReadyCommand(cfg, ch, head, clk) else NotReady, q)
      else if head.IsGwrite() || head.IsPimHeader() then
        var budgeted := q.(remainSlack := SlackLeft(remainToRefresh, latency));
        if remainToRefresh - latency > 0 then
          Selection(GetReadyCommand(cfg, ch, head, clk),
                    if head.IsGwrite() then budgeted.(isGwriting := true, gwriteTarget := head.addr)
                    else budgeted.(reservedRow := head.Row()))
        else
          Selection(NotReady, budgeted.(skipPim := true))
      else
        Selection(GetReadyCommand(cfg, ch, head, clk), q)
  }

  /** An entry the selection passes over: it wants the reserved row, or the bank a GWRITE holds. */
  predicate HeldBack(q: NQueue, c: Command) {
    q.reservedRow == c.Row() || (q.isGwriting && SameBank(q.gwriteTarget, c.addr))
  }

  /** Selection in one normal queue from entry `n` on; the int is the slack left afterwards. */
  function FirstReady(cfg: Config, structure: Structure, q: NQueue, ch: Channel, clk: int,
                      queue: seq<Command>, idx: int, n: int): (Answer, int)
    requires ch.Valid(cfg) && ValidNormal(cfg, structure, queue, idx) && 0 <= n <= |queue|
    decreases |queue| - n
  {
    if n == |queue| then (NotReady, q.remainSlack)
    else if HeldBack(q, queue[n]) then FirstReady(cfg, structure, q, ch, clk, queue, idx, n + 1)
    else
      match GetReadyCommand(cfg, ch, queue[n], clk)
      case Abort => (Abort, q.remainSlack)
      case NotReady => FirstReady(cfg, structure, q, ch, clk, queue, idx, n + 1)
      case Ready(c) =>
        if c.kind == Precharge && !ArbitratePrecharge(cfg, ch, queue, n) then
          FirstReady(cfg, structure, q, ch, clk, queue, idx, n + 1)
        else if c.IsWrite() && HasRWDependency(queue, n) then
          FirstReady(cfg, structure, q, ch, clk, queue, idx, n + 1)
        else if q.remainSlack > 0 && q.pimQueue != [] then
          if c.kind == Precharge then
            if q.remainSlack > cfg.tRP + cfg.tRCDWR then (Ready(c), q.remainSlack - cfg.tRP)
            else FirstReady(cfg, structure, q, ch, clk, queue, idx, n + 1)
          else if c.kind == Activate then
            if q.remainSlack > cfg.tRCDWR then (Ready(c), q.remainSlack - cfg.tRCDWR)
            else FirstReady(cfg, structure, q, ch, clk, queue, idx, n + 1)
          else if c.kind == queue[n].kind then (Ready(c), q.remainSlack)
          else (Abort, q.remainSlack)   // the assertion that the command is the entry itself
        else (Ready(c), q.remainSlack)
  }

  /** A selected command names the queue it was selected from. */
  lemma {:induction false} FirstReadyStaysInQueue(cfg: Config, structure: Structure, q: NQueue, ch: Channel, clk: int,
                                                  queue: seq<Command>, idx: int, n: int)
    requires ch.Valid(cfg) && ValidNormal(cfg, structure, queue, idx) && 0 <= n <= |queue|
    ensures var answer := FirstReady(cfg, structure, q, ch, clk, queue, idx, n).0;
      answer.Ready? ==> QueueIndex(cfg, structure, answer.cmd.addr) == idx && !answer.cmd.PimQCommand()
    decreases |queue| - n
  {
    if n < |queue| {
      RaisedFor(cfg, structure, ch, queue[n], clk, idx);
      FirstReadyStaysInQueue(cfg, structure, q, ch, clk, queue, idx, n + 1);
    }
  }

  lemma RaisedFor(cfg: Config, structure: Structure, ch: Channel, entry: Command, clk: int, idx: int)
    requires ch.Valid(cfg) && NormalEntry(cfg, structure, entry, idx)
    ensures GetReadyCommand(cfg, ch, entry, clk).Ready? ==>
      GetReadyCommand(cfg, ch, entry, clk).cmd.addr == entry.addr
        && !GetReadyCommand(cfg, ch, entry, clk).cmd.PimQCommand()
  {
  }

  /** The round over the normal queues, `left` of them still to visit. */
  function RoundRobin(cfg: Config, structure: Structure, q: NQueue, ch: Channel, clk: int, left: nat): Selection
    requires ch.Valid(cfg) && ValidQueue(cfg, structure, q)
    decreases left
  {
    if left == 0 then Selection(NotReady, q)
    else
      var q1 := q.(queueIdx := NextIndex(q.queueIdx, |q.queues|));
      if q1.isInRef && q1.queueIdx in q1.refQIndices then RoundRobin(cfg, structure, q1, ch, clk, left - 1)
      else
        var s := ServeQueue(cfg, structure, q1, ch, clk);
        if s.answer == NotReady then RoundRobin(cfg, structure, q1, ch, clk, left - 1) else s
  }

  /** One turn of the round: the current queue's selection, with a read or write taken out of it. */
  function ServeQueue(cfg: Config, structure: Structure, q: NQueue, ch: Channel, clk: int): Selection
    requires ch.Valid(cfg) && ValidQueue(cfg, structure, q)
  {
    var i := q.queueIdx;
    var (answer, slack) := FirstReady(cfg, structure, q, ch, clk, q.queues[i], i, 0);
    Selection(answer,
      if answer.Ready? && answer.cmd.IsReadWrite()
      then q.(remainSlack := slack, queues := q.queues[i := Erased(q.queues[i], answer.cmd)])
      else q.(remainSlack := slack))
  }

  lemma {:induction false} UnreadyKeepsSlack(cfg: Config, structure: Structure, q: NQueue, ch: Channel, clk: int,
                                             queue: seq<Command>, idx: int, n: int)
    requires ch.Valid(cfg) && ValidNormal(cfg, structure, queue, idx) && 0 <= n <= |queue|
    ensures !FirstReady(cfg, structure, q, ch, clk, queue, idx, n).0.Ready?
      ==> FirstReady(cfg, structure, q, ch, clk, queue, idx, n).1 == q.remainSlack
    decreases |queue| - n
  {
    if n < |queue| { UnreadyKeepsSlack(cfg, structure, q, ch, clk, queue, idx, n + 1); }
  }

  lemma {:induction false} ErasedKeepsEntries(queue: seq<Command>, c: Command)
    ensures forall n | 0 <= n < |Erased(queue, c)| :: Erased(queue, c)[n] in queue
  {
    if queue != [] && !Matches(queue[0], c) { ErasedKeepsEntries(queue[1..], c); }
  }

  lemma ErasedKeepsPim(cfg: Config, queue: seq<Command>, c: Command)
    requires ValidPim(cfg, queue)
    ensures ValidPim(cfg, Erased(queue, c))
  {
    ErasedKeepsEntries(queue, c);
  }

  lemma {:induction false} RoundRobinKeepsValid(cfg: Config, structure: Structure, q: NQueue, ch: Channel, clk: int,
                                                left: nat)
    requires ch.Valid(cfg) && ValidQueue(cfg, structure, q)
    ensures ValidQueue(cfg, structure, RoundRobin(cfg, structure, q, ch, clk, left).q)
    decreases left
  {
    if left > 0 {
      var q1 := q.(queueIdx := NextIndex(q.queueIdx, |q.queues|));
      RoundRobinKeepsValid(cfg, structure, q1, ch, clk, left - 1);
      var answer := FirstReady(cfg, structure, q1, ch, clk, q1.queues[q1.queueIdx], q1.queueIdx, 0).0;
      if answer.Ready? { ErasedKeepsEntries(q1.queues[q1.queueIdx], answer.cmd); }
    }
  }

  /** The PIM queue goes first unless skipped or a refresh is latched; without ten cycles of slack its failure
      ends the cycle. */
  function GetCommandToIssue(cfg: Config, structure: Structure, q: NQueue, ch: Channel, clk: int,
                             remainToRefresh: int, latency: int): Selection
    requires ch.Valid(cfg) && ValidQueue(cfg, structure, q)
  {
    if !q.skipPim && q.pimQueue != [] && !q.isInRef then
      var s := ReadyInPim(cfg, q, ch, clk, remainToRefresh, latency);
      match s.answer
      case Abort => s
      case Ready(c) =>
        Selection(s.answer, if c.IsPimCommand() || c.IsPimHeader() then s.q.(pimQueue := Erased(s.q.pimQueue, c))
                  else s.q)
      case NotReady =>
        if s.q.remainSlack < 10 then s else RoundRobin(cfg, structure, s.q, ch, clk, |s.q.queues|)
    else RoundRobin(cfg, structure, q, ch, clk, |q.queues|)
  }

  /** The pending refresh is latched; until it can issue, what it needs first is returned. */
  function FinishRefresh(cfg: Config, structure: Structure, q: NQueue, ch: Channel, clk: int): Selection
    requires ch.Valid(cfg) && ch.refreshQ != []
  {
    var ref := ch.refreshQ[0];
    var latched := if q.isInRef then q
      else q.(isInRef := true, refQIndices := q.refQIndices + RefQIndices(cfg, structure, ref.Rank()));
    var answer := GetReadyCommand(cfg, ch, ref, clk);
    Selection(answer,
      if answer.Ready? && answer.cmd.IsRefresh() then
        latched.(isInRef := false, refQIndices := {}, skipPim := false, remainSlack := 0, reservedRow := -1)
      else latched)
  }

  /** One controller cycle up to the choice of the command: a waiting refresh first, then the queues. */
  function CycleSelection(cfg: Config, structure: Structure, q: NQueue, ch: Channel, clk: int,
                          remainToRefresh: int, latency: int): Selection
    requires ch.Valid(cfg) && ValidQueue(cfg, structure, q)
  {
    if ch.refreshQ == [] then GetCommandToIssue(cfg, structure, q, ch, clk, remainToRefresh, latency)
    else
      var s := FinishRefresh(cfg, structure, q, ch, clk);
      if s.answer == NotReady then GetCommandToIssue(cfg, structure, s.q, ch, clk, remainToRefresh, latency) else s
  }

  /** A command joins its queue if the queue has room, else it is dropped. */
  function AddCommand(cfg: Config, structure: Structure, q: NQueue, size: nat, c: Command): NQueue
    requires |q.queues| == NumQueues(cfg, structure)
    requires c.PimQCommand() || 0 <= QueueIndex(cfg, structure, c.addr) < |q.queues|
  {
    if c.PimQCommand() then
      if |q.pimQueue| < size then q.(pimQueue := q.pimQueue + [c]) else q
    else
      var idx := QueueIndex(cfg, structure, c.addr);
      if |q.queues[idx]| < size then q.(queues := q.queues[idx := q.queues[idx] + [c]]) else q
  }

  function FinishGwrite(q: NQueue): NQueue {
    q.(isGwriting := false, remainSlack := 0)
  }
}
