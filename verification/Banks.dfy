/** One DRAM bank with two row buffers. */
module Banks {
  // The original keeps these records by value inside the channel's vectors, so they are values here and the channel's
  // array stores them.

  import opened Commands

  datatype RowBuffer = Closed | Open(row: int)

  /** `timing` holds the earliest cycle a command type may issue; a missing entry is the initial 0. */
  datatype Bank = Bank(normal: RowBuffer, pim: RowBuffer, rowHits: nat, timing: map<CommandType, int>) {
    function Earliest(kind: CommandType): int {
      if kind in timing then timing[kind] else 0
    }

    function OpenRow(): int {
      if normal.Open? then normal.row else -1
    }

    /** Both buffers hold the same row. */
    predicate Clash() {
      normal.Open? && pim.Open? && normal.row == pim.row
    }

    /** `required`, with the request's address, if its time has come. */
    function Timed(required: CommandType, cmd: Command, clk: int): Answer {
      if clk >= Earliest(required) then Ready(cmd.(kind := required)) else NotReady
    }

    function GetReadyPim(cmd: Command, clk: int): Answer
      requires cmd.IsPimBufferCommand()
    {
      match pim
      case Closed =>
        (match cmd.kind
         case PHeader => if normal == Open(cmd.Row()) then Timed(Precharge, cmd, clk) else Ready(cmd)
         case GAct => if normal == Open(cmd.Row()) then Abort else Timed(GAct, cmd, clk)
         case CompsReadres => Timed(GAct, cmd, clk)
         case _ => Abort)
      case Open(row) =>
        (match cmd.kind
         case PHeader => if cmd.Row() == row then Ready(cmd) else Timed(PimPrecharge, cmd, clk)
         case GAct => Abort
         case _ => Timed(cmd.kind, cmd, clk))
    }

    /** A normal-buffer answer drops the compute fields of the request. */
    function GetReadyNormal(cmd: Command, clk: int): Answer
      requires cmd.IsNormalBufferCommand()
    {
      var plain := cmd.(isLastComps := false, numComps := 0);
      match normal
      case Closed =>
        (match cmd.kind
         case Read | Write | Gwrite =>
           Timed(if pim == Open(cmd.Row()) then PimPrecharge else Activate, plain, clk)
         case Refresh => Timed(if pim.Closed? then Refresh else PimPrecharge, plain, clk)
         case _ => Abort)
      case Open(row) =>
        (match cmd.kind
         case Read | Write | Gwrite => Timed(if cmd.Row() == row then cmd.kind else Precharge, plain, clk)
         case Refresh => Timed(Precharge, plain, clk)
         case _ => Abort)
    }

    function GetReady(cmd: Command, clk: int): Answer {
      if cmd.IsPimBufferCommand() then GetReadyPim(cmd, clk)
      else if cmd.IsNormalBufferCommand() then GetReadyNormal(cmd, clk)
      else Abort
    }

    /** Whether the state update of `cmd` reaches a branch that exits the simulator. */
    predicate UpdateAborts(cmd: Command) {
      match cmd.kind
      case Read | Write | Gwrite | Precharge => normal.Closed?
      case Activate => normal.Open?
      case Refresh => normal.Open? || pim.Open?
      case CompsReadres | PimPrecharge => pim.Closed?
      case GAct => false
      case PHeader | Size => true
    }

    function UpdateNormal(cmd: Command): Bank
      requires cmd.IsNormalBufferCommand() && !UpdateAborts(cmd)
    {
      match cmd.kind
      case Read | Write => this.(rowHits := rowHits + 1)
      case Precharge => this.(normal := Closed, rowHits := 0)
      case Activate => this.(normal := Open(cmd.Row()))
      case _ => this
    }

    function UpdatePim(cmd: Command): Bank
      requires cmd.IsPimBufferCommand() && !UpdateAborts(cmd)
    {
      match cmd.kind
      case GAct => this.(pim := Open(cmd.Row()))
      case PimPrecharge => this.(pim := Closed)
      case _ => this
    }

    function Update(cmd: Command): Bank
      requires !UpdateAborts(cmd)
    {
      if cmd.IsPimBufferCommand() then UpdatePim(cmd) else UpdateNormal(cmd)
    }

    function UpdateTiming(kind: CommandType, time: int): Bank {
      this.(timing := timing[kind := if Earliest(kind) >= time then Earliest(kind) else time])
    }
  }

  function Max(a: int, b: int): int { if a >= b then a else b }

  const FRESH_BANK := Bank(Closed, Closed, 0, map[])

  lemma UpdateKeepsTiming(b: Bank, c: Command)
    requires !b.UpdateAborts(c)
    ensures b.Update(c).timing == b.timing
  {
  }

  /** A command that a bank certifies for itself never reaches an exit branch of that bank's state update,
      and has met the bank's earliest time; a certified ACTIVATE never opens the row the PIM buffer holds. */
  lemma CertifiedUpdateIsDefined(b: Bank, cmd: Command, clk: int)
    requires b.GetReady(cmd, clk).Ready?
    ensures var c := b.GetReady(cmd, clk).cmd;
      && !(c.kind == PHeader && c != cmd)
      && (c.kind != PHeader ==> !b.UpdateAborts(c) && clk >= b.Earliest(c.kind))
      && (c.kind == Activate ==> b.pim != Open(c.Row()))
      && c.addr == cmd.addr && c.hexAddr == cmd.hexAddr
      && c.IsValid()
  {
  }

  // ---- how a bank gets to what it is asked for ----

  predicate Asked(cmd: Command) { cmd.kind in {Read, Write, Gwrite, Refresh, PHeader, CompsReadres} }

  function One(b: bool): nat { if b then 1 else 0 }

  /** Preparations between a bank's state and the request: a column command needs its row in the normal buffer and
      not in the PIM buffer when it is activated, a refresh both buffers closed, a header neither another PIM row
      nor its own row in the normal buffer, a compute an open PIM row. */
  function StepsTo(b: Bank, cmd: Command): nat
    requires Asked(cmd)
  {
    match cmd.kind
    case Read | Write | Gwrite =>
      if b.normal == Open(cmd.Row()) then 0 else One(b.normal.Open?) + One(b.pim == Open(cmd.Row())) + 1
    case Refresh => One(b.normal.Open?) + One(b.pim.Open?)
    case PHeader =>
      if b.pim == Open(cmd.Row()) then 0 else One(b.pim.Open?) + One(b.normal == Open(cmd.Row()))
    case _ => One(b.pim.Closed?)
  }

  /** The times a bank may be waiting for. */
  predicate Due(b: Bank, clk: int) { forall kind :: b.Earliest(kind) <= clk }

  /** A bank answers with the request itself exactly when nothing is left to prepare, and every preparation it asks for
      brings it one step nearer; with no delays pending it always answers. */
  lemma EveryPreparationIsAStep(b: Bank, cmd: Command, clk: int)
    requires Asked(cmd)
    ensures Due(b, clk) ==> b.GetReady(cmd, clk).Ready?
    ensures b.GetReady(cmd, clk).Ready? ==>
      var c := b.GetReady(cmd, clk).cmd;
      && c.addr == cmd.addr
      && (c.kind == cmd.kind <==> StepsTo(b, cmd) == 0)
      && (c.kind != cmd.kind ==> !b.UpdateAborts(c) && StepsTo(b.Update(c), cmd) == StepsTo(b, cmd) - 1)
  {
    if Due(b, clk) {
      assert forall kind :: b.Earliest(kind) <= clk;
      assert b.Earliest(Precharge) <= clk && b.Earliest(PimPrecharge) <= clk && b.Earliest(Activate) <= clk;
      assert b.Earliest(GAct) <= clk && b.Earliest(cmd.kind) <= clk;
    }
  }

  /** A bank that keeps silent waits for the earliest time of one command, the one it answers with from then on. */
  lemma SilenceIsADelay(b: Bank, cmd: Command, clk: int) returns (kind: CommandType)
    requires Asked(cmd) && b.GetReady(cmd, clk) == NotReady
    ensures b.Earliest(kind) > clk
    ensures forall later | later >= b.Earliest(kind) ::
      b.GetReady(cmd, later).Ready? && b.GetReady(cmd, later).cmd.kind == kind
  {
    var prepared := Max(Max(b.Earliest(Precharge), b.Earliest(PimPrecharge)), b.Earliest(Activate));
    var late := Max(Max(prepared, b.Earliest(GAct)), b.Earliest(cmd.kind));
    kind := b.GetReady(cmd, late).cmd.kind;
  }
}
