/** A channel as a value. */
module Channels {
  // Readiness of a command over its banks, and the state and timing update of an issue. The class ChannelState does the
  // same with loops over an array and is proved against these functions.

  import opened Commands
  import opened Banks

  datatype BankId = BankId(rank: int, bankgroup: int, bank: int)

  function IdOf(a: Address): BankId { BankId(a.rank, a.bankgroup, a.bank) }

  datatype Config = Config(
    ranks: nat, bankgroups: nat, banksPerGroup: nat,
    tFAW: nat, t32AW: nat, gddr: bool, burstCycle: int, tCCDS: int, tRP: int, tRCDWR: int)
  {
    predicate Valid() { ranks > 0 && bankgroups > 0 && banksPerGroup > 0 }

    predicate Has(id: BankId) {
      0 <= id.rank < ranks && 0 <= id.bankgroup < bankgroups && 0 <= id.bank < banksPerGroup
    }

    function Ids(): set<BankId> {
      set i, j, k | 0 <= i < ranks && 0 <= j < bankgroups && 0 <= k < banksPerGroup :: BankId(i, j, k)
    }

    /** The request names what it has to name: a bank, a rank, or nothing. */
    predicate Addressed(cmd: Command) {
      if cmd.IsChannelCmd() || cmd.IsPimHeader() then true
      else if cmd.IsRankCmd() then 0 <= cmd.Rank() < ranks && !cmd.isLastComps && cmd.numComps == 0
      else Has(IdOf(cmd.addr))
    }
  }

  type Delays = seq<(CommandType, int)>

  /** Delay lists per issued command type, one table per scope. The values are parameters. */
  datatype TimingTable = TimingTable(
    sameBank: CommandType -> Delays,
    otherBanksSameBankgroup: CommandType -> Delays,
    otherBankgroupsSameRank: CommandType -> Delays,
    otherRanks: CommandType -> Delays,
    sameRank: CommandType -> Delays)

  const NO_DELAYS := TimingTable(_ => [], _ => [], _ => [], _ => [], _ => [])

  datatype Channel = Channel(
    banks: map<BankId, Bank>, fourAw: seq<seq<int>>, thirtyTwoAw: seq<seq<int>>, refreshQ: seq<Command>)
  {
    ghost predicate Valid(cfg: Config) {
      && cfg.Valid()
      && (forall id :: id in banks <==> cfg.Has(id))
      && |fourAw| == cfg.ranks
      && |thirtyTwoAw| == cfg.ranks
      && forall c <- refreshQ :: c.IsRefresh() && cfg.Addressed(c)
    }
  }

  function Initial(cfg: Config): Channel {
    Channel(map id | id in cfg.Ids() :: FRESH_BANK, seq(cfg.ranks, _ => []), seq(cfg.ranks, _ => []), [])
  }

  /** A refresh of a rank, if the number names one, joins the refresh queue. */
  function Arrived(cfg: Config, ch: Channel, rank: int): Channel {
    if 0 <= rank < cfg.ranks then ch.(refreshQ := ch.refreshQ + [RefreshCommand(rank)]) else ch
  }

  lemma ArrivedIsValid(cfg: Config, ch: Channel, rank: int)
    requires ch.Valid(cfg)
    ensures Arrived(cfg, ch, rank).Valid(cfg)
  {
  }

  // ---- readiness ----

  /** Not four activations still inside the window (32 for the long GDDR window). */
  predicate WindowOpen(window: seq<int>, limit: nat, clk: int) {
    !(|window| > 0 && clk < window[0] && |window| >= limit)
  }

  predicate ActivationWindowOk(cfg: Config, ch: Channel, rank: int, clk: int)
    requires ch.Valid(cfg) && 0 <= rank < cfg.ranks
  {
    WindowOpen(ch.fourAw[rank], 4, clk) && (cfg.gddr ==> WindowOpen(ch.thirtyTwoAw[rank], 32, clk))
  }

  /** The address a preparatory command gets when a scan over banks raises it at bank (i, j, k). */
  function RaisedAt(cmd: Command, c: Command, i: int, j: int, k: int): Command {
    c.(addr := Address(-1, i, j, k, if cmd.IsRankCmd() then -1 else c.Row(), -1))
  }

  /** The bank scan from position (i, j, k) on, with `ready` banks counted so far out of `total`. */
  function Scan(cfg: Config, ch: Channel, cmd: Command, clk: int, iHi: int, i: int, j: int, k: int,
                ready: int, total: int, last: Command): Answer
    requires ch.Valid(cfg)
    requires 0 <= i <= iHi <= cfg.ranks && 0 <= j <= cfg.bankgroups && 0 <= k <= cfg.banksPerGroup
    decreases iHi - i, cfg.bankgroups - j, cfg.banksPerGroup - k
  {
    if i == iHi then
      if ready == total then Ready(last) else NotReady
    else if j == cfg.bankgroups then
      Scan(cfg, ch, cmd, clk, iHi, i + 1, 0, 0, ready, total, last)
    else if k == cfg.banksPerGroup then
      Scan(cfg, ch, cmd, clk, iHi, i, j + 1, 0, ready, total, last)
    else
      match ch.banks[BankId(i, j, k)].GetReady(cmd, clk)
      case Abort => Abort
      case NotReady => Scan(cfg, ch, cmd, clk, iHi, i, j, k + 1, ready, total, last)
      case Ready(c) =>
        if c.kind == cmd.kind then
          Scan(cfg, ch, cmd, clk, iHi, i, j, k + 1, ready + 1, total, c)
        else if cmd.IsChannelCmd() && c.kind != GAct then
          Abort
        else
          Ready(RaisedAt(cmd, c, i, j, k))
  }

  /** The scan over the bank group of a G_ACT from bank `k` on, with `ready` banks counted so far. */
  function GroupScan(cfg: Config, ch: Channel, cmd: Command, clk: int, k: int, ready: int, last: Command): Answer
    requires ch.Valid(cfg) && cfg.Has(IdOf(cmd.addr)) && 0 <= k <= cfg.banksPerGroup
    decreases cfg.banksPerGroup - k
  {
    if k == cfg.banksPerGroup then
      if ready == cfg.banksPerGroup then Ready(last) else NotReady
    else
      match ch.banks[BankId(cmd.Rank(), cmd.addr.bankgroup, k)].GetReady(cmd, clk)
      case Abort => Abort
      case NotReady => GroupScan(cfg, ch, cmd, clk, k + 1, ready, last)
      case Ready(c) =>
        if c.kind == PimPrecharge then Ready(c.(addr := Address(-1, cmd.Rank(), cmd.addr.bankgroup, k, -1, -1)))
        else if c.kind != GAct then Abort
        else if !ActivationWindowOk(cfg, ch, cmd.Rank(), clk) then NotReady
        else GroupScan(cfg, ch, cmd, clk, k + 1, ready + 1, c)
  }

  /** What can issue now on behalf of `cmd`. */
  function GetReadyCommand(cfg: Config, ch: Channel, cmd: Command, clk: int): Answer
    requires ch.Valid(cfg) && cfg.Addressed(cmd)
  {
    if cmd.IsChannelCmd() || cmd.IsPimHeader() then
      Scan(cfg, ch, cmd, clk, cfg.ranks, 0, 0, 0, 0, cfg.ranks * (cfg.bankgroups * cfg.banksPerGroup), NO_COMMAND)
    else if cmd.IsRankCmd() then
      Scan(cfg, ch, cmd, clk, cmd.Rank() + 1, cmd.Rank(), 0, 0, 0, cfg.bankgroups * cfg.banksPerGroup, NO_COMMAND)
    else if cmd.kind == GAct then
      GroupScan(cfg, ch, cmd, clk, 0, 0, NO_COMMAND)
    else
      var answer := ch.banks[IdOf(cmd.addr)].GetReady(cmd, clk);
      if answer.Ready? && answer.cmd.kind == Activate && !ActivationWindowOk(cfg, ch, cmd.Rank(), clk) then NotReady
      else answer
  }

  // ---- issue ----

  /** The banks whose row-buffer state an issued command changes. */
  predicate Affects(cmd: Command, id: BankId) {
    if cmd.IsChannelCmd() then true
    else if cmd.IsRankCmd() then id.rank == cmd.Rank()
    else if cmd.kind == GAct then id.rank == cmd.Rank() && id.bankgroup == cmd.addr.bankgroup
    else id == IdOf(cmd.addr)
  }

  ghost predicate UpdateAborts(ch: Channel, cmd: Command) {
    exists id <- ch.banks :: Affects(cmd, id) && ch.banks[id].UpdateAborts(cmd)
  }

  /** The first queued refresh of the rank leaves the queue. */
  function RankRefreshed(q: seq<Command>, rank: int): seq<Command> {
    if q == [] then [] else if q[0].Rank() == rank then q[1..] else [q[0]] + RankRefreshed(q[1..], rank)
  }

  function UpdateState(ch: Channel, cmd: Command): Channel
    requires !UpdateAborts(ch, cmd)
  {
    ch.(banks := map id | id in ch.banks :: if Affects(cmd, id) then ch.banks[id].Update(cmd) else ch.banks[id],
        refreshQ := if cmd.IsRefresh() then RankRefreshed(ch.refreshQ, cmd.Rank()) else ch.refreshQ)
  }

  /** Cycles a compute command keeps the compute units busy. */
  function ComputeDelay(cfg: Config, cmd: Command): int {
    Max(cfg.burstCycle, cfg.tCCDS) * (Max(cmd.numComps, 6) + 1)
  }

  /** The delays an issued command imposes at bank `id`, by the scope that relates the two. */
  function Entries(cfg: Config, table: TimingTable, cmd: Command, id: BankId): Delays {
    var sameRank := id.rank == cmd.Rank();
    var sameGroup := sameRank && id.bankgroup == cmd.addr.bankgroup;
    var same := id == IdOf(cmd.addr);
    match cmd.kind
    case Read | Write | Activate | Precharge =>
      if same then table.sameBank(cmd.kind)
      else if sameGroup then table.otherBanksSameBankgroup(cmd.kind)
      else if sameRank then table.otherBankgroupsSameRank(cmd.kind)
      else table.otherRanks(cmd.kind)
    case Gwrite =>
      if same then table.sameBank(cmd.kind)
      else if sameGroup then table.otherBanksSameBankgroup(cmd.kind)
      else if sameRank then table.otherBankgroupsSameRank(cmd.kind)
      else []
    case PimPrecharge => if same then table.sameBank(cmd.kind) else []
    case Refresh => if sameRank then table.sameRank(cmd.kind) else []
    case GAct =>
      (if sameGroup then table.otherBanksSameBankgroup(cmd.kind) else [])
      + (if sameRank then table.sameRank(cmd.kind) else [])
    case CompsReadres => table.sameRank(cmd.kind) + [(CompsReadres, ComputeDelay(cfg, cmd))]
    case PHeader | Size => []
  }

  function Delayed(b: Bank, delays: Delays, clk: int): Bank
    decreases |delays|
  {
    if delays == [] then b
    else Delayed(b.UpdateTiming(delays[0].0, clk + delays[0].1), delays[1..], clk)
  }

  /** One activation leaves the window if it has expired, the new one enters. */
  function Activated(window: seq<int>, span: int, clk: int): seq<int> {
    (if |window| > 0 && clk >= window[0] then window[1..] else window) + [clk + span]
  }

  function UpdateTiming(cfg: Config, table: TimingTable, ch: Channel, cmd: Command, clk: int): Channel
    requires |ch.fourAw| == |ch.thirtyTwoAw| == cfg.ranks
    requires cmd.kind == Activate ==> 0 <= cmd.Rank() < cfg.ranks
  {
    var timed := map id | id in ch.banks :: Delayed(ch.banks[id], Entries(cfg, table, cmd, id), clk);
    if cmd.kind == Activate then
      var r := cmd.Rank();
      ch.(banks := timed,
          fourAw := ch.fourAw[r := Activated(ch.fourAw[r], cfg.tFAW, clk)],
          thirtyTwoAw := if cfg.gddr then ch.thirtyTwoAw[r := Activated(ch.thirtyTwoAw[r], cfg.t32AW, clk)]
                         else ch.thirtyTwoAw)
    else ch.(banks := timed)
  }

  /** State first, then timing. */
  function Issue(cfg: Config, table: TimingTable, ch: Channel, cmd: Command, clk: int): Channel
    requires ch.Valid(cfg) && !UpdateAborts(ch, cmd)
    requires cmd.kind == Activate ==> 0 <= cmd.Rank() < cfg.ranks
  {
    UpdateTiming(cfg, table, UpdateState(ch, cmd), cmd, clk)
  }

  // ---- what a scan certifies ----

  /** Bank `id` is at or after scan position (i, j, k), below rank `iHi`. */
  predicate Pending(cfg: Config, iHi: int, i: int, j: int, k: int, id: BankId) {
    && cfg.Has(id)
    && id.rank < iHi
    && (id.rank > i || (id.rank == i && (id.bankgroup > j || (id.bankgroup == j && id.bank >= k))))
  }

  /** How many banks the scan still visits. */
  function Remaining(cfg: Config, iHi: int, i: int, j: int, k: int): (n: nat)
    requires 0 <= i <= iHi <= cfg.ranks && 0 <= j <= cfg.bankgroups && 0 <= k <= cfg.banksPerGroup
    decreases iHi - i, cfg.bankgroups - j, cfg.banksPerGroup - k
  {
    if i == iHi then 0
    else if j == cfg.bankgroups then Remaining(cfg, iHi, i + 1, 0, 0)
    else if k == cfg.banksPerGroup then Remaining(cfg, iHi, i, j + 1, 0)
    else 1 + Remaining(cfg, iHi, i, j, k + 1)
  }

  lemma {:induction false} RemainingInGroup(cfg: Config, iHi: int, i: int, j: int, k: int)
    requires 0 <= i < iHi <= cfg.ranks && 0 <= j < cfg.bankgroups && 0 <= k <= cfg.banksPerGroup
    ensures Remaining(cfg, iHi, i, j, k) == cfg.banksPerGroup - k + Remaining(cfg, iHi, i, j + 1, 0)
    decreases cfg.banksPerGroup - k
  {
    if k < cfg.banksPerGroup { RemainingInGroup(cfg, iHi, i, j, k + 1); }
  }

  lemma {:induction false} RemainingInRank(cfg: Config, iHi: int, i: int, j: int)
    requires 0 <= i < iHi <= cfg.ranks && 0 <= j <= cfg.bankgroups
    ensures Remaining(cfg, iHi, i, j, 0) == (cfg.bankgroups - j) * cfg.banksPerGroup + Remaining(cfg, iHi, i + 1, 0, 0)
    decreases cfg.bankgroups - j
  {
    if j < cfg.bankgroups {
      RemainingInGroup(cfg, iHi, i, j, 0);
      RemainingInRank(cfg, iHi, i, j + 1);
    }
  }

  lemma {:induction false} RemainingTotal(cfg: Config, iHi: int, i: int)
    requires 0 <= i <= iHi <= cfg.ranks
    ensures Remaining(cfg, iHi, i, 0, 0) == (iHi - i) * (cfg.bankgroups * cfg.banksPerGroup)
    decreases iHi - i
  {
    if i < iHi {
      RemainingInRank(cfg, iHi, i, 0);
      RemainingTotal(cfg, iHi, i + 1);
    }
  }

  ghost predicate AllGoAhead(cfg: Config, ch: Channel, cmd: Command, clk: int, iHi: int, i: int, j: int, k: int)
    requires ch.Valid(cfg)
  {
    forall id | id in ch.banks && Pending(cfg, iHi, i, j, k, id) :: ch.banks[id].GetReady(cmd, clk) == Ready(cmd)
  }

  /** `c` is the preparatory command of a bank the scan still visits. */
  ghost predicate RaisedByBank(cfg: Config, ch: Channel, cmd: Command, clk: int, iHi: int, i: int, j: int, k: int,
                               c: Command)
    requires ch.Valid(cfg)
  {
    var id := IdOf(c.addr);
    && Pending(cfg, iHi, i, j, k, id)
    && var own := ch.banks[id].GetReady(cmd, clk);
    && own.Ready? && own.cmd.kind != cmd.kind
    && c == RaisedAt(cmd, own.cmd, id.rank, id.bankgroup, id.bank)
    && (cmd.IsChannelCmd() ==> c.kind == GAct)
  }

  /** A scan answers with a command raised by one of its banks, or with the request itself, and then every
      bank answered the request itself. */
  lemma {:induction false} ScanCertifies(cfg: Config, ch: Channel, cmd: Command, clk: int,
                                         iHi: int, i: int, j: int, k: int, ready: int, total: int, last: Command)
    requires ch.Valid(cfg) && cfg.Addressed(cmd)
    requires cmd.IsChannelCmd() || cmd.IsPimHeader() || cmd.IsRankCmd()
    requires 0 <= i <= iHi <= cfg.ranks && 0 <= j <= cfg.bankgroups && 0 <= k <= cfg.banksPerGroup
    requires ready + Remaining(cfg, iHi, i, j, k) <= total && 0 < total
    requires last == cmd || ready == 0
    ensures var answer := Scan(cfg, ch, cmd, clk, iHi, i, j, k, ready, total, last);
            answer.Ready? ==>
              || (answer.cmd == cmd && AllGoAhead(cfg, ch, cmd, clk, iHi, i, j, k)
                  && ready + Remaining(cfg, iHi, i, j, k) == total)
              || RaisedByBank(cfg, ch, cmd, clk, iHi, i, j, k, answer.cmd)
    decreases iHi - i, cfg.bankgroups - j, cfg.banksPerGroup - k
  {
    hide Bank.GetReady;
    if i == iHi {
    } else if j == cfg.bankgroups {
      ScanCertifies(cfg, ch, cmd, clk, iHi, i + 1, 0, 0, ready, total, last);
    } else if k == cfg.banksPerGroup {
      ScanCertifies(cfg, ch, cmd, clk, iHi, i, j + 1, 0, ready, total, last);
    } else {
      var own := ch.banks[BankId(i, j, k)].GetReady(cmd, clk);
      if own == NotReady {
        ScanCertifies(cfg, ch, cmd, clk, iHi, i, j, k + 1, ready, total, last);
      } else if own.Ready? && own.cmd.kind == cmd.kind {
        SameKindIsRequest(ch.banks[BankId(i, j, k)], cmd, clk);
        ScanCertifies(cfg, ch, cmd, clk, iHi, i, j, k + 1, ready + 1, total, own.cmd);
      }
    }
  }

  /** With an answer from every bank it visits the scan has one. */
  lemma {:induction false} ScanAnswers(cfg: Config, ch: Channel, cmd: Command, clk: int, iHi: int, i: int, j: int,
                                       k: int, ready: int, total: int, last: Command)
    requires ch.Valid(cfg) && 0 <= i <= iHi <= cfg.ranks && 0 <= j <= cfg.bankgroups && 0 <= k <= cfg.banksPerGroup
    requires ready + Remaining(cfg, iHi, i, j, k) == total
    requires forall id | id in ch.banks && Pending(cfg, iHi, i, j, k, id) ::
      var own := ch.banks[id].GetReady(cmd, clk);
      own.Ready? && (cmd.IsChannelCmd() ==> own.cmd.kind in {cmd.kind, GAct})
    ensures Scan(cfg, ch, cmd, clk, iHi, i, j, k, ready, total, last).Ready?
    decreases iHi - i, cfg.bankgroups - j, cfg.banksPerGroup - k
  {
    hide Bank.GetReady;
    if i == iHi {
    } else if j == cfg.bankgroups {
      ScanAnswers(cfg, ch, cmd, clk, iHi, i + 1, 0, 0, ready, total, last);
    } else if k == cfg.banksPerGroup {
      ScanAnswers(cfg, ch, cmd, clk, iHi, i, j + 1, 0, ready, total, last);
    } else {
      var id := BankId(i, j, k);
      assert id in ch.banks && Pending(cfg, iHi, i, j, k, id);
      var own := ch.banks[id].GetReady(cmd, clk);
      if own.cmd.kind == cmd.kind {
        ScanAnswers(cfg, ch, cmd, clk, iHi, i, j, k + 1, ready + 1, total, own.cmd);
      }
    }
  }

  lemma QueryAnswers(cfg: Config, ch: Channel, cmd: Command, clk: int)
    requires ch.Valid(cfg) && cfg.Addressed(cmd) && (cmd.IsChannelCmd() || cmd.IsPimHeader() || cmd.IsRankCmd())
    requires forall id | id in ch.banks && Gated(cmd, id) ::
      var own := ch.banks[id].GetReady(cmd, clk);
      own.Ready? && (cmd.IsChannelCmd() ==> own.cmd.kind in {cmd.kind, GAct})
    ensures GetReadyCommand(cfg, ch, cmd, clk).Ready?
  {
    hide Bank.GetReady, Scan;
    var i, iHi := if cmd.IsRankCmd() then cmd.Rank() else 0, if cmd.IsRankCmd() then cmd.Rank() + 1 else cfg.ranks;
    RemainingTotal(cfg, iHi, i);
    ScanAnswers(cfg, ch, cmd, clk, iHi, i, 0, 0, 0, (iHi - i) * (cfg.bankgroups * cfg.banksPerGroup), NO_COMMAND);
  }

  lemma SameKindIsRequest(b: Bank, cmd: Command, clk: int)
    requires cmd.IsChannelCmd() || cmd.IsPimHeader() || (cmd.IsRankCmd() && !cmd.isLastComps && cmd.numComps == 0)
    ensures b.GetReady(cmd, clk).Ready? && b.GetReady(cmd, clk).cmd.kind == cmd.kind ==>
      b.GetReady(cmd, clk) == Ready(cmd)
  {
  }

  /** The banks that certified command `c`: all of the channel, all of the rank, or the one it names. */
  predicate Gated(c: Command, id: BankId) {
    if c.IsChannelCmd() || c.IsPimHeader() then true
    else if c.IsRankCmd() then id.rank == c.Rank()
    else id == IdOf(c.addr)
  }

  /** What a Ready answer guarantees: every gating bank gave its own go-ahead for exactly that command type. */
  ghost predicate Certified(cfg: Config, ch: Channel, req: Command, clk: int, c: Command)
    requires ch.Valid(cfg)
  {
    && cfg.Addressed(c)
    && c.IsValid()
    && (c.kind == req.kind ==> c.addr == req.addr && c.hexAddr == req.hexAddr)
    && (c.kind == Activate ==> ActivationWindowOk(cfg, ch, c.Rank(), clk))
    && (c.kind == Activate || c.kind == GAct ==> c.Row() == req.Row())
    && forall id | id in ch.banks && Gated(c, id) ::
         var own := ch.banks[id].GetReady(req, clk);
         own.Ready? && own.cmd.kind == c.kind
  }

  /** What a bank can be asked to do first, on behalf of a request. */
  lemma RaisedKinds(b: Bank, req: Command, clk: int)
    requires b.GetReady(req, clk).Ready?
    ensures var c := b.GetReady(req, clk).cmd;
      && c.addr == req.addr && c.hexAddr == req.hexAddr && c.IsValid()
      && (c.kind != req.kind ==> c.kind in {Activate, Precharge, PimPrecharge, GAct})
      && (c.kind == GAct && req.kind != GAct ==> req.IsChannelCmd())
      && (c.kind == Activate ==> req.kind in {Read, Write, Gwrite})
  {
  }

  lemma CertifiedByOne(cfg: Config, ch: Channel, req: Command, clk: int, iHi: int, i: int, c: Command)
    requires ch.Valid(cfg) && cfg.Addressed(req)
    requires req.IsChannelCmd() || req.IsPimHeader() || req.IsRankCmd()
    requires RaisedByBank(cfg, ch, req, clk, iHi, i, 0, 0, c)
    ensures Certified(cfg, ch, req, clk, c)
  {
    RaisedKinds(ch.banks[IdOf(c.addr)], req, clk);
  }

  lemma CertifiedByAll(cfg: Config, ch: Channel, req: Command, clk: int, iHi: int, i: int)
    requires ch.Valid(cfg) && cfg.Addressed(req)
    requires req.IsChannelCmd() || req.IsPimHeader() || req.IsRankCmd()
    requires if req.IsRankCmd() then i == req.Rank() && iHi == i + 1 else i == 0 && iHi == cfg.ranks
    requires AllGoAhead(cfg, ch, req, clk, iHi, i, 0, 0)
    ensures Certified(cfg, ch, req, clk, req)
  {
    forall id | id in ch.banks && Gated(req, id)
      ensures ch.banks[id].GetReady(req, clk) == Ready(req)
    {
      assert Pending(cfg, iHi, i, 0, 0, id);
    }
  }

  /** A Ready answer is certified by every bank it gates on, whatever the request was. */
  lemma ReadyIsCertified(cfg: Config, ch: Channel, req: Command, clk: int)
    requires ch.Valid(cfg) && cfg.Addressed(req)
    requires GetReadyCommand(cfg, ch, req, clk).Ready?
    ensures Certified(cfg, ch, req, clk, GetReadyCommand(cfg, ch, req, clk).cmd)
  {
    if req.IsChannelCmd() || req.IsPimHeader() || req.IsRankCmd() {
      ScanIsCertified(cfg, ch, req, clk);
    } else if req.kind == GAct {
      GroupScanCertifies(cfg, ch, req, clk, 0, 0, NO_COMMAND);
    } else {
      RaisedKinds(ch.banks[IdOf(req.addr)], req, clk);
    }
  }

  /** A G_ACT goes ahead only as itself, if every bank of its group does and the activation window is open. */
  lemma {:induction false} GroupScanCertifies(cfg: Config, ch: Channel, cmd: Command, clk: int, k: int, ready: int,
                                              last: Command)
    requires ch.Valid(cfg) && cmd.kind == GAct && cfg.Has(IdOf(cmd.addr)) && 0 <= k <= cfg.banksPerGroup
    requires 0 <= ready <= k && (ready > 0 ==> last == cmd && ActivationWindowOk(cfg, ch, cmd.Rank(), clk))
    ensures var answer := GroupScan(cfg, ch, cmd, clk, k, ready, last);
      answer.Ready? ==>
        && answer.cmd == cmd && ready == k && ActivationWindowOk(cfg, ch, cmd.Rank(), clk)
        && forall l | k <= l < cfg.banksPerGroup ::
             ch.banks[BankId(cmd.Rank(), cmd.addr.bankgroup, l)].GetReady(cmd, clk) == Ready(cmd)
    decreases cfg.banksPerGroup - k
  {
    if k < cfg.banksPerGroup {
      var own := ch.banks[BankId(cmd.Rank(), cmd.addr.bankgroup, k)].GetReady(cmd, clk);
      if own.NotReady? {
        GroupScanCertifies(cfg, ch, cmd, clk, k + 1, ready, last);
      } else if own.Ready? && ActivationWindowOk(cfg, ch, cmd.Rank(), clk) {
        GroupScanCertifies(cfg, ch, cmd, clk, k + 1, ready + 1, own.cmd);
      }
    }
  }

  lemma ScanIsCertified(cfg: Config, ch: Channel, req: Command, clk: int)
    requires ch.Valid(cfg) && cfg.Addressed(req)
    requires req.IsChannelCmd() || req.IsPimHeader() || req.IsRankCmd()
    requires GetReadyCommand(cfg, ch, req, clk).Ready?
    ensures Certified(cfg, ch, req, clk, GetReadyCommand(cfg, ch, req, clk).cmd)
  {
    hide Scan, GetReadyCommand, Certified, RaisedByBank, AllGoAhead, Bank.GetReady;
    var c := GetReadyCommand(cfg, ch, req, clk).cmd;
    var i, iHi := if req.IsRankCmd() then req.Rank() else 0, if req.IsRankCmd() then req.Rank() + 1 else cfg.ranks;
    QueryIsScan(cfg, ch, req, clk);
    ScanFromStart(cfg, ch, req, clk, iHi, i);
    if c != req {
      CertifiedByOne(cfg, ch, req, clk, iHi, i, c);
    } else {
      CertifiedByAll(cfg, ch, req, clk, iHi, i);
    }
  }

  lemma QueryIsScan(cfg: Config, ch: Channel, req: Command, clk: int)
    requires ch.Valid(cfg) && cfg.Addressed(req)
    requires req.IsChannelCmd() || req.IsPimHeader() || req.IsRankCmd()
    ensures var i, iHi := if req.IsRankCmd() then req.Rank() else 0, if req.IsRankCmd() then req.Rank() + 1
      else cfg.ranks;
      GetReadyCommand(cfg, ch, req, clk) ==
        Scan(cfg, ch, req, clk, iHi, i, 0, 0, 0, (iHi - i) * (cfg.bankgroups * cfg.banksPerGroup), NO_COMMAND)
  {
    hide Scan;
  }

  lemma ScanFromStart(cfg: Config, ch: Channel, cmd: Command, clk: int, iHi: int, i: int)
    requires ch.Valid(cfg) && cfg.Addressed(cmd)
    requires cmd.IsChannelCmd() || cmd.IsPimHeader() || cmd.IsRankCmd()
    requires 0 <= i < iHi <= cfg.ranks
    ensures var total := (iHi - i) * (cfg.bankgroups * cfg.banksPerGroup);
            var answer := Scan(cfg, ch, cmd, clk, iHi, i, 0, 0, 0, total, NO_COMMAND);
            answer.Ready? && answer.cmd != cmd ==> RaisedByBank(cfg, ch, cmd, clk, iHi, i, 0, 0, answer.cmd)
    ensures var total := (iHi - i) * (cfg.bankgroups * cfg.banksPerGroup);
            var answer := Scan(cfg, ch, cmd, clk, iHi, i, 0, 0, 0, total, NO_COMMAND);
            answer == Ready(cmd) ==> AllGoAhead(cfg, ch, cmd, clk, iHi, i, 0, 0)
  {
    var group := cfg.bankgroups * cfg.banksPerGroup;
    Positive(cfg.bankgroups, cfg.banksPerGroup);
    Positive(iHi - i, group);
    RemainingTotal(cfg, iHi, i);
    ScanCertifies(cfg, ch, cmd, clk, iHi, i, 0, 0, 0, (iHi - i) * group, NO_COMMAND);
  }

  lemma Positive(a: int, b: int)
    requires a > 0 && b > 0
    ensures a * b > 0
  {
  }
}
