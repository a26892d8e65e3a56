/** Command queues: where a command goes, which entry of a queue issues first, and how entries leave.
    Shared by the DRAM queue and the NeuPIMs queue. */
module Queues {
  import opened Commands
  import opened Banks
  import opened Channels

  /** One queue per bank, or one per rank. */
  datatype Structure = PerBank | PerRank

  function NumQueues(cfg: Config, structure: Structure): nat {
    if structure.PerBank? then cfg.ranks * (cfg.bankgroups * cfg.banksPerGroup) else cfg.ranks
  }

  function QueueIndex(cfg: Config, structure: Structure, a: Address): int {
    if structure.PerRank? then a.rank
    else a.rank * (cfg.bankgroups * cfg.banksPerGroup) + a.bankgroup * cfg.banksPerGroup + a.bank
  }

  /** The rank a queue serves. */
  function RankOf(cfg: Config, structure: Structure, idx: int): int
    requires cfg.Valid()
  {
    if structure.PerRank? then idx
      else (Positive(cfg.bankgroups, cfg.banksPerGroup); idx / (cfg.bankgroups * cfg.banksPerGroup))
  }

  /** The queues a latched refresh holds back. */
  function RefQIndices(cfg: Config, structure: Structure, rank: int): set<int>
    requires cfg.Valid()
  {
    if structure.PerRank? then {rank}
    else set i | 0 <= i < NumQueues(cfg, structure) && RankOf(cfg, structure, i) == rank
  }

  lemma IndexInRange(cfg: Config, structure: Structure, a: Address)
    requires cfg.Valid() && cfg.Has(IdOf(a))
    ensures 0 <= QueueIndex(cfg, structure, a) < NumQueues(cfg, structure)
    ensures RankOf(cfg, structure, QueueIndex(cfg, structure, a)) == a.rank
  {
    if structure.PerBank? {
      var banks := cfg.bankgroups * cfg.banksPerGroup;
      var low := a.bankgroup * cfg.banksPerGroup + a.bank;
      Below(a.bankgroup, cfg.bankgroups, cfg.banksPerGroup, a.bank);
      Below(a.rank, cfg.ranks, banks, low);
      Quotient(a.rank, banks, low);
    }
  }

  lemma Below(hi: int, hiCount: int, width: int, lo: int)
    requires 0 <= hi < hiCount && 0 <= lo < width
    ensures 0 <= hi * width + lo < hiCount * width
  {
    assert (hi + 1) * width <= hiCount * width;
  }

  lemma Quotient(hi: int, width: int, lo: int)
    requires 0 <= hi && 0 <= lo < width
    ensures (hi * width + lo) / width == hi
  {
    var n := hi * width + lo;
    assert (n / width - hi) * width == lo - n % width;
    SmallMultiple(n / width - hi, width);
  }

  lemma SmallMultiple(d: int, width: int)
    requires -width < d * width < width
    ensures d == 0
  {
  }

  predicate SameBank(a: Address, b: Address) {
    a.rank == b.rank && a.bankgroup == b.bankgroup && a.bank == b.bank
  }

  /** Whether entry `n` may precharge its bank: it is the bank's first entry, and no entry from it on still hits
      the open row, unless that row has been hit four times. */
  predicate ArbitratePrecharge(cfg: Config, ch: Channel, queue: seq<Command>, n: int)
    requires ch.Valid(cfg) && 0 <= n < |queue| && cfg.Has(IdOf(queue[n].addr))
  {
    var a := queue[n].addr;
    var bank := ch.banks[IdOf(a)];
    && (forall m | 0 <= m < n :: !SameBank(queue[m].addr, a))
    && ((forall m | n <= m < |queue| :: !(queue[m].Row() == bank.OpenRow() && SameBank(queue[m].addr, a)))
        || bank.rowHits >= 4)
  }

  /** An earlier entry of the queue still has to read what entry `n` would overwrite. Ranks are not compared. */
  predicate HasRWDependency(queue: seq<Command>, n: int)
    requires 0 <= n < |queue|
  {
    var a := queue[n].addr;
    exists m | 0 <= m < n :: (queue[m].IsRead() || queue[m].IsPimCommand())
      && queue[m].addr.row == a.row && queue[m].addr.column == a.column
      && queue[m].addr.bank == a.bank && queue[m].addr.bankgroup == a.bankgroup
  }

  method CheckArbitratePrecharge(cfg: Config, ch: Channel, queue: seq<Command>, n: int) returns (ok: bool)
    requires ch.Valid(cfg) && 0 <= n < |queue| && cfg.Has(IdOf(queue[n].addr))
    ensures ok == ArbitratePrecharge(cfg, ch, queue, n)
  {
    var a := queue[n].addr;
    for m := 0 to n
      invariant forall l | 0 <= l < m :: !SameBank(queue[l].addr, a)
    {
      if SameBank(queue[m].addr, a) { return false; }
    }
    var bank := ch.banks[IdOf(a)];
    var hits := false;
    var m := n;
    while m < |queue| && !hits
      invariant n <= m <= |queue|
      invariant hits <==> exists l | n <= l < m :: queue[l].Row() == bank.OpenRow() && SameBank(queue[l].addr, a)
    {
      hits := queue[m].Row() == bank.OpenRow() && SameBank(queue[m].addr, a);
      m := m + 1;
    }
    ok := !hits || bank.rowHits >= 4;
  }

  method CheckRWDependency(queue: seq<Command>, n: int) returns (depends: bool)
    requires 0 <= n < |queue|
    ensures depends == HasRWDependency(queue, n)
  {
    var a := queue[n].addr;
    for m := 0 to n
      invariant forall l | 0 <= l < m :: !((queue[l].IsRead() || queue[l].IsPimCommand())
                  && queue[l].addr.row == a.row && queue[l].addr.column == a.column
                  && queue[l].addr.bank == a.bank && queue[l].addr.bankgroup == a.bankgroup)
    {
      if (queue[m].IsRead() || queue[m].IsPimCommand())
         && queue[m].addr.row == a.row && queue[m].addr.column == a.column
         && queue[m].addr.bank == a.bank && queue[m].addr.bankgroup == a.bankgroup
      {
        return true;
      }
    }
    depends := false;
  }

  /** An erased command is found by its hex address and its type. */
  predicate Matches(entry: Command, cmd: Command) {
    entry.hexAddr == cmd.hexAddr && entry.kind == cmd.kind
  }

  /** The queue without its first match. */
  function Erased(queue: seq<Command>, cmd: Command): seq<Command> {
    if queue == [] then []
    else if Matches(queue[0], cmd) then queue[1..]
    else [queue[0]] + Erased(queue[1..], cmd)
  }

  method EraseFirst(queue: seq<Command>, cmd: Command) returns (rest: seq<Command>)
    ensures rest == Erased(queue, cmd)
  {
    var n := 0;
    while n < |queue| && !Matches(queue[n], cmd)
      invariant 0 <= n <= |queue|
      invariant Erased(queue, cmd) == queue[..n] + Erased(queue[n..], cmd)
    {
      n := n + 1;
    }
    rest := if n < |queue| then queue[..n] + queue[n + 1..] else queue;
    if n == |queue| { assert queue[n..] == []; }
  }

  function NextIndex(idx: int, count: int): int {
    if idx + 1 == count then 0 else idx + 1
  }

  /** The queue a round that starts after `idx` serves at its `k`-th turn. */
  function Turn(idx: int, count: int, k: int): int { if idx + k < count then idx + k else idx + k - count }

  /** Requests that a queue or a refresh makes never reach an exit branch of the readiness query. */
  predicate Queueable(cmd: Command) {
    cmd.kind in {Read, Write, Gwrite, PHeader, CompsReadres, Refresh}
  }

  lemma {:induction false} ScanNeverAborts(cfg: Config, ch: Channel, cmd: Command, clk: int,
                                           iHi: int, i: int, j: int, k: int, ready: int, total: int, last: Command)
    requires ch.Valid(cfg) && Queueable(cmd)
    requires 0 <= i <= iHi <= cfg.ranks && 0 <= j <= cfg.bankgroups && 0 <= k <= cfg.banksPerGroup
    ensures Scan(cfg, ch, cmd, clk, iHi, i, j, k, ready, total, last) != Abort
    decreases iHi - i, cfg.bankgroups - j, cfg.banksPerGroup - k
  {
    hide Bank.GetReady, Queueable;
    if i == iHi {
    } else if j == cfg.bankgroups {
      ScanNeverAborts(cfg, ch, cmd, clk, iHi, i + 1, 0, 0, ready, total, last);
    } else if k == cfg.banksPerGroup {
      ScanNeverAborts(cfg, ch, cmd, clk, iHi, i, j + 1, 0, ready, total, last);
    } else {
      var own := ch.banks[BankId(i, j, k)].GetReady(cmd, clk);
      BankNeverAborts(ch.banks[BankId(i, j, k)], cmd, clk);
      if own == NotReady {
        ScanNeverAborts(cfg, ch, cmd, clk, iHi, i, j, k + 1, ready, total, last);
      } else if own.cmd.kind == cmd.kind {
        ScanNeverAborts(cfg, ch, cmd, clk, iHi, i, j, k + 1, ready + 1, total, own.cmd);
      }
    }
  }

  lemma BankNeverAborts(b: Bank, cmd: Command, clk: int)
    requires Queueable(cmd)
    ensures b.GetReady(cmd, clk) != Abort
    ensures b.GetReady(cmd, clk).Ready? && cmd.IsChannelCmd() ==> b.GetReady(cmd, clk).cmd.kind in {cmd.kind, GAct}
  {
  }

  lemma QueriesNeverAbort(cfg: Config, ch: Channel, cmd: Command, clk: int)
    requires ch.Valid(cfg) && cfg.Addressed(cmd) && Queueable(cmd)
    ensures GetReadyCommand(cfg, ch, cmd, clk) != Abort
  {
    if cmd.IsChannelCmd() || cmd.IsPimHeader() {
      ScanNeverAborts(cfg, ch, cmd, clk, cfg.ranks, 0, 0, 0, 0, cfg.ranks * (cfg.bankgroups * cfg.banksPerGroup),
                      NO_COMMAND);
    } else if cmd.IsRankCmd() {
      ScanNeverAborts(cfg, ch, cmd, clk, cmd.Rank() + 1, cmd.Rank(), 0, 0, 0, cfg.bankgroups * cfg.banksPerGroup,
                      NO_COMMAND);
    } else {
      BankNeverAborts(ch.banks[IdOf(cmd.addr)], cmd, clk);
    }
  }
}
