/** The channel as the simulator keeps it: a three-dimensional array of bank records updated in place by nested
    loops. Every method is proved to do exactly what the functions of Channels say of the abstract channel. */
module ChannelStates {
  import opened Commands
  import opened Banks
  import opened Channels

  lemma DelayedByNone(b: Bank, clk: int)
    ensures Delayed(b, [], clk) == b
  {
  }

  /** The first refresh of the rank is the one that leaves. */
  lemma {:induction false} FirstOfRank(q: seq<Command>, rank: int, n: nat)
    requires n <= |q| && forall m | 0 <= m < n :: q[m].Rank() != rank
    requires n < |q| ==> q[n].Rank() == rank
    ensures RankRefreshed(q, rank) == q[..n] + if n < |q| then q[n + 1..] else []
    decreases n
  {
    if n > 0 {
      FirstOfRank(q[1..], rank, n - 1);
      assert q == [q[0]] + q[1..];
    }
  }

  class ChannelState {
    const cfg: Config
    const table: TimingTable
    const bankStates: array3<Bank>
    var fourAw: seq<seq<int>>
    var thirtyTwoAw: seq<seq<int>>
    var refreshQ: seq<Command>

    ghost predicate Valid()
      reads this, bankStates
    {
      && cfg.Valid()
      && bankStates.Length0 == cfg.ranks && bankStates.Length1 == cfg.bankgroups
        && bankStates.Length2 == cfg.banksPerGroup
      && |fourAw| == cfg.ranks && |thirtyTwoAw| == cfg.ranks
      && forall c <- refreshQ :: c.IsRefresh() && cfg.Addressed(c)
    }

    ghost function BankMap(): map<BankId, Bank>
      requires bankStates.Length0 == cfg.ranks && bankStates.Length1 == cfg.bankgroups
      requires bankStates.Length2 == cfg.banksPerGroup
      reads this, bankStates
    {
      map id | id in cfg.Ids() :: bankStates[id.rank, id.bankgroup, id.bank]
    }

    ghost function Abs(): (ch: Channel)
      requires Valid()
      reads this, bankStates
      ensures ch.Valid(cfg)
    {
      Channel(BankMap(), fourAw, thirtyTwoAw, refreshQ)
    }

    constructor (cfg: Config, table: TimingTable)
      requires cfg.Valid()
      ensures Valid() && fresh(bankStates)
      ensures this.cfg == cfg && this.table == table && Abs() == Initial(cfg)
    {
      this.cfg := cfg;
      this.table := table;
      bankStates := new Bank[cfg.ranks, cfg.bankgroups, cfg.banksPerGroup]((i, j, k) => FRESH_BANK);
      fourAw := seq(cfg.ranks, _ => []);
      thirtyTwoAw := seq(cfg.ranks, _ => []);
      refreshQ := [];
    }

    /** Banks before loop position (i, j, k) hold `after`, the others still hold `before`. */
    ghost predicate Swept(before: map<BankId, Bank>, after: map<BankId, Bank>, i: int, j: int, k: int)
      reads this, bankStates
      requires bankStates.Length0 == cfg.ranks && bankStates.Length1 == cfg.bankgroups
      requires bankStates.Length2 == cfg.banksPerGroup
    {
      forall id: BankId | cfg.Has(id) ::
        && id in before && id in after
        && bankStates[id.rank, id.bankgroup, id.bank]
           == if Pending(cfg, cfg.ranks, i, j, k, id) then before[id] else after[id]
    }

    method ScanBanks(cmd: Command, clk: int, lo: int, iHi: int, total: int) returns (answer: Answer)
      requires Valid() && cfg.Addressed(cmd) && 0 <= lo < iHi <= cfg.ranks
      ensures answer == Scan(cfg, Abs(), cmd, clk, iHi, lo, 0, 0, 0, total, NO_COMMAND)
    {
      hide Bank.GetReady, RaisedAt;
      var numReady, readyCmd := 0, NO_COMMAND;
      var i := lo;
      while i < iHi
        invariant lo <= i <= iHi
        invariant Scan(cfg, Abs(), cmd, clk, iHi, lo, 0, 0, 0, total, NO_COMMAND)
               == Scan(cfg, Abs(), cmd, clk, iHi, i, 0, 0, numReady, total, readyCmd)
      {
        var j := 0;
        while j < cfg.bankgroups
          invariant 0 <= j <= cfg.bankgroups
          invariant Scan(cfg, Abs(), cmd, clk, iHi, lo, 0, 0, 0, total, NO_COMMAND)
                 == Scan(cfg, Abs(), cmd, clk, iHi, i, j, 0, numReady, total, readyCmd)
        {
          var k := 0;
          while k < cfg.banksPerGroup
            invariant 0 <= k <= cfg.banksPerGroup
            invariant Scan(cfg, Abs(), cmd, clk, iHi, lo, 0, 0, 0, total, NO_COMMAND)
                   == Scan(cfg, Abs(), cmd, clk, iHi, i, j, k, numReady, total, readyCmd)
          {
            assert BankId(i, j, k) in Abs().banks;
            var own := bankStates[i, j, k].GetReady(cmd, clk);
            match own {
              case Abort => return Abort;
              case NotReady =>
              case Ready(c) =>
                if c.kind == cmd.kind {
                  numReady, readyCmd := numReady + 1, c;
                } else if cmd.IsChannelCmd() && c.kind != GAct {
                  return Abort;
                } else {
                  return Ready(RaisedAt(cmd, c, i, j, k));
                }
            }
            k := k + 1;
          }
          j := j + 1;
        }
        i := i + 1;
      }
      return if numReady == total then Ready(readyCmd) else NotReady;
    }

    method ScanGroup(cmd: Command, clk: int) returns (answer: Answer)
      requires Valid() && cfg.Has(IdOf(cmd.addr))
      ensures answer == GroupScan(cfg, Abs(), cmd, clk, 0, 0, NO_COMMAND)
    {
      var numReady, readyCmd := 0, NO_COMMAND;
      for k := 0 to cfg.banksPerGroup
        invariant GroupScan(cfg, Abs(), cmd, clk, 0, 0, NO_COMMAND)
               == GroupScan(cfg, Abs(), cmd, clk, k, numReady, readyCmd)
      {
        assert BankId(cmd.Rank(), cmd.addr.bankgroup, k) in Abs().banks;
        var own := bankStates[cmd.Rank(), cmd.addr.bankgroup, k].GetReady(cmd, clk);
        match own {
          case Abort => return Abort;
          case NotReady =>
          case Ready(c) =>
            if c.kind == PimPrecharge {
              return Ready(c.(addr := Address(-1, cmd.Rank(), cmd.addr.bankgroup, k, -1, -1)));
            } else if c.kind != GAct {
              return Abort;
            }
            var ok := WindowAllows(cmd.Rank(), clk);
            if !ok { return NotReady; }
            numReady, readyCmd := numReady + 1, c;
        }
      }
      return if numReady == cfg.banksPerGroup then Ready(readyCmd) else NotReady;
    }

    method WindowAllows(rank: int, clk: int) returns (ok: bool)
      requires Valid() && 0 <= rank < cfg.ranks
      ensures ok == ActivationWindowOk(cfg, Abs(), rank, clk)
    {
      ok := WindowOpen(fourAw[rank], 4, clk);
      if ok && cfg.gddr { ok := WindowOpen(thirtyTwoAw[rank], 32, clk); }
    }

    /** Scanning a channel, a rank or a bank group, or asking one bank and then the activation window. */
    method GetReadyCommand(cmd: Command, clk: int) returns (answer: Answer)
      requires Valid() && cfg.Addressed(cmd)
      ensures answer == Channels.GetReadyCommand(cfg, Abs(), cmd, clk)
    {
      if cmd.IsChannelCmd() || cmd.IsPimHeader() {
        answer := ScanBanks(cmd, clk, 0, cfg.ranks, cfg.ranks * (cfg.bankgroups * cfg.banksPerGroup));
      } else if cmd.IsRankCmd() {
        answer := ScanBanks(cmd, clk, cmd.Rank(), cmd.Rank() + 1, cfg.bankgroups * cfg.banksPerGroup);
      } else if cmd.kind == GAct {
        answer := ScanGroup(cmd, clk);
      } else {
        assert IdOf(cmd.addr) in Abs().banks;
        answer := bankStates[cmd.addr.rank, cmd.addr.bankgroup, cmd.addr.bank].GetReady(cmd, clk);
        if answer.Ready? && answer.cmd.kind == Activate {
          var ok := WindowAllows(cmd.Rank(), clk);
          if !ok { answer := NotReady; }
        }
      }
    }

    method RankNeedRefresh(rank: int, need: bool)
      requires Valid() && 0 <= rank < cfg.ranks
      modifies this`refreshQ
      ensures Valid()
      ensures refreshQ == if need then old(refreshQ) + [RefreshCommand(rank)] else RankRefreshed(old(refreshQ), rank)
    {
      if need {
        refreshQ := refreshQ + [RefreshCommand(rank)];
      } else {
        var n := 0;
        while n < |refreshQ| && refreshQ[n].Rank() != rank
          invariant 0 <= n <= |refreshQ| && refreshQ == old(refreshQ)
          invariant forall m | 0 <= m < n :: refreshQ[m].Rank() != rank
        {
          n := n + 1;
        }
        FirstOfRank(refreshQ, rank, n);
        if n < |refreshQ| {
          refreshQ := refreshQ[..n] + refreshQ[n + 1..];
        }
      }
    }

    /** Every bank the command affects takes its state update; a refresh leaves the refresh queue. */
    method UpdateState(cmd: Command)
      requires Valid() && cfg.Addressed(cmd) && !UpdateAborts(Abs(), cmd)
      modifies bankStates, this`refreshQ
      ensures Valid() && Abs() == Channels.UpdateState(old(Abs()), cmd)
    {
      ghost var before := Abs();
      UpdateBankStates(cmd, before.banks, Channels.UpdateState(before, cmd).banks);
      if cmd.IsRefresh() { RankNeedRefresh(cmd.Rank(), false); }
    }

    method UpdateBankStates(cmd: Command, ghost before: map<BankId, Bank>, ghost after: map<BankId, Bank>)
      requires Valid() && before == BankMap() && before.Keys == after.Keys
      requires forall id | id in before :: Affects(cmd, id) ==> !before[id].UpdateAborts(cmd)
      requires forall id | id in before ::
                 after[id] == if Affects(cmd, id) then before[id].Update(cmd) else before[id]
      modifies bankStates
      ensures Valid() && BankMap() == after
    {
      hide Bank.Update, Bank.UpdateAborts, Affects;
      for i := 0 to cfg.ranks
        invariant Swept(before, after, i, 0, 0)
      {
        for j := 0 to cfg.bankgroups
          invariant Swept(before, after, i, j, 0)
        {
          UpdateGroupState(cmd, i, j, before, after);
        }
      }
    }

    /** The innermost loop: the banks of one group. */
    method UpdateGroupState(cmd: Command, i: int, j: int,
                            ghost before: map<BankId, Bank>, ghost after: map<BankId, Bank>)
      requires Valid() && 0 <= i < cfg.ranks && 0 <= j < cfg.bankgroups
      requires Swept(before, after, i, j, 0)
      requires forall id | id in before :: Affects(cmd, id) ==> !before[id].UpdateAborts(cmd)
      requires forall id | id in before :: id in after
                 && after[id] == if Affects(cmd, id) then before[id].Update(cmd) else before[id]
      modifies bankStates
      ensures Valid() && Swept(before, after, i, j + 1, 0)
    {
      for k := 0 to cfg.banksPerGroup
        invariant Valid() && Swept(before, after, i, j, k)
      {
        var here := BankId(i, j, k);
        assert cfg.Has(here);
        if Affects(cmd, here) {
          bankStates[i, j, k] := bankStates[i, j, k].Update(cmd);
        }
        forall id: BankId | cfg.Has(id)
          ensures bankStates[id.rank, id.bankgroup, id.bank]
               == if Pending(cfg, cfg.ranks, i, j, k + 1, id) then before[id] else after[id]
        {
          assert id != here ==> Pending(cfg, cfg.ranks, i, j, k + 1, id) == Pending(cfg, cfg.ranks, i, j, k, id);
        }
      }
    }

    /** The banks of `m` in scope, with the delays of one list recorded. */
    ghost function Timed(m: map<BankId, Bank>, scope: BankId -> bool, delays: Delays, clk: int): map<BankId, Bank> {
      map id | id in m :: if scope(id) then Delayed(m[id], delays, clk) else m[id]
    }

    /** One delay list recorded at every bank in scope. */
    method UpdateScopeTiming(scope: BankId -> bool, delays: Delays, clk: int)
      requires Valid()
      modifies bankStates
      ensures Valid() && BankMap() == Timed(old(BankMap()), scope, delays, clk)
    {
      ghost var before := BankMap();
      ghost var after := Timed(before, scope, delays, clk);
      for i := 0 to cfg.ranks
        invariant Swept(before, after, i, 0, 0)
      {
        for j := 0 to cfg.bankgroups
          invariant Swept(before, after, i, j, 0)
        {
          UpdateGroupTiming(scope, delays, clk, i, j, before, after);
        }
      }
      assert BankMap() == after;
    }

    method UpdateGroupTiming(scope: BankId -> bool, delays: Delays, clk: int, i: int, j: int,
                             ghost before: map<BankId, Bank>, ghost after: map<BankId, Bank>)
      requires Valid() && 0 <= i < cfg.ranks && 0 <= j < cfg.bankgroups
      requires Swept(before, after, i, j, 0)
      requires forall id | id in before :: id in after
                 && after[id] == if scope(id) then Delayed(before[id], delays, clk) else before[id]
      modifies bankStates
      ensures Valid() && Swept(before, after, i, j + 1, 0)
    {
      for k := 0 to cfg.banksPerGroup
        invariant Valid() && Swept(before, after, i, j, k)
      {
        var here := BankId(i, j, k);
        assert cfg.Has(here);
        if scope(here) {
          var b := DelayBank(bankStates[i, j, k], delays, clk);
          bankStates[i, j, k] := b;
        }
        forall id: BankId | cfg.Has(id)
          ensures bankStates[id.rank, id.bankgroup, id.bank]
               == if Pending(cfg, cfg.ranks, i, j, k + 1, id) then before[id] else after[id]
        {
          assert id != here ==> Pending(cfg, cfg.ranks, i, j, k + 1, id) == Pending(cfg, cfg.ranks, i, j, k, id);
        }
      }
    }

    /** Every bank with the delays the command imposes on it recorded. */
    ghost function AllTimed(m: map<BankId, Bank>, cmd: Command, clk: int): map<BankId, Bank> {
      map id | id in m :: Delayed(m[id], Entries(cfg, table, cmd, id), clk)
    }

    /** The banks of the addressed group, with the delays the command imposes on them recorded. */
    ghost function GroupTimed(m: map<BankId, Bank>, cmd: Command, clk: int): map<BankId, Bank> {
      map id | id in m ::
        if id.rank == cmd.addr.rank && id.bankgroup == cmd.addr.bankgroup
        then Delayed(m[id], Entries(cfg, table, cmd, id), clk) else m[id]
    }

    method UpdateOwnGroupTiming(cmd: Command, clk: int)
      requires Valid() && cmd.kind in {Read, Write, Activate, Precharge}
      modifies bankStates
      ensures Valid() && BankMap() == GroupTimed(old(BankMap()), cmd, clk)
    {
      hide BankMap, Delayed;
      var a, kind := cmd.addr, cmd.kind;
      UpdateScopeTiming((id: BankId) => id == IdOf(a), table.sameBank(kind), clk);
      UpdateScopeTiming((id: BankId) => id.rank == a.rank && id.bankgroup == a.bankgroup && id.bank != a.bank,
                        table.otherBanksSameBankgroup(kind), clk);
    }

    /** READ, WRITE, ACTIVATE and PRECHARGE: four disjoint scopes. */
    method UpdateBankCommandTiming(cmd: Command, clk: int)
      requires Valid() && cmd.kind in {Read, Write, Activate, Precharge}
      modifies bankStates
      ensures Valid() && BankMap() == AllTimed(old(BankMap()), cmd, clk)
    {
      hide BankMap, Delayed;
      var a, kind := cmd.addr, cmd.kind;
      UpdateOwnGroupTiming(cmd, clk);
      UpdateScopeTiming((id: BankId) => id.rank == a.rank && id.bankgroup != a.bankgroup,
                        table.otherBankgroupsSameRank(kind), clk);
      UpdateScopeTiming((id: BankId) => id.rank != a.rank, table.otherRanks(kind), clk);
    }

    /** GWRITE: the other banks of its rank, then on through the same-bank list it shares with PIM_PRECHARGE. */
    method UpdateGwriteTiming(cmd: Command, clk: int)
      requires Valid() && cmd.kind in {Gwrite, PimPrecharge}
      modifies bankStates
      ensures Valid() && BankMap() == AllTimed(old(BankMap()), cmd, clk)
    {
      hide BankMap, Delayed;
      forall b: Bank ensures Delayed(b, [], clk) == b { DelayedByNone(b, clk); }
      var a, kind := cmd.addr, cmd.kind;
      if kind == Gwrite {
        UpdateScopeTiming((id: BankId) => id.rank == a.rank && id.bankgroup == a.bankgroup && id.bank != a.bank,
                          table.otherBanksSameBankgroup(kind), clk);
        UpdateScopeTiming((id: BankId) => id.rank == a.rank && id.bankgroup != a.bankgroup,
                          table.otherBankgroupsSameRank(kind), clk);
      }
      UpdateScopeTiming((id: BankId) => id == IdOf(a), table.sameBank(kind), clk);
    }

    /** G_ACT: its bank group, then its whole rank. */
    method UpdateGActTiming(cmd: Command, clk: int)
      requires Valid() && cmd.kind == GAct
      modifies bankStates
      ensures Valid() && BankMap() == AllTimed(old(BankMap()), cmd, clk)
    {
      hide BankMap;
      var a, kind := cmd.addr, cmd.kind;
      ghost var before := BankMap();
      UpdateScopeTiming((id: BankId) => id.rank == a.rank && id.bankgroup == a.bankgroup,
                        table.otherBanksSameBankgroup(kind), clk);
      UpdateScopeTiming((id: BankId) => id.rank == a.rank, table.sameRank(kind), clk);
      forall id | id in before
        ensures BankMap()[id] == Delayed(before[id], Entries(cfg, table, cmd, id), clk)
      {
        DelayedTwice(before[id],
                     if id.rank == a.rank && id.bankgroup == a.bankgroup then table.otherBanksSameBankgroup(kind)
                       else [],
                     if id.rank == a.rank then table.sameRank(kind) else [], clk);
      }
    }

    /** COMPS_READRES: every bank takes the rank list and the compute delay. */
    method UpdateChannelTiming(cmd: Command, clk: int)
      requires Valid() && cmd.kind == CompsReadres
      modifies bankStates
      ensures Valid() && BankMap() == AllTimed(old(BankMap()), cmd, clk)
    {
      hide BankMap, Delayed;
      ghost var before := BankMap();
      var compute := [(CompsReadres, ComputeDelay(cfg, cmd))];
      UpdateScopeTiming((id: BankId) => true, table.sameRank(cmd.kind), clk);
      UpdateScopeTiming((id: BankId) => true, compute, clk);
      forall id | id in before
        ensures BankMap()[id] == Delayed(before[id], Entries(cfg, table, cmd, id), clk)
      {
        DelayedTwice(before[id], table.sameRank(cmd.kind), compute, clk);
      }
    }

    method UpdateActivationTimes(rank: int, clk: int)
      requires Valid() && 0 <= rank < cfg.ranks
      modifies this`fourAw, this`thirtyTwoAw
      ensures Valid()
      ensures fourAw == old(fourAw)[rank := Activated(old(fourAw)[rank], cfg.tFAW, clk)]
      ensures thirtyTwoAw
           == if cfg.gddr then old(thirtyTwoAw)[rank := Activated(old(thirtyTwoAw)[rank], cfg.t32AW, clk)]
                             else old(thirtyTwoAw)
    {
      if |fourAw[rank]| > 0 && clk >= fourAw[rank][0] { fourAw := fourAw[rank := fourAw[rank][1..]]; }
      fourAw := fourAw[rank := fourAw[rank] + [clk + cfg.tFAW]];
      if cfg.gddr {
        if |thirtyTwoAw[rank]| > 0 && clk >= thirtyTwoAw[rank][0] {
          thirtyTwoAw := thirtyTwoAw[rank := thirtyTwoAw[rank][1..]];
        }
        thirtyTwoAw := thirtyTwoAw[rank := thirtyTwoAw[rank] + [clk + cfg.t32AW]];
      }
    }

    method UpdateBankTimings(cmd: Command, clk: int)
      requires Valid() && cmd.kind != PHeader && cmd.IsValid()
      modifies bankStates
      ensures Valid() && BankMap() == AllTimed(old(BankMap()), cmd, clk)
    {
      match cmd.kind {
        case Read | Write | Activate | Precharge => UpdateBankCommandTiming(cmd, clk);
        case Refresh =>
          UpdateScopeTiming((id: BankId) => id.rank == cmd.addr.rank, table.sameRank(cmd.kind), clk);
        case Gwrite | PimPrecharge => UpdateGwriteTiming(cmd, clk);
        case GAct => UpdateGActTiming(cmd, clk);
        case CompsReadres => UpdateChannelTiming(cmd, clk);
      }
    }

    method UpdateTiming(cmd: Command, clk: int)
      requires Valid() && cfg.Addressed(cmd) && cmd.kind != PHeader && cmd.IsValid()
      modifies bankStates, this`fourAw, this`thirtyTwoAw
      ensures Valid() && Abs() == Channels.UpdateTiming(cfg, table, old(Abs()), cmd, clk)
    {
      hide Entries, Delayed, Activated;
      if cmd.kind == Activate { UpdateActivationTimes(cmd.Rank(), clk); }
      UpdateBankTimings(cmd, clk);
    }

    method UpdateTimingAndStates(cmd: Command, clk: int)
      requires Valid() && cfg.Addressed(cmd) && cmd.IsValid() && cmd.kind != PHeader && !UpdateAborts(Abs(), cmd)
      modifies this, bankStates
      ensures Valid() && Abs() == Issue(cfg, table, old(Abs()), cmd, clk)
    {
      UpdateState(cmd);
      UpdateTiming(cmd, clk);
    }
  }

  /** The loop over one delay list at one bank. */
  method DelayBank(b: Bank, delays: Delays, clk: int) returns (b': Bank)
    ensures b' == Delayed(b, delays, clk)
  {
    b' := b;
    var n := 0;
    while n < |delays|
      invariant 0 <= n <= |delays|
      invariant Delayed(b, delays, clk) == Delayed(b', delays[n..], clk)
    {
      b' := b'.UpdateTiming(delays[n].0, clk + delays[n].1);
      n := n + 1;
    }
  }

  /** Recording two lists one after the other is recording their concatenation. */
  lemma {:induction false} DelayedTwice(b: Bank, first: Delays, second: Delays, clk: int)
    ensures Delayed(Delayed(b, first, clk), second, clk) == Delayed(b, first + second, clk)
    decreases |first|
  {
    if first == [] {
      assert first + second == second;
    } else {
      DelayedTwice(b.UpdateTiming(first[0].0, clk + first[0].1), first[1..], second, clk);
      assert (first + second)[1..] == first[1..] + second;
    }
  }
}
