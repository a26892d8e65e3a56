/** Runs of a channel. */
module ChannelRuns {
  // A run is any interleaving of clock ticks, refresh arrivals and served requests, where a request is served exactly
  // when the channel answers Ready. Timing soundness, the activation windows and the absence of exits hold of every
  // run, whatever the queues ask for and whatever the delay tables say.

  import opened Commands
  import opened Banks
  import opened Channels

  datatype Issued = Issued(cmd: Command, clk: int)

  datatype Action = Tick | NeedRefresh(rank: int) | Serve(req: Command)

  /** `log` is every command issued so far, with its cycle. */
  datatype World = World(ch: Channel, clk: int, log: seq<Issued>)

  /** A certified command never reaches an exit branch of any bank it touches. */
  lemma CertifiedNeverAborts(cfg: Config, ch: Channel, req: Command, clk: int, c: Command)
    requires ch.Valid(cfg) && cfg.Addressed(req)
    requires GetReadyCommand(cfg, ch, req, clk) == Ready(c)
    ensures c.kind != PHeader ==> !UpdateAborts(ch, c)
    ensures cfg.Addressed(c)
    ensures forall id | id in ch.banks && Gated(c, id) && c.kind != PHeader :: clk >= ch.banks[id].Earliest(c.kind)
  {
    ReadyIsCertified(cfg, ch, req, clk);
    forall id | id in ch.banks && Gated(c, id)
      ensures c.kind != PHeader ==> !ch.banks[id].UpdateAborts(c) && clk >= ch.banks[id].Earliest(c.kind)
    {
      CertifiedUpdateIsDefined(ch.banks[id], req, clk);
      SameKindAborts(ch.banks[id], c, ch.banks[id].GetReady(req, clk).cmd);
    }
  }

  lemma SameKindAborts(b: Bank, c: Command, d: Command)
    requires c.kind == d.kind
    ensures b.UpdateAborts(c) == b.UpdateAborts(d)
  {
  }

  lemma IssueKeepsValid(cfg: Config, table: TimingTable, ch: Channel, c: Command, clk: int)
    requires ch.Valid(cfg) && cfg.Addressed(c) && !UpdateAborts(ch, c)
    ensures Issue(cfg, table, ch, c, clk).Valid(cfg)
  {
    RefreshedKeeps(cfg, ch.refreshQ, c.Rank());
  }

  lemma {:induction false} RefreshedKeeps(cfg: Config, q: seq<Command>, rank: int)
    requires forall c <- q :: c.IsRefresh() && cfg.Addressed(c)
    ensures forall c <- RankRefreshed(q, rank) :: c.IsRefresh() && cfg.Addressed(c)
  {
    if q != [] { RefreshedKeeps(cfg, q[1..], rank); }
  }

  ghost function Step(cfg: Config, table: TimingTable, w: World, a: Action): (w': World)
    requires w.ch.Valid(cfg)
    ensures w'.ch.Valid(cfg)
  {
    match a
    case Tick => w.(clk := w.clk + 1)
    case NeedRefresh(rank) =>
      if 0 <= rank < cfg.ranks then w.(ch := w.ch.(refreshQ := w.ch.refreshQ + [RefreshCommand(rank)])) else w
    case Serve(req) =>
      if !cfg.Addressed(req) then w
      else
        match GetReadyCommand(cfg, w.ch, req, w.clk)
        case Ready(c) =>
          if c.IsPimHeader() then w   // a header is consumed by the queue and never reaches the banks
          else
            CertifiedNeverAborts(cfg, w.ch, req, w.clk, c);
            IssueKeepsValid(cfg, table, w.ch, c, w.clk);
            World(Issue(cfg, table, w.ch, c, w.clk), w.clk, w.log + [Issued(c, w.clk)])
        case _ => w
  }

  ghost function Start(cfg: Config): (w: World)
    requires cfg.Valid()
    ensures w.ch.Valid(cfg)
  {
    World(Initial(cfg), 0, [])
  }

  ghost function Exec(cfg: Config, table: TimingTable, actions: seq<Action>): (w: World)
    requires cfg.Valid()
    ensures w.ch.Valid(cfg)
    decreases |actions|
  {
    if actions == [] then Start(cfg)
    else Step(cfg, table, Exec(cfg, table, actions[..|actions| - 1]), actions[|actions| - 1])
  }

  // ---- timing soundness ----

  /** Every delay imposed by an issued command is recorded at every bank it relates to. */
  ghost predicate Recorded(cfg: Config, table: TimingTable, w: World)
    requires w.ch.Valid(cfg)
  {
    forall n, id, e | 0 <= n < |w.log| && id in w.ch.banks && e in Entries(cfg, table, w.log[n].cmd, id) ::
      w.ch.banks[id].Earliest(e.0) >= w.log[n].clk + e.1
  }

  /** Every issued command waited out every delay that an earlier one imposed on it at a bank it gates on. */
  ghost predicate Spaced(cfg: Config, table: TimingTable, log: seq<Issued>) {
    forall m, n, id, d | 0 <= m < n < |log| && cfg.Has(id) && Gated(log[n].cmd, id)
      && (log[n].cmd.kind, d) in Entries(cfg, table, log[m].cmd, id) ::
      log[n].clk >= log[m].clk + d
  }

  lemma {:induction false} DelayedRecords(b: Bank, delays: Delays, clk: int)
    ensures forall e <- delays :: Delayed(b, delays, clk).Earliest(e.0) >= clk + e.1
    ensures forall kind :: Delayed(b, delays, clk).Earliest(kind) >= b.Earliest(kind)
    ensures Delayed(b, delays, clk).normal == b.normal && Delayed(b, delays, clk).pim == b.pim
    ensures Delayed(b, delays, clk).rowHits == b.rowHits
    decreases |delays|
  {
    if delays != [] {
      DelayedRecords(b.UpdateTiming(delays[0].0, clk + delays[0].1), delays[1..], clk);
    }
  }

  /** The command a step issues to the banks, if any. */
  ghost predicate Issues(cfg: Config, w: World, a: Action, c: Command)
    requires w.ch.Valid(cfg)
  {
    a.Serve? && cfg.Addressed(a.req) && GetReadyCommand(cfg, w.ch, a.req, w.clk) == Ready(c) && !c.IsPimHeader()
  }

  /** A step either leaves log, banks and windows alone or issues one certified command. */
  lemma StepShape(cfg: Config, table: TimingTable, w: World, a: Action) returns (c: Command)
    requires w.ch.Valid(cfg)
    ensures var w' := Step(cfg, table, w, a);
      if Issues(cfg, w, a, c) then
        && Certified(cfg, w.ch, a.req, w.clk, c)
        && !UpdateAborts(w.ch, c)
        && w' == World(Issue(cfg, table, w.ch, c, w.clk), w.clk, w.log + [Issued(c, w.clk)])
      else
        && w'.log == w.log && w'.clk >= w.clk
        && w'.ch.(refreshQ := []) == w.ch.(refreshQ := [])
  {
    c := NO_COMMAND;
    if a.Serve? && cfg.Addressed(a.req) && GetReadyCommand(cfg, w.ch, a.req, w.clk).Ready? {
      c := GetReadyCommand(cfg, w.ch, a.req, w.clk).cmd;
      ReadyIsCertified(cfg, w.ch, a.req, w.clk);
      CertifiedNeverAborts(cfg, w.ch, a.req, w.clk, c);
    }
  }

  lemma IssueRecords(cfg: Config, table: TimingTable, ch: Channel, c: Command, clk: int)
    requires ch.Valid(cfg) && cfg.Addressed(c) && !UpdateAborts(ch, c)
    ensures var ch' := Issue(cfg, table, ch, c, clk);
      forall id | id in ch.banks ::
        && id in ch'.banks
        && (forall e <- Entries(cfg, table, c, id) :: ch'.banks[id].Earliest(e.0) >= clk + e.1)
        && (forall kind :: ch'.banks[id].Earliest(kind) >= ch.banks[id].Earliest(kind))
  {
    var mid := UpdateState(ch, c);
    forall id | id in ch.banks
      ensures var b := Delayed(mid.banks[id], Entries(cfg, table, c, id), clk);
        && (forall e <- Entries(cfg, table, c, id) :: b.Earliest(e.0) >= clk + e.1)
        && (forall kind :: b.Earliest(kind) >= ch.banks[id].Earliest(kind))
    {
      DelayedRecords(mid.banks[id], Entries(cfg, table, c, id), clk);
    }
  }

  /** What an issue does to the buffers of every bank. */
  lemma IssueFrame(cfg: Config, table: TimingTable, ch: Channel, c: Command, clk: int)
    requires ch.Valid(cfg) && cfg.Addressed(c) && !UpdateAborts(ch, c)
    ensures Issue(cfg, table, ch, c, clk).banks.Keys == ch.banks.Keys
    ensures !c.IsRefresh() ==> Issue(cfg, table, ch, c, clk).refreshQ == ch.refreshQ
  {
  }

  lemma IssueRows(cfg: Config, table: TimingTable, ch: Channel, c: Command, clk: int)
    requires ch.Valid(cfg) && cfg.Addressed(c) && !UpdateAborts(ch, c)
    ensures Issue(cfg, table, ch, c, clk).Valid(cfg)
    ensures forall id | id in ch.banks ::
      var b, b' := ch.banks[id], Issue(cfg, table, ch, c, clk).banks[id];
      && b'.normal == (if Affects(c, id) && c.kind == Activate then Open(c.Row())
                       else if Affects(c, id) && c.kind == Precharge then Closed else b.normal)
      && b'.pim == (if Affects(c, id) && c.kind == GAct then Open(c.Row())
                    else if Affects(c, id) && c.kind == PimPrecharge then Closed else b.pim)
  {
    IssueKeepsValid(cfg, table, ch, c, clk);
    hide Entries, Delayed;
    var mid := UpdateState(ch, c);
    forall id | id in ch.banks
      ensures Delayed(mid.banks[id], Entries(cfg, table, c, id), clk).normal == mid.banks[id].normal
      ensures Delayed(mid.banks[id], Entries(cfg, table, c, id), clk).pim == mid.banks[id].pim
    {
      DelayedRecords(mid.banks[id], Entries(cfg, table, c, id), clk);
    }
  }

  lemma IssueKeepsRecorded(cfg: Config, table: TimingTable, w: World, c: Command, w': World)
    requires w.ch.Valid(cfg) && cfg.Addressed(c) && !UpdateAborts(w.ch, c) && Recorded(cfg, table, w)
    requires w' == World(Issue(cfg, table, w.ch, c, w.clk), w.clk, w.log + [Issued(c, w.clk)]) && w'.ch.Valid(cfg)
    ensures Recorded(cfg, table, w')
  {
    IssueRecords(cfg, table, w.ch, c, w.clk);
    forall n, id, e | 0 <= n < |w'.log| && id in w'.ch.banks && e in Entries(cfg, table, w'.log[n].cmd, id)
      ensures w'.ch.banks[id].Earliest(e.0) >= w'.log[n].clk + e.1
    {
      if n < |w.log| {
        assert w.log[n] == w'.log[n];
        assert w.ch.banks[id].Earliest(e.0) >= w.log[n].clk + e.1;
      }
    }
  }

  lemma IssueKeepsSpaced(cfg: Config, table: TimingTable, w: World, c: Command)
    requires w.ch.Valid(cfg) && Recorded(cfg, table, w) && Spaced(cfg, table, w.log)
    requires forall id | id in w.ch.banks && Gated(c, id) :: w.clk >= w.ch.banks[id].Earliest(c.kind)
    ensures Spaced(cfg, table, w.log + [Issued(c, w.clk)])
  {
    var log' := w.log + [Issued(c, w.clk)];
    forall m, n, id, d | 0 <= m < n < |log'| && cfg.Has(id) && Gated(log'[n].cmd, id)
      && (log'[n].cmd.kind, d) in Entries(cfg, table, log'[m].cmd, id)
      ensures log'[n].clk >= log'[m].clk + d
    {
      assert w.log[m] == log'[m];
      if n < |w.log| {
        assert w.log[n] == log'[n];
      } else {
        assert w.ch.banks[id].Earliest((c.kind, d).0) >= w.log[m].clk + (c.kind, d).1;
      }
    }
  }

  lemma StepKeepsSpacing(cfg: Config, table: TimingTable, w: World, a: Action)
    requires w.ch.Valid(cfg) && Recorded(cfg, table, w) && Spaced(cfg, table, w.log)
    ensures Recorded(cfg, table, Step(cfg, table, w, a)) && Spaced(cfg, table, Step(cfg, table, w, a).log)
  {
    var c := StepShape(cfg, table, w, a);
    if Issues(cfg, w, a, c) {
      CertifiedNeverAborts(cfg, w.ch, a.req, w.clk, c);
      IssueKeepsRecorded(cfg, table, w, c, Step(cfg, table, w, a));
      IssueKeepsSpaced(cfg, table, w, c);
    }
  }

  /** For any table and any run: a command issues no sooner than any earlier command's delay for it allows. */
  lemma {:induction false} TimingSoundness(cfg: Config, table: TimingTable, actions: seq<Action>)
    requires cfg.Valid()
    ensures Recorded(cfg, table, Exec(cfg, table, actions))
    ensures Spaced(cfg, table, Exec(cfg, table, actions).log)
    decreases |actions|
  {
    if actions != [] {
      var init := actions[..|actions| - 1];
      TimingSoundness(cfg, table, init);
      StepKeepsSpacing(cfg, table, Exec(cfg, table, init), actions[|actions| - 1]);
    }
  }

  // ---- activation windows ----

  /** The cycles at which rank `rank` was activated. */
  function Activations(log: seq<Issued>, rank: int): seq<int> {
    if log == [] then []
    else
      var last := log[|log| - 1];
      Activations(log[..|log| - 1], rank)
      + if last.cmd.kind == Activate && last.cmd.Rank() == rank then [last.clk] else []
  }

  /** The window holds the expiry of the latest activations, at most `limit`, and all older ones had expired
      by the latest activation; any `limit` + 1 consecutive activations span at least `span`. */
  ghost predicate WindowInv(window: seq<int>, acts: seq<int>, limit: nat, span: nat, clk: int) {
    var gone := |acts| - |window|;
    && 0 <= gone
    && |window| <= limit
    && (forall n | 0 <= n < |window| :: window[n] == acts[gone + n] + span)
    && (forall m, n | 0 <= m <= n < |acts| :: acts[m] <= acts[n] <= clk)
    && (forall n | 0 <= n < gone :: acts[n] + span <= acts[|acts| - 1])
    && SpanKept(acts, limit, span)
  }

  ghost predicate SpanKept(acts: seq<int>, limit: nat, span: nat) {
    forall n | limit <= n < |acts| :: acts[n] >= acts[n - limit] + span
  }

  lemma ActivationKeepsWindow(window: seq<int>, acts: seq<int>, limit: nat, span: nat, clk: int)
    requires limit > 0 && WindowInv(window, acts, limit, span, clk) && WindowOpen(window, limit, clk)
    ensures WindowInv(Activated(window, span, clk), acts + [clk], limit, span, clk)
  {
    var acts' := acts + [clk];
    var gone := |acts| - |window|;
    if |acts| >= limit {
      var first := |acts| - limit;
      if first < gone {
        assert acts[first] + span <= acts[|acts| - 1];
      } else {
        assert window[0] == acts[gone] + span;
      }
    }
    forall n | 0 <= n < |acts'| - |Activated(window, span, clk)|
      ensures acts'[n] + span <= acts'[|acts'| - 1]
    {
      if n < gone { assert acts[n] + span <= acts[|acts| - 1]; } else { assert window[0] == acts[n] + span; }
    }
  }

  ghost predicate WindowsKept(cfg: Config, w: World)
    requires w.ch.Valid(cfg)
  {
    forall r | 0 <= r < cfg.ranks ::
      && WindowInv(w.ch.fourAw[r], Activations(w.log, r), 4, cfg.tFAW, w.clk)
      && (cfg.gddr ==> WindowInv(w.ch.thirtyTwoAw[r], Activations(w.log, r), 32, cfg.t32AW, w.clk))
  }

  lemma StepKeepsWindows(cfg: Config, table: TimingTable, w: World, a: Action)
    requires w.ch.Valid(cfg) && WindowsKept(cfg, w)
    ensures WindowsKept(cfg, Step(cfg, table, w, a))
  {
    hide GetReadyCommand;
    var c := StepShape(cfg, table, w, a);
    if Issues(cfg, w, a, c) {
      IssueKeepsWindows(cfg, table, w, c, Step(cfg, table, w, a));
    }
  }

  lemma ActivationsGrow(log: seq<Issued>, c: Command, clk: int, r: int)
    ensures Activations(log + [Issued(c, clk)], r)
         == Activations(log, r) + if c.kind == Activate && c.Rank() == r then [clk] else []
  {
    assert (log + [Issued(c, clk)])[..|log|] == log;
  }

  lemma IssueWindows(cfg: Config, table: TimingTable, ch: Channel, c: Command, clk: int, r: int)
    requires ch.Valid(cfg) && cfg.Addressed(c) && !UpdateAborts(ch, c) && 0 <= r < cfg.ranks
    ensures var ch' := Issue(cfg, table, ch, c, clk);
      && |ch'.fourAw| == |ch'.thirtyTwoAw| == cfg.ranks
      && (c.kind == Activate && c.Rank() == r ==>
            && ch'.fourAw[r] == Activated(ch.fourAw[r], cfg.tFAW, clk)
            && (cfg.gddr ==> ch'.thirtyTwoAw[r] == Activated(ch.thirtyTwoAw[r], cfg.t32AW, clk)))
      && (!(c.kind == Activate && c.Rank() == r) ==>
            ch'.fourAw[r] == ch.fourAw[r] && ch'.thirtyTwoAw[r] == ch.thirtyTwoAw[r])
  {
  }

  lemma IssueKeepsWindows(cfg: Config, table: TimingTable, w: World, c: Command, w': World)
    requires w.ch.Valid(cfg) && WindowsKept(cfg, w) && cfg.Addressed(c) && !UpdateAborts(w.ch, c)
    requires c.kind == Activate ==> ActivationWindowOk(cfg, w.ch, c.Rank(), w.clk)
    requires w' == World(Issue(cfg, table, w.ch, c, w.clk), w.clk, w.log + [Issued(c, w.clk)]) && w'.ch.Valid(cfg)
    ensures WindowsKept(cfg, w')
  {
    forall r | 0 <= r < cfg.ranks
      ensures WindowInv(w'.ch.fourAw[r], Activations(w'.log, r), 4, cfg.tFAW, w'.clk)
      ensures cfg.gddr ==> WindowInv(w'.ch.thirtyTwoAw[r], Activations(w'.log, r), 32, cfg.t32AW, w'.clk)
    {
      ActivationsGrow(w.log, c, w.clk, r);
      IssueWindows(cfg, table, w.ch, c, w.clk, r);
      if c.kind == Activate && c.Rank() == r {
        ActivationKeepsWindow(w.ch.fourAw[r], Activations(w.log, r), 4, cfg.tFAW, w.clk);
        if cfg.gddr {
          ActivationKeepsWindow(w.ch.thirtyTwoAw[r], Activations(w.log, r), 32, cfg.t32AW, w.clk);
        }
      } else {
        assert Activations(w'.log, r) == Activations(w.log, r);
      }
    }
  }

  /** In every run, any five consecutive activations of a rank span at least tFAW although each drops at most one
      expired entry, and the list never exceeds four; on GDDR likewise any 33, t32AW and 32. */
  lemma {:induction false} ActivationWindows(cfg: Config, table: TimingTable, actions: seq<Action>)
    requires cfg.Valid()
    ensures WindowsKept(cfg, Exec(cfg, table, actions))
    decreases |actions|
  {
    if actions != [] {
      var init := actions[..|actions| - 1];
      ActivationWindows(cfg, table, init);
      StepKeepsWindows(cfg, table, Exec(cfg, table, init), actions[|actions| - 1]);
    }
  }

  /** The reader's form of the window claim. */
  lemma FiveActivationsSpanTFAW(cfg: Config, table: TimingTable, actions: seq<Action>, r: int, n: int)
    requires cfg.Valid() && 0 <= r < cfg.ranks
    requires var acts := Activations(Exec(cfg, table, actions).log, r); 4 <= n < |acts|
    ensures var acts := Activations(Exec(cfg, table, actions).log, r); acts[n] - acts[n - 4] >= cfg.tFAW
    ensures |Exec(cfg, table, actions).ch.fourAw[r]| <= 4
  {
    ActivationWindows(cfg, table, actions);
  }
}
