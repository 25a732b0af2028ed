/** Exactly when the monthly money budget holds in every run. */
module Budget {
  import opened Wrappers
  import opened Tables
  import opened Transitions
  import opened Protocol
  import opened Runs
  import opened RunBuilding

  /** Whether the settings let a first question in at all. */
  predicate CanAdmit(cfg: Settings) {
    && cfg.ipRate > 0 && cfg.monthlyRequests > 0 && cfg.tokenRate > 0
    && (cfg.monthlyBudget > 0 ==> cfg.maxRequestCost <= cfg.monthlyBudget)
  }

  // ----- bills that fit their reservation

  predicate Reported(usage: Option<Usage>) {
    usage.Some? && usage.value.promptTokens.Some? && usage.value.completionTokens.Some?
  }

  predicate TokensWithin(usage: Option<Usage>, prompt: nat, completion: nat) {
    Reported(usage) ==>
      usage.value.promptTokens.value <= prompt && usage.value.completionTokens.value <= completion
  }

  /** The highest bill for so many tokens. */
  function WorstBill(cfg: Settings, prompt: nat, completion: nat): Money {
    prompt * cfg.inputPrice + completion * cfg.outputPrice
  }

  /** What the step's reported usage costs, if it reports any, is within the reservation. */
  predicate BillFits(cfg: Settings, a: Action) {
    a.Complete? && Reported(a.res.usage) ==>
      WorstBill(cfg, a.res.usage.value.promptTokens.value, a.res.usage.value.completionTokens.value)
      <= cfg.maxRequestCost
  }

  ghost predicate CostsFit(rs: seq<Request>, cap: Money) {
    forall k :: 0 <= k < |rs| ==> CostOf(rs[k]) <= cap
  }

  lemma {:induction false} RecoveryKeepsCosts(s: State, rows: seq<nat>, t: Instant)
    requires forall k :: 0 <= k < |rows| ==> rows[k] < |s.requests|
    ensures var rs := RecoverRows(s, rows, t).requests;
            forall k :: 0 <= k < |rs| ==> rs[k].cost == s.requests[k].cost
  {
    if rows != [] { RecoveryKeepsCosts(s, rows[..|rows| - 1], t); }
  }

  lemma FinishFits(s: State, cfg: Settings, r: nat, res: Result, t: Instant)
    requires CostsFit(s.requests, cfg.maxRequestCost) && BillFits(cfg, Complete(r, res))
    ensures CostsFit(Finish(s, cfg, r, res, t).requests, cfg.maxRequestCost)
  {
    if CanFinish(s, r) {
      assert Billed(cfg, CostOf(s.requests[r]), res.model, res.usage) <= cfg.maxRequestCost;
    }
  }

  lemma StepFits(w: World, cfg: Settings, a: Action, t: Instant)
    requires Enabled(w, a) && BillFits(cfg, a) && CostsFit(w.tables.requests, cfg.maxRequestCost)
    ensures CostsFit(Next(w, cfg, a, t).tables.requests, cfg.maxRequestCost)
  {
    hide Finish, RecoverRows, BillFits;
    match a {
      case Complete(r, res) => FinishFits(w.tables, cfg, r, res, t);
      case Sweep(cutoff, held) => RecoveryKeepsCosts(w.tables, StaleRows(w.tables.requests, cutoff, held), t);
      case _ =>
    }
  }

  ghost predicate AllBillsFit(run: Run, cfg: Settings) {
    forall i :: 0 <= i < |run.actions| ==> BillFits(cfg, run.actions[i])
  }

  lemma {:induction false} RunFits(run: Run, cfg: Settings, i: nat)
    requires IsRun(run, cfg) && AllBillsFit(run, cfg) && i < |run.worlds|
    ensures CostsFit(run.worlds[i].tables.requests, cfg.maxRequestCost)
  {
    if i > 0 {
      hide CostsFit, Next;
      RunFits(run, cfg, i - 1);
      assert StepOf(run, cfg, i - 1);
      StepFits(run.worlds[i - 1], cfg, run.actions[i - 1], run.times[i - 1]);
    } else {
      assert run.worlds[0].tables.requests == [];
    }
  }

  /** As long as no reported usage costs more than the reservation, the month stays within its budget. */
  lemma FittingBillsKeepBudget(run: Run, cfg: Settings, i: nat)
    requires IsRun(run, cfg) && AllBillsFit(run, cfg) && i < |run.worlds| && cfg.monthlyBudget > 0
    ensures MonthlyCost(run.worlds[i].tables.requests, run.worlds[i].tables.now.monthStart) <= cfg.monthlyBudget
  {
    hide IsRun, AllBillsFit;
    RunFits(run, cfg, i);
    SpendCap(run, cfg, i);
  }

  // ----- settings that admit nothing

  /** The first check that denies every question under such settings. */
  function Barrier(cfg: Settings): (n: nat)
    requires !CanAdmit(cfg)
    ensures 2 <= n < CHECKS
  {
    if cfg.ipRate == 0 then 2
    else if cfg.monthlyRequests == 0 then 3
    else if cfg.monthlyBudget > 0 && cfg.maxRequestCost > cfg.monthlyBudget then 4
    else 5
  }

  ghost predicate AllRejected(rs: seq<Request>) {
    forall k :: 0 <= k < |rs| ==> rs[k].status == Rejected
  }

  ghost predicate Shut(w: World, cfg: Settings)
    requires !CanAdmit(cfg)
  {
    AllRejected(w.tables.requests) && forall sid :: sid in w.sessions ==> w.sessions[sid].stage <= Barrier(cfg)
  }

  lemma NothingBillable(rs: seq<Request>, since: nat)
    requires AllRejected(rs)
    ensures MonthlyCount(rs, since) == 0 && MonthlyCost(rs, since) == 0
  {
    TotalPrefix(rs, 0, InMonth(since));
    TotalPrefix(rs, 0, CostInMonth(since));
    assert rs[..0] == [];
  }

  lemma {:induction false} CountsAreNatural(rs: seq<Request>, c: nat, since: int)
    ensures TokenCount(rs, c, since) >= 0
  {
    if rs != [] { CountsAreNatural(rs[..|rs| - 1], c, since); }
  }

  lemma BarrierDenies(s: State, cfg: Settings, c: nat, ip: string, t: Instant)
    requires !CanAdmit(cfg) && c in s.conversations && AllRejected(s.requests)
    ensures Check(s, cfg, c, ip, t, Barrier(cfg)).Some?
  {
    hide AllRejected, MonthlyCount, MonthlyCost, TokenCount;
    NothingBillable(s.requests, t.monthStart);
    CountsAreNatural(s.requests, c, t.at - MINUTE);
  }

  lemma StaysShut(w: World, cfg: Settings, a: Action, t: Instant)
    requires !CanAdmit(cfg) && Shut(w, cfg) && Enabled(w, a)
    ensures Shut(Next(w, cfg, a, t), cfg)
  {
    hide Check, Barrier;
    match a {
      case Probe(sid) =>
        var x := w.sessions[sid];
        if x.stage == Barrier(cfg) { BarrierDenies(w.tables, cfg, x.conversation, x.ip, t); }
      case Sweep(cutoff, held) =>
        assert StaleRows(w.tables.requests, cutoff, held) == [] by { NothingStale(w.tables.requests, cutoff, held); }
      case _ =>
    }
  }

  lemma NothingStale(rs: seq<Request>, cutoff: int, held: set<nat>)
    requires AllRejected(rs)
    ensures StaleRows(rs, cutoff, held) == []
  {
    var rows := StaleRows(rs, cutoff, held);
    assert rows != [] ==> Stale(rs, cutoff, held, rows[0]);
  }

  lemma {:induction false} RunStaysShut(run: Run, cfg: Settings, i: nat)
    requires !CanAdmit(cfg) && IsRun(run, cfg) && i < |run.worlds|
    ensures Shut(run.worlds[i], cfg)
  {
    if i > 0 {
      hide Shut, Next;
      RunStaysShut(run, cfg, i - 1);
      assert StepOf(run, cfg, i - 1);
      StaysShut(run.worlds[i - 1], cfg, run.actions[i - 1], run.times[i - 1]);
    } else {
      assert run.worlds[0].tables.requests == [];
    }
  }

  // ----- a run that admits a question

  /** Whenever the settings admit anything, some run has an admitted question in generation. */
  lemma AdmitOne(cfg: Settings) returns (run: Run)
    requires CanAdmit(cfg)
    ensures IsRun(run, cfg) && run.worlds != [] && NothingCompleted(run)
    ensures Last(run).sessions == map[] && Last(run).tables.now.monthStart == 0
    ensures |Last(run).tables.requests| == 1 && Last(run).tables.requests[0].status == Pending
    ensures CanFinish(Last(run).tables, 0)
  {
    run := Begin(cfg);
    run := Extend(run, cfg, Issue(0), Instant(1, 0, 0));
    hide IsRun;
    assert Passes(Last(run).tables, cfg, 0, "ip", 0);
    run := AdmitAt(run, cfg, 0, "key", "ip", 0, 0);
    var s := Last(run).tables;
    assert s.messages[0].request == 0 && s.messages[0].role == User;
  }

  /** The same run after a bill for the given tokens. */
  lemma BillOne(cfg: Settings, prompt: nat, completion: nat) returns (run: Run)
    requires CanAdmit(cfg)
    ensures IsRun(run, cfg) && run.worlds != [] && RunTokensWithin(run, prompt, completion)
    ensures var s := Last(run).tables;
            && |s.requests| == 1 && s.requests[0].status == Completed && s.now.monthStart == 0
            && CostOf(s.requests[0]) == WorstBill(cfg, prompt, completion)
            && MonthlyCost(s.requests, s.now.monthStart) == WorstBill(cfg, prompt, completion)
  {
    var before := AdmitOne(cfg);
    var res := Result("", false, [], Some("model"), Some(Usage(Some(prompt), Some(completion))));
    var now := Last(before).tables.now;
    run := Extend(before, cfg, Complete(0, res), now.(at := now.at + 1));
    hide IsRun;
    var s := Last(run).tables;
    assert s.requests == [s.requests[0]] && s.requests[..0] == [];
    assert Total(s.requests, CostInMonth(0)) == Total(s.requests[..0], CostInMonth(0)) + CostInMonth(0)(s.requests[0]);
  }

  ghost predicate RunTokensWithin(run: Run, prompt: nat, completion: nat) {
    forall a :: a in run.actions && a.Complete? ==> TokensWithin(a.res.usage, prompt, completion)
  }

  // ----- the exact conditions

  ghost predicate BudgetHolds(cfg: Settings) {
    forall run: Run, i: nat :: IsRun(run, cfg) && i < |run.worlds| ==>
      MonthlyCost(run.worlds[i].tables.requests, run.worlds[i].tables.now.monthStart) <= cfg.monthlyBudget
  }

  /** Whatever usage is reported, a money budget holds in every run exactly when no question can be admitted
      or tokens cost nothing. */
  lemma BudgetHoldsExactly(cfg: Settings)
    requires cfg.monthlyBudget > 0
    ensures BudgetHolds(cfg) <==> !CanAdmit(cfg) || (cfg.inputPrice == 0 && cfg.outputPrice == 0)
  {
    hide IsRun;
    if !CanAdmit(cfg) {
      forall run: Run, i: nat | IsRun(run, cfg) && i < |run.worlds|
        ensures MonthlyCost(run.worlds[i].tables.requests, run.worlds[i].tables.now.monthStart) <= cfg.monthlyBudget
      {
        RunStaysShut(run, cfg, i);
        NothingBillable(run.worlds[i].tables.requests, run.worlds[i].tables.now.monthStart);
      }
    } else if cfg.inputPrice == 0 && cfg.outputPrice == 0 {
      forall run: Run, i: nat | IsRun(run, cfg) && i < |run.worlds|
        ensures MonthlyCost(run.worlds[i].tables.requests, run.worlds[i].tables.now.monthStart) <= cfg.monthlyBudget
      {
        FittingBillsKeepBudget(run, cfg, i);
      }
    } else {
      var run := BillOne(cfg, cfg.monthlyBudget + 1, cfg.monthlyBudget + 1);
      Multiplied(cfg, cfg.monthlyBudget + 1);
      var i := |run.worlds| - 1;
      assert MonthlyCost(run.worlds[i].tables.requests, run.worlds[i].tables.now.monthStart) > cfg.monthlyBudget;
    }
  }

  lemma Multiplied(cfg: Settings, n: nat)
    requires cfg.inputPrice > 0 || cfg.outputPrice > 0
    ensures WorstBill(cfg, n, n) >= n
  {
  }

  /** Every completed request of every run with such usage costs at most its reservation. */
  ghost predicate ReservationsSuffice(cfg: Settings, prompt: nat, completion: nat) {
    forall run: Run, i: nat, k: nat ::
      IsRun(run, cfg) && RunTokensWithin(run, prompt, completion) && i < |run.worlds|
      && k < |run.worlds[i].tables.requests| && run.worlds[i].tables.requests[k].status == Completed ==>
        CostOf(run.worlds[i].tables.requests[k]) <= cfg.maxRequestCost
  }

  /** When calls use at most so many tokens, reservations cover all bills exactly when the dearest such call
      fits the reservation (or nothing is admitted): the operator's rule for choosing it. */
  lemma ReservationsSufficeExactly(cfg: Settings, prompt: nat, completion: nat)
    ensures ReservationsSuffice(cfg, prompt, completion)
       <==> !CanAdmit(cfg) || WorstBill(cfg, prompt, completion) <= cfg.maxRequestCost
  {
    hide IsRun, WorstBill;
    if !CanAdmit(cfg) {
      forall run: Run, i: nat, k: nat | IsRun(run, cfg) && i < |run.worlds| && k < |run.worlds[i].tables.requests|
        ensures run.worlds[i].tables.requests[k].status != Completed
      {
        RunStaysShut(run, cfg, i);
      }
    } else if WorstBill(cfg, prompt, completion) <= cfg.maxRequestCost {
      forall run: Run, i: nat, k: nat | IsRun(run, cfg) && RunTokensWithin(run, prompt, completion)
          && i < |run.worlds| && k < |run.worlds[i].tables.requests|
        ensures CostOf(run.worlds[i].tables.requests[k]) <= cfg.maxRequestCost
      {
        TokensBoundBills(run, cfg, prompt, completion);
        RunFits(run, cfg, i);
      }
    } else {
      var run := BillOne(cfg, prompt, completion);
      var i := |run.worlds| - 1;
      assert CostOf(run.worlds[i].tables.requests[0]) > cfg.maxRequestCost;
    }
  }

  lemma TokensBoundBills(run: Run, cfg: Settings, prompt: nat, completion: nat)
    requires RunTokensWithin(run, prompt, completion) && WorstBill(cfg, prompt, completion) <= cfg.maxRequestCost
    ensures AllBillsFit(run, cfg)
  {
    forall i | 0 <= i < |run.actions| ensures BillFits(cfg, run.actions[i]) {
      var a := run.actions[i];
      assert a in run.actions;
      if a.Complete? && Reported(a.res.usage) {
        var usage := a.res.usage.value;
        BillsGrow(cfg, usage.promptTokens.value, usage.completionTokens.value, prompt, completion);
      }
    }
  }

  lemma BillsGrow(cfg: Settings, p: nat, c: nat, prompt: nat, completion: nat)
    requires p <= prompt && c <= completion
    ensures WorstBill(cfg, p, c) <= WorstBill(cfg, prompt, completion)
  {
    assert p * cfg.inputPrice <= prompt * cfg.inputPrice;
    assert c * cfg.outputPrice <= completion * cfg.outputPrice;
  }

  /** With such usage and such a reservation the month's cost stays within the budget in every run. */
  lemma BoundedUsageKeepsBudget(run: Run, cfg: Settings, prompt: nat, completion: nat, i: nat)
    requires IsRun(run, cfg) && RunTokensWithin(run, prompt, completion) && i < |run.worlds|
    requires cfg.monthlyBudget > 0 && WorstBill(cfg, prompt, completion) <= cfg.maxRequestCost
    ensures MonthlyCost(run.worlds[i].tables.requests, run.worlds[i].tables.now.monthStart) <= cfg.monthlyBudget
  {
    TokensBoundBills(run, cfg, prompt, completion);
    FittingBillsKeepBudget(run, cfg, i);
  }
}
