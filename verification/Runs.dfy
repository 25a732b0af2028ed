/** Whole runs of the lifecycle: arbitrary interleavings from empty tables. */
module Runs {
  import opened Wrappers
  import opened Tables
  import opened Transitions
  import opened Threads
  import opened Invariants
  import opened Evolution
  import opened Protocol

  datatype Run = Run(worlds: seq<World>, actions: seq<Action>, times: seq<Instant>)

  predicate Starts(w: World) {
    w.tables.now.monthStart <= w.tables.now.at
    && w == World(State(map[], [], map[], [], map[], w.tables.now), map[])
  }

  ghost predicate StepOf(run: Run, cfg: Settings, i: nat)
    requires i < |run.actions| && i < |run.times| && i + 1 < |run.worlds|
  {
    && Enabled(run.worlds[i], run.actions[i])
    && Later(run.worlds[i].tables.now, run.times[i])
    && run.worlds[i + 1] == Next(run.worlds[i], cfg, run.actions[i], run.times[i])
  }

  ghost predicate IsRun(run: Run, cfg: Settings) {
    && |run.worlds| == |run.actions| + 1 == |run.times| + 1
    && Starts(run.worlds[0])
    && forall i: nat :: i < |run.actions| ==> StepOf(run, cfg, i)
  }

  /** Every state of every run satisfies the invariant. */
  lemma {:induction false} RunIsSafe(run: Run, cfg: Settings, i: nat)
    requires IsRun(run, cfg) && i < |run.worlds|
    ensures WorldOk(run.worlds[i], cfg)
  {
    if i > 0 {
      RunIsSafe(run, cfg, i - 1);
      assert StepOf(run, cfg, i - 1);
      hide WorldOk, Next;
      StepKeeps(run.worlds[i - 1], cfg, run.actions[i - 1], run.times[i - 1]);
    }
  }

  /** Along a run nothing final is ever taken back. */
  lemma {:induction false} RunExtends(run: Run, cfg: Settings, i: nat, j: nat)
    requires IsRun(run, cfg) && i <= j < |run.worlds|
    ensures Extends(run.worlds[i].tables, run.worlds[j].tables)
    decreases j - i
  {
    if i == j {
      TickExtends(run.worlds[i].tables, run.worlds[i].tables.now);
    } else {
      RunExtends(run, cfg, i, j - 1);
      RunIsSafe(run, cfg, j - 1);
      assert StepOf(run, cfg, j - 1);
      hide WorldOk, Next, Extends;
      StepExtends(run.worlds[j - 1], cfg, run.actions[j - 1], run.times[j - 1]);
      ExtendsTransitive(run.worlds[i].tables, run.worlds[j - 1].tables, run.worlds[j].tables);
    }
  }

  // ----- stretches of runs

  /** Steps of any sessions from a state in which the invariant holds. */
  ghost predicate IsStretch(run: Run, cfg: Settings) {
    && |run.worlds| == |run.actions| + 1 == |run.times| + 1
    && WorldOk(run.worlds[0], cfg)
    && forall i: nat :: i < |run.actions| ==> StepOf(run, cfg, i)
  }

  lemma {:induction false} StretchIsSafe(run: Run, cfg: Settings, n: nat)
    requires IsStretch(run, cfg) && n < |run.worlds|
    ensures WorldOk(run.worlds[n], cfg) && Extends(run.worlds[0].tables, run.worlds[n].tables)
  {
    hide WorldOk, Next, Enabled, Extends;
    if n == 0 {
      TickExtends(run.worlds[0].tables, run.worlds[0].tables.now);
    } else {
      StretchIsSafe(run, cfg, n - 1);
      assert StepOf(run, cfg, n - 1);
      StepKeeps(run.worlds[n - 1], cfg, run.actions[n - 1], run.times[n - 1]);
      StepExtends(run.worlds[n - 1], cfg, run.actions[n - 1], run.times[n - 1]);
      ExtendsTransitive(run.worlds[0].tables, run.worlds[n - 1].tables, run.worlds[n].tables);
    }
  }

  /** The tables may get from `s` to `s'` by steps of other sessions. */
  ghost predicate Reaches(cfg: Settings, s: State, s': State) {
    exists run :: IsStretch(run, cfg) && run.worlds[0].tables == s && run.worlds[|run.actions|].tables == s'
  }

  lemma ReachedIsSafe(cfg: Settings, s: State, s': State)
    requires Reaches(cfg, s, s')
    ensures Inv(s', cfg) && Extends(s, s')
  {
    var run :| IsStretch(run, cfg) && run.worlds[0].tables == s && run.worlds[|run.actions|].tables == s';
    hide Extends;
    StretchIsSafe(run, cfg, |run.actions|);
  }

  // ----- the race to close a request

  /** Step `i` takes request `r` out of pending. */
  predicate Settles(run: Run, r: nat, i: nat)
    requires i + 1 < |run.worlds|
  {
    && r < |run.worlds[i].tables.requests| && r < |run.worlds[i + 1].tables.requests|
    && run.worlds[i].tables.requests[r].status == Pending
    && run.worlds[i + 1].tables.requests[r].status != Pending
  }

  function Wins(run: Run, r: nat, n: nat): nat
    requires n < |run.worlds|
  {
    if n == 0 then 0 else Wins(run, r, n - 1) + if Settles(run, r, n - 1) then 1 else 0
  }

  /** A row enters the table pending, or rejected with its denial. */
  lemma NewRows(w: World, cfg: Settings, a: Action, t: Instant, r: nat)
    requires WorldOk(w, cfg) && Enabled(w, a)
    requires |w.tables.requests| <= r < |Next(w, cfg, a, t).tables.requests|
    ensures Next(w, cfg, a, t).tables.requests[r].status in {Pending, Rejected}
  {
  }

  /** What a step of a run can do to row `r`. */
  lemma RowOverStep(run: Run, cfg: Settings, r: nat, i: nat)
    requires IsRun(run, cfg) && i + 1 < |run.worlds|
    ensures var before, after := run.worlds[i].tables.requests, run.worlds[i + 1].tables.requests;
            && |before| <= |after|
            && (r < |before| ==> RowStep(before[r], after[r]))
            && (|before| <= r < |after| ==> after[r].status in {Pending, Rejected})
  {
    hide WorldOk, Next, Enabled;
    RunIsSafe(run, cfg, i);
    RunExtends(run, cfg, i, i + 1);
    assert StepOf(run, cfg, i);
    hide IsRun;
    var before, after := run.worlds[i].tables.requests, run.worlds[i + 1].tables.requests;
    if |before| <= r < |after| { NewRows(run.worlds[i], cfg, run.actions[i], run.times[i], r); }
  }

  /** However finishing, failing and recovering race, a request is closed exactly once. */
  lemma {:induction false} ExactlyOneWinner(run: Run, cfg: Settings, r: nat, n: nat)
    requires IsRun(run, cfg) && n < |run.worlds|
    ensures var rs := run.worlds[n].tables.requests;
            Wins(run, r, n) == if r < |rs| && (rs[r].status == Completed || rs[r].status == Failed) then 1 else 0
  {
    if n > 0 {
      hide IsRun;
      ExactlyOneWinner(run, cfg, r, n - 1);
      RowOverStep(run, cfg, r, n - 1);
    }
  }

  lemma {:induction false} RecoveredRows(s: State, rows: seq<nat>, t: Instant, r: nat)
    requires forall k :: 0 <= k < |rows| ==> rows[k] < |s.requests|
    requires r < |s.requests|
    ensures var s' := RecoverRows(s, rows, t);
            && (r in rows ==>
                  && s'.requests[r].status == Failed && s'.requests[r].error == Some(WorkerLost)
                  && s'.requests[r].charged == s.requests[r].charged
                  && r in s'.responses && s'.responses[r].payload == Refusal(WorkerLost))
            && (r !in rows ==> s'.requests[r] == s.requests[r] && (r in s'.responses <==> r in s.responses))
  {
    if rows != [] {
      assert rows == rows[..|rows| - 1] + [rows[|rows| - 1]];
      RecoveredRows(s, rows[..|rows| - 1], t, r);
    }
  }

  /** Closed as failed: not charged, and the stored response is the refusal with the same code. */
  predicate ClosedFailed(s: State, r: nat, code: Code) {
    && r < |s.requests| && r in s.responses
    && s.requests[r].status == Failed && s.requests[r].error == Some(code) && !s.requests[r].charged
    && s.responses[r].payload == Refusal(code)
  }

  /** Closed with an answer: charged, and the stored response is that answer. */
  predicate ClosedAnswered(s: State, r: nat, answer: AnswerOut) {
    && r < |s.requests| && r in s.responses
    && s.requests[r].status == Completed && s.requests[r].charged
    && s.responses[r].payload == Answered(answer)
  }

  /** Row `r` is as it was, with no response yet. */
  predicate Untouched(s: State, s': State, r: nat)
    requires r < |s.requests|
  {
    r < |s'.requests| && s'.requests[r] == s.requests[r] && r !in s'.responses
  }

  lemma FinishDecides(s: State, cfg: Settings, q: nat, res: Result, t: Instant, r: nat)
    requires Inv(s, cfg) && r < |s.requests| && s.requests[r].status == Pending
    ensures var s' := Finish(s, cfg, q, res, t);
            if q == r then CanFinish(s, r) && ClosedAnswered(s', r, FinishedAnswer(s, r, res)) else Untouched(s, s', r)
  {
    hide Billed;
    PendingOwnsThread(s, cfg, r);
    assert RowOk(s, cfg, r);
  }

  lemma FailDecides(s: State, cfg: Settings, q: nat, code: Code, t: Instant, r: nat)
    requires Inv(s, cfg) && r < |s.requests| && s.requests[r].status == Pending
    ensures var s' := Fail(s, q, code, t);
            if q == r then ClosedFailed(s', r, code) else Untouched(s, s', r)
  {
    hide MessagesOk, ThreadsOk, BudgetOk, RateOk, FailUserMessage;
    assert RowOk(s, cfg, r);
  }

  lemma RecoveryDecides(s: State, cfg: Settings, cutoff: int, held: set<nat>, t: Instant, r: nat)
    requires Inv(s, cfg) && r < |s.requests| && s.requests[r].status == Pending
    ensures var s' := Recover(s, cutoff, held, t);
            if s.requests[r].startedAt < cutoff && r !in held then ClosedFailed(s', r, WorkerLost)
            else Untouched(s, s', r)
  {
    hide MessagesOk, ThreadsOk, BudgetOk, RateOk, RecoverRows;
    var rows := StaleRows(s.requests, cutoff, held);
    RecoveredRows(s, rows, t, r);
    assert r in rows <==> Stale(s.requests, cutoff, held, r);
    assert RowOk(s, cfg, r);
  }

  /** Steps of an admission, and new conversations, leave earlier rows alone. */
  lemma OthersDecideNothing(w: World, cfg: Settings, a: Action, t: Instant, r: nat)
    requires Inv(w.tables, cfg) && Enabled(w, a) && !a.Complete? && !a.Break? && !a.Sweep?
    requires r < |w.tables.requests| && w.tables.requests[r].status == Pending
    ensures Untouched(w.tables, Next(w, cfg, a, t).tables, r)
  {
    hide MessagesOk, ThreadsOk, BudgetOk, RateOk, Learn;
    assert RowOk(w.tables, cfg, r);
  }

  /** The step that closes a request decides its outcome: the others leave no trace. */
  lemma WinnerDecides(w: World, cfg: Settings, a: Action, t: Instant, r: nat)
    requires WorldOk(w, cfg) && Enabled(w, a) && Later(w.tables.now, t)
    requires r < |w.tables.requests| && w.tables.requests[r].status == Pending
    ensures var s, s' := w.tables, Next(w, cfg, a, t).tables;
            if a.Complete? && a.r == r then CanFinish(s, r) && ClosedAnswered(s', r, FinishedAnswer(s, r, a.res))
            else if a.Break? && a.r == r then ClosedFailed(s', r, a.code)
            else if a.Sweep? && s.requests[r].startedAt < a.cutoff && r !in a.held then ClosedFailed(s', r, WorkerLost)
            else Untouched(s, s', r)
  {
    hide Inv, Finish, Fail, Recover, FinishedAnswer, CanFinish;
    match a {
      case Complete(q, res) => FinishDecides(w.tables, cfg, q, res, t, r);
      case Break(q, code) => FailDecides(w.tables, cfg, q, code, t, r);
      case Sweep(cutoff, held) => RecoveryDecides(w.tables, cfg, cutoff, held, t, r);
      case _ =>
        hide Next;
        OthersDecideNothing(w, cfg, a, t, r);
    }
  }

  // ----- idempotency over a run

  /** Every retry of a key after its first attempt is over, at any later point of the run, is told the
      same; and there is one row, hence one generation and at most one charge, for the key. */
  lemma RetryIsStable(run: Run, cfg: Settings, r: nat, i: nat, j: nat, question: string)
    requires IsRun(run, cfg) && i <= j < |run.worlds|
    requires r < |run.worlds[i].tables.requests| && run.worlds[i].tables.requests[r].status != Pending
    ensures var s, s' := run.worlds[i].tables, run.worlds[j].tables;
            var row := s.requests[r];
            && Lookup(s', row.conversation, row.key, question) == Lookup(s, row.conversation, row.key, question)
            && (question != row.question ==>
                  Lookup(s, row.conversation, row.key, question) == Option.Some(Refused(IdempotencyConflict)))
            && (forall k | 0 <= k < |s'.requests| :: k != r ==>
                  s'.requests[k].conversation != row.conversation || s'.requests[k].key != row.key)
  {
    RunIsSafe(run, cfg, i);
    RunIsSafe(run, cfg, j);
    RunExtends(run, cfg, i, j);
    var s, s' := run.worlds[i].tables, run.worlds[j].tables;
    assert RowStep(s.requests[r], s'.requests[r]);
    OutcomeIsFinal(s, s', cfg, r, question);
  }

  /** A finished answer is what every later retry of the run receives. */
  lemma AnswerIsReplayedForever(run: Run, cfg: Settings, i: nat, j: nat)
    requires IsRun(run, cfg) && i < j < |run.worlds|
    requires run.actions[i].Complete? && run.actions[i].r < |run.worlds[i].tables.requests|
    requires run.worlds[i].tables.requests[run.actions[i].r].status == Pending
    ensures var s, r := run.worlds[i].tables, run.actions[i].r;
            var row := s.requests[r];
            && CanFinish(s, r)
            && Lookup(run.worlds[j].tables, row.conversation, row.key, row.question)
               == Option.Some(Replayed(FinishedAnswer(s, r, run.actions[i].res)))
  {
    var s, r := run.worlds[i].tables, run.actions[i].r;
    RunIsSafe(run, cfg, i);
    RunIsSafe(run, cfg, j);
    RunExtends(run, cfg, i + 1, j);
    assert StepOf(run, cfg, i);
    PendingOwnsThread(s, cfg, r);
    FinishedIsReplayed(s, run.worlds[j].tables, cfg, r, run.actions[i].res, run.times[i]);
  }

  // ----- the caps

  function OverrunInMonth(since: nat, cap: Money): Request -> int {
    (r: Request) => if Billable(r, since) && CostOf(r) > cap then CostOf(r) - cap else 0
  }

  lemma {:induction false} CostSplits(rs: seq<Request>, since: nat, cap: Money)
    ensures MonthlyCost(rs, since)
         == Total(rs, CappedInMonth(since, cap)) + Total(rs, OverrunInMonth(since, cap))
  {
    if rs != [] { CostSplits(rs[..|rs| - 1], since, cap); }
  }

  /** In every reachable state the month's reserved and billed cost exceeds the budget by at most what
      individual bills of the month ran over their reservations; with bills of this month that fit it never
      exceeds it. The request count is capped whether or not there is a money budget. */
  lemma SpendCap(run: Run, cfg: Settings, i: nat)
    requires IsRun(run, cfg) && i < |run.worlds|
    ensures var s := run.worlds[i].tables;
            var since := s.now.monthStart;
            && MonthlyCount(s.requests, since) <= cfg.monthlyRequests
            && (cfg.monthlyBudget > 0 ==>
                  MonthlyCost(s.requests, since)
                  <= cfg.monthlyBudget + Total(s.requests, OverrunInMonth(since, cfg.maxRequestCost)))
            && (cfg.monthlyBudget > 0 && BillsFit(s.requests, since, cfg.maxRequestCost) ==>
                  MonthlyCost(s.requests, since) <= cfg.monthlyBudget)
  {
    RunIsSafe(run, cfg, i);
    var s := run.worlds[i].tables;
    CostSplits(s.requests, s.now.monthStart, cfg.maxRequestCost);
    if BillsFit(s.requests, s.now.monthStart, cfg.maxRequestCost) {
      TotalPrefix(s.requests, 0, OverrunInMonth(s.now.monthStart, cfg.maxRequestCost));
    }
  }

  /** No request that counts in the month costs more than its reservation. */
  predicate BillsFit(rs: seq<Request>, since: nat, cap: Money) {
    forall k :: 0 <= k < |rs| && Billable(rs[k], since) ==> CostOf(rs[k]) <= cap
  }

  function AcceptedIn(c: nat, from: int): Request -> int {
    (r: Request) => if r.conversation == c && r.accepted && from <= r.startedAt <= from + MINUTE then 1 else 0
  }

  /** Any window of one minute, wherever it starts, holds at most `tokenRate` accepted questions. */
  lemma {:induction false} MinuteWindow(s: State, cfg: Settings, c: nat, from: int, n: nat)
    requires Inv(s, cfg) && n <= |s.requests|
    ensures Total(s.requests[..n], AcceptedIn(c, from)) <= cfg.tokenRate
  {
    if n > 0 {
      var rs, r := s.requests[..n], s.requests[n - 1];
      assert rs[..n - 1] == s.requests[..n - 1];
      if AcceptedIn(c, from)(r) == 1 {
        assert s.requests[..n - 1 + 1] == rs;
        forall k | 0 <= k < n ensures rs[k].startedAt <= r.startedAt {
          assert k < n - 1 ==> s.requests[k].startedAt < s.requests[n - 1].startedAt;
        }
        TotalMonotone(rs, AcceptedIn(c, from), InWindow(c, r.startedAt - MINUTE));
      } else {
        MinuteWindow(s, cfg, c, from, n - 1);
      }
    } else {
      assert s.requests[..n] == [];
    }
  }

  lemma RunRateLimit(run: Run, cfg: Settings, i: nat, c: nat, from: int)
    requires IsRun(run, cfg) && i < |run.worlds|
    ensures Total(run.worlds[i].tables.requests, AcceptedIn(c, from)) <= cfg.tokenRate
  {
    RunIsSafe(run, cfg, i);
    var s := run.worlds[i].tables;
    assert s.requests[..|s.requests|] == s.requests;
    MinuteWindow(s, cfg, c, from, |s.requests|);
  }

  // ----- quota

  function CompletedOf(ms: seq<Message>, c: nat): seq<Message> {
    if ms == [] then []
    else
      var last := |ms| - 1;
      CompletedOf(ms[..last], c)
      + if ms[last].conversation == c && ms[last].status == Completed then [ms[last]] else []
  }

  lemma {:induction false} CompletedIsFilteredThread(ms: seq<Message>, c: nat)
    ensures CompletedOf(ms, c) == CompletedOf(Thread(ms, c), c)
  {
    if ms != [] {
      var last := |ms| - 1;
      CompletedIsFilteredThread(ms[..last], c);
      var front := Thread(ms[..last], c);
      assert (front + [ms[last]])[..|front|] == front;
    }
  }

  lemma {:induction false} CompletedPrefix(t: seq<Message>, c: nat, n: nat)
    requires n <= |t| && forall k :: 0 <= k < |t| ==> t[k].conversation == c && (t[k].status == Completed <==> k < n)
    ensures CompletedOf(t, c) == t[..n]
  {
    if t != [] {
      var last := |t| - 1;
      if n > last {
        CompletedPrefix(t[..last], c, last);
        assert t[..last][..last] == t[..last] && t[..n] == t[..last] + [t[last]];
      } else {
        CompletedPrefix(t[..last], c, n);
        assert t[..last][..n] == t[..n];
      }
    }
  }

  /** The completed messages of a conversation are its finished exchanges. */
  lemma CompletedIsHistory(s: State, cfg: Settings, c: nat)
    requires Inv(s, cfg) && c in s.conversations
    ensures CompletedOf(s.messages, c) == History(s, c)
    ensures |History(s, c)| == 2 * s.conversations[c].quotaUsed
  {
    assert ThreadOk(s, c);
    var t := Thread(s.messages, c);
    ThreadElements(s.messages, c);
    assert forall k :: 0 <= k < |t| ==> t[k] in t;
    CompletedIsFilteredThread(s.messages, c);
    CompletedPrefix(t, c, 2 * s.conversations[c].quotaUsed);
  }

  predicate PendingIn(s: State, c: nat, r: nat) {
    r < |s.requests| && s.requests[r].conversation == c && s.requests[r].status == Pending
  }

  /** In every reachable state: at most one pending request per conversation, used plus pending within the
      limit, used equal to the charged requests, two completed messages per unit of quota, and the k-th
      answer reporting quota k. */
  lemma QuotaAccounting(run: Run, cfg: Settings, i: nat, c: nat)
    requires IsRun(run, cfg) && i < |run.worlds| && c in run.worlds[i].tables.conversations
    ensures var s := run.worlds[i].tables;
            var used := s.conversations[c].quotaUsed;
            var done := CompletedOf(s.messages, c);
            && used + (if HasPending(s.requests, c) then 1 else 0) <= s.conversations[c].quotaLimit
            && Total(s.requests, Charged(c)) == used
            && |done| == 2 * used
            && (forall k :: 0 <= k < used ==> AnswerStored(s, c, done, k))
            && (forall a, b | 0 <= a < b < |s.requests| ::
                  !(PendingIn(s, c, a) && PendingIn(s, c, b)))
  {
    RunIsSafe(run, cfg, i);
    var s := run.worlds[i].tables;
    assert ThreadOk(s, c);
    CompletedIsHistory(s, cfg, c);
    OpenExactlyWhenPending(s, cfg, c);
    forall a: nat, b: nat | a < b < |s.requests|
      ensures !(PendingIn(s, c, a) && PendingIn(s, c, b))
    {
      if PendingIn(s, c, a) && PendingIn(s, c, b) { OnePending(s, cfg, a, b); }
    }
    var t, done, used := Thread(s.messages, c), CompletedOf(s.messages, c), s.conversations[c].quotaUsed;
    forall k | 0 <= k < used ensures AnswerStored(s, c, done, k) {
      assert AnswerStored(s, c, t, k) && done[2 * k + 1] == t[2 * k + 1];
    }
  }
}
