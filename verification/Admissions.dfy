/** What the first transaction of `ask` decides and writes, said of the rows themselves. */
module Admissions {
  import opened Wrappers
  import opened Tables
  import opened Transitions

  // ----- the queries, as sets and sums of rows

  /** The requests that count against a month's budget. */
  ghost function Counted(rs: seq<Request>, since: nat): set<nat> {
    set i: nat | i < |rs| && rs[i].startedAt >= since && (rs[i].status == Pending || rs[i].status == Completed)
  }

  /** The requests of a conversation since some moment, whatever became of them. */
  ghost function Asked(rs: seq<Request>, c: nat, since: int): set<nat> {
    set i: nat | i < |rs| && rs[i].conversation == c && rs[i].startedAt >= since
  }

  function Sum(xs: seq<Money>): Money {
    if xs == [] then 0 else Sum(xs[..|xs| - 1]) + xs[|xs| - 1]
  }

  /** What each request costs the month: its reservation or its bill, and nothing if it does not count. */
  function Costs(rs: seq<Request>, since: nat): (xs: seq<Money>)
    ensures |xs| == |rs| && forall i :: 0 <= i < |rs| ==> xs[i] == CostsMonth(rs[i], since)
  {
    seq(|rs|, i requires 0 <= i < |rs| => CostsMonth(rs[i], since))
  }

  function CostsMonth(r: Request, since: nat): Money {
    if r.startedAt >= since && (r.status == Pending || r.status == Completed) && r.cost.Some? then r.cost.value else 0
  }

  lemma {:induction false} MonthlyCountIsSize(rs: seq<Request>, since: nat)
    ensures MonthlyCount(rs, since) == |Counted(rs, since)|
  {
    if rs != [] {
      var n := |rs| - 1;
      MonthlyCountIsSize(rs[..n], since);
      var before, after := Counted(rs[..n], since), Counted(rs, since);
      assert n !in before;
      if Billable(rs[n], since) { assert after == before + {n}; } else { assert after == before; }
    }
  }

  lemma {:induction false} TokenCountIsSize(rs: seq<Request>, c: nat, since: int)
    ensures TokenCount(rs, c, since) == |Asked(rs, c, since)|
  {
    if rs != [] {
      var n := |rs| - 1;
      TokenCountIsSize(rs[..n], c, since);
      var before, after := Asked(rs[..n], c, since), Asked(rs, c, since);
      assert n !in before;
      if rs[n].conversation == c && rs[n].startedAt >= since { assert after == before + {n}; }
      else { assert after == before; }
    }
  }

  lemma {:induction false} MonthlyCostIsSum(rs: seq<Request>, since: nat)
    ensures MonthlyCost(rs, since) == Sum(Costs(rs, since))
  {
    if rs != [] {
      var n := |rs| - 1;
      MonthlyCostIsSum(rs[..n], since);
      assert Costs(rs, since)[..n] == Costs(rs[..n], since);
    }
  }

  // ----- the grounds for a denial

  const GROUNDS: nat := 6

  /** The grounds in the order they are tried: no quota left, a question pending, the address has used up its
      hour, the month has its requests, the month's cost leaves no room for a reservation, the conversation
      has used up its minute. */
  ghost predicate Ground(s: State, cfg: Settings, c: nat, ip: string, t: Instant, n: nat)
    requires c in s.conversations && n < GROUNDS
  {
    match n
    case 0 => s.conversations[c].quotaUsed >= s.conversations[c].quotaLimit
    case 1 => exists i :: 0 <= i < |s.requests| && s.requests[i].conversation == c && s.requests[i].status == Pending
    case 2 => HitsSoFar(s.buckets, Bucket("rag", ip, t.hour)) >= cfg.ipRate
    case 3 => |Counted(s.requests, t.monthStart)| >= cfg.monthlyRequests
    case 4 => cfg.monthlyBudget > 0 && Sum(Costs(s.requests, t.monthStart)) + cfg.maxRequestCost > cfg.monthlyBudget
    case _ => |Asked(s.requests, c, t.at - 60_000_000)| >= cfg.tokenRate
  }

  function HitsSoFar(buckets: map<Bucket, nat>, b: Bucket): nat {
    if b in buckets then buckets[b] else 0
  }

  /** Ground `n` holds and none before it. */
  ghost predicate FirstGround(s: State, cfg: Settings, c: nat, ip: string, t: Instant, n: nat)
    requires c in s.conversations && n < GROUNDS
  {
    Ground(s, cfg, c, ip, t, n) && forall m :: 0 <= m < n ==> !Ground(s, cfg, c, ip, t, m)
  }

  ghost predicate NoGround(s: State, cfg: Settings, c: nat, ip: string, t: Instant)
    requires c in s.conversations
  {
    forall n :: 0 <= n < GROUNDS ==> !Ground(s, cfg, c, ip, t, n)
  }

  lemma CheckIsGround(s: State, cfg: Settings, c: nat, ip: string, t: Instant, n: nat)
    requires c in s.conversations && n < GROUNDS
    ensures Check(s, cfg, c, ip, t, n).Some? <==> Ground(s, cfg, c, ip, t, n)
    ensures Check(s, cfg, c, ip, t, n).Some? ==>
              Check(s, cfg, c, ip, t, n).value
              == [QuotaExhausted, GenerationPending, IpRateLimited,
                  ModelBudgetExhausted, ModelBudgetExhausted, RateLimited][n]
  {
    hide Counted, Asked, Sum, Costs, MonthlyCount, MonthlyCost, TokenCount;
    MonthlyCountIsSize(s.requests, t.monthStart);
    MonthlyCostIsSum(s.requests, t.monthStart);
    TokenCountIsSize(s.requests, c, t.at - MINUTE);
  }

  // ----- the whole transaction

  /** Row `i` is an earlier request with the same idempotency key. */
  predicate Earlier(s: State, c: nat, key: string, i: nat) {
    i < |s.requests| && s.requests[i].conversation == c && s.requests[i].key == key
  }

  ghost predicate OnlyEarlier(s: State, c: nat, key: string, i: nat) {
    Earlier(s, c, key, i) && forall j: nat :: Earlier(s, c, key, j) ==> j == i
  }

  ghost predicate Fresh(s: State, c: nat, key: string) {
    c in s.conversations && forall i :: 0 <= i < |s.requests| ==> !Earlier(s, c, key, i)
  }

  /** When a question is admitted, and which code it is denied with otherwise. */
  ghost predicate DecidedByRows(s: State, cfg: Settings, c: nat, ip: string, t: Instant, out: Admission)
    requires c in s.conversations
  {
    && (out == Admitted(|s.requests|) <==> NoGround(s, cfg, c, ip, t))
    && (out.Admitted? || out.Denied?) && (out.Admitted? ==> out.request == |s.requests|)
    && (out == Denied(QuotaExhausted) <==> FirstGround(s, cfg, c, ip, t, 0))
    && (out == Denied(GenerationPending) <==> FirstGround(s, cfg, c, ip, t, 1))
    && (out == Denied(IpRateLimited) <==> FirstGround(s, cfg, c, ip, t, 2))
    && (out == Denied(ModelBudgetExhausted) <==> FirstGround(s, cfg, c, ip, t, 3) || FirstGround(s, cfg, c, ip, t, 4))
    && (out == Denied(RateLimited) <==> FirstGround(s, cfg, c, ip, t, 5))
  }

  predicate HasAnswer(s: State, i: nat) { i in s.responses && s.responses[i].payload.Answered? }

  /** What a retry is told by the one row with its key. */
  ghost predicate ToldByRow(s: State, i: nat, question: string, out: Admission)
    requires i < |s.requests|
  {
    var row := s.requests[i];
    && (row.question != question ==> out == Refused(IdempotencyConflict))
    && (row.question == question && row.status == Pending ==> out == Refused(GenerationPending))
    && (row.question == question && row.status == Completed && HasAnswer(s, i) ==>
          out == Replayed(s.responses[i].payload.answer))
    && (row.question == question && (row.status == Failed || row.status == Rejected) && row.error.Some? ==>
          out == Refused(row.error.value))
  }

  /** With a money budget an admitted request reserves the most it may cost. */
  function Reserved(cfg: Settings): Option<Money> {
    if cfg.monthlyBudget > 0 then Some(cfg.maxRequestCost) else None
  }

  /** The rows a fresh question leaves: its request, its message, the refusal if it is denied, and one more
      hit of its address if the limit was looked at. Nothing else changes. */
  ghost predicate RowsWritten(s: State, s': State, cfg: Settings, c: nat, key: string, question: string, httpId: nat,
                              ip: string, t: Instant, out: Admission)
    requires c in s.conversations
  {
    var id, b := |s.requests|, Bucket("rag", ip, t.hour);
    && s'.conversations == s.conversations && s'.now == t
    && (out.Admitted? ==>
          && s'.requests == s.requests + [Request(httpId, c, key, question, Pending, true, false, None, t.at, None,
                                                  None, Reserved(cfg))]
          && s'.messages == s.messages + [Message(c, id, User, question, Pending, t.at)]
          && s'.responses == s.responses)
    && (out.Denied? ==>
          && s'.requests == s.requests + [Request(httpId, c, key, question, Rejected, false, false, None, t.at,
                                                  Some(t.at), Some(out.code), None)]
          && s'.messages == s.messages + [Message(c, id, User, question, Failed, t.at)]
          && s'.responses == s.responses[id := Response(Refusal(out.code), false, Rejected, t.at)])
    && (if Ground(s, cfg, c, ip, t, 0) || Ground(s, cfg, c, ip, t, 1) then s'.buckets == s.buckets
        else s'.buckets == s.buckets[b := HitsSoFar(s.buckets, b) + 1])
  }

  /** The rule of the first transaction, from the rows before to the rows after and the outcome. */
  ghost predicate AdmissionRule(s: State, s': State, cfg: Settings, c: nat, key: string, question: string, httpId: nat,
                                ip: string, t: Instant, out: Admission)
  {
    && (c !in s.conversations ==> out == Refused(ConversationMissing))
    && (!Fresh(s, c, key) ==> s' == s.(now := t) && !out.Admitted? && !out.Denied?)
    && (forall i: nat :: c in s.conversations && OnlyEarlier(s, c, key, i) ==> ToldByRow(s, i, question, out))
    && (Fresh(s, c, key) ==>
          DecidedByRows(s, cfg, c, ip, t, out) && RowsWritten(s, s', cfg, c, key, question, httpId, ip, t, out))
  }

  /** The first ground decides. */
  lemma {:induction false} DenialIsFirstGround(s: State, cfg: Settings, c: nat, ip: string, t: Instant, n: nat)
    requires c in s.conversations && n <= GROUNDS
    requires forall m :: 0 <= m < n ==> !Ground(s, cfg, c, ip, t, m)
    ensures var (denial, touched) := Denial(s, cfg, c, ip, t, n);
            && (denial.None? <==> NoGround(s, cfg, c, ip, t))
            && (denial.Some? ==> exists k: nat :: n <= k < GROUNDS && FirstGround(s, cfg, c, ip, t, k)
                                   && denial == Check(s, cfg, c, ip, t, k) && (touched <==> n <= 2 <= k))
            && (denial.None? ==> (touched <==> n <= 2))
    decreases GROUNDS - n
  {
    hide Check, Ground;
    if n < GROUNDS {
      CheckIsGround(s, cfg, c, ip, t, n);
      if Check(s, cfg, c, ip, t, n).Some? {
        assert FirstGround(s, cfg, c, ip, t, n);
      } else {
        DenialIsFirstGround(s, cfg, c, ip, t, n + 1);
      }
    }
  }

  lemma DenialIsDecided(s: State, cfg: Settings, c: nat, ip: string, t: Instant)
    requires c in s.conversations
    ensures var (denial, touched) := Denial(s, cfg, c, ip, t, 0);
            && DecidedByRows(s, cfg, c, ip, t, if denial.Some? then Denied(denial.value) else Admitted(|s.requests|))
            && (touched <==> !Ground(s, cfg, c, ip, t, 0) && !Ground(s, cfg, c, ip, t, 1))
  {
    hide Check, Ground, Denial;
    DenialIsFirstGround(s, cfg, c, ip, t, 0);
    var denial := Denial(s, cfg, c, ip, t, 0).0;
    if denial.Some? {
      var k: nat :| k < GROUNDS && FirstGround(s, cfg, c, ip, t, k) && denial == Check(s, cfg, c, ip, t, k)
                    && (Denial(s, cfg, c, ip, t, 0).1 <==> 2 <= k);
      CheckIsGround(s, cfg, c, ip, t, k);
      OneFirstGround(s, cfg, c, ip, t, k);
    }
  }

  lemma OneFirstGround(s: State, cfg: Settings, c: nat, ip: string, t: Instant, k: nat)
    requires c in s.conversations && k < GROUNDS && FirstGround(s, cfg, c, ip, t, k)
    ensures forall m: nat :: m < GROUNDS && FirstGround(s, cfg, c, ip, t, m) ==> m == k
    ensures k < 2 <==> Ground(s, cfg, c, ip, t, 0) || Ground(s, cfg, c, ip, t, 1)
  {
    hide Ground;
    assert forall m: nat :: m < GROUNDS && FirstGround(s, cfg, c, ip, t, m) ==> Ground(s, cfg, c, ip, t, m);
  }

  /** The transaction as specified follows the rule. */
  lemma AdmitFollowsRule(s: State, cfg: Settings, c: nat, key: string, question: string, httpId: nat, ip: string,
                         t: Instant)
    ensures var (s', out) := Admit(s, cfg, c, key, question, httpId, ip, t);
            AdmissionRule(s, s', cfg, c, key, question, httpId, ip, t, out)
  {
    hide Ground, Denial, DecidedByRows;
    var previous := ByIdempotency(s.requests, c, key);
    if c in s.conversations && previous.Some? { assert Earlier(s, c, key, previous.value); }
    if c in s.conversations && previous.None? {
      assert Fresh(s, c, key);
      DenialIsDecided(s, cfg, c, ip, t);
    }
  }

  // ----- what does not matter

  /** A request that is over and belongs to an earlier month and an earlier minute. */
  predicate Past(r: Request, t: Instant) {
    r.status != Pending && r.startedAt < t.monthStart && r.startedAt < t.at - 60_000_000
  }

  lemma {:induction false} TotalSkips(past: seq<Request>, rs: seq<Request>, w: Request -> int)
    requires forall i :: 0 <= i < |past| ==> w(past[i]) == 0
    ensures Total(past + rs, w) == Total(rs, w)
  {
    if rs == [] {
      assert past + rs == past && past[..0] == [];
      TotalPrefix(past, 0, w);
    } else {
      assert (past + rs)[..|past + rs| - 1] == past + rs[..|rs| - 1];
      TotalSkips(past, rs[..|rs| - 1], w);
    }
  }

  /** Requests that are past decide nothing: with any such rows in front, or none, every ground is the same. */
  lemma PastDecidesNothing(s: State, past: seq<Request>, cfg: Settings, c: nat, ip: string, t: Instant, n: nat)
    requires c in s.conversations && n < GROUNDS && forall i :: 0 <= i < |past| ==> Past(past[i], t)
    ensures Ground(s.(requests := past + s.requests), cfg, c, ip, t, n) <==> Ground(s, cfg, c, ip, t, n)
  {
    var s' := s.(requests := past + s.requests);
    hide Ground, Total;
    CheckIsGround(s, cfg, c, ip, t, n);
    CheckIsGround(s', cfg, c, ip, t, n);
    TotalSkips(past, s.requests, InMonth(t.monthStart));
    TotalSkips(past, s.requests, CostInMonth(t.monthStart));
    TotalSkips(past, s.requests, InWindow(c, t.at - MINUTE));
    PastNotPending(past, s.requests, c, t);
  }

  lemma PastNotPending(past: seq<Request>, rs: seq<Request>, c: nat, t: Instant)
    requires forall i :: 0 <= i < |past| ==> Past(past[i], t)
    ensures HasPending(past + rs, c) <==> HasPending(rs, c)
  {
    if HasPending(rs, c) {
      var i :| 0 <= i < |rs| && rs[i].conversation == c && rs[i].status == Pending;
      assert (past + rs)[|past| + i] == rs[i];
    }
  }
}
