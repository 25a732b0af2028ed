/** The transactions of the question lifecycle as functions on the tables. */
module Transitions {
  import opened Wrappers
  import opened Tables

  /** What the first transaction of `ask` tells its caller. */
  datatype Admission =
    | Refused(code: Code)
    | Replayed(answer: AnswerOut)
    | Denied(code: Code)
    | Admitted(request: nat)

  /** The outcome an earlier request with the same idempotency key dictates. */
  function Previous(s: State, r: nat, question: string): Admission
    requires r < |s.requests|
  {
    var row := s.requests[r];
    if row.question != question then Refused(IdempotencyConflict)
    else if row.status == Pending then Refused(GenerationPending)
    else if row.status == Completed && r in s.responses && s.responses[r].payload.Answered? then
      Replayed(s.responses[r].payload.answer)
    else Refused(if row.error.Some? then row.error.value else GenerationFailed)
  }

  /** One tick of a rate bucket: the insert-or-increment and the comparison with its limit. */
  function Hit(buckets: map<Bucket, nat>, b: Bucket): map<Bucket, nat> {
    buckets[b := if b in buckets then buckets[b] + 1 else 1]
  }

  predicate WithinLimit(buckets: map<Bucket, nat>, b: Bucket, limit: nat) {
    Hit(buckets, b)[b] <= limit
  }

  const CHECKS: nat := 6

  /** The denial chain, one condition per index. */
  function Check(s: State, cfg: Settings, c: nat, ip: string, t: Instant, n: nat): Option<Code>
    requires c in s.conversations && n < CHECKS
  {
    match n
    case 0 => if s.conversations[c].quotaUsed >= s.conversations[c].quotaLimit then Some(QuotaExhausted) else None
    case 1 => if HasPending(s.requests, c) then Some(GenerationPending) else None
    case 2 => if !WithinLimit(s.buckets, Bucket("rag", ip, t.hour), cfg.ipRate) then Some(IpRateLimited) else None
    case 3 => if MonthlyCount(s.requests, t.monthStart) >= cfg.monthlyRequests then Some(ModelBudgetExhausted) else None
    case 4 => if cfg.monthlyBudget > 0
                 && MonthlyCost(s.requests, t.monthStart) + cfg.maxRequestCost > cfg.monthlyBudget
              then Some(ModelBudgetExhausted) else None
    case _ => if TokenCount(s.requests, c, t.at - MINUTE) >= cfg.tokenRate then Some(RateLimited) else None
  }

  /** The first condition from `n` on that denies, and whether the rate bucket was touched on the way. */
  function Denial(s: State, cfg: Settings, c: nat, ip: string, t: Instant, n: nat): (Option<Code>, bool)
    requires c in s.conversations && n <= CHECKS
    decreases CHECKS - n
  {
    if n == CHECKS then (None, false)
    else
      var denied := Check(s, cfg, c, ip, t, n);
      if denied.Some? then (denied, n == 2)
      else
        var rest := Denial(s, cfg, c, ip, t, n + 1);
        (rest.0, n == 2 || rest.1)
  }

  /** The rows an admission decision leaves behind. */
  function Insert(s: State, cfg: Settings, c: nat, key: string, question: string, httpId: nat,
                  denial: Option<Code>, hit: Option<Bucket>, t: Instant): State
  {
    var id := |s.requests|;
    var row := Request(httpId, c, key, question, if denial.Some? then Rejected else Pending,
                       denial.None?, false, None, t.at, if denial.Some? then Some(t.at) else None, denial,
                       if denial.None? && cfg.monthlyBudget > 0 then Some(cfg.maxRequestCost) else None);
    var message := Message(c, id, User, question, if denial.Some? then Failed else Pending, t.at);
    s.(requests := s.requests + [row],
       messages := s.messages + [message],
       responses := if denial.Some?
                    then s.responses[id := Response(Refusal(denial.value), false, Rejected, t.at)]
                    else s.responses,
       buckets := if hit.Some? then Hit(s.buckets, hit.value) else s.buckets,
       now := t)
  }

  /** The first transaction of `ask`, run without interruption. */
  function Admit(s: State, cfg: Settings, c: nat, key: string, question: string, httpId: nat, ip: string, t: Instant)
    : (State, Admission)
  {
    if c !in s.conversations then (s.(now := t), Refused(ConversationMissing))
    else
      var previous := ByIdempotency(s.requests, c, key);
      if previous.Some? then (s.(now := t), Previous(s, previous.value, question))
      else
        var (denial, touched) := Denial(s, cfg, c, ip, t, 0);
        var s' := Insert(s, cfg, c, key, question, httpId, denial,
                         if touched then Some(Bucket("rag", ip, t.hour)) else None, t);
        (s', if denial.Some? then Denied(denial.value) else Admitted(|s.requests|))
  }

  /** What a finished generation costs. */
  function Billed(cfg: Settings, reservation: Money, model: Option<string>, usage: Option<Usage>): Money {
    if model.None? || model.value == "" then 0
    else if usage.Some? && usage.value.promptTokens.Some? && usage.value.completionTokens.Some? then
      usage.value.promptTokens.value * cfg.inputPrice + usage.value.completionTokens.value * cfg.outputPrice
    else reservation
  }

  datatype Result = Result(answer: string, grounded: bool, citations: seq<string>, model: Option<string>,
                           usage: Option<Usage>)

  predicate CanFinish(s: State, r: nat) {
    && r < |s.requests| && s.requests[r].status == Pending
    && s.requests[r].conversation in s.conversations
    && UserMessage(s.messages, r).Some?
  }

  function FinishedAnswer(s: State, r: nat, res: Result): AnswerOut
    requires CanFinish(s, r)
  {
    var row := s.requests[r];
    var c := s.conversations[row.conversation];
    AnswerOut(|s.messages|, row.conversation, res.answer, res.grounded, res.citations,
              QuotaOf(c.(quotaUsed := c.quotaUsed + 1)), row.httpId)
  }

  /** `_finish`: nothing happens unless the request is still pending. */
  function Finish(s: State, cfg: Settings, r: nat, res: Result, t: Instant): State {
    if !CanFinish(s, r) then s.(now := t)
    else
      var row := s.requests[r];
      var c := s.conversations[row.conversation];
      var u := UserMessage(s.messages, r).value;
      var answer := FinishedAnswer(s, r, res);
      s.(conversations := s.conversations[row.conversation :=
                            c.(quotaUsed := c.quotaUsed + 1, lastMessageAt := Some(t.at))],
         requests := s.requests[r := row.(status := Completed, charged := true, model := res.model,
                                          cost := Some(Billed(cfg, CostOf(row), res.model, res.usage)),
                                          endedAt := Some(t.at))],
         responses := s.responses[r := Response(Answered(answer), res.grounded, Completed, t.at)],
         messages := s.messages[u := s.messages[u].(status := Completed)]
                     + [Message(row.conversation, r, Assistant, res.answer, Completed, t.at)],
         now := t)
  }

  /** What `_fail` and the recovery job write into a request and its response. */
  function Settle(s: State, r: nat, code: Code, t: Instant): State
    requires r < |s.requests|
  {
    s.(requests := s.requests[r := s.requests[r].(status := Failed, error := Some(code), endedAt := Some(t.at))],
       responses := s.responses[r := Response(Refusal(code), false, Failed, t.at)],
       now := t)
  }

  function FailUserMessage(ms: seq<Message>, r: nat): seq<Message> {
    var u := UserMessage(ms, r);
    if u.None? then ms else ms[u.value := ms[u.value].(status := Failed)]
  }

  /** `UPDATE messages SET status = 'failed' WHERE request_id = r`. */
  function FailEveryMessage(ms: seq<Message>, r: nat): (result: seq<Message>)
    ensures |result| == |ms|
    ensures forall i :: 0 <= i < |ms| ==> result[i] == if ms[i].request == r then ms[i].(status := Failed) else ms[i]
  {
    seq(|ms|, i requires 0 <= i < |ms| => if ms[i].request == r then ms[i].(status := Failed) else ms[i])
  }

  /** `_fail`. */
  function Fail(s: State, r: nat, code: Code, t: Instant): State {
    if r < |s.requests| && s.requests[r].status == Pending then
      Settle(s, r, code, t).(messages := FailUserMessage(s.messages, r))
    else s.(now := t)
  }

  /** One row of the recovery job. */
  function RecoverRow(s: State, r: nat, t: Instant): State
    requires r < |s.requests|
  {
    Settle(s, r, WorkerLost, t).(messages := FailEveryMessage(s.messages, r))
  }

  function RecoverRows(s: State, rows: seq<nat>, t: Instant): (s': State)
    requires forall k :: 0 <= k < |rows| ==> rows[k] < |s.requests|
    ensures |s'.requests| == |s.requests|
  {
    if rows == [] then s.(now := t)
    else RecoverRow(RecoverRows(s, rows[..|rows| - 1], t), rows[|rows| - 1], t)
  }

  /** `recover_pending`. */
  function Recover(s: State, cutoff: int, held: set<nat>, t: Instant): State {
    RecoverRows(s, StaleRows(s.requests, cutoff, held), t)
  }
}
