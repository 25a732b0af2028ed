/** What the closing transactions write, said of the rows themselves. */
module Closings {
  import opened Wrappers
  import opened Tables
  import opened Transitions

  // ----- finishing

  /** The request is pending, and its conversation and its question are there. */
  ghost predicate Closable(s: State, r: nat) {
    && r < |s.requests| && s.requests[r].status == Pending && s.requests[r].conversation in s.conversations
    && exists u :: 0 <= u < |s.messages| && s.messages[u].request == r && s.messages[u].role == User
  }

  predicate ModelNamed(res: Result) { res.model.Some? && res.model.value != "" }

  predicate UsageComplete(res: Result) {
    res.usage.Some? && res.usage.value.promptTokens.Some? && res.usage.value.completionTokens.Some?
  }

  /** What a closed request costs: nothing if no model answered; the tokens at their prices if all are
      reported; its reservation, unchanged, if they are not. */
  predicate BilledByUsage(cfg: Settings, before: Option<Money>, after: Option<Money>, res: Result) {
    && (!ModelNamed(res) ==> after == Some(0))
    && (ModelNamed(res) && UsageComplete(res) ==>
          after == Some(res.usage.value.promptTokens.value * cfg.inputPrice
                        + res.usage.value.completionTokens.value * cfg.outputPrice))
    && (ModelNamed(res) && !UsageComplete(res) && before.Some? ==> after == before)
    && (ModelNamed(res) && !UsageComplete(res) && before.None? ==> after == Some(0))
  }

  /** The stored and returned answer: the next message, with the quota as it is after the charge. */
  function AnswerFor(s: State, r: nat, res: Result): AnswerOut
    requires r < |s.requests| && s.requests[r].conversation in s.conversations
  {
    var row := s.requests[r];
    var c := s.conversations[row.conversation];
    AnswerOut(|s.messages|, row.conversation, res.answer, res.grounded, res.citations,
              Quota(c.quotaLimit, c.quotaUsed + 1, c.quotaLimit - c.quotaUsed - 1), row.httpId)
  }

  ghost predicate FinishRule(s: State, s': State, cfg: Settings, r: nat, res: Result, t: Instant) {
    if !Closable(s, r) then s' == s.(now := t)
    else
      var row := s.requests[r];
      var c := s.conversations[row.conversation];
      && s'.now == t && s'.buckets == s.buckets
      && |s'.requests| == |s.requests|
      && s'.requests == s.requests[r := row.(status := Completed, charged := true, model := res.model,
                                             cost := s'.requests[r].cost, endedAt := Some(t.at))]
      && BilledByUsage(cfg, row.cost, s'.requests[r].cost, res)
      && s'.conversations
         == s.conversations[row.conversation := Conversation(c.quotaLimit, c.quotaUsed + 1, Some(t.at))]
      && s'.responses == s.responses[r := Response(Answered(AnswerFor(s, r, res)), res.grounded, Completed, t.at)]
      && (exists u :: 0 <= u < |s.messages| && s.messages[u].request == r && s.messages[u].role == User
            && s'.messages == s.messages[u := s.messages[u].(status := Completed)]
                              + [Message(row.conversation, r, Assistant, res.answer, Completed, t.at)])
  }

  lemma FinishFollowsRule(s: State, cfg: Settings, r: nat, res: Result, t: Instant)
    ensures FinishRule(s, Finish(s, cfg, r, res, t), cfg, r, res, t)
    ensures CanFinish(s, r) <==> Closable(s, r)
    ensures CanFinish(s, r) ==> FinishedAnswer(s, r, res) == AnswerFor(s, r, res)
  {
    var user := UserMessage(s.messages, r);
    assert user.None? ==> !Closable(s, r);
  }

  /** Finishing a request replaces its reservation in its month's cost: by nothing if no model answered, by
      itself if the usage is not known, by the price of the tokens if it is. The count stays. */
  lemma FinishReplacesReservation(s: State, cfg: Settings, r: nat, res: Result, t: Instant, since: nat)
    requires Closable(s, r)
    ensures var s' := Finish(s, cfg, r, res, t);
            var reserved := if s.requests[r].cost.Some? then s.requests[r].cost.value else 0;
            var change := MonthlyCost(s'.requests, since) - MonthlyCost(s.requests, since);
            var inMonth := s.requests[r].startedAt >= since;
            && (!inMonth ==> change == 0)
            && (inMonth && !ModelNamed(res) ==> change == -reserved)
            && (inMonth && ModelNamed(res) && !UsageComplete(res) ==> change == 0)
            && (inMonth && ModelNamed(res) && UsageComplete(res) ==>
                  change == res.usage.value.promptTokens.value * cfg.inputPrice
                            + res.usage.value.completionTokens.value * cfg.outputPrice - reserved)
            && MonthlyCount(s'.requests, since) == MonthlyCount(s.requests, since)
  {
    FinishFollowsRule(s, cfg, r, res, t);
    var row' := Finish(s, cfg, r, res, t).requests[r];
    hide Finish;
    TotalUpdate(s.requests, r, row', InMonth(since));
    TotalUpdate(s.requests, r, row', CostInMonth(since));
  }

  // ----- failing

  /** A request closed as failed, and its response. */
  function FailedRow(row: Request, code: Code, t: Instant): Request {
    row.(status := Failed, error := Some(code), endedAt := Some(t.at))
  }

  function FailedResponse(code: Code, t: Instant): Response {
    Response(Refusal(code), false, Failed, t.at)
  }

  ghost predicate FailRule(s: State, s': State, r: nat, code: Code, t: Instant) {
    if r >= |s.requests| || s.requests[r].status != Pending then s' == s.(now := t)
    else
      && s'.now == t && s'.buckets == s.buckets && s'.conversations == s.conversations
      && s'.requests == s.requests[r := FailedRow(s.requests[r], code, t)]
      && s'.responses == s.responses[r := FailedResponse(code, t)]
      && (if Asked(s, r) then
            exists u :: 0 <= u < |s.messages| && IsQuestion(s.messages[u], r)
                        && s'.messages == s.messages[u := s.messages[u].(status := Failed)]
          else s'.messages == s.messages)
  }

  ghost predicate Asked(s: State, r: nat) {
    exists u :: 0 <= u < |s.messages| && IsQuestion(s.messages[u], r)
  }

  predicate IsQuestion(m: Message, r: nat) { m.request == r && m.role == User }

  lemma FailFollowsRule(s: State, r: nat, code: Code, t: Instant)
    ensures FailRule(s, Fail(s, r, code, t), r, code, t)
  {
    var user := UserMessage(s.messages, r);
    if user.Some? { assert IsQuestion(s.messages[user.value], r); }
  }

  // ----- recovering

  /** Row `i` is pending, started before the cutoff and not locked. */
  predicate Lost(s: State, cutoff: int, held: set<nat>, i: nat) {
    i < |s.requests| && s.requests[i].status == Pending && s.requests[i].startedAt < cutoff && i !in held
  }

  ghost predicate RecoverRule(s: State, s': State, cutoff: int, held: set<nat>, t: Instant) {
    && s'.now == t && s'.buckets == s.buckets && s'.conversations == s.conversations
    && |s'.requests| == |s.requests| && |s'.messages| == |s.messages|
    && (forall i: nat :: i < |s.requests| ==>
          s'.requests[i] == if Lost(s, cutoff, held, i) then FailedRow(s.requests[i], WorkerLost, t) else s.requests[i])
    && (forall i: nat :: i in s'.responses <==> i in s.responses || Lost(s, cutoff, held, i))
    && (forall i: nat :: i in s'.responses ==>
          s'.responses[i] == if Lost(s, cutoff, held, i) then FailedResponse(WorkerLost, t) else s.responses[i])
    && (forall k :: 0 <= k < |s.messages| ==>
          s'.messages[k] == if Lost(s, cutoff, held, s.messages[k].request) then s.messages[k].(status := Failed)
                            else s.messages[k])
  }

  /** The rows of a list, each once, as the job leaves them. */
  ghost predicate ListRecovered(s: State, s': State, rows: seq<nat>, t: Instant) {
    && s'.now == t && s'.buckets == s.buckets && s'.conversations == s.conversations
    && |s'.requests| == |s.requests| && |s'.messages| == |s.messages|
    && (forall i: nat :: i < |s.requests| ==>
          s'.requests[i] == if i in rows then FailedRow(s.requests[i], WorkerLost, t) else s.requests[i])
    && (forall i: nat :: i in s'.responses <==> i in s.responses || i in rows)
    && (forall i: nat :: i in s'.responses ==>
          s'.responses[i] == if i in rows then FailedResponse(WorkerLost, t) else s.responses[i])
    && (forall k :: 0 <= k < |s.messages| ==>
          s'.messages[k] == if s.messages[k].request in rows then s.messages[k].(status := Failed) else s.messages[k])
  }

  lemma RecoverOneMore(s: State, mid: State, rows: seq<nat>, r: nat, t: Instant)
    requires ListRecovered(s, mid, rows, t) && r < |s.requests| && r !in rows
    ensures ListRecovered(s, RecoverRow(mid, r, t), rows + [r], t)
  {
  }

  lemma {:induction false} RowsRecovered(s: State, rows: seq<nat>, t: Instant)
    requires forall k :: 0 <= k < |rows| ==> rows[k] < |s.requests|
    requires forall i, j :: 0 <= i < j < |rows| ==> rows[i] < rows[j]
    ensures ListRecovered(s, RecoverRows(s, rows, t), rows, t)
  {
    if rows != [] {
      var last := |rows| - 1;
      RowsRecovered(s, rows[..last], t);
      hide ListRecovered, RecoverRow;
      RecoverOneMore(s, RecoverRows(s, rows[..last], t), rows[..last], rows[last], t);
      assert rows == rows[..last] + [rows[last]];
    }
  }

  lemma RecoverFollowsRule(s: State, cutoff: int, held: set<nat>, t: Instant)
    ensures RecoverRule(s, Recover(s, cutoff, held, t), cutoff, held, t)
    ensures |StaleRows(s.requests, cutoff, held)| == |LostRows(s, cutoff, held)|
  {
    hide RecoverRows, ListRecovered, RecoverRule;
    var rows := StaleRows(s.requests, cutoff, held);
    RowsRecovered(s, rows, t);
    ListedAreLost(s, cutoff, held);
    RuleFromList(s, Recover(s, cutoff, held, t), rows, cutoff, held, t);
    AscendingSize(rows);
    assert Members(rows) == LostRows(s, cutoff, held);
  }

  ghost function LostRows(s: State, cutoff: int, held: set<nat>): set<nat> {
    set i: nat | i < |s.requests| && Lost(s, cutoff, held, i)
  }

  lemma ListedAreLost(s: State, cutoff: int, held: set<nat>)
    ensures forall i: nat :: i in StaleRows(s.requests, cutoff, held) <==> Lost(s, cutoff, held, i)
  {
    forall i: nat ensures i in StaleRows(s.requests, cutoff, held) <==> Lost(s, cutoff, held, i) {
      assert Lost(s, cutoff, held, i) <==> Stale(s.requests, cutoff, held, i);
    }
  }

  lemma RuleFromList(s: State, s': State, rows: seq<nat>, cutoff: int, held: set<nat>, t: Instant)
    requires ListRecovered(s, s', rows, t) && forall i: nat :: i in rows <==> Lost(s, cutoff, held, i)
    ensures RecoverRule(s, s', cutoff, held, t)
  {
    hide Lost;
  }

  ghost function Members(rows: seq<nat>): set<nat> { set i | i in rows }

  lemma MembersNext(rows: seq<nat>, r: nat)
    ensures Members(rows + [r]) == Members(rows) + {r}
  {
  }

  lemma NotAmong(rows: seq<nat>, r: nat)
    requires forall i :: 0 <= i < |rows| ==> rows[i] < r
    ensures r !in Members(rows)
  {
  }

  lemma {:induction false} AscendingSize(rows: seq<nat>)
    requires forall i, j :: 0 <= i < j < |rows| ==> rows[i] < rows[j]
    ensures |Members(rows)| == |rows|
  {
    if rows != [] {
      var front, last := rows[..|rows| - 1], rows[|rows| - 1];
      AscendingSize(front);
      MembersNext(front, last);
      NotAmong(front, last);
      hide Members;
      assert rows == front + [last];
    }
  }
}
