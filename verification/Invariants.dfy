/** What every reachable state of the tables satisfies, and that each transaction keeps it. */
module Invariants {
  import opened Wrappers
  import opened Tables
  import opened Transitions
  import opened Threads

  // ----- the invariant

  /** Request, response, charge and acceptance agree. */
  ghost predicate RowOk(s: State, cfg: Settings, i: nat)
    requires i < |s.requests|
  {
    var r := s.requests[i];
    && r.conversation in s.conversations
    && (i in s.responses <==> r.status != Pending)
    && (i in s.responses ==> s.responses[i].status == r.status)
    && (r.charged <==> r.status == Completed)
    && (r.accepted <==> r.status != Rejected)
    && (r.endedAt.None? <==> r.status == Pending)
    && (r.error.Some? <==> r.status == Failed || r.status == Rejected)
    && (r.error.Some? ==> s.responses[i].payload == Refusal(r.error.value))
    && (r.status == Completed ==>
          && s.responses[i].payload.Answered?
          && s.responses[i].payload.answer.conversation == r.conversation
          && s.responses[i].payload.answer.httpId == r.httpId)
    && (r.status == Pending ==> CostOf(r) == if cfg.monthlyBudget > 0 then cfg.maxRequestCost else 0)
    && CostOf(r) >= 0
    && r.startedAt <= s.now.at
  }

  ghost predicate RowsOk(s: State, cfg: Settings) {
    && (forall i: nat :: i < |s.requests| ==> RowOk(s, cfg, i))
    && (forall i :: i in s.responses ==> i < |s.requests|)
    && (forall i, j :: 0 <= i < j < |s.requests| ==> s.requests[i].startedAt < s.requests[j].startedAt)
  }

  /** The unique constraint on (conversation, idempotency key). */
  ghost predicate KeysUnique(rs: seq<Request>) {
    forall i, j :: 0 <= i < j < |rs| ==> rs[i].conversation != rs[j].conversation || rs[i].key != rs[j].key
  }

  /** The status a user's message must have, given its request's. */
  function MessageStatus(st: Status): Status {
    if st == Rejected then Failed else st
  }

  ghost predicate MessageOk(s: State, m: Message) {
    && m.request < |s.requests|
    && m.conversation == s.requests[m.request].conversation
    && (m.role == User ==> m.status == MessageStatus(s.requests[m.request].status)
                           && m.content == s.requests[m.request].question)
    && (m.role == Assistant ==> m.status == Completed == s.requests[m.request].status)
    && m.createdAt <= s.now.at
  }

  ghost predicate MessagesOk(s: State) {
    && (forall k :: 0 <= k < |s.messages| ==> MessageOk(s, s.messages[k]))
    && (forall k, l :: 0 <= k < l < |s.messages| && s.messages[k].request == s.messages[l].request
          ==> s.messages[k].role == User && s.messages[l].role == Assistant)
    && (forall i: nat :: i < |s.requests| ==> UserMessage(s.messages, i).Some?)
    && Increasing(s.messages)
  }

  /** Quota, thread, charges and stored quota figures of one conversation agree. */
  ghost predicate ThreadOk(s: State, c: nat)
    requires c in s.conversations
  {
    var t, used := Thread(s.messages, c), s.conversations[c].quotaUsed;
    && Exchanges(t, used)
    && used + (|t| - 2 * used) <= s.conversations[c].quotaLimit
    && Total(s.requests, Charged(c)) == used
    && (forall k :: 0 <= k < used ==> AnswerStored(s, c, t, k))
  }

  function Charged(c: nat): Request -> int {
    (r: Request) => if r.conversation == c && r.charged then 1 else 0
  }

  /** The `k`-th answer of the thread is the stored one, and it reported quota `k + 1`. */
  ghost predicate AnswerStored(s: State, c: nat, t: seq<Message>, k: nat)
    requires 2 * k + 1 < |t|
  {
    var r := t[2 * k + 1].request;
    && r in s.responses && s.responses[r].payload.Answered?
    && s.responses[r].payload.answer.answer == t[2 * k + 1].content
    && s.responses[r].payload.answer.quota.used == k + 1
  }

  ghost predicate ThreadsOk(s: State) {
    forall c :: c in s.conversations ==> ThreadOk(s, c)
  }

  /** A request's cost, as far as its reservation covers it. */
  function CappedInMonth(since: nat, cap: Money): Request -> int {
    (r: Request) => if !Billable(r, since) then 0 else if CostOf(r) <= cap then CostOf(r) else cap
  }

  ghost predicate BudgetOk(s: State, cfg: Settings) {
    && MonthlyCount(s.requests, s.now.monthStart) <= cfg.monthlyRequests
    && (cfg.monthlyBudget > 0 ==>
          Total(s.requests, CappedInMonth(s.now.monthStart, cfg.maxRequestCost)) <= cfg.monthlyBudget)
  }

  /** Each accepted request found its conversation's minute below the limit. */
  ghost predicate RateOk(rs: seq<Request>, cfg: Settings) {
    forall i :: 0 <= i < |rs| && rs[i].accepted ==>
      TokenCount(rs[..i + 1], rs[i].conversation, rs[i].startedAt - MINUTE) <= cfg.tokenRate
  }

  ghost predicate Inv(s: State, cfg: Settings) {
    && RowsOk(s, cfg) && KeysUnique(s.requests) && MessagesOk(s) && ThreadsOk(s)
    && BudgetOk(s, cfg) && RateOk(s.requests, cfg)
  }

  // ----- consequences about pending requests

  lemma UserMessageIsTheOne(s: State, k: nat)
    requires MessagesOk(s) && k < |s.messages| && s.messages[k].role == User
    ensures UserMessage(s.messages, s.messages[k].request) == Option.Some(k)
  {
    var r := s.messages[k].request;
    var u := UserMessage(s.messages, r);
    assert u.Some?;
  }

  /** A pending request owns the one open question of its conversation. */
  lemma PendingOwnsThread(s: State, cfg: Settings, r: nat)
    requires RowsOk(s, cfg) && MessagesOk(s) && ThreadsOk(s)
    requires r < |s.requests| && s.requests[r].status == Pending
    ensures CanFinish(s, r)
    ensures var c, u := s.requests[r].conversation, UserMessage(s.messages, r).value;
            var n := s.conversations[c].quotaUsed;
            && s.messages[u].status == Pending && s.messages[u].conversation == c
            && |Thread(s.messages, c)| == 2 * n + 1 && Thread(s.messages, c)[2 * n] == s.messages[u]
  {
    assert RowOk(s, cfg, r);
    var u := UserMessage(s.messages, r).value;
    assert MessageOk(s, s.messages[u]);
    var c := s.requests[r].conversation;
    assert ThreadOk(s, c);
    PendingIsLast(s.messages, u, s.conversations[c].quotaUsed);
  }

  /** At most one request of a conversation is pending. */
  lemma OnePending(s: State, cfg: Settings, i: nat, j: nat)
    requires RowsOk(s, cfg) && MessagesOk(s) && ThreadsOk(s)
    requires i < |s.requests| && j < |s.requests|
    requires s.requests[i].status == Pending && s.requests[j].status == Pending
    requires s.requests[i].conversation == s.requests[j].conversation
    ensures i == j
  {
    PendingOwnsThread(s, cfg, i);
    PendingOwnsThread(s, cfg, j);
  }

  /** The open question and the pending row imply each other. */
  lemma OpenExactlyWhenPending(s: State, cfg: Settings, c: nat)
    requires RowsOk(s, cfg) && MessagesOk(s) && ThreadsOk(s) && c in s.conversations
    ensures HasPending(s.requests, c) <==> |Thread(s.messages, c)| == 2 * s.conversations[c].quotaUsed + 1
  {
    var t, n := Thread(s.messages, c), s.conversations[c].quotaUsed;
    assert ThreadOk(s, c);
    if |t| == 2 * n + 1 {
      ThreadElements(s.messages, c);
      assert t[2 * n] in t;
      var k :| 0 <= k < |s.messages| && s.messages[k] == t[2 * n];
      assert MessageOk(s, s.messages[k]);
      assert s.requests[t[2 * n].request].status == Pending;
    }
    if HasPending(s.requests, c) {
      var i: nat :| i < |s.requests| && s.requests[i].conversation == c && s.requests[i].status == Pending;
      PendingOwnsThread(s, cfg, i);
    }
  }
}
