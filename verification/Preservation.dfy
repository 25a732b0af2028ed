/** Each transaction of the lifecycle keeps the invariant. */
module Preservation {
  import opened Wrappers
  import opened Tables
  import opened Transitions
  import opened Threads
  import opened Invariants

  /** What an admission must know about the tables at the moment it inserts its row. */
  ghost predicate MayAdmit(s: State, cfg: Settings, c: nat, t: Instant)
    requires c in s.conversations
  {
    && s.conversations[c].quotaUsed < s.conversations[c].quotaLimit
    && !HasPending(s.requests, c)
    && MonthlyCount(s.requests, t.monthStart) < cfg.monthlyRequests
    && (cfg.monthlyBudget > 0 ==>
          Total(s.requests, CappedInMonth(t.monthStart, cfg.maxRequestCost)) + cfg.maxRequestCost <= cfg.monthlyBudget)
    && TokenCount(s.requests, c, t.at - MINUTE) < cfg.tokenRate
  }

  // ----- the clock

  lemma BudgetOverTime(s: State, cfg: Settings, t: Instant)
    requires RowsOk(s, cfg) && s.now.monthStart <= t.monthStart
    ensures MonthlyCount(s.requests, t.monthStart) <= MonthlyCount(s.requests, s.now.monthStart)
    ensures Total(s.requests, CappedInMonth(t.monthStart, cfg.maxRequestCost))
         <= Total(s.requests, CappedInMonth(s.now.monthStart, cfg.maxRequestCost))
  {
    forall i | 0 <= i < |s.requests| ensures CostOf(s.requests[i]) >= 0 { assert RowOk(s, cfg, i); }
    TotalMonotone(s.requests, InMonth(t.monthStart), InMonth(s.now.monthStart));
    TotalMonotone(s.requests, CappedInMonth(t.monthStart, cfg.maxRequestCost),
                  CappedInMonth(s.now.monthStart, cfg.maxRequestCost));
  }

  /** Time passing, with no rows changed. */
  lemma TickKeeps(s: State, cfg: Settings, t: Instant)
    requires Inv(s, cfg) && Later(s.now, t)
    ensures Inv(s.(now := t), cfg)
  {
    var s' := s.(now := t);
    BudgetOverTime(s, cfg, t);
    assert RowsOk(s', cfg) by {
      forall i: nat | i < |s.requests| ensures RowOk(s', cfg, i) { assert RowOk(s, cfg, i); }
    }
    forall k | 0 <= k < |s.messages| ensures MessageOk(s', s.messages[k]) { assert MessageOk(s, s.messages[k]); }
    forall c | c in s.conversations ensures ThreadOk(s', c) { ThreadFrame(s, s', c); }
  }

  /** A conversation keeps its thread facts when its quota, thread and charges stay and no stored answer of
      its requests goes away. */
  lemma ThreadFrame(s: State, s': State, c: nat)
    requires c in s.conversations && ThreadOk(s, c)
    requires c in s'.conversations && s'.conversations[c] == s.conversations[c]
    requires Thread(s'.messages, c) == Thread(s.messages, c)
    requires Total(s'.requests, Charged(c)) == Total(s.requests, Charged(c))
    requires forall m :: m in Thread(s.messages, c) && m.request in s.responses ==>
               m.request in s'.responses && s'.responses[m.request] == s.responses[m.request]
    ensures ThreadOk(s', c)
  {
    var t, used := Thread(s.messages, c), s.conversations[c].quotaUsed;
    forall k | 0 <= k < used ensures AnswerStored(s', c, t, k) {
      assert AnswerStored(s, c, t, k);
      assert t[2 * k + 1] in t;
    }
  }

  lemma ThreadRequests(s: State, c: nat)
    requires MessagesOk(s)
    ensures forall m :: m in Thread(s.messages, c) ==>
              m.request < |s.requests| && s.requests[m.request].conversation == c
  {
    ThreadElements(s.messages, c);
    forall m | m in Thread(s.messages, c)
      ensures m.request < |s.requests| && s.requests[m.request].conversation == c
    {
      var k :| 0 <= k < |s.messages| && s.messages[k] == m;
      assert MessageOk(s, s.messages[k]);
    }
  }

  // ----- admission

  lemma InsertKeepsRows(s: State, cfg: Settings, c: nat, key: string, question: string, httpId: nat,
                        denial: Option<Code>, hit: Option<Bucket>, t: Instant)
    requires RowsOk(s, cfg) && KeysUnique(s.requests) && Later(s.now, t) && c in s.conversations
    requires ByIdempotency(s.requests, c, key).None?
    ensures var s' := Insert(s, cfg, c, key, question, httpId, denial, hit, t);
            RowsOk(s', cfg) && KeysUnique(s'.requests)
  {
    var s' := Insert(s, cfg, c, key, question, httpId, denial, hit, t);
    forall i: nat | i < |s'.requests| ensures RowOk(s', cfg, i) {
      if i < |s.requests| { assert RowOk(s, cfg, i); }
    }
    forall i, j | 0 <= i < j < |s'.requests| ensures s'.requests[i].startedAt < s'.requests[j].startedAt {
      if j == |s.requests| { assert RowOk(s, cfg, i); }
    }
  }

  lemma InsertKeepsMessages(s: State, cfg: Settings, c: nat, key: string, question: string, httpId: nat,
                            denial: Option<Code>, hit: Option<Bucket>, t: Instant)
    requires MessagesOk(s) && Later(s.now, t)
    ensures MessagesOk(Insert(s, cfg, c, key, question, httpId, denial, hit, t))
  {
    var s' := Insert(s, cfg, c, key, question, httpId, denial, hit, t);
    forall k | 0 <= k < |s'.messages| ensures MessageOk(s', s'.messages[k]) {
      if k < |s.messages| { assert MessageOk(s, s.messages[k]); }
    }
    forall k | 0 <= k < |s.messages|
      ensures s.messages[k].request < |s.requests| && s.messages[k].createdAt <= s.now.at
    {
      assert MessageOk(s, s.messages[k]);
    }
    forall i: nat | i < |s'.requests| ensures UserMessage(s'.messages, i).Some? {
      if i < |s.requests| {
        var u := UserMessage(s.messages, i).value;
        assert s'.messages[u] == s.messages[u];
      } else {
        assert s'.messages[|s.messages|].request == i;
      }
    }
  }

  lemma InsertKeepsThreads(s: State, cfg: Settings, c: nat, key: string, question: string, httpId: nat,
                           denial: Option<Code>, hit: Option<Bucket>, t: Instant)
    requires RowsOk(s, cfg) && MessagesOk(s) && ThreadsOk(s) && c in s.conversations
    requires denial.None? ==> s.conversations[c].quotaUsed < s.conversations[c].quotaLimit && !HasPending(s.requests, c)
    ensures ThreadsOk(Insert(s, cfg, c, key, question, httpId, denial, hit, t))
  {
    var s' := Insert(s, cfg, c, key, question, httpId, denial, hit, t);
    forall d | d in s'.conversations ensures ThreadOk(s', d) {
      if d == c && denial.None? {
        InsertOpensThread(s, cfg, c, key, question, httpId, hit, t);
      } else {
        InsertKeepsThread(s, cfg, c, key, question, httpId, denial, hit, t, d);
      }
    }
  }

  lemma InsertOpensThread(s: State, cfg: Settings, c: nat, key: string, question: string, httpId: nat,
                          hit: Option<Bucket>, t: Instant)
    requires RowsOk(s, cfg) && MessagesOk(s) && ThreadsOk(s) && c in s.conversations
    requires s.conversations[c].quotaUsed < s.conversations[c].quotaLimit && !HasPending(s.requests, c)
    ensures ThreadOk(Insert(s, cfg, c, key, question, httpId, None, hit, t), c)
  {
    hide RowsOk, MessagesOk, Thread, Total, HasPending;
    var s' := Insert(s, cfg, c, key, question, httpId, None, hit, t);
    var m := s'.messages[|s.messages|];
    assert ThreadOk(s, c);
    OpenExactlyWhenPending(s, cfg, c);
    var th, used := Thread(s.messages, c), s.conversations[c].quotaUsed;
    ThreadAppend(s.messages, m, c);
    TotalAppend(s.requests, s'.requests[|s.requests|], Charged(c));
    forall k | 0 <= k < used ensures AnswerStored(s', c, th + [m], k) { assert AnswerStored(s, c, th, k); }
  }

  lemma InsertKeepsThread(s: State, cfg: Settings, c: nat, key: string, question: string, httpId: nat,
                          denial: Option<Code>, hit: Option<Bucket>, t: Instant, d: nat)
    requires MessagesOk(s) && d in s.conversations && ThreadOk(s, d)
    requires d == c ==> denial.Some?
    ensures ThreadOk(Insert(s, cfg, c, key, question, httpId, denial, hit, t), d)
  {
    var s' := Insert(s, cfg, c, key, question, httpId, denial, hit, t);
    ThreadAppend(s.messages, s'.messages[|s.messages|], d);
    TotalAppend(s.requests, s'.requests[|s.requests|], Charged(d));
    ThreadRequests(s, d);
    hide ThreadOk, Thread, Total;
    ThreadFrame(s, s', d);
  }

  lemma InsertKeepsBudget(s: State, cfg: Settings, c: nat, key: string, question: string, httpId: nat,
                          denial: Option<Code>, hit: Option<Bucket>, t: Instant)
    requires RowsOk(s, cfg) && BudgetOk(s, cfg) && Later(s.now, t) && c in s.conversations
    requires denial.None? ==> MayAdmit(s, cfg, c, t)
    ensures BudgetOk(Insert(s, cfg, c, key, question, httpId, denial, hit, t), cfg)
  {
    var s' := Insert(s, cfg, c, key, question, httpId, denial, hit, t);
    BudgetOverTime(s, cfg, t);
    TotalAppend(s.requests, s'.requests[|s.requests|], InMonth(t.monthStart));
    TotalAppend(s.requests, s'.requests[|s.requests|], CappedInMonth(t.monthStart, cfg.maxRequestCost));
  }

  lemma InsertKeepsRate(s: State, cfg: Settings, c: nat, key: string, question: string, httpId: nat,
                        denial: Option<Code>, hit: Option<Bucket>, t: Instant)
    requires RateOk(s.requests, cfg) && c in s.conversations
    requires denial.None? ==> MayAdmit(s, cfg, c, t)
    ensures RateOk(Insert(s, cfg, c, key, question, httpId, denial, hit, t).requests, cfg)
  {
    var rs, rs' := s.requests, Insert(s, cfg, c, key, question, httpId, denial, hit, t).requests;
    forall i | 0 <= i < |rs'| && rs'[i].accepted
      ensures TokenCount(rs'[..i + 1], rs'[i].conversation, rs'[i].startedAt - MINUTE) <= cfg.tokenRate
    {
      if i < |rs| {
        assert rs'[..i + 1] == rs[..i + 1];
      } else {
        assert rs'[..i + 1] == rs + [rs'[i]];
        TotalAppend(rs, rs'[i], InWindow(c, t.at - MINUTE));
      }
    }
  }

  /** Inserting a decided admission keeps the invariant, whoever decided it and on whatever reads, as long
      as an acceptance still fits the tables it is inserted into. */
  lemma InsertKeeps(s: State, cfg: Settings, c: nat, key: string, question: string, httpId: nat,
                    denial: Option<Code>, hit: Option<Bucket>, t: Instant)
    requires Inv(s, cfg) && Later(s.now, t) && c in s.conversations
    requires ByIdempotency(s.requests, c, key).None?
    requires denial.None? ==> MayAdmit(s, cfg, c, t)
    ensures Inv(Insert(s, cfg, c, key, question, httpId, denial, hit, t), cfg)
  {
    InsertKeepsRows(s, cfg, c, key, question, httpId, denial, hit, t);
    InsertKeepsMessages(s, cfg, c, key, question, httpId, denial, hit, t);
    InsertKeepsThreads(s, cfg, c, key, question, httpId, denial, hit, t);
    InsertKeepsBudget(s, cfg, c, key, question, httpId, denial, hit, t);
    InsertKeepsRate(s, cfg, c, key, question, httpId, denial, hit, t);
  }

  // ----- closing a request

  /** Rewriting one row in place, without moving it to another conversation or time. */
  predicate SameIdentity(a: Request, b: Request) {
    && a.conversation == b.conversation && a.key == b.key && a.question == b.question && a.httpId == b.httpId
    && a.startedAt == b.startedAt && a.accepted == b.accepted
  }

  lemma RewriteKeepsRate(rs: seq<Request>, cfg: Settings, r: nat, row: Request)
    requires r < |rs| && SameIdentity(rs[r], row) && RateOk(rs, cfg)
    ensures RateOk(rs[r := row], cfg)
  {
    var rs' := rs[r := row];
    forall i | 0 <= i < |rs'| && rs'[i].accepted
      ensures TokenCount(rs'[..i + 1], rs'[i].conversation, rs'[i].startedAt - MINUTE) <= cfg.tokenRate
    {
      if r <= i {
        assert rs'[..i + 1] == rs[..i + 1][r := row];
        TotalUpdate(rs[..i + 1], r, row, InWindow(rs[i].conversation, rs[i].startedAt - MINUTE));
      } else {
        assert rs'[..i + 1] == rs[..i + 1];
      }
    }
  }

  /** Closing a row never adds to the month's count or capped cost. */
  lemma RewriteKeepsBudget(s: State, cfg: Settings, r: nat, row: Request, t: Instant)
    requires RowsOk(s, cfg) && BudgetOk(s, cfg) && s.now.monthStart <= t.monthStart
    requires r < |s.requests| && s.requests[r].status == Pending && SameIdentity(s.requests[r], row)
    requires row.status == Completed || row.status == Failed
    ensures MonthlyCount(s.requests[r := row], t.monthStart) <= cfg.monthlyRequests
    ensures cfg.monthlyBudget > 0 ==>
              Total(s.requests[r := row], CappedInMonth(t.monthStart, cfg.maxRequestCost)) <= cfg.monthlyBudget
  {
    assert RowOk(s, cfg, r);
    BudgetOverTime(s, cfg, t);
    TotalUpdate(s.requests, r, row, InMonth(t.monthStart));
    TotalUpdate(s.requests, r, row, CappedInMonth(t.monthStart, cfg.maxRequestCost));
  }

  lemma FinishKeepsRows(s: State, cfg: Settings, r: nat, res: Result, t: Instant)
    requires Inv(s, cfg) && Later(s.now, t) && CanFinish(s, r)
    ensures var s' := Finish(s, cfg, r, res, t); RowsOk(s', cfg) && KeysUnique(s'.requests)
  {
    var s' := Finish(s, cfg, r, res, t);
    assert RowOk(s, cfg, r);
    BilledIsNatural(cfg, CostOf(s.requests[r]), res);
    forall i: nat | i < |s'.requests| ensures RowOk(s', cfg, i) {
      assert RowOk(s, cfg, i);
    }
  }

  lemma BilledIsNatural(cfg: Settings, reservation: Money, res: Result)
    requires reservation >= 0
    ensures Billed(cfg, reservation, res.model, res.usage) >= 0
  {
    if res.usage.Some? && res.usage.value.promptTokens.Some? && res.usage.value.completionTokens.Some? {
      assert res.usage.value.promptTokens.value * cfg.inputPrice >= 0;
      assert res.usage.value.completionTokens.value * cfg.outputPrice >= 0;
    }
  }

  lemma FinishKeepsMessages(s: State, cfg: Settings, r: nat, res: Result, t: Instant)
    requires Inv(s, cfg) && Later(s.now, t) && CanFinish(s, r)
    ensures MessagesOk(Finish(s, cfg, r, res, t))
  {
    var s' := Finish(s, cfg, r, res, t);
    var u := UserMessage(s.messages, r).value;
    OnlyMessageOfPending(s, cfg, r);
    forall k | 0 <= k < |s'.messages| ensures MessageOk(s', s'.messages[k]) {
      if k < |s.messages| { assert MessageOk(s, s.messages[k]); }
    }
    UserMessagesStay(s.messages, s'.messages, |s.requests|);
    forall k, l | 0 <= k < l < |s'.messages|
      ensures s'.messages[k].createdAt < s'.messages[l].createdAt
      ensures s'.messages[k].request == s'.messages[l].request ==>
                s'.messages[k].role == User && s'.messages[l].role == Assistant
    {
      assert MessageOk(s, s.messages[k]);
    }
  }

  /** Until it is closed, a request has its question as its only message. */
  lemma OnlyMessageOfPending(s: State, cfg: Settings, r: nat)
    requires MessagesOk(s) && r < |s.requests| && s.requests[r].status == Pending
    ensures forall k :: 0 <= k < |s.messages| && s.messages[k].request == r ==>
              UserMessage(s.messages, r) == Option.Some(k)
  {
    forall k | 0 <= k < |s.messages| && s.messages[k].request == r
      ensures UserMessage(s.messages, r) == Option.Some(k)
    {
      assert MessageOk(s, s.messages[k]);
      UserMessageIsTheOne(s, k);
    }
  }

  lemma UserMessagesStay(ms: seq<Message>, ms': seq<Message>, n: nat)
    requires |ms| <= |ms'|
    requires forall k :: 0 <= k < |ms| ==> ms'[k].request == ms[k].request && ms'[k].role == ms[k].role
    requires forall i: nat :: i < n ==> UserMessage(ms, i).Some?
    ensures forall i: nat :: i < n ==> UserMessage(ms', i).Some?
  {
    forall i: nat | i < n ensures UserMessage(ms', i).Some? {
      var v := UserMessage(ms, i).value;
      assert ms'[v].request == i && ms'[v].role == User;
    }
  }

  lemma FinishKeepsThreads(s: State, cfg: Settings, r: nat, res: Result, t: Instant)
    requires Inv(s, cfg) && Later(s.now, t) && CanFinish(s, r)
    ensures ThreadsOk(Finish(s, cfg, r, res, t))
  {
    var s' := Finish(s, cfg, r, res, t);
    var c := s.requests[r].conversation;
    forall d | d in s'.conversations ensures ThreadOk(s', d) {
      if d == c {
        FinishKeepsOwnThread(s, cfg, r, res, t);
      } else {
        FinishKeepsOtherThread(s, cfg, r, res, t, d);
      }
    }
  }

  lemma FinishKeepsOtherThread(s: State, cfg: Settings, r: nat, res: Result, t: Instant, d: nat)
    requires Inv(s, cfg) && Later(s.now, t) && CanFinish(s, r)
    requires d in s.conversations && d != s.requests[r].conversation
    ensures ThreadOk(Finish(s, cfg, r, res, t), d)
  {
    var s' := Finish(s, cfg, r, res, t);
    var u := UserMessage(s.messages, r).value;
    assert MessageOk(s, s.messages[u]) && ThreadOk(s, d);
    var done := s.messages[u].(status := Completed);
    OtherThreadUntouched(s.messages, u, done, d);
    ThreadAppend(s.messages[u := done], s'.messages[|s.messages|], d);
    TotalUpdate(s.requests, r, s'.requests[r], Charged(d));
    ThreadRequests(s, d);
    ThreadFrame(s, s', d);
  }

  lemma FinishKeepsOwnThread(s: State, cfg: Settings, r: nat, res: Result, t: Instant)
    requires Inv(s, cfg) && Later(s.now, t) && CanFinish(s, r)
    ensures ThreadOk(Finish(s, cfg, r, res, t), s.requests[r].conversation)
  {
    var s' := Finish(s, cfg, r, res, t);
    var c, u := s.requests[r].conversation, UserMessage(s.messages, r).value;
    var n := s.conversations[c].quotaUsed;
    PendingOwnsThread(s, cfg, r);
    assert RowOk(s, cfg, r) && ThreadOk(s, c);
    var before, t' := Thread(s.messages, c), Thread(s'.messages, c);
    AnswerClosesExchange(s.messages, u, n, s'.messages[|s.messages|]);
    TotalUpdate(s.requests, r, s'.requests[r], Charged(c));
    forall k | 0 <= k < n + 1 ensures AnswerStored(s', c, t', k) {
      if k < n {
        assert AnswerStored(s, c, before, k);
        assert t'[2 * k + 1] == before[2 * k + 1];
        assert r !in s.responses;
      }
    }
  }

  /** `_finish` keeps the invariant. */
  lemma FinishKeeps(s: State, cfg: Settings, r: nat, res: Result, t: Instant)
    requires Inv(s, cfg) && Later(s.now, t)
    ensures Inv(Finish(s, cfg, r, res, t), cfg)
  {
    if CanFinish(s, r) {
      FinishKeepsRows(s, cfg, r, res, t);
      FinishKeepsMessages(s, cfg, r, res, t);
      FinishKeepsThreads(s, cfg, r, res, t);
      RewriteKeepsBudget(s, cfg, r, Finish(s, cfg, r, res, t).requests[r], t);
      RewriteKeepsRate(s.requests, cfg, r, Finish(s, cfg, r, res, t).requests[r]);
    } else {
      TickKeeps(s, cfg, t);
    }
  }

  lemma FailKeepsRows(s: State, cfg: Settings, r: nat, code: Code, t: Instant)
    requires Inv(s, cfg) && s.now == t && r < |s.requests| && s.requests[r].status == Pending
    ensures var s' := Fail(s, r, code, t); RowsOk(s', cfg) && KeysUnique(s'.requests)
  {
    hide MessagesOk, ThreadsOk, BudgetOk, RateOk, FailUserMessage;
    var s' := Fail(s, r, code, t);
    forall i: nat | i < |s'.requests| ensures RowOk(s', cfg, i) {
      assert RowOk(s, cfg, i);
    }
  }

  lemma FailKeepsMessages(s: State, cfg: Settings, r: nat, code: Code, t: Instant)
    requires Inv(s, cfg) && s.now == t && r < |s.requests| && s.requests[r].status == Pending
    ensures MessagesOk(Fail(s, r, code, t))
  {
    hide RowsOk, KeysUnique, ThreadsOk, BudgetOk, RateOk;
    var s' := Fail(s, r, code, t);
    OnlyMessageOfPending(s, cfg, r);
    forall k | 0 <= k < |s'.messages| ensures MessageOk(s', s'.messages[k]) {
      assert MessageOk(s, s.messages[k]);
    }
    UserMessagesStay(s.messages, s'.messages, |s.requests|);
  }

  lemma FailKeepsThreads(s: State, cfg: Settings, r: nat, code: Code, t: Instant)
    requires Inv(s, cfg) && s.now == t && r < |s.requests| && s.requests[r].status == Pending
    ensures ThreadsOk(Fail(s, r, code, t))
  {
    var s' := Fail(s, r, code, t);
    var c, u := s.requests[r].conversation, UserMessage(s.messages, r).value;
    PendingOwnsThread(s, cfg, r);
    assert RowOk(s, cfg, r);
    var failed := s.messages[u].(status := Failed);
    forall d | d in s'.conversations ensures ThreadOk(s', d) {
      assert ThreadOk(s, d);
      TotalUpdate(s.requests, r, s'.requests[r], Charged(d));
      if d == c {
        var n, before := s.conversations[c].quotaUsed, Thread(s.messages, c);
        FailureReopensThread(s.messages, u, n);
        forall k | 0 <= k < n ensures AnswerStored(s', c, before[..2 * n], k) {
          assert AnswerStored(s, c, before, k);
          assert r !in s.responses;
        }
      } else {
        OtherThreadUntouched(s.messages, u, failed, d);
        ThreadRequests(s, d);
        ThreadFrame(s, s', d);
      }
    }
  }

  /** Settling a pending row as failed keeps the invariant (the clock may already stand at `t`). */
  lemma FailNowKeeps(s: State, cfg: Settings, r: nat, code: Code, t: Instant)
    requires Inv(s, cfg) && s.now == t
    ensures Inv(Fail(s, r, code, t), cfg)
  {
    if r < |s.requests| && s.requests[r].status == Pending {
      FailKeepsRows(s, cfg, r, code, t);
      FailKeepsMessages(s, cfg, r, code, t);
      FailKeepsThreads(s, cfg, r, code, t);
      var row := Fail(s, r, code, t).requests[r];
      RewriteKeepsBudget(s, cfg, r, row, t);
      RewriteKeepsRate(s.requests, cfg, r, row);
    }
  }

  /** `_fail` keeps the invariant. */
  lemma FailKeeps(s: State, cfg: Settings, r: nat, code: Code, t: Instant)
    requires Inv(s, cfg) && Later(s.now, t)
    ensures Inv(Fail(s, r, code, t), cfg)
  {
    TickKeeps(s, cfg, t);
    FailNowKeeps(s.(now := t), cfg, r, code, t);
    assert Fail(s.(now := t), r, code, t) == Fail(s, r, code, t);
  }

  /** The recovery job's update of every message of a request is `_fail`'s update of the one. */
  lemma RecoverRowIsFail(s: State, cfg: Settings, r: nat, t: Instant)
    requires Inv(s, cfg) && r < |s.requests| && s.requests[r].status == Pending
    ensures RecoverRow(s, r, t) == Fail(s, r, WorkerLost, t)
  {
    OnlyMessageOfPending(s, cfg, r);
    assert FailEveryMessage(s.messages, r) == FailUserMessage(s.messages, r);
  }

  /** A row past the last one listed is not among those recovered. */
  predicate Beyond(rows: seq<nat>, i: nat) {
    rows == [] || rows[|rows| - 1] < i
  }

  /** Recovering an ascending list of pending rows keeps the invariant and leaves later rows alone. */
  lemma {:induction false} RecoverRowsKeeps(s: State, cfg: Settings, rows: seq<nat>, t: Instant)
    requires Inv(s, cfg) && Later(s.now, t)
    requires forall k :: 0 <= k < |rows| ==> rows[k] < |s.requests| && s.requests[rows[k]].status == Pending
    requires forall i, j :: 0 <= i < j < |rows| ==> rows[i] < rows[j]
    ensures var s' := RecoverRows(s, rows, t);
            && Inv(s', cfg) && s'.now == t
            && (forall i: nat :: i < |s.requests| && Beyond(rows, i) ==> s'.requests[i] == s.requests[i])
  {
    if rows == [] {
      TickKeeps(s, cfg, t);
    } else {
      hide Inv, RecoverRows;
      var last := |rows| - 1;
      RecoverRowsKeeps(s, cfg, rows[..last], t);
      assert forall i: nat :: rows[last] <= i ==> Beyond(rows[..last], i);
      RecoverLastRow(s, cfg, rows, t);
    }
  }

  lemma RecoverLastRow(s: State, cfg: Settings, rows: seq<nat>, t: Instant)
    requires rows != [] && forall k :: 0 <= k < |rows| ==> rows[k] < |s.requests|
    requires var mid := RecoverRows(s, rows[..|rows| - 1], t);
             Inv(mid, cfg) && mid.now == t && mid.requests[rows[|rows| - 1]].status == Pending
    ensures var mid, r := RecoverRows(s, rows[..|rows| - 1], t), rows[|rows| - 1];
            var s' := RecoverRows(s, rows, t);
            && s' == Fail(mid, r, WorkerLost, t) && Inv(s', cfg) && s'.now == t
            && (forall i: nat :: i < |s.requests| && i != r ==> s'.requests[i] == mid.requests[i])
  {
    hide Inv;
    var mid, r := RecoverRows(s, rows[..|rows| - 1], t), rows[|rows| - 1];
    RecoverRowIsFail(mid, cfg, r, t);
    FailNowKeeps(mid, cfg, r, WorkerLost, t);
  }

  /** `recover_pending` keeps the invariant. */
  lemma RecoverKeeps(s: State, cfg: Settings, cutoff: int, held: set<nat>, t: Instant)
    requires Inv(s, cfg) && Later(s.now, t)
    ensures Inv(Recover(s, cutoff, held, t), cfg)
  {
    RecoverRowsKeeps(s, cfg, StaleRows(s.requests, cutoff, held), t);
  }

  // ----- the admission transaction as a whole

  lemma {:induction false} NoDenialMeansMayAdmit(s: State, cfg: Settings, c: nat, ip: string, t: Instant)
    requires Inv(s, cfg) && c in s.conversations
    requires Denial(s, cfg, c, ip, t, 0).0.None?
    ensures MayAdmit(s, cfg, c, t)
  {
    NoDenialFrom(s, cfg, c, ip, t, 0);
    assert Check(s, cfg, c, ip, t, 0).None? && Check(s, cfg, c, ip, t, 1).None?;
    assert Check(s, cfg, c, ip, t, 3).None? && Check(s, cfg, c, ip, t, 4).None? && Check(s, cfg, c, ip, t, 5).None?;
    assert forall i: nat :: i < |s.requests| ==> RowOk(s, cfg, i);
    TotalMonotone(s.requests, CappedInMonth(t.monthStart, cfg.maxRequestCost), CostInMonth(t.monthStart));
  }

  lemma {:induction false} NoDenialFrom(s: State, cfg: Settings, c: nat, ip: string, t: Instant, n: nat)
    requires c in s.conversations && n <= CHECKS
    requires Denial(s, cfg, c, ip, t, n).0.None?
    ensures forall i :: n <= i < CHECKS ==> Check(s, cfg, c, ip, t, i).None?
    decreases CHECKS - n
  {
    if n < CHECKS { NoDenialFrom(s, cfg, c, ip, t, n + 1); }
  }

  /** The first transaction of `ask` keeps the invariant. */
  lemma AdmitKeeps(s: State, cfg: Settings, c: nat, key: string, question: string, httpId: nat, ip: string, t: Instant)
    requires Inv(s, cfg) && Later(s.now, t)
    ensures Inv(Admit(s, cfg, c, key, question, httpId, ip, t).0, cfg)
  {
    if c !in s.conversations || ByIdempotency(s.requests, c, key).Some? {
      TickKeeps(s, cfg, t);
    } else {
      var (denial, touched) := Denial(s, cfg, c, ip, t, 0);
      if denial.None? { NoDenialMeansMayAdmit(s, cfg, c, ip, t); }
      InsertKeeps(s, cfg, c, key, question, httpId, denial,
                  if touched then Option.Some(Bucket("rag", ip, t.hour)) else Option.None, t);
    }
  }

  // ----- the month's ledger

  /** Failing a request gives its reservation and its place in the month back. */
  lemma FailReleasesReservation(s: State, r: nat, code: Code, t: Instant, since: nat)
    requires r < |s.requests| && s.requests[r].status == Pending
    ensures var row, s' := s.requests[r], Fail(s, r, code, t);
            var freed := row.startedAt >= since;
            && MonthlyCount(s'.requests, since) == MonthlyCount(s.requests, since) - (if freed then 1 else 0)
            && MonthlyCost(s'.requests, since) == MonthlyCost(s.requests, since) - (if freed then CostOf(row) else 0)
  {
    var row' := Fail(s, r, code, t).requests[r];
    TotalUpdate(s.requests, r, row', InMonth(since));
    TotalUpdate(s.requests, r, row', CostInMonth(since));
  }
}
