/** What no transaction ever takes back: identities, terminal outcomes, responses and history. */
module Evolution {
  import opened Wrappers
  import opened Tables
  import opened Transitions
  import opened Threads
  import opened Invariants
  import opened Preservation

  /** A row keeps its identity, and once it is not pending it never changes again. */
  predicate RowStep(a: Request, b: Request) {
    && SameIdentity(a, b)
    && (a.status != Pending ==> b == a)
    && (a.status == Pending && b.status == Pending ==> b == a)
    && (a.status == Pending ==> b.status != Rejected)
  }

  /** The finished exchanges of a conversation, oldest first. */
  function History(s: State, c: nat): seq<Message>
    requires c in s.conversations
  {
    var t, n := Thread(s.messages, c), 2 * s.conversations[c].quotaUsed;
    if n <= |t| then t[..n] else t
  }

  ghost predicate RowsExtend(s: State, s': State) {
    && |s.requests| <= |s'.requests|
    && (forall i :: 0 <= i < |s.requests| ==> RowStep(s.requests[i], s'.requests[i]))
    && (forall i :: i in s.responses ==> i in s'.responses && s'.responses[i] == s.responses[i])
  }

  ghost predicate ConversationExtends(s: State, s': State, c: nat)
    requires c in s.conversations
  {
    && c in s'.conversations
    && s'.conversations[c].quotaLimit == s.conversations[c].quotaLimit
    && s.conversations[c].quotaUsed <= s'.conversations[c].quotaUsed
    && History(s, c) <= History(s', c)
  }

  ghost predicate Extends(s: State, s': State) {
    && s.now.at <= s'.now.at && s.now.monthStart <= s'.now.monthStart && s.now.hour <= s'.now.hour
    && RowsExtend(s, s')
    && (forall c :: c in s.conversations ==> ConversationExtends(s, s', c))
  }

  lemma ExtendsTransitive(a: State, b: State, c: State)
    requires Extends(a, b) && Extends(b, c)
    ensures Extends(a, c)
  {
    forall i | 0 <= i < |a.requests| ensures RowStep(a.requests[i], c.requests[i]) {
      assert RowStep(a.requests[i], b.requests[i]) && RowStep(b.requests[i], c.requests[i]);
    }
    forall d | d in a.conversations ensures ConversationExtends(a, c, d) {
      assert ConversationExtends(a, b, d) && ConversationExtends(b, c, d);
    }
  }

  lemma TickExtends(s: State, t: Instant)
    requires Later(s.now, t) || s.now == t
    ensures Extends(s, s.(now := t))
  {
    forall c | c in s.conversations ensures ConversationExtends(s, s.(now := t), c) {
      assert History(s, c) == History(s.(now := t), c);
    }
  }

  lemma InsertExtends(s: State, cfg: Settings, c: nat, key: string, question: string, httpId: nat,
                      denial: Option<Code>, hit: Option<Bucket>, t: Instant)
    requires Inv(s, cfg) && Later(s.now, t)
    ensures Extends(s, Insert(s, cfg, c, key, question, httpId, denial, hit, t))
  {
    var s' := Insert(s, cfg, c, key, question, httpId, denial, hit, t);
    assert RowsExtend(s, s');
    forall d | d in s.conversations ensures ConversationExtends(s, s', d) {
      assert ThreadOk(s, d);
      hide RowsOk, MessagesOk, BudgetOk, RateOk, KeysUnique, Thread;
      ThreadAppend(s.messages, s'.messages[|s.messages|], d);
    }
  }

  lemma ClosingExtendsRows(s: State, s': State, cfg: Settings, r: nat)
    requires RowsOk(s, cfg) && r < |s.requests| && s.requests[r].status == Pending
    requires |s'.requests| == |s.requests| && s'.requests == s.requests[r := s'.requests[r]]
    requires RowStep(s.requests[r], s'.requests[r])
    requires r in s'.responses && s'.responses == s.responses[r := s'.responses[r]]
    ensures RowsExtend(s, s')
  {
    assert RowOk(s, cfg, r);
  }

  lemma FinishExtends(s: State, cfg: Settings, r: nat, res: Result, t: Instant)
    requires Inv(s, cfg) && Later(s.now, t)
    ensures Extends(s, Finish(s, cfg, r, res, t))
  {
    if CanFinish(s, r) {
      var s' := Finish(s, cfg, r, res, t);
      ClosingExtendsRows(s, s', cfg, r);
      hide Inv, ConversationExtends;
      forall d | d in s.conversations ensures ConversationExtends(s, s', d) {
        FinishExtendsConversation(s, cfg, r, res, t, d);
      }
    } else {
      TickExtends(s, t);
    }
  }

  lemma FinishExtendsConversation(s: State, cfg: Settings, r: nat, res: Result, t: Instant, d: nat)
    requires Inv(s, cfg) && Later(s.now, t) && CanFinish(s, r) && d in s.conversations
    ensures ConversationExtends(s, Finish(s, cfg, r, res, t), d)
  {
    hide Thread, Exchanges, RowsOk, MessagesOk, BudgetOk, RateOk, KeysUnique;
    var s' := Finish(s, cfg, r, res, t);
    var u := UserMessage(s.messages, r).value;
    var done := s.messages[u].(status := Completed);
    PendingOwnsThread(s, cfg, r);
    assert ThreadOk(s, d);
    if d == s.requests[r].conversation {
      AnswerClosesExchange(s.messages, u, s.conversations[d].quotaUsed, s'.messages[|s.messages|]);
    } else {
      OtherThreadUntouched(s.messages, u, done, d);
      ThreadAppend(s.messages[u := done], s'.messages[|s.messages|], d);
    }
  }

  lemma FailExtends(s: State, cfg: Settings, r: nat, code: Code, t: Instant)
    requires Inv(s, cfg) && (Later(s.now, t) || s.now == t)
    ensures Extends(s, Fail(s, r, code, t))
  {
    if r < |s.requests| && s.requests[r].status == Pending {
      ClosingExtendsRows(s, Fail(s, r, code, t), cfg, r);
      hide Inv, ConversationExtends;
      forall d | d in s.conversations ensures ConversationExtends(s, Fail(s, r, code, t), d) {
        FailExtendsConversation(s, cfg, r, code, t, d);
      }
    } else {
      TickExtends(s, t);
    }
  }

  lemma FailExtendsConversation(s: State, cfg: Settings, r: nat, code: Code, t: Instant, d: nat)
    requires Inv(s, cfg) && r < |s.requests| && s.requests[r].status == Pending && d in s.conversations
    ensures ConversationExtends(s, Fail(s, r, code, t), d)
  {
    hide Thread, Exchanges, RowsOk, MessagesOk, BudgetOk, RateOk, KeysUnique;
    PendingOwnsThread(s, cfg, r);
    var u := UserMessage(s.messages, r).value;
    assert ThreadOk(s, d);
    if d == s.requests[r].conversation {
      FailureReopensThread(s.messages, u, s.conversations[d].quotaUsed);
    } else {
      OtherThreadUntouched(s.messages, u, s.messages[u].(status := Failed), d);
    }
  }

  lemma {:induction false} RecoverRowsExtends(s: State, cfg: Settings, rows: seq<nat>, t: Instant)
    requires Inv(s, cfg) && Later(s.now, t)
    requires forall k :: 0 <= k < |rows| ==> rows[k] < |s.requests| && s.requests[rows[k]].status == Pending
    requires forall i, j :: 0 <= i < j < |rows| ==> rows[i] < rows[j]
    ensures Extends(s, RecoverRows(s, rows, t))
  {
    if rows == [] {
      TickExtends(s, t);
    } else {
      hide Inv, RecoverRows, Extends, Fail;
      var last := |rows| - 1;
      var mid := RecoverRows(s, rows[..last], t);
      RecoverRowsExtends(s, cfg, rows[..last], t);
      RecoverRowsKeeps(s, cfg, rows[..last], t);
      assert Beyond(rows[..last], rows[last]);
      RecoverLastRow(s, cfg, rows, t);
      FailExtends(mid, cfg, rows[last], WorkerLost, t);
      ExtendsTransitive(s, mid, RecoverRows(s, rows, t));
    }
  }

  // ----- what closing rows does to the counters an admission reads

  lemma {:induction false} TotalPointwise(rs: seq<Request>, rs': seq<Request>, v: Request -> int, w: Request -> int)
    requires |rs| == |rs'|
    requires forall i :: 0 <= i < |rs| ==> v(rs'[i]) <= w(rs[i])
    ensures Total(rs', v) <= Total(rs, w)
  {
    if rs != [] {
      TotalPointwise(rs[..|rs| - 1], rs'[..|rs| - 1], v, w);
    }
  }

  /** As long as no row is added, count, capped cost and rate only go down. */
  lemma CountersShrink(s: State, s': State, cfg: Settings, c: nat)
    requires RowsOk(s, cfg) && Extends(s, s') && |s'.requests| == |s.requests|
    ensures MonthlyCount(s'.requests, s'.now.monthStart) <= MonthlyCount(s.requests, s.now.monthStart)
    ensures cfg.monthlyBudget > 0 ==>
              Total(s'.requests, CappedInMonth(s'.now.monthStart, cfg.maxRequestCost))
              <= Total(s.requests, CappedInMonth(s.now.monthStart, cfg.maxRequestCost))
    ensures TokenCount(s'.requests, c, s'.now.at - MINUTE) <= TokenCount(s.requests, c, s.now.at - MINUTE)
    ensures HasPending(s'.requests, c) ==> HasPending(s.requests, c)
  {
    var rs, rs' := s.requests, s'.requests;
    assert forall i :: 0 <= i < |rs| ==> RowStep(rs[i], rs'[i]);
    TotalPointwise(rs, rs', InMonth(s'.now.monthStart), InMonth(s.now.monthStart));
    TotalPointwise(rs, rs', InWindow(c, s'.now.at - MINUTE), InWindow(c, s.now.at - MINUTE));
    if cfg.monthlyBudget > 0 {
      forall i | 0 <= i < |rs|
        ensures CappedInMonth(s'.now.monthStart, cfg.maxRequestCost)(rs'[i])
             <= CappedInMonth(s.now.monthStart, cfg.maxRequestCost)(rs[i])
      {
        assert RowOk(s, cfg, i);
      }
      TotalPointwise(rs, rs', CappedInMonth(s'.now.monthStart, cfg.maxRequestCost),
                     CappedInMonth(s.now.monthStart, cfg.maxRequestCost));
    }
    if HasPending(rs', c) {
      var i :| 0 <= i < |rs'| && rs'[i].conversation == c && rs'[i].status == Pending;
      assert rs[i].conversation == c && rs[i].status == Pending;
    }
  }

  // ----- idempotent replay

  /** What a retry with the same key is told: nothing is known of the key, or the earlier outcome. */
  function Lookup(s: State, c: nat, key: string, question: string): Option<Admission> {
    var r := ByIdempotency(s.requests, c, key);
    if r.None? then None else Some(Previous(s, r.value, question))
  }

  lemma KeyFound(s: State, r: nat)
    requires KeysUnique(s.requests) && r < |s.requests|
    ensures ByIdempotency(s.requests, s.requests[r].conversation, s.requests[r].key) == Option.Some(r)
  {
  }

  /** Once a key's first attempt is over, a retry is told the same for ever; a different question always
      conflicts. */
  lemma OutcomeIsFinal(s: State, s': State, cfg: Settings, r: nat, question: string)
    requires RowsOk(s, cfg) && KeysUnique(s.requests) && KeysUnique(s'.requests) && RowsExtend(s, s')
    requires r < |s.requests| && s.requests[r].status != Pending
    ensures var row := s.requests[r];
            && Lookup(s', row.conversation, row.key, question) == Lookup(s, row.conversation, row.key, question)
            && (question != row.question ==>
                  Lookup(s, row.conversation, row.key, question) == Some(Refused(IdempotencyConflict)))
            && (row.status == Completed ==>
                  && r in s.responses && s.responses[r].payload.Answered?
                  && Lookup(s, row.conversation, row.key, row.question)
                     == Some(Replayed(s.responses[r].payload.answer)))
            && (row.status != Completed ==>
                  && row.error.Some?
                  && Lookup(s, row.conversation, row.key, row.question) == Some(Refused(row.error.value)))
  {
    assert RowStep(s.requests[r], s'.requests[r]) && RowOk(s, cfg, r);
    hide KeysUnique, RowsOk, RowsExtend;
    KeyFound(s, r);
    KeyFound(s', r);
  }

  /** A successful `_finish` returns exactly what every later retry of its key is given. */
  lemma FinishedIsReplayed(s: State, s': State, cfg: Settings, r: nat, res: Result, t: Instant)
    requires Inv(s, cfg) && Later(s.now, t) && CanFinish(s, r)
    requires Inv(s', cfg) && Extends(Finish(s, cfg, r, res, t), s')
    ensures Lookup(s', s.requests[r].conversation, s.requests[r].key, s.requests[r].question)
         == Some(Replayed(FinishedAnswer(s, r, res)))
  {
    FinishKeeps(s, cfg, r, res, t);
    OutcomeIsFinal(Finish(s, cfg, r, res, t), s', cfg, r, s.requests[r].question);
  }
}
