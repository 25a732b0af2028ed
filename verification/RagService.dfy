/** The service's transactions as they are written: row by row, in place. Each is proved to do exactly
    what its transition function says, and hence to keep the invariant. */
module RagService {
  import opened Wrappers
  import opened Tables
  import opened Transitions
  import opened Invariants
  import opened Preservation
  import opened Admissions
  import opened Closings

  datatype FinishOutcome = Finished(answer: AnswerOut) | Interrupted | Broken

  /** A transaction at a later time keeps the invariant. */
  ghost predicate Kept(s: State, s': State, cfg: Settings, t: Instant) {
    Inv(s, cfg) && Later(s.now, t) ==> Inv(s', cfg)
  }

  lemma AdmitKeepsIfOk(s: State, cfg: Settings, c: nat, key: string, question: string, httpId: nat, ip: string,
                       t: Instant)
    ensures Kept(s, Admit(s, cfg, c, key, question, httpId, ip, t).0, cfg, t)
  {
    if Inv(s, cfg) && Later(s.now, t) { AdmitKeeps(s, cfg, c, key, question, httpId, ip, t); }
  }

  lemma FinishKeepsIfOk(s: State, cfg: Settings, r: nat, res: Result, t: Instant)
    ensures Kept(s, Finish(s, cfg, r, res, t), cfg, t)
  {
    if Inv(s, cfg) && Later(s.now, t) { FinishKeeps(s, cfg, r, res, t); }
  }

  lemma FailKeepsIfOk(s: State, cfg: Settings, r: nat, code: Code, t: Instant)
    ensures Kept(s, Fail(s, r, code, t), cfg, t)
  {
    if Inv(s, cfg) && Later(s.now, t) { FailKeeps(s, cfg, r, code, t); }
  }

  lemma RecoverKeepsIfOk(s: State, cfg: Settings, cutoff: int, held: set<nat>, t: Instant)
    ensures Kept(s, Recover(s, cutoff, held, t), cfg, t)
  {
    if Inv(s, cfg) && Later(s.now, t) { RecoverKeeps(s, cfg, cutoff, held, t); }
  }

  class Database {
    const cfg: Settings
    var conversations: map<nat, Conversation>
    var requests: seq<Request>
    var responses: map<nat, Response>
    var messages: seq<Message>
    var buckets: map<Bucket, nat>
    var now: Instant

    constructor (cfg: Settings, now: Instant)
      requires now.monthStart <= now.at
      ensures this.cfg == cfg && Snapshot() == State(map[], [], map[], [], map[], now)
      ensures Inv(Snapshot(), cfg)
    {
      this.cfg, this.now := cfg, now;
      conversations, requests, responses, messages, buckets := map[], [], map[], [], map[];
    }

    ghost function Snapshot(): State
      reads this
    {
      State(conversations, requests, responses, messages, buckets, now)
    }

    /** What other processes have committed becomes visible. */
    method Observe(s: State)
      modifies this
      ensures Snapshot() == s
    {
      conversations, requests, responses := s.conversations, s.requests, s.responses;
      messages, buckets, now := s.messages, s.buckets, s.now;
    }

    /** `check_ip_limit`: insert the bucket or add one to it, then compare. */
    method CheckIpLimit(b: Bucket, limit: nat) returns (allowed: bool)
      modifies this`buckets
      ensures buckets == old(buckets)[b := HitsSoFar(old(buckets), b) + 1]
      ensures allowed <==> HitsSoFar(old(buckets), b) < limit
    {
      if b in buckets {
        buckets := buckets[b := buckets[b] + 1];
      } else {
        buckets := buckets[b := 1];
      }
      allowed := buckets[b] <= limit;
    }

    /** The first transaction of `ask`: which outcome it has and which rows it leaves is said of the rows it
        finds; it is also the transition the runs are made of. */
    method Ask(c: nat, key: string, question: string, httpId: nat, ip: string, t: Instant) returns (out: Admission)
      modifies this
      ensures AdmissionRule(old(Snapshot()), Snapshot(), cfg, c, key, question, httpId, ip, t, out)
      ensures (Snapshot(), out) == Admit(old(Snapshot()), cfg, c, key, question, httpId, ip, t)
      ensures Kept(old(Snapshot()), Snapshot(), cfg, t)
    {
      hide Kept, Total, Denial, HasPending, RecoverRows, Billed, AdmissionRule;
      ghost var s := Snapshot();
      AdmitKeepsIfOk(s, cfg, c, key, question, httpId, ip, t);
      AdmitFollowsRule(s, cfg, c, key, question, httpId, ip, t);
      now := t;
      if c !in conversations {
        return Refused(ConversationMissing);
      }
      var previous := ByIdempotency(requests, c, key);
      if previous.Some? {
        var row := requests[previous.value];
        if row.question != question {
          return Refused(IdempotencyConflict);
        }
        if row.status == Pending {
          return Refused(GenerationPending);
        }
        if row.status == Completed && previous.value in responses && responses[previous.value].payload.Answered? {
          return Replayed(responses[previous.value].payload.answer);
        }
        return Refused(if row.error.Some? then row.error.value else GenerationFailed);
      }
      DenialIgnoresClock(s, cfg, c, ip, t, 0);
      var denial := Decide(c, ip, t);
      ghost var touched := Denial(s, cfg, c, ip, t, 0).1;
      ghost var hit := if touched then Some(Bucket("rag", ip, t.hour)) else None;
      var id := |requests|;
      requests := requests + [Request(
        httpId, c, key, question, if denial.Some? then Rejected else Pending, denial.None?, false, None, t.at,
        if denial.Some? then Some(t.at) else None, denial,
        if denial.None? && cfg.monthlyBudget > 0 then Some(cfg.maxRequestCost) else None)];
      messages := messages + [Message(c, id, User, question, if denial.Some? then Failed else Pending, t.at)];
      if denial.Some? {
        responses := responses[id := Response(Refusal(denial.value), false, Rejected, t.at)];
        assert Snapshot() == Insert(s, cfg, c, key, question, httpId, denial, hit, t);
        return Denied(denial.value);
      }
      assert Snapshot() == Insert(s, cfg, c, key, question, httpId, denial, hit, t);
      return Admitted(id);
    }

    /** The denial chain: the first condition that denies wins, and only then are the later ones skipped. */
    method Decide(c: nat, ip: string, t: Instant) returns (denial: Option<Code>)
      requires c in conversations
      modifies this`buckets
      ensures DecidedByRows(old(Snapshot()), cfg, c, ip, t,
                            if denial.Some? then Denied(denial.value) else Admitted(|requests|))
      ensures var (denied, touched) := Denial(old(Snapshot()), cfg, c, ip, t, 0);
              && denial == denied
              && buckets == if touched then Hit(old(buckets), Bucket("rag", ip, t.hour)) else old(buckets)
    {
      ghost var s := Snapshot();
      UnfoldDenial(s, cfg, c, ip, t);
      DenialIsDecided(s, cfg, c, ip, t);
      hide Denial, DecidedByRows;
      denial := None;
      if conversations[c].quotaUsed >= conversations[c].quotaLimit {
        denial := Some(QuotaExhausted);
      } else if HasPending(requests, c) {
        denial := Some(GenerationPending);
      } else {
        var allowed := CheckIpLimit(Bucket("rag", ip, t.hour), cfg.ipRate);
        if !allowed {
          denial := Some(IpRateLimited);
        } else if MonthlyCount(requests, t.monthStart) >= cfg.monthlyRequests {
          denial := Some(ModelBudgetExhausted);
        } else if cfg.monthlyBudget > 0
                  && MonthlyCost(requests, t.monthStart) + cfg.maxRequestCost > cfg.monthlyBudget {
          denial := Some(ModelBudgetExhausted);
        } else if TokenCount(requests, c, t.at - MINUTE) >= cfg.tokenRate {
          denial := Some(RateLimited);
        }
      }
    }

    /** `_finish`: a pending request is closed with its answer and its bill. */
    method FinishRequest(r: nat, res: Result, t: Instant) returns (out: FinishOutcome)
      modifies this
      ensures FinishRule(old(Snapshot()), Snapshot(), cfg, r, res, t)
      ensures Closable(old(Snapshot()), r) ==> out == Finished(AnswerFor(old(Snapshot()), r, res))
      ensures !Closable(old(Snapshot()), r) ==> !out.Finished?
      ensures Snapshot() == Finish(old(Snapshot()), cfg, r, res, t)
      ensures r < |old(requests)| && old(requests)[r].status != Pending ==> out == Interrupted
      ensures Kept(old(Snapshot()), Snapshot(), cfg, t)
    {
      hide Kept, Total, Denial, HasPending, RecoverRows, FinishRule, Closable, Billed, BilledByUsage;
      ghost var s := Snapshot();
      FinishKeepsIfOk(s, cfg, r, res, t);
      FinishFollowsRule(s, cfg, r, res, t);
      now := t;
      if r >= |requests| {
        return Broken;
      }
      var rag := requests[r];
      if rag.status != Pending {
        return Interrupted;
      }
      if rag.conversation !in conversations {
        return Broken;
      }
      var conversation := conversations[rag.conversation];
      var user := UserMessage(messages, r);
      if user.None? {
        return Broken;
      }
      messages := messages[user.value := messages[user.value].(status := Completed)];
      var assistant := |messages|;
      messages := messages + [Message(rag.conversation, r, Assistant, res.answer, Completed, t.at)];
      conversation := conversation.(quotaUsed := conversation.quotaUsed + 1);
      conversation := conversation.(lastMessageAt := Some(t.at));
      rag := rag.(status := Completed, charged := true, model := res.model);
      var billed := Bill(rag, res);
      rag := rag.(cost := Some(billed));
      rag := rag.(endedAt := Some(t.at));
      var result := AnswerOut(assistant, rag.conversation, res.answer, res.grounded, res.citations,
                              QuotaOf(conversation), rag.httpId);
      // the session flushes the changed rows
      conversations := conversations[rag.conversation := conversation];
      requests := requests[r := rag];
      responses := responses[r := Response(Answered(result), res.grounded, Completed, t.at)];
      return Finished(result);
    }

    /** The bill of a finished request. */
    method Bill(rag: Request, res: Result) returns (billed: Money)
      ensures BilledByUsage(cfg, rag.cost, Some(billed), res)
      ensures billed == Billed(cfg, CostOf(rag), res.model, res.usage)
    {
      var reservation := if rag.cost.Some? then rag.cost.value else 0;
      var named := res.model.Some? && res.model.value != "";
      billed := if named then reservation else 0;
      if res.usage.Some? && named {
        var prompt, completion := res.usage.value.promptTokens, res.usage.value.completionTokens;
        if prompt.Some? && completion.Some? {
          billed := prompt.value * cfg.inputPrice + completion.value * cfg.outputPrice;
        }
      }
    }

    /** `_fail`. */
    method FailRequest(r: nat, code: Code, t: Instant)
      modifies this
      ensures FailRule(old(Snapshot()), Snapshot(), r, code, t)
      ensures Snapshot() == Fail(old(Snapshot()), r, code, t)
      ensures Kept(old(Snapshot()), Snapshot(), cfg, t)
    {
      hide Kept, Total, Denial, HasPending, RecoverRows, Billed, FailRule;
      ghost var s := Snapshot();
      FailKeepsIfOk(s, cfg, r, code, t);
      FailFollowsRule(s, r, code, t);
      now := t;
      if r >= |requests| || requests[r].status != Pending {
        return;
      }
      var rag := requests[r];
      rag := rag.(status := Failed);
      rag := rag.(error := Some(code));
      rag := rag.(endedAt := Some(t.at));
      requests := requests[r := rag];
      var message := UserMessage(messages, r);
      if message.Some? {
        messages := messages[message.value := messages[message.value].(status := Failed)];
      }
      responses := responses[r := Response(Refusal(code), false, Failed, t.at)];
    }

    /** `recover_pending`. */
    method RecoverPending(cutoff: int, held: set<nat>, t: Instant) returns (count: nat)
      modifies this
      ensures RecoverRule(old(Snapshot()), Snapshot(), cutoff, held, t)
      ensures count == |LostRows(old(Snapshot()), cutoff, held)|
      ensures Snapshot() == Recover(old(Snapshot()), cutoff, held, t)
      ensures Kept(old(Snapshot()), Snapshot(), cfg, t)
    {
      hide Kept, Total, RecoverRows, RecoverRow, RecoverRule, LostRows, Lost;
      ghost var s := Snapshot();
      RecoverKeepsIfOk(s, cfg, cutoff, held, t);
      RecoverFollowsRule(s, cutoff, held, t);
      now := t;
      var rows := StaleRows(requests, cutoff, held);
      count := 0;
      RecoverFirst(s, rows, t);
      while count < |rows|
        invariant count <= |rows| && |requests| == |s.requests| && now == t
        invariant Snapshot() == RecoverRows(s, rows[..count], t)
      {
        var r := rows[count];
        ghost var mid := RecoverRows(s, rows[..count], t);
        RecoverNext(s, rows, count, t);
        RecoverOne(r, t);
        assert Snapshot() == RecoverRow(mid, r, t);
        count := count + 1;
      }
      assert rows[..count] == rows;
    }

    /** One turn of the job's loop. */
    method RecoverOne(r: nat, t: Instant)
      requires r < |requests|
      modifies this
      ensures Snapshot() == RecoverRow(old(Snapshot()), r, t)
      ensures now == t && |requests| == |old(requests)|
    {
      now := t;
      var row := requests[r];
      row := row.(status := Failed);
      row := row.(error := Some(WorkerLost));
      row := row.(endedAt := Some(t.at));
      requests := requests[r := row];
      responses := responses[r := Response(Refusal(WorkerLost), false, Failed, t.at)];
      messages := FailEveryMessage(messages, r);
    }
  }

  lemma RecoverFirst(s: State, rows: seq<nat>, t: Instant)
    ensures RecoverRows(s, rows[..0], t) == s.(now := t)
  {
  }

  lemma RecoverNext(s: State, rows: seq<nat>, n: nat, t: Instant)
    requires n < |rows| && forall k :: 0 <= k < |rows| ==> rows[k] < |s.requests|
    ensures RecoverRows(s, rows[..n + 1], t) == RecoverRow(RecoverRows(s, rows[..n], t), rows[n], t)
  {
    assert rows[..n + 1][..n] == rows[..n];
  }

  lemma {:induction false} DenialIgnoresClock(s: State, cfg: Settings, c: nat, ip: string, t: Instant, n: nat)
    requires c in s.conversations && n <= CHECKS
    ensures Denial(s.(now := t), cfg, c, ip, t, n) == Denial(s, cfg, c, ip, t, n)
    decreases CHECKS - n
  {
    if n < CHECKS { DenialIgnoresClock(s, cfg, c, ip, t, n + 1); }
  }

  lemma UnfoldDenial(s: State, cfg: Settings, c: nat, ip: string, t: Instant)
    requires c in s.conversations
    ensures Denial(s, cfg, c, ip, t, 0)
         == if Check(s, cfg, c, ip, t, 0).Some? then (Check(s, cfg, c, ip, t, 0), false)
            else if Check(s, cfg, c, ip, t, 1).Some? then (Check(s, cfg, c, ip, t, 1), false)
            else if Check(s, cfg, c, ip, t, 2).Some? then (Check(s, cfg, c, ip, t, 2), true)
            else if Check(s, cfg, c, ip, t, 3).Some? then (Check(s, cfg, c, ip, t, 3), true)
            else if Check(s, cfg, c, ip, t, 4).Some? then (Check(s, cfg, c, ip, t, 4), true)
            else (Check(s, cfg, c, ip, t, 5), true)
  {
    assert Denial(s, cfg, c, ip, t, 6) == (None, false);
    assert Denial(s, cfg, c, ip, t, 5) == (Check(s, cfg, c, ip, t, 5), false);
    hide Check;
    assert Denial(s, cfg, c, ip, t, 3).0 == if Check(s, cfg, c, ip, t, 3).Some? then Check(s, cfg, c, ip, t, 3)
                                           else Denial(s, cfg, c, ip, t, 4).0;
    assert Denial(s, cfg, c, ip, t, 1).0 == if Check(s, cfg, c, ip, t, 1).Some? then Check(s, cfg, c, ip, t, 1)
                                           else Denial(s, cfg, c, ip, t, 2).0;
  }
}
