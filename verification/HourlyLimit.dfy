/** The hourly limit per address over whole runs of the interleaved system. */
module HourlyLimit {
  import opened Wrappers
  import opened Tables
  import opened Transitions
  import opened Protocol
  import opened Runs
  import opened RunBuilding
  import opened Budget

  function CountOf(buckets: map<Bucket, nat>, b: Bucket): nat {
    if b in buckets then buckets[b] else 0
  }

  /** What a session's passed limit check still says: its hit, not yet written, fits the limit. */
  ghost predicate HitKnown(s: State, cfg: Settings, x: Session) {
    && (x.hit.Some? ==> x.locked && x.hit.value.hour <= s.now.hour)
    && (x.stage > 2 ==>
          && x.hit.Some? && x.hit.value.kind == "rag" && x.hit.value.ip == x.ip
          && WithinLimit(s.buckets, x.hit.value, cfg.ipRate))
  }

  ghost predicate HitsKnown(w: World, cfg: Settings) {
    forall sid :: sid in w.sessions ==> HitKnown(w.tables, cfg, w.sessions[sid])
  }

  lemma {:induction false} RecoveryKeepsBuckets(s: State, rows: seq<nat>, t: Instant)
    requires forall k :: 0 <= k < |rows| ==> rows[k] < |s.requests|
    ensures RecoverRows(s, rows, t).buckets == s.buckets
  {
    if rows != [] { RecoveryKeepsBuckets(s, rows[..|rows| - 1], t); }
  }

  /** Counters change only when an admission commits. */
  lemma OnlyCommitsCount(w: World, cfg: Settings, a: Action, t: Instant)
    requires Enabled(w, a)
    ensures var before, after := w.tables.buckets, Next(w, cfg, a, t).tables.buckets;
            if a.Commit? && w.sessions[a.sid].hit.Some? then after == Hit(before, w.sessions[a.sid].hit.value)
            else after == before
  {
    hide RecoverRows;
    if a.Sweep? { RecoveryKeepsBuckets(w.tables, StaleRows(w.tables.requests, a.cutoff, a.held), t); }
  }

  lemma ClockMoves(w: World, cfg: Settings, a: Action, t: Instant)
    requires Enabled(w, a)
    ensures Next(w, cfg, a, t).tables.now == t
  {
    hide RecoverRows;
    if a.Sweep? { RecoveryTakesTime(w.tables, StaleRows(w.tables.requests, a.cutoff, a.held), t); }
  }

  lemma {:induction false} RecoveryTakesTime(s: State, rows: seq<nat>, t: Instant)
    requires forall k :: 0 <= k < |rows| ==> rows[k] < |s.requests|
    ensures RecoverRows(s, rows, t).now == t
  {
    if rows != [] { RecoveryTakesTime(s, rows[..|rows| - 1], t); }
  }

  lemma StepKeepsHits(w: World, cfg: Settings, a: Action, t: Instant)
    requires WorldOk(w, cfg) && HitsKnown(w, cfg) && Enabled(w, a) && Later(w.tables.now, t)
    ensures HitsKnown(Next(w, cfg, a, t), cfg)
  {
    hide Invariants.Inv, Known;
    var w' := Next(w, cfg, a, t);
    OnlyCommitsCount(w, cfg, a, t);
    ClockMoves(w, cfg, a, t);
    forall sid | sid in w'.sessions ensures HitKnown(w'.tables, cfg, w'.sessions[sid]) {
      assert sid in w.sessions ==>
               HitKnown(w.tables, cfg, w.sessions[sid]) && SessionOk(w.tables, cfg, w.sessions[sid]);
    }
  }

  lemma {:induction false} RunKeepsHits(run: Run, cfg: Settings, n: nat)
    requires IsRun(run, cfg) && n < |run.worlds|
    ensures HitsKnown(run.worlds[n], cfg)
  {
    if n > 0 {
      RunKeepsHits(run, cfg, n - 1);
      RunIsSafe(run, cfg, n - 1);
      assert StepOf(run, cfg, n - 1);
      hide WorldOk, HitsKnown, Next;
      StepKeepsHits(run.worlds[n - 1], cfg, run.actions[n - 1], run.times[n - 1]);
    }
  }

  // ----- accepted questions

  /** Step `i` accepts a question whose limit check counted in `b`. */
  predicate Accepts(run: Run, b: Bucket, i: nat)
    requires i < |run.actions| && i < |run.worlds|
  {
    var w, a := run.worlds[i], run.actions[i];
    a.Commit? && a.sid in w.sessions && w.sessions[a.sid].denial.None? && w.sessions[a.sid].hit == Some(b)
  }

  function AcceptedThrough(run: Run, b: Bucket, n: nat): nat
    requires n <= |run.actions| && n <= |run.worlds|
  {
    if n == 0 then 0 else AcceptedThrough(run, b, n - 1) + if Accepts(run, b, n - 1) then 1 else 0
  }

  lemma {:induction false} HourAdmitsAtMostTheLimit(run: Run, cfg: Settings, b: Bucket, n: nat)
    requires IsRun(run, cfg) && n < |run.worlds|
    ensures AcceptedThrough(run, b, n) <= CountOf(run.worlds[n].tables.buckets, b)
    ensures AcceptedThrough(run, b, n) <= cfg.ipRate
  {
    if n > 0 {
      var w, a := run.worlds[n - 1], run.actions[n - 1];
      HourAdmitsAtMostTheLimit(run, cfg, b, n - 1);
      RunKeepsHits(run, cfg, n - 1);
      RunIsSafe(run, cfg, n - 1);
      assert StepOf(run, cfg, n - 1);
      OnlyCommitsCount(w, cfg, a, run.times[n - 1]);
      assert a.Commit? ==> HitKnown(w.tables, cfg, w.sessions[a.sid]);
      hide WorldOk, Next, IsRun;
    }
  }

  // ----- accepted questions by the time their row was written

  /** Step `i` accepts a question from `ip` and stamps it in clock hour `h`. */
  predicate AcceptsAt(run: Run, ip: string, h: nat, i: nat)
    requires i < |run.actions| && i < |run.worlds| && i < |run.times|
  {
    var w, a := run.worlds[i], run.actions[i];
    && a.Commit? && a.sid in w.sessions && w.sessions[a.sid].denial.None? && w.sessions[a.sid].ip == ip
    && run.times[i].hour == h
  }

  function AcceptedAt(run: Run, ip: string, h: nat, n: nat): nat
    requires n <= |run.actions| && n <= |run.worlds| && n <= |run.times|
  {
    if n == 0 then 0 else AcceptedAt(run, ip, h, n - 1) + if AcceptsAt(run, ip, h, n - 1) then 1 else 0
  }

  /** No session has an unwritten hit from before hour `h`. */
  ghost predicate HitsFrom(w: World, h: nat) {
    && w.tables.now.hour >= h
    && forall sid :: sid in w.sessions && w.sessions[sid].hit.Some? ==> w.sessions[sid].hit.value.hour >= h
  }

  lemma HitsStayFrom(w: World, cfg: Settings, a: Action, t: Instant, h: nat)
    requires Enabled(w, a) && Later(w.tables.now, t) && HitsFrom(w, h)
    ensures HitsFrom(Next(w, cfg, a, t), h)
  {
    ClockMoves(w, cfg, a, t);
    hide Finish, Recover, Fail, Insert, Check;
  }

  /** After a commit nobody holds the advisory lock, so no hit is left over from an earlier hour. */
  lemma CommitClearsHits(w: World, cfg: Settings, sid: nat, t: Instant, h: nat)
    requires WorldOk(w, cfg) && HitsKnown(w, cfg) && Enabled(w, Commit(sid)) && t.hour >= h
    ensures HitsFrom(Next(w, cfg, Commit(sid), t), h)
  {
    hide Invariants.Inv, Known;
    forall o | o in w.sessions && o != sid ensures w.sessions[o].hit.None? {
      assert HitKnown(w.tables, cfg, w.sessions[o]);
    }
  }

  /** Once no earlier hit is left, a question stamped in the hour was counted in it. */
  lemma LateStep(w: World, cfg: Settings, a: Action, t: Instant, h: nat)
    requires WorldOk(w, cfg) && HitsKnown(w, cfg) && Enabled(w, a) && Later(w.tables.now, t)
    ensures HitsFrom(w, h) || (a.Commit? && t.hour == h) ==> HitsFrom(Next(w, cfg, a, t), h)
    ensures a.Commit? && w.sessions[a.sid].denial.None? && t.hour == h && HitsFrom(w, h) ==>
              w.sessions[a.sid].hit == Some(Bucket("rag", w.sessions[a.sid].ip, h))
  {
    if a.Commit? {
      assert HitKnown(w.tables, cfg, w.sessions[a.sid]) && SessionOk(w.tables, cfg, w.sessions[a.sid]);
      if t.hour == h { CommitClearsHits(w, cfg, a.sid, t, h); }
    }
    hide WorldOk, Next, HitsKnown;
    if HitsFrom(w, h) { HitsStayFrom(w, cfg, a, t, h); }
  }

  /** The questions stamped in an hour are those counted in it, but for at most one that passed its check
      before the hour began: the advisory lock is held from the check to the commit. */
  lemma {:induction false} AtMostOneLate(run: Run, cfg: Settings, ip: string, h: nat, n: nat)
    requires IsRun(run, cfg) && n < |run.worlds|
    ensures var late := AcceptedAt(run, ip, h, n) - AcceptedThrough(run, Bucket("rag", ip, h), n);
            late <= 0 || (late == 1 && HitsFrom(run.worlds[n], h))
  {
    if n > 0 {
      hide WorldOk, Next, Enabled, HitsFrom, HitsKnown;
      AtMostOneLate(run, cfg, ip, h, n - 1);
      RunKeepsHits(run, cfg, n - 1);
      RunIsSafe(run, cfg, n - 1);
      assert StepOf(run, cfg, n - 1);
      LateStep(run.worlds[n - 1], cfg, run.actions[n - 1], run.times[n - 1], h);
    }
  }

  /** In every run at most `ipRate + 1` accepted questions of an address are stamped in one clock hour. */
  lemma HourHoldsAtMostOneMore(run: Run, cfg: Settings, ip: string, h: nat, n: nat)
    requires IsRun(run, cfg) && n < |run.worlds|
    ensures AcceptedAt(run, ip, h, n) <= cfg.ipRate + 1
  {
    hide IsRun;
    assert |run.worlds| == |run.actions| + 1 == |run.times| + 1 by { RunLengths(run, cfg); }
    AtMostOneLate(run, cfg, ip, h, n);
    HourAdmitsAtMostTheLimit(run, cfg, Bucket("rag", ip, h), n);
  }

  lemma RunLengths(run: Run, cfg: Settings)
    requires IsRun(run, cfg)
    ensures |run.worlds| == |run.actions| + 1 == |run.times| + 1
  {
  }

  // ----- exactly when an hour keeps the limit

  /** Every accepted question is stamped in the hour its limit check counted in. */
  ghost predicate Timely(run: Run)
    requires |run.worlds| == |run.actions| + 1 == |run.times| + 1
  {
    forall i: nat, b: Bucket :: i < |run.actions| && Accepts(run, b, i) ==> b.hour == run.times[i].hour
  }

  /** As long as no hour begins between a check and its commit, every clock hour keeps the limit. */
  lemma {:induction false} TimelyHoursKeepTheLimit(run: Run, cfg: Settings, ip: string, h: nat, n: nat)
    requires IsRun(run, cfg) && Timely(run) && n < |run.worlds|
    ensures AcceptedAt(run, ip, h, n) <= AcceptedThrough(run, Bucket("rag", ip, h), n) <= cfg.ipRate
  {
    HourAdmitsAtMostTheLimit(run, cfg, Bucket("rag", ip, h), n);
    if n > 0 {
      hide WorldOk, Next;
      TimelyHoursKeepTheLimit(run, cfg, ip, h, n - 1);
      RunKeepsHits(run, cfg, n - 1);
      assert StepOf(run, cfg, n - 1);
      if AcceptsAt(run, ip, h, n - 1) {
        AcceptedHit(run.worlds[n - 1], cfg, run.actions[n - 1].sid);
        var hit := run.worlds[n - 1].sessions[run.actions[n - 1].sid].hit.value;
        assert Accepts(run, hit, n - 1);
      }
    }
  }

  lemma AcceptedHit(w: World, cfg: Settings, sid: nat)
    requires HitsKnown(w, cfg) && Enabled(w, Commit(sid)) && w.sessions[sid].denial.None?
    ensures var x := w.sessions[sid];
            x.hit.Some? && x.hit.value.kind == "rag" && x.hit.value.ip == x.ip && x.hit.value.hour <= w.tables.now.hour
  {
    assert HitKnown(w.tables, cfg, w.sessions[sid]);
  }

  /** Settings that admit nothing keep it trivially. */
  lemma {:induction false} ShutAcceptsNothing(run: Run, cfg: Settings, ip: string, h: nat, n: nat)
    requires IsRun(run, cfg) && !CanAdmit(cfg) && n < |run.worlds|
    ensures AcceptedAt(run, ip, h, n) == 0
  {
    if n > 0 {
      hide Next;
      ShutAcceptsNothing(run, cfg, ip, h, n - 1);
      RunStaysShut(run, cfg, n - 1);
      assert StepOf(run, cfg, n - 1);
    }
  }

  // ----- all other settings reach one more

  lemma {:induction false} StepCounts(run: Run, ip: string, h: nat, i: nat, n: nat)
    requires i < n <= |run.actions| && n <= |run.worlds| && n <= |run.times| && AcceptsAt(run, ip, h, i)
    ensures AcceptedAt(run, ip, h, n) >= AcceptedAt(run, ip, h, i) + 1
  {
    if i < n - 1 { StepCounts(run, ip, h, i, n - 1); }
  }

  lemma {:induction false} CountsGrow(run: Run, ip: string, h: nat, i: nat, n: nat)
    requires i <= n <= |run.actions| && n <= |run.worlds| && n <= |run.times|
    ensures AcceptedAt(run, ip, h, n) >= AcceptedAt(run, ip, h, i)
  {
    if i < n { CountsGrow(run, ip, h, i, n - 1); }
  }

  lemma SameStep(run: Run, longer: Run, i: nat)
    requires Prolongs(run, longer) && i < |run.actions| && i < |run.worlds| && i < |run.times|
    ensures i < |longer.actions| && i < |longer.worlds| && i < |longer.times|
    ensures longer.actions[i] == run.actions[i] && longer.worlds[i] == run.worlds[i] && longer.times[i] == run.times[i]
  {
    assert longer.actions[..|run.actions|][i] == run.actions[i];
    assert longer.worlds[..|run.worlds|][i] == run.worlds[i];
    assert longer.times[..|run.times|][i] == run.times[i];
  }

  lemma {:induction false} SameCounts(run: Run, longer: Run, ip: string, h: nat, n: nat)
    requires Prolongs(run, longer) && n <= |run.actions| && n <= |run.worlds| && n <= |run.times|
    ensures AcceptedAt(longer, ip, h, n) == AcceptedAt(run, ip, h, n)
  {
    if n > 0 {
      SameCounts(run, longer, ip, h, n - 1);
      SameStep(run, longer, n - 1);
    }
  }

  const NEW: Conversation := Conversation(QUOTA_LIMIT, 0, None)

  /** `k` questions have been asked, each in its own conversation, and all have failed. */
  ghost predicate Spent(s: State, k: nat) {
    && s.now.monthStart == 0
    && |s.requests| == k
    && (forall i :: 0 <= i < k ==> s.requests[i].status == Failed && s.requests[i].conversation < k)
    && (forall c :: c in s.conversations ==> c < k)
  }

  /** A question in a new conversation passes every check as long as its address has a hit left. */
  lemma FreshPasses(s: State, cfg: Settings, k: nat, h: nat)
    requires CanAdmit(cfg) && Spent(s.(conversations := s.conversations - {k}), k)
    requires k in s.conversations && s.conversations[k] == NEW
    requires CountOf(s.buckets, Bucket("rag", "ip", h)) < cfg.ipRate
    ensures Passes(s, cfg, k, "ip", h) && ByIdempotency(s.requests, k, "key").None?
  {
    hide Check, ByIdempotency, CountOf;
    forall n: nat, at: nat | n < CHECKS ensures Check(s, cfg, k, "ip", Instant(at, 0, h), n).None? {
      FreshCheck(s, cfg, k, h, n, at);
    }
    NoSuchKey(s.requests, k);
  }

  lemma FreshCheck(s: State, cfg: Settings, k: nat, h: nat, n: nat, at: nat)
    requires CanAdmit(cfg) && n < CHECKS && k in s.conversations && s.conversations[k] == NEW
    requires forall i :: 0 <= i < |s.requests| ==> s.requests[i].status == Failed && s.requests[i].conversation < k
    requires CountOf(s.buckets, Bucket("rag", "ip", h)) < cfg.ipRate
    ensures Check(s, cfg, k, "ip", Instant(at, 0, h), n).None?
  {
    hide Total;
    NothingCounts(s.requests, k, at - MINUTE);
  }

  lemma NoSuchKey(rs: seq<Request>, k: nat)
    requires forall i :: 0 <= i < |rs| ==> rs[i].conversation < k
    ensures ByIdempotency(rs, k, "key").None?
  {
    assert forall i :: 0 <= i < |rs| ==> rs[i].conversation != k;
  }

  lemma NothingCounts(rs: seq<Request>, k: nat, since: int)
    requires forall i :: 0 <= i < |rs| ==> rs[i].status == Failed && rs[i].conversation < k
    ensures Total(rs, InMonth(0)) == 0 && Total(rs, CostInMonth(0)) == 0 && Total(rs, InWindow(k, since)) == 0
  {
    TotalPrefix(rs, 0, InMonth(0));
    TotalPrefix(rs, 0, CostInMonth(0));
    TotalPrefix(rs, 0, InWindow(k, since));
    assert rs[..0] == [];
  }

  /** One more question of the address: checked in hour `h`, stamped in hour 1, then failed. */
  lemma OneRound(run: Run, cfg: Settings, k: nat, h: nat) returns (longer: Run)
    requires CanAdmit(cfg) && IsRun(run, cfg) && |run.worlds| == |run.actions| + 1 == |run.times| + 1
    requires Last(run).sessions == map[] && Spent(Last(run).tables, k) && Last(run).tables.now.hour <= h <= 1
    requires CountOf(Last(run).tables.buckets, Bucket("rag", "ip", h)) < cfg.ipRate
    ensures IsRun(longer, cfg) && |longer.worlds| == |longer.actions| + 1 == |longer.times| + 1
    ensures Last(longer).sessions == map[] && Spent(Last(longer).tables, k + 1) && Last(longer).tables.now.hour == 1
    ensures Last(longer).tables.buckets == Hit(Last(run).tables.buckets, Bucket("rag", "ip", h))
    ensures AcceptedAt(longer, "ip", 1, |longer.actions|) >= AcceptedAt(run, "ip", 1, |run.actions|) + 1
  {
    var now := Last(run).tables.now;
    var issued := Extend(run, cfg, Issue(k), now.(at := now.at + 1));
    hide IsRun, Prolongs;
    assert Last(issued).tables.conversations - {k} == Last(run).tables.conversations;
    FreshPasses(Last(issued).tables, cfg, k, h);
    var asked := AdmitAt(issued, cfg, k, "key", "ip", h, 1);
    var stamped := Last(asked).tables.now;
    longer := Extend(asked, cfg, Break(k, ProviderUnavailable), stamped.(at := stamped.at + 1));
    RoundSpends(Last(run).tables, Last(issued).tables, Last(asked).tables, cfg, k, h, stamped.(at := stamped.at + 1));
    RoundCounts(run, issued, asked, longer, cfg);
  }

  lemma RoundSpends(s: State, issued: State, asked: State, cfg: Settings, k: nat, h: nat, t: Instant)
    requires Spent(s, k) && issued == IssueRow(s, k, issued.now) && t.monthStart == 0
    requires asked == Insert(issued, cfg, k, "key", "question", 0, None, Some(Bucket("rag", "ip", h)), asked.now)
    ensures var after := Fail(asked, k, ProviderUnavailable, t);
            Spent(after, k + 1) && after.now == t && after.buckets == Hit(s.buckets, Bucket("rag", "ip", h))
  {
    hide FailUserMessage, Hit;
  }

  lemma RoundCounts(run: Run, issued: Run, asked: Run, longer: Run, cfg: Settings)
    requires |run.worlds| == |run.actions| + 1 == |run.times| + 1
    requires IsRun(asked, cfg) && IsRun(longer, cfg)
    requires Prolongs(run, issued) && Prolongs(issued, asked) && Prolongs(asked, longer)
    requires |run.actions| < |asked.actions| && |asked.worlds| >= 2
    requires var w, a := asked.worlds[|asked.worlds| - 2], asked.actions[|asked.actions| - 1];
             a == Commit(0) && 0 in w.sessions && w.sessions[0].denial.None? && w.sessions[0].ip == "ip"
    requires |asked.times| > 0 && asked.times[|asked.times| - 1].hour == 1
    ensures |longer.worlds| == |longer.actions| + 1 == |longer.times| + 1
    ensures AcceptedAt(longer, "ip", 1, |longer.actions|) >= AcceptedAt(run, "ip", 1, |run.actions|) + 1
  {
    RunLengths(asked, cfg);
    RunLengths(longer, cfg);
    hide IsRun;
    ProlongsOn(run, issued, asked);
    var n := |asked.actions|;
    assert AcceptsAt(asked, "ip", 1, n - 1);
    SameCounts(run, asked, "ip", 1, |run.actions|);
    CountsGrow(asked, "ip", 1, |run.actions|, n - 1);
    StepCounts(asked, "ip", 1, n - 1, n);
    SameCounts(asked, longer, "ip", 1, n);
    CountsGrow(longer, "ip", 1, n, |longer.actions|);
  }

  /** After `k` rounds, the first of them checked in hour 0. */
  ghost predicate Rounds(run: Run, cfg: Settings, k: nat) {
    && IsRun(run, cfg) && |run.worlds| == |run.actions| + 1 == |run.times| + 1
    && Last(run).sessions == map[] && Spent(Last(run).tables, k)
    && Last(run).tables.now.hour == (if k == 0 then 0 else 1)
    && CountOf(Last(run).tables.buckets, Bucket("rag", "ip", 0)) == (if k == 0 then 0 else 1)
    && CountOf(Last(run).tables.buckets, Bucket("rag", "ip", 1)) == (if k == 0 then 0 else k - 1)
    && AcceptedAt(run, "ip", 1, |run.actions|) >= k
  }

  lemma {:induction false} KeepAsking(cfg: Settings, k: nat) returns (run: Run)
    requires CanAdmit(cfg) && k <= cfg.ipRate + 1
    ensures Rounds(run, cfg, k)
  {
    if k == 0 {
      run := Begin(cfg);
    } else {
      var before := KeepAsking(cfg, k - 1);
      hide IsRun, Spent, AcceptedAt;
      run := OneRound(before, cfg, k - 1, if k == 1 then 0 else 1);
    }
  }

  /** Whenever anything can be admitted, some run stamps one accepted question of an address more than the
      limit in a clock hour: the first passes its check just before the hour, all others in it. */
  lemma OneMoreHappens(cfg: Settings) returns (run: Run)
    requires CanAdmit(cfg)
    ensures IsRun(run, cfg) && |run.worlds| == |run.actions| + 1 == |run.times| + 1
    ensures AcceptedAt(run, "ip", 1, |run.actions|) == cfg.ipRate + 1
  {
    run := KeepAsking(cfg, cfg.ipRate + 1);
    HourHoldsAtMostOneMore(run, cfg, "ip", 1, |run.actions|);
  }

  ghost predicate HoursKeepTheLimit(cfg: Settings) {
    forall run: Run, ip: string, h: nat, n: nat :: IsRun(run, cfg) && n < |run.worlds| ==>
      AcceptedAt(run, ip, h, n) <= cfg.ipRate
  }

  /** The exact condition on the settings: only those that admit nothing keep every clock hour within the
      limit by row stamp. */
  lemma HoursKeepTheLimitExactly(cfg: Settings)
    ensures HoursKeepTheLimit(cfg) <==> !CanAdmit(cfg)
  {
    if CanAdmit(cfg) {
      var run := OneMoreHappens(cfg);
      assert AcceptedAt(run, "ip", 1, |run.actions|) > cfg.ipRate;
    } else {
      forall run: Run, ip: string, h: nat, n: nat | IsRun(run, cfg) && n < |run.worlds|
        ensures AcceptedAt(run, ip, h, n) <= cfg.ipRate
      {
        ShutAcceptsNothing(run, cfg, ip, h, n);
      }
    }
  }
}
