/** Building runs step by step, to show what some run really reaches. */
module RunBuilding {
  import opened Wrappers
  import opened Tables
  import opened Transitions
  import opened Protocol
  import opened Runs

  function Last(run: Run): World
    requires run.worlds != []
  {
    run.worlds[|run.worlds| - 1]
  }

  /** The longer run does first what the shorter one did. */
  predicate Prolongs(run: Run, longer: Run) {
    && |run.worlds| <= |longer.worlds| && longer.worlds[..|run.worlds|] == run.worlds
    && |run.actions| <= |longer.actions| && longer.actions[..|run.actions|] == run.actions
    && |run.times| <= |longer.times| && longer.times[..|run.times|] == run.times
  }

  predicate NothingCompleted(run: Run) {
    forall i :: 0 <= i < |run.actions| ==> !run.actions[i].Complete?
  }

  /** The run of no steps. */
  lemma Begin(cfg: Settings) returns (run: Run)
    ensures IsRun(run, cfg) && run.worlds != [] && NothingCompleted(run)
    ensures Last(run) == World(State(map[], [], map[], [], map[], Instant(0, 0, 0)), map[])
  {
    run := Run([World(State(map[], [], map[], [], map[], Instant(0, 0, 0)), map[])], [], []);
  }

  /** One more step at the end of a run. */
  lemma Extend(run: Run, cfg: Settings, a: Action, t: Instant) returns (longer: Run)
    requires IsRun(run, cfg) && Enabled(Last(run), a) && Later(Last(run).tables.now, t)
    ensures IsRun(longer, cfg) && longer.worlds != [] && Last(longer) == Next(Last(run), cfg, a, t)
    ensures Prolongs(run, longer) && longer.actions == run.actions + [a] && longer.times == run.times + [t]
    ensures |longer.worlds| == |run.worlds| + 1 == |longer.actions| + 1
    ensures NothingCompleted(run) && !a.Complete? ==> NothingCompleted(longer)
  {
    hide Next, Enabled;
    longer := Run(run.worlds + [Next(Last(run), cfg, a, t)], run.actions + [a], run.times + [t]);
    forall i: nat | i < |longer.actions| ensures StepOf(longer, cfg, i) {
      if i < |run.actions| { assert StepOf(run, cfg, i); }
    }
  }

  lemma ProlongsOn(a: Run, b: Run, c: Run)
    requires Prolongs(a, b) && Prolongs(b, c)
    ensures Prolongs(a, c)
  {
    assert c.worlds[..|a.worlds|] == c.worlds[..|b.worlds|][..|a.worlds|];
    assert c.actions[..|a.actions|] == c.actions[..|b.actions|][..|a.actions|];
    assert c.times[..|a.times|] == c.times[..|b.times|][..|a.times|];
  }

  /** Every check passes on `s`, read at any moment of clock hour `h` in the first month. */
  ghost predicate Passes(s: State, cfg: Settings, c: nat, ip: string, h: nat) {
    c in s.conversations && forall n: nat, at: nat :: n < CHECKS ==> Check(s, cfg, c, ip, Instant(at, 0, h), n).None?
  }

  /** A session alone in the system that has passed `n` checks in hour `h`. */
  ghost predicate Probing(w: World, s: State, c: nat, key: string, ip: string, h: nat, n: nat) {
    && w.tables == s.(now := Instant(w.tables.now.at, 0, h))
    && w.sessions.Keys == {0}
    && var hit := if n > 2 then Some(Bucket("rag", ip, h)) else None;
       w.sessions[0] == Session(c, key, "question", 0, ip, true, n, None, hit)
  }

  lemma {:induction false} KeepProbing(run: Run, cfg: Settings, s: State, c: nat, key: string, ip: string, h: nat,
                                       n: nat)
    returns (longer: Run)
    requires IsRun(run, cfg) && n <= CHECKS && Probing(Last(run), s, c, key, ip, h, n) && Passes(s, cfg, c, ip, h)
    ensures IsRun(longer, cfg) && longer.worlds != [] && Probing(Last(longer), s, c, key, ip, h, CHECKS)
    ensures Prolongs(run, longer) && (NothingCompleted(run) ==> NothingCompleted(longer))
    decreases CHECKS - n
  {
    longer := run;
    if n < CHECKS {
      var w := Last(run);
      var t := Instant(w.tables.now.at + 1, 0, h);
      OneProbe(w, cfg, s, c, key, ip, h, n, t);
      hide IsRun, Check, Probing, Passes, Prolongs, Next;
      var one := Extend(run, cfg, Probe(0), t);
      longer := KeepProbing(one, cfg, s, c, key, ip, h, n + 1);
      ProlongsOn(run, one, longer);
    }
  }

  lemma OneProbe(w: World, cfg: Settings, s: State, c: nat, key: string, ip: string, h: nat, n: nat, t: Instant)
    requires n < CHECKS && Probing(w, s, c, key, ip, h, n) && Passes(s, cfg, c, ip, h)
    requires t == Instant(w.tables.now.at + 1, 0, h)
    ensures Enabled(w, Probe(0)) && Later(w.tables.now, t)
    ensures Probing(Next(w, cfg, Probe(0), t), s, c, key, ip, h, n + 1)
  {
    assert Check(s, cfg, c, ip, t, n).None?;
    assert Check(w.tables, cfg, c, ip, t, n) == Check(s, cfg, c, ip, t, n);
  }

  /** One question admitted by a session alone in the system: its checks run in hour `h`, its row is written
      in hour `later`. */
  lemma AdmitAt(run: Run, cfg: Settings, c: nat, key: string, ip: string, h: nat, later: nat) returns (longer: Run)
    requires IsRun(run, cfg) && Last(run).sessions == map[] && h <= later
    requires var s := Last(run).tables;
             && s.now.monthStart == 0 && s.now.hour <= h
             && ByIdempotency(s.requests, c, key).None? && Passes(s, cfg, c, ip, h)
    ensures IsRun(longer, cfg) && |longer.worlds| >= 2 && Last(longer).sessions == map[]
    ensures var t := Last(longer).tables.now;
            && t.monthStart == 0 && t.hour == later
            && Last(longer).tables
               == Insert(Last(run).tables, cfg, c, key, "question", 0, None, Some(Bucket("rag", ip, h)), t)
    ensures Prolongs(run, longer) && (NothingCompleted(run) ==> NothingCompleted(longer))
    ensures longer.actions[|longer.actions| - 1] == Commit(0) && |longer.actions| > |run.actions|
    ensures var before := longer.worlds[|longer.worlds| - 2];
            && 0 in before.sessions
            && before.sessions[0] == Session(c, key, "question", 0, ip, true, CHECKS, None, Some(Bucket("rag", ip, h)))
    ensures longer.times[|longer.times| - 1].hour == later
  {
    var s := Last(run).tables;
    var at := s.now.at;
    var one := Extend(run, cfg, Enter(0, c, key, "question", 0, ip), Instant(at + 1, 0, h));
    var two := Extend(one, cfg, Lock(0), Instant(at + 2, 0, h));
    hide IsRun, Passes, Prolongs;
    assert Probing(Last(two), s, c, key, ip, h, 0);
    ProlongsOn(run, one, two);
    var three := KeepProbing(two, cfg, s, c, key, ip, h, 0);
    ProlongsOn(run, two, three);
    longer := Extend(three, cfg, Commit(0), Instant(Last(three).tables.now.at + 1, 0, later));
    ProlongsOn(run, three, longer);
    PenultimateIsLast(three, longer);
  }

  lemma PenultimateIsLast(run: Run, longer: Run)
    requires Prolongs(run, longer) && |longer.worlds| == |run.worlds| + 1 && run.worlds != []
    ensures longer.worlds[|longer.worlds| - 2] == Last(run)
  {
    assert longer.worlds[..|run.worlds|][|run.worlds| - 1] == Last(run);
  }
}
