/** The question lifecycle under concurrency. Admission runs in separate micro-steps (lock the
    conversation, take the global advisory lock, one check at a time, insert and commit) that interleave
    with other admissions, finishes, failures and recovery sweeps in any order. */
module Protocol {
  import opened Wrappers
  import opened Tables
  import opened Transitions
  import opened Threads
  import opened Invariants
  import opened Preservation
  import opened Evolution

  /** An admission in progress. It holds its conversation's row lock; `locked` says whether it also holds
      the advisory lock; `stage` counts the checks it has passed on what it read at the time. */
  datatype Session = Session(
    conversation: nat, key: string, question: string, httpId: nat, ip: string,
    locked: bool, stage: nat, denial: Option<Code>, hit: Option<Bucket>)

  datatype World = World(tables: State, sessions: map<nat, Session>)

  datatype Action =
    | Issue(c: nat)
    | Enter(sid: nat, conversation: nat, key: string, question: string, httpId: nat, ip: string)
    | Lock(sid: nat)
    | Probe(sid: nat)
    | Commit(sid: nat)
    | Abort(sid: nat)
    | Complete(r: nat, res: Result)
    | Break(r: nat, code: Code)
    | Sweep(cutoff: int, held: set<nat>)

  /** Whether some admission holds the conversation's row lock. */
  predicate Held(w: World, c: nat) {
    exists sid :: sid in w.sessions && w.sessions[sid].conversation == c
  }

  /** Whether the locks the step needs are free. */
  predicate Enabled(w: World, a: Action) {
    match a
    case Issue(c) => c !in w.tables.conversations
    case Enter(sid, c, _, _, _, _) => sid !in w.sessions && !Held(w, c)
    case Lock(sid) => sid in w.sessions && !w.sessions[sid].locked
                      && forall o :: o in w.sessions ==> !w.sessions[o].locked
    case Probe(sid) => sid in w.sessions && w.sessions[sid].locked
                       && w.sessions[sid].denial.None? && w.sessions[sid].stage < CHECKS
                       && w.sessions[sid].conversation in w.tables.conversations
    case Commit(sid) => sid in w.sessions && w.sessions[sid].locked
                        && (w.sessions[sid].denial.Some? || w.sessions[sid].stage >= CHECKS)
    case Abort(sid) => sid in w.sessions
    case Complete(r, _) => r < |w.tables.requests| && w.tables.requests[r].status == Pending ==>
                             !Held(w, w.tables.requests[r].conversation)
    case Break(_, _) => true
    case Sweep(_, _) => true
  }

  const QUOTA_LIMIT: int := 100

  function IssueRow(s: State, c: nat, t: Instant): State {
    s.(conversations := s.conversations[c := Conversation(QUOTA_LIMIT, 0, None)], now := t)
  }

  /** The session after its next check, read from the tables as they are now. */
  function Learn(s: State, cfg: Settings, x: Session, t: Instant): Session
    requires x.stage < CHECKS && x.conversation in s.conversations
  {
    var bucket := Bucket("rag", x.ip, t.hour);
    var y := if x.stage == 2 then x.(hit := Some(bucket)) else x;
    var denied := Check(s, cfg, x.conversation, x.ip, t, x.stage);
    if denied.Some? then y.(denial := denied) else y.(stage := x.stage + 1)
  }

  function Next(w: World, cfg: Settings, a: Action, t: Instant): World
    requires Enabled(w, a)
  {
    var s := w.tables;
    match a
    case Issue(c) => w.(tables := IssueRow(s, c, t))
    case Enter(sid, c, key, question, httpId, ip) =>
      if c !in s.conversations || ByIdempotency(s.requests, c, key).Some? then w.(tables := s.(now := t))
      else World(s.(now := t), w.sessions[sid := Session(c, key, question, httpId, ip, false, 0, None, None)])
    case Lock(sid) => World(s.(now := t), w.sessions[sid := w.sessions[sid].(locked := true)])
    case Probe(sid) => World(s.(now := t), w.sessions[sid := Learn(s, cfg, w.sessions[sid], t)])
    case Commit(sid) =>
      var x := w.sessions[sid];
      World(Insert(s, cfg, x.conversation, x.key, x.question, x.httpId, x.denial, x.hit, t), w.sessions - {sid})
    case Abort(sid) => World(s.(now := t), w.sessions - {sid})
    case Complete(r, res) => w.(tables := Finish(s, cfg, r, res, t))
    case Break(r, code) => w.(tables := Fail(s, r, code, t))
    case Sweep(cutoff, held) => w.(tables := Recover(s, cutoff, held, t))
  }

  // ----- the invariant of the interleaved system

  /** What a session's passed checks still say about the tables, however stale the reads. */
  ghost predicate Known(s: State, cfg: Settings, x: Session)
    requires x.conversation in s.conversations
  {
    && (x.stage > 0 ==> s.conversations[x.conversation].quotaUsed < s.conversations[x.conversation].quotaLimit)
    && (x.stage > 1 ==> !HasPending(s.requests, x.conversation))
    && (x.stage > 3 ==> MonthlyCount(s.requests, s.now.monthStart) < cfg.monthlyRequests)
    && (x.stage > 4 && cfg.monthlyBudget > 0 ==>
          Total(s.requests, CappedInMonth(s.now.monthStart, cfg.maxRequestCost)) + cfg.maxRequestCost
          <= cfg.monthlyBudget)
    && (x.stage > 5 ==> TokenCount(s.requests, x.conversation, s.now.at - MINUTE) < cfg.tokenRate)
  }

  ghost predicate SessionOk(s: State, cfg: Settings, x: Session) {
    && x.conversation in s.conversations
    && ByIdempotency(s.requests, x.conversation, x.key).None?
    && x.stage <= CHECKS
    && (!x.locked ==> x.stage == 0 && x.denial.None?)
    && Known(s, cfg, x)
  }

  ghost predicate SessionsOk(w: World, cfg: Settings) {
    && (forall sid :: sid in w.sessions ==> SessionOk(w.tables, cfg, w.sessions[sid]))
    && (forall i, j :: i in w.sessions && j in w.sessions && i != j ==>
          && w.sessions[i].conversation != w.sessions[j].conversation
          && !(w.sessions[i].locked && w.sessions[j].locked))
  }

  ghost predicate WorldOk(w: World, cfg: Settings) {
    Inv(w.tables, cfg) && SessionsOk(w, cfg)
  }

  // ----- one step

  lemma IssueKeeps(s: State, cfg: Settings, c: nat, t: Instant)
    requires Inv(s, cfg) && Later(s.now, t) && c !in s.conversations
    ensures Inv(IssueRow(s, c, t), cfg) && Extends(s, IssueRow(s, c, t))
  {
    TickKeeps(s, cfg, t);
    TickExtends(s, t);
    var mid := s.(now := t);
    IssueInto(mid, cfg, c);
    hide Inv;
    ExtendsTransitive(s, mid, IssueRow(mid, c, t));
  }

  lemma IssueInto(s: State, cfg: Settings, c: nat)
    requires Inv(s, cfg) && c !in s.conversations
    ensures Inv(IssueRow(s, c, s.now), cfg) && Extends(s, IssueRow(s, c, s.now))
  {
    hide RowsOk, KeysUnique, MessagesOk, ThreadsOk, RateOk, Extends;
    IssueKeepsRows(s, cfg, c);
    IssueKeepsThreads(s, cfg, c);
    IssueExtends(s, cfg, c);
  }

  lemma IssueKeepsRows(s: State, cfg: Settings, c: nat)
    requires RowsOk(s, cfg) && MessagesOk(s) && c !in s.conversations
    ensures var s' := IssueRow(s, c, s.now); RowsOk(s', cfg) && MessagesOk(s')
  {
    var s' := IssueRow(s, c, s.now);
    forall i: nat | i < |s.requests| ensures RowOk(s', cfg, i) { assert RowOk(s, cfg, i); }
    forall k | 0 <= k < |s.messages| ensures MessageOk(s', s.messages[k]) { assert MessageOk(s, s.messages[k]); }
  }

  lemma IssueKeepsThreads(s: State, cfg: Settings, c: nat)
    requires RowsOk(s, cfg) && MessagesOk(s) && ThreadsOk(s) && c !in s.conversations
    ensures ThreadsOk(IssueRow(s, c, s.now))
  {
    hide RowsOk, MessagesOk;
    var s' := IssueRow(s, c, s.now);
    NewConversationIsEmpty(s, cfg, c);
    assert ThreadOk(s', c);
    forall d | d in s.conversations ensures ThreadOk(s', d) {
      assert ThreadOk(s, d);
      hide ThreadOk;
      ThreadFrame(s, s', d);
    }
  }

  lemma IssueExtends(s: State, cfg: Settings, c: nat)
    requires c !in s.conversations
    ensures Extends(s, IssueRow(s, c, s.now))
  {
    var s' := IssueRow(s, c, s.now);
    forall d | d in s.conversations ensures ConversationExtends(s, s', d) {
      assert History(s, d) == History(s', d);
    }
  }

  lemma NewConversationIsEmpty(s: State, cfg: Settings, c: nat)
    requires RowsOk(s, cfg) && MessagesOk(s) && c !in s.conversations
    ensures Thread(s.messages, c) == [] && Total(s.requests, Charged(c)) == 0
  {
    forall i: nat | i < |s.requests| ensures s.requests[i].conversation != c { assert RowOk(s, cfg, i); }
    forall k | 0 <= k < |s.messages| ensures s.messages[k].conversation != c { assert MessageOk(s, s.messages[k]); }
    NoMessagesNoThread(s.messages, c);
    TotalPrefix(s.requests, 0, Charged(c));
  }

  lemma {:induction false} NoMessagesNoThread(ms: seq<Message>, c: nat)
    requires forall k :: 0 <= k < |ms| ==> ms[k].conversation != c
    ensures Thread(ms, c) == []
  {
    if ms != [] { NoMessagesNoThread(ms[..|ms| - 1], c); }
  }

  /** While no row is added, a session's knowledge survives every change but one to its own quota. */
  lemma SessionStays(s: State, s': State, cfg: Settings, x: Session)
    requires RowsOk(s, cfg) && Extends(s, s') && |s'.requests| == |s.requests| && SessionOk(s, cfg, x)
    requires x.conversation in s'.conversations && s'.conversations[x.conversation] == s.conversations[x.conversation]
    ensures SessionOk(s', cfg, x)
  {
    CountersShrink(s, s', cfg, x.conversation);
    assert forall i :: 0 <= i < |s.requests| ==> RowStep(s.requests[i], s'.requests[i]);
    hide Extends, RowsOk, TokenCount, MonthlyCount, Total, HasPending;
  }

  lemma SessionsStay(w: World, s': State, cfg: Settings)
    requires WorldOk(w, cfg) && Extends(w.tables, s') && |s'.requests| == |w.tables.requests|
    requires forall sid :: sid in w.sessions ==>
               && w.sessions[sid].conversation in s'.conversations
               && s'.conversations[w.sessions[sid].conversation] == w.tables.conversations[w.sessions[sid].conversation]
    ensures SessionsOk(w.(tables := s'), cfg)
  {
    forall sid | sid in w.sessions ensures SessionOk(s', cfg, w.sessions[sid]) {
      SessionStays(w.tables, s', cfg, w.sessions[sid]);
    }
  }

  /** A passed check is knowledge. */
  lemma LearnIsSound(s: State, cfg: Settings, x: Session, t: Instant)
    requires Inv(s, cfg) && Later(s.now, t) && SessionOk(s, cfg, x) && x.locked
    requires x.denial.None? && x.stage < CHECKS
    ensures SessionOk(s.(now := t), cfg, Learn(s, cfg, x, t))
  {
    TickExtends(s, t);
    SessionStays(s, s.(now := t), cfg, x);
    hide SessionOk, Extends, Learn;
    CappedIsAtMostCost(s, cfg, t.monthStart);
    LearnNext(s, cfg, x, t);
  }

  lemma CappedIsAtMostCost(s: State, cfg: Settings, since: nat)
    requires RowsOk(s, cfg)
    ensures Total(s.requests, CappedInMonth(since, cfg.maxRequestCost)) <= MonthlyCost(s.requests, since)
  {
    forall i | 0 <= i < |s.requests| ensures CostOf(s.requests[i]) >= 0 { assert RowOk(s, cfg, i); }
    TotalMonotone(s.requests, CappedInMonth(since, cfg.maxRequestCost), CostInMonth(since));
  }

  lemma LearnNext(s: State, cfg: Settings, x: Session, t: Instant)
    requires x.locked && x.denial.None? && x.stage < CHECKS
    requires x.conversation in s.conversations && SessionOk(s.(now := t), cfg, x)
    requires Total(s.requests, CappedInMonth(t.monthStart, cfg.maxRequestCost)) <= MonthlyCost(s.requests, t.monthStart)
    ensures SessionOk(s.(now := t), cfg, Learn(s, cfg, x, t))
  {
    hide Total;
  }

  /** A session that passed every check may insert, although its reads are old. */
  lemma StaleReadsSuffice(s: State, cfg: Settings, x: Session, t: Instant)
    requires Inv(s, cfg) && Later(s.now, t) && SessionOk(s, cfg, x) && x.stage >= CHECKS
    ensures MayAdmit(s, cfg, x.conversation, t)
  {
    TickExtends(s, t);
    SessionStays(s, s.(now := t), cfg, x);
  }

  /** Another admission's commit cannot disturb a session that is still waiting for the advisory lock. */
  lemma WaitingStays(s: State, cfg: Settings, x: Session, y: Session, t: Instant)
    requires Inv(s, cfg) && SessionOk(s, cfg, x) && !x.locked && x.conversation != y.conversation
    ensures SessionOk(Insert(s, cfg, y.conversation, y.key, y.question, y.httpId, y.denial, y.hit, t), cfg, x)
  {
    var s' := Insert(s, cfg, y.conversation, y.key, y.question, y.httpId, y.denial, y.hit, t);
    assert s'.requests[..|s.requests|] == s.requests;
  }

  lemma CommitKeeps(w: World, cfg: Settings, sid: nat, t: Instant)
    requires WorldOk(w, cfg) && Enabled(w, Commit(sid)) && Later(w.tables.now, t)
    ensures WorldOk(Next(w, cfg, Commit(sid), t), cfg)
    ensures Extends(w.tables, Next(w, cfg, Commit(sid), t).tables)
  {
    var s, x := w.tables, w.sessions[sid];
    var w' := Next(w, cfg, Commit(sid), t);
    if x.denial.None? { StaleReadsSuffice(s, cfg, x, t); }
    InsertKeeps(s, cfg, x.conversation, x.key, x.question, x.httpId, x.denial, x.hit, t);
    InsertExtends(s, cfg, x.conversation, x.key, x.question, x.httpId, x.denial, x.hit, t);
    forall o | o in w'.sessions ensures SessionOk(w'.tables, cfg, w'.sessions[o]) {
      WaitingStays(s, cfg, w.sessions[o], x, t);
    }
  }

  /** Time passing does not disturb a session; nor does a change that only rewrites rows. */
  lemma QuietKeeps(w: World, cfg: Settings, a: Action, t: Instant)
    requires WorldOk(w, cfg) && Enabled(w, a) && Later(w.tables.now, t)
    requires a.Enter? || a.Lock? || a.Probe? || a.Abort?
    ensures WorldOk(Next(w, cfg, a, t), cfg)
    ensures Extends(w.tables, Next(w, cfg, a, t).tables)
  {
    var s := w.tables;
    TickKeeps(s, cfg, t);
    TickExtends(s, t);
    SessionsStay(w, s.(now := t), cfg);
    if a.Probe? { LearnIsSound(s, cfg, w.sessions[a.sid], t); }
    QuietSessions(w.(tables := s.(now := t)), w, cfg, a, t);
  }

  lemma QuietSessions(v: World, w: World, cfg: Settings, a: Action, t: Instant)
    requires v == w.(tables := w.tables.(now := t)) && SessionsOk(v, cfg) && Enabled(w, a)
    requires a.Enter? || a.Lock? || a.Probe? || a.Abort?
    requires a.Probe? ==> SessionOk(v.tables, cfg, Learn(w.tables, cfg, w.sessions[a.sid], t))
    ensures Next(w, cfg, a, t).tables == v.tables && SessionsOk(Next(w, cfg, a, t), cfg)
  {
    match a {
      case Enter(sid, c, key, question, httpId, ip) =>
        var s := w.tables;
        if c in s.conversations && ByIdempotency(s.requests, c, key).None? {
          hide Learn;
          PutSession(v, cfg, sid, Session(c, key, question, httpId, ip, false, 0, None, None));
        }
      case Lock(sid) =>
        hide Known, Learn;
        LockedSession(v.tables, cfg, w.sessions[sid]);
        PutSession(v, cfg, sid, w.sessions[sid].(locked := true));
      case Probe(sid) =>
        hide SessionOk;
        PutSession(v, cfg, sid, Learn(w.tables, cfg, w.sessions[sid], t));
      case Abort(sid) =>
        hide SessionOk;
    }
  }

  lemma LockedSession(s: State, cfg: Settings, x: Session)
    requires SessionOk(s, cfg, x)
    ensures SessionOk(s, cfg, x.(locked := true))
  {
  }

  lemma PutSession(v: World, cfg: Settings, sid: nat, y: Session)
    requires SessionsOk(v, cfg) && SessionOk(v.tables, cfg, y)
    requires forall o :: o in v.sessions && o != sid ==>
               v.sessions[o].conversation != y.conversation && !(v.sessions[o].locked && y.locked)
    ensures SessionsOk(v.(sessions := v.sessions[sid := y]), cfg)
  {
    hide SessionOk;
  }

  lemma ClosingKeeps(w: World, cfg: Settings, a: Action, t: Instant)
    requires WorldOk(w, cfg) && Enabled(w, a) && Later(w.tables.now, t)
    requires a.Complete? || a.Break? || a.Sweep? || a.Issue?
    ensures WorldOk(Next(w, cfg, a, t), cfg)
    ensures Extends(w.tables, Next(w, cfg, a, t).tables)
  {
    hide Inv, Extends, SessionsOk, Next, Enabled;
    ClosingTables(w.tables, cfg, w, a, t);
    ClosingSparesSessions(w, cfg, a, t);
    SessionsStay(w, Next(w, cfg, a, t).tables, cfg);
    ClosingLeavesSessions(w, cfg, a, t);
  }

  lemma ClosingLeavesSessions(w: World, cfg: Settings, a: Action, t: Instant)
    requires Enabled(w, a) && (a.Complete? || a.Break? || a.Sweep? || a.Issue?)
    ensures Next(w, cfg, a, t).sessions == w.sessions
  {
    hide Finish, Fail, Recover, IssueRow;
  }

  lemma ClosingTables(s: State, cfg: Settings, w: World, a: Action, t: Instant)
    requires s == w.tables && Inv(s, cfg) && Enabled(w, a) && Later(s.now, t)
    requires a.Complete? || a.Break? || a.Sweep? || a.Issue?
    ensures Inv(Next(w, cfg, a, t).tables, cfg) && Extends(s, Next(w, cfg, a, t).tables)
  {
    hide Inv, Extends, Finish, Fail, RecoverRows, IssueRow;
    match a {
      case Issue(c) => IssueKeeps(s, cfg, c, t);
      case Complete(r, res) =>
        FinishKeeps(s, cfg, r, res, t);
        FinishExtends(s, cfg, r, res, t);
      case Break(r, code) =>
        FailKeeps(s, cfg, r, code, t);
        FailExtends(s, cfg, r, code, t);
      case Sweep(cutoff, held) =>
        RecoverKeeps(s, cfg, cutoff, held, t);
        RecoverRowsExtends(s, cfg, StaleRows(s.requests, cutoff, held), t);
    }
  }

  /** The row locks keep a session's conversation out of reach of every closing step. */
  lemma ClosingSparesSessions(w: World, cfg: Settings, a: Action, t: Instant)
    requires SessionsOk(w, cfg) && Enabled(w, a)
    requires a.Complete? || a.Break? || a.Sweep? || a.Issue?
    ensures var s, s' := w.tables, Next(w, cfg, a, t).tables;
            && |s'.requests| == |s.requests|
            && (forall sid :: sid in w.sessions ==>
                  && w.sessions[sid].conversation in s'.conversations
                  && s'.conversations[w.sessions[sid].conversation] == s.conversations[w.sessions[sid].conversation])
  {
    ClosingTouches(w, cfg, a, t);
    hide Known, Next, Enabled;
    forall sid | sid in w.sessions
      ensures w.sessions[sid].conversation in w.tables.conversations && Held(w, w.sessions[sid].conversation)
    {
      assert SessionOk(w.tables, cfg, w.sessions[sid]);
    }
  }

  lemma ClosingTouches(w: World, cfg: Settings, a: Action, t: Instant)
    requires Enabled(w, a) && (a.Complete? || a.Break? || a.Sweep? || a.Issue?)
    ensures var s, s' := w.tables, Next(w, cfg, a, t).tables;
            && |s'.requests| == |s.requests|
            && (forall c :: c in s.conversations && Held(w, c) ==>
                  c in s'.conversations && s'.conversations[c] == s.conversations[c])
  {
    hide Held, Finish, RecoverRows;
    match a {
      case Complete(r, res) => FinishTouches(w.tables, cfg, r, res, t);
      case Sweep(cutoff, held) => RecoverTouchesNoConversation(w.tables, StaleRows(w.tables.requests, cutoff, held), t);
      case _ =>
    }
  }

  lemma FinishTouches(s: State, cfg: Settings, r: nat, res: Result, t: Instant)
    ensures var s' := Finish(s, cfg, r, res, t);
            && |s'.requests| == |s.requests| && s.conversations.Keys <= s'.conversations.Keys
            && (r < |s.requests| && s.requests[r].status == Pending ==>
                  forall c :: c in s.conversations && c != s.requests[r].conversation ==>
                    s'.conversations[c] == s.conversations[c])
            && ((r < |s.requests| && s.requests[r].status == Pending) || s'.conversations == s.conversations)
  {
  }

  lemma {:induction false} RecoverTouchesNoConversation(s: State, rows: seq<nat>, t: Instant)
    requires forall k :: 0 <= k < |rows| ==> rows[k] < |s.requests|
    ensures RecoverRows(s, rows, t).conversations == s.conversations
  {
    if rows != [] { RecoverTouchesNoConversation(s, rows[..|rows| - 1], t); }
  }

  /** Every step, by whichever process, keeps the invariant. */
  lemma StepKeeps(w: World, cfg: Settings, a: Action, t: Instant)
    requires WorldOk(w, cfg) && Enabled(w, a) && Later(w.tables.now, t)
    ensures WorldOk(Next(w, cfg, a, t), cfg)
  {
    hide WorldOk, Next, Extends;
    match a {
      case Commit(sid) => CommitKeeps(w, cfg, sid, t);
      case Enter(_, _, _, _, _, _) => QuietKeeps(w, cfg, a, t);
      case Lock(_) => QuietKeeps(w, cfg, a, t);
      case Probe(_) => QuietKeeps(w, cfg, a, t);
      case Abort(_) => QuietKeeps(w, cfg, a, t);
      case _ => ClosingKeeps(w, cfg, a, t);
    }
  }

  /** Every step, by whichever process, takes nothing back. */
  lemma StepExtends(w: World, cfg: Settings, a: Action, t: Instant)
    requires WorldOk(w, cfg) && Enabled(w, a) && Later(w.tables.now, t)
    ensures Extends(w.tables, Next(w, cfg, a, t).tables)
  {
    hide WorldOk, Next, Extends;
    match a {
      case Commit(sid) => CommitKeeps(w, cfg, sid, t);
      case Enter(_, _, _, _, _, _) => QuietKeeps(w, cfg, a, t);
      case Lock(_) => QuietKeeps(w, cfg, a, t);
      case Probe(_) => QuietKeeps(w, cfg, a, t);
      case Abort(_) => QuietKeeps(w, cfg, a, t);
      case _ => ClosingKeeps(w, cfg, a, t);
    }
  }
}
