/** Reading a conversation back: the context given to the model, and the pages a client walks through. */
module History {
  import opened Wrappers
  import opened Tables
  import opened Threads
  import opened Invariants
  import opened Evolution
  import opened Runs

  /** `recent_messages`: the newest completed messages, oldest first. Table order is creation order
      (part of the invariant), so the newest rows are the last ones. */
  function RecentMessages(ms: seq<Message>, c: nat, limit: nat): seq<Message> {
    var rows := CompletedOf(ms, c);
    if |rows| > limit then rows[|rows| - limit..] else rows
  }

  /** The context for a new answer is the last three exchanges, or all of them: never half an exchange,
      never a failed question, never the question being answered. */
  lemma RecentIsWholeExchanges(s: State, cfg: Settings, c: nat)
    requires Inv(s, cfg) && c in s.conversations
    ensures var recent, used := RecentMessages(s.messages, c, 6), s.conversations[c].quotaUsed;
            var n := if used < 3 then used else 3;
            && |recent| == 2 * n
            && recent == History(s, c)[2 * used - 2 * n..]
            && (forall k :: 0 <= k < n ==>
                  && recent[2 * k].role == User && recent[2 * k + 1].role == Assistant
                  && recent[2 * k].request == recent[2 * k + 1].request)
            && (forall k :: 0 <= k < |recent| ==> recent[k].status == Completed && recent[k].conversation == c)
  {
    hide Inv, Thread, CompletedOf, Exchanges;
    CompletedIsHistory(s, cfg, c);
    WholeThread(s, cfg, c);
    var done := s.conversations[c].quotaUsed;
    LastExchanges(Thread(s.messages, c), done, if done < 3 then done else 3);
  }

  lemma WholeThread(s: State, cfg: Settings, c: nat)
    requires Inv(s, cfg) && c in s.conversations
    ensures var t, used := Thread(s.messages, c), s.conversations[c].quotaUsed;
            Exchanges(t, used) && 2 * used <= |t| && forall m :: m in t ==> m.conversation == c
  {
    hide RowsOk, KeysUnique, MessagesOk, BudgetOk, RateOk;
    assert ThreadOk(s, c);
    ThreadElements(s.messages, c);
  }

  lemma LastExchanges(t: seq<Message>, used: nat, n: nat)
    requires Exchanges(t, used) && n <= used
    ensures var recent := t[..2 * used][2 * used - 2 * n..];
            && (forall k :: 0 <= k < n ==>
                  && recent[2 * k].role == User && recent[2 * k + 1].role == Assistant
                  && recent[2 * k].request == recent[2 * k + 1].request)
            && (forall k :: 0 <= k < |recent| ==> recent[k].status == Completed && recent[k] in t)
  {
    var recent, skip := t[..2 * used][2 * used - 2 * n..], used - n;
    forall k | 0 <= k < n
      ensures recent[2 * k].role == User && recent[2 * k + 1].role == Assistant
      ensures recent[2 * k].request == recent[2 * k + 1].request
    {
      assert recent[2 * k] == t[2 * (skip + k)] && recent[2 * k + 1] == t[2 * (skip + k) + 1];
    }
    forall k | 0 <= k < |recent| ensures recent[k].status == Completed && recent[k] in t {
      assert recent[k] == t[2 * skip + k];
    }
  }

  // ----- pages

  datatype Page = Page(items: seq<Message>, next: Option<nat>)

  /** `created_at < before`. */
  function Older(rows: seq<Message>, before: Option<nat>): (r: seq<Message>)
    ensures before.Some? ==> forall m :: m in r ==> m.createdAt < before.value
  {
    if before.None? || rows == [] then if before.None? then rows else []
    else
      var last := |rows| - 1;
      if rows[last].createdAt < before.value then Older(rows[..last], before) + [rows[last]]
      else Older(rows[..last], before)
  }

  /** The newest `limit` rows, and a cursor when there are more. */
  function NewestPage(rows: seq<Message>, limit: nat): (p: Page)
    requires limit > 0
    ensures p.next.Some? ==> exists m :: m in rows && p.next.value == m.createdAt
  {
    if |rows| > limit then
      var items := rows[|rows| - limit..];
      assert items[0] in rows;
      Page(items, Some(items[0].createdAt))
    else Page(rows, None)
  }

  /** `MessageRepository.page`. */
  function PageOf(ms: seq<Message>, c: nat, limit: nat, before: Option<nat>): (p: Page)
    requires limit > 0
    ensures p.next.Some? && before.Some? ==> p.next.value < before.value
  {
    NewestPage(Older(CompletedOf(ms, c), before), limit)
  }

  /** A message of the conversation's history, before the cursor if there is one. */
  predicate Listed(ms: seq<Message>, c: nat, before: Option<nat>, m: Message) {
    && m in ms && m.conversation == c && m.status == Completed
    && (before.Some? ==> m.createdAt < before.value)
  }

  lemma {:induction false} CompletedElements(ms: seq<Message>, c: nat)
    ensures forall m :: m in CompletedOf(ms, c) <==> m in ms && m.conversation == c && m.status == Completed
  {
    if ms != [] {
      var last := |ms| - 1;
      CompletedElements(ms[..last], c);
      assert ms == ms[..last] + [ms[last]];
    }
  }

  lemma {:induction false} OlderElements(rows: seq<Message>, before: Option<nat>)
    ensures forall m :: m in Older(rows, before) <==> m in rows && (before.Some? ==> m.createdAt < before.value)
  {
    if rows != [] && before.Some? {
      var last := |rows| - 1;
      OlderElements(rows[..last], before);
      assert rows == rows[..last] + [rows[last]];
    }
  }

  lemma {:induction false} OlderIncreasing(rows: seq<Message>, before: Option<nat>)
    requires Increasing(rows)
    ensures Increasing(Older(rows, before))
  {
    if rows != [] && before.Some? {
      var last := |rows| - 1;
      OlderIncreasing(rows[..last], before);
      OlderElements(rows[..last], before);
      var front := Older(rows[..last], before);
      forall i | 0 <= i < |front| ensures front[i].createdAt < rows[last].createdAt {
        assert front[i] in front;
      }
    }
  }

  /** A page holds the newest messages before the cursor, oldest first, as many as fit; there is a next cursor
      exactly if some are left, and it is the stamp of the oldest on the page. */
  lemma PageIsNewest(ms: seq<Message>, c: nat, limit: nat, before: Option<nat>)
    requires limit > 0 && Increasing(ms)
    ensures var p := PageOf(ms, c, limit, before);
            && |p.items| <= limit && Increasing(p.items)
            && (forall m :: m in p.items ==> Listed(ms, c, before, m))
            && (forall m :: Listed(ms, c, before, m) && m !in p.items ==>
                  |p.items| == limit && p.next.Some? && forall x :: x in p.items ==> m.createdAt < x.createdAt)
            && (p.next.Some? ==>
                  && p.items != [] && p.next.value == p.items[0].createdAt
                  && exists m :: Listed(ms, c, before, m) && m !in p.items)
  {
    var rows := Older(CompletedOf(ms, c), before);
    var p := PageOf(ms, c, limit, before);
    CompletedElements(ms, c);
    CompletedIncreasing(ms, c);
    OlderElements(CompletedOf(ms, c), before);
    OlderIncreasing(CompletedOf(ms, c), before);
    assert forall m :: m in rows <==> Listed(ms, c, before, m);
    hide Older, CompletedOf, Listed;
    NewestOf(rows, limit);
  }

  lemma NewestOf(rows: seq<Message>, limit: nat)
    requires limit > 0 && Increasing(rows)
    ensures var p := NewestPage(rows, limit);
            && |p.items| <= limit && Increasing(p.items) && (forall m :: m in p.items ==> m in rows)
            && (forall m :: m in rows && m !in p.items ==>
                  |p.items| == limit && p.next.Some? && forall x :: x in p.items ==> m.createdAt < x.createdAt)
            && (p.next.Some? ==>
                  && p.items != [] && p.next.value == p.items[0].createdAt
                  && exists m :: m in rows && m !in p.items)
  {
    if |rows| > limit {
      var cut := |rows| - limit;
      LeavesOlder(rows, cut);
    }
  }

  lemma LeavesOlder(rows: seq<Message>, cut: nat)
    requires Increasing(rows) && cut < |rows|
    ensures forall m :: m in rows && m !in rows[cut..] ==> forall x :: x in rows[cut..] ==> m.createdAt < x.createdAt
    ensures forall m :: m in rows[cut..] ==> m in rows
    ensures cut > 0 ==> exists m :: m in rows && m !in rows[cut..]
  {
    assert forall i :: cut <= i < |rows| ==> rows[cut..][i - cut] == rows[i];
    forall m, x | m in rows && m !in rows[cut..] && x in rows[cut..] ensures m.createdAt < x.createdAt {
      var i :| 0 <= i < |rows| && rows[i] == m;
      var j :| 0 <= j < |rows[cut..]| && rows[cut..][j] == x;
    }
    if cut > 0 {
      var first := rows[0];
      assert forall j :: 0 <= j < |rows[cut..]| ==> rows[cut..][j] == rows[cut + j] != first;
      assert first in rows && first !in rows[cut..];
    }
  }

  lemma NewestPageSplits(rows: seq<Message>, k: nat, limit: nat)
    requires 0 < limit && k <= |rows|
    ensures if k > limit then
              && NewestPage(rows[..k], limit) == Page(rows[k - limit..k], Some(rows[k - limit].createdAt))
              && rows[..k - limit] + rows[k - limit..k] == rows[..k]
            else NewestPage(rows[..k], limit) == Page(rows[..k], None)
  {
    if k > limit {
      assert rows[..k][k - limit..] == rows[k - limit..k];
      assert rows[..k][k - limit..][0] == rows[k - limit];
    }
  }

  /** Following `next` from fetch `i` on; fetch `i` sees the tables as `at(i)`. */
  function Walk(at: nat -> State, i: nat, c: nat, limit: nat, before: Option<nat>): seq<Message>
    requires limit > 0
    decreases before.None?, if before.Some? then before.value else 0
  {
    var p := PageOf(at(i).messages, c, limit, before);
    if p.next.None? then p.items else Walk(at, i + 1, c, limit, p.next) + p.items
  }

  lemma {:induction false} OlderIsPrefix(rows: seq<Message>, k: nat, before: nat)
    requires k <= |rows|
    requires forall i :: 0 <= i < |rows| ==> (rows[i].createdAt < before <==> i < k)
    ensures Older(rows, Some(before)) == rows[..k]
  {
    if rows != [] {
      var last := |rows| - 1;
      if k > last {
        OlderIsPrefix(rows[..last], last, before);
        assert rows[..k] == rows[..last] + [rows[last]] && rows[..last][..last] == rows[..last];
      } else {
        OlderIsPrefix(rows[..last], k, before);
        assert rows[..last][..k] == rows[..k];
      }
    }
  }

  lemma {:induction false} CompletedIncreasing(ms: seq<Message>, c: nat)
    requires Increasing(ms)
    ensures Increasing(CompletedOf(ms, c))
    ensures forall m :: m in CompletedOf(ms, c) ==> m in ms
  {
    if ms != [] {
      var last := |ms| - 1;
      CompletedIncreasing(ms[..last], c);
      var front := CompletedOf(ms[..last], c);
      forall i | 0 <= i < |front| ensures front[i].createdAt < ms[last].createdAt {
        assert front[i] in ms[..last];
      }
    }
  }

  /** The state each fetch sees comes no earlier than the one before it. */
  ghost predicate Snapshots(at: nat -> State, cfg: Settings, c: nat) {
    && (forall i: nat :: Inv(at(i), cfg) && c in at(i).conversations)
    && (forall i: nat :: Extends(at(0), at(i)))
  }

  lemma SnapshotsGrow(at: nat -> State, cfg: Settings, c: nat, i: nat)
    requires Snapshots(at, cfg, c)
    ensures CompletedOf(at(0).messages, c) <= CompletedOf(at(i).messages, c)
    ensures Increasing(CompletedOf(at(i).messages, c))
  {
    assert Inv(at(0), cfg) && Inv(at(i), cfg) && Extends(at(0), at(i));
    assert ConversationExtends(at(0), at(i), c);
    assert Increasing(at(i).messages);
    hide Inv, Extends, CompletedOf;
    CompletedIsHistory(at(0), cfg, c);
    CompletedIsHistory(at(i), cfg, c);
    CompletedIncreasing(at(i).messages, c);
  }

  /** Every fetch sees the rows of the first one at the front of its own. */
  ghost predicate Growing(at: nat -> State, c: nat, rows: seq<Message>) {
    forall i: nat :: rows <= CompletedOf(at(i).messages, c) && Increasing(CompletedOf(at(i).messages, c))
  }

  lemma SnapshotsAreGrowing(at: nat -> State, cfg: Settings, c: nat)
    requires Snapshots(at, cfg, c)
    ensures Growing(at, c, CompletedOf(at(0).messages, c))
  {
    hide Snapshots, CompletedOf, Increasing;
    forall i: nat { SnapshotsGrow(at, cfg, c, i); }
  }

  /** A later snapshot shows the same rows before any row of the first one. */
  lemma LaterSnapshot(rows: seq<Message>, later: seq<Message>, k: nat)
    requires rows <= later && Increasing(later) && k < |rows|
    ensures Older(later, Some(rows[k].createdAt)) == rows[..k]
  {
    hide Older;
    assert later[k] == rows[k];
    OlderIsPrefix(later, k, rows[k].createdAt);
    assert later[..k] == rows[..k];
  }

  lemma {:induction false} WalkFrom(at: nat -> State, c: nat, rows: seq<Message>, limit: nat, i: nat, k: nat)
    requires limit > 0 && Growing(at, c, rows) && k < |rows|
    ensures Walk(at, i, c, limit, Some(rows[k].createdAt)) == rows[..k]
    decreases k
  {
    hide CompletedOf, Older, Walk, NewestPage;
    WalkUnfold(at, i, c, limit, Some(rows[k].createdAt));
    LaterSnapshot(rows, CompletedOf(at(i).messages, c), k);
    NewestPageSplits(rows, k, limit);
    if k > limit { WalkFrom(at, c, rows, limit, i + 1, k - limit); }
  }

  lemma WalkUnfold(at: nat -> State, i: nat, c: nat, limit: nat, before: Option<nat>)
    requires limit > 0
    ensures var p := PageOf(at(i).messages, c, limit, before);
            Walk(at, i, c, limit, before)
            == if p.next.None? then p.items else Walk(at, i + 1, c, limit, p.next) + p.items
  {
  }

  /** Walking the cursors from the newest page to the end yields every message completed when the walk
      began, once and in order, whatever is answered or fails in the meantime. */
  lemma WalkVisitsEverythingOnce(at: nat -> State, cfg: Settings, c: nat, limit: nat)
    requires limit > 0 && Snapshots(at, cfg, c)
    ensures Walk(at, 0, c, limit, None) == CompletedOf(at(0).messages, c)
  {
    hide Snapshots, CompletedOf, Walk, NewestPage, Growing;
    var rows := CompletedOf(at(0).messages, c);
    SnapshotsAreGrowing(at, cfg, c);
    WalkUnfold(at, 0, c, limit, None);
    NewestPageSplits(rows, |rows|, limit);
    assert rows[..|rows|] == rows;
    if |rows| > limit { WalkFrom(at, c, rows, limit, 1, |rows| - limit); }
  }

  /** Fetches at moments of a run, none before the first, see such snapshots. */
  lemma RunGivesSnapshots(run: Run, cfg: Settings, c: nat, at: nat -> State, moment: nat -> nat)
    requires IsRun(run, cfg)
    requires forall i: nat :: moment(0) <= moment(i) < |run.worlds| && at(i) == run.worlds[moment(i)].tables
    requires c in at(0).conversations
    ensures Snapshots(at, cfg, c)
  {
    hide Inv, IsRun, Extends;
    forall i: nat ensures Inv(at(i), cfg) && c in at(i).conversations && Extends(at(0), at(i)) {
      RunIsSafe(run, cfg, moment(i));
      RunExtends(run, cfg, moment(0), moment(i));
      ConversationStays(at(0), at(i), c);
    }
  }

  lemma ConversationStays(s: State, s': State, c: nat)
    requires Extends(s, s') && c in s.conversations
    ensures c in s'.conversations
  {
    assert ConversationExtends(s, s', c);
  }
}
