/** A conversation as its reader sees it: the messages that have not failed, in table order. */
module Threads {
  import opened Tables

  predicate Live(m: Message, c: nat) {
    m.conversation == c && m.status != Failed
  }

  function Thread(ms: seq<Message>, c: nat): seq<Message> {
    if ms == [] then []
    else
      var last := |ms| - 1;
      if Live(ms[last], c) then Thread(ms[..last], c) + [ms[last]] else Thread(ms[..last], c)
  }

  lemma ThreadAppend(ms: seq<Message>, m: Message, c: nat)
    ensures Thread(ms + [m], c) == if Live(m, c) then Thread(ms, c) + [m] else Thread(ms, c)
  {
    assert (ms + [m])[..|ms|] == ms;
  }

  lemma {:induction false} ThreadConcat(a: seq<Message>, b: seq<Message>, c: nat)
    ensures Thread(a + b, c) == Thread(a, c) + Thread(b, c)
  {
    if b == [] {
      assert a + b == a;
    } else {
      var last := |b| - 1;
      assert (a + b)[..|a| + last] == a + b[..last];
      ThreadConcat(a, b[..last], c);
    }
  }

  lemma ThreadSplit(ms: seq<Message>, i: nat, m: Message, c: nat)
    requires i < |ms|
    ensures Thread(ms[i := m], c)
         == Thread(ms[..i], c) + (if Live(m, c) then [m] else []) + Thread(ms[i + 1..], c)
  {
    assert ms[i := m] == ms[..i] + [m] + ms[i + 1..];
    ThreadConcat(ms[..i] + [m], ms[i + 1..], c);
    ThreadAppend(ms[..i], m, c);
  }

  lemma {:induction false} ThreadElements(ms: seq<Message>, c: nat)
    ensures forall m :: m in Thread(ms, c) <==> m in ms && Live(m, c)
  {
    if ms != [] {
      ThreadElements(ms[..|ms| - 1], c);
      assert ms == ms[..|ms| - 1] + [ms[|ms| - 1]];
    }
  }

  predicate Increasing(ms: seq<Message>) {
    forall i, j :: 0 <= i < j < |ms| ==> ms[i].createdAt < ms[j].createdAt
  }

  /** A thread keeps the table's order. */
  lemma {:induction false} ThreadIncreasing(ms: seq<Message>, c: nat)
    requires Increasing(ms)
    ensures Increasing(Thread(ms, c))
  {
    if ms != [] {
      var last := |ms| - 1;
      ThreadIncreasing(ms[..last], c);
      ThreadElements(ms[..last], c);
      var front := Thread(ms[..last], c);
      forall i | 0 <= i < |front| ensures front[i].createdAt < ms[last].createdAt {
        assert front[i] in ms[..last];
      }
    }
  }

  /** The first `2 * n` messages are finished exchanges, question before answer; a question still being
      processed may follow, and nothing else. */
  ghost predicate Exchanges(t: seq<Message>, n: nat) {
    && 2 * n <= |t| <= 2 * n + 1
    && (forall k :: 0 <= k < |t| ==> t[k].role == if k % 2 == 0 then User else Assistant)
    && (forall k :: 0 <= k < |t| ==> t[k].status == if k < 2 * n then Completed else Pending)
    && (forall k :: 0 <= k < n ==> t[2 * k].request == t[2 * k + 1].request)
  }

  /** A pending question is the last message of its thread. */
  lemma PendingIsLast(ms: seq<Message>, i: nat, n: nat)
    requires i < |ms| && ms[i].status == Pending
    requires Exchanges(Thread(ms, ms[i].conversation), n)
    ensures var c := ms[i].conversation;
            && |Thread(ms, c)| == 2 * n + 1
            && Thread(ms[..i], c) == Thread(ms, c)[..2 * n]
            && Thread(ms[i + 1..], c) == []
            && Thread(ms, c)[2 * n] == ms[i]
  {
    var c := ms[i].conversation;
    var t, p := Thread(ms, c), |Thread(ms[..i], c)|;
    assert ms[i := ms[i]] == ms;
    ThreadSplit(ms, i, ms[i], c);
    assert t[p] == ms[i];
    assert p == 2 * n;
  }

  /** Answering the pending question closes an exchange. */
  lemma AnswerClosesExchange(ms: seq<Message>, i: nat, n: nat, a: Message)
    requires i < |ms| && ms[i].status == Pending
    requires Exchanges(Thread(ms, ms[i].conversation), n)
    requires a.conversation == ms[i].conversation && a.request == ms[i].request
    requires a.role == Assistant && a.status == Completed
    ensures var c := ms[i].conversation;
            var done := ms[i].(status := Completed);
            var t' := Thread(ms[i := done] + [a], c);
            && t' == Thread(ms, c)[..2 * n] + [done, a]
            && Exchanges(t', n + 1)
  {
    var t := Thread(ms, ms[i].conversation);
    PendingIsLast(ms, i, n);
    assert t[2 * n].role == User;
    AnswerThread(ms, i, t[..2 * n], a);
    OneMoreExchange(t, n, ms[i].(status := Completed), a);
  }

  lemma AnswerThread(ms: seq<Message>, i: nat, front: seq<Message>, a: Message)
    requires i < |ms| && ms[i].status == Pending
    requires a.conversation == ms[i].conversation && a.status == Completed
    requires Thread(ms[..i], a.conversation) == front && Thread(ms[i + 1..], a.conversation) == []
    ensures var done := ms[i].(status := Completed);
            Thread(ms[i := done] + [a], a.conversation) == front + [done, a]
  {
    var done := ms[i].(status := Completed);
    ThreadSplit(ms, i, done, a.conversation);
    ThreadAppend(ms[i := done], a, a.conversation);
    assert front + [done] + [] + [a] == front + [done, a];
  }

  lemma OneMoreExchange(t: seq<Message>, n: nat, q: Message, a: Message)
    requires Exchanges(t, n)
    requires q.role == User && a.role == Assistant && q.status == a.status == Completed && q.request == a.request
    ensures Exchanges(t[..2 * n] + [q, a], n + 1)
  {
    var t' := t[..2 * n] + [q, a];
    forall k | 0 <= k < n + 1 ensures t'[2 * k].request == t'[2 * k + 1].request {
      if k < n { assert t'[2 * k] == t[2 * k] && t'[2 * k + 1] == t[2 * k + 1]; }
    }
    forall k | 0 <= k < |t'|
      ensures t'[k].role == (if k % 2 == 0 then User else Assistant) && t'[k].status == Completed
    {
      if k < 2 * n { assert t'[k] == t[k]; }
    }
  }

  /** Failing the pending question removes it from the thread. */
  lemma FailureReopensThread(ms: seq<Message>, i: nat, n: nat)
    requires i < |ms| && ms[i].status == Pending
    requires Exchanges(Thread(ms, ms[i].conversation), n)
    ensures var c := ms[i].conversation;
            var t' := Thread(ms[i := ms[i].(status := Failed)], c);
            t' == Thread(ms, c)[..2 * n] && Exchanges(t', n)
  {
    var c := ms[i].conversation;
    PendingIsLast(ms, i, n);
    ThreadSplit(ms, i, ms[i].(status := Failed), c);
  }

  lemma OtherThreadUntouched(ms: seq<Message>, i: nat, m: Message, c: nat)
    requires i < |ms| && m.conversation == ms[i].conversation != c
    ensures Thread(ms[i := m], c) == Thread(ms, c)
  {
    ThreadSplit(ms, i, m, c);
    ThreadSplit(ms, i, ms[i], c);
    assert ms[i := ms[i]] == ms;
  }
}
