/** Messages stamped with the start of their transaction instead of its end: when reading them back by that
    stamp still gives whole exchanges. */
module StartStamps {
  import opened Tables
  import opened Threads

  /** The completed messages of a conversation in the order of their stamps. Each request has its question and
      its answer; the answer's transaction starts after the question's, which it needs committed. */
  ghost predicate ByStamp(xs: seq<Message>) {
    && Increasing(xs)
    && (forall i :: 0 <= i < |xs| ==> xs[i].status == Completed)
    && (forall i, j :: 0 <= i < j < |xs| && xs[i].request == xs[j].request ==>
          xs[i].role == User && xs[j].role == Assistant)
    && (forall i :: 0 <= i < |xs| ==> HasPartner(xs, i))
  }

  ghost predicate HasPartner(xs: seq<Message>, i: nat)
    requires i < |xs|
  {
    exists j :: 0 <= j < |xs| && j != i && xs[j].request == xs[i].request
  }

  /** The transaction of question `j` starts while the answer of an earlier one, at `k`, has yet to start. */
  ghost predicate StartsInside(xs: seq<Message>, i: nat, j: nat, k: nat) {
    i < j < k < |xs| && xs[i].request == xs[k].request && xs[j].role == User
  }

  ghost predicate NoneInside(xs: seq<Message>) {
    forall i: nat, j: nat, k: nat :: !StartsInside(xs, i, j, k)
  }

  /** If no question starts inside an earlier exchange, the exchanges follow one another. */
  lemma {:induction false} PairsFollow(xs: seq<Message>, n: nat)
    requires ByStamp(xs) && NoneInside(xs) && 2 * n <= |xs|
    ensures forall k :: 0 <= k < n ==> Pair(xs, k)
  {
    if n > 0 {
      PairsFollow(xs, n - 1);
      NextPair(xs, n - 1);
    }
  }

  ghost predicate Pair(xs: seq<Message>, k: nat) {
    && 2 * k + 1 < |xs| && xs[2 * k].role == User && xs[2 * k + 1].role == Assistant
    && xs[2 * k].request == xs[2 * k + 1].request
  }

  /** A message past the first whole pairs belongs to none of them. */
  lemma NotBefore(xs: seq<Message>, n: nat, i: nat, j: nat)
    requires ByStamp(xs) && (forall k :: 0 <= k < n ==> Pair(xs, k)) && j < 2 * n <= i < |xs|
    ensures xs[i].request != xs[j].request
  {
    assert Pair(xs, j / 2);
  }

  /** Past whole pairs comes a question, and no message is left alone. */
  lemma NextIsQuestion(xs: seq<Message>, n: nat) returns (partner: nat)
    requires ByStamp(xs) && (forall k :: 0 <= k < n ==> Pair(xs, k)) && 2 * n < |xs|
    ensures 2 * n < partner < |xs| && xs[partner].request == xs[2 * n].request
    ensures xs[2 * n].role == User && xs[partner].role == Assistant
  {
    assert HasPartner(xs, 2 * n);
    partner :| 0 <= partner < |xs| && partner != 2 * n && xs[partner].request == xs[2 * n].request;
    if partner < 2 * n { NotBefore(xs, n, 2 * n, partner); }
  }

  lemma NextPair(xs: seq<Message>, n: nat)
    requires ByStamp(xs) && NoneInside(xs) && (forall k :: 0 <= k < n ==> Pair(xs, k)) && 2 * n + 1 < |xs|
    ensures Pair(xs, n)
  {
    var first := 2 * n;
    var partner := NextIsQuestion(xs, n);
    if partner != first + 1 {
      assert !StartsInside(xs, first, first + 1, partner);
      assert HasPartner(xs, first + 1);
      var j :| 0 <= j < |xs| && j != first + 1 && xs[j].request == xs[first + 1].request;
      if j < first { NotBefore(xs, n, first + 1, j); }
    }
  }

  lemma PairsAreExchanges(xs: seq<Message>, n: nat)
    requires ByStamp(xs) && |xs| == 2 * n && forall k :: 0 <= k < n ==> Pair(xs, k)
    ensures Exchanges(xs, n)
  {
    forall i | 0 <= i < |xs| ensures xs[i].role == if i % 2 == 0 then User else Assistant {
      assert Pair(xs, i / 2);
    }
    assert forall k :: 0 <= k < n ==> Pair(xs, k) ==> xs[2 * k].request == xs[2 * k + 1].request;
  }

  lemma ExchangesHaveNoneInside(xs: seq<Message>, n: nat, i: nat, j: nat, k: nat)
    requires ByStamp(xs) && |xs| == 2 * n && Exchanges(xs, n)
    ensures !StartsInside(xs, i, j, k)
  {
    var m := i / 2;
    assert i < |xs| ==> xs[2 * m].request == xs[2 * m + 1].request;
  }

  /** Read back by start stamps a conversation is a sequence of whole exchanges exactly when no question's
      transaction started while the answer of an earlier question had yet to start. */
  lemma ExchangesExactly(xs: seq<Message>)
    requires ByStamp(xs)
    ensures (|xs| % 2 == 0 && Exchanges(xs, |xs| / 2)) <==> NoneInside(xs)
  {
    var n := |xs| / 2;
    if NoneInside(xs) {
      PairsFollow(xs, n);
      if 2 * n < |xs| {
        var partner := NextIsQuestion(xs, n);
      } else {
        PairsAreExchanges(xs, n);
      }
    }
    if |xs| == 2 * n && Exchanges(xs, n) {
      forall i: nat, j: nat, k: nat ensures !StartsInside(xs, i, j, k) {
        ExchangesHaveNoneInside(xs, n, i, j, k);
      }
    }
  }

  /** The stamps of such a case: the second question's transaction begins, then that of the first answer, and
      the second question takes the conversation's lock only after the answer has been committed. */
  lemma QuestionStartsInside() returns (xs: seq<Message>)
    ensures ByStamp(xs) && !NoneInside(xs)
    ensures xs[0].role == xs[1].role == User && xs[0].request != xs[1].request
  {
    xs := [Message(0, 0, User, "first", Completed, 1), Message(0, 1, User, "second", Completed, 2),
           Message(0, 0, Assistant, "answer", Completed, 3), Message(0, 1, Assistant, "answer", Completed, 4)];
    assert xs[0].request == xs[2].request && xs[1].request == xs[3].request;
    assert HasPartner(xs, 0) && HasPartner(xs, 1) && HasPartner(xs, 2) && HasPartner(xs, 3);
    assert StartsInside(xs, 0, 1, 2);
  }
}
