/** Fusing the lexical and the semantic result lists into at most five citations. */
module Retriever {
  import opened Ordering

  datatype Row = Row(id: string, article: string, url: string, title: string, content: string)

  datatype Citation = Citation(citationId: string, row: Row, score: real)

  const MAX_CITATIONS: nat := 5

  function CitationId(n: nat): string
    requires 1 <= n <= MAX_CITATIONS
  {
    ["c1", "c2", "c3", "c4", "c5"][n - 1]
  }

  /** Two result lists of one query: each row once per list, and one row object per id. */
  predicate ResultLists(lexical: seq<Row>, semantic: seq<Row>) {
    && (forall i, j :: 0 <= i < j < |lexical| ==> lexical[i].id != lexical[j].id)
    && (forall i, j :: 0 <= i < j < |semantic| ==> semantic[i].id != semantic[j].id)
    && (forall i, j :: 0 <= i < |lexical| && 0 <= j < |semantic| && lexical[i].id == semantic[j].id
          ==> lexical[i] == semantic[j])
  }

  // ----- the specification

  /** 1 / (rank + 1) for the row at `rank`, nothing for a row that is not listed. */
  function RankScore(rows: seq<Row>, id: string): real {
    if rows == [] then 0.0
    else if rows[|rows| - 1].id == id then 1.0 / |rows| as real
    else RankScore(rows[..|rows| - 1], id)
  }

  function Boost(row: Row, related: set<string>): real {
    if row.url in related then 0.5 else 0.0
  }

  function Fused(lexical: seq<Row>, semantic: seq<Row>, related: set<string>, row: Row): real {
    RankScore(lexical, row.id) + RankScore(semantic, row.id) + Boost(row, related)
  }

  function KeyOf(lexical: seq<Row>, semantic: seq<Row>, related: set<string>, row: Row): Key {
    Key(Fused(lexical, semantic, related, row), row.id)
  }

  /** What may be cited: listed rows whose URL is allowed. */
  function Candidates(lexical: seq<Row>, semantic: seq<Row>, allowed: string -> bool): set<Row> {
    set row | row in lexical + semantic && allowed(row.url)
  }

  /** Each article's best candidate, the best five of those, best first. */
  ghost predicate TopFive(candidates: set<Row>, key: Row -> Key, result: seq<Row>) {
    && |result| <= MAX_CITATIONS
    && (forall i :: 0 <= i < |result| ==> result[i] in candidates)
    && (forall i, j :: 0 <= i < j < |result| ==> Before(key(result[i]), key(result[j])))
    && (forall i, j :: 0 <= i < j < |result| ==> result[i].article != result[j].article)
    && (forall i, x :: 0 <= i < |result| && x in candidates && x.article == result[i].article && x != result[i]
          ==> Before(key(result[i]), key(x)))
    && (forall x :: x in candidates ==> Covered(key, result, x))
  }

  /** The row's article is cited, or five better rows are. */
  ghost predicate Covered(key: Row -> Key, result: seq<Row>, x: Row) {
    || (exists i :: 0 <= i < |result| && result[i].article == x.article)
    || (|result| == MAX_CITATIONS && forall i :: 0 <= i < |result| ==> Before(key(result[i]), key(x)))
  }

  /** Only one list of rows meets the specification. */
  lemma TopFiveIsUnique(candidates: set<Row>, key: Row -> Key, a: seq<Row>, b: seq<Row>)
    requires TopFive(candidates, key, a) && TopFive(candidates, key, b)
    ensures a == b
  {
    hide TopFive;
    var n := if |a| <= |b| then |a| else |b|;
    SamePrefix(candidates, key, a, b, n);
    if |a| <= |b| { NotLonger(candidates, key, a, b); } else { NotLonger(candidates, key, b, a); }
    assert a[..|a|] == a && b[..|b|] == b;
  }

  lemma {:induction false} SamePrefix(candidates: set<Row>, key: Row -> Key, a: seq<Row>, b: seq<Row>, n: nat)
    requires TopFive(candidates, key, a) && TopFive(candidates, key, b) && n <= |a| && n <= |b|
    ensures a[..n] == b[..n]
  {
    if n > 0 {
      hide TopFive;
      SamePrefix(candidates, key, a, b, n - 1);
      SameNext(candidates, key, a, b, n - 1);
      OneMore(a, b, n);
    }
  }

  lemma OneMore<T>(a: seq<T>, b: seq<T>, n: nat)
    requires 0 < n <= |a| && n <= |b| && a[..n - 1] == b[..n - 1] && a[n - 1] == b[n - 1]
    ensures a[..n] == b[..n]
  {
    assert a[..n] == a[..n - 1] + [a[n - 1]] && b[..n] == b[..n - 1] + [b[n - 1]];
  }

  lemma SameNext(candidates: set<Row>, key: Row -> Key, a: seq<Row>, b: seq<Row>, i: nat)
    requires TopFive(candidates, key, a) && TopFive(candidates, key, b) && i < |a| && i < |b|
    requires a[..i] == b[..i]
    ensures a[i] == b[i]
  {
    hide TopFive, Before;
    forall k | 0 <= k < i ensures a[k] == b[k] { assert a[k] == a[..i][k] && b[k] == b[..i][k]; }
    if a[i] != b[i] {
      NotLater(candidates, key, a, b, i);
      NotLater(candidates, key, b, a, i);
      BeforeIsTotal(key(a[i]), key(b[i]));
    }
  }

  /** With the same rows before it, no list has a better row at a place than another. */
  lemma NotLater(candidates: set<Row>, key: Row -> Key, a: seq<Row>, b: seq<Row>, i: nat)
    requires TopFive(candidates, key, a) && TopFive(candidates, key, b) && i < |a| && i < |b|
    requires (forall k :: 0 <= k < i ==> a[k] == b[k]) && a[i] != b[i]
    ensures Before(key(b[i]), key(a[i]))
  {
    var x := a[i];
    assert Covered(key, b, x);
    if exists j :: 0 <= j < |b| && b[j].article == x.article {
      var j :| 0 <= j < |b| && b[j].article == x.article;
      assert j >= i;
      if j > i && b[j] != x { BeforeIsTransitive(key(b[i]), key(b[j]), key(x)); }
    }
  }

  lemma NotLonger(candidates: set<Row>, key: Row -> Key, a: seq<Row>, b: seq<Row>)
    requires TopFive(candidates, key, a) && TopFive(candidates, key, b) && |a| <= |b|
    requires a[..|a|] == b[..|a|]
    ensures |a| == |b|
  {
    assert forall k :: 0 <= k < |a| ==> a[k] == a[..|a|][k] == b[..|a|][k] == b[k];
    assert |a| < |b| ==> Covered(key, a, b[|a|]);
  }

  // ----- the code

  /** The dictionary of scores after some rows: for each listed row its running score and the row itself. */
  ghost predicate Scored(scores: map<string, (real, Row)>, lexical: seq<Row>, semantic: seq<Row>) {
    && (forall id :: id in scores <==> exists r :: r in lexical + semantic && r.id == id)
    && (forall id :: id in scores ==>
          && scores[id].1.id == id && scores[id].1 in lexical + semantic
          && scores[id].0 == RankScore(lexical, id) + RankScore(semantic, id))
  }

  lemma RankScoreNext(rows: seq<Row>, row: Row, id: string)
    ensures RankScore(rows + [row], id) == if row.id == id then 1.0 / (|rows| + 1) as real else RankScore(rows, id)
  {
    assert (rows + [row])[..|rows|] == rows;
  }

  lemma {:induction false} RankScoreAbsent(rows: seq<Row>, id: string)
    requires forall i :: 0 <= i < |rows| ==> rows[i].id != id
    ensures RankScore(rows, id) == 0.0
  {
    if rows != [] { RankScoreAbsent(rows[..|rows| - 1], id); }
  }

  /** The row at place `i` of a list without repetition has the score 1 / (i + 1). */
  lemma {:induction false} RankScoreAt(rows: seq<Row>, i: nat)
    requires i < |rows| && forall i, j :: 0 <= i < j < |rows| ==> rows[i].id != rows[j].id
    ensures RankScore(rows, rows[i].id) == 1.0 / (i + 1) as real
  {
    if i < |rows| - 1 { RankScoreAt(rows[..|rows| - 1], i); }
  }

  lemma ScoreLexical(scores: map<string, (real, Row)>, lexical: seq<Row>, row: Row)
    requires Scored(scores, lexical, []) && forall i :: 0 <= i < |lexical| ==> lexical[i].id != row.id
    ensures var oldScore := if row.id in scores then scores[row.id].0 else 0.0;
            Scored(scores[row.id := (oldScore + 1.0 / (|lexical| + 1) as real, row)], lexical + [row], [])
  {
    assert lexical + [] == lexical && lexical + [row] + [] == lexical + [row];
    assert row.id !in scores;
    RankScoreAbsent(lexical, row.id);
    forall id { RankScoreNext(lexical, row, id); }
    assert row in lexical + [row];
    assert forall r :: r in lexical + [row] <==> r in lexical || r == row;
  }

  lemma ScoreSemantic(scores: map<string, (real, Row)>, lexical: seq<Row>, semantic: seq<Row>, row: Row)
    requires Scored(scores, lexical, semantic) && forall i :: 0 <= i < |semantic| ==> semantic[i].id != row.id
    ensures var oldScore := if row.id in scores then scores[row.id].0 else 0.0;
            Scored(scores[row.id := (oldScore + 1.0 / (|semantic| + 1) as real, row)], lexical, semantic + [row])
  {
    RankScoreAbsent(semantic, row.id);
    forall id { RankScoreNext(semantic, row, id); }
    assert lexical + (semantic + [row]) == lexical + semantic + [row];
    assert forall r :: r in lexical + semantic + [row] <==> r in lexical + semantic || r == row;
    if row.id !in scores {
      forall i | 0 <= i < |lexical| ensures lexical[i].id != row.id {
        assert lexical[i] in lexical + semantic;
      }
      RankScoreAbsent(lexical, row.id);
    }
  }

  lemma NothingScored()
    ensures Scored(map[], [], [])
  {
  }

  /** The two loops over the result lists. */
  method ScoreRows(lexical: seq<Row>, semantic: seq<Row>) returns (scores: map<string, (real, Row)>)
    requires ResultLists(lexical, semantic)
    ensures Scored(scores, lexical, semantic)
  {
    hide Scored, RankScore;
    scores := map[];
    NothingScored();
    assert lexical[..0] == [];
    for rank := 0 to |lexical|
      invariant Scored(scores, lexical[..rank], [])
    {
      var row := lexical[rank];
      ScoreLexical(scores, lexical[..rank], row);
      assert lexical[..rank + 1] == lexical[..rank] + [row];
      var oldScore := if row.id in scores then scores[row.id].0 else 0.0;
      scores := scores[row.id := (oldScore + 1.0 / (rank + 1) as real, row)];
    }
    assert lexical[..|lexical|] == lexical && semantic[..0] == [];
    for rank := 0 to |semantic|
      invariant Scored(scores, lexical, semantic[..rank])
    {
      var row := semantic[rank];
      ScoreSemantic(scores, lexical, semantic[..rank], row);
      assert semantic[..rank + 1] == semantic[..rank] + [row];
      var oldScore := if row.id in scores then scores[row.id].0 else 0.0;
      scores := scores[row.id := (oldScore + 1.0 / (rank + 1) as real, row)];
    }
    assert semantic[..|semantic|] == semantic;
  }

  /** Rows in ranking order. */
  ghost predicate InOrder(rows: seq<Row>, key: Row -> Key) {
    forall i, j :: 0 <= i < j < |rows| ==> Before(key(rows[i]), key(rows[j]))
  }

  /** The sort key of a dictionary entry. */
  function EntryKey(entry: (real, Row), related: set<string>): Key {
    Key(entry.0 + Boost(entry.1, related), entry.1.id)
  }

  /** The keys of the dictionary's allowed entries, those named in `rest` left out. */
  ghost predicate Listed(scores: map<string, (real, Row)>, related: set<string>, allowed: string -> bool,
                         rest: set<string>, items: set<Key>)
  {
    && (forall k :: k in items ==> k.id in scores && k.id !in rest)
    && (forall k :: k in items ==>
          k.id in scores && allowed(scores[k.id].1.url) && k == EntryKey(scores[k.id], related))
    && (forall id :: id in scores && id !in rest && allowed(scores[id].1.url) ==>
          EntryKey(scores[id], related) in items)
  }

  lemma ListNext(scores: map<string, (real, Row)>, related: set<string>, allowed: string -> bool,
                 rest: set<string>, items: set<Key>, id: string)
    requires Listed(scores, related, allowed, rest, items) && id in rest && id in scores && scores[id].1.id == id
    ensures Listed(scores, related, allowed, rest - {id},
                   if allowed(scores[id].1.url) then items + {EntryKey(scores[id], related)} else items)
  {
  }

  lemma NothingListed(scores: map<string, (real, Row)>, related: set<string>, allowed: string -> bool)
    ensures Listed(scores, related, allowed, scores.Keys, {})
  {
  }

  lemma ElementsNext<T>(xs: seq<T>, x: T)
    ensures Elements(xs + [x]) == Elements(xs) + {x}
  {
  }

  /** `sorted(...)` over the dictionary's values whose URL is allowed. */
  method RankRows(scores: map<string, (real, Row)>, related: set<string>, allowed: string -> bool)
    returns (ranked: seq<Key>)
    requires forall id :: id in scores ==> scores[id].1.id == id
    ensures Sorted(ranked) && Listed(scores, related, allowed, {}, Elements(ranked))
  {
    hide Listed, Sorted, EntryKey, Elements;
    var items: seq<Key> := [];
    var rest := scores.Keys;
    NothingListed(scores, related, allowed);
    assert Elements<Key>([]) == {} by { NothingIn<Key>(); }
    while rest != {}
      invariant rest <= scores.Keys
      invariant Listed(scores, related, allowed, rest, Elements(items))
      decreases rest
    {
      var id :| id in rest;
      ListNext(scores, related, allowed, rest, Elements(items), id);
      rest := rest - {id};
      if allowed(scores[id].1.url) {
        ElementsNext(items, EntryKey(scores[id], related));
        items := items + [EntryKey(scores[id], related)];
      }
    }
    ranked := Ranked(items);
  }

  lemma NothingIn<T>()
    ensures Elements<T>([]) == {}
  {
  }

  lemma EntryKeyIsFused(scores: map<string, (real, Row)>, lexical: seq<Row>, semantic: seq<Row>, related: set<string>,
                        id: string)
    requires Scored(scores, lexical, semantic) && id in scores
    ensures EntryKey(scores[id], related) == KeyOf(lexical, semantic, related, scores[id].1)
  {
  }

  /** The ranked rows carry the fused scores. */
  lemma RankedAreFused(scores: map<string, (real, Row)>, lexical: seq<Row>, semantic: seq<Row>, related: set<string>,
                       allowed: string -> bool, ranked: seq<Key>)
    requires Scored(scores, lexical, semantic) && Listed(scores, related, allowed, {}, Elements(ranked))
    ensures forall k :: k in ranked ==>
              k.id in scores && allowed(scores[k.id].1.url) && k == KeyOf(lexical, semantic, related, scores[k.id].1)
    ensures forall id :: id in scores && allowed(scores[id].1.url) ==>
              KeyOf(lexical, semantic, related, scores[id].1) in ranked
  {
    hide Scored, EntryKey, KeyOf;
    forall id | id in scores ensures EntryKey(scores[id], related) == KeyOf(lexical, semantic, related, scores[id].1) {
      EntryKeyIsFused(scores, lexical, semantic, related, id);
    }
  }

  lemma RankedRowsAreCandidates(scores: map<string, (real, Row)>, lexical: seq<Row>, semantic: seq<Row>,
                                related: set<string>,
                                allowed: string -> bool, ranked: seq<Key>, rows: seq<Row>)
    requires ResultLists(lexical, semantic) && Scored(scores, lexical, semantic) && |rows| == |ranked|
    requires forall k :: k in ranked ==>
               k.id in scores && allowed(scores[k.id].1.url) && k == KeyOf(lexical, semantic, related, scores[k.id].1)
    requires forall id :: id in scores && allowed(scores[id].1.url) ==>
               KeyOf(lexical, semantic, related, scores[id].1) in ranked
    requires forall i :: 0 <= i < |ranked| ==> ranked[i].id in scores && rows[i] == scores[ranked[i].id].1
    ensures Elements(rows) == Candidates(lexical, semantic, allowed)
  {
    forall row | row in rows ensures row in Candidates(lexical, semantic, allowed) {
      var i :| 0 <= i < |rows| && rows[i] == row;
      assert ranked[i] in ranked;
    }
    forall row | row in Candidates(lexical, semantic, allowed) ensures row in rows {
      OneRowPerId(scores, lexical, semantic, row);
      var i :| 0 <= i < |ranked| && ranked[i] == KeyOf(lexical, semantic, related, row);
      assert rows[i] == row;
    }
  }

  lemma OneRowPerId(scores: map<string, (real, Row)>, lexical: seq<Row>, semantic: seq<Row>, row: Row)
    requires ResultLists(lexical, semantic) && Scored(scores, lexical, semantic) && row in lexical + semantic
    ensures row.id in scores && scores[row.id].1 == row
  {
    var other := scores[row.id].1;
    var i :| 0 <= i < |lexical + semantic| && (lexical + semantic)[i] == row;
    var j :| 0 <= j < |lexical + semantic| && (lexical + semantic)[j] == other;
  }

  /** The first of each article among the rows passed so far. */
  ghost predicate Picked(rows: seq<Row>, key: Row -> Key, picked: seq<Row>, seen: set<string>) {
    && (forall i :: 0 <= i < |picked| ==> picked[i] in rows)
    && InOrder(picked, key)
    && (forall i, j :: 0 <= i < j < |picked| ==> picked[i].article != picked[j].article)
    && (forall i, x :: 0 <= i < |picked| && x in rows && x.article == picked[i].article && x != picked[i]
          ==> Before(key(picked[i]), key(x)))
    && (forall a :: a in seen <==> exists i :: 0 <= i < |picked| && picked[i].article == a)
    && (forall x :: x in rows ==> x.article in seen)
  }

  lemma PickSkip(rows: seq<Row>, key: Row -> Key, picked: seq<Row>, seen: set<string>, row: Row)
    requires Picked(rows, key, picked, seen) && row.article in seen
    requires forall x :: x in rows ==> Before(key(x), key(row))
    ensures Picked(rows + [row], key, picked, seen)
  {
    assert forall x :: x in rows + [row] <==> x in rows || x == row;
  }

  lemma PickTake(rows: seq<Row>, key: Row -> Key, picked: seq<Row>, seen: set<string>, row: Row)
    requires Picked(rows, key, picked, seen) && row.article !in seen
    requires forall x :: x in rows ==> Before(key(x), key(row))
    ensures Picked(rows + [row], key, picked + [row], seen + {row.article})
  {
    var picked' := picked + [row];
    assert forall x :: x in rows + [row] <==> x in rows || x == row;
    forall a ensures a in seen + {row.article} <==> exists i :: 0 <= i < |picked'| && picked'[i].article == a {
      if a in seen {
        var i :| 0 <= i < |picked| && picked[i].article == a;
        assert picked'[i].article == a;
      }
      if a == row.article { assert picked'[|picked|].article == a; }
    }
  }

  lemma PickedIsTopFive(rows: seq<Row>, key: Row -> Key, n: nat, picked: seq<Row>, seen: set<string>,
                        candidates: set<Row>)
    requires InOrder(rows, key) && n <= |rows| && Elements(rows) == candidates
    requires Picked(rows[..n], key, picked, seen) && |picked| <= MAX_CITATIONS
    requires n < |rows| ==> |picked| == MAX_CITATIONS
    ensures TopFive(candidates, key, picked)
  {
    forall i | 0 <= i < |picked| ensures picked[i] in candidates {
      assert picked[i] in rows[..n] && picked[i] in rows;
    }
    forall x | x in candidates
      ensures Covered(key, picked, x)
      ensures forall i :: 0 <= i < |picked| && x.article == picked[i].article && x != picked[i] ==>
                Before(key(picked[i]), key(x))
    {
      var k :| 0 <= k < |rows| && rows[k] == x;
      if k < n {
        assert x == rows[..n][k];
        assert x in rows[..n];
      } else {
        forall i | 0 <= i < |picked| ensures Before(key(picked[i]), key(x)) {
          var m :| 0 <= m < n && rows[..n][m] == picked[i];
          assert Before(key(rows[m]), key(rows[k]));
        }
      }
    }
  }

  /** The rows the ranked keys stand for. */
  function RowsOf(scores: map<string, (real, Row)>, ranked: seq<Key>): (rows: seq<Row>)
    requires forall k :: k in ranked ==> k.id in scores
    ensures |rows| == |ranked| && forall i :: 0 <= i < |ranked| ==>
              ranked[i].id in scores && rows[i] == scores[ranked[i].id].1
  {
    assert forall i :: 0 <= i < |ranked| ==> ranked[i] in ranked;
    seq(|ranked|, i requires 0 <= i < |ranked| => scores[ranked[i].id].1)
  }

  /** Citations numbered c1, c2, ... for the picked rows. */
  ghost predicate Numbered(citations: seq<Citation>, picked: seq<Row>, key: Row -> Key) {
    && |citations| == |picked| <= MAX_CITATIONS
    && forall i :: 0 <= i < |citations| ==> citations[i] == Citation(CitationId(i + 1), picked[i], key(picked[i]).score)
  }

  lemma NumberNext(citations: seq<Citation>, picked: seq<Row>, key: Row -> Key, row: Row)
    requires Numbered(citations, picked, key) && |picked| < MAX_CITATIONS
    ensures Numbered(citations + [Citation(CitationId(|citations| + 1), row, key(row).score)], picked + [row], key)
  {
  }

  /** The cited rows. */
  function Cited(citations: seq<Citation>): (rows: seq<Row>)
    ensures |rows| == |citations| && forall i :: 0 <= i < |rows| ==> rows[i] == citations[i].row
  {
    seq(|citations|, i requires 0 <= i < |citations| => citations[i].row)
  }

  /** The loop that takes the first row of each article until there are five. */
  method PickFive(rows: seq<Row>, ranked: seq<Key>, ghost key: Row -> Key)
    returns (citations: seq<Citation>)
    requires |rows| == |ranked| && Sorted(ranked) && forall i :: 0 <= i < |rows| ==> ranked[i] == key(rows[i])
    ensures Numbered(citations, Cited(citations), key) && TopFive(Elements(rows), key, Cited(citations))
  {
    hide Picked, TopFive, Before, Sorted, Numbered, InOrder, Elements;
    var seen: set<string> := {};
    ghost var picked: seq<Row> := [];
    citations := [];
    NothingPicked(rows, key);
    NothingNumbered(key);
    OrderFromKeys(rows, ranked, key);
    var n := 0;
    while n < |rows| && |citations| < MAX_CITATIONS
      invariant n <= |rows| && |citations| == |picked| <= MAX_CITATIONS
      invariant Picked(rows[..n], key, picked, seen) && Numbered(citations, picked, key)
    {
      var row := rows[n];
      EarlierRows(rows, key, n);
      assert rows[..n + 1] == rows[..n] + [row];
      if row.article in seen {
        PickSkip(rows[..n], key, picked, seen, row);
      } else {
        PickTake(rows[..n], key, picked, seen, row);
        NumberNext(citations, picked, key, row);
        seen := seen + {row.article};
        picked := picked + [row];
        citations := citations + [Citation(CitationId(|citations| + 1), row, ranked[n].score)];
      }
      n := n + 1;
    }
    PickedIsTopFive(rows, key, n, picked, seen, Elements(rows));
    NumberedCites(citations, picked, key);
  }

  lemma NumberedCites(citations: seq<Citation>, picked: seq<Row>, key: Row -> Key)
    requires Numbered(citations, picked, key)
    ensures Cited(citations) == picked
  {
  }

  lemma NothingNumbered(key: Row -> Key)
    ensures Numbered([], [], key)
  {
  }

  /** What `retrieve` promises about its citations. */
  ghost predicate Answers(lexical: seq<Row>, semantic: seq<Row>, related: set<string>, allowed: string -> bool,
                          citations: seq<Citation>) {
    && TopFive(Candidates(lexical, semantic, allowed), row => KeyOf(lexical, semantic, related, row), Cited(citations))
    && |citations| <= MAX_CITATIONS
    && (forall i :: 0 <= i < |citations| ==>
          && citations[i].citationId == CitationId(i + 1)
          && citations[i].score == Fused(lexical, semantic, related, citations[i].row))
    && (forall i, j :: 0 <= i < j < |citations| ==> citations[i].score >= citations[j].score)
  }

  // ----- the promise, said of the two lists

  /** One over the place of the first row with this id, counted from one; nothing if there is none. */
  ghost function ReciprocalRank(rows: seq<Row>, id: string): (r: real)
    ensures forall i :: 0 <= i < |rows| && rows[i].id == id && (forall j :: 0 <= j < i ==> rows[j].id != id) ==>
              r == 1.0 / (i + 1) as real
    ensures (forall i :: 0 <= i < |rows| ==> rows[i].id != id) ==> r == 0.0
  {
    if i :| 0 <= i < |rows| && rows[i].id == id && (forall j :: 0 <= j < i ==> rows[j].id != id)
    then 1.0 / (i + 1) as real else 0.0
  }

  lemma {:induction false} RankScoreIsReciprocal(rows: seq<Row>, id: string)
    requires forall i, j :: 0 <= i < j < |rows| ==> rows[i].id != rows[j].id
    ensures RankScore(rows, id) == ReciprocalRank(rows, id)
  {
    if i :| 0 <= i < |rows| && rows[i].id == id {
      RankScoreAt(rows, i);
    } else {
      RankScoreAbsent(rows, id);
    }
  }

  /** The score of a row: its reciprocal ranks, and half a point if its URL is a related source. */
  ghost function ScoreOf(lexical: seq<Row>, semantic: seq<Row>, related: set<string>, row: Row): real {
    ReciprocalRank(lexical, row.id) + ReciprocalRank(semantic, row.id) + if row.url in related then 0.5 else 0.0
  }

  ghost predicate RanksAbove(lexical: seq<Row>, semantic: seq<Row>, related: set<string>, x: Row, y: Row) {
    var m, n := ScoreOf(lexical, semantic, related, x), ScoreOf(lexical, semantic, related, y);
    m > n || (m == n && Less(x.id, y.id))
  }

  predicate MayBeCited(lexical: seq<Row>, semantic: seq<Row>, allowed: string -> bool, x: Row) {
    (x in lexical || x in semantic) && allowed(x.url)
  }

  /** At most five allowed rows of different articles, numbered c1 to c5, with their scores, better ones first;
      and an allowed row is missing only because a better one of its article is there or five better ones are. */
  ghost predicate CitesBest(lexical: seq<Row>, semantic: seq<Row>, related: set<string>, allowed: string -> bool,
                            citations: seq<Citation>)
  {
    && |citations| <= 5
    && (forall i :: 0 <= i < |citations| ==>
          && MayBeCited(lexical, semantic, allowed, citations[i].row)
          && citations[i].citationId == ["c1", "c2", "c3", "c4", "c5"][i]
          && citations[i].score == ScoreOf(lexical, semantic, related, citations[i].row))
    && (forall i, j :: 0 <= i < j < |citations| ==>
          && citations[i].row.article != citations[j].row.article
          && RanksAbove(lexical, semantic, related, citations[i].row, citations[j].row))
    && (forall x :: MayBeCited(lexical, semantic, allowed, x) ==>
          CitedOrBeaten(lexical, semantic, related, citations, x))
  }

  ghost predicate CitedOrBeaten(lexical: seq<Row>, semantic: seq<Row>, related: set<string>, citations: seq<Citation>,
                                x: Row)
  {
    || (exists i :: 0 <= i < |citations| && citations[i].row.article == x.article
          && (citations[i].row == x || RanksAbove(lexical, semantic, related, citations[i].row, x)))
    || (|citations| == 5
        && forall i :: 0 <= i < |citations| ==> RanksAbove(lexical, semantic, related, citations[i].row, x))
  }

  lemma FusedIsScore(lexical: seq<Row>, semantic: seq<Row>, related: set<string>, row: Row)
    requires ResultLists(lexical, semantic)
    ensures KeyOf(lexical, semantic, related, row) == Key(ScoreOf(lexical, semantic, related, row), row.id)
  {
    hide ReciprocalRank, RankScore;
    RankScoreIsReciprocal(lexical, row.id);
    RankScoreIsReciprocal(semantic, row.id);
  }

  lemma AnswersCiteBest(lexical: seq<Row>, semantic: seq<Row>, related: set<string>, allowed: string -> bool,
                        citations: seq<Citation>)
    requires ResultLists(lexical, semantic) && Answers(lexical, semantic, related, allowed, citations)
    ensures CitesBest(lexical, semantic, related, allowed, citations)
  {
    var candidates := Candidates(lexical, semantic, allowed);
    var key := row => KeyOf(lexical, semantic, related, row);
    var rows := Cited(citations);
    assert TopFive(candidates, key, rows);
    hide ReciprocalRank, RankScore, ScoreOf, KeyOf, ResultLists, Answers;
    forall i | 0 <= i < |citations|
      ensures MayBeCited(lexical, semantic, allowed, citations[i].row)
      ensures citations[i].citationId == ["c1", "c2", "c3", "c4", "c5"][i]
      ensures citations[i].score == ScoreOf(lexical, semantic, related, citations[i].row)
    {
      assert rows[i] in candidates;
      NumberedAs(lexical, semantic, related, allowed, citations, i);
    }
    forall x, y ensures Before(key(x), key(y)) <==> RanksAbove(lexical, semantic, related, x, y) {
      FusedIsScore(lexical, semantic, related, x);
      FusedIsScore(lexical, semantic, related, y);
    }
    forall x | MayBeCited(lexical, semantic, allowed, x)
      ensures CitedOrBeaten(lexical, semantic, related, citations, x)
    {
      assert x in candidates && Covered(key, rows, x);
    }
  }

  lemma NumberedAs(lexical: seq<Row>, semantic: seq<Row>, related: set<string>, allowed: string -> bool,
                   citations: seq<Citation>, i: nat)
    requires ResultLists(lexical, semantic) && Answers(lexical, semantic, related, allowed, citations)
    requires i < |citations| <= 5
    ensures citations[i].citationId == ["c1", "c2", "c3", "c4", "c5"][i]
    ensures citations[i].score == ScoreOf(lexical, semantic, related, citations[i].row)
  {
    hide TopFive, Candidates, ReciprocalRank, RankScore, ResultLists;
    FusedIsScore(lexical, semantic, related, citations[i].row);
  }

  /** `retrieve` after the two queries: the cited rows are the one list the specification allows, numbered
      c1, c2, ... with their fused scores, which do not increase. */
  method Retrieve(lexical: seq<Row>, semantic: seq<Row>, related: set<string>, allowed: string -> bool)
    returns (citations: seq<Citation>)
    requires ResultLists(lexical, semantic)
    ensures CitesBest(lexical, semantic, related, allowed, citations)
    ensures Answers(lexical, semantic, related, allowed, citations)
  {
    citations := BestAnswers(lexical, semantic, related, allowed);
    hide Answers, CitesBest;
    AnswersCiteBest(lexical, semantic, related, allowed, citations);
  }

  /** The three loops one after the other. */
  method BestAnswers(lexical: seq<Row>, semantic: seq<Row>, related: set<string>, allowed: string -> bool)
    returns (citations: seq<Citation>)
    requires ResultLists(lexical, semantic)
    ensures Answers(lexical, semantic, related, allowed, citations)
  {
    ghost var key := row => KeyOf(lexical, semantic, related, row);
    var scores := ScoreRows(lexical, semantic);
    var ranked := RankRows(scores, related, allowed);
    hide Scored, Candidates, Fused, TopFive, ResultLists, Before, Sorted, Listed;
    RankedAreFused(scores, lexical, semantic, related, allowed, ranked);
    var rows := RowsOf(scores, ranked);
    RankedRowsAreCandidates(scores, lexical, semantic, related, allowed, ranked, rows);
    forall i | 0 <= i < |rows| ensures ranked[i] == key(rows[i]) { assert ranked[i] in ranked; }
    citations := PickFive(rows, ranked, key);
    ScoresDescend(Elements(rows), key, Cited(citations));
  }

  /** One question, one list of citations: whatever order rows of equal content or dictionary entries have. */
  lemma CitationsAreDetermined(lexical: seq<Row>, semantic: seq<Row>, related: set<string>, allowed: string -> bool,
                               a: seq<Citation>, b: seq<Citation>)
    requires Answers(lexical, semantic, related, allowed, a) && Answers(lexical, semantic, related, allowed, b)
    ensures a == b
  {
    hide TopFive, Fused, Candidates;
    var candidates := Candidates(lexical, semantic, allowed);
    TopFiveIsUnique(candidates, row => KeyOf(lexical, semantic, related, row), Cited(a), Cited(b));
    assert |a| == |Cited(a)| == |Cited(b)| == |b|;
    forall i | 0 <= i < |a| ensures a[i] == b[i] { assert Cited(a)[i] == Cited(b)[i]; }
  }

  lemma NothingPicked(rows: seq<Row>, key: Row -> Key)
    ensures Picked(rows[..0], key, [], {})
  {
  }

  lemma OrderFromKeys(rows: seq<Row>, ranked: seq<Key>, key: Row -> Key)
    requires |rows| == |ranked| && Sorted(ranked) && forall i :: 0 <= i < |rows| ==> ranked[i] == key(rows[i])
    ensures InOrder(rows, key)
  {
  }

  lemma EarlierRows(rows: seq<Row>, key: Row -> Key, n: nat)
    requires InOrder(rows, key) && n < |rows|
    ensures forall x :: x in rows[..n] ==> Before(key(x), key(rows[n]))
  {
  }

  lemma ScoresDescend(candidates: set<Row>, key: Row -> Key, rows: seq<Row>)
    requires TopFive(candidates, key, rows)
    ensures forall i, j :: 0 <= i < j < |rows| ==> key(rows[i]).score >= key(rows[j]).score
  {
    forall i, j | 0 <= i < j < |rows| ensures key(rows[i]).score >= key(rows[j]).score {
      assert Before(key(rows[i]), key(rows[j]));
    }
  }
}
