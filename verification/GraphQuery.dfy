/** From a query to graph nodes: the best-matching seeds and their bounded expansion. */
module GraphQuery {
  import opened Wrappers
  import opened Ordering
  import opened GraphIndex

  // ----- seeds

  function Score(node: Node, terms: set<string>): nat {
    |terms * node.words|
  }

  /** The nodes that share a word with the query, each with its score. */
  function Matches(index: Index, terms: set<string>): set<Key> {
    set id | id in index.nodes && Score(index.nodes[id], terms) > 0 :: Key(Score(index.nodes[id], terms) as real, id)
  }

  function Take<T>(xs: seq<T>, n: nat): seq<T> {
    if |xs| > n then xs[..n] else xs
  }

  /** The unique enumeration of a set of keys in ranking order. */
  ghost function Ranking(keys: set<Key>): (r: seq<Key>)
    ensures Sorted(r) && Elements(r) == keys
  {
    if keys == {} then []
    else
      var k :| k in keys;
      Place(k, Ranking(keys - {k}))
  }

  /** Node `x` shares more words with the query than `y`, or as many and has the smaller id. */
  predicate MatchesBetter(index: Index, terms: set<string>, x: string, y: string)
    requires x in index.nodes && y in index.nodes
  {
    var m, n := |terms * index.nodes[x].words|, |terms * index.nodes[y].words|;
    m > n || (m == n && Less(x, y))
  }

  /** Nodes that share a word with the query, better ones first, and every other such node comes after them and
      is left out only because the limit is reached. */
  ghost predicate BestMatches(index: Index, terms: set<string>, limit: nat, r: seq<string>) {
    && |r| <= limit && (forall id :: id in r ==> id in index.nodes && terms * index.nodes[id].words != {})
    && (forall i, j :: 0 <= i < j < |r| ==> MatchesBetter(index, terms, r[i], r[j]))
    && (forall id :: id in index.nodes && terms * index.nodes[id].words != {} && id !in r ==>
          |r| == limit && forall i :: 0 <= i < |r| ==> MatchesBetter(index, terms, r[i], id))
  }

  lemma KeyMatches(index: Index, terms: set<string>, k: Key)
    requires k in Matches(index, terms)
    ensures k.id in index.nodes && k.score == |terms * index.nodes[k.id].words| as real
    ensures terms * index.nodes[k.id].words != {}
  {
  }

  lemma RankingIsBest(index: Index, terms: set<string>, limit: nat, ranked: seq<Key>)
    requires Sorted(ranked) && Elements(ranked) == Matches(index, terms)
    ensures BestMatches(index, terms, limit, Ids(Take(ranked, limit)))
  {
    hide Matches;
    var top := Take(ranked, limit);
    var r := Ids(top);
    forall i | 0 <= i < |ranked| ensures ranked[i] in Matches(index, terms) { assert ranked[i] in Elements(ranked); }
    forall id | id in r ensures id in index.nodes && terms * index.nodes[id].words != {} {
      var i :| 0 <= i < |r| && r[i] == id;
      KeyMatches(index, terms, ranked[i]);
    }
    forall i, j | 0 <= i < j < |r| ensures MatchesBetter(index, terms, r[i], r[j]) {
      BetterKeys(index, terms, ranked[i], ranked[j]);
    }
    forall id | id in index.nodes && terms * index.nodes[id].words != {} && id !in r
      ensures |r| == limit && forall i :: 0 <= i < |r| ==> MatchesBetter(index, terms, r[i], id)
    {
      var k := MatchingKey(index, terms, id);
      assert k in Elements(ranked);
      var q :| 0 <= q < |ranked| && ranked[q] == k;
      assert forall i :: 0 <= i < |r| ==> r[i] == ranked[i].id && r[i] != id;
      assert q >= |r|;
      forall i | 0 <= i < |r| ensures MatchesBetter(index, terms, r[i], id) { BetterKeys(index, terms, ranked[i], k); }
    }
  }

  lemma MatchingKey(index: Index, terms: set<string>, id: string) returns (k: Key)
    requires id in index.nodes && terms * index.nodes[id].words != {}
    ensures k in Matches(index, terms) && k.id == id
  {
    k := Key(Score(index.nodes[id], terms) as real, id);
  }

  lemma BetterKeys(index: Index, terms: set<string>, k: Key, l: Key)
    requires k in Matches(index, terms) && l in Matches(index, terms) && Before(k, l)
    ensures k.id in index.nodes && l.id in index.nodes && MatchesBetter(index, terms, k.id, l.id)
  {
    KeyMatches(index, terms, k);
    KeyMatches(index, terms, l);
  }

  /** `seeds`: the first `limit` matching nodes in ranking order, whatever order the dictionary has. */
  method Seeds(index: Index, terms: set<string>, limit: nat) returns (r: seq<string>)
    ensures BestMatches(index, terms, limit, r)
    ensures r == Ids(Take(Ranking(Matches(index, terms)), limit))
    ensures NoDuplicates(r) && |r| <= limit && forall id :: id in r ==> id in index.nodes
  {
    var scored: seq<Key> := [];
    var rest := index.nodes.Keys;
    while rest != {}
      invariant rest <= index.nodes.Keys
      invariant Elements(scored) == set k | k in Matches(index, terms) && k.id !in rest
      decreases rest
    {
      var id :| id in rest;
      var score := Score(index.nodes[id], terms);
      rest := rest - {id};
      if score > 0 {
        assert Elements(scored + [Key(score as real, id)]) == Elements(scored) + {Key(score as real, id)};
        scored := scored + [Key(score as real, id)];
      }
    }
    assert Elements(scored) == Matches(index, terms);
    var ranked := Ranked(scored);
    SortedIsUnique(ranked, Ranking(Matches(index, terms)));
    r := Ids(Take(ranked, limit));
    hide BestMatches;
    RankingIsBest(index, terms, limit, ranked);
    SeedsAreNodes(index, terms, limit, ranked);
  }

  lemma SeedsAreNodes(index: Index, terms: set<string>, limit: nat, ranked: seq<Key>)
    requires Sorted(ranked) && Elements(ranked) == Matches(index, terms)
    ensures var r := Ids(Take(ranked, limit));
            NoDuplicates(r) && |r| <= limit && forall id :: id in r ==> id in index.nodes
  {
    var top := Take(ranked, limit);
    var r := Ids(top);
    forall i | 0 <= i < |r| ensures r[i] in index.nodes && top[i] in Matches(index, terms) {
      assert top[i] == ranked[i] && ranked[i] in Elements(ranked);
    }
    forall i, j | 0 <= i < j < |r| ensures r[i] != r[j] {
      assert Before(ranked[i], ranked[j]) && top[i] == ranked[i] && top[j] == ranked[j];
      if r[i] == r[j] {
        assert top[i].score == Score(index.nodes[r[i]], terms) as real == top[j].score;
        BeforeIsTotal(ranked[i], ranked[j]);
      }
    }
  }

  /** No node left out beats a seed. */
  lemma SeedsAreBest(index: Index, terms: set<string>, limit: nat, all: seq<Key>, kept: Key, out: Key)
    requires Sorted(all) && Elements(all) == Matches(index, terms)
    requires kept in Take(all, limit) && out in Matches(index, terms) && out !in Take(all, limit)
    ensures Before(kept, out)
  {
    assert out in Elements(all);
    var j :| 0 <= j < |all| && all[j] == out;
    var i :| 0 <= i < |Take(all, limit)| && Take(all, limit)[i] == kept;
    assert all[i] == kept;
    if j < |Take(all, limit)| { assert Take(all, limit)[j] == out; }
  }

  // ----- expansion

  function Add(found: seq<string>, x: string): seq<string> {
    if x in found then found else found + [x]
  }

  /** `found` followed by the new elements of `xs` in order of first appearance. */
  function AddAll(found: seq<string>, xs: seq<string>): (r: seq<string>)
    ensures found <= r
    decreases |xs|
  {
    if xs == [] then found else AddAll(Add(found, xs[0]), xs[1..])
  }

  function Flat(index: Index, seeds: seq<string>): seq<string>
    requires forall s :: s in seeds ==> s in index.neighbors
  {
    if seeds == [] then []
    else index.neighbors[seeds[0]] + Flat(index, seeds[1..])
  }

  lemma {:induction false} AddAllConcat(found: seq<string>, xs: seq<string>, ys: seq<string>)
    ensures AddAll(found, xs + ys) == AddAll(AddAll(found, xs), ys)
    decreases |xs|
  {
    if xs == [] {
      assert xs + ys == ys;
    } else {
      assert (xs + ys)[1..] == xs[1..] + ys;
      AddAllConcat(Add(found, xs[0]), xs[1..], ys);
    }
  }

  /** De-duplication: the seeds keep their places and every element appears once. */
  lemma {:induction false} AddAllFacts(found: seq<string>, xs: seq<string>)
    requires NoDuplicates(found)
    ensures NoDuplicates(AddAll(found, xs))
    ensures forall x :: x in AddAll(found, xs) <==> x in found || x in xs
    decreases |xs|
  {
    if xs != [] {
      assert forall x :: x in xs <==> x == xs[0] || x in xs[1..];
      AddAllFacts(Add(found, xs[0]), xs[1..]);
    }
  }

  /** For a limit above the number of seeds: the first `limit` of the seeds followed by their sorted
      neighbours, each once. With a smaller limit the very first neighbour already stops the expansion. */
  function Expansion(index: Index, seeds: seq<string>, limit: nat): seq<string>
    requires forall s :: s in seeds ==> s in index.neighbors
  {
    var flat := Flat(index, seeds);
    if limit > |seeds| then Take(AddAll(seeds, flat), limit)
    else if flat == [] then seeds
    else Add(seeds, flat[0])
  }

  /** The limit is kept exactly when it exceeds the number of seeds, or equals it and the first neighbour,
      if any, is a seed. */
  lemma LimitKeptExactly(index: Index, seeds: seq<string>, limit: nat)
    requires forall s :: s in seeds ==> s in index.neighbors
    ensures |Expansion(index, seeds, limit)| <= limit
       <==> || |seeds| < limit
            || (|seeds| == limit && (Flat(index, seeds) == [] || Flat(index, seeds)[0] in seeds))
  {
    hide AddAll, Flat;
  }

  /** One seed with one neighbour exceeds a limit of one. */
  lemma LimitExceeded()
    ensures var a, b := Node("a", {}, None), Node("b", {}, None);
            var index := Index(map["a" := a, "b" := b], map["a" := ["b"], "b" := ["a"]]);
            Expansion(index, ["a"], 1) == ["a", "b"]
  {
    var a, b := Node("a", {}, None), Node("b", {}, None);
    var index := Index(map["a" := a, "b" := b], map["a" := ["b"], "b" := ["a"]]);
    assert Flat(index, ["a"]) == ["b"] + Flat(index, []);
  }

  /** The expansion has no duplicates and consists of seeds and their neighbours. */
  lemma ExpansionIsNear(index: Index, seeds: seq<string>, limit: nat, id: string)
    requires NoDuplicates(seeds) && forall s :: s in seeds ==> s in index.neighbors
    requires id in Expansion(index, seeds, limit)
    ensures id in seeds || exists s :: s in seeds && id in index.neighbors[s]
  {
    AddAllFacts(seeds, Flat(index, seeds));
    if id !in seeds { FlatIsNeighbours(index, seeds, id); }
  }

  lemma {:induction false} FlatIsNeighbours(index: Index, seeds: seq<string>, id: string)
    requires (forall s :: s in seeds ==> s in index.neighbors) && id in Flat(index, seeds)
    ensures exists s :: s in seeds && id in index.neighbors[s]
  {
    if id !in index.neighbors[seeds[0]] { FlatIsNeighbours(index, seeds[1..], id); }
  }

  // ----- the expansion, said of the adjacency itself

  /** Neighbour `i` of seed `a` is `x`. */
  predicate NeighborAt(index: Index, seeds: seq<string>, a: nat, i: nat, x: string)
    requires forall s :: s in seeds ==> s in index.neighbors
  {
    a < |seeds| && i < |index.neighbors[seeds[a]]| && index.neighbors[seeds[a]][i] == x
  }

  /** Before every place where `y` is a neighbour, by seed and then by neighbour, there is one where `x` is. */
  ghost predicate ComesBefore(index: Index, seeds: seq<string>, x: string, y: string)
    requires forall s :: s in seeds ==> s in index.neighbors
  {
    forall b: nat, j: nat :: NeighborAt(index, seeds, b, j, y) ==>
      exists a: nat, i: nat :: NeighborAt(index, seeds, a, i, x) && (a < b || (a == b && i < j))
  }

  predicate NeighborOfSeed(index: Index, seeds: seq<string>, x: string)
    requires forall s :: s in seeds ==> s in index.neighbors
  {
    exists s :: s in seeds && x in index.neighbors[s]
  }

  /** The seeds first; then neighbours of seeds in order of seed, then of neighbour, each once; and no
      neighbour is left out, unless the limit is reached, and then only later ones are. */
  ghost predicate ExpandedFrom(index: Index, seeds: seq<string>, limit: nat, found: seq<string>)
    requires forall s :: s in seeds ==> s in index.neighbors
  {
    && seeds <= found && NoDuplicates(found) && |found| <= limit
    && (forall p :: |seeds| <= p < |found| ==> NeighborOfSeed(index, seeds, found[p]))
    && (forall p, q :: |seeds| <= p < q < |found| ==> ComesBefore(index, seeds, found[p], found[q]))
    && (forall s, x :: s in seeds && x in index.neighbors[s] && x !in found ==>
          |found| == limit && forall p :: |seeds| <= p < |found| ==> ComesBefore(index, seeds, found[p], x))
  }

  /** Where `y` stands in `xs`, `x` stands before it. */
  ghost predicate StandsBefore(xs: seq<string>, x: string, y: string) {
    forall j :: 0 <= j < |xs| && xs[j] == y ==> exists i :: 0 <= i < j && xs[i] == x
  }

  lemma StandsBeforeRest(xs: seq<string>, x: string, y: string)
    requires xs != [] && StandsBefore(xs[1..], x, y) && y != xs[0]
    ensures StandsBefore(xs, x, y)
  {
    forall j | 0 <= j < |xs| && xs[j] == y ensures exists i :: 0 <= i < j && xs[i] == x {
      assert xs[1..][j - 1] == y;
      var i :| 0 <= i < j - 1 && xs[1..][i] == x;
      assert xs[i + 1] == x;
    }
  }

  /** De-duplication keeps the order of first appearance. */
  lemma {:induction false} AddAllOrder(found: seq<string>, xs: seq<string>, p: nat, q: nat)
    requires NoDuplicates(found) && |found| <= p < q < |AddAll(found, xs)|
    ensures StandsBefore(xs, AddAll(found, xs)[p], AddAll(found, xs)[q])
    decreases |xs|
  {
    var all := AddAll(found, xs);
    var next := Add(found, xs[0]);
    assert all == AddAll(next, xs[1..]) && next <= all;
    AddAllFacts(found, xs);
    if p < |next| {
      assert all[p] == xs[0] && all[q] != xs[0];
    } else {
      AddAllOrder(next, xs[1..], p, q);
      assert all[q] != xs[0] by { NotEarlier(found, xs, q); }
      StandsBeforeRest(xs, all[p], all[q]);
    }
  }

  lemma NotEarlier(found: seq<string>, xs: seq<string>, q: nat)
    requires NoDuplicates(found) && xs != [] && |Add(found, xs[0])| <= q < |AddAll(found, xs)|
    ensures AddAll(found, xs)[q] != xs[0]
  {
    AddAllFacts(found, xs);
    var next := Add(found, xs[0]);
    assert AddAll(found, xs) == AddAll(next, xs[1..]) && next <= AddAll(found, xs);
    assert xs[0] in next;
    var k :| 0 <= k < |next| && next[k] == xs[0];
    assert AddAll(found, xs)[k] == xs[0];
  }

  /** The place of neighbour `j` of seed `b` in the list of all neighbours. */
  function PlaceInFlat(index: Index, seeds: seq<string>, b: nat, j: nat): nat
    requires (forall s :: s in seeds ==> s in index.neighbors) && b < |seeds|
  {
    if b == 0 then j else |index.neighbors[seeds[0]]| + PlaceInFlat(index, seeds[1..], b - 1, j)
  }

  lemma {:induction false} PlaceHolds(index: Index, seeds: seq<string>, b: nat, j: nat, y: string)
    requires (forall s :: s in seeds ==> s in index.neighbors) && NeighborAt(index, seeds, b, j, y)
    ensures var k := PlaceInFlat(index, seeds, b, j); k < |Flat(index, seeds)| && Flat(index, seeds)[k] == y
  {
    if b > 0 { PlaceHolds(index, seeds[1..], b - 1, j, y); }
  }

  /** What stands before that place is a neighbour before it. */
  lemma {:induction false} EarlierNeighbor(index: Index, seeds: seq<string>, k: nat, b: nat, j: nat)
    returns (a: nat, i: nat)
    requires (forall s :: s in seeds ==> s in index.neighbors) && b < |seeds| && j < |index.neighbors[seeds[b]]|
    requires k < PlaceInFlat(index, seeds, b, j) && k < |Flat(index, seeds)|
    ensures NeighborAt(index, seeds, a, i, Flat(index, seeds)[k]) && (a < b || (a == b && i < j))
  {
    var n := |index.neighbors[seeds[0]]|;
    if k < n {
      a, i := 0, k;
    } else {
      a, i := EarlierNeighbor(index, seeds[1..], k - n, b - 1, j);
      a := a + 1;
    }
  }

  lemma BeforeInFlat(index: Index, seeds: seq<string>, x: string, y: string)
    requires (forall s :: s in seeds ==> s in index.neighbors) && StandsBefore(Flat(index, seeds), x, y)
    ensures ComesBefore(index, seeds, x, y)
  {
    forall b: nat, j: nat | NeighborAt(index, seeds, b, j, y)
      ensures exists a: nat, i: nat :: NeighborAt(index, seeds, a, i, x) && (a < b || (a == b && i < j))
    {
      PlaceHolds(index, seeds, b, j, y);
      var place := PlaceInFlat(index, seeds, b, j);
      assert Flat(index, seeds)[place] == y;
      var k :| 0 <= k < place && Flat(index, seeds)[k] == x;
      var a, i := EarlierNeighbor(index, seeds, k, b, j);
    }
  }

  lemma NeighborInFlat(index: Index, seeds: seq<string>, s: string, x: string)
    requires (forall s :: s in seeds ==> s in index.neighbors) && s in seeds && x in index.neighbors[s]
    ensures x in Flat(index, seeds)
  {
    var b :| 0 <= b < |seeds| && seeds[b] == s;
    var j :| 0 <= j < |index.neighbors[s]| && index.neighbors[s][j] == x;
    PlaceHolds(index, seeds, b, j, x);
    var k := PlaceInFlat(index, seeds, b, j);
    assert Flat(index, seeds)[k] in Flat(index, seeds);
  }

  /** For a limit above the number of seeds the expansion is what it should be. */
  lemma ExpansionIsExpanded(index: Index, seeds: seq<string>, limit: nat)
    requires NoDuplicates(seeds) && (forall s :: s in seeds ==> s in index.neighbors) && |seeds| < limit
    ensures ExpandedFrom(index, seeds, limit, Expansion(index, seeds, limit))
  {
    hide AddAll, Flat, StandsBefore, ComesBefore;
    var flat := Flat(index, seeds);
    var all, found := AddAll(seeds, flat), Expansion(index, seeds, limit);
    AddAllFacts(seeds, flat);
    assert forall k :: 0 <= k < |found| ==> found[k] == all[k];
    assert |seeds| <= |found| && found[..|seeds|] == seeds;
    forall p | |seeds| <= p < |found| ensures NeighborOfSeed(index, seeds, found[p]) {
      PastSeeds(index, seeds, limit, p);
    }
    forall p, q | |seeds| <= p < q < |found| ensures ComesBefore(index, seeds, found[p], found[q]) {
      AddAllOrder(seeds, flat, p, q);
      BeforeInFlat(index, seeds, found[p], found[q]);
    }
    forall s, x | s in seeds && x in index.neighbors[s] && x !in found
      ensures |found| == limit && forall p :: |seeds| <= p < |found| ==> ComesBefore(index, seeds, found[p], x)
    {
      NeighborInFlat(index, seeds, s, x);
      LeftOut(index, seeds, limit, x);
    }
  }

  lemma PastSeeds(index: Index, seeds: seq<string>, limit: nat, p: nat)
    requires NoDuplicates(seeds) && (forall s :: s in seeds ==> s in index.neighbors) && |seeds| < limit
    requires |seeds| <= p < |Expansion(index, seeds, limit)|
    ensures NeighborOfSeed(index, seeds, Expansion(index, seeds, limit)[p])
  {
    hide AddAll, Flat;
    var all := AddAll(seeds, Flat(index, seeds));
    AddAllFacts(seeds, Flat(index, seeds));
    assert forall k :: 0 <= k < |seeds| ==> all[k] == seeds[k];
    assert all[p] !in seeds;
    ExpansionIsNear(index, seeds, limit, all[p]);
  }

  lemma LeftOut(index: Index, seeds: seq<string>, limit: nat, x: string)
    requires NoDuplicates(seeds) && (forall s :: s in seeds ==> s in index.neighbors) && |seeds| < limit
    requires x in Flat(index, seeds) && x !in Expansion(index, seeds, limit)
    ensures var found := Expansion(index, seeds, limit);
            |found| == limit && forall p :: |seeds| <= p < |found| ==> ComesBefore(index, seeds, found[p], x)
  {
    hide AddAll, Flat, ComesBefore, StandsBefore;
    var flat, found := Flat(index, seeds), Expansion(index, seeds, limit);
    var all := AddAll(seeds, flat);
    AddAllFacts(seeds, flat);
    var q :| 0 <= q < |all| && all[q] == x;
    assert forall k :: 0 <= k < |found| ==> found[k] == all[k] && found[k] != x;
    assert q >= limit;
    forall p | |seeds| <= p < |found| ensures ComesBefore(index, seeds, found[p], x) {
      AddAllOrder(seeds, flat, p, q);
      BeforeInFlat(index, seeds, found[p], x);
    }
  }

  /** `related`. */
  method Related(index: Index, seeds: seq<string>, limit: nat) returns (found: seq<string>)
    requires NoDuplicates(seeds) && forall s :: s in seeds ==> s in index.neighbors
    ensures |seeds| < limit ==> ExpandedFrom(index, seeds, limit, found)
    ensures found == Expansion(index, seeds, limit)
  {
    hide AddAll, Flat, Take, NoDuplicates, ExpandedFrom, Expansion;
    if |seeds| < limit { ExpansionIsExpanded(index, seeds, limit); }
    found := Expand(index, seeds, limit);
  }

  /** The two loops. */
  method Expand(index: Index, seeds: seq<string>, limit: nat) returns (found: seq<string>)
    requires NoDuplicates(seeds) && forall s :: s in seeds ==> s in index.neighbors
    ensures found == Expansion(index, seeds, limit)
  {
    hide AddAll, Flat, Take, NoDuplicates;
    found := seeds;
    ghost var flat := Flat(index, seeds);
    ghost var done: seq<string> := [];
    assert seeds[0..] == seeds && done + flat == flat && found == AddAll(seeds, done) by { AddNothing(seeds); }
    for i := 0 to |seeds|
      invariant found == AddAll(seeds, done) && done + Flat(index, seeds[i..]) == flat
      invariant done == [] || |found| < limit
    {
      var ns := index.neighbors[seeds[i]];
      FlatNext(index, seeds, i);
      ghost var later := Flat(index, seeds[i + 1..]);
      var stopped;
      ghost var k;
      found, stopped, k := VisitNeighbors(seeds, ns, limit, found, done);
      if stopped {
        ghost var was := done + ns[..k];
        Cut(done, ns, later, k);
        Stopped(seeds, flat, was, ns[k], ns[k + 1..] + later, limit);
        return;
      }
      Regroup(done, ns, later);
      done := done + ns;
    }
    assert Flat(index, seeds[|seeds|..]) == [] && done + [] == done by { FlatNothing(index); }
    AllFit(seeds, flat, limit);
  }

  lemma Cut(done: seq<string>, ns: seq<string>, later: seq<string>, k: nat)
    requires k < |ns|
    ensures done + (ns + later) == done + ns[..k] + [ns[k]] + (ns[k + 1..] + later)
  {
  }

  lemma Regroup(done: seq<string>, ns: seq<string>, later: seq<string>)
    ensures done + (ns + later) == done + ns + later
  {
  }

  lemma AddNothing(found: seq<string>)
    ensures AddAll(found, []) == found
  {
  }

  lemma FlatNothing(index: Index)
    ensures Flat(index, []) == []
  {
  }

  lemma AllFit(seeds: seq<string>, flat: seq<string>, limit: nat)
    requires flat == [] || |AddAll(seeds, flat)| < limit
    ensures limit > |seeds| ==> AddAll(seeds, flat) == Take(AddAll(seeds, flat), limit)
    ensures limit <= |seeds| ==> flat == [] && AddAll(seeds, flat) == seeds
  {
    AddNothing(seeds);
  }

  lemma FlatNext(index: Index, seeds: seq<string>, i: nat)
    requires (forall s :: s in seeds ==> s in index.neighbors) && i < |seeds|
    ensures Flat(index, seeds[i..]) == index.neighbors[seeds[i]] + Flat(index, seeds[i + 1..])
  {
    assert seeds[i..][1..] == seeds[i + 1..];
  }

  /** The inner loop over one seed's neighbours; `k` is the neighbour it stopped at. */
  method VisitNeighbors(ghost seeds: seq<string>, ns: seq<string>, limit: nat, found0: seq<string>,
                        ghost done: seq<string>)
    returns (found: seq<string>, stopped: bool, ghost k: nat)
    requires found0 == AddAll(seeds, done) && (done == [] || |found0| < limit)
    ensures !stopped ==> found == AddAll(seeds, done + ns) && (done + ns == [] || |found| < limit)
    ensures stopped ==>
              && k < |ns| && found == AddAll(seeds, done + ns[..k] + [ns[k]]) && |found| >= limit
              && (done + ns[..k] == [] || |AddAll(seeds, done + ns[..k])| < limit)
  {
    hide AddAll;
    found, stopped, k := found0, false, 0;
    assert done + ns[..0] == done;
    for j := 0 to |ns|
      invariant found == AddAll(seeds, done + ns[..j])
      invariant done + ns[..j] == [] || |found| < limit
    {
      Step(seeds, done + ns[..j], ns[j]);
      assert done + ns[..j] + [ns[j]] == done + ns[..j + 1];
      if ns[j] !in found {
        found := found + [ns[j]];
      }
      if |found| >= limit {
        stopped, k := true, j;
        return;
      }
    }
    assert ns[..|ns|] == ns;
  }

  lemma Step(seeds: seq<string>, done: seq<string>, x: string)
    ensures AddAll(seeds, done + [x]) == Add(AddAll(seeds, done), x)
  {
    AddAllConcat(seeds, done, [x]);
    assert [x][1..] == [];
  }

  lemma Stopped(seeds: seq<string>, flat: seq<string>, was: seq<string>, x: string, ahead: seq<string>, limit: nat)
    requires flat == was + [x] + ahead
    requires was == [] || |AddAll(seeds, was)| < limit
    requires |AddAll(seeds, was + [x])| >= limit
    ensures limit > |seeds| ==> AddAll(seeds, was + [x]) == Take(AddAll(seeds, flat), limit)
    ensures limit <= |seeds| ==> AddAll(seeds, was + [x]) == Add(seeds, flat[0])
  {
    Step(seeds, was, x);
    AddAllConcat(seeds, was + [x], ahead);
    var found := AddAll(seeds, was + [x]);
    assert found <= AddAll(seeds, flat);
    if limit > |seeds| {
      assert |found| == limit;
    } else {
      assert was == [];
    }
  }
}
