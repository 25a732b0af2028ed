/** `retrieve` from the loaded graph to the citations. */
module Retrieval {
  import opened Wrappers
  import opened Ordering
  import opened GraphIndex
  import opened GraphQuery
  import opened Retriever

  const SEED_LIMIT: nat := 6
  const RELATED_LIMIT: nat := 24

  /** `related(question)` with its default limits. */
  ghost function RelatedNodes(index: Index, terms: set<string>): (ids: seq<string>)
    requires index.neighbors.Keys == index.nodes.Keys
  {
    var ranking := Ranking(Matches(index, terms));
    SeedsAreNodes(index, terms, SEED_LIMIT, ranking);
    Expansion(index, Ids(Take(ranking, SEED_LIMIT)), RELATED_LIMIT)
  }

  /** The source URLs of some nodes. */
  ghost function Sources(index: Index, ids: seq<string>): set<string> {
    set id | id in ids && id in index.nodes && index.nodes[id].sourceUrl.Some? :: index.nodes[id].sourceUrl.value
  }

  ghost function RelatedSources(index: Index, terms: set<string>): set<string>
    requires index.neighbors.Keys == index.nodes.Keys
  {
    Sources(index, RelatedNodes(index, terms))
  }

  /** Every neighbour is a node, as it is in a loaded graph. */
  ghost predicate Closed(index: Index) {
    && index.neighbors.Keys == index.nodes.Keys
    && forall u, v :: u in index.neighbors && v in index.neighbors[u] ==> v in index.nodes
  }

  /** A graph that loads is closed. */
  lemma LoadedIsClosed(data: GraphData, index: Index)
    requires WellFormed(data) && IndexOf(data, index)
    ensures Closed(index)
  {
    forall u, v | u in index.neighbors && v in index.neighbors[u] ensures v in index.nodes {
      assert Joined(data, u, v);
      if (u, v) in data.links {
        var i :| 0 <= i < |data.links| && data.links[i] == (u, v);
        assert Known(data, v);
      } else if (v, u) in data.links {
        var i :| 0 <= i < |data.links| && data.links[i] == (v, u);
        assert Known(data, v);
      } else {
        var edge :| edge in data.hyperedges && u in edge && v in edge;
        var h :| 0 <= h < |data.hyperedges| && data.hyperedges[h] == edge;
        assert EdgeKnown(data, data.hyperedges[h]);
      }
    }
  }

  /** What `retrieve` promises for a loaded graph and the results of the two queries: nothing without search
      terms, otherwise the best five with the boost of the related sources. */
  ghost predicate AnswersQuery(index: Index, search: seq<string>, terms: set<string>, lexical: seq<Row>,
                               semantic: seq<Row>, allowed: string -> bool, citations: seq<Citation>)
    requires index.neighbors.Keys == index.nodes.Keys
  {
    if search == [] then citations == []
    else Answers(lexical, semantic, RelatedSources(index, terms), allowed, citations)
  }

  /** The comprehension over the related nodes. */
  method SourcesOf(index: Index, ids: seq<string>) returns (sources: set<string>)
    requires forall id :: id in ids ==> id in index.nodes
    ensures sources == Sources(index, ids)
  {
    sources := {};
    for i := 0 to |ids|
      invariant sources == Sources(index, ids[..i])
    {
      var url := index.nodes[ids[i]].sourceUrl;
      assert ids[..i + 1] == ids[..i] + [ids[i]];
      if url.Some? { sources := sources + {url.value}; }
    }
    assert ids[..|ids|] == ids;
  }

  /** `retrieve`: `search` are the terms of the queries, `terms` the words matched against the graph. */
  method RetrieveFor(index: Index, search: seq<string>, terms: set<string>, lexical: seq<Row>,
                     semantic: seq<Row>, allowed: string -> bool)
    returns (citations: seq<Citation>, ghost seeds: seq<string>, ghost related: seq<string>)
    requires Closed(index) && ResultLists(lexical, semantic)
    ensures search == [] ==> citations == []
    ensures search != [] ==>
              && BestMatches(index, terms, 6, seeds) && (forall s :: s in seeds ==> s in index.neighbors)
              && ExpandedFrom(index, seeds, 24, related)
              && BoostedBy(index, related, lexical, semantic, citations)
              && CitesBest(lexical, semantic, Sources(index, related), allowed, citations)
    ensures AnswersQuery(index, search, terms, lexical, semantic, allowed, citations)
  {
    hide Answers, BestMatches, ExpandedFrom, BoostedBy, CitesBest;
    seeds, related := [], [];
    citations := [];
    if search == [] { return; }
    var found := Seeds(index, terms, SEED_LIMIT);
    var ids := Related(index, found, RELATED_LIMIT);
    seeds, related := found, ids;
    forall id | id in ids ensures id in index.nodes { ExpansionIsNear(index, found, RELATED_LIMIT, id); }
    var sources := SourcesOf(index, ids);
    assert sources == RelatedSources(index, terms);
    citations := Retrieve(lexical, semantic, sources, allowed);
    ScoresAreBoosted(index, ids, lexical, semantic, sources, allowed, citations);
  }

  /** Some related node has this source URL. */
  predicate IsRelatedSource(index: Index, related: seq<string>, url: string) {
    exists id :: id in related && id in index.nodes && index.nodes[id].sourceUrl == Some(url)
  }

  /** Each citation's score is the sum of its reciprocal ranks, and half a point more exactly if its URL is the
      source of a related node. */
  ghost predicate BoostedBy(index: Index, related: seq<string>, lexical: seq<Row>, semantic: seq<Row>,
                            citations: seq<Citation>)
  {
    forall c :: 0 <= c < |citations| ==>
      var row := citations[c].row;
      citations[c].score == ReciprocalRank(lexical, row.id) + ReciprocalRank(semantic, row.id)
                            + if IsRelatedSource(index, related, row.url) then 0.5 else 0.0
  }

  lemma ScoresAreBoosted(index: Index, related: seq<string>, lexical: seq<Row>, semantic: seq<Row>,
                         sources: set<string>, allowed: string -> bool, citations: seq<Citation>)
    requires ResultLists(lexical, semantic) && sources == Sources(index, related)
    requires Answers(lexical, semantic, sources, allowed, citations)
    ensures BoostedBy(index, related, lexical, semantic, citations)
  {
    hide TopFive, Candidates, ReciprocalRank, RankScore;
    forall c | 0 <= c < |citations|
      ensures var row := citations[c].row;
              citations[c].score == ReciprocalRank(lexical, row.id) + ReciprocalRank(semantic, row.id)
                                    + if IsRelatedSource(index, related, row.url) then 0.5 else 0.0
    {
      var row := citations[c].row;
      RankScoreIsReciprocal(lexical, row.id);
      RankScoreIsReciprocal(semantic, row.id);
      assert row.url in sources <==> IsRelatedSource(index, related, row.url);
    }
  }

  /** Permuting nodes, links or hyperedges of the graph file, or the dictionaries built from it, changes no
      citation. */
  lemma GraphOrderIsInvisible(data: GraphData, data': GraphData, index: Index, index': Index, search: seq<string>,
                              terms: set<string>, lexical: seq<Row>, semantic: seq<Row>, allowed: string -> bool,
                              citations: seq<Citation>, citations': seq<Citation>)
    requires IndexOf(data, index) && IndexOf(data', index')
    requires multiset(data.nodes) == multiset(data'.nodes)
    requires multiset(data.links) == multiset(data'.links)
    requires multiset(data.hyperedges) == multiset(data'.hyperedges)
    requires AnswersQuery(index, search, terms, lexical, semantic, allowed, citations)
    requires AnswersQuery(index', search, terms, lexical, semantic, allowed, citations')
    ensures citations == citations'
  {
    hide Answers;
    SameMembers(data.nodes, data'.nodes);
    SameMembers(data.links, data'.links);
    SameMembers(data.hyperedges, data'.hyperedges);
    IndexIgnoresOrder(data, data', index, index');
    if search != [] {
      CitationsAreDetermined(lexical, semantic, RelatedSources(index, terms), allowed, citations, citations');
    }
  }

  lemma SameMembers<T>(a: seq<T>, b: seq<T>)
    requires multiset(a) == multiset(b)
    ensures Elements(a) == Elements(b)
  {
    forall x ensures x in a <==> x in b { assert x in a <==> x in multiset(a); }
  }
}
