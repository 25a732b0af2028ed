/** The immutable knowledge graph: its adjacency, the seeds of a query and their bounded expansion. Node
    labels and queries come as the sets of words found in them. */
module GraphIndex {
  import opened Wrappers
  import opened Ordering

  datatype Node = Node(id: string, words: set<string>, sourceUrl: Option<string>)

  datatype GraphData = GraphData(nodes: seq<Node>, links: seq<(string, string)>, hyperedges: seq<seq<string>>)

  datatype Index = Index(nodes: map<string, Node>, neighbors: map<string, seq<string>>)

  datatype Loaded = Ok(index: Index) | Invalid

  predicate Known(data: GraphData, id: string) {
    HasId(data.nodes, id)
  }

  /** What `load` accepts: some nodes, no id twice, and nothing that refers to an unknown node. */
  predicate WellFormed(data: GraphData) {
    && data.nodes != []
    && DistinctIds(data.nodes)
    && LinksKnown(data)
    && (forall h :: 0 <= h < |data.hyperedges| ==> EdgeKnown(data, data.hyperedges[h]))
  }

  predicate LinksKnown(data: GraphData) {
    forall i :: 0 <= i < |data.links| ==> Known(data, data.links[i].0) && Known(data, data.links[i].1)
  }

  predicate EdgeKnown(data: GraphData, edge: seq<string>) {
    forall id :: id in edge ==> Known(data, id)
  }

  predicate Linked(links: seq<(string, string)>, u: string, v: string) {
    (u, v) in links || (v, u) in links
  }

  predicate Grouped(hyperedges: seq<seq<string>>, u: string, v: string) {
    u != v && exists h :: h in hyperedges && u in h && v in h
  }

  /** Two nodes are neighbours when a link joins them either way, or they are distinct members of one
      hyperedge. */
  predicate Joined(data: GraphData, u: string, v: string) {
    Linked(data.links, u, v) || Grouped(data.hyperedges, u, v)
  }

  ghost predicate IndexOf(data: GraphData, index: Index) {
    && (forall id :: id in index.nodes <==> Known(data, id))
    && (forall i :: 0 <= i < |data.nodes| ==>
          data.nodes[i].id in index.nodes && index.nodes[data.nodes[i].id] == data.nodes[i])
    && index.neighbors.Keys == index.nodes.Keys
    && (forall u :: u in index.neighbors ==>
          Ascending(index.neighbors[u]) && forall v :: v in index.neighbors[u] <==> Joined(data, u, v))
  }

  // ----- loading

  /** Adjacency sets after some links and hyperedges. */
  ghost predicate Adjacency(neighbors: map<string, set<string>>, ids: set<string>, links: seq<(string, string)>,
                            hyperedges: seq<seq<string>>) {
    && neighbors.Keys == ids
    && forall u, v :: u in ids ==> (v in neighbors[u] <==> Linked(links, u, v) || Grouped(hyperedges, u, v))
  }

  lemma AddLink(neighbors: map<string, set<string>>, ids: set<string>, links: seq<(string, string)>,
                hyperedges: seq<seq<string>>,
                a: string, b: string)
    requires Adjacency(neighbors, ids, links, hyperedges) && a in ids && b in ids
    ensures var first := neighbors[a := neighbors[a] + {b}];
            Adjacency(first[b := first[b] + {a}], ids, links + [(a, b)], hyperedges)
  {
  }

  lemma JoinGroup(neighbors: map<string, set<string>>, ids: set<string>, links: seq<(string, string)>,
                  hyperedges: seq<seq<string>>,
                  edge: seq<string>, after: map<string, set<string>>)
    requires Adjacency(neighbors, ids, links, hyperedges) && after.Keys == ids
    requires forall u :: u in ids ==> after[u] == neighbors[u] + if u in edge then Elements(edge) - {u} else {}
    ensures Adjacency(after, ids, links, hyperedges + [edge])
  {
    forall u, v | u in ids
      ensures v in after[u] <==> Linked(links, u, v) || Grouped(hyperedges + [edge], u, v)
    {
      GroupedMore(hyperedges, edge, u, v);
    }
  }

  lemma GroupedMore(hyperedges: seq<seq<string>>, edge: seq<string>, u: string, v: string)
    ensures Grouped(hyperedges + [edge], u, v) <==> Grouped(hyperedges, u, v) || (u != v && u in edge && v in edge)
  {
    if Grouped(hyperedges, u, v) {
      var h :| h in hyperedges && u in h && v in h;
      assert h in hyperedges + [edge];
    }
    assert edge in hyperedges + [edge];
  }

  /** `tuple(sorted(value))`. */
  method SortedTuple(value: set<string>) returns (r: seq<string>)
    ensures Ascending(r) && Elements(r) == value
  {
    var rest, ids := value, [];
    while rest != {}
      invariant rest <= value && Elements(ids) == value - rest
      decreases rest
    {
      var x :| x in rest;
      assert Elements(ids + [x]) == Elements(ids) + {x};
      ids, rest := ids + [x], rest - {x};
    }
    r := SortIds(ids);
  }

  predicate DistinctIds(ns: seq<Node>) {
    forall i, j :: 0 <= i < j < |ns| ==> ns[i].id != ns[j].id
  }

  predicate HasId(ns: seq<Node>, id: string) {
    exists i :: 0 <= i < |ns| && ns[i].id == id
  }

  /** The dictionary built from the first nodes: as many entries as nodes exactly when no id repeats. */
  ghost predicate NodesLoaded(ns: seq<Node>, nodes: map<string, Node>) {
    && (forall id :: id in nodes <==> HasId(ns, id))
    && |nodes| <= |ns|
    && (|nodes| == |ns| <==> DistinctIds(ns))
    && (|nodes| == |ns| ==> forall i :: 0 <= i < |ns| ==> ns[i].id in nodes && nodes[ns[i].id] == ns[i])
  }

  lemma NodeStep(ns: seq<Node>, nodes: map<string, Node>, n: Node)
    requires NodesLoaded(ns, nodes)
    ensures NodesLoaded(ns + [n], nodes[n.id := n])
  {
    var ns', nodes' := ns + [n], nodes[n.id := n];
    forall id ensures HasId(ns', id) <==> HasId(ns, id) || id == n.id { HasIdStep(ns, n, id); }
    DistinctStep(ns, n);
    assert nodes'.Keys == nodes.Keys + {n.id};
    assert |nodes'.Keys| == |nodes.Keys| + if n.id in nodes then 0 else 1;
    assert forall i :: 0 <= i < |ns'| ==> ns'[i] == if i < |ns| then ns[i] else n;
    forall i | 0 <= i < |ns| && !HasId(ns, n.id) ensures ns[i].id != n.id { assert HasId(ns, ns[i].id); }
    hide HasId, DistinctIds;
  }

  lemma HasIdStep(ns: seq<Node>, n: Node, id: string)
    ensures HasId(ns + [n], id) <==> HasId(ns, id) || id == n.id
  {
    var ns' := ns + [n];
    assert ns'[|ns|] == n;
    if HasId(ns, id) {
      var i :| 0 <= i < |ns| && ns[i].id == id;
      assert ns'[i].id == id;
    }
  }

  lemma DistinctStep(ns: seq<Node>, n: Node)
    ensures DistinctIds(ns + [n]) <==> DistinctIds(ns) && !HasId(ns, n.id)
  {
    var ns' := ns + [n];
    assert ns'[|ns|] == n && forall i :: 0 <= i < |ns| ==> ns'[i] == ns[i];
    if HasId(ns, n.id) {
      var i :| 0 <= i < |ns| && ns[i].id == n.id;
      assert ns'[i].id == ns'[|ns|].id;
    }
    if !DistinctIds(ns) {
      var i, j :| 0 <= i < j < |ns| && ns[i].id == ns[j].id;
      assert ns'[i].id == ns'[j].id;
    }
  }

  method LoadNodes(data: GraphData) returns (nodes: map<string, Node>)
    ensures NodesLoaded(data.nodes, nodes)
  {
    hide NodesLoaded;
    nodes := map[];
    assert data.nodes[..0] == [];
    assert NodesLoaded([], nodes) by { NothingLoaded(); }
    for i := 0 to |data.nodes|
      invariant NodesLoaded(data.nodes[..i], nodes)
    {
      NodeStep(data.nodes[..i], nodes, data.nodes[i]);
      assert data.nodes[..i + 1] == data.nodes[..i] + [data.nodes[i]];
      nodes := nodes[data.nodes[i].id := data.nodes[i]];
    }
    assert data.nodes[..|data.nodes|] == data.nodes;
  }

  lemma NothingLoaded()
    ensures NodesLoaded([], map[])
  {
  }

  method LoadLinks(data: GraphData, ids: set<string>) returns (ok: bool, neighbors: map<string, set<string>>)
    requires forall id :: id in ids <==> Known(data, id)
    ensures ok <==> LinksKnown(data)
    ensures ok ==> Adjacency(neighbors, ids, data.links, [])
  {
    neighbors := map id | id in ids :: {};
    ok := true;
    assert data.links[..0] == [];
    for i := 0 to |data.links|
      invariant Adjacency(neighbors, ids, data.links[..i], [])
      invariant forall k :: 0 <= k < i ==> Known(data, data.links[k].0) && Known(data, data.links[k].1)
    {
      hide Known;
      var (source, target) := data.links[i];
      if source !in ids || target !in ids {
        ok := false;
        return;
      }
      AddLink(neighbors, ids, data.links[..i], [], source, target);
      assert data.links[..i + 1] == data.links[..i] + [(source, target)];
      neighbors := neighbors[source := neighbors[source] + {target}];
      neighbors := neighbors[target := neighbors[target] + {source}];
    }
    assert data.links[..|data.links|] == data.links;
  }

  /** `for item in ids: neighbors[item].update(set(ids) - {item})`. */
  method AddGroup(neighbors: map<string, set<string>>, edge: seq<string>) returns (after: map<string, set<string>>)
    requires forall id :: id in edge ==> id in neighbors
    ensures after.Keys == neighbors.Keys
    ensures forall u :: u in neighbors ==> after[u] == neighbors[u] + if u in edge then Elements(edge) - {u} else {}
  {
    after := neighbors;
    for i := 0 to |edge|
      invariant after.Keys == neighbors.Keys
      invariant forall u :: u in neighbors ==>
                  after[u] == neighbors[u] + if u in edge[..i] then Elements(edge) - {u} else {}
    {
      after := after[edge[i] := after[edge[i]] + (Elements(edge) - {edge[i]})];
      assert edge[..i + 1] == edge[..i] + [edge[i]];
    }
    assert edge[..|edge|] == edge;
  }

  predicate IsNode(data: GraphData, id: string) {
    exists n :: n in data.nodes && n.id == id
  }

  lemma KnownIsNode(data: GraphData, id: string)
    ensures Known(data, id) <==> IsNode(data, id)
  {
    if Known(data, id) {
      var i :| 0 <= i < |data.nodes| && data.nodes[i].id == id;
      assert data.nodes[i] in data.nodes;
    }
    if IsNode(data, id) {
      var n :| n in data.nodes && n.id == id;
      var i :| 0 <= i < |data.nodes| && data.nodes[i] == n;
      assert data.nodes[i].id == id;
    }
  }

  /** The nodes under their ids; and under each id, ascending, exactly the nodes a link joins to it, from
      either end, and the other members of its hyperedges. */
  ghost predicate LoadedAs(data: GraphData, index: Index) {
    && (forall n :: n in data.nodes ==> n.id in index.nodes && index.nodes[n.id] == n)
    && (forall id :: id in index.nodes ==> index.nodes[id] in data.nodes && index.nodes[id].id == id)
    && index.neighbors.Keys == index.nodes.Keys
    && (forall u :: u in index.neighbors ==> Ascending(index.neighbors[u]))
    && (forall u, v :: u in index.neighbors ==>
          (v in index.neighbors[u] <==>
             || (u, v) in data.links || (v, u) in data.links
             || (u != v && exists h :: h in data.hyperedges && u in h && v in h)))
  }

  lemma IndexIsLoaded(data: GraphData, index: Index)
    requires WellFormed(data) && IndexOf(data, index)
    ensures LoadedAs(data, index)
  {
    forall n | n in data.nodes ensures n.id in index.nodes && index.nodes[n.id] == n {
      var i :| 0 <= i < |data.nodes| && data.nodes[i] == n;
    }
    forall id | id in index.nodes ensures index.nodes[id] in data.nodes && index.nodes[id].id == id {
      var i :| 0 <= i < |data.nodes| && data.nodes[i].id == id;
      assert data.nodes[i] in data.nodes;
    }
    forall u, v | u in index.neighbors
      ensures v in index.neighbors[u] <==>
              || (u, v) in data.links || (v, u) in data.links
              || (u != v && exists h :: h in data.hyperedges && u in h && v in h)
    {
      assert v in index.neighbors[u] <==> Joined(data, u, v);
    }
  }

  /** The conditions under which a graph loads, said of its parts. */
  lemma WellFormedMeans(data: GraphData)
    ensures WellFormed(data) <==>
            && data.nodes != [] && (forall i, j :: 0 <= i < j < |data.nodes| ==> data.nodes[i].id != data.nodes[j].id)
            && (forall i :: 0 <= i < |data.links| ==> IsNode(data, data.links[i].0) && IsNode(data, data.links[i].1))
            && (forall h, id :: 0 <= h < |data.hyperedges| && id in data.hyperedges[h] ==> IsNode(data, id))
  {
    forall id ensures Known(data, id) <==> IsNode(data, id) { KnownIsNode(data, id); }
    hide Known, IsNode;
    assert forall h :: 0 <= h < |data.hyperedges| ==>
             (EdgeKnown(data, data.hyperedges[h]) <==> forall id :: id in data.hyperedges[h] ==> Known(data, id));
  }

  /** `GraphIndex.load`: accepts exactly the well-formed graphs and builds their adjacency. */
  method Load(data: GraphData) returns (r: Loaded)
    ensures r.Ok? <==>
            && data.nodes != [] && (forall i, j :: 0 <= i < j < |data.nodes| ==> data.nodes[i].id != data.nodes[j].id)
            && (forall i :: 0 <= i < |data.links| ==> IsNode(data, data.links[i].0) && IsNode(data, data.links[i].1))
            && (forall h, id :: 0 <= h < |data.hyperedges| && id in data.hyperedges[h] ==> IsNode(data, id))
    ensures r.Ok? ==> LoadedAs(data, r.index)
    ensures r.Ok? <==> WellFormed(data)
    ensures r.Ok? ==> IndexOf(data, r.index)
  {
    r := LoadChecked(data);
    WellFormedMeans(data);
    if r.Ok? { IndexIsLoaded(data, r.index); }
  }

  /** The checks and loops of `load`. */
  method LoadChecked(data: GraphData) returns (r: Loaded)
    ensures r.Ok? <==> WellFormed(data)
    ensures r.Ok? ==> IndexOf(data, r.index)
  {
    var nodes := LoadNodes(data);
    if nodes == map[] || |nodes| != |data.nodes| {
      return Invalid;
    }
    var linked, fromLinks := LoadLinks(data, nodes.Keys);
    if !linked {
      return Invalid;
    }
    var grouped, neighbors := LoadHyperedges(data, nodes.Keys, fromLinks);
    if !grouped {
      return Invalid;
    }
    var tuples := Freeze(neighbors);
    r := Ok(Index(nodes, tuples));
    IndexIsRight(data, nodes, neighbors, tuples);
  }

  lemma AdjacencyKeys(neighbors: map<string, set<string>>, ids: set<string>, links: seq<(string, string)>,
                      hyperedges: seq<seq<string>>)
    requires Adjacency(neighbors, ids, links, hyperedges)
    ensures neighbors.Keys == ids
  {
  }

  method LoadHyperedges(data: GraphData, ids: set<string>, fromLinks: map<string, set<string>>)
    returns (ok: bool, neighbors: map<string, set<string>>)
    requires forall id :: id in ids <==> Known(data, id)
    requires Adjacency(fromLinks, ids, data.links, [])
    ensures ok <==> forall h :: 0 <= h < |data.hyperedges| ==> EdgeKnown(data, data.hyperedges[h])
    ensures ok ==> Adjacency(neighbors, ids, data.links, data.hyperedges)
  {
    hide Known, Adjacency;
    neighbors := fromLinks;
    ok := true;
    assert data.hyperedges[..0] == [];
    for h := 0 to |data.hyperedges|
      invariant Adjacency(neighbors, ids, data.links, data.hyperedges[..h])
      invariant forall k :: 0 <= k < h ==> EdgeKnown(data, data.hyperedges[k])
    {
      var edge := data.hyperedges[h];
      if exists id :: id in edge && id !in ids {
        ok := false;
        return;
      }
      AdjacencyKeys(neighbors, ids, data.links, data.hyperedges[..h]);
      var after := AddGroup(neighbors, edge);
      JoinGroup(neighbors, ids, data.links, data.hyperedges[..h], edge, after);
      assert data.hyperedges[..h + 1] == data.hyperedges[..h] + [edge];
      neighbors := after;
    }
    assert data.hyperedges[..|data.hyperedges|] == data.hyperedges;
  }

  lemma IndexIsRight(data: GraphData, nodes: map<string, Node>, neighbors: map<string, set<string>>,
                     tuples: map<string, seq<string>>)
    requires Adjacency(neighbors, nodes.Keys, data.links, data.hyperedges) && tuples.Keys == nodes.Keys
    requires forall id :: id in nodes <==> Known(data, id)
    requires forall i :: 0 <= i < |data.nodes| ==> data.nodes[i].id in nodes && nodes[data.nodes[i].id] == data.nodes[i]
    requires forall u :: u in tuples ==> Ascending(tuples[u]) && Elements(tuples[u]) == neighbors[u]
    ensures IndexOf(data, Index(nodes, tuples))
  {
    forall u, v | u in tuples ensures v in tuples[u] <==> Joined(data, u, v) {
      assert v in tuples[u] <==> v in Elements(tuples[u]);
    }
  }

  method Freeze(neighbors: map<string, set<string>>) returns (tuples: map<string, seq<string>>)
    ensures tuples.Keys == neighbors.Keys
    ensures forall u :: u in tuples ==> Ascending(tuples[u]) && Elements(tuples[u]) == neighbors[u]
  {
    tuples := map[];
    var rest := neighbors.Keys;
    while rest != {}
      invariant rest <= neighbors.Keys && tuples.Keys == neighbors.Keys - rest
      invariant forall u :: u in tuples ==> Ascending(tuples[u]) && Elements(tuples[u]) == neighbors[u]
      decreases rest
    {
      var u :| u in rest;
      var sorted := SortedTuple(neighbors[u]);
      tuples, rest := tuples[u := sorted], rest - {u};
    }
  }

  // ----- what the index means

  lemma AdjacencyIsSymmetric(data: GraphData, index: Index, u: string, v: string)
    requires IndexOf(data, index) && u in index.neighbors && v in index.neighbors
    ensures v in index.neighbors[u] <==> u in index.neighbors[v]
    ensures u in index.neighbors[u] <==> (u, u) in data.links
  {
    assert Joined(data, u, v) == Joined(data, v, u) by {
      assert Grouped(data.hyperedges, u, v) == Grouped(data.hyperedges, v, u);
    }
  }

  lemma AscendingIsUnique(a: seq<string>, b: seq<string>)
    requires Ascending(a) && Ascending(b) && Elements(a) == Elements(b)
    ensures a == b
  {
    SortedKeyed(a);
    SortedKeyed(b);
    assert Elements(Keyed(a)) == Elements(Keyed(b)) by {
      forall k | k in Keyed(a) ensures k in Keyed(b) { KeyedHas(a, b, k); }
      forall k | k in Keyed(b) ensures k in Keyed(a) { KeyedHas(b, a, k); }
    }
    SortedIsUnique(Keyed(a), Keyed(b));
    assert forall i :: 0 <= i < |a| ==> a[i] == Keyed(a)[i].id;
    assert forall i :: 0 <= i < |b| ==> b[i] == Keyed(b)[i].id;
  }

  lemma SortedKeyed(a: seq<string>)
    requires Ascending(a)
    ensures Sorted(Keyed(a))
  {
  }

  /** The index does not depend on the order in which nodes, links or hyperedges are listed. */
  lemma IndexIgnoresOrder(data: GraphData, data': GraphData, index: Index, index': Index)
    requires IndexOf(data, index) && IndexOf(data', index')
    requires Elements(data.nodes) == Elements(data'.nodes)
    requires Elements(data.links) == Elements(data'.links)
    requires Elements(data.hyperedges) == Elements(data'.hyperedges)
    ensures index == index'
  {
    NodesIgnoreOrder(data, data', index, index');
    NodesIgnoreOrder(data', data, index', index);
    forall u | u in index.neighbors ensures index.neighbors[u] == index'.neighbors[u] {
      forall v ensures v in index.neighbors[u] <==> v in index'.neighbors[u] {
        JoinedIgnoresOrder(data, data', u, v);
        JoinedIgnoresOrder(data', data, u, v);
      }
      assert Elements(index.neighbors[u]) == Elements(index'.neighbors[u]);
      AscendingIsUnique(index.neighbors[u], index'.neighbors[u]);
    }
  }

  lemma NodesIgnoreOrder(data: GraphData, data': GraphData, index: Index, index': Index)
    requires IndexOf(data, index) && IndexOf(data', index') && Elements(data.nodes) == Elements(data'.nodes)
    ensures forall id :: id in index.nodes ==> id in index'.nodes && index'.nodes[id] == index.nodes[id]
  {
    forall id | id in index.nodes ensures id in index'.nodes && index'.nodes[id] == index.nodes[id] {
      var i :| 0 <= i < |data.nodes| && data.nodes[i].id == id;
      assert data.nodes[i] in Elements(data'.nodes);
      var j :| 0 <= j < |data'.nodes| && data'.nodes[j] == data.nodes[i];
    }
  }

  lemma JoinedIgnoresOrder(data: GraphData, data': GraphData, u: string, v: string)
    requires Elements(data.links) == Elements(data'.links) && Elements(data.hyperedges) == Elements(data'.hyperedges)
    ensures Joined(data, u, v) ==> Joined(data', u, v)
  {
    if (u, v) in data.links { assert (u, v) in Elements(data'.links); }
    if (v, u) in data.links { assert (v, u) in Elements(data'.links); }
    if Grouped(data.hyperedges, u, v) {
      var h :| h in data.hyperedges && u in h && v in h;
      assert h in Elements(data'.hyperedges);
    }
  }
}
