/** The prototype retriever's bounded breadth-first expansion. */
module BoundedTraversal {

  /** Adjacency as loaded: it may mention ids that are no nodes. */
  datatype Graph = Graph(nodes: set<string>, adjacency: map<string, set<string>>)

  function Neighbors(g: Graph, u: string): set<string> {
    (if u in g.adjacency then g.adjacency[u] else {}) * g.nodes
  }

  /** Everything within `k` hops of the seeds, through known nodes. */
  ghost function Ball(g: Graph, seeds: set<string>, k: nat): set<string> {
    if k == 0 then seeds
    else Ball(g, seeds, k - 1) + set u, v | u in Ball(g, seeds, k - 1) && v in Neighbors(g, u) :: v
  }

  lemma {:induction false} BallGrows(g: Graph, seeds: set<string>, j: nat, k: nat)
    requires j <= k
    ensures Ball(g, seeds, j) <= Ball(g, seeds, k)
    decreases k
  {
    if j < k { BallGrows(g, seeds, j, k - 1); }
  }

  lemma BallForward(g: Graph, seeds: set<string>, k: nat, u: string, v: string)
    requires u in Ball(g, seeds, k) && v in Neighbors(g, u)
    ensures v in Ball(g, seeds, k + 1)
  {
  }

  lemma BallBack(g: Graph, seeds: set<string>, k: nat, v: string) returns (u: string)
    requires v in Ball(g, seeds, k + 1) && v !in Ball(g, seeds, k)
    ensures u in Ball(g, seeds, k) && v in Neighbors(g, u)
  {
    u :| u in Ball(g, seeds, k) && v in Neighbors(g, u);
  }

  type Queue = seq<(string, nat)>

  ghost predicate Queued(queue: Queue, u: string) {
    exists i :: 0 <= i < |queue| && queue[i].0 == u
  }

  /** `dist` gives every visited node the depth it was found at: really within reach at that depth. */
  ghost predicate Reached(g: Graph, seeds: set<string>, dist: map<string, nat>, depth: nat) {
    && seeds <= dist.Keys
    && forall u :: u in dist ==> dist[u] <= depth && u in Ball(g, seeds, dist[u])
  }

  /** The queue holds found nodes of this level, then of the next. */
  ghost predicate Layered(queue: Queue, dist: map<string, nat>, level: nat) {
    && (forall i :: 0 <= i < |queue| ==>
          queue[i].0 in dist && dist[queue[i].0] == queue[i].1 && level <= queue[i].1 <= level + 1)
    && (forall i, j :: 0 <= i < j < |queue| ==> queue[i].1 <= queue[j].1)
  }

  /** Found nodes lie at most one level ahead, and the ball of this level is complete. */
  ghost predicate Complete(g: Graph, seeds: set<string>, dist: map<string, nat>, level: nat) {
    && (forall u :: u in dist ==> dist[u] <= level + 1)
    && (forall u :: u in Ball(g, seeds, level) ==> u in dist && dist[u] <= level)
  }

  /** Nodes taken off the queue before the last level have all their neighbours found. */
  ghost predicate Expanded(g: Graph, queue: Queue, dist: map<string, nat>, level: nat, depth: nat) {
    && (forall u :: u in dist && !Queued(queue, u) ==> dist[u] <= level)
    && (forall u, v :: u in dist && !Queued(queue, u) && dist[u] < depth && v in Neighbors(g, u) ==>
          v in dist && dist[v] <= dist[u] + 1)
  }

  /** When the front of the queue reaches the next level, that level's ball is complete. */
  lemma LevelUp(g: Graph, seeds: set<string>, queue: Queue, dist: map<string, nat>, level: nat, depth: nat)
    requires Reached(g, seeds, dist, depth) && Layered(queue, dist, level)
    requires Complete(g, seeds, dist, level) && Expanded(g, queue, dist, level, depth)
    requires level < depth && forall i :: 0 <= i < |queue| ==> queue[i].1 == level + 1
    ensures Complete(g, seeds, dist, level + 1)
  {
    hide Ball, Neighbors;
    forall v | v in Ball(g, seeds, level + 1) ensures v in dist && dist[v] <= level + 1 {
      if v !in Ball(g, seeds, level) {
        var u := BallBack(g, seeds, level, v);
        assert dist[u] <= level && !Queued(queue, u);
      }
    }
  }

  /** With nothing left to expand, everything within `depth` has been found. */
  lemma {:induction false} ExhaustedFindsBall(g: Graph, seeds: set<string>, dist: map<string, nat>, level: nat,
                                              depth: nat, k: nat)
    requires Reached(g, seeds, dist, depth) && Complete(g, seeds, dist, level) && Expanded(g, [], dist, level, depth)
    requires level <= k <= depth
    ensures forall u :: u in Ball(g, seeds, k) ==> u in dist && dist[u] <= k
    decreases k
  {
    hide Ball, Neighbors;
    if level < k {
      ExhaustedFindsBall(g, seeds, dist, level, depth, k - 1);
      forall v | v in Ball(g, seeds, k) ensures v in dist && dist[v] <= k {
        if v !in Ball(g, seeds, k - 1) {
          var u := BallBack(g, seeds, k - 1, v);
          assert !Queued([], u) && dist[u] <= k - 1;
        }
      }
    }
  }

  lemma ReachedInBall(g: Graph, seeds: set<string>, dist: map<string, nat>, depth: nat, k: nat)
    requires Reached(g, seeds, dist, depth) && forall u :: u in dist ==> dist[u] <= k
    ensures dist.Keys <= Ball(g, seeds, k)
  {
    forall u | u in dist ensures u in Ball(g, seeds, k) { BallGrows(g, seeds, dist[u], k); }
  }

  /** As `Expanded`, while `curr` is being expanded and `todo` of its neighbours are still ahead. */
  ghost predicate Expanding(g: Graph, queue: Queue, dist: map<string, nat>, level: nat, depth: nat, curr: string,
                            todo: set<string>) {
    && (forall u :: u in dist && !Queued(queue, u) ==> dist[u] <= level)
    && (forall u, v :: u in dist && u != curr && !Queued(queue, u) && dist[u] < depth && v in Neighbors(g, u) ==>
          v in dist && dist[v] <= dist[u] + 1)
    && (forall v :: v in Neighbors(g, curr) && v !in todo ==> v in dist)
  }

  /** What the search has found so far, between two steps. */
  ghost predicate Found(g: Graph, seeds: set<string>, dist: map<string, nat>, queue: Queue, level: nat, depth: nat) {
    level <= depth && Reached(g, seeds, dist, depth) && Layered(queue, dist, level) && Complete(g, seeds, dist, level)
  }

  lemma PopKeeps(g: Graph, seeds: set<string>, dist: map<string, nat>, queue: Queue, level: nat, depth: nat)
    requires Found(g, seeds, dist, queue, level, depth) && Expanded(g, queue, dist, level, depth) && queue != []
    ensures var (curr, d) := queue[0];
            && curr in dist && dist[curr] == d && level <= d <= depth && Found(g, seeds, dist, queue[1..], d, depth)
            && (d >= depth ==> Expanded(g, queue[1..], dist, d, depth))
            && Expanding(g, queue[1..], dist, d, depth, curr, Neighbors(g, curr))
  {
    hide Ball, Neighbors, Queued;
    var (curr, d) := queue[0];
    if d > level { LevelUp(g, seeds, queue, dist, level, depth); }
    forall u | u != curr ensures Queued(queue[1..], u) == Queued(queue, u) {
      PopQueued(queue, u);
    }
  }

  lemma PopQueued(queue: Queue, u: string)
    requires queue != [] && queue[0].0 != u
    ensures Queued(queue[1..], u) == Queued(queue, u)
  {
    if Queued(queue, u) {
      var i :| 0 <= i < |queue| && queue[i].0 == u;
      assert queue[1..][i - 1].0 == u;
    }
  }

  lemma PushQueued(queue: Queue, n: string, d: nat, u: string)
    ensures Queued(queue + [(n, d)], u) == (Queued(queue, u) || u == n)
  {
    var queue' := queue + [(n, d)];
    assert queue'[|queue|].0 == n;
    if Queued(queue, u) {
      var i :| 0 <= i < |queue| && queue[i].0 == u;
      assert queue'[i].0 == u;
    }
  }

  lemma AddKeeps(g: Graph, seeds: set<string>, dist: map<string, nat>, queue: Queue, d: nat, depth: nat, curr: string,
                 todo: set<string>, n: string)
    requires Found(g, seeds, dist, queue, d, depth) && d < depth
    requires curr in dist && dist[curr] == d && n in Neighbors(g, curr) && n !in dist
    ensures Found(g, seeds, dist[n := d + 1], queue + [(n, d + 1)], d, depth)
    ensures Expanding(g, queue, dist, d, depth, curr, todo) ==>
              Expanding(g, queue + [(n, d + 1)], dist[n := d + 1], d, depth, curr, todo - {n})
  {
    hide Ball, Neighbors, Queued;
    BallForward(g, seeds, d, curr, n);
    var queue', dist' := queue + [(n, d + 1)], dist[n := d + 1];
    forall u ensures Queued(queue', u) == (Queued(queue, u) || u == n) {
      PushQueued(queue, n, d + 1, u);
    }
    if Expanding(g, queue, dist, d, depth, curr, todo) {
      forall u | u in dist' && !Queued(queue', u)
        ensures dist'[u] <= d
        ensures u != curr && dist'[u] < depth ==>
                  forall v :: v in Neighbors(g, u) ==> v in dist' && dist'[v] <= dist'[u] + 1
      {
        assert dist'[u] == dist[u] && !Queued(queue, u);
        forall v | u != curr && dist[u] < depth && v in Neighbors(g, u) ensures v in dist' && dist'[v] <= dist'[u] + 1 {
          assert dist'[v] == dist[v];
        }
      }
    }
  }

  lemma ExpansionDone(g: Graph, seeds: set<string>, dist: map<string, nat>, queue: Queue, d: nat, depth: nat,
                      curr: string)
    requires Found(g, seeds, dist, queue, d, depth) && Expanding(g, queue, dist, d, depth, curr, {})
    requires curr in dist && dist[curr] == d
    ensures Expanded(g, queue, dist, d, depth)
  {
    hide Ball, Neighbors, Queued;
    var none: set<string> := {};
    forall u, v | u in dist && !Queued(queue, u) && dist[u] < depth && v in Neighbors(g, u)
      ensures v in dist && dist[v] <= dist[u] + 1
    {
      if u == curr {
        assert v in Neighbors(g, curr) && v !in none;
      }
    }
  }

  ghost predicate EdgesOk(g: Graph, visited: set<string>, edges: seq<(string, string)>) {
    forall i :: 0 <= i < |edges| ==> edges[i].0 in visited && edges[i].1 in Neighbors(g, edges[i].0)
  }

  // ----- which nodes are explored, and which edges are collected

  /** The nodes explored so far are the found ones no longer queued, below the last level; the edges are all
      those from them to known nodes; and every node found beyond the seeds is the end of one. */
  ghost predicate OpenedSoFar(g: Graph, start: set<string>, dist: map<string, nat>, queue: Queue,
                              edges: seq<(string, string)>, explored: set<string>, depth: nat)
  {
    && (forall u :: u in explored ==> u in dist && dist[u] < depth)
    && (forall u :: u in dist && !Queued(queue, u) && dist[u] < depth ==> u in explored)
    && (forall u, v :: (u, v) in edges <==> u in explored && v in Neighbors(g, u))
    && (forall v :: v in dist && v !in start ==> exists u :: u in explored && v in Neighbors(g, u))
  }

  /** Every level up to this one is complete, each node at its own distance. */
  ghost predicate LevelsComplete(g: Graph, start: set<string>, dist: map<string, nat>, level: nat) {
    forall k: nat, u :: k <= level && u in Ball(g, start, k) ==> u in dist && dist[u] <= k
  }

  lemma NextLevelComplete(g: Graph, start: set<string>, dist: map<string, nat>, level: nat, d: nat)
    requires LevelsComplete(g, start, dist, level) && Complete(g, start, dist, d) && d <= level + 1
    ensures LevelsComplete(g, start, dist, d)
  {
    hide Ball;
  }

  lemma LevelsStay(g: Graph, start: set<string>, dist: map<string, nat>, dist': map<string, nat>, level: nat)
    requires LevelsComplete(g, start, dist, level) && Keeps(dist, dist')
    ensures LevelsComplete(g, start, dist', level)
  {
    hide Ball;
  }

  predicate Keeps(dist: map<string, nat>, dist': map<string, nat>) {
    forall u :: u in dist ==> u in dist' && dist'[u] == dist[u]
  }

  lemma OpenedStart(g: Graph, seeds: seq<string>, dist: map<string, nat>, depth: nat)
    requires dist.Keys == (set s | s in seeds) && forall s :: s in dist ==> dist[s] == 0
    ensures OpenedSoFar(g, dist.Keys, dist, Start(seeds), [], {}, depth)
    ensures LevelsComplete(g, dist.Keys, dist, 0)
  {
    forall u | u in dist ensures Queued(Start(seeds), u) {
      var i :| 0 <= i < |seeds| && seeds[i] == u;
      assert Start(seeds)[i].0 == u;
    }
  }

  /** A node of the last level is taken off the queue unopened. */
  lemma OpenedSkip(g: Graph, start: set<string>, dist: map<string, nat>, queue: Queue, edges: seq<(string, string)>,
                   explored: set<string>, depth: nat)
    requires OpenedSoFar(g, start, dist, queue, edges, explored, depth)
    requires queue != [] && queue[0].0 in dist && dist[queue[0].0] >= depth
    ensures OpenedSoFar(g, start, dist, queue[1..], edges, explored, depth)
  {
    hide Neighbors, Queued;
    forall u | u != queue[0].0 ensures Queued(queue[1..], u) == Queued(queue, u) { PopQueued(queue, u); }
  }

  /** What opening one node adds. */
  ghost predicate OpenedOne(g: Graph, curr: string, dist0: map<string, nat>, queue0: Queue,
                            edges0: seq<(string, string)>, dist: map<string, nat>, queue: Queue,
                            edges: seq<(string, string)>, todo: set<string>)
  {
    && Keeps(dist0, dist)
    && (forall u :: u in dist && u !in dist0 ==> u in Neighbors(g, curr))
    && (forall u :: u in dist && !Queued(queue, u) ==> u in dist0 && !Queued(queue0, u))
    && (forall u, v :: (u, v) in edges <==> (u, v) in edges0 || (u == curr && v in Neighbors(g, curr) && v !in todo))
  }

  lemma OpenedNext(g: Graph, start: set<string>, dist0: map<string, nat>, queue: Queue, edges0: seq<(string, string)>,
                   explored: set<string>, depth: nat, dist: map<string, nat>, queue': Queue,
                   edges: seq<(string, string)>)
    requires OpenedSoFar(g, start, dist0, queue, edges0, explored, depth)
    requires queue != [] && queue[0].0 in dist0 && dist0[queue[0].0] < depth
    requires OpenedOne(g, queue[0].0, dist0, queue[1..], edges0, dist, queue', edges, {})
    ensures OpenedSoFar(g, start, dist, queue', edges, explored + {queue[0].0}, depth)
  {
    hide Neighbors, Queued;
    var curr := queue[0].0;
    forall u | u != curr ensures Queued(queue[1..], u) == Queued(queue, u) { PopQueued(queue, u); }
    forall v | v in dist && v !in start ensures exists u :: u in explored + {curr} && v in Neighbors(g, u) {
      if v in dist0 {
        var u :| u in explored && v in Neighbors(g, u);
        assert u in explored + {curr};
      } else {
        assert curr in explored + {curr};
      }
    }
  }

  lemma OneFound(g: Graph, curr: string, dist0: map<string, nat>, queue0: Queue, edges0: seq<(string, string)>,
                 dist: map<string, nat>, queue: Queue, edges: seq<(string, string)>, todo: set<string>, n: string,
                 d: nat)
    requires OpenedOne(g, curr, dist0, queue0, edges0, dist, queue, edges, todo) && n in todo && n in Neighbors(g, curr)
    ensures n !in dist ==>
              OpenedOne(g, curr, dist0, queue0, edges0, dist[n := d], queue + [(n, d)], edges + [(curr, n)], todo - {n})
    ensures OpenedOne(g, curr, dist0, queue0, edges0, dist, queue, edges + [(curr, n)], todo - {n})
  {
    hide Neighbors, Queued;
    forall u ensures Queued(queue + [(n, d)], u) == (Queued(queue, u) || u == n) { PushQueued(queue, n, d, u); }
  }

  lemma NothingOpened(g: Graph, curr: string, dist: map<string, nat>, queue: Queue, edges: seq<(string, string)>)
    ensures OpenedOne(g, curr, dist, queue, edges, dist, queue, edges, Neighbors(g, curr))
  {
  }

  /** The outcome: the edges are exactly those from the explored nodes to known nodes; what is visited beyond the
      seeds was reached along one; and unless the limit stopped the search, exactly the nodes within
      `depth - 1` hops were explored. */
  ghost predicate Collected(g: Graph, seeds: set<string>, depth: nat, maxNodes: nat, visited: set<string>,
                            edges: seq<(string, string)>, explored: set<string>)
  {
    && (forall u, v :: (u, v) in edges <==> u in explored && v in Neighbors(g, u))
    && (forall v :: v in visited && v !in seeds ==> exists u :: u in explored && v in Neighbors(g, u))
    && explored <= visited
    && (depth == 0 ==> explored == {})
    && (depth > 0 ==> explored <= Ball(g, seeds, depth - 1))
    && (depth > 0 && |visited| < maxNodes ==> explored == Ball(g, seeds, depth - 1))
  }

  lemma OpenedOutcome(g: Graph, start: set<string>, dist: map<string, nat>, queue: Queue, level: nat, depth: nat,
                      maxNodes: nat, edges: seq<(string, string)>, explored: set<string>)
    requires OpenedSoFar(g, start, dist, queue, edges, explored, depth) && Found(g, start, dist, queue, level, depth)
    requires LevelsComplete(g, start, dist, level)
    requires |dist.Keys| < maxNodes ==> queue == [] && Expanded(g, queue, dist, level, depth)
    ensures Collected(g, start, depth, maxNodes, dist.Keys, edges, explored)
  {
    hide Ball, Neighbors, Complete;
    if depth > 0 {
      forall u | u in explored ensures u in Ball(g, start, depth - 1) { BallGrows(g, start, dist[u], depth - 1); }
      if |dist.Keys| < maxNodes {
        forall u | u in Ball(g, start, depth - 1) ensures u in explored {
          if level < depth { ExhaustedFindsBall(g, start, dist, level, depth, depth - 1); }
          assert u in dist && dist[u] <= depth - 1 && !Queued(queue, u);
        }
      }
    }
  }

  // ----- reachability along paths

  /** A walk from a seed along known neighbours. */
  ghost predicate Path(g: Graph, seeds: set<string>, path: seq<string>) {
    && path != [] && path[0] in seeds
    && forall i :: 0 <= i < |path| - 1 ==> Hop(g, path, i)
  }

  ghost predicate Hop(g: Graph, path: seq<string>, i: nat) {
    i + 1 < |path| && path[i] in g.adjacency && path[i + 1] in g.adjacency[path[i]] && path[i + 1] in g.nodes
  }

  /** A ball is what paths of so many hops reach. */
  lemma {:induction false} BallIsReach(g: Graph, seeds: set<string>, k: nat, v: string)
    ensures v in Ball(g, seeds, k) <==> exists path :: Path(g, seeds, path) && |path| <= k + 1 && path[|path| - 1] == v
  {
    if v in Ball(g, seeds, k) { var path := PathInto(g, seeds, k, v); }
    if path :| Path(g, seeds, path) && |path| <= k + 1 && path[|path| - 1] == v {
      PathStaysInBall(g, seeds, path);
      BallGrows(g, seeds, |path| - 1, k);
    }
  }

  lemma {:induction false} PathInto(g: Graph, seeds: set<string>, k: nat, v: string) returns (path: seq<string>)
    requires v in Ball(g, seeds, k)
    ensures Path(g, seeds, path) && |path| <= k + 1 && path[|path| - 1] == v
  {
    if k == 0 {
      path := [v];
    } else if v in Ball(g, seeds, k - 1) {
      path := PathInto(g, seeds, k - 1, v);
    } else {
      var u := BallBack(g, seeds, k - 1, v);
      var front := PathInto(g, seeds, k - 1, u);
      path := front + [v];
      forall i | 0 <= i < |path| - 1 ensures Hop(g, path, i) {
        assert i < |front| - 1 ==> Hop(g, front, i);
      }
    }
  }

  lemma {:induction false} PathStaysInBall(g: Graph, seeds: set<string>, path: seq<string>)
    requires Path(g, seeds, path)
    ensures path[|path| - 1] in Ball(g, seeds, |path| - 1)
  {
    if |path| > 1 {
      var n := |path| - 1;
      var front := path[..n];
      forall i | 0 <= i < n - 1 ensures Hop(g, front, i) { assert Hop(g, path, i); }
      PathStaysInBall(g, seeds, front);
      assert Hop(g, path, n - 1);
      BallForward(g, seeds, n - 1, path[n - 1], path[n]);
    }
  }

  // ----- the search

  /** The search from `seeds`: what is visited is bounded exactly as `Bounded` says, and the edges collected
      are exactly those of the nodes `explored`. */
  method Traverse(g: Graph, seeds: seq<string>, depth: nat, maxNodes: nat)
    returns (visited: set<string>, edges: seq<(string, string)>, ghost explored: set<string>)
    requires forall s :: s in seeds ==> s in g.nodes
    ensures Bounded(g, (set s | s in seeds), depth, maxNodes, visited)
    ensures Collected(g, (set s | s in seeds), depth, maxNodes, visited, edges, explored)
    ensures EdgesOk(g, visited, edges)
  {
    hide Ball, Neighbors, Queued, Found, Expanded, Expanding, EdgesOk, Bounded;
    hide OpenedSoFar, LevelsComplete, OpenedOne, Collected, Keeps;
    explored := {};
    visited := set s | s in seeds;
    ghost var start := visited;
    ghost var dist: map<string, nat> := map s | s in start :: 0;
    var queue: Queue := Start(seeds);
    edges := [];
    ghost var level: nat := 0;
    SearchStarts(g, seeds, dist, depth);
    OpenedStart(g, seeds, dist, depth);
    while queue != [] && |visited| < maxNodes
      invariant visited == dist.Keys && Found(g, start, dist, queue, level, depth)
      invariant |visited| < maxNodes ==> Expanded(g, queue, dist, level, depth)
      invariant |visited| <= maxNodes || visited == start
      invariant EdgesOk(g, visited, edges)
      invariant OpenedSoFar(g, start, dist, queue, edges, explored, depth) && LevelsComplete(g, start, dist, level)
      decreases g.nodes - visited, |queue|
    {
      PopKeeps(g, start, dist, queue, level, depth);
      LevelOfFront(g, start, dist, queue, level, depth);
      var (curr, d) := queue[0];
      ghost var queue0, edges0, dist0 := queue, edges, dist;
      queue := queue[1..];
      level := d;
      if d >= depth {
        OpenedSkip(g, start, dist, queue0, edges, explored, depth);
        continue;
      }
      visited, queue, edges, dist := Expand(g, start, curr, d, depth, maxNodes, visited, queue, edges, dist);
      OpenedNext(g, start, dist0, queue0, edges0, explored, depth, dist, queue, edges);
      DistancesKept(g, curr, dist0, queue0[1..], edges0, dist, queue, edges);
      LevelsStay(g, start, dist0, dist, level);
      explored := explored + {curr};
    }
    Outcome(g, start, dist, queue, level, depth, maxNodes);
    OpenedOutcome(g, start, dist, queue, level, depth, maxNodes, edges, explored);
  }

  lemma DistancesKept(g: Graph, curr: string, dist0: map<string, nat>, queue0: Queue, edges0: seq<(string, string)>,
                      dist: map<string, nat>, queue: Queue, edges: seq<(string, string)>)
    requires OpenedOne(g, curr, dist0, queue0, edges0, dist, queue, edges, {})
    ensures Keeps(dist0, dist)
  {
  }

  /** Taking the front off the queue leaves the levels complete up to its own. */
  lemma LevelOfFront(g: Graph, start: set<string>, dist: map<string, nat>, queue: Queue, level: nat, depth: nat)
    requires Found(g, start, dist, queue, level, depth) && Expanded(g, queue, dist, level, depth) && queue != []
    requires LevelsComplete(g, start, dist, level)
    ensures LevelsComplete(g, start, dist, queue[0].1)
  {
    hide Ball, Neighbors, Queued, Expanded;
    PopKeeps(g, start, dist, queue, level, depth);
    NextLevelComplete(g, start, dist, level, queue[0].1);
  }

  lemma EdgesMore(g: Graph, visited: set<string>, edges: seq<(string, string)>, u: string, v: string)
    requires EdgesOk(g, visited, edges) && u in visited && v in Neighbors(g, u)
    ensures EdgesOk(g, visited, edges + [(u, v)])
  {
  }

  /** The loop over one node's neighbours, in any order. */
  method Expand(g: Graph, ghost start: set<string>, curr: string, d: nat, depth: nat, maxNodes: nat,
                visited0: set<string>, queue0: Queue, edges0: seq<(string, string)>, ghost dist0: map<string, nat>)
    returns (visited: set<string>, queue: Queue, edges: seq<(string, string)>, ghost dist: map<string, nat>)
    requires visited0 == dist0.Keys && Found(g, start, dist0, queue0, d, depth) && d < depth
    requires curr in dist0 && dist0[curr] == d && |visited0| < maxNodes
    requires Expanding(g, queue0, dist0, d, depth, curr, Neighbors(g, curr))
    requires EdgesOk(g, visited0, edges0)
    ensures visited == dist.Keys && Found(g, start, dist, queue, d, depth)
    ensures |visited| < maxNodes ==> Expanded(g, queue, dist, d, depth)
    ensures |visited| <= maxNodes && EdgesOk(g, visited, edges)
    ensures (visited == visited0 && queue == queue0) || g.nodes - visited < g.nodes - visited0
    ensures OpenedOne(g, curr, dist0, queue0, edges0, dist, queue, edges, {})
  {
    hide Found, Expanded, Expanding, EdgesOk, OpenedOne;
    NothingOpened(g, curr, dist0, queue0, edges0);
    visited, queue, edges, dist := visited0, queue0, edges0, dist0;
    var todo := Neighbors(g, curr);
    while todo != {}
      invariant todo <= Neighbors(g, curr) && curr in dist && dist[curr] == d
      invariant visited == dist.Keys && Found(g, start, dist, queue, d, depth)
      invariant |visited| < maxNodes ==> Expanding(g, queue, dist, d, depth, curr, todo)
      invariant |visited| <= maxNodes && EdgesOk(g, visited, edges) && visited0 <= visited
      invariant OpenedOne(g, curr, dist0, queue0, edges0, dist, queue, edges, todo)
      invariant (visited == visited0 && queue == queue0) || g.nodes - visited < g.nodes - visited0
      decreases todo
    {
      var n :| n in todo;
      EdgesMore(g, visited, edges, curr, n);
      OneFound(g, curr, dist0, queue0, edges0, dist, queue, edges, todo, n, d + 1);
      edges := edges + [(curr, n)];
      if n !in visited && |visited| < maxNodes {
        AddKeeps(g, start, dist, queue, d, depth, curr, todo, n);
        EdgesGrow(g, visited, visited + {n}, edges);
        assert n in g.nodes - visited;
        visited := visited + {n};
        queue := queue + [(n, d + 1)];
        dist := dist[n := d + 1];
      } else {
        SkipKeeps(g, queue, dist, d, depth, curr, todo, n);
      }
      todo := todo - {n};
    }
    if |visited| < maxNodes { ExpansionDone(g, start, dist, queue, d, depth, curr); }
  }

  lemma EdgesGrow(g: Graph, visited: set<string>, visited': set<string>, edges: seq<(string, string)>)
    requires EdgesOk(g, visited, edges) && visited <= visited'
    ensures EdgesOk(g, visited', edges)
  {
  }

  function Start(seeds: seq<string>): (queue: Queue)
    ensures |queue| == |seeds| && forall i :: 0 <= i < |seeds| ==> queue[i] == (seeds[i], 0)
  {
    seq(|seeds|, i requires 0 <= i < |seeds| => (seeds[i], 0))
  }

  lemma SearchStarts(g: Graph, seeds: seq<string>, dist: map<string, nat>, depth: nat)
    requires dist.Keys == (set s | s in seeds) && forall s :: s in dist ==> dist[s] == 0
    ensures Found(g, dist.Keys, dist, Start(seeds), 0, depth)
    ensures Expanded(g, Start(seeds), dist, 0, depth)
    ensures EdgesOk(g, dist.Keys, [])
  {
    var queue := Start(seeds);
    forall u | u in dist ensures Queued(queue, u) {
      var i :| 0 <= i < |seeds| && seeds[i] == u;
      assert queue[i].0 == u;
    }
  }

  lemma SkipKeeps(g: Graph, queue: Queue, dist: map<string, nat>, d: nat, depth: nat, curr: string, todo: set<string>,
                  n: string)
    ensures n in dist && Expanding(g, queue, dist, d, depth, curr, todo) ==>
              Expanding(g, queue, dist, d, depth, curr, todo - {n})
  {
  }

  lemma Outcome(g: Graph, seeds: set<string>, dist: map<string, nat>, queue: Queue, level: nat, depth: nat,
                maxNodes: nat)
    requires Found(g, seeds, dist, queue, level, depth)
    requires |dist.Keys| < maxNodes ==> queue == [] && Expanded(g, queue, dist, level, depth)
    requires |dist.Keys| <= maxNodes || dist.Keys == seeds
    ensures Bounded(g, seeds, depth, maxNodes, dist.Keys)
  {
    var visited, ball := dist.Keys, Ball(g, seeds, depth);
    ReachedInBall(g, seeds, dist, depth, depth);
    if |visited| < maxNodes {
      ExhaustedFindsBall(g, seeds, dist, level, depth, depth);
      assert visited == ball;
      BallGrows(g, seeds, depth, depth + 1);
    } else {
      SubsetSizes(seeds, visited);
      SubsetSizes(visited, ball);
      ReachedInBall(g, seeds, dist, depth, level + 1);
    }
  }

  lemma SubsetSizes(a: set<string>, b: set<string>)
    requires a <= b
    ensures |a| <= |b| && (|a| == |b| ==> a == b)
  {
    assert b == a + (b - a);
    assert |b| == |a| + |b - a|;
  }

  /** The exact outcome: the whole ball when it fits, otherwise the seeds or exactly `maxNodes` of it, and in
      any case complete layers with at most one partial layer around them. */
  ghost predicate Bounded(g: Graph, seeds: set<string>, depth: nat, maxNodes: nat, visited: set<string>) {
    var ball := Ball(g, seeds, depth);
    && seeds <= visited <= ball
    && (|ball| <= maxNodes ==> visited == ball)
    && (|ball| > maxNodes ==> |visited| == if |seeds| > maxNodes then |seeds| else maxNodes)
    && (exists k :: 0 <= k <= depth && Ball(g, seeds, k) <= visited <= Ball(g, seeds, k + 1))
  }
}
