/** Distance in the undirected view of the edges, and what a breadth-first search keeps. */
module GraphWalks {
  import opened Prelude
  import opened RepoTypes

  /** The ids of a graph and its edges, all of whose ends are among the ids. */
  datatype Net = Net(ids: set<NodeId>, edges: set<Edge>)

  ghost predicate Sound(net: Net) {
    forall e :: e in net.edges ==> e.from in net.ids && e.to in net.ids
  }

  ghost predicate Adjacent(net: Net, a: NodeId, b: NodeId) {
    exists e :: e in net.edges && ((e.from == a && e.to == b) || (e.from == b && e.to == a))
  }

  ghost function Neighbours(net: Net, ids: set<NodeId>): set<NodeId> {
    set v | v in net.ids && exists a :: a in ids && Adjacent(net, a, v)
  }

  /** The edges with an end in the given set. */
  ghost function Incident(net: Net, ids: set<NodeId>): set<Edge> {
    set e | e in net.edges && (e.from in ids || e.to in ids)
  }

  /** The ids within undirected distance `k` of the seeds. */
  ghost function Ball(net: Net, seeds: set<NodeId>, k: nat): set<NodeId> {
    if k == 0 then seeds else Ball(net, seeds, k - 1) + Neighbours(net, Ball(net, seeds, k - 1))
  }

  /** The ids strictly within distance `k`. */
  ghost function Inner(net: Net, seeds: set<NodeId>, k: nat): set<NodeId> {
    if k == 0 then {} else Ball(net, seeds, k - 1)
  }

  ghost predicate IsWalk(net: Net, walk: seq<NodeId>) {
    walk != [] && forall i :: 0 <= i < |walk| - 1 ==> Adjacent(net, walk[i], walk[i + 1])
  }

  ghost predicate WalkTo(net: Net, seeds: set<NodeId>, walk: seq<NodeId>, id: NodeId) {
    IsWalk(net, walk) && walk[0] in seeds && walk[|walk| - 1] == id
  }

  lemma {:induction false} BallGrows(net: Net, seeds: set<NodeId>, j: nat, k: nat)
    requires j <= k
    ensures Ball(net, seeds, j) <= Ball(net, seeds, k)
    decreases k
  {
    if j < k {
      BallGrows(net, seeds, j, k - 1);
    }
  }

  lemma {:induction false} WalkInBall(net: Net, seeds: set<NodeId>, walk: seq<NodeId>, id: NodeId)
    requires Sound(net) && WalkTo(net, seeds, walk, id)
    ensures id in Ball(net, seeds, |walk| - 1)
    decreases |walk|
  {
    if |walk| > 1 {
      var front := walk[..|walk| - 1];
      var before := front[|front| - 1];
      WalkInBall(net, seeds, front, before);
      assert Adjacent(net, walk[|walk| - 2], walk[|walk| - 2 + 1]);
      assert id in Neighbours(net, Ball(net, seeds, |front| - 1));
    }
  }

  lemma {:induction false} BallHasWalk(net: Net, seeds: set<NodeId>, k: nat, id: NodeId) returns (walk: seq<NodeId>)
    requires id in Ball(net, seeds, k)
    ensures WalkTo(net, seeds, walk, id) && |walk| <= k + 1
  {
    if k == 0 {
      walk := [id];
    } else if id in Ball(net, seeds, k - 1) {
      walk := BallHasWalk(net, seeds, k - 1, id);
    } else {
      var before :| before in Ball(net, seeds, k - 1) && Adjacent(net, before, id);
      var front := BallHasWalk(net, seeds, k - 1, before);
      walk := front + [id];
      forall i | 0 <= i < |walk| - 1 ensures Adjacent(net, walk[i], walk[i + 1]) {
        if i < |front| - 1 {
          assert Adjacent(net, front[i], front[i + 1]);
        }
      }
    }
  }

  /** The balls are exactly the ids that some walk of that length reaches. */
  lemma BallIsDistance(net: Net, seeds: set<NodeId>, k: nat, id: NodeId)
    requires Sound(net)
    ensures id in Ball(net, seeds, k) <==> exists walk :: WalkTo(net, seeds, walk, id) && |walk| <= k + 1
  {
    if id in Ball(net, seeds, k) {
      var _ := BallHasWalk(net, seeds, k, id);
    }
    if walk :| WalkTo(net, seeds, walk, id) && |walk| <= k + 1 {
      WalkInBall(net, seeds, walk, id);
      BallGrows(net, seeds, |walk| - 1, k);
    }
  }

  ghost predicate Closed(net: Net, ids: set<NodeId>) {
    forall a, b :: a in ids && b in net.ids && Adjacent(net, a, b) ==> b in ids
  }

  lemma ClosedStays(net: Net, ids: set<NodeId>)
    requires Closed(net, ids)
    ensures ids + Neighbours(net, ids) == ids
  {
  }

  lemma {:induction false} BallClosed(net: Net, seeds: set<NodeId>, j: nat, k: nat)
    requires j <= k && Closed(net, Ball(net, seeds, j))
    ensures Ball(net, seeds, k) == Ball(net, seeds, j)
    decreases k
  {
    if j < k {
      BallClosed(net, seeds, j, k - 1);
      ClosedStays(net, Ball(net, seeds, j));
      assert Ball(net, seeds, k) == Ball(net, seeds, k - 1) + Neighbours(net, Ball(net, seeds, k - 1));
    }
  }

  lemma NeighboursSplit(net: Net, a: set<NodeId>, b: set<NodeId>)
    ensures Neighbours(net, a + b) == Neighbours(net, a) + Neighbours(net, b)
  {
  }

  /** The queue holds ids at distance `level`, then `cut` ids on, ids one further; what has left it is processed. */
  ghost predicate Bfs(net: Net, seeds: set<NodeId>, queue: seq<NodeId>, seen: set<NodeId>,
                      processed: set<NodeId>, level: nat, cut: nat)
  {
    && cut <= |queue|
    && Elems(queue[..cut]) <= Ball(net, seeds, level)
    && seen == Ball(net, seeds, level) + Elems(queue[cut..])
    && Elems(queue[cut..]) <= Neighbours(net, Ball(net, seeds, level)) - Ball(net, seeds, level)
    && processed <= Ball(net, seeds, level) <= processed + Elems(queue[..cut])
    && Neighbours(net, processed) <= seen <= net.ids
  }

  /** Taking the first id and adding its unseen neighbours keeps the search in step. */
  lemma BfsStep(net: Net, seeds: set<NodeId>, queue: seq<NodeId>, seen: set<NodeId>, processed: set<NodeId>,
                level: nat, cut: nat, more: seq<NodeId>)
    requires Bfs(net, seeds, queue, seen, processed, level, cut) && cut > 0
    requires Elems(more) == Neighbours(net, {queue[0]}) - seen
    ensures Bfs(net, seeds, queue[1..] + more, seen + Neighbours(net, {queue[0]}), processed + {queue[0]}, level,
            cut - 1)
  {
    var q := queue[1..] + more;
    assert queue[..cut] == [queue[0]] + q[..cut - 1];
    assert q[cut - 1..] == queue[cut..] + more;
    assert Elems(q[cut - 1..]) == Elems(queue[cut..]) + Elems(more);
    NeighboursSplit(net, processed, {queue[0]});
    assert queue[0] in Elems(queue[..cut]);
    assert Neighbours(net, {queue[0]}) <= Neighbours(net, Ball(net, seeds, level));
  }

  /** When the near part of the queue is used up, everything at the next distance has been seen. */
  lemma BfsAdvance(net: Net, seeds: set<NodeId>, queue: seq<NodeId>, seen: set<NodeId>, processed: set<NodeId>,
                   level: nat)
    requires Bfs(net, seeds, queue, seen, processed, level, 0)
    ensures seen == Ball(net, seeds, level + 1) && processed == Ball(net, seeds, level)
    ensures Bfs(net, seeds, queue, seen, processed, level + 1, |queue|)
  {
  }

  lemma BfsClosed(net: Net, seeds: set<NodeId>, queue: seq<NodeId>, seen: set<NodeId>, processed: set<NodeId>,
                  level: nat, cut: nat)
    requires Bfs(net, seeds, queue, seen, processed, level, cut) && queue == []
    ensures seen == processed == Ball(net, seeds, level) && Closed(net, seen)
  {
  }

  lemma ClosedEnd(net: Net, seeds: set<NodeId>, level: nat, k: nat)
    requires Closed(net, Ball(net, seeds, level)) && level < k
    ensures Ball(net, seeds, k) == Inner(net, seeds, k) == Ball(net, seeds, level)
  {
  }

  /** An empty queue means the search has reached all there is to reach. */
  lemma BfsDone(net: Net, seeds: set<NodeId>, queue: seq<NodeId>, seen: set<NodeId>, processed: set<NodeId>,
                level: nat, cut: nat, k: nat)
    requires Bfs(net, seeds, queue, seen, processed, level, cut) && queue == [] && level < k
    ensures seen == Ball(net, seeds, k) && processed == Inner(net, seeds, k)
  {
    BfsClosed(net, seeds, queue, seen, processed, level, cut);
    ClosedEnd(net, seeds, level, k);
  }
}
