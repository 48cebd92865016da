/** The shortest dependency path between two symbols, found breadth-first and walked back over `prev`. */
module DepPath {
  import opened Prelude
  import opened RepoTypes
  import opened GraphRefresh
  import opened IndexQueries
  import opened GraphWalks
  import opened Neighbourhood

  function Flip(e: Edge): Edge { e.(from := e.to, to := e.from) }

  /** The edge leads from `a` to `b`, as it is in the graph or against its direction. */
  ghost predicate Linked(edges: set<Edge>, a: NodeId, b: NodeId, e: Edge) {
    e.from == a && e.to == b && (e in edges || Flip(e) in edges)
  }

  type Adjacency = map<NodeId, seq<(NodeId, Edge)>>

  function EntriesAt(adjacency: Adjacency, id: NodeId): seq<(NodeId, Edge)> {
    if id in adjacency then adjacency[id] else []
  }

  ghost predicate Lists(adjacency: Adjacency, edges: set<Edge>) {
    forall id, next, e :: (next, e) in EntriesAt(adjacency, id) <==> Linked(edges, id, next, e)
  }

  function AddEntry(adjacency: Adjacency, e: Edge): Adjacency {
    adjacency[e.from := EntriesAt(adjacency, e.from) + [(e.to, e)]]
  }

  lemma EntryAdded(adjacency: Adjacency, e: Edge, id: NodeId, next: NodeId, f: Edge)
    ensures (next, f) in EntriesAt(AddEntry(adjacency, e), id) <==>
            (next, f) in EntriesAt(adjacency, id) || (id == e.from && next == e.to && f == e)
  {
  }

  /** Each edge is entered at both its ends, reversed at the second. */
  method BuildAdjacency(edges: seq<Edge>) returns (adjacency: Adjacency)
    ensures Lists(adjacency, Elems(edges))
  {
    adjacency := map[];
    for k := 0 to |edges|
      invariant Lists(adjacency, Elems(edges[..k]))
    {
      var e := edges[k];
      assert Elems(edges[..k + 1]) == Elems(edges[..k]) + {e};
      forall id, next, f
        ensures (next, f) in EntriesAt(AddEntry(AddEntry(adjacency, e), Flip(e)), id) <==>
                Linked(Elems(edges[..k + 1]), id, next, f)
      {
        EntryAdded(adjacency, e, id, next, f);
        EntryAdded(AddEntry(adjacency, e), Flip(e), id, next, f);
        assert (next, f) in EntriesAt(adjacency, id) <==> Linked(Elems(edges[..k]), id, next, f);
      }
      adjacency := AddEntry(AddEntry(adjacency, e), Flip(e));
    }
    assert edges[..|edges|] == edges;
  }

  type Previous = map<NodeId, (NodeId, Edge)>

  /** Every visited id but a seed was reached from one a step nearer, over a linked edge. */
  ghost predicate Traced(net: Net, seeds: set<NodeId>, visited: set<NodeId>, prev: Previous, depth: map<NodeId, nat>) {
    && seeds <= visited == depth.Keys && prev.Keys == visited - seeds
    && (forall id :: id in seeds ==> depth[id] == 0)
    && forall id :: id in prev ==> prev[id].0 in visited && depth[id] == depth[prev[id].0] + 1
                                   && Linked(net.edges, prev[id].0, id, prev[id].1)
  }

  ghost predicate DepthsMatch(queue: seq<NodeId>, depth: map<NodeId, nat>, level: nat, cut: nat) {
    forall i :: 0 <= i < |queue| ==> queue[i] in depth && depth[queue[i]] == if i < cut then level else level + 1
  }

  lemma LinkedNeighbours(net: Net, current: NodeId, next: NodeId)
    requires Sound(net)
    ensures next in Neighbours(net, {current}) <==> exists e :: Linked(net.edges, current, next, e)
  {
    if e :| Linked(net.edges, current, next, e) {
      if e in net.edges {
        assert Adjacent(net, current, next);
      } else {
        assert Flip(e) in net.edges && Adjacent(net, current, next);
      }
    }
    if next in Neighbours(net, {current}) {
      assert Adjacent(net, current, next);
      var e :| e in net.edges && ((e.from == current && e.to == next) || (e.from == next && e.to == current));
      if e.from == current && e.to == next {
        assert Linked(net.edges, current, next, e);
      } else {
        assert Flip(Flip(e)) == e && Linked(net.edges, current, next, Flip(e));
      }
    }
  }

  /** Visit the entries at the current id. */
  method VisitEntries(entries: seq<(NodeId, Edge)>, current: NodeId, visited0: set<NodeId>, prev0: Previous,
                      ghost net: Net, ghost seeds: set<NodeId>, ghost depth0: map<NodeId, nat>)
    returns (more: seq<NodeId>, visited: set<NodeId>, prev: Previous, ghost depth: map<NodeId, nat>)
    requires Sound(net) && current in visited0 && Traced(net, seeds, visited0, prev0, depth0)
    requires forall next, e :: (next, e) in entries <==> Linked(net.edges, current, next, e)
    ensures visited == visited0 + Neighbours(net, {current}) && Elems(more) == Neighbours(net, {current}) - visited0
    ensures Traced(net, seeds, visited, prev, depth)
    ensures forall id :: id in depth0 ==> depth[id] == depth0[id]
    ensures forall id :: id in more ==> id in depth && depth[id] == depth0[current] + 1
  {
    more, visited, prev, depth := [], visited0, prev0, depth0;
    for k := 0 to |entries|
      invariant Traced(net, seeds, visited, prev, depth) && visited0 <= visited
      invariant forall id :: id in depth0 ==> depth[id] == depth0[id]
      invariant forall id :: id in more ==> id in depth && depth[id] == depth0[current] + 1
      invariant Elems(more) == visited - visited0 <= Neighbours(net, {current})
      invariant forall j :: 0 <= j < k ==> entries[j].0 in visited
    {
      var (next, e) := entries[k];
      assert (next, e) in entries;
      LinkedNeighbours(net, current, next);
      if next !in visited {
        assert Elems(more + [next]) == Elems(more) + {next};
        visited, prev, depth := visited + {next}, prev[next := (current, e)], depth[next := depth0[current] + 1];
        more := more + [next];
      }
    }
    forall next | next in Neighbours(net, {current}) ensures next in visited {
      LinkedNeighbours(net, current, next);
      var e :| Linked(net.edges, current, next, e);
      assert (next, e) in entries;
    }
  }

  /** The search is in step, every visited id is traced, and no target has been taken from the queue yet. */
  ghost predicate Hunting(net: Net, seeds: set<NodeId>, targets: set<NodeId>, queue: seq<NodeId>, seen: set<NodeId>,
                          processed: set<NodeId>, prev: Previous, depth: map<NodeId, nat>, level: nat, cut: nat)
  {
    && Bfs(net, seeds, queue, seen, processed, level, cut)
    && Traced(net, seeds, seen, prev, depth) && DepthsMatch(queue, depth, level, cut)
    && processed !! targets && Inner(net, seeds, level) <= processed
  }

  lemma HuntStart(net: Net, start: seq<NodeId>, targets: set<NodeId>)
    requires Elems(start) <= net.ids
    ensures Hunting(net, Elems(start), targets, start, Elems(start), {}, map[],
                    map id | id in Elems(start) :: 0, 0, |start|)
  {
  }

  /** Before an id is taken, a used-up near part of the queue makes way for the next level. */
  lemma HuntReady(net: Net, seeds: set<NodeId>, targets: set<NodeId>, queue: seq<NodeId>, seen: set<NodeId>,
                  processed: set<NodeId>, prev: Previous, depth: map<NodeId, nat>, level: nat, cut: nat)
    returns (nextLevel: nat, nextCut: nat)
    requires Hunting(net, seeds, targets, queue, seen, processed, prev, depth, level, cut) && queue != []
    ensures Hunting(net, seeds, targets, queue, seen, processed, prev, depth, nextLevel, nextCut) && nextCut > 0
  {
    nextLevel, nextCut := level, cut;
    if cut == 0 {
      BfsAdvance(net, seeds, queue, seen, processed, level);
      nextLevel, nextCut := level + 1, |queue|;
    }
  }

  lemma HuntFound(net: Net, seeds: set<NodeId>, targets: set<NodeId>, queue: seq<NodeId>, seen: set<NodeId>,
                  processed: set<NodeId>, prev: Previous, depth: map<NodeId, nat>, level: nat, cut: nat)
    requires Hunting(net, seeds, targets, queue, seen, processed, prev, depth, level, cut) && cut > 0
    ensures queue[0] in seen && seen <= net.ids && depth[queue[0]] == level && Inner(net, seeds, level) !! targets
  {
  }

  /** Take the first id off the queue and visit its entries. */
  method HuntStep(adjacency: Adjacency, queue0: seq<NodeId>, seen0: set<NodeId>, prev0: Previous,
                  ghost net: Net, ghost seeds: set<NodeId>, ghost targets: set<NodeId>, ghost processed: set<NodeId>,
                  ghost depth0: map<NodeId, nat>, ghost level: nat, ghost cut: nat)
    returns (queue: seq<NodeId>, seen: set<NodeId>, prev: Previous, ghost depth: map<NodeId, nat>)
    requires Sound(net) && Lists(adjacency, net.edges)
    requires Hunting(net, seeds, targets, queue0, seen0, processed, prev0, depth0, level, cut)
    requires cut > 0 && queue0[0] !in targets
    ensures Hunting(net, seeds, targets, queue, seen, processed + {queue0[0]}, prev, depth, level, cut - 1)
    ensures net.ids - seen < net.ids - seen0 || (seen0 == seen && |queue| < |queue0|)
  {
    var current := queue0[0];
    HuntFound(net, seeds, targets, queue0, seen0, processed, prev0, depth0, level, cut);
    var more;
    more, seen, prev, depth := VisitEntries(EntriesAt(adjacency, current), current, seen0, prev0, net, seeds, depth0);
    BfsStep(net, seeds, queue0, seen0, processed, level, cut, more);
    QueueDepths(queue0, more, depth0, depth, level, cut);
    NewlySeen(seen0, seen, more, net.ids);
    queue := queue0[1..] + more;
  }

  /** Search until a target is taken from the queue. */
  method FindTarget(adjacency: Adjacency, start: seq<NodeId>, targets: set<NodeId>, ghost net: Net)
    returns (found: Option<NodeId>, prev: Previous, ghost depth: map<NodeId, nat>, ghost visited: set<NodeId>)
    requires Sound(net) && Lists(adjacency, net.edges) && Elems(start) <= net.ids
    ensures Traced(net, Elems(start), visited, prev, depth) && visited <= net.ids
    ensures found == None ==> forall k: nat :: Ball(net, Elems(start), k) !! targets
    ensures found.Some? ==> found.value in targets * visited && Inner(net, Elems(start), depth[found.value]) !! targets
  {
    ghost var seeds := Elems(start);
    var queue, seen := start, set id | id in start;
    prev, depth := map[], map id | id in seeds :: 0;
    ghost var processed: set<NodeId>, level: nat, cut: nat := {}, 0, |queue|;
    HuntStart(net, start, targets);
    while queue != []
      invariant Hunting(net, seeds, targets, queue, seen, processed, prev, depth, level, cut)
      decreases net.ids - seen, |queue|
    {
      level, cut := HuntReady(net, seeds, targets, queue, seen, processed, prev, depth, level, cut);
      var current := queue[0];
      HuntFound(net, seeds, targets, queue, seen, processed, prev, depth, level, cut);
      if current in targets {
        return Some(current), prev, depth, seen;
      }
      queue, seen, prev, depth := HuntStep(adjacency, queue, seen, prev, net, seeds, targets, processed, depth, level,
                                           cut);
      processed, cut := processed + {current}, cut - 1;
    }
    found, visited := None, seen;
    HuntFailed(net, seeds, targets, queue, seen, processed, prev, depth, level, cut);
  }

  lemma HuntFailed(net: Net, seeds: set<NodeId>, targets: set<NodeId>, queue: seq<NodeId>, seen: set<NodeId>,
                   processed: set<NodeId>, prev: Previous, depth: map<NodeId, nat>, level: nat, cut: nat)
    requires Hunting(net, seeds, targets, queue, seen, processed, prev, depth, level, cut) && queue == []
    ensures seen <= net.ids && forall k: nat :: Ball(net, seeds, k) !! targets
  {
    forall k: nat ensures Ball(net, seeds, k) !! targets {
      NoTarget(net, seeds, queue, seen, processed, level, cut, targets, k);
    }
  }

  /** Either fewer ids remain unseen, or nothing was queued. */
  lemma NewlySeen(before: set<NodeId>, after: set<NodeId>, more: seq<NodeId>, ids: set<NodeId>)
    requires before <= after <= ids && Elems(more) == after - before
    ensures ids - after < ids - before || (more == [] && after == before)
  {
    if more != [] {
      assert more[0] in Elems(more);
      assert more[0] in ids - before && more[0] !in ids - after;
    }
  }

  lemma QueueDepths(queue: seq<NodeId>, more: seq<NodeId>, before: map<NodeId, nat>, after: map<NodeId, nat>,
                    level: nat, cut: nat)
    requires DepthsMatch(queue, before, level, cut) && 0 < cut <= |queue|
    requires before.Keys <= after.Keys && forall id :: id in before ==> after[id] == before[id]
    requires forall id :: id in more ==> id in after && after[id] == level + 1
    ensures DepthsMatch(queue[1..] + more, after, level, cut - 1)
  {
  }

  lemma NoTarget(net: Net, seeds: set<NodeId>, queue: seq<NodeId>, seen: set<NodeId>, processed: set<NodeId>,
                 level: nat, cut: nat, targets: set<NodeId>, k: nat)
    requires Bfs(net, seeds, queue, seen, processed, level, cut) && queue == [] && processed !! targets
    ensures Ball(net, seeds, k) !! targets
  {
    BfsClosed(net, seeds, queue, seen, processed, level, cut);
    ReachedAll(net, seeds, level, k);
  }

  lemma ReachedAll(net: Net, seeds: set<NodeId>, level: nat, k: nat)
    requires Closed(net, Ball(net, seeds, level))
    ensures Ball(net, seeds, k) <= Ball(net, seeds, level)
  {
    if k <= level {
      BallGrows(net, seeds, k, level);
    } else {
      BallClosed(net, seeds, level, k);
    }
  }

  // Walking back.

  datatype PathStep = PathStep(fromId: NodeId, fromName: string, fromPath: Option<Path>, edgeKind: EdgeKind,
                               toId: NodeId, toName: string, toPath: Option<Path>)

  /** A step along some edge of the graph, in one direction or the other, with both nodes described. */
  ghost predicate IsStep(g: Graph, s: PathStep) {
    && (exists e :: e in g.edges && e.kind == s.edgeKind
          && ((e.from == s.fromId && e.to == s.toId) || (e.from == s.toId && e.to == s.fromId)))
    && (exists n :: n in g.nodes && n.id == s.fromId && n.name == s.fromName && n.path == s.fromPath)
    && (exists n :: n in g.nodes && n.id == s.toId && n.name == s.toName && n.path == s.toPath)
  }

  ghost predicate IsChain(g: Graph, steps: seq<PathStep>, first: NodeId, last: NodeId) {
    && (forall i :: 0 <= i < |steps| ==> IsStep(g, steps[i]))
    && (forall i :: 0 <= i < |steps| - 1 ==> steps[i].toId == steps[i + 1].fromId)
    && if steps == [] then first == last else steps[0].fromId == first && steps[|steps| - 1].toId == last
  }

  lemma ChainCons(g: Graph, s: PathStep, steps: seq<PathStep>, last: NodeId)
    requires IsStep(g, s) && IsChain(g, steps, s.toId, last)
    ensures IsChain(g, [s] + steps, s.fromId, last)
  {
    var all := [s] + steps;
    forall i | 0 <= i < |all| ensures IsStep(g, all[i]) {
      if i > 0 {
        assert all[i] == steps[i - 1];
      }
    }
    forall i | 0 <= i < |all| - 1 ensures all[i].toId == all[i + 1].fromId {
      if i > 0 {
        assert all[i] == steps[i - 1] && all[i + 1] == steps[i];
      }
    }
  }

  /** The steps are collected from the target backwards and then reversed. */
  function Reversed<T>(s: seq<T>): seq<T> {
    if s == [] then [] else [s[|s| - 1]] + Reversed(s[..|s| - 1])
  }

  /** Some edge of this id lacks a node, which only a stored graph that is not well formed can bring about. */
  ghost predicate Frayed(g: Graph, id: NodeId) {
    exists e :: e in g.edges && (e.from == id || e.to == id) && !(e.from in Ids(g.nodes) && e.to in Ids(g.nodes))
  }

  /** The walk back ends at a seed, or where a node is missing. */
  method WalkBack(g: Graph, target: NodeId, prev: Previous, ghost seeds: set<NodeId>, ghost visited: set<NodeId>,
                  ghost depth: map<NodeId, nat>)
    returns (steps: seq<PathStep>, ghost first: NodeId)
    requires target in visited && Traced(NetOf(g), seeds, visited, prev, depth)
    ensures IsChain(g, steps, first, target) && |steps| <= depth[target]
    ensures (first in seeds && |steps| == depth[target]) || Frayed(g, first)
  {
    var nodeAt := NodeMap(g.nodes);
    var back := [];
    var cursor := target;
    while cursor in prev
      invariant cursor in visited && IsChain(g, Reversed(back), cursor, target)
      invariant |Reversed(back)| + depth[cursor] == depth[target]
      decreases depth[cursor]
    {
      var (prevId, e) := prev[cursor];
      if prevId !in nodeAt || cursor !in nodeAt {
        MissingNode(g, prevId, cursor, e);
        return Reversed(back), cursor;
      }
      var from, to := nodeAt[prevId], nodeAt[cursor];
      var step := PathStep(prevId, from.name, from.path, e.kind, cursor, to.name, to.path);
      StepIsReal(g, e, from, to, step);
      ChainCons(g, step, Reversed(back), target);
      assert (back + [step])[..|back|] == back;
      back := back + [step];
      cursor := prevId;
    }
    steps, first := Reversed(back), cursor;
  }

  lemma MissingNode(g: Graph, a: NodeId, b: NodeId, e: Edge)
    requires Linked(Elems(g.edges), a, b, e) && !(a in Ids(g.nodes) && b in Ids(g.nodes))
    ensures Frayed(g, b)
  {
    if e !in Elems(g.edges) {
      assert Flip(e) in g.edges;
    }
  }

  lemma NothingFrayed(g: Graph, id: NodeId)
    requires EndpointsPresent(g)
    ensures !Frayed(g, id)
  {
  }

  lemma StepIsReal(g: Graph, e: Edge, from: Node, to: Node, s: PathStep)
    requires Linked(Elems(g.edges), from.id, to.id, e) && from in g.nodes && to in g.nodes
    requires s == PathStep(from.id, from.name, from.path, e.kind, to.id, to.name, to.path)
    ensures IsStep(g, s)
  {
  }

  datatype PathResult = PathResult(found: bool, steps: seq<PathStep>)

  ghost predicate Connected(net: Net, sources: set<NodeId>, targets: set<NodeId>) {
    exists walk, s, t :: s in sources && t in targets && WalkTo(net, {s}, walk, t)
  }

  /** Every walk between the two has at least this many steps. */
  ghost predicate NoneShorter(net: Net, sources: set<NodeId>, targets: set<NodeId>, k: nat) {
    forall walk, s, t :: s in sources && t in targets && WalkTo(net, {s}, walk, t) ==> k + 1 <= |walk|
  }

  /** The steps chain from a source to a target. */
  ghost predicate Leads(g: Graph, sources: set<NodeId>, targets: set<NodeId>, steps: seq<PathStep>) {
    exists source, target :: source in sources && target in targets && IsChain(g, steps, source, target)
  }

  /** The steps chain to a target, from where a node is missing. */
  ghost predicate BreaksOff(g: Graph, targets: set<NodeId>, steps: seq<PathStep>) {
    exists first, target :: Frayed(g, first) && target in targets && IsChain(g, steps, first, target)
  }

  method DepPathBetween(g: Graph, lower: string -> string, fromSymbol: string, toSymbol: string, exact: bool)
    returns (r: PathResult)
    ensures var sources := Ids(GraphSymbolLookup(g, lower, fromSymbol, exact));
            var targets := Ids(GraphSymbolLookup(g, lower, toSymbol, exact));
            && (r.found <==> Connected(NetOf(g), sources, targets))
            && (r.found ==> NoneShorter(NetOf(g), sources, targets, |r.steps|))
            && (r.found ==> Leads(g, sources, targets, r.steps) || BreaksOff(g, targets, r.steps))
            && (r.found && EndpointsPresent(g) ==> Leads(g, sources, targets, r.steps))
            && (!r.found ==> r.steps == [])
  {
    var fromMatches := GraphSymbolLookup(g, lower, fromSymbol, exact);
    var toMatches := GraphSymbolLookup(g, lower, toSymbol, exact);
    var start := seq(|fromMatches|, i requires 0 <= i < |fromMatches| => fromMatches[i].id);
    assert Elems(start) == Ids(fromMatches) by {
      forall n | n in fromMatches ensures n.id in Elems(start) {
        var i :| 0 <= i < |fromMatches| && fromMatches[i] == n;
        assert start[i] == n.id;
      }
    }
    r := PathFrom(g, start, NodeIds(toMatches));
  }

  method PathFrom(g: Graph, start: seq<NodeId>, targets: set<NodeId>) returns (r: PathResult)
    requires Elems(start) <= Ids(g.nodes)
    ensures r.found <==> Connected(NetOf(g), Elems(start), targets)
    ensures r.found ==> NoneShorter(NetOf(g), Elems(start), targets, |r.steps|)
    ensures r.found ==> Leads(g, Elems(start), targets, r.steps) || BreaksOff(g, targets, r.steps)
    ensures r.found && EndpointsPresent(g) ==> Leads(g, Elems(start), targets, r.steps)
    ensures !r.found ==> r.steps == []
  {
    if start == [] || targets == {} {
      return PathResult(false, []);
    }
    ghost var net := NetOf(g);
    var adjacency := BuildAdjacency(g.edges);
    var found, prev;
    ghost var depth, visited;
    found, prev, depth, visited := FindTarget(adjacency, start, targets, net);
    if found == None {
      NoWalk(net, Elems(start), targets);
      return PathResult(false, []);
    }
    var steps;
    ghost var first;
    steps, first := WalkBack(g, found.value, prev, Elems(start), visited, depth);
    r := PathResult(true, steps);
    WalksAtLeast(net, Elems(start), targets, depth[found.value]);
    TracedConnects(net, Elems(start), visited, prev, depth, found.value, targets);
    if EndpointsPresent(g) {
      NothingFrayed(g, first);
    }
  }

  /** What is traced is reached by a walk. */
  lemma {:induction false} TracedWalk(net: Net, seeds: set<NodeId>, visited: set<NodeId>, prev: Previous,
                                      depth: map<NodeId, nat>, id: NodeId)
    returns (walk: seq<NodeId>, seed: NodeId)
    requires Traced(net, seeds, visited, prev, depth) && id in visited
    ensures seed in seeds && WalkTo(net, {seed}, walk, id) && |walk| == depth[id] + 1
    decreases depth[id]
  {
    if id in seeds {
      walk, seed := [id], id;
    } else {
      var (before, e) := prev[id];
      walk, seed := TracedWalk(net, seeds, visited, prev, depth, before);
      LinkedAdjacent(net, before, id, e);
      WalkOn(net, seed, walk, before, id);
      walk := walk + [id];
    }
  }

  lemma LinkedAdjacent(net: Net, a: NodeId, b: NodeId, e: Edge)
    requires Linked(net.edges, a, b, e)
    ensures Adjacent(net, a, b)
  {
    if e !in net.edges {
      assert Flip(e) in net.edges;
    }
  }

  lemma WalkOn(net: Net, seed: NodeId, walk: seq<NodeId>, a: NodeId, b: NodeId)
    requires WalkTo(net, {seed}, walk, a) && Adjacent(net, a, b)
    ensures WalkTo(net, {seed}, walk + [b], b)
  {
    var all := walk + [b];
    forall i | 0 <= i < |all| - 1 ensures Adjacent(net, all[i], all[i + 1]) {
      if i < |walk| - 1 {
        assert Adjacent(net, walk[i], walk[i + 1]);
      }
    }
  }

  lemma TracedConnects(net: Net, seeds: set<NodeId>, visited: set<NodeId>, prev: Previous, depth: map<NodeId, nat>,
                       id: NodeId, targets: set<NodeId>)
    requires Traced(net, seeds, visited, prev, depth) && id in visited && id in targets
    ensures Connected(net, seeds, targets)
  {
    var walk, seed := TracedWalk(net, seeds, visited, prev, depth, id);
  }

  lemma NoWalk(net: Net, sources: set<NodeId>, targets: set<NodeId>)
    requires Sound(net) && forall k: nat :: Ball(net, sources, k) !! targets
    ensures !Connected(net, sources, targets)
  {
    forall walk, s, t | s in sources && t in targets && WalkTo(net, {s}, walk, t) ensures false {
      assert Ball(net, sources, |walk| - 1) !! targets;
      WalkInBall(net, sources, walk, t);
    }
  }

  lemma WalksAtLeast(net: Net, sources: set<NodeId>, targets: set<NodeId>, k: nat)
    requires Sound(net) && Inner(net, sources, k) !! targets
    ensures NoneShorter(net, sources, targets, k)
  {
    forall walk, s, t | s in sources && t in targets && WalkTo(net, {s}, walk, t) ensures k + 1 <= |walk| {
      WalkInBall(net, sources, walk, t);
      if |walk| <= k {
        BallGrows(net, sources, |walk| - 1, k - 1);
      }
    }
  }
}
