/** The two bounded searches: one scans every edge of the graph, the other follows the index. */
module Neighbourhood {
  import opened Prelude
  import opened RepoTypes
  import opened GraphRefresh
  import opened RepoIndex
  import opened IndexQueries
  import opened GraphWalks

  ghost function QueuedIds(queue: seq<(NodeId, nat)>): seq<NodeId> {
    seq(|queue|, i requires 0 <= i < |queue| => queue[i].0)
  }

  /** The state of a bounded search: in step until the limit is reached, and finished from then on. */
  ghost predicate Searching(net: Net, seeds: set<NodeId>, queue: seq<(NodeId, nat)>, seen: set<NodeId>,
                            processed: set<NodeId>, level: nat, cut: nat, limit: nat)
  {
    && level <= limit
    && cut <= |queue|
    && (forall i :: 0 <= i < |queue| ==> queue[i].1 == if i < cut then level else level + 1)
    && seen <= net.ids
    && if level < limit then Bfs(net, seeds, QueuedIds(queue), seen, processed, level, cut)
       else cut == |queue| && seen == Ball(net, seeds, limit) && processed == Inner(net, seeds, limit)
  }

  lemma SearchStart(net: Net, queue: seq<(NodeId, nat)>, limit: nat)
    requires Elems(QueuedIds(queue)) <= net.ids && forall i :: 0 <= i < |queue| ==> queue[i].1 == 0
    ensures Searching(net, Elems(QueuedIds(queue)), queue, Elems(QueuedIds(queue)), {}, 0, |queue|, limit)
  {
  }

  /** Before an entry is taken, a used-up near part of the queue makes way for the next level. */
  lemma SearchReady(net: Net, seeds: set<NodeId>, queue: seq<(NodeId, nat)>, seen: set<NodeId>, processed: set<NodeId>,
                    level: nat, cut: nat, limit: nat)
    returns (nextLevel: nat, nextCut: nat)
    requires Searching(net, seeds, queue, seen, processed, level, cut, limit) && queue != []
    ensures Searching(net, seeds, queue, seen, processed, nextLevel, nextCut, limit) && nextCut > 0
  {
    nextLevel, nextCut := level, cut;
    if cut == 0 {
      var ids := QueuedIds(queue);
      assert |ids| == |queue| && level < limit;
      BfsAdvance(net, seeds, ids, seen, processed, level);
      nextLevel, nextCut := level + 1, |queue|;
      if nextLevel == limit {
        assert limit - 1 == level && processed == Inner(net, seeds, limit);
      } else {
        assert Bfs(net, seeds, ids, seen, processed, nextLevel, nextCut);
      }
    }
  }

  lemma QueuedNext(queue: seq<(NodeId, nat)>, more: seq<(NodeId, nat)>)
    requires queue != []
    ensures QueuedIds(queue[1..] + more) == QueuedIds(queue)[1..] + QueuedIds(more)
  {
  }

  lemma SearchStep(net: Net, seeds: set<NodeId>, queue: seq<(NodeId, nat)>, seen: set<NodeId>,
                   processed: set<NodeId>, level: nat, cut: nat, limit: nat, more: seq<(NodeId, nat)>)
    requires Searching(net, seeds, queue, seen, processed, level, cut, limit) && cut > 0 && level < limit
    requires forall i :: 0 <= i < |more| ==> more[i].1 == level + 1
    requires Elems(QueuedIds(more)) == Neighbours(net, {queue[0].0}) - seen
    ensures Searching(net, seeds, queue[1..] + more, seen + Neighbours(net, {queue[0].0}),
                      processed + {queue[0].0}, level, cut - 1, limit)
  {
    BfsStep(net, seeds, QueuedIds(queue), seen, processed, level, cut, QueuedIds(more));
    QueuedNext(queue, more);
  }

  lemma SearchSkip(net: Net, seeds: set<NodeId>, queue: seq<(NodeId, nat)>, seen: set<NodeId>,
                   processed: set<NodeId>, level: nat, cut: nat, limit: nat)
    requires Searching(net, seeds, queue, seen, processed, level, cut, limit) && queue != [] && level == limit
    ensures Searching(net, seeds, queue[1..], seen, processed, level, cut - 1, limit)
  {
  }

  lemma SearchDone(net: Net, seeds: set<NodeId>, queue: seq<(NodeId, nat)>, seen: set<NodeId>,
                   processed: set<NodeId>, level: nat, cut: nat, limit: nat)
    requires Searching(net, seeds, queue, seen, processed, level, cut, limit) && queue == []
    ensures seen == Ball(net, seeds, limit) && processed == Inner(net, seeds, limit)
  {
    if level < limit {
      BfsDone(net, seeds, QueuedIds(queue), seen, processed, level, cut, limit);
    }
  }

  lemma QueuedAppend(a: seq<(NodeId, nat)>, id: NodeId, depth: nat)
    ensures Elems(QueuedIds(a + [(id, depth)])) == Elems(QueuedIds(a)) + {id}
  {
    assert QueuedIds(a + [(id, depth)]) == QueuedIds(a) + [id];
  }

  /** Queue an id one step further on, unless it has been seen. */
  method Visit(next: NodeId, depth: nat, more0: seq<(NodeId, nat)>, seen0: set<NodeId>)
    returns (more: seq<(NodeId, nat)>, seen: set<NodeId>)
    requires forall i :: 0 <= i < |more0| ==> more0[i].1 == depth + 1
    ensures forall i :: 0 <= i < |more| ==> more[i].1 == depth + 1
    ensures Elems(QueuedIds(more)) == Elems(QueuedIds(more0)) + ({next} - seen0)
    ensures seen == seen0 + {next}
  {
    more, seen := more0, seen0;
    if next !in seen {
      QueuedAppend(more, next, depth + 1);
      seen := seen + {next};
      more := more + [(next, depth + 1)];
    }
  }

  /** The whole list of edges is scanned for those at the current id. */
  method ScanIncident(edges: seq<Edge>, current: NodeId, depth: nat, seen0: set<NodeId>, included0: seq<Edge>,
                      ghost net: Net)
    returns (more: seq<(NodeId, nat)>, seen: set<NodeId>, included: seq<Edge>)
    requires Sound(net) && net.edges == Elems(edges)
    ensures forall i :: 0 <= i < |more| ==> more[i].1 == depth + 1
    ensures Elems(QueuedIds(more)) == Neighbours(net, {current}) - seen0
    ensures seen == seen0 + Neighbours(net, {current})
    ensures Elems(included) == Elems(included0) + Incident(net, {current})
    ensures Distinct(included0) ==> Distinct(included)
  {
    more, seen, included := [], seen0, included0;
    ghost var part := net.(edges := {});
    for k := 0 to |edges|
      invariant part == net.(edges := Elems(edges[..k]))
      invariant forall i :: 0 <= i < |more| ==> more[i].1 == depth + 1
      invariant Elems(QueuedIds(more)) == Neighbours(part, {current}) - seen0
      invariant seen == seen0 + Neighbours(part, {current})
      invariant Elems(included) == Elems(included0) + Incident(part, {current})
      invariant Distinct(included0) ==> Distinct(included)
    {
      var e := edges[k];
      assert e in net.edges;
      EdgeAdds(part, e, current);
      assert Elems(edges[..k + 1]) == Elems(edges[..k]) + {e};
      part := part.(edges := part.edges + {e});
      if e.from != current && e.to != current {
        continue;
      }
      more, seen := Visit(if e.from == current then e.to else e.from, depth, more, seen);
      if e !in included {
        assert Elems(included + [e]) == Elems(included) + {e};
        included := included + [e];
      }
    }
    assert edges[..|edges|] == edges && part == net;
  }

  lemma EdgeAdds(net: Net, e: Edge, current: NodeId)
    requires e.from in net.ids && e.to in net.ids
    ensures var more := net.(edges := net.edges + {e});
            && Neighbours(more, {current}) == Neighbours(net, {current})
               + (if e.from == current then {e.to} else if e.to == current then {e.from} else {})
            && Incident(more, {current}) == Incident(net, {current})
               + (if e.from == current || e.to == current then {e} else {})
  {
    var more := net.(edges := net.edges + {e});
    forall v ensures Adjacent(more, current, v) <==>
        Adjacent(net, current, v) || (e.from == current && e.to == v) || (e.from == v && e.to == current) {
      if (e.from == current && e.to == v) || (e.from == v && e.to == current) {
        assert e in more.edges;
      }
      if Adjacent(net, current, v) {
        var f :| f in net.edges && ((f.from == current && f.to == v) || (f.from == v && f.to == current));
        assert f in more.edges;
      }
    }
  }

  lemma IncidentSplit(net: Net, a: set<NodeId>, b: set<NodeId>)
    ensures Incident(net, a + b) == Incident(net, a) + Incident(net, b)
  {
  }

  /** The ids of a graph are those of its nodes and those its edges mention: a stored graph may lack a node. */
  ghost function NetOf(g: Graph): (net: Net)
    ensures Sound(net)
  {
    Net(Ids(g.nodes) + EndpointIds(g.edges), Elems(g.edges))
  }

  lemma WholeNet(g: Graph)
    requires EndpointsPresent(g)
    ensures NetOf(g) == Net(Ids(g.nodes), Elems(g.edges))
  {
  }

  /** Where every edge has its nodes, so does every id in reach. */
  lemma BallPresent(g: Graph, seeds: set<NodeId>, k: nat)
    requires EndpointsPresent(g) && seeds <= Ids(g.nodes)
    ensures Ball(NetOf(g), seeds, k) * Ids(g.nodes) == Ball(NetOf(g), seeds, k)
  {
    WholeNet(g);
    StoredBall(NetOf(g), seeds, k);
  }

  method GraphNeighbourhood(g: Graph, seedIds: seq<NodeId>, maxDepth: nat)
    returns (nodes: seq<Node>, included: seq<Edge>)
    requires Elems(seedIds) <= Ids(g.nodes)
    ensures Distinct(included) && Elems(included) == Incident(NetOf(g), Inner(NetOf(g), Elems(seedIds), maxDepth))
    ensures UniqueIds(nodes) && Ids(nodes) == Ball(NetOf(g), Elems(seedIds), maxDepth) * Ids(g.nodes)
    ensures forall n :: n in nodes ==> n in g.nodes
  {
    var queue: seq<(NodeId, nat)>, seen := [], {};
    for i := 0 to |seedIds|
      invariant QueuedIds(queue) == seedIds[..i] && seen == Elems(seedIds[..i])
      invariant forall j :: 0 <= j < |queue| ==> queue[j].1 == 0
    {
      assert Elems(seedIds[..i + 1]) == Elems(seedIds[..i]) + {seedIds[i]};
      queue := queue + [(seedIds[i], 0)];
      seen := seen + {seedIds[i]};
    }
    assert seedIds[..|seedIds|] == seedIds;
    ghost var net, seeds := NetOf(g), Elems(seedIds);
    ghost var processed: set<NodeId>, level: nat, cut: nat := {}, 0, |queue|;
    included := [];
    SearchStart(net, queue, maxDepth);
    while queue != []
      invariant Searching(net, seeds, queue, seen, processed, level, cut, maxDepth)
      invariant Distinct(included) && Elems(included) == Incident(net, processed)
      decreases net.ids - seen, |queue|
    {
      level, cut := SearchReady(net, seeds, queue, seen, processed, level, cut, maxDepth);
      var (current, depth) := queue[0];
      if depth >= maxDepth {
        SearchSkip(net, seeds, queue, seen, processed, level, cut, maxDepth);
        queue, cut := queue[1..], cut - 1;
        continue;
      }
      ghost var seenBefore := seen;
      var more;
      more, seen, included := ScanIncident(g.edges, current, depth, seen, included, net);
      SearchStep(net, seeds, queue, seenBefore, processed, level, cut, maxDepth, more);
      IncidentSplit(net, processed, {current});
      Progress(seenBefore, seen, more, net.ids);
      queue, processed, cut := queue[1..] + more, processed + {current}, cut - 1;
    }
    SearchDone(net, seeds, queue, seen, processed, level, cut, maxDepth);
    nodes := NodesOf(g, seen);
  }

  /** Either fewer ids remain unseen, or nothing was queued. */
  lemma Progress(before: set<NodeId>, after: set<NodeId>, more: seq<(NodeId, nat)>, ids: set<NodeId>)
    requires before <= after <= ids && Elems(QueuedIds(more)) == after - before
    ensures ids - after < ids - before || (more == [] && after == before)
  {
    if more != [] {
      assert QueuedIds(more)[0] in Elems(QueuedIds(more));
      assert QueuedIds(more)[0] in ids - before && QueuedIds(more)[0] !in ids - after;
    }
  }

  method NodesOf(g: Graph, seen: set<NodeId>) returns (nodes: seq<Node>)
    ensures UniqueIds(nodes) && Ids(nodes) == seen * Ids(g.nodes)
    ensures forall n :: n in nodes ==> n in g.nodes
  {
    var nodeAt := NodeMap(g.nodes);
    nodes := [];
    var rest := seen;
    while rest != {}
      invariant rest <= seen && Ids(nodes) == (seen - rest) * Ids(g.nodes)
      invariant UniqueIds(nodes) && forall n :: n in nodes ==> n in g.nodes
      decreases rest
    {
      var id :| id in rest;
      if id in nodeAt {
        assert Ids(nodes + [nodeAt[id]]) == Ids(nodes) + {id};
        assert id !in Ids(nodes);
        nodes := nodes + [nodeAt[id]];
      }
      rest := rest - {id};
    }
  }

  // The search over the index.

  ghost predicate Stored(t: Tables, c: Coding, net: Net) {
    Inverse(t, c) && t.nodes.Keys == net.ids && t.edges.Values == net.edges && Sound(net)
  }

  ghost function EdgesOf(t: Tables, hashes: set<EdgeId>): set<Edge> {
    set h | h in hashes && h in t.edges :: t.edges[h]
  }

  /** Every edge met so far has both its ends among the ids seen. */
  ghost predicate EndsSeen(t: Tables, met: set<EdgeId>, seen: set<NodeId>) {
    met <= t.edges.Keys && forall h :: h in met ==> t.edges[h].from in seen && t.edges[h].to in seen
  }

  /** Follow the edges at the current id, skipping those met before. */
  method FollowIncident(t: Tables, hashes: set<EdgeId>, current: NodeId, depth: nat, seen0: set<NodeId>,
                        met0: set<EdgeId>,
                        ghost net: Net)
    returns (more: seq<(NodeId, nat)>, seen: set<NodeId>, met: set<EdgeId>)
    requires Sound(net) && t.edges.Values == net.edges && current in seen0 && EndsSeen(t, met0, seen0)
    requires forall h :: h in hashes <==> h in t.edges && (t.edges[h].from == current || t.edges[h].to == current)
    ensures forall i :: 0 <= i < |more| ==> more[i].1 == depth + 1
    ensures Elems(QueuedIds(more)) == Neighbours(net, {current}) - seen0
    ensures seen == seen0 + Neighbours(net, {current})
    ensures met == met0 + hashes && EndsSeen(t, met, seen)
  {
    more, seen, met := [], seen0, met0;
    var rest := hashes;
    while rest != {}
      invariant rest <= hashes && met == met0 + (hashes - rest) && EndsSeen(t, met, seen)
      invariant forall i :: 0 <= i < |more| ==> more[i].1 == depth + 1
      invariant Elems(QueuedIds(more)) == seen - seen0
      invariant seen0 <= seen <= seen0 + Neighbours(net, {current})
      decreases rest
    {
      var h :| h in rest;
      rest := rest - {h};
      if h in met {
        continue;
      }
      var e := t.edges[h];
      EndsAreNeighbours(t, net, h, current);
      met := met + {h};
      more, seen := Visit(e.from, depth, more, seen);
      more, seen := Visit(e.to, depth, more, seen);
    }
    AllVisited(t, net, hashes, current, seen, met);
  }

  lemma EndsAreNeighbours(t: Tables, net: Net, h: EdgeId, current: NodeId)
    requires Sound(net) && t.edges.Values == net.edges && h in t.edges
    requires t.edges[h].from == current || t.edges[h].to == current
    ensures t.edges[h].from in {current} + Neighbours(net, {current})
    ensures t.edges[h].to in {current} + Neighbours(net, {current})
  {
  }

  lemma AllVisited(t: Tables, net: Net, hashes: set<EdgeId>, current: NodeId, seen: set<NodeId>, met: set<EdgeId>)
    requires t.edges.Values == net.edges && EndsSeen(t, met, seen) && hashes <= met
    requires forall h :: h in hashes <==> h in t.edges && (t.edges[h].from == current || t.edges[h].to == current)
    ensures Neighbours(net, {current}) <= seen
  {
  }

  lemma MetIncident(t: Tables, net: Net, met: set<EdgeId>, processed: set<NodeId>, hashes: set<EdgeId>, current: NodeId)
    requires t.edges.Values == net.edges
    requires EdgesOf(t, met) == Incident(net, processed)
    requires forall h :: h in hashes <==> h in t.edges && (t.edges[h].from == current || t.edges[h].to == current)
    ensures EdgesOf(t, met + hashes) == Incident(net, processed + {current})
  {
    forall e | e in Incident(net, {current}) ensures e in EdgesOf(t, hashes) {
      var h :| h in t.edges && t.edges[h] == e;
      assert h in hashes;
    }
    assert EdgesOf(t, hashes) == Incident(net, {current});
    assert EdgesOf(t, met + hashes) == EdgesOf(t, met) + EdgesOf(t, hashes);
    IncidentSplit(net, processed, {current});
  }

  lemma HeadSeen(net: Net, seeds: set<NodeId>, queue: seq<(NodeId, nat)>, seen: set<NodeId>, processed: set<NodeId>,
                 level: nat, cut: nat, limit: nat)
    requires Searching(net, seeds, queue, seen, processed, level, cut, limit) && cut > 0 && level < limit
    ensures queue[0].0 in seen
  {
    assert QueuedIds(queue)[..cut][0] in Elems(QueuedIds(queue)[..cut]);
  }

  method QueueSeeds(matched: seq<Node>) returns (queue: seq<(NodeId, nat)>, seen: set<NodeId>)
    ensures seen == Ids(matched) == Elems(QueuedIds(queue))
    ensures forall j :: 0 <= j < |queue| ==> queue[j].1 == 0
  {
    queue, seen := [], {};
    for i := 0 to |matched|
      invariant seen == Ids(matched[..i]) == Elems(QueuedIds(queue))
      invariant forall j :: 0 <= j < |queue| ==> queue[j].1 == 0
    {
      assert Ids(matched[..i + 1]) == Ids(matched[..i]) + {matched[i].id};
      QueuedAppend(queue, matched[i].id, 0);
      queue := queue + [(matched[i].id, 0)];
      seen := seen + {matched[i].id};
    }
    assert matched[..|matched|] == matched;
  }

  /** The ids of the edges filed at an id, on either side. */
  function HashesAt(t: Tables, id: NodeId): set<EdgeId> {
    ValuesAt(t.edgesFrom, id) + ValuesAt(t.edgesTo, id)
  }

  lemma HashesAtExactly(t: Tables, c: Coding, id: NodeId)
    requires Inverse(t, c)
    ensures forall h :: h in HashesAt(t, id) <==> h in t.edges && (t.edges[h].from == id || t.edges[h].to == id)
  {
  }

  /** Take the first entry off the queue and follow the edges at its id. */
  method ExpandFirst(t: Tables, c: Coding, queue0: seq<(NodeId, nat)>, seen0: set<NodeId>, met0: set<EdgeId>,
                     depth: nat, ghost net: Net, ghost seeds: set<NodeId>, ghost processed: set<NodeId>,
                     ghost level: nat, ghost cut: nat)
    returns (queue: seq<(NodeId, nat)>, seen: set<NodeId>, met: set<EdgeId>)
    requires Stored(t, c, net) && Searching(net, seeds, queue0, seen0, processed, level, cut, depth)
    requires cut > 0 && level < depth && EndsSeen(t, met0, seen0) && EdgesOf(t, met0) == Incident(net, processed)
    ensures Searching(net, seeds, queue, seen, processed + {queue0[0].0}, level, cut - 1, depth)
    ensures EndsSeen(t, met, seen) && EdgesOf(t, met) == Incident(net, processed + {queue0[0].0})
    ensures net.ids - seen < net.ids - seen0 || (seen0 == seen && |queue| < |queue0|)
  {
    var (current, d) := queue0[0];
    var hashes := HashesAt(t, current);
    HashesAtExactly(t, c, current);
    MetIncident(t, net, met0, processed, hashes, current);
    HeadSeen(net, seeds, queue0, seen0, processed, level, cut, depth);
    var more;
    more, seen, met := FollowIncident(t, hashes, current, d, seen0, met0, net);
    SearchStep(net, seeds, queue0, seen0, processed, level, cut, depth, more);
    Progress(seen0, seen, more, net.ids);
    queue := queue0[1..] + more;
  }

  /** Deal with the first entry: past the depth it is dropped, else it is expanded. */
  method SearchOne(t: Tables, c: Coding, queue0: seq<(NodeId, nat)>, seen0: set<NodeId>, met0: set<EdgeId>, depth: nat,
                   ghost net: Net, ghost seeds: set<NodeId>, ghost processed0: set<NodeId>, ghost level0: nat,
                   ghost cut0: nat)
    returns (queue: seq<(NodeId, nat)>, seen: set<NodeId>, met: set<EdgeId>,
             ghost processed: set<NodeId>, ghost level: nat, ghost cut: nat)
    requires Stored(t, c, net) && queue0 != [] && Searching(net, seeds, queue0, seen0, processed0, level0, cut0, depth)
    requires EndsSeen(t, met0, seen0) && EdgesOf(t, met0) == Incident(net, processed0)
    ensures Searching(net, seeds, queue, seen, processed, level, cut, depth)
    ensures EndsSeen(t, met, seen) && EdgesOf(t, met) == Incident(net, processed)
    ensures net.ids - seen < net.ids - seen0 || (seen0 == seen && |queue| < |queue0|)
  {
    level, cut := SearchReady(net, seeds, queue0, seen0, processed0, level0, cut0, depth);
    var (current, d) := queue0[0];
    if d >= depth {
      SearchSkip(net, seeds, queue0, seen0, processed0, level, cut, depth);
      queue, seen, met, processed, cut := queue0[1..], seen0, met0, processed0, cut - 1;
    } else {
      queue, seen, met := ExpandFirst(t, c, queue0, seen0, met0, depth, net, seeds, processed0, level, cut);
      processed, cut := processed0 + {current}, cut - 1;
    }
  }

  method SearchIndex(t: Tables, c: Coding, start: seq<(NodeId, nat)>, seeds: set<NodeId>, depth: nat, ghost net: Net)
    returns (seen: set<NodeId>, met: set<EdgeId>)
    requires Stored(t, c, net) && seeds == Elems(QueuedIds(start)) <= net.ids
    requires forall j :: 0 <= j < |start| ==> start[j].1 == 0
    ensures seen == Ball(net, seeds, depth)
    ensures EndsSeen(t, met, seen) && EdgesOf(t, met) == Incident(net, Inner(net, seeds, depth))
  {
    var queue := start;
    seen, met := seeds, {};
    ghost var processed: set<NodeId>, level: nat, cut: nat := {}, 0, |queue|;
    SearchStart(net, queue, depth);
    while queue != []
      invariant Searching(net, seeds, queue, seen, processed, level, cut, depth)
      invariant EndsSeen(t, met, seen) && EdgesOf(t, met) == Incident(net, processed)
      decreases net.ids - seen, |queue|
    {
      queue, seen, met, processed, level, cut :=
          SearchOne(t, c, queue, seen, met, depth, net, seeds, processed, level, cut);
    }
    SearchDone(net, seeds, queue, seen, processed, level, cut, depth);
  }

  /** The search of `usage_graph_for_symbol`: at least one step deep. */
  method UsageGraph(t: Tables, c: Coding, symbol: string, exact: bool, maxDepth: nat, ghost net: Net)
    returns (nodes: seq<Node>, edges: set<Edge>)
    requires Stored(t, c, net)
    ensures var seeds := set id | id in t.nodes && Meant(c.lower, symbol, exact)(t.nodes[id]);
            var depth := if maxDepth == 0 then 1 else maxDepth;
            && UniqueIds(nodes) && Ids(nodes) == Ball(net, seeds, depth)
            && (forall n :: n in nodes ==> n in t.nodes.Values)
            && edges == Incident(net, Inner(net, seeds, depth))
  {
    var depth := if maxDepth == 0 then 1 else maxDepth;
    var matched := IndexSymbolLookup(t, c, symbol, exact);
    var queue, seeds := QueueSeeds(matched);
    SeedsMeant(t, c, symbol, exact, matched);
    var seen, met := SearchIndex(t, c, queue, seeds, depth, net);
    edges := set h | h in met && h in t.edges && t.edges[h].from in seen && t.edges[h].to in seen :: t.edges[h];
    assert edges == EdgesOf(t, met);
    StoredBall(net, seeds, depth);
    nodes := StoredNodes(t, c, seen);
  }

  lemma StoredBall(net: Net, seeds: set<NodeId>, k: nat)
    requires seeds <= net.ids
    ensures Ball(net, seeds, k) <= net.ids
  {
  }

  lemma SeedsMeant(t: Tables, c: Coding, symbol: string, exact: bool, matched: seq<Node>)
    requires Inverse(t, c)
    requires forall n :: n in matched <==> n in t.nodes.Values && Meant(c.lower, symbol, exact)(n)
    ensures Ids(matched) == set id | id in t.nodes && Meant(c.lower, symbol, exact)(t.nodes[id])
  {
  }

  method StoredNodes(t: Tables, c: Coding, seen: set<NodeId>) returns (nodes: seq<Node>)
    requires Inverse(t, c) && seen <= t.nodes.Keys
    ensures UniqueIds(nodes) && Ids(nodes) == seen
    ensures forall n :: n in nodes ==> n in t.nodes.Values
  {
    nodes := [];
    var rest := seen;
    while rest != {}
      invariant rest <= seen && Ids(nodes) == seen - rest
      invariant UniqueIds(nodes) && forall n :: n in nodes ==> n in t.nodes.Values
      decreases rest
    {
      var id :| id in rest;
      assert t.nodes[id].id == id;
      assert Ids(nodes + [t.nodes[id]]) == Ids(nodes) + {id};
      nodes := nodes + [t.nodes[id]];
      rest := rest - {id};
    }
  }

  // Both searches answer alike.

  /** The graph's own `usage_graph_for_symbol`. */
  method GraphUsage(g: Graph, lower: string -> string, symbol: string, exact: bool, maxDepth: nat)
    returns (nodes: seq<Node>, edges: seq<Edge>)
    ensures var seeds := Ids(GraphSymbolLookup(g, lower, symbol, exact));
            var depth := if maxDepth == 0 then 1 else maxDepth;
            && UniqueIds(nodes) && Ids(nodes) == Ball(NetOf(g), seeds, depth) * Ids(g.nodes)
            && (forall n :: n in nodes ==> n in g.nodes)
            && Distinct(edges) && Elems(edges) == Incident(NetOf(g), Inner(NetOf(g), seeds, depth))
  {
    var matched := GraphSymbolLookup(g, lower, symbol, exact);
    var seedIds := [];
    for i := 0 to |matched|
      invariant Elems(seedIds) == Ids(matched[..i])
    {
      assert Ids(matched[..i + 1]) == Ids(matched[..i]) + {matched[i].id};
      assert Elems(seedIds + [matched[i].id]) == Elems(seedIds) + {matched[i].id};
      seedIds := seedIds + [matched[i].id];
    }
    assert matched[..|matched|] == matched;
    nodes, edges := GraphNeighbourhood(g, seedIds, if maxDepth == 0 then 1 else maxDepth);
  }

  /** An index that holds a graph searches the same net from the same seeds. */
  lemma SearchesAgree(t: Tables, c: Coding, g: Graph, symbol: string, exact: bool)
    requires WellFormed(g) && Holds(t, c, Elems(g.nodes), Elems(g.edges))
    ensures Stored(t, c, NetOf(g)) && NetOf(g).ids == Ids(g.nodes)
    ensures (set id | id in t.nodes && Meant(c.lower, symbol, exact)(t.nodes[id])) ==
            Ids(GraphSymbolLookup(g, c.lower, symbol, exact))
  {
    WholeNet(g);
    HeldTable(t, c, g, symbol, exact);
  }
}
