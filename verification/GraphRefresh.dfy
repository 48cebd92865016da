/** Loading a stored graph, and patching it for the files that were requested. */
module GraphRefresh {
  import opened Prelude
  import opened RepoTypes
  import opened GraphParts
  import opened GraphBuilder

  /** What is found at the graph's path; `Oversized` exceeds the load budget. */
  datatype Stored = Missing | Oversized | Saved(graph: Graph)

  // Sanitising a loaded graph.

  function UntrackedPaths(g: Graph, trackable: Path -> bool): set<Path> {
    set n | n in g.nodes && n.path.Some? && !trackable(n.path.value) :: n.path.value
  }

  function OutsidePaths(skipped: set<Path>): Node -> bool {
    (n: Node) => n.path.Some? ==> n.path.value !in skipped
  }

  function InsideGraph(skipped: set<Path>, kept: set<NodeId>): Edge -> bool {
    (e: Edge) => (e.path.Some? ==> e.path.value !in skipped) && e.from in kept && e.to in kept
  }

  function HasPathOrIn(referenced: set<NodeId>): Node -> bool {
    (n: Node) => n.path.Some? || n.id in referenced
  }

  function NodeIds(nodes: seq<Node>): set<NodeId> { set n | n in nodes :: n.id }

  function EndpointIds(edges: seq<Edge>): set<NodeId> {
    (set e | e in edges :: e.from) + (set e | e in edges :: e.to)
  }

  function SanitizeLoadedGraph(g: Graph, trackable: Path -> bool): Graph {
    var skipped := UntrackedPaths(g, trackable);
    if skipped == {} then g else
      var nodes := Filter(OutsidePaths(skipped), g.nodes);
      var edges := Filter(InsideGraph(skipped, NodeIds(nodes)), g.edges);
      var referenced := Filter(HasPathOrIn(EndpointIds(edges)), nodes);
      Graph(referenced, edges, Recalculate(referenced, edges))
  }

  // Which parts of the old graph a request invalidates, and which references it must bind again.

  function RemovedIds(nodes: seq<Node>, requested: set<Path>): set<NodeId> {
    set n | n in nodes && n.path.Some? && n.path.value in requested :: n.id
  }

  function Unrequested(requested: set<Path>, e: Edge): bool {
    e.path.Some? ==> e.path.value !in requested
  }

  function KeepsEdge(requested: set<Path>, removed: set<NodeId>): Edge -> bool {
    (e: Edge) => Unrequested(requested, e) && e.from !in removed && e.to !in removed
  }

  function KeepsNode(removed: set<NodeId>): Node -> bool { (n: Node) => n.id !in removed }

  function NameOf(id: NodeId): string {
    if id.SymbolId? || id.ModuleId? then id.name else ""
  }

  function ReboundCall(requested: set<Path>, removed: set<NodeId>): Edge -> seq<PendingCall> {
    (e: Edge) =>
      if Unrequested(requested, e) && e.kind == Calls && e.from !in removed && e.to in removed then
        [PendingCall(e.from, NameOf(e.to), e.path.GetOr(""), e.line.GetOr(0))]
      else []
  }

  function ReboundLink(requested: set<Path>, removed: set<NodeId>): Edge -> seq<PendingLink> {
    (e: Edge) =>
      if Unrequested(requested, e) && e.kind == Documents && e.from !in removed && e.to in removed then
        [PendingLink(e.from, e.path.GetOr(""), NameOf(e.to))]
      else []
  }

  method NodeMap(nodes: seq<Node>) returns (m: map<NodeId, Node>)
    ensures m.Keys == Ids(nodes)
    ensures forall id :: id in m ==> m[id] in nodes && m[id].id == id
  {
    m := map[];
    for i := 0 to |nodes|
      invariant m.Keys == Ids(nodes[..i])
      invariant forall id :: id in m ==> m[id] in nodes && m[id].id == id
    {
      assert nodes[..i + 1] == nodes[..i] + [nodes[i]];
      m := m[nodes[i].id := nodes[i]];
    }
    assert nodes[..|nodes|] == nodes;
  }

  method SplitEdge(e: Edge, requested: set<Path>, removed: set<NodeId>, source: Node, target: Node)
    returns (stays: seq<Edge>, call: seq<PendingCall>, link: seq<PendingLink>)
    requires EdgeOk(e) && NodeOk(source) && NodeOk(target) && source.id == e.from && target.id == e.to
    ensures stays == if KeepsEdge(requested, removed)(e) then [e] else []
    ensures call == ReboundCall(requested, removed)(e)
    ensures link == ReboundLink(requested, removed)(e)
  {
    stays, call, link := [], [], [];
    if e.path.Some? && e.path.value in requested {
      return;
    }
    var fromRemoved, toRemoved := e.from in removed, e.to in removed;
    if e.kind == Calls && !fromRemoved && toRemoved {
      call := [PendingCall(e.from, target.name, e.path.GetOr(""), e.line.GetOr(0))];
    } else if e.kind == Documents && !fromRemoved && toRemoved {
      link := [PendingLink(source.id, source.path.GetOr(""), target.name)];
    }
    if !fromRemoved && !toRemoved {
      stays := [e];
    }
  }

  /** Sort the old edges into those that stay and those whose reference is to be bound again. */
  method SplitEdges(g: Graph, requested: set<Path>, removed: set<NodeId>)
    returns (kept: seq<Edge>, calls: seq<PendingCall>, links: seq<PendingLink>)
    requires WellFormed(g) && removed == RemovedIds(g.nodes, requested)
    ensures kept == Filter(KeepsEdge(requested, removed), g.edges)
    ensures calls == FlatMap(ReboundCall(requested, removed), g.edges)
    ensures links == FlatMap(ReboundLink(requested, removed), g.edges)
  {
    var nodeAt := NodeMap(g.nodes);
    kept, calls, links := [], [], [];
    for i := 0 to |g.edges|
      invariant kept == Filter(KeepsEdge(requested, removed), g.edges[..i])
      invariant calls == FlatMap(ReboundCall(requested, removed), g.edges[..i])
      invariant links == FlatMap(ReboundLink(requested, removed), g.edges[..i])
    {
      var e := g.edges[i];
      FilterSnoc(KeepsEdge(requested, removed), g.edges, i);
      FlatMapNext(ReboundCall(requested, removed), g.edges, i);
      FlatMapNext(ReboundLink(requested, removed), g.edges, i);
      assert EdgeOk(e) && NodeOk(nodeAt[e.to]) && NodeOk(nodeAt[e.from]);
      var stays, call, link := SplitEdge(e, requested, removed, nodeAt[e.from], nodeAt[e.to]);
      kept, calls, links := kept + stays, calls + call, links + link;
    }
    assert g.edges[..|g.edges|] == g.edges;
  }

  method BuildSymbolIndex(nodes: seq<Node>) returns (index: SymbolIndex)
    ensures Indexes(index, nodes)
  {
    index := map[];
    for i := 0 to |nodes|
      invariant Indexes(index, nodes[..i])
    {
      IndexesSnoc(index, nodes[..i], nodes[i]);
      assert nodes[..i + 1] == nodes[..i] + [nodes[i]];
      index := AddToIndex(index, nodes[i]);
    }
    assert nodes[..|nodes|] == nodes;
  }

  /** Push every requested file that still exists; the others have only been removed. */
  method PatchFiles(repo: Repo, requested: seq<Path>, nodes0: seq<Node>, edges0: seq<Edge>, index0: SymbolIndex)
    returns (nodes: seq<Node>, edges: seq<Edge>, index: SymbolIndex, calls: seq<PendingCall>, links: seq<PendingLink>)
    requires Indexes(index0, nodes0)
    ensures nodes == nodes0 + FlatMap(NodesAt(repo), requested)
    ensures edges == edges0 + FlatMap(EdgesAt(repo), requested)
    ensures calls == FlatMap(CallsAt(repo), requested)
    ensures links == FlatMap(LinksAt(repo), requested)
    ensures Indexes(index, nodes)
  {
    nodes, edges, index, calls, links := nodes0, edges0, index0, [], [];
    for i := 0 to |requested|
      invariant nodes == nodes0 + FlatMap(NodesAt(repo), requested[..i])
      invariant edges == edges0 + FlatMap(EdgesAt(repo), requested[..i])
      invariant calls == FlatMap(CallsAt(repo), requested[..i])
      invariant links == FlatMap(LinksAt(repo), requested[..i])
      invariant Indexes(index, nodes)
    {
      var p := requested[i];
      nodes, edges, index, calls, links := PatchFile(repo, p, nodes, edges, index, calls, links);
      FlatMapSnoc(nodes0, NodesAt(repo), requested, i);
      FlatMapSnoc(edges0, EdgesAt(repo), requested, i);
      FlatMapNext(CallsAt(repo), requested, i);
      FlatMapNext(LinksAt(repo), requested, i);
    }
    assert requested[..|requested|] == requested;
  }

  method PatchFile(repo: Repo, p: Path, nodes0: seq<Node>, edges0: seq<Edge>, index0: SymbolIndex,
                   calls0: seq<PendingCall>, links0: seq<PendingLink>)
    returns (nodes: seq<Node>, edges: seq<Edge>, index: SymbolIndex, calls: seq<PendingCall>, links: seq<PendingLink>)
    requires Indexes(index0, nodes0)
    ensures nodes == nodes0 + NodesAt(repo)(p) && edges == edges0 + EdgesAt(repo)(p)
    ensures calls == calls0 + CallsAt(repo)(p) && links == links0 + LinksAt(repo)(p)
    ensures Indexes(index, nodes)
  {
    nodes, edges, index, calls, links := nodes0, edges0, index0, calls0, links0;
    if p in repo && repo[p].Source? {
      nodes, edges, index, calls := PushSourceFile(p, repo[p], nodes, edges, index, calls);
    } else if p in repo && repo[p].Doc? {
      IndexesSnoc(index, nodes, DocNodeOf(p));
      nodes := nodes + [DocNodeOf(p)];
      for i := 0 to |repo[p].mentions|
        invariant links == links0 + Map(PendingLinkOf(p), repo[p].mentions[..i])
      {
        MapSnoc(links0, PendingLinkOf(p), repo[p].mentions, i);
        links := links + [PendingLinkOf(p)(repo[p].mentions[i])];
      }
      assert repo[p].mentions[..|repo[p].mentions|] == repo[p].mentions;
    }
  }

  // The lists a refresh has pushed before it removes repetitions.

  ghost function PatchedNodes(g: Graph, repo: Repo, requested: seq<Path>): seq<Node> {
    Filter(KeepsNode(RemovedIds(g.nodes, Elems(requested))), g.nodes) + FlatMap(NodesAt(repo), requested)
  }

  ghost function PatchedEdges(g: Graph, repo: Repo, requested: seq<Path>, cap: nat): seq<Edge> {
    var paths := Elems(requested);
    var removed, nodes := RemovedIds(g.nodes, paths), PatchedNodes(g, repo, requested);
    Filter(KeepsEdge(paths, removed), g.edges) + FlatMap(EdgesAt(repo), requested)
    + FlatMap(CallEdges(nodes, cap), FlatMap(CallsAt(repo), requested) + FlatMap(ReboundCall(paths, removed), g.edges))
    + FlatMap(LinkEdges(nodes, cap), FlatMap(LinksAt(repo), requested) + FlatMap(ReboundLink(paths, removed), g.edges))
  }

  ghost predicate IsPatch(r: Graph, g: Graph, repo: Repo, requested: seq<Path>, cap: nat) {
    && r.nodes == FirstPerId(PatchedNodes(g, repo, requested))
    && r.edges == FirstOfEqual(PatchedEdges(g, repo, requested, cap))
    && r.counts == Recalculate(r.nodes, r.edges)
  }

  method Patch(g: Graph, repo: Repo, requested: seq<Path>, cap: nat) returns (r: Graph)
    requires WellFormed(g)
    ensures IsPatch(r, g, repo, requested, cap)
  {
    var paths := set p | p in requested;
    var removed := RemovedIds(g.nodes, paths);
    var edges, reboundCalls, reboundLinks := SplitEdges(g, paths, removed);
    var nodes := Filter(KeepsNode(removed), g.nodes);
    var index := BuildSymbolIndex(nodes);
    var calls, links;
    nodes, edges, index, calls, links := PatchFiles(repo, requested, nodes, edges, index);
    edges := PushCallEdges(calls + reboundCalls, index, cap, nodes, edges);
    edges := PushLinkEdges(links + reboundLinks, index, cap, nodes, edges);
    nodes := DedupeNodes(nodes);
    edges := DedupeEdges(edges);
    r := Graph(nodes, edges, Recalculate(nodes, edges));
  }
}
