/** The full builder: two passes over the files, then resolution of the pending references. */
module GraphBuilder {
  import opened Prelude
  import opened RepoTypes
  import opened GraphParts

  method DedupeNodes(nodes: seq<Node>) returns (kept: seq<Node>)
    ensures kept == FirstPerId(nodes)
  {
    kept := [];
    var seen: set<NodeId> := {};
    for i := 0 to |nodes|
      invariant kept == FirstPerId(nodes[..i])
      invariant seen == Ids(kept)
    {
      assert nodes[..i + 1][..i] == nodes[..i];
      if nodes[i].id !in seen {
        seen := seen + {nodes[i].id};
        kept := kept + [nodes[i]];
      }
    }
    assert nodes[..|nodes|] == nodes;
  }

  method DedupeEdges(edges: seq<Edge>) returns (kept: seq<Edge>)
    ensures kept == FirstOfEqual(edges)
  {
    kept := [];
    var seen: set<Edge> := {};
    for i := 0 to |edges|
      invariant kept == FirstOfEqual(edges[..i])
      invariant seen == Elems(kept)
    {
      assert edges[..i + 1][..i] == edges[..i];
      if edges[i] !in seen {
        seen := seen + {edges[i]};
        kept := kept + [edges[i]];
      }
    }
    assert edges[..|edges|] == edges;
  }

  method PushImports(p: Path, c: FileContent, nodes0: seq<Node>, edges0: seq<Edge>, index: SymbolIndex)
    returns (nodes: seq<Node>, edges: seq<Edge>)
    requires c.Source? && Indexes(index, nodes0)
    ensures nodes == nodes0 + Map(ModuleNodeOf(c.language), c.imports)
    ensures edges == edges0 + Map(ImportEdgeOf(p), c.imports)
    ensures Indexes(index, nodes)
  {
    nodes, edges := nodes0, edges0;
    for i := 0 to |c.imports|
      invariant nodes == nodes0 + Map(ModuleNodeOf(c.language), c.imports[..i])
      invariant edges == edges0 + Map(ImportEdgeOf(p), c.imports[..i])
      invariant Indexes(index, nodes)
    {
      MapSnoc(nodes0, ModuleNodeOf(c.language), c.imports, i);
      MapSnoc(edges0, ImportEdgeOf(p), c.imports, i);
      IndexesSnoc(index, nodes, ModuleNodeOf(c.language)(c.imports[i]));
      nodes := nodes + [ModuleNodeOf(c.language)(c.imports[i])];
      edges := edges + [ImportEdgeOf(p)(c.imports[i])];
    }
    assert c.imports[..|c.imports|] == c.imports;
  }

  method PushCalls(p: Path, s: Symbol, calls0: seq<PendingCall>) returns (calls: seq<PendingCall>)
    ensures calls == calls0 + Map(PendingCallOf(p, s), s.calls)
  {
    calls := calls0;
    for j := 0 to |s.calls|
      invariant calls == calls0 + Map(PendingCallOf(p, s), s.calls[..j])
    {
      MapSnoc(calls0, PendingCallOf(p, s), s.calls, j);
      calls := calls + [PendingCallOf(p, s)(s.calls[j])];
    }
    assert s.calls[..|s.calls|] == s.calls;
  }

  method PushSymbols(p: Path, c: FileContent, nodes0: seq<Node>, edges0: seq<Edge>,
                     index0: SymbolIndex, calls0: seq<PendingCall>)
    returns (nodes: seq<Node>, edges: seq<Edge>, index: SymbolIndex, calls: seq<PendingCall>)
    requires c.Source? && Indexes(index0, nodes0)
    ensures nodes == nodes0 + Map(SymbolNodeOf(p, c.language), c.symbols)
    ensures edges == edges0 + Map(DefineEdgeOf(p), c.symbols)
    ensures calls == calls0 + FlatMap(PendingCallsOf(p), c.symbols)
    ensures Indexes(index, nodes)
  {
    nodes, edges, index, calls := nodes0, edges0, index0, calls0;
    for i := 0 to |c.symbols|
      invariant nodes == nodes0 + Map(SymbolNodeOf(p, c.language), c.symbols[..i])
      invariant edges == edges0 + Map(DefineEdgeOf(p), c.symbols[..i])
      invariant calls == calls0 + FlatMap(PendingCallsOf(p), c.symbols[..i])
      invariant Indexes(index, nodes)
    {
      var s := c.symbols[i];
      var node := SymbolNodeOf(p, c.language)(s);
      MapSnoc(nodes0, SymbolNodeOf(p, c.language), c.symbols, i);
      MapSnoc(edges0, DefineEdgeOf(p), c.symbols, i);
      FlatMapSnoc(calls0, PendingCallsOf(p), c.symbols, i);
      IndexesSnoc(index, nodes, node);
      index := AddToIndex(index, node);
      nodes := nodes + [node];
      edges := edges + [DefineEdgeOf(p)(s)];
      calls := PushCalls(p, s, calls);
      assert nodes == nodes0 + Map(SymbolNodeOf(p, c.language), c.symbols[..i + 1]);
    }
    assert c.symbols[..|c.symbols|] == c.symbols;
  }

  /** Push one source file: its node, its imports, its symbols and the calls they make. */
  method PushSourceFile(p: Path, c: FileContent, nodes0: seq<Node>, edges0: seq<Edge>,
                        index0: SymbolIndex, calls0: seq<PendingCall>)
    returns (nodes: seq<Node>, edges: seq<Edge>, index: SymbolIndex, calls: seq<PendingCall>)
    requires c.Source? && Indexes(index0, nodes0)
    ensures nodes == nodes0 + SourceNodes(p, c)
    ensures edges == edges0 + SourceEdges(p, c)
    ensures calls == calls0 + SourceCalls(p, c)
    ensures Indexes(index, nodes)
  {
    IndexesSnoc(index0, nodes0, FileNodeOf(p, c.language));
    nodes, edges := PushImports(p, c, nodes0 + [FileNodeOf(p, c.language)], edges0, index0);
    nodes, edges, index, calls := PushSymbols(p, c, nodes, edges, index0, calls0);
  }

  method PushTargets(edgeTo: NodeId -> Edge, targets: seq<NodeId>, edges0: seq<Edge>) returns (edges: seq<Edge>)
    ensures edges == edges0 + Map(edgeTo, targets)
  {
    edges := edges0;
    for j := 0 to |targets|
      invariant edges == edges0 + Map(edgeTo, targets[..j])
    {
      MapSnoc(edges0, edgeTo, targets, j);
      edges := edges + [edgeTo(targets[j])];
    }
    assert targets[..|targets|] == targets;
  }

  method PushLinkEdges(links: seq<PendingLink>, index: SymbolIndex, cap: nat, ghost nodes: seq<Node>, edges0: seq<Edge>)
    returns (edges: seq<Edge>)
    requires Indexes(index, nodes)
    ensures edges == edges0 + FlatMap(LinkEdges(nodes, cap), links)
  {
    edges := edges0;
    for i := 0 to |links|
      invariant edges == edges0 + FlatMap(LinkEdges(nodes, cap), links[..i])
    {
      FlatMapSnoc(edges0, LinkEdges(nodes, cap), links, i);
      assert Lookup(index, links[i].name) == DefsNamed(nodes, links[i].name);
      var found := Resolve(index, links[i].name, cap);
      if found.Some? {
        edges := PushTargets(LinkEdgeOf(links[i]), found.value, edges);
      }
    }
    assert links[..|links|] == links;
  }

  method PushCallEdges(calls: seq<PendingCall>, index: SymbolIndex, cap: nat, ghost nodes: seq<Node>, edges0: seq<Edge>)
    returns (edges: seq<Edge>)
    requires Indexes(index, nodes)
    ensures edges == edges0 + FlatMap(CallEdges(nodes, cap), calls)
  {
    edges := edges0;
    for i := 0 to |calls|
      invariant edges == edges0 + FlatMap(CallEdges(nodes, cap), calls[..i])
    {
      FlatMapSnoc(edges0, CallEdges(nodes, cap), calls, i);
      assert Lookup(index, calls[i].target) == DefsNamed(nodes, calls[i].target);
      var found := Resolve(index, calls[i].target, cap);
      if found.Some? {
        edges := PushTargets(CallEdgeOf(calls[i]), found.value, edges);
      }
    }
    assert calls[..|calls|] == calls;
  }

  /** The lists the full builder has pushed before it removes repetitions. */
  function RawNodes(repo: Repo, files: seq<Path>): seq<Node> {
    FlatMap(SourceNodesAt(repo), files) + FlatMap(DocNodesAt(repo), files)
  }

  function RawEdges(repo: Repo, files: seq<Path>, cap: nat): seq<Edge> {
    var nodes := FlatMap(SourceNodesAt(repo), files);
    FlatMap(EdgesAt(repo), files)
    + FlatMap(LinkEdges(nodes, cap), FlatMap(LinksAt(repo), files))
    + FlatMap(CallEdges(nodes, cap), FlatMap(CallsAt(repo), files))
  }

  function OfKind(kind: NodeKind): Node -> bool { (n: Node) => n.kind == kind }

  function IsRustFile(): Node -> bool { (n: Node) => n.kind == FileNode && n.language == Some("rust") }

  function Recalculate(nodes: seq<Node>, edges: seq<Edge>): Counts {
    var docs := |Filter(OfKind(DocNode), nodes)|;
    Counts(|Filter(OfKind(FileNode), nodes)| + docs, |Filter(IsRustFile(), nodes)|, docs,
           |Filter(OfKind(SymbolNode), nodes)|, |Filter(OfKind(ModuleNode), nodes)|, docs, |edges|)
  }

  /** What the builder has counted while it pushed: everything but modules and edges. */
  function Pushed(nodes: seq<Node>): Counts {
    Recalculate(nodes, []).(modules := 0)
  }

  function CountDoc(n: Counts): Counts {
    n.(files := n.files + 1, docFiles := n.docFiles + 1, docs := n.docs + 1)
  }

  function CountSource(n: Counts, c: FileContent): Counts
    requires c.Source?
  {
    n.(files := n.files + 1, symbols := n.symbols + |c.symbols|,
       rustFiles := n.rustFiles + if c.language == "rust" then 1 else 0)
  }

  lemma TallyAppend(keep: Node -> bool, a: seq<Node>, b: seq<Node>)
    ensures |Filter(keep, a + b)| == |Filter(keep, a)| + |Filter(keep, b)|
  {
    FilterAppend(keep, a, b);
  }

  /** One source file counts as one file, and each of its symbols as one. */
  lemma TallySource(base: seq<Node>, keep: Node -> bool, p: Path, c: FileContent)
    requires c.Source?
    requires forall m :: m in c.imports ==> !keep(ModuleNodeOf(c.language)(m))
    requires forall s, t :: s in c.symbols && t in c.symbols
               ==> keep(SymbolNodeOf(p, c.language)(s)) == keep(SymbolNodeOf(p, c.language)(t))
    ensures |Filter(keep, base + SourceNodes(p, c))| ==
            |Filter(keep, base)| + (if keep(FileNodeOf(p, c.language)) then 1 else 0)
            + if c.symbols != [] && keep(SymbolNodeOf(p, c.language)(c.symbols[0])) then |c.symbols| else 0
  {
    var head, mods := [FileNodeOf(p, c.language)], Map(ModuleNodeOf(c.language), c.imports);
    var syms := Map(SymbolNodeOf(p, c.language), c.symbols);
    TallyAppend(keep, base, SourceNodes(p, c));
    TallyAppend(keep, head + mods, syms);
    TallyAppend(keep, head, mods);
    FilterUniform(keep, head, keep(FileNodeOf(p, c.language)));
    MapAt(ModuleNodeOf(c.language), c.imports);
    FilterUniform(keep, mods, false);
    MapAt(SymbolNodeOf(p, c.language), c.symbols);
    FilterUniform(keep, syms, c.symbols != [] && keep(SymbolNodeOf(p, c.language)(c.symbols[0])));
  }

  lemma PushedSource(nodes: seq<Node>, p: Path, c: FileContent)
    requires c.Source?
    ensures Pushed(nodes + SourceNodes(p, c)) == CountSource(Pushed(nodes), c)
  {
    TallySource(nodes, OfKind(FileNode), p, c);
    TallySource(nodes, IsRustFile(), p, c);
    TallySource(nodes, OfKind(DocNode), p, c);
    TallySource(nodes, OfKind(SymbolNode), p, c);
  }

  lemma PushedDoc(nodes: seq<Node>, p: Path)
    ensures Pushed(nodes + [DocNodeOf(p)]) == CountDoc(Pushed(nodes))
  {
  }

  lemma SourceStep(repo: Repo, files: seq<Path>, i: nat)
    requires i < |files| && files[i] in repo
    ensures var c, before := repo[files[i]], FlatMap(SourceNodesAt(repo), files[..i]);
            var after := FlatMap(SourceNodesAt(repo), files[..i + 1]);
            && after == before + SourceNodes(files[i], c)
            && Pushed(after) == if c.Source? then CountSource(Pushed(before), c) else Pushed(before)
    ensures FlatMap(EdgesAt(repo), files[..i + 1]) ==
            FlatMap(EdgesAt(repo), files[..i]) + SourceEdges(files[i], repo[files[i]])
    ensures FlatMap(CallsAt(repo), files[..i + 1]) ==
            FlatMap(CallsAt(repo), files[..i]) + SourceCalls(files[i], repo[files[i]])
  {
    assert files[..i + 1][..i] == files[..i];
    var before := FlatMap(SourceNodesAt(repo), files[..i]);
    if repo[files[i]].Source? {
      PushedSource(before, files[i], repo[files[i]]);
    } else {
      assert before + SourceNodes(files[i], repo[files[i]]) == before;
    }
  }

  /** Pass 1: every source file, in walk order. */
  method PushSources(repo: Repo, files: seq<Path>)
    returns (nodes: seq<Node>, edges: seq<Edge>, index: SymbolIndex, calls: seq<PendingCall>, counts: Counts)
    requires forall p :: p in files ==> p in repo
    ensures nodes == FlatMap(SourceNodesAt(repo), files)
    ensures edges == FlatMap(EdgesAt(repo), files)
    ensures calls == FlatMap(CallsAt(repo), files)
    ensures Indexes(index, nodes) && counts == Pushed(nodes)
  {
    nodes, edges, index, calls, counts := [], [], map[], [], NO_COUNTS;
    for i := 0 to |files|
      invariant nodes == FlatMap(SourceNodesAt(repo), files[..i])
      invariant edges == FlatMap(EdgesAt(repo), files[..i])
      invariant calls == FlatMap(CallsAt(repo), files[..i])
      invariant Indexes(index, nodes) && counts == Pushed(nodes)
    {
      SourceStep(repo, files, i);
      if repo[files[i]].Source? {
        counts := CountSource(counts, repo[files[i]]);
        nodes, edges, index, calls := PushSourceFile(files[i], repo[files[i]], nodes, edges, index, calls);
      }
    }
    assert files[..|files|] == files;
  }

  lemma PushedDocs(nodes: seq<Node>, repo: Repo, files: seq<Path>, i: nat)
    requires i < |files| && files[i] in repo
    ensures var before := nodes + FlatMap(DocNodesAt(repo), files[..i]);
            var after := nodes + FlatMap(DocNodesAt(repo), files[..i + 1]);
            if repo[files[i]].Doc? then
              && after == before + [DocNodeOf(files[i])]
              && Pushed(after) == CountDoc(Pushed(before))
            else after == before
  {
    FlatMapSnoc(nodes, DocNodesAt(repo), files, i);
    var before := nodes + FlatMap(DocNodesAt(repo), files[..i]);
    if repo[files[i]].Doc? {
      PushedDoc(before, files[i]);
      assert before + [DocNodeOf(files[i])] == nodes + FlatMap(DocNodesAt(repo), files[..i + 1]);
    }
  }

  /** Pass 2: every document, its mentions resolved against the complete index. */
  method PushDocs(repo: Repo, files: seq<Path>, cap: nat, index: SymbolIndex, nodes0: seq<Node>, edges0: seq<Edge>,
                  counts0: Counts)
    returns (nodes: seq<Node>, edges: seq<Edge>, counts: Counts)
    requires forall p :: p in files ==> p in repo
    requires Indexes(index, nodes0) && counts0 == Pushed(nodes0)
    ensures counts == Pushed(nodes)
    ensures nodes == nodes0 + FlatMap(DocNodesAt(repo), files)
    ensures edges == edges0 + FlatMap(LinkEdges(nodes0, cap), FlatMap(LinksAt(repo), files))
  {
    nodes, edges, counts := nodes0, edges0, counts0;
    for i := 0 to |files|
      invariant counts == Pushed(nodes)
      invariant nodes == nodes0 + FlatMap(DocNodesAt(repo), files[..i])
      invariant edges == edges0 + FlatMap(LinkEdges(nodes0, cap), FlatMap(LinksAt(repo), files[..i]))
    {
      PushedDocs(nodes0, repo, files, i);
      FlatMapNested(LinkEdges(nodes0, cap), LinksAt(repo), files, i, edges0);
      if repo[files[i]].Doc? {
        counts := CountDoc(counts);
        nodes := nodes + [DocNodeOf(files[i])];
        edges := PushLinkEdges(DocLinks(files[i], repo[files[i]]), index, cap, nodes0, edges);
      }
    }
    assert files[..|files|] == files;
  }

  /** The graph a caller gets from a build of these files. */
  ghost predicate IsBuild(g: Graph, repo: Repo, files: seq<Path>, cap: nat) {
    && Distinct(files) && Elems(files) == repo.Keys
    && g.nodes == FirstPerId(RawNodes(repo, files))
    && g.edges == FirstOfEqual(RawEdges(repo, files, cap))
    && g.counts == Recalculate(RawNodes(repo, files), g.edges).(modules := |Filter(OfKind(ModuleNode), g.nodes)|)
  }

  /** `files` is what the walk of the repository lists, in any order. */
  method Build(repo: Repo, files: seq<Path>, cap: nat) returns (g: Graph)
    requires Distinct(files) && Elems(files) == repo.Keys
    ensures IsBuild(g, repo, files, cap)
  {
    var nodes, edges, index, calls, counts := PushSources(repo, files);
    ghost var sources := nodes;
    nodes, edges, counts := PushDocs(repo, files, cap, index, nodes, edges, counts);
    edges := PushCallEdges(calls, index, cap, sources, edges);
    nodes := DedupeNodes(nodes);
    edges := DedupeEdges(edges);
    g := Graph(nodes, edges, counts.(modules := |Filter(OfKind(ModuleNode), nodes)|, edges := |edges|));
  }
}
