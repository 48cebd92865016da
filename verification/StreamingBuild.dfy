/** The builder that writes straight into the index and keeps its counts as it goes. */
module StreamingBuild {
  import opened Prelude
  import opened RepoTypes
  import opened GraphParts
  import opened GraphBuilder
  import opened GraphMeaning
  import opened BuildTheorems
  import opened RepoIndex

  function CountInsertedNode(n: Counts, node: Node): Counts {
    match node.kind
    case FileNode => n.(files := n.files + 1, rustFiles := n.rustFiles + if node.language == Some("rust") then 1 else 0)
    case DocNode => CountDoc(n)
    case SymbolNode => n.(symbols := n.symbols + 1)
    case ModuleNode => n.(modules := n.modules + 1)
  }

  // What a build inserts, in the order it inserts it.

  function ImportOps(p: Path, language: string): string -> seq<IndexOp> {
    name => [PutNode(ModuleNodeOf(language)(name)), PutEdge(ImportEdgeOf(p)(name))]
  }

  function SymbolOps(p: Path, language: string): Symbol -> seq<IndexOp> {
    (s: Symbol) => [PutNode(SymbolNodeOf(p, language)(s)), PutEdge(DefineEdgeOf(p)(s))]
  }

  function SourceOps(p: Path, c: FileContent): seq<IndexOp> {
    if c.Source? then
      [PutNode(FileNodeOf(p, c.language))] + FlatMap(ImportOps(p, c.language), c.imports)
      + FlatMap(SymbolOps(p, c.language), c.symbols)
    else []
  }

  function SourceOpsAt(repo: Repo): Path -> seq<IndexOp> { p => SourceOps(p, ContentAt(repo, p)) }

  function DocOpsAt(repo: Repo): Path -> seq<IndexOp> {
    p => if ContentAt(repo, p).Doc? then [PutNode(DocNodeOf(p))] else []
  }

  function EdgeOp(): Edge -> IndexOp { e => PutEdge(e) }

  ghost function StreamOps(repo: Repo, files: seq<Path>, cap: nat): seq<IndexOp> {
    var nodes := FlatMap(SourceNodesAt(repo), files);
    FlatMap(SourceOpsAt(repo), files) + FlatMap(DocOpsAt(repo), files)
    + Map(EdgeOp(), FlatMap(CallEdges(nodes, cap), FlatMap(CallsAt(repo), files)))
    + Map(EdgeOp(), FlatMap(LinkEdges(nodes, cap), FlatMap(LinksAt(repo), files)))
  }

  /** The running counts: an insertion counts when it is the first of its id. */
  ghost function CountAfter(ops: seq<IndexOp>, c: Coding): Counts {
    if ops == [] then NO_COUNTS else
      var rest := ops[..|ops| - 1];
      var n := CountAfter(rest, c);
      match ops[|ops| - 1]
      case PutNode(node) => if node.id in After(rest, c).nodes then n else CountInsertedNode(n, node)
      case PutEdge(e) => if c.IdOf(e) in After(rest, c).edges then n else n.(edges := n.edges + 1)
  }

  ghost predicate Written(t: Tables, counts: Counts, c: Coding, ops: seq<IndexOp>) {
    t == After(ops, c) && counts == CountAfter(ops, c)
  }

  method StreamNode(sink: RepoIndexSink, counts0: Counts, n: Node, ghost ops: seq<IndexOp>) returns (counts: Counts)
    requires Written(sink.Contents(), counts0, sink.coding, ops)
    modifies sink
    ensures Written(sink.Contents(), counts, sink.coding, ops + [PutNode(n)])
  {
    assert (ops + [PutNode(n)])[..|ops|] == ops;
    var inserted := sink.InsertNode(n);
    counts := if inserted then CountInsertedNode(counts0, n) else counts0;
  }

  method StreamEdge(sink: RepoIndexSink, counts0: Counts, e: Edge, ghost ops: seq<IndexOp>) returns (counts: Counts)
    requires Written(sink.Contents(), counts0, sink.coding, ops)
    modifies sink
    ensures Written(sink.Contents(), counts, sink.coding, ops + [PutEdge(e)])
  {
    assert (ops + [PutEdge(e)])[..|ops|] == ops;
    var inserted := sink.InsertEdge(e);
    counts := if inserted then counts0.(edges := counts0.edges + 1) else counts0;
  }

  /** A node and the edge that leads to it. */
  method StreamPair(sink: RepoIndexSink, counts0: Counts, n: Node, e: Edge, ghost ops: seq<IndexOp>)
    returns (counts: Counts)
    requires Written(sink.Contents(), counts0, sink.coding, ops)
    modifies sink
    ensures Written(sink.Contents(), counts, sink.coding, ops + [PutNode(n), PutEdge(e)])
  {
    counts := StreamNode(sink, counts0, n, ops);
    counts := StreamEdge(sink, counts, e, ops + [PutNode(n)]);
    assert ops + [PutNode(n)] + [PutEdge(e)] == ops + [PutNode(n), PutEdge(e)];
  }

  method StreamImports(sink: RepoIndexSink, counts0: Counts, p: Path, c: FileContent, ghost ops: seq<IndexOp>)
    returns (counts: Counts)
    requires c.Source? && Written(sink.Contents(), counts0, sink.coding, ops)
    modifies sink
    ensures Written(sink.Contents(), counts, sink.coding, ops + FlatMap(ImportOps(p, c.language), c.imports))
  {
    counts := counts0;
    assert ops + FlatMap(ImportOps(p, c.language), c.imports[..0]) == ops;
    for i := 0 to |c.imports|
      invariant Written(sink.Contents(), counts, sink.coding, ops + FlatMap(ImportOps(p, c.language), c.imports[..i]))
    {
      ghost var done := ops + FlatMap(ImportOps(p, c.language), c.imports[..i]);
      FlatMapSnoc(ops, ImportOps(p, c.language), c.imports, i);
      counts := StreamPair(sink, counts, ModuleNodeOf(c.language)(c.imports[i]), ImportEdgeOf(p)(c.imports[i]), done);
    }
    assert c.imports[..|c.imports|] == c.imports;
  }

  method StreamSymbols(sink: RepoIndexSink, counts0: Counts, p: Path, c: FileContent, index0: SymbolIndex,
                       calls0: seq<PendingCall>, ghost nodes: seq<Node>, ghost ops: seq<IndexOp>)
    returns (counts: Counts, index: SymbolIndex, calls: seq<PendingCall>)
    requires c.Source? && Written(sink.Contents(), counts0, sink.coding, ops) && Indexes(index0, nodes)
    modifies sink
    ensures Written(sink.Contents(), counts, sink.coding, ops + FlatMap(SymbolOps(p, c.language), c.symbols))
    ensures calls == calls0 + FlatMap(PendingCallsOf(p), c.symbols)
    ensures Indexes(index, nodes + Map(SymbolNodeOf(p, c.language), c.symbols))
  {
    counts, index, calls := counts0, index0, calls0;
    assert ops + FlatMap(SymbolOps(p, c.language), c.symbols[..0]) == ops;
    assert nodes + Map(SymbolNodeOf(p, c.language), c.symbols[..0]) == nodes;
    for i := 0 to |c.symbols|
      invariant Written(sink.Contents(), counts, sink.coding, ops + FlatMap(SymbolOps(p, c.language), c.symbols[..i]))
      invariant calls == calls0 + FlatMap(PendingCallsOf(p), c.symbols[..i])
      invariant Indexes(index, nodes + Map(SymbolNodeOf(p, c.language), c.symbols[..i]))
    {
      ghost var done := ops + FlatMap(SymbolOps(p, c.language), c.symbols[..i]);
      FlatMapSnoc(ops, SymbolOps(p, c.language), c.symbols, i);
      FlatMapSnoc(calls0, PendingCallsOf(p), c.symbols, i);
      MapSnoc(nodes, SymbolNodeOf(p, c.language), c.symbols, i);
      var node, edge := SymbolNodeOf(p, c.language)(c.symbols[i]), DefineEdgeOf(p)(c.symbols[i]);
      IndexesSnoc(index, nodes + Map(SymbolNodeOf(p, c.language), c.symbols[..i]), node);
      index := AddToIndex(index, node);
      counts := StreamPair(sink, counts, node, edge, done);
      calls := PushCalls(p, c.symbols[i], calls);
    }
    assert c.symbols[..|c.symbols|] == c.symbols;
  }

  method StreamSourceFile(sink: RepoIndexSink, counts0: Counts, p: Path, c: FileContent, index0: SymbolIndex,
                          calls0: seq<PendingCall>, ghost nodes: seq<Node>, ghost ops: seq<IndexOp>)
    returns (counts: Counts, index: SymbolIndex, calls: seq<PendingCall>)
    requires c.Source? && Written(sink.Contents(), counts0, sink.coding, ops) && Indexes(index0, nodes)
    modifies sink
    ensures Written(sink.Contents(), counts, sink.coding, ops + SourceOps(p, c))
    ensures calls == calls0 + SourceCalls(p, c)
    ensures Indexes(index, nodes + SourceNodes(p, c))
  {
    var file := FileNodeOf(p, c.language);
    ghost var head := nodes + [file];
    ghost var mods := Map(ModuleNodeOf(c.language), c.imports);
    IndexesSnoc(index0, nodes, file);
    IndexesModules(index0, head, c.language, c.imports);
    counts := StreamNode(sink, counts0, file, ops);
    counts := StreamImports(sink, counts, p, c, ops + [PutNode(file)]);
    ghost var done := ops + [PutNode(file)] + FlatMap(ImportOps(p, c.language), c.imports);
    counts, index, calls := StreamSymbols(sink, counts, p, c, index0, calls0, head + mods, done);
    Regroup(ops, [PutNode(file)], FlatMap(ImportOps(p, c.language), c.imports),
            FlatMap(SymbolOps(p, c.language), c.symbols));
    Regroup(nodes, [file], mods, Map(SymbolNodeOf(p, c.language), c.symbols));
  }

  lemma IndexesModules(index: SymbolIndex, nodes: seq<Node>, language: string, imports: seq<string>)
    requires Indexes(index, nodes)
    ensures Indexes(index, nodes + Map(ModuleNodeOf(language), imports))
  {
    MapAt(ModuleNodeOf(language), imports);
    forall name
      ensures DefsNamed(nodes + Map(ModuleNodeOf(language), imports), name) == DefsNamed(nodes, name)
    {
      NoDefs(Map(ModuleNodeOf(language), imports), name);
      FlatMapAppend(Named(name), nodes, Map(ModuleNodeOf(language), imports));
    }
  }

  method StreamSources(sink: RepoIndexSink, repo: Repo, files: seq<Path>)
    returns (counts: Counts, index: SymbolIndex, calls: seq<PendingCall>)
    requires sink.Contents() == NO_TABLES && forall p :: p in files ==> p in repo
    modifies sink
    ensures Written(sink.Contents(), counts, sink.coding, FlatMap(SourceOpsAt(repo), files))
    ensures calls == FlatMap(CallsAt(repo), files)
    ensures Indexes(index, FlatMap(SourceNodesAt(repo), files))
  {
    counts, index, calls := NO_COUNTS, map[], [];
    for i := 0 to |files|
      invariant Written(sink.Contents(), counts, sink.coding, FlatMap(SourceOpsAt(repo), files[..i]))
      invariant calls == FlatMap(CallsAt(repo), files[..i])
      invariant Indexes(index, FlatMap(SourceNodesAt(repo), files[..i]))
    {
      FlatMapNext(SourceOpsAt(repo), files, i);
      FlatMapNext(CallsAt(repo), files, i);
      FlatMapNext(SourceNodesAt(repo), files, i);
      if repo[files[i]].Source? {
        counts, index, calls := StreamSourceFile(sink, counts, files[i], repo[files[i]], index, calls,
          FlatMap(SourceNodesAt(repo), files[..i]), FlatMap(SourceOpsAt(repo), files[..i]));
      } else {
        assert FlatMap(SourceOpsAt(repo), files[..i + 1]) == FlatMap(SourceOpsAt(repo), files[..i]);
        assert FlatMap(CallsAt(repo), files[..i + 1]) == FlatMap(CallsAt(repo), files[..i]);
        assert FlatMap(SourceNodesAt(repo), files[..i + 1]) == FlatMap(SourceNodesAt(repo), files[..i]);
      }
    }
    assert files[..|files|] == files;
  }

  /** Documents add their nodes at once; their mentions wait until the calls are resolved. */
  method StreamDocs(sink: RepoIndexSink, counts0: Counts, repo: Repo, files: seq<Path>, ghost ops: seq<IndexOp>)
    returns (counts: Counts, links: seq<PendingLink>)
    requires Written(sink.Contents(), counts0, sink.coding, ops) && forall p :: p in files ==> p in repo
    modifies sink
    ensures Written(sink.Contents(), counts, sink.coding, ops + FlatMap(DocOpsAt(repo), files))
    ensures links == FlatMap(LinksAt(repo), files)
  {
    counts, links := counts0, [];
    assert ops + FlatMap(DocOpsAt(repo), files[..0]) == ops;
    for i := 0 to |files|
      invariant Written(sink.Contents(), counts, sink.coding, ops + FlatMap(DocOpsAt(repo), files[..i]))
      invariant links == FlatMap(LinksAt(repo), files[..i])
    {
      FlatMapSnoc(ops, DocOpsAt(repo), files, i);
      FlatMapNext(LinksAt(repo), files, i);
      if repo[files[i]].Doc? {
        counts := StreamNode(sink, counts, DocNodeOf(files[i]), ops + FlatMap(DocOpsAt(repo), files[..i]));
        links := links + DocLinks(files[i], repo[files[i]]);
      } else {
        assert ops + FlatMap(DocOpsAt(repo), files[..i + 1]) == ops + FlatMap(DocOpsAt(repo), files[..i]);
        assert FlatMap(LinksAt(repo), files[..i + 1]) == FlatMap(LinksAt(repo), files[..i]);
      }
    }
    assert files[..|files|] == files;
  }

  method StreamEdges(sink: RepoIndexSink, counts0: Counts, edges: seq<Edge>, ghost ops: seq<IndexOp>)
    returns (counts: Counts)
    requires Written(sink.Contents(), counts0, sink.coding, ops)
    modifies sink
    ensures Written(sink.Contents(), counts, sink.coding, ops + Map(EdgeOp(), edges))
  {
    counts := counts0;
    assert ops + Map(EdgeOp(), edges[..0]) == ops;
    for i := 0 to |edges|
      invariant Written(sink.Contents(), counts, sink.coding, ops + Map(EdgeOp(), edges[..i]))
    {
      MapSnoc(ops, EdgeOp(), edges, i);
      counts := StreamEdge(sink, counts, edges[i], ops + Map(EdgeOp(), edges[..i]));
    }
    assert edges[..|edges|] == edges;
  }

  method BuildAndSaveIndex(repo: Repo, files: seq<Path>, cap: nat, c: Coding) returns (t: Tables, counts: Counts)
    requires Distinct(files) && Elems(files) == repo.Keys
    ensures Written(t, counts, c, StreamOps(repo, files, cap))
  {
    forall p | p in files ensures p in repo { assert p in Elems(files); }
    ghost var sources := FlatMap(SourceNodesAt(repo), files);
    ghost var ops := FlatMap(SourceOpsAt(repo), files);
    var sink := new RepoIndexSink(c);
    var index, calls, links;
    counts, index, calls := StreamSources(sink, repo, files);
    counts, links := StreamDocs(sink, counts, repo, files, ops);
    ops := ops + FlatMap(DocOpsAt(repo), files);
    var callEdges := PushCallEdges(calls, index, cap, sources, []);
    assert [] + FlatMap(CallEdges(sources, cap), calls) == FlatMap(CallEdges(sources, cap), calls);
    counts := StreamEdges(sink, counts, callEdges, ops);
    ops := ops + Map(EdgeOp(), callEdges);
    var linkEdges := PushLinkEdges(links, index, cap, sources, []);
    assert [] + FlatMap(LinkEdges(sources, cap), links) == FlatMap(LinkEdges(sources, cap), links);
    counts := StreamEdges(sink, counts, linkEdges, ops);
    t := sink.Contents();
  }

  // What any sequence of insertions leaves in the primary tables and in the counts.

  function NodePart(): IndexOp -> seq<Node> { (op: IndexOp) => if op.PutNode? then [op.node] else [] }

  function EdgePart(): IndexOp -> seq<Edge> { (op: IndexOp) => if op.PutEdge? then [op.edge] else [] }

  function NodesPut(ops: seq<IndexOp>): seq<Node> { FlatMap(NodePart(), ops) }

  function EdgesPut(ops: seq<IndexOp>): seq<Edge> { FlatMap(EdgePart(), ops) }

  /** Well-shaped nodes and edges that the hash tells apart. */
  ghost predicate Writable(c: Coding, ops: seq<IndexOp>) {
    && (forall n :: n in NodesPut(ops) ==> NodeOk(n))
    && (forall e :: e in EdgesPut(ops) ==> EdgeOk(e))
    && ClashFree(c, Elems(EdgesPut(ops)))
  }

  lemma RecalculateNode(nodes: seq<Node>, edges: seq<Edge>, n: Node)
    ensures Recalculate(nodes + [n], edges) == CountInsertedNode(Recalculate(nodes, edges), n)
  {
  }

  lemma PutParts(ops: seq<IndexOp>)
    requires ops != []
    ensures var rest, last := ops[..|ops| - 1], ops[|ops| - 1];
            && NodesPut(ops) == (if last.PutNode? then NodesPut(rest) + [last.node] else NodesPut(rest))
            && EdgesPut(ops) == (if last.PutEdge? then EdgesPut(rest) + [last.edge] else EdgesPut(rest))
  {
  }

  lemma WritableFront(ops: seq<IndexOp>, c: Coding)
    requires ops != [] && Writable(c, ops)
    ensures Writable(c, ops[..|ops| - 1])
  {
  }

  /** The primary tables hold what was inserted. */
  lemma {:induction false} PutExactly(ops: seq<IndexOp>, c: Coding)
    requires Writable(c, ops)
    ensures After(ops, c).nodes.Keys == Ids(NodesPut(ops))
    ensures After(ops, c).edges.Values == Elems(EdgesPut(ops))
    ensures forall h :: h in After(ops, c).edges ==> c.IdOf(After(ops, c).edges[h]) == h
  {
    if ops != [] {
      var rest, last := ops[..|ops| - 1], ops[|ops| - 1];
      PutParts(ops);
      WritableFront(ops, c);
      PutExactly(rest, c);
      if last.PutNode? {
        PutNodeExactly(After(rest, c), c, NodesPut(rest), last.node);
      } else {
        PutEdgeExactly(After(rest, c), c, EdgesPut(rest), last.edge);
      }
    }
  }

  lemma PutNodeExactly(t: Tables, c: Coding, nodes: seq<Node>, n: Node)
    requires t.nodes.Keys == Ids(nodes)
    ensures WithNode(t, c, n).nodes.Keys == Ids(nodes + [n]) && WithNode(t, c, n).edges == t.edges
  {
  }

  /** The running counts are the counts of the distinct nodes and edges. */
  lemma {:induction false} CountsExactly(ops: seq<IndexOp>, c: Coding)
    requires Writable(c, ops)
    ensures CountAfter(ops, c) == Recalculate(FirstPerId(NodesPut(ops)), FirstOfEqual(EdgesPut(ops)))
  {
    if ops != [] {
      var rest, last := ops[..|ops| - 1], ops[|ops| - 1];
      PutParts(ops);
      WritableFront(ops, c);
      CountsExactly(rest, c);
      PutExactly(rest, c);
      if last.PutNode? {
        PutNodeCounts(NodesPut(rest), FirstOfEqual(EdgesPut(rest)), last.node);
      } else {
        PutEdgeExactly(After(rest, c), c, EdgesPut(rest), last.edge);
        PutEdgeCounts(FirstPerId(NodesPut(rest)), EdgesPut(rest), last.edge);
      }
    }
  }

  lemma PutNodeCounts(nodes: seq<Node>, edges: seq<Edge>, n: Node)
    ensures Recalculate(FirstPerId(nodes + [n]), edges) ==
            if n.id in Ids(nodes) then Recalculate(FirstPerId(nodes), edges)
            else CountInsertedNode(Recalculate(FirstPerId(nodes), edges), n)
  {
    assert (nodes + [n])[..|nodes|] == nodes;
    RecalculateNode(FirstPerId(nodes), edges, n);
  }

  lemma PutEdgeCounts(nodes: seq<Node>, edges: seq<Edge>, e: Edge)
    ensures var n := Recalculate(nodes, FirstOfEqual(edges));
            Recalculate(nodes, FirstOfEqual(edges + [e])) == if e in edges then n else n.(edges := n.edges + 1)
  {
  }

  /** An edge is stored already exactly when its id is. */
  lemma StoredEdge(t: Tables, c: Coding, edges: seq<Edge>, e: Edge)
    requires t.edges.Values == Elems(edges) && forall h :: h in t.edges ==> c.IdOf(t.edges[h]) == h
    requires ClashFree(c, Elems(edges + [e])) && forall f :: f in edges + [e] ==> EdgeOk(f)
    ensures c.IdOf(e) in t.edges <==> e in edges
    ensures c.IdOf(e) in t.edges ==> t.edges[c.IdOf(e)] == e
  {
    var h := c.IdOf(e);
    ElemsSnoc(edges, e);
    if h in t.edges {
      var f := t.edges[h];
      assert f in t.edges.Values && f in edges + [e] && e in edges + [e];
      KeyFaithful(f, e);
    }
    if e in edges {
      assert e in t.edges.Values;
      var k :| k in t.edges && t.edges[k] == e;
    }
  }

  lemma PutEdgeExactly(t: Tables, c: Coding, edges: seq<Edge>, e: Edge)
    requires t.edges.Values == Elems(edges) && forall h :: h in t.edges ==> c.IdOf(t.edges[h]) == h
    requires ClashFree(c, Elems(edges + [e])) && forall f :: f in edges + [e] ==> EdgeOk(f)
    ensures c.IdOf(e) in t.edges <==> e in edges
    ensures var t' := WithEdge(t, c, e);
            && t'.edges.Values == Elems(edges + [e]) && t'.nodes == t.nodes
            && forall h :: h in t'.edges ==> c.IdOf(t'.edges[h]) == h
  {
    StoredEdge(t, c, edges, e);
    ElemsSnoc(edges, e);
    PutValues(t.edges, c.IdOf(e), e);
    assert WithEdge(t, c, e).edges == t.edges[c.IdOf(e) := e];
  }

  // What the streaming builder inserts is what the batch builder pushes.

  lemma PartsAppend(a: seq<IndexOp>, b: seq<IndexOp>)
    ensures NodesPut(a + b) == NodesPut(a) + NodesPut(b) && EdgesPut(a + b) == EdgesPut(a) + EdgesPut(b)
  {
    FlatMapAppend(NodePart(), a, b);
    FlatMapAppend(EdgePart(), a, b);
  }

  lemma {:induction false} PartsOfPairs<A>(xs: seq<A>, pair: A -> seq<IndexOp>, node: A -> Node, edge: A -> Edge)
    requires forall x :: x in xs ==> pair(x) == [PutNode(node(x)), PutEdge(edge(x))]
    ensures NodesPut(FlatMap(pair, xs)) == Map(node, xs) && EdgesPut(FlatMap(pair, xs)) == Map(edge, xs)
  {
    if xs != [] {
      var rest, x := xs[..|xs| - 1], xs[|xs| - 1];
      PartsOfPairs(rest, pair, node, edge);
      PartsAppend(FlatMap(pair, rest), pair(x));
      PartsAppend([PutNode(node(x))], [PutEdge(edge(x))]);
      assert pair(x) == [PutNode(node(x))] + [PutEdge(edge(x))];
      PartsOfOne(PutNode(node(x)));
      PartsOfOne(PutEdge(edge(x)));
    }
  }

  lemma PartsOfOne(op: IndexOp)
    ensures NodesPut([op]) == NodePart()(op) && EdgesPut([op]) == EdgePart()(op)
  {
    PutParts([op]);
    assert [op][..0] == [];
  }

  lemma PartsOfThree(a: seq<IndexOp>, b: seq<IndexOp>, c: seq<IndexOp>)
    ensures NodesPut(a + b + c) == NodesPut(a) + NodesPut(b) + NodesPut(c)
    ensures EdgesPut(a + b + c) == EdgesPut(a) + EdgesPut(b) + EdgesPut(c)
  {
    PartsAppend(a, b);
    PartsAppend(a + b, c);
  }

  lemma PartsOfImports(p: Path, c: FileContent)
    requires c.Source?
    ensures NodesPut(FlatMap(ImportOps(p, c.language), c.imports)) == Map(ModuleNodeOf(c.language), c.imports)
    ensures EdgesPut(FlatMap(ImportOps(p, c.language), c.imports)) == Map(ImportEdgeOf(p), c.imports)
  {
    PartsOfPairs(c.imports, ImportOps(p, c.language), ModuleNodeOf(c.language), ImportEdgeOf(p));
  }

  lemma PartsOfSymbols(p: Path, c: FileContent)
    requires c.Source?
    ensures NodesPut(FlatMap(SymbolOps(p, c.language), c.symbols)) == Map(SymbolNodeOf(p, c.language), c.symbols)
    ensures EdgesPut(FlatMap(SymbolOps(p, c.language), c.symbols)) == Map(DefineEdgeOf(p), c.symbols)
  {
    PartsOfPairs(c.symbols, SymbolOps(p, c.language), SymbolNodeOf(p, c.language), DefineEdgeOf(p));
  }

  lemma PartsOfSource(p: Path, c: FileContent)
    ensures NodesPut(SourceOps(p, c)) == SourceNodes(p, c) && EdgesPut(SourceOps(p, c)) == SourceEdges(p, c)
  {
    if c.Source? {
      var file := PutNode(FileNodeOf(p, c.language));
      PartsOfOne(file);
      PartsOfImports(p, c);
      PartsOfSymbols(p, c);
      PartsOfThree([file], FlatMap(ImportOps(p, c.language), c.imports), FlatMap(SymbolOps(p, c.language), c.symbols));
      assert [] + Map(ImportEdgeOf(p), c.imports) == Map(ImportEdgeOf(p), c.imports);
    }
  }

  lemma {:induction false} PartsOfFiles(repo: Repo, files: seq<Path>)
    ensures NodesPut(FlatMap(SourceOpsAt(repo), files)) == FlatMap(SourceNodesAt(repo), files)
    ensures EdgesPut(FlatMap(SourceOpsAt(repo), files)) == FlatMap(EdgesAt(repo), files)
    ensures NodesPut(FlatMap(DocOpsAt(repo), files)) == FlatMap(DocNodesAt(repo), files)
    ensures EdgesPut(FlatMap(DocOpsAt(repo), files)) == []
  {
    if files != [] {
      var rest, p := files[..|files| - 1], files[|files| - 1];
      PartsOfFiles(repo, rest);
      PartsOfSource(p, ContentAt(repo, p));
      PartsAppend(FlatMap(SourceOpsAt(repo), rest), SourceOpsAt(repo)(p));
      PartsAppend(FlatMap(DocOpsAt(repo), rest), DocOpsAt(repo)(p));
      if ContentAt(repo, p).Doc? {
        PartsOfOne(PutNode(DocNodeOf(p)));
      }
    }
  }

  lemma {:induction false} PartsOfEdges(edges: seq<Edge>)
    ensures NodesPut(Map(EdgeOp(), edges)) == [] && EdgesPut(Map(EdgeOp(), edges)) == edges
  {
    if edges != [] {
      var rest, e := edges[..|edges| - 1], edges[|edges| - 1];
      PartsOfEdges(rest);
      PartsAppend(Map(EdgeOp(), rest), [PutEdge(e)]);
      PartsOfOne(PutEdge(e));
    }
  }

  /** The nodes come in the batch order; the edges do but for the last two groups, which change places. */
  lemma StreamedParts(repo: Repo, files: seq<Path>, cap: nat)
    ensures NodesPut(StreamOps(repo, files, cap)) == RawNodes(repo, files)
    ensures Elems(EdgesPut(StreamOps(repo, files, cap))) == Elems(RawEdges(repo, files, cap))
  {
    var nodes := FlatMap(SourceNodesAt(repo), files);
    var sources, docs := FlatMap(SourceOpsAt(repo), files), FlatMap(DocOpsAt(repo), files);
    var calls := FlatMap(CallEdges(nodes, cap), FlatMap(CallsAt(repo), files));
    var links := FlatMap(LinkEdges(nodes, cap), FlatMap(LinksAt(repo), files));
    PartsOfFiles(repo, files);
    PartsOfEdges(calls);
    PartsOfEdges(links);
    PartsAppend(sources, docs);
    PartsAppend(sources + docs, Map(EdgeOp(), calls));
    PartsAppend(sources + docs + Map(EdgeOp(), calls), Map(EdgeOp(), links));
    assert EdgesPut(StreamOps(repo, files, cap)) == FlatMap(EdgesAt(repo), files) + [] + calls + links;
    assert FlatMap(EdgesAt(repo), files) + [] == FlatMap(EdgesAt(repo), files);
    ElemsSwap(FlatMap(EdgesAt(repo), files), calls, links);
    assert NodesPut(StreamOps(repo, files, cap)) == RawNodes(repo, files) + [] + [];
  }

  lemma SameFile(c: Coding, a: Node, b: Node)
    requires NodeOk(a) && NodeOk(b) && a.id == b.id
    ensures FiledAlike(c, a, b)
  {
  }

  lemma ConsistentWhenWritable(ops: seq<IndexOp>, c: Coding)
    requires Writable(c, ops)
    ensures Consistent(ops, c)
  {
    forall op | op in ops
      ensures op.PutNode? ==> NodeOk(op.node)
      ensures op.PutEdge? ==> EdgeOk(op.edge) && op.edge in EdgesPut(ops)
    {
      if op.PutNode? {
        assert op.node in NodePart()(op);
        FlatMapMember(NodePart(), ops, op.node);
      } else {
        assert op.edge in EdgePart()(op);
        FlatMapMember(EdgePart(), ops, op.edge);
      }
    }
    forall a, b | PutNode(a) in ops && PutNode(b) in ops && a.id == b.id ensures FiledAlike(c, a, b) {
      SameFile(c, a, b);
    }
    forall a, b | PutEdge(a) in ops && PutEdge(b) in ops && c.IdOf(a) == c.IdOf(b) ensures JoinedAlike(a, b) {
      assert PutEdge(a).edge in EdgesPut(ops) && PutEdge(b).edge in EdgesPut(ops);
      assert a in Elems(EdgesPut(ops)) && b in Elems(EdgesPut(ops));
    }
  }

  lemma {:induction false} StoredPut(ops: seq<IndexOp>, c: Coding, id: NodeId)
    requires id in After(ops, c).nodes
    ensures After(ops, c).nodes[id] in NodesPut(ops)
  {
    if ops != [] {
      var rest, last := ops[..|ops| - 1], ops[|ops| - 1];
      PutParts(ops);
      if id in After(rest, c).nodes {
        StoredPut(rest, c, id);
      }
    }
  }

  /** Whatever a streamed node says was reported by the parser of its file. */
  lemma StreamDescribes(t: Tables, counts: Counts, repo: Repo, files: seq<Path>, cap: nat, c: Coding)
    requires Written(t, counts, c, StreamOps(repo, files, cap))
    ensures forall n :: n in t.nodes.Values ==> Describes(repo, n)
  {
    var ops := StreamOps(repo, files, cap);
    StreamedParts(repo, files, cap);
    forall n | n in t.nodes.Values ensures Describes(repo, n) {
      var id :| id in t.nodes && t.nodes[id] == n;
      StoredPut(ops, c, id);
      RawDescribes(repo, files, n);
    }
  }

  /** The streaming builder writes the nodes and edges of a batch build, in exact tables, and its counts are theirs. */
  lemma StreamingEqualsBatch(t: Tables, counts: Counts, g: Graph, repo: Repo, files: seq<Path>, cap: nat, c: Coding)
    requires Written(t, counts, c, StreamOps(repo, files, cap)) && IsBuild(g, repo, files, cap)
    requires ClashFree(c, Elems(g.edges))
    ensures t.nodes.Keys == Ids(g.nodes) && t.edges.Values == Elems(g.edges) && Inverse(t, c)
    ensures counts == Recalculate(g.nodes, g.edges)
  {
    var ops := StreamOps(repo, files, cap);
    StreamedParts(repo, files, cap);
    assert Writable(c, ops) by {
      forall n | n in NodesPut(ops) ensures NodeOk(n) { RawMember(repo, files, n); }
      forall e | e in EdgesPut(ops) ensures EdgeOk(e) {
        assert e in Elems(EdgesPut(ops));
        RawEdgeMember(repo, files, cap, e);
      }
    }
    PutExactly(ops, c);
    CountsExactly(ops, c);
    ConsistentWhenWritable(ops, c);
    InsertionsInverse(ops, c);
    DistinctCount(FirstOfEqual(EdgesPut(ops)));
    DistinctCount(FirstOfEqual(RawEdges(repo, files, cap)));
  }
}
