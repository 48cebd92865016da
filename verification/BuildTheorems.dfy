/** A full build denotes the repository: its edges, its nodes, its well-formedness and its counts. */
module BuildTheorems {
  import opened Prelude
  import opened RepoTypes
  import opened GraphParts
  import opened GraphBuilder
  import opened GraphMeaning

  /** The graph says what the repository denotes; it may hold modules nothing imports any more. */
  ghost predicate Mirrors(g: Graph, repo: Repo, cap: nat) {
    && WellFormed(g)
    && (forall e :: e in g.edges <==> Denotes(repo, cap, e))
    && (forall id :: Declares(repo, id) ==> id in Ids(g.nodes))
    && (forall id :: id in Ids(g.nodes) && !id.ModuleId? ==> Declares(repo, id))
  }

  ghost predicate MirrorsExactly(g: Graph, repo: Repo, cap: nat) {
    && Mirrors(g, repo, cap)
    && forall id :: id in Ids(g.nodes) ==> Declares(repo, id)
  }

  lemma RawMember(repo: Repo, files: seq<Path>, n: Node)
    ensures n in RawNodes(repo, files) <==> n in FlatMap(NodesAt(repo), files)
    ensures n in FlatMap(SourceNodesAt(repo), files) <==> n in FlatMap(NodesAt(repo), files) && n.kind != DocNode
    ensures n in RawNodes(repo, files) ==> NodeOk(n)
  {
    FlatMapMember(SourceNodesAt(repo), files, n);
    FlatMapMember(DocNodesAt(repo), files, n);
    FlatMapMember(NodesAt(repo), files, n);
    forall p | p in files
      ensures n in NodesAt(repo)(p) <==> n in SourceNodesAt(repo)(p) || n in DocNodesAt(repo)(p)
      ensures n in NodesAt(repo)(p) ==> NodeOk(n)
      ensures n in NodesAt(repo)(p) ==> (n in SourceNodesAt(repo)(p) <==> n.kind != DocNode)
    {
      if n in NodesAt(repo)(p) {
        NodeMember(repo, p, n);
        var c := ContentAt(repo, p);
        if c.Source? {
          MapMember(ModuleNodeOf(c.language), c.imports, n);
          MapMember(SymbolNodeOf(p, c.language), c.symbols, n);
        }
      }
    }
  }

  lemma RawIds(repo: Repo, files: seq<Path>, id: NodeId)
    requires Elems(files) == repo.Keys
    ensures id in Ids(RawNodes(repo, files)) <==> Declares(repo, id)
    ensures id in Ids(FlatMap(SourceNodesAt(repo), files)) <==> Declares(repo, id) && !id.DocId?
  {
    forall n { RawMember(repo, files, n); }
    IdsMember(repo, files, id);
    forall p | p in files { IdMember(repo, p, id); }
    forall p | p in repo ensures p in files { assert p in Elems(files); }
    forall p | p in files ensures p in repo { assert p in Elems(files); }
    if id.ModuleId? {
      assert id in Ids(FlatMap(NodesAt(repo), files)) <==> Declares(repo, id);
    } else {
      assert id in Ids(FlatMap(NodesAt(repo), files)) <==> id.path in files && Declares(repo, id);
    }
  }

  lemma RawReached(repo: Repo, files: seq<Path>, cap: nat, id: NodeId)
    requires Distinct(files) && Elems(files) == repo.Keys
    ensures Reached(FlatMap(SourceNodesAt(repo), files), cap, id) <==>
            id.SymbolId? && Declares(repo, id) && DefTotal(repo, repo.Keys, id.name) <= cap
  {
    RawIds(repo, files, id);
    if id.SymbolId? {
      IndexedTotal(repo, files, id.name);
    }
  }

  lemma SourcesOk(repo: Repo, files: seq<Path>, n: Node)
    requires n in FlatMap(SourceNodesAt(repo), files)
    ensures NodeOk(n)
  {
    RawMember(repo, files, n);
  }

  lemma EdgeInFiles(repo: Repo, files: seq<Path>, e: Edge)
    requires Elems(files) == repo.Keys
    ensures LocalEdge(repo, e) || Refers(repo, e) ==> e.path.value in files
  {
    assert LocalEdge(repo, e) || Refers(repo, e) ==> e.path.value in Elems(files);
  }

  lemma RawEdgeParts(repo: Repo, files: seq<Path>, cap: nat, e: Edge)
    ensures var nodes := FlatMap(SourceNodesAt(repo), files);
            e in RawEdges(repo, files, cap) <==>
            || e in FlatMap(EdgesAt(repo), files)
            || e in FlatMap(CallEdges(nodes, cap), FlatMap(CallsAt(repo), files))
            || e in FlatMap(LinkEdges(nodes, cap), FlatMap(LinksAt(repo), files))
  {
  }

  lemma RawEdgeMember(repo: Repo, files: seq<Path>, cap: nat, e: Edge)
    requires Distinct(files) && Elems(files) == repo.Keys
    ensures e in RawEdges(repo, files, cap) <==> Denotes(repo, cap, e)
  {
    var nodes := FlatMap(SourceNodesAt(repo), files);
    forall n | n in nodes ensures NodeOk(n) { SourcesOk(repo, files, n); }
    RawEdgeParts(repo, files, cap, e);
    LocalMember(repo, files, e);
    ReferenceMember(repo, files, nodes, cap, e);
    RawReached(repo, files, cap, e.to);
    EdgeInFiles(repo, files, e);
  }

  lemma DenotedEndpoints(repo: Repo, cap: nat, e: Edge)
    requires Denotes(repo, cap, e)
    ensures EdgeOk(e) && Declares(repo, e.from) && Declares(repo, e.to)
  {
  }

  /** A build yields exactly the nodes and edges the repository denotes, each once. */
  lemma BuildMirrors(g: Graph, repo: Repo, files: seq<Path>, cap: nat)
    requires IsBuild(g, repo, files, cap)
    ensures MirrorsExactly(g, repo, cap)
  {
    forall id { RawIds(repo, files, id); }
    forall n { RawMember(repo, files, n); }
    forall e
      ensures e in g.edges <==> Denotes(repo, cap, e)
      ensures e in g.edges ==> EdgeOk(e) && e.from in Ids(g.nodes) && e.to in Ids(g.nodes)
    {
      RawEdgeMember(repo, files, cap, e);
      assert e in g.edges <==> e in Elems(g.edges);
      assert e in RawEdges(repo, files, cap) <==> e in Elems(RawEdges(repo, files, cap));
      if e in g.edges {
        DenotedEndpoints(repo, cap, e);
      }
    }
  }

  lemma RawDescribes(repo: Repo, files: seq<Path>, n: Node)
    requires n in RawNodes(repo, files)
    ensures Describes(repo, n)
  {
    RawMember(repo, files, n);
    FlatMapMember(NodesAt(repo), files, n);
    var p :| p in files && n in NodesAt(repo)(p);
    NodeDescribes(repo, p, n);
  }

  /** Whatever a node of a build says was reported by the parser of its file. */
  lemma BuildDescribes(g: Graph, repo: Repo, files: seq<Path>, cap: nat)
    requires IsBuild(g, repo, files, cap)
    ensures forall n :: n in g.nodes ==> Describes(repo, n)
  {
    forall n | n in g.nodes ensures Describes(repo, n) {
      RawDescribes(repo, files, n);
    }
  }

  // The counts a build reports.

  /** No kept node bears the id of an earlier one. */
  ghost predicate NoRepeat(keep: Node -> bool, nodes: seq<Node>) {
    forall i, j :: 0 <= i < j < |nodes| && keep(nodes[j]) ==> nodes[i].id != nodes[j].id
  }

  lemma NoRepeatSnoc(keep: Node -> bool, nodes: seq<Node>, last: Node)
    ensures NoRepeat(keep, nodes + [last]) <==> NoRepeat(keep, nodes) && !(keep(last) && last.id in Ids(nodes))
  {
    var all := nodes + [last];
    if NoRepeat(keep, all) {
      forall i, j | 0 <= i < j < |nodes| && keep(nodes[j]) ensures nodes[i].id != nodes[j].id {
        assert all[i] == nodes[i] && all[j] == nodes[j];
      }
      forall n | n in nodes && keep(last) ensures n.id != last.id {
        var i :| 0 <= i < |nodes| && nodes[i] == n;
        assert all[i] == n && all[|nodes|] == last;
      }
    }
  }

  lemma {:induction false} DedupeTally(keep: Node -> bool, nodes: seq<Node>)
    ensures |Filter(keep, FirstPerId(nodes))| <= |Filter(keep, nodes)|
    ensures |Filter(keep, FirstPerId(nodes))| == |Filter(keep, nodes)| <==> NoRepeat(keep, nodes)
  {
    if nodes != [] {
      var rest, last := nodes[..|nodes| - 1], nodes[|nodes| - 1];
      DedupeTally(keep, rest);
      assert nodes == rest + [last];
      NoRepeatSnoc(keep, rest, last);
      TallyAppend(keep, rest, [last]);
      TallyAppend(keep, FirstPerId(rest), [last]);
      FilterUniform(keep, [last], keep(last));
    }
  }

  lemma NoRepeatAppend(keep: Node -> bool, a: seq<Node>, b: seq<Node>)
    requires NoRepeat(keep, a) && NoRepeat(keep, b)
    requires forall n :: n in b && keep(n) ==> n.id !in Ids(a)
    ensures NoRepeat(keep, a + b)
  {
  }

  function InFile(): Node -> bool { (n: Node) => n.kind == FileNode || n.kind == DocNode }

  lemma FileNodesOnce(repo: Repo, p: Path)
    ensures NoRepeat(InFile(), SourceNodesAt(repo)(p)) && NoRepeat(InFile(), DocNodesAt(repo)(p))
    ensures forall n :: n in NodesAt(repo)(p) && InFile()(n) ==> n.id == FileId(p) || n.id == DocId(p)
  {
    var c := ContentAt(repo, p);
    if c.Source? {
      MapAt(ModuleNodeOf(c.language), c.imports);
      MapAt(SymbolNodeOf(p, c.language), c.symbols);
      assert NodesAt(repo)(p) == SourceNodes(p, c);
    } else if c.Doc? {
      assert NodesAt(repo)(p) == DocNodes(p, c);
    }
  }

  /** The nodes of files and documents are never repeated, as no file is listed twice. */
  lemma {:induction false} FilesOnce(repo: Repo, files: seq<Path>, nodesAt: Path -> seq<Node>)
    requires Distinct(files)
    requires nodesAt == SourceNodesAt(repo) || nodesAt == DocNodesAt(repo)
    ensures NoRepeat(InFile(), FlatMap(nodesAt, files))
  {
    if files != [] {
      var rest, p := files[..|files| - 1], files[|files| - 1];
      FilesOnce(repo, rest, nodesAt);
      FileNodesOnce(repo, p);
      forall n | n in nodesAt(p) && InFile()(n)
        ensures n.id !in Ids(FlatMap(nodesAt, rest))
      {
        assert n in NodesAt(repo)(p);
        forall m | m in FlatMap(nodesAt, rest)
          ensures m.id != n.id
        {
          FlatMapMember(nodesAt, rest, m);
          var q :| q in rest && m in nodesAt(q);
          assert m in NodesAt(repo)(q);
          NodeMember(repo, q, m);
        }
      }
      NoRepeatAppend(InFile(), FlatMap(nodesAt, rest), nodesAt(p));
    }
  }

  lemma RawFilesOnce(repo: Repo, files: seq<Path>)
    requires Distinct(files)
    ensures NoRepeat(InFile(), RawNodes(repo, files))
  {
    var sources, docs := FlatMap(SourceNodesAt(repo), files), FlatMap(DocNodesAt(repo), files);
    FilesOnce(repo, files, SourceNodesAt(repo));
    FilesOnce(repo, files, DocNodesAt(repo));
    forall n | n in docs && InFile()(n)
      ensures n.id !in Ids(sources)
    {
      forall m | m in sources ensures m.id != n.id {
        RawMember(repo, files, m);
        FlatMapMember(DocNodesAt(repo), files, n);
      }
    }
    NoRepeatAppend(InFile(), sources, docs);
  }

  /** Deduplication keeps every node of a kind that is never repeated. */
  lemma AllKept(keep: Node -> bool, among: Node -> bool, nodes: seq<Node>)
    requires NoRepeat(among, nodes) && forall n :: keep(n) ==> among(n)
    ensures |Filter(keep, FirstPerId(nodes))| == |Filter(keep, nodes)|
  {
    DedupeTally(keep, nodes);
  }

  /** The counts of a build are those of its nodes and edges exactly when no symbol was pushed twice. */
  lemma BuildCounts(g: Graph, repo: Repo, files: seq<Path>, cap: nat)
    requires IsBuild(g, repo, files, cap)
    ensures g.counts == Recalculate(g.nodes, g.edges) <==> NoRepeat(OfKind(SymbolNode), RawNodes(repo, files))
    ensures g.counts == Recalculate(g.nodes, g.edges).(symbols := g.counts.symbols)
    ensures g.counts.symbols >= |Filter(OfKind(SymbolNode), g.nodes)|
  {
    var nodes := RawNodes(repo, files);
    RawFilesOnce(repo, files);
    AllKept(OfKind(FileNode), InFile(), nodes);
    AllKept(OfKind(DocNode), InFile(), nodes);
    AllKept(IsRustFile(), InFile(), nodes);
    DedupeTally(OfKind(SymbolNode), nodes);
  }

  lemma NoRepeatPart(keep: Node -> bool, a: seq<Node>, part: seq<Node>, b: seq<Node>)
    requires NoRepeat(keep, a + part + b)
    ensures NoRepeat(keep, part)
  {
    var all := a + part + b;
    forall i, j | 0 <= i < j < |part| && keep(part[j]) ensures part[i].id != part[j].id {
      assert all[|a| + i] == part[i] && all[|a| + j] == part[j];
    }
  }

  lemma SourcesPart(repo: Repo, files: seq<Path>, k: nat)
    requires k < |files|
    ensures FlatMap(SourceNodesAt(repo), files) ==
            FlatMap(SourceNodesAt(repo), files[..k]) + SourceNodesAt(repo)(files[k])
            + FlatMap(SourceNodesAt(repo), files[k + 1..])
  {
    assert files == files[..k + 1] + files[k + 1..];
    FlatMapAppend(SourceNodesAt(repo), files[..k + 1], files[k + 1..]);
    FlatMapNext(SourceNodesAt(repo), files, k);
  }

  lemma SymbolsPart(repo: Repo, files: seq<Path>, p: Path)
    requires p in files && ContentAt(repo, p).Source?
    requires NoRepeat(OfKind(SymbolNode), RawNodes(repo, files))
    ensures var c := ContentAt(repo, p); NoRepeat(OfKind(SymbolNode), Map(SymbolNodeOf(p, c.language), c.symbols))
  {
    var c := ContentAt(repo, p);
    var k :| 0 <= k < |files| && files[k] == p;
    var sources, docs := FlatMap(SourceNodesAt(repo), files), FlatMap(DocNodesAt(repo), files);
    assert RawNodes(repo, files) == [] + sources + docs;
    NoRepeatPart(OfKind(SymbolNode), [], sources, docs);
    SourcesPart(repo, files, k);
    NoRepeatPart(OfKind(SymbolNode), FlatMap(SourceNodesAt(repo), files[..k]), SourceNodes(p, c),
                 FlatMap(SourceNodesAt(repo), files[k + 1..]));
    var front := [FileNodeOf(p, c.language)] + Map(ModuleNodeOf(c.language), c.imports);
    var symbols := Map(SymbolNodeOf(p, c.language), c.symbols);
    assert SourceNodes(p, c) == front + symbols + [];
    NoRepeatPart(OfKind(SymbolNode), front, symbols, []);
  }

  /** A build of any files one of which reports a symbol twice counts more symbols than the graph holds. */
  lemma RepeatedSymbolMiscounts(g: Graph, repo: Repo, files: seq<Path>, cap: nat, p: Path, i: nat, j: nat)
    requires IsBuild(g, repo, files, cap) && p in repo && repo[p].Source?
    requires i < j < |repo[p].symbols|
    requires repo[p].symbols[i].name == repo[p].symbols[j].name && repo[p].symbols[i].line == repo[p].symbols[j].line
    ensures g.counts != Recalculate(g.nodes, g.edges)
    ensures g.counts.symbols > |Filter(OfKind(SymbolNode), g.nodes)|
  {
    assert p in Elems(files);
    var c := repo[p];
    var nodes := Map(SymbolNodeOf(p, c.language), c.symbols);
    MapAt(SymbolNodeOf(p, c.language), c.symbols);
    assert nodes[i].id == nodes[j].id && OfKind(SymbolNode)(nodes[j]);
    assert !NoRepeat(OfKind(SymbolNode), nodes);
    if NoRepeat(OfKind(SymbolNode), RawNodes(repo, files)) {
      SymbolsPart(repo, files, p);
    }
    BuildCounts(g, repo, files, cap);
  }

  /** A file that reports one function twice is enough. */
  lemma MiscountExample(g: Graph, files: seq<Path>, cap: nat)
    requires IsBuild(g, map["a.rs" := Source("rust", [], [Symbol("f", "function", 1, "f", []),
                                                          Symbol("f", "function", 1, "f", [])])], files, cap)
    ensures g.counts != Recalculate(g.nodes, g.edges)
  {
    var f := Symbol("f", "function", 1, "f", []);
    RepeatedSymbolMiscounts(g, map["a.rs" := Source("rust", [], [f, f])], files, cap, "a.rs", 0, 1);
  }
}
