/** The nodes, edges and pending references one file contributes, the symbol index, and name resolution. */
module GraphParts {
  import opened Prelude
  import opened RepoTypes

  type SymbolIndex = map<string, seq<NodeId>>

  /** The last component of a `/`-separated path. */
  function BaseName(p: Path): string {
    if '/' !in p then p else BaseName(p[1..])
  }

  function FileNodeOf(p: Path, language: string): Node {
    Node(FileId(p), FileNode, BaseName(p), Some(p), Some(language), None, None, None)
  }

  function DocNodeOf(p: Path): Node {
    Node(DocId(p), DocNode, BaseName(p), Some(p), Some("markdown"), None, None, None)
  }

  function ModuleNodeOf(language: string): string -> Node {
    name => Node(ModuleId(name), ModuleNode, name, None, Some(language), None, None, None)
  }

  function SymbolNodeOf(p: Path, language: string): Symbol -> Node {
    (s: Symbol) => Node(SymbolId(p, s.name, s.line), SymbolNode, s.name, Some(p), Some(language),
                        Some(s.kind), Some(s.line), Some(s.signature))
  }

  function ImportEdgeOf(p: Path): string -> Edge {
    name => Edge(Imports, FileId(p), ModuleId(name), Some(p), None)
  }

  function DefineEdgeOf(p: Path): Symbol -> Edge {
    (s: Symbol) => Edge(Defines, FileId(p), SymbolId(p, s.name, s.line), Some(p), Some(s.line))
  }

  function PendingCallOf(p: Path, s: Symbol): Call -> PendingCall {
    (c: Call) => PendingCall(SymbolId(p, s.name, s.line), c.name, p, c.line)
  }

  function PendingCallsOf(p: Path): Symbol -> seq<PendingCall> {
    (s: Symbol) => Map(PendingCallOf(p, s), s.calls)
  }

  function PendingLinkOf(p: Path): string -> PendingLink {
    name => PendingLink(DocId(p), p, name)
  }

  function CallEdgeOf(c: PendingCall): NodeId -> Edge {
    target => Edge(Calls, c.from, target, Some(c.path), Some(c.line))
  }

  function LinkEdgeOf(l: PendingLink): NodeId -> Edge {
    target => Edge(Documents, l.doc, target, Some(l.path), None)
  }

  // What a file contributes; a path that is not in the repository contributes nothing.

  function ContentAt(repo: Repo, p: Path): FileContent {
    if p in repo then repo[p] else Untracked
  }

  function SourceNodes(p: Path, c: FileContent): seq<Node> {
    if c.Source? then
      [FileNodeOf(p, c.language)] + Map(ModuleNodeOf(c.language), c.imports)
      + Map(SymbolNodeOf(p, c.language), c.symbols)
    else []
  }

  function DocNodes(p: Path, c: FileContent): seq<Node> {
    if c.Doc? then [DocNodeOf(p)] else []
  }

  function SourceEdges(p: Path, c: FileContent): seq<Edge> {
    if c.Source? then Map(ImportEdgeOf(p), c.imports) + Map(DefineEdgeOf(p), c.symbols) else []
  }

  function SourceCalls(p: Path, c: FileContent): seq<PendingCall> {
    if c.Source? then FlatMap(PendingCallsOf(p), c.symbols) else []
  }

  function DocLinks(p: Path, c: FileContent): seq<PendingLink> {
    if c.Doc? then Map(PendingLinkOf(p), c.mentions) else []
  }

  function SourceNodesAt(repo: Repo): Path -> seq<Node> { p => SourceNodes(p, ContentAt(repo, p)) }

  function DocNodesAt(repo: Repo): Path -> seq<Node> { p => DocNodes(p, ContentAt(repo, p)) }

  function NodesAt(repo: Repo): Path -> seq<Node> {
    p => SourceNodes(p, ContentAt(repo, p)) + DocNodes(p, ContentAt(repo, p))
  }

  function EdgesAt(repo: Repo): Path -> seq<Edge> { p => SourceEdges(p, ContentAt(repo, p)) }

  function CallsAt(repo: Repo): Path -> seq<PendingCall> { p => SourceCalls(p, ContentAt(repo, p)) }

  function LinksAt(repo: Repo): Path -> seq<PendingLink> { p => DocLinks(p, ContentAt(repo, p)) }

  // The symbol index and what a name resolves to.

  function Named(name: string): Node -> seq<NodeId> {
    (n: Node) => if n.kind == SymbolNode && n.name == name then [n.id] else []
  }

  /** Every definition of a name, repeated as often as it was pushed. */
  function DefsNamed(nodes: seq<Node>, name: string): seq<NodeId> {
    FlatMap(Named(name), nodes)
  }

  function Lookup(index: SymbolIndex, name: string): seq<NodeId> {
    if name in index then index[name] else []
  }

  ghost predicate Indexes(index: SymbolIndex, nodes: seq<Node>) {
    forall name :: Lookup(index, name) == DefsNamed(nodes, name)
  }

  function AddToIndex(index: SymbolIndex, n: Node): SymbolIndex {
    if n.kind == SymbolNode then index[n.name := Lookup(index, n.name) + [n.id]] else index
  }

  lemma IndexesSnoc(index: SymbolIndex, nodes: seq<Node>, n: Node)
    requires Indexes(index, nodes)
    ensures Indexes(AddToIndex(index, n), nodes + [n])
  {
    forall name
      ensures Lookup(AddToIndex(index, n), name) == DefsNamed(nodes + [n], name)
    {
      assert (nodes + [n])[..|nodes|] == nodes;
      assert Lookup(index, name) == DefsNamed(nodes, name);
    }
  }

  /** Past the cap a name counts as unresolvable. */
  function Resolve(index: SymbolIndex, name: string, cap: nat): Option<seq<NodeId>> {
    if name !in index then None else if |index[name]| > cap then None else Some(index[name])
  }

  function Targets(nodes: seq<Node>, name: string, cap: nat): seq<NodeId> {
    if |DefsNamed(nodes, name)| > cap then [] else DefsNamed(nodes, name)
  }

  function CallEdges(nodes: seq<Node>, cap: nat): PendingCall -> seq<Edge> {
    (c: PendingCall) => Map(CallEdgeOf(c), Targets(nodes, c.target, cap))
  }

  function LinkEdges(nodes: seq<Node>, cap: nat): PendingLink -> seq<Edge> {
    (l: PendingLink) => Map(LinkEdgeOf(l), Targets(nodes, l.name, cap))
  }

  // Keeping the first node of each id and the first of equal edges.

  ghost function FirstPerId(nodes: seq<Node>): (r: seq<Node>)
    ensures UniqueIds(r)
    ensures Ids(r) == Ids(nodes)
    ensures forall n :: n in r ==> n in nodes
  {
    if nodes == [] then [] else
      var last := nodes[|nodes| - 1];
      var r := FirstPerId(nodes[..|nodes| - 1]);
      assert nodes == nodes[..|nodes| - 1] + [last];
      assert Ids(nodes) == Ids(r) + {last.id};
      if last.id in Ids(r) then r else assert Ids(r + [last]) == Ids(r) + {last.id}; r + [last]
  }

  ghost function FirstOfEqual(edges: seq<Edge>): (r: seq<Edge>)
    ensures Distinct(r)
    ensures Elems(r) == Elems(edges)
  {
    if edges == [] then [] else
      var last := edges[|edges| - 1];
      var r := FirstOfEqual(edges[..|edges| - 1]);
      assert edges == edges[..|edges| - 1] + [last];
      assert Elems(edges) == Elems(r) + {last};
      if last in Elems(r) then r else assert Elems(r + [last]) == Elems(r) + {last}; r + [last]
  }
}
