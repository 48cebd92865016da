/** The values a repository graph is made of, and the parsed files it is made from. */
module RepoTypes {
  import opened Prelude

  type Path = string

  datatype NodeKind = FileNode | SymbolNode | ModuleNode | DocNode

  datatype EdgeKind = Defines | Imports | Calls | Documents

  /** The source writes these as `file:`, `symbol:`, `module:` and `doc:` strings. */
  datatype NodeId =
    | FileId(path: Path)
    | SymbolId(path: Path, name: string, line: nat)
    | ModuleId(name: string)
    | DocId(path: Path)

  datatype Node = Node(id: NodeId, kind: NodeKind, name: string, path: Option<Path>,
                       language: Option<string>, symbolKind: Option<string>,
                       line: Option<nat>, signature: Option<string>)

  datatype Edge = Edge(kind: EdgeKind, from: NodeId, to: NodeId, path: Option<Path>, line: Option<nat>)

  datatype Counts = Counts(files: nat, rustFiles: nat, docFiles: nat, symbols: nat,
                           modules: nat, docs: nat, edges: nat)

  const NO_COUNTS := Counts(0, 0, 0, 0, 0, 0, 0)

  datatype Graph = Graph(nodes: seq<Node>, edges: seq<Edge>, counts: Counts)

  /** What the parsers report. They are foreign: a file is given here as already parsed. */
  datatype Call = Call(name: string, line: nat)

  datatype Symbol = Symbol(name: string, kind: string, line: nat, signature: string, calls: seq<Call>)

  datatype FileContent =
    | Source(language: string, imports: seq<string>, symbols: seq<Symbol>)
    | Doc(mentions: seq<string>)
    | Untracked

  type Repo = map<Path, FileContent>

  datatype PendingCall = PendingCall(from: NodeId, target: string, path: Path, line: nat)

  datatype PendingLink = PendingLink(doc: NodeId, path: Path, name: string)

  function KindOf(id: NodeId): NodeKind {
    match id
    case FileId(_) => FileNode
    case SymbolId(_, _, _) => SymbolNode
    case ModuleId(_) => ModuleNode
    case DocId(_) => DocNode
  }

  function PathOf(id: NodeId): Option<Path> {
    if id.ModuleId? then None else Some(id.path)
  }

  /** The id fixes the kind, the path and, for symbols and modules, the name. */
  predicate NodeOk(n: Node) {
    && n.kind == KindOf(n.id)
    && n.path == PathOf(n.id)
    && (n.id.SymbolId? || n.id.ModuleId? ==> n.name == n.id.name)
  }

  /** An edge lies in the file its source node lies in, and its kind fixes the shape of the rest. */
  predicate EdgeOk(e: Edge) {
    && e.path.Some?
    && e.path == PathOf(e.from)
    && match e.kind
       case Imports => e.from.FileId? && e.to.ModuleId? && e.line == None
       case Defines => e.from.FileId? && e.to.SymbolId? && e.to.path == e.from.path && e.line == Some(e.to.line)
       case Calls => e.from.SymbolId? && e.to.SymbolId? && e.line.Some?
       case Documents => e.from.DocId? && e.to.SymbolId? && e.line == None
  }

  ghost function Ids(nodes: seq<Node>): set<NodeId> {
    set n | n in nodes :: n.id
  }

  ghost predicate UniqueIds(nodes: seq<Node>) {
    forall i, j :: 0 <= i < j < |nodes| ==> nodes[i].id != nodes[j].id
  }

  ghost predicate EndpointsPresent(g: Graph) {
    forall e :: e in g.edges ==> e.from in Ids(g.nodes) && e.to in Ids(g.nodes)
  }

  /** What every graph that is built, refreshed or loaded is expected to be. */
  ghost predicate WellFormed(g: Graph) {
    && UniqueIds(g.nodes)
    && (forall n :: n in g.nodes ==> NodeOk(n))
    && Distinct(g.edges)
    && (forall e :: e in g.edges ==> EdgeOk(e))
    && EndpointsPresent(g)
  }
}
