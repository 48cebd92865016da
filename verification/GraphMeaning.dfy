/** Which nodes and edges a repository denotes, independently of the order and the lists of any builder. */
module GraphMeaning {
  import opened Prelude
  import opened RepoTypes
  import opened GraphParts

  function SymbolsIn(c: FileContent): seq<Symbol> {
    if c.Source? then c.symbols else []
  }

  function HasName(name: string): Symbol -> bool { (s: Symbol) => s.name == name }

  ghost predicate HasSymbol(c: FileContent, name: string, line: nat) {
    exists s :: s in SymbolsIn(c) && s.name == name && s.line == line
  }

  ghost predicate HasCall(c: FileContent, name: string, line: nat, call: Call) {
    exists s :: s in SymbolsIn(c) && s.name == name && s.line == line && call in s.calls
  }

  /** How often a file defines a name, repetitions included. */
  function DefCount(c: FileContent, name: string): nat {
    |Filter(HasName(name), SymbolsIn(c))|
  }

  function DefCountAt(repo: Repo, name: string): Path -> nat { p => DefCount(ContentAt(repo, p), name) }

  /** How often the given files define a name. */
  ghost function DefTotal(repo: Repo, files: set<Path>, name: string): nat {
    Sum(files, DefCountAt(repo, name))
  }

  /** The definitions of a name in the given files. */
  ghost function DefsIn(repo: Repo, files: set<Path>, name: string): set<NodeId> {
    set p, s | p in files && s in SymbolsIn(ContentAt(repo, p)) && s.name == name :: SymbolId(p, name, s.line)
  }

  ghost predicate Declares(repo: Repo, id: NodeId) {
    match id
    case FileId(p) => ContentAt(repo, p).Source?
    case DocId(p) => ContentAt(repo, p).Doc?
    case SymbolId(p, name, line) => HasSymbol(ContentAt(repo, p), name, line)
    case ModuleId(m) => exists p :: p in repo && repo[p].Source? && m in repo[p].imports
  }

  /** An edge between a file and what it imports or defines. */
  ghost predicate LocalEdge(repo: Repo, e: Edge) {
    && EdgeOk(e) && e.from.FileId?
    && var c := ContentAt(repo, e.from.path);
       && c.Source?
       && match e.kind
          case Imports => e.to.name in c.imports
          case Defines => HasSymbol(c, e.to.name, e.to.line)
          case _ => false
  }

  /** An edge whose source refers to the name its target bears. */
  ghost predicate Refers(repo: Repo, e: Edge) {
    && EdgeOk(e)
    && match e.kind
       case Calls => HasCall(ContentAt(repo, e.from.path), e.from.name, e.from.line, Call(e.to.name, e.line.value))
       case Documents =>
         var c := ContentAt(repo, e.from.path);
         c.Doc? && e.to.name in c.mentions
       case _ => false
  }

  /** The edges a repository denotes: references reach every definition of a name unless there are too many. */
  ghost predicate Denotes(repo: Repo, cap: nat, e: Edge) {
    || LocalEdge(repo, e)
    || (Refers(repo, e) && Declares(repo, e.to) && DefTotal(repo, repo.Keys, e.to.name) <= cap)
  }

  // Nodes.

  lemma NodeMember(repo: Repo, p: Path, n: Node)
    requires n in NodesAt(repo)(p)
    ensures NodeOk(n) && (n.path.Some? ==> n.path == Some(p))
  {
    var c := ContentAt(repo, p);
    if c.Source? {
      MapMember(ModuleNodeOf(c.language), c.imports, n);
      MapMember(SymbolNodeOf(p, c.language), c.symbols, n);
    }
  }

  /** What follows the last slash, or the whole path if there is none. */
  ghost predicate IsFileName(name: string, p: Path) {
    '/' !in name && (p == name || exists dir :: p == dir + "/" + name)
  }

  lemma {:induction false} BaseIsFileName(p: Path)
    ensures IsFileName(BaseName(p), p)
  {
    if '/' in p {
      var first, rest := p[..1], p[1..];
      BaseIsFileName(rest);
      assert p == first + rest;
      if rest == BaseName(p) {
        assert p[0] == '/' && p == "" + "/" + rest;
      } else {
        var dir :| rest == dir + "/" + BaseName(p);
        assert p == (first + dir) + "/" + BaseName(p);
      }
    }
  }

  /** The node shows this symbol of the file. */
  predicate ShowsSymbol(n: Node, p: Path, language: string, s: Symbol) {
    n == Node(SymbolId(p, s.name, s.line), SymbolNode, s.name, Some(p), Some(language), Some(s.kind), Some(s.line),
              Some(s.signature))
  }

  predicate ShowsModule(n: Node, language: string, name: string) {
    n == Node(ModuleId(name), ModuleNode, name, None, Some(language), None, None, None)
  }

  /** Whatever a node says was reported of its file, or, for a module, of a file that imports it. */
  ghost predicate Describes(repo: Repo, n: Node) {
    match n.id
    case FileId(p) =>
      var c := ContentAt(repo, p);
      && c.Source? && IsFileName(n.name, p)
      && n == Node(FileId(p), FileNode, n.name, Some(p), Some(c.language), None, None, None)
    case DocId(p) =>
      && ContentAt(repo, p).Doc? && IsFileName(n.name, p)
      && n == Node(DocId(p), DocNode, n.name, Some(p), Some("markdown"), None, None, None)
    case SymbolId(p, _, _) =>
      var c := ContentAt(repo, p);
      c.Source? && exists s :: s in c.symbols && ShowsSymbol(n, p, c.language, s)
    case ModuleId(name) =>
      exists p :: p in repo && repo[p].Source? && name in repo[p].imports && ShowsModule(n, repo[p].language, name)
  }

  lemma NodeDescribes(repo: Repo, p: Path, n: Node)
    requires n in NodesAt(repo)(p)
    ensures Describes(repo, n)
  {
    var c := ContentAt(repo, p);
    BaseIsFileName(p);
    if c.Source? {
      MapMember(ModuleNodeOf(c.language), c.imports, n);
      MapMember(SymbolNodeOf(p, c.language), c.symbols, n);
      if n != FileNodeOf(p, c.language) && n !in Map(SymbolNodeOf(p, c.language), c.symbols) {
        assert p in repo && ShowsModule(n, repo[p].language, n.id.name);
      }
      if s :| s in c.symbols && n == SymbolNodeOf(p, c.language)(s) {
        assert ShowsSymbol(n, p, c.language, s);
      }
    }
  }

  lemma IdMember(repo: Repo, p: Path, id: NodeId)
    ensures id in Ids(NodesAt(repo)(p)) <==>
            if id.ModuleId? then ContentAt(repo, p).Source? && id.name in ContentAt(repo, p).imports
            else id.path == p && Declares(repo, id)
  {
    var c := ContentAt(repo, p);
    if c.Source? {
      MapAt(ModuleNodeOf(c.language), c.imports);
      MapAt(SymbolNodeOf(p, c.language), c.symbols);
      var mods, syms := Map(ModuleNodeOf(c.language), c.imports), Map(SymbolNodeOf(p, c.language), c.symbols);
      assert NodesAt(repo)(p) == [FileNodeOf(p, c.language)] + mods + syms;
      match id {
        case FileId(q) =>
          assert FileNodeOf(p, c.language) in NodesAt(repo)(p);
        case DocId(q) =>
        case ModuleId(m) =>
          if m in c.imports {
            var i :| 0 <= i < |c.imports| && c.imports[i] == m;
            assert mods[i] in NodesAt(repo)(p);
          }
        case SymbolId(q, name, line) =>
          if q == p && HasSymbol(c, name, line) {
            var s :| s in SymbolsIn(c) && s.name == name && s.line == line;
            var i :| 0 <= i < |c.symbols| && c.symbols[i] == s;
            assert syms[i] in NodesAt(repo)(p);
          }
      }
    } else if c.Doc? {
      assert NodesAt(repo)(p) == [DocNodeOf(p)];
      assert DocNodeOf(p) in NodesAt(repo)(p);
    }
  }

  lemma IdsMember(repo: Repo, files: seq<Path>, id: NodeId)
    ensures id in Ids(FlatMap(NodesAt(repo), files)) <==> exists p :: p in files && id in Ids(NodesAt(repo)(p))
  {
    if p :| p in files && id in Ids(NodesAt(repo)(p)) {
      var n :| n in NodesAt(repo)(p) && n.id == id;
      FlatMapMember(NodesAt(repo), files, n);
    }
    if id in Ids(FlatMap(NodesAt(repo), files)) {
      var n :| n in FlatMap(NodesAt(repo), files) && n.id == id;
      FlatMapMember(NodesAt(repo), files, n);
    }
  }

  // The index.

  lemma DefsMember(nodes: seq<Node>, name: string, id: NodeId)
    requires forall n :: n in nodes ==> NodeOk(n)
    ensures id in DefsNamed(nodes, name) <==> id.SymbolId? && id.name == name && id in Ids(nodes)
  {
    FlatMapMember(Named(name), nodes, id);
    if id.SymbolId? && id.name == name && id in Ids(nodes) {
      var n :| n in nodes && n.id == id;
      assert id in Named(name)(n);
    }
  }

  lemma {:induction false} SymbolDefs(p: Path, language: string, symbols: seq<Symbol>, name: string)
    ensures |DefsNamed(Map(SymbolNodeOf(p, language), symbols), name)| == |Filter(HasName(name), symbols)|
  {
    if symbols != [] {
      SymbolDefs(p, language, symbols[..|symbols| - 1], name);
    }
  }

  lemma {:induction false} NoDefs(nodes: seq<Node>, name: string)
    requires forall n :: n in nodes ==> n.kind != SymbolNode
    ensures DefsNamed(nodes, name) == []
  {
    if nodes != [] {
      NoDefs(nodes[..|nodes| - 1], name);
    }
  }

  lemma DefsAppend(a: seq<Node>, b: seq<Node>, name: string)
    ensures |DefsNamed(a + b, name)| == |DefsNamed(a, name)| + |DefsNamed(b, name)|
  {
    FlatMapAppend(Named(name), a, b);
  }

  lemma DefsOfFile(repo: Repo, p: Path, name: string)
    ensures |DefsNamed(NodesAt(repo)(p), name)| == |DefsNamed(SourceNodesAt(repo)(p), name)| ==
            DefCountAt(repo, name)(p)
  {
    var c := ContentAt(repo, p);
    if c.Source? {
      var head, mods := [FileNodeOf(p, c.language)], Map(ModuleNodeOf(c.language), c.imports);
      MapAt(ModuleNodeOf(c.language), c.imports);
      NoDefs(head + mods, name);
      SymbolDefs(p, c.language, c.symbols, name);
      DefsAppend(head + mods, Map(SymbolNodeOf(p, c.language), c.symbols), name);
      assert NodesAt(repo)(p) == SourceNodes(p, c);
    } else {
      NoDefs(NodesAt(repo)(p), name);
    }
  }

  /** Whatever the order of the files, a name is indexed as often as the files define it. */
  lemma {:induction false} IndexedTotal(repo: Repo, files: seq<Path>, name: string)
    requires Distinct(files)
    ensures |DefsNamed(FlatMap(NodesAt(repo), files), name)| == DefTotal(repo, Elems(files), name)
    ensures |DefsNamed(FlatMap(SourceNodesAt(repo), files), name)| == DefTotal(repo, Elems(files), name)
  {
    if files != [] {
      var rest, last := files[..|files| - 1], files[|files| - 1];
      IndexedTotal(repo, rest, name);
      DefsOfFile(repo, last, name);
      DefsAppend(FlatMap(NodesAt(repo), rest), NodesAt(repo)(last), name);
      DefsAppend(FlatMap(SourceNodesAt(repo), rest), SourceNodesAt(repo)(last), name);
      assert Elems(files) - {last} == Elems(rest);
      SumPick(Elems(files), DefCountAt(repo, name), last);
    }
  }

  // Edges.

  lemma LocalEdgeMember(repo: Repo, p: Path, e: Edge)
    ensures e in EdgesAt(repo)(p) <==> LocalEdge(repo, e) && e.path == Some(p)
  {
    var c := ContentAt(repo, p);
    if c.Source? {
      MapMember(ImportEdgeOf(p), c.imports, e);
      MapMember(DefineEdgeOf(p), c.symbols, e);
      if LocalEdge(repo, e) && e.path == Some(p) {
        match e.kind {
          case Imports => assert e == ImportEdgeOf(p)(e.to.name);
          case Defines =>
            var s :| s in SymbolsIn(c) && s.name == e.to.name && s.line == e.to.line;
            assert e == DefineEdgeOf(p)(s);
          case _ =>
        }
      }
    }
  }

  lemma CallMember(repo: Repo, p: Path, k: PendingCall)
    ensures k in CallsAt(repo)(p) <==>
            k.path == p && k.from.SymbolId? && k.from.path == p
            && HasCall(ContentAt(repo, p), k.from.name, k.from.line, Call(k.target, k.line))
  {
    var c := ContentAt(repo, p);
    if c.Source? {
      FlatMapMember(PendingCallsOf(p), c.symbols, k);
      forall s | s in c.symbols
        ensures k in PendingCallsOf(p)(s) <==>
                k.path == p && k.from == SymbolId(p, s.name, s.line) && Call(k.target, k.line) in s.calls
      {
        MapMember(PendingCallOf(p, s), s.calls, k);
        if k.path == p && k.from == SymbolId(p, s.name, s.line) && Call(k.target, k.line) in s.calls {
          assert k == PendingCallOf(p, s)(Call(k.target, k.line));
        }
      }
    }
  }

  lemma LinkMember(repo: Repo, p: Path, l: PendingLink)
    ensures l in LinksAt(repo)(p) <==>
            l.path == p && l.doc == DocId(p) && ContentAt(repo, p).Doc? && l.name in ContentAt(repo, p).mentions
  {
    var c := ContentAt(repo, p);
    if c.Doc? {
      MapMember(PendingLinkOf(p), c.mentions, l);
      if l.path == p && l.doc == DocId(p) && l.name in c.mentions {
        assert l == PendingLinkOf(p)(l.name);
      }
    }
  }

  /** A symbol a reference to its name reaches. */
  ghost predicate Reached(nodes: seq<Node>, cap: nat, id: NodeId) {
    id.SymbolId? && id in Ids(nodes) && |DefsNamed(nodes, id.name)| <= cap
  }

  lemma CallEdgeMember(nodes: seq<Node>, cap: nat, calls: seq<PendingCall>, e: Edge)
    requires forall n :: n in nodes ==> NodeOk(n)
    ensures e in FlatMap(CallEdges(nodes, cap), calls) <==>
            && e.kind == Calls && e.path.Some? && e.line.Some? && Reached(nodes, cap, e.to)
            && PendingCall(e.from, e.to.name, e.path.value, e.line.value) in calls
  {
    FlatMapMember(CallEdges(nodes, cap), calls, e);
    forall k | k in calls
      ensures e in CallEdges(nodes, cap)(k) <==>
              && e.kind == Calls && e.path.Some? && e.line.Some? && Reached(nodes, cap, e.to)
              && k == PendingCall(e.from, e.to.name, e.path.value, e.line.value)
    {
      MapMember(CallEdgeOf(k), Targets(nodes, k.target, cap), e);
      DefsMember(nodes, k.target, e.to);
      if e.kind == Calls && e.path.Some? && e.line.Some? && Reached(nodes, cap, e.to)
         && k == PendingCall(e.from, e.to.name, e.path.value, e.line.value) {
        assert e == CallEdgeOf(k)(e.to);
      }
    }
  }

  lemma LinkEdgeMember(nodes: seq<Node>, cap: nat, links: seq<PendingLink>, e: Edge)
    requires forall n :: n in nodes ==> NodeOk(n)
    ensures e in FlatMap(LinkEdges(nodes, cap), links) <==>
            && e.kind == Documents && e.path.Some? && e.line == None && Reached(nodes, cap, e.to)
            && PendingLink(e.from, e.path.value, e.to.name) in links
  {
    FlatMapMember(LinkEdges(nodes, cap), links, e);
    forall l | l in links
      ensures e in LinkEdges(nodes, cap)(l) <==>
              && e.kind == Documents && e.path.Some? && e.line == None && Reached(nodes, cap, e.to)
              && l == PendingLink(e.from, e.path.value, e.to.name)
    {
      MapMember(LinkEdgeOf(l), Targets(nodes, l.name, cap), e);
      DefsMember(nodes, l.name, e.to);
      if e.kind == Documents && e.path.Some? && e.line == None && Reached(nodes, cap, e.to)
         && l == PendingLink(e.from, e.path.value, e.to.name) {
        assert e == LinkEdgeOf(l)(e.to);
      }
    }
  }

  lemma CallRefers(repo: Repo, files: seq<Path>, e: Edge)
    requires e.kind == Calls && e.path.Some? && e.line.Some? && e.to.SymbolId?
    ensures PendingCall(e.from, e.to.name, e.path.value, e.line.value) in FlatMap(CallsAt(repo), files)
            <==> Refers(repo, e) && e.path.value in files
  {
    var k := PendingCall(e.from, e.to.name, e.path.value, e.line.value);
    FlatMapMember(CallsAt(repo), files, k);
    CallMember(repo, k.path, k);
    forall q | q in files && k in CallsAt(repo)(q) ensures q == k.path { CallMember(repo, q, k); }
  }

  lemma LinkRefers(repo: Repo, files: seq<Path>, e: Edge)
    requires e.kind == Documents && e.path.Some? && e.line == None && e.to.SymbolId?
    ensures PendingLink(e.from, e.path.value, e.to.name) in FlatMap(LinksAt(repo), files)
            <==> Refers(repo, e) && e.path.value in files
  {
    var l := PendingLink(e.from, e.path.value, e.to.name);
    FlatMapMember(LinksAt(repo), files, l);
    LinkMember(repo, l.path, l);
    forall q | q in files && l in LinksAt(repo)(q) ensures q == l.path { LinkMember(repo, q, l); }
  }

  lemma CallsMember(repo: Repo, files: seq<Path>, nodes: seq<Node>, cap: nat, e: Edge)
    requires forall n :: n in nodes ==> NodeOk(n)
    ensures e in FlatMap(CallEdges(nodes, cap), FlatMap(CallsAt(repo), files))
            <==> e.kind == Calls && Refers(repo, e) && e.path.value in files && Reached(nodes, cap, e.to)
  {
    CallEdgeMember(nodes, cap, FlatMap(CallsAt(repo), files), e);
    if e.kind == Calls && e.path.Some? && e.line.Some? && e.to.SymbolId? {
      CallRefers(repo, files, e);
    }
  }

  lemma LinksMember(repo: Repo, files: seq<Path>, nodes: seq<Node>, cap: nat, e: Edge)
    requires forall n :: n in nodes ==> NodeOk(n)
    ensures e in FlatMap(LinkEdges(nodes, cap), FlatMap(LinksAt(repo), files))
            <==> e.kind == Documents && Refers(repo, e) && e.path.value in files && Reached(nodes, cap, e.to)
  {
    LinkEdgeMember(nodes, cap, FlatMap(LinksAt(repo), files), e);
    if e.kind == Documents && e.path.Some? && e.line == None && e.to.SymbolId? {
      LinkRefers(repo, files, e);
    }
  }

  /** The references the given files make, as edges towards whatever the nodes define. */
  lemma ReferenceMember(repo: Repo, files: seq<Path>, nodes: seq<Node>, cap: nat, e: Edge)
    requires forall n :: n in nodes ==> NodeOk(n)
    ensures e in FlatMap(CallEdges(nodes, cap), FlatMap(CallsAt(repo), files))
              || e in FlatMap(LinkEdges(nodes, cap), FlatMap(LinksAt(repo), files))
            <==> Refers(repo, e) && e.path.value in files && Reached(nodes, cap, e.to)
  {
    CallsMember(repo, files, nodes, cap, e);
    LinksMember(repo, files, nodes, cap, e);
  }

  lemma LocalMember(repo: Repo, files: seq<Path>, e: Edge)
    ensures e in FlatMap(EdgesAt(repo), files) <==> LocalEdge(repo, e) && e.path.value in files
  {
    FlatMapMember(EdgesAt(repo), files, e);
    forall p | p in files { LocalEdgeMember(repo, p, e); }
  }
}
