/** The key-value index: primary tables, secondary multimaps, and the sink that fills them. */
module RepoIndex {
  import opened Prelude
  import opened RepoTypes

  type EdgeId = nat

  /** What the edge hash is taken of; an absent path counts as empty and an absent line as 0. */
  datatype EdgeKey = EdgeKey(kind: EdgeKind, from: NodeId, to: NodeId, path: string, line: nat)

  function KeyOf(e: Edge): EdgeKey {
    EdgeKey(e.kind, e.from, e.to, e.path.GetOr(""), e.line.GetOr(0))
  }

  datatype Tables = Tables(nodes: map<NodeId, Node>, edges: map<EdgeId, Edge>,
                           symbolName: map<string, set<NodeId>>, moduleName: map<string, set<NodeId>>,
                           edgesFrom: map<NodeId, set<EdgeId>>, edgesTo: map<NodeId, set<EdgeId>>,
                           fileNodes: map<Path, set<NodeId>>, fileEdges: map<Path, set<EdgeId>>)

  const NO_TABLES := Tables(map[], map[], map[], map[], map[], map[], map[], map[])

  /** The lowercasing of names and the hashing of edge keys, both left open. */
  datatype Coding = Coding(lower: string -> string, hash: EdgeKey -> EdgeId) {
    function IdOf(e: Edge): EdgeId { hash(KeyOf(e)) }
  }

  function ValuesAt<K, V>(m: map<K, set<V>>, k: K): set<V> {
    if k in m then m[k] else {}
  }

  function Put<K(!new), V>(m: map<K, set<V>>, k: K, v: V): (r: map<K, set<V>>)
    ensures forall j :: ValuesAt(r, j) == if j == k then ValuesAt(m, j) + {v} else ValuesAt(m, j)
  {
    m[k := ValuesAt(m, k) + {v}]
  }

  /** The stored node is replaced in any case; the secondary tables only learn of a new id. */
  ghost function WithNode(t: Tables, c: Coding, n: Node): Tables {
    var known := n.id in t.nodes;
    Tables(t.nodes[n.id := n], t.edges,
           if !known && n.kind == SymbolNode then Put(t.symbolName, c.lower(n.name), n.id) else t.symbolName,
           if !known && n.kind == ModuleNode then Put(t.moduleName, c.lower(n.name), n.id) else t.moduleName,
           t.edgesFrom, t.edgesTo,
           if !known && n.path.Some? then Put(t.fileNodes, n.path.value, n.id) else t.fileNodes,
           t.fileEdges)
  }

  ghost function WithEdge(t: Tables, c: Coding, e: Edge): Tables {
    var id := c.IdOf(e);
    var known := id in t.edges;
    Tables(t.nodes, t.edges[id := e], t.symbolName, t.moduleName,
           if known then t.edgesFrom else Put(t.edgesFrom, e.from, id),
           if known then t.edgesTo else Put(t.edgesTo, e.to, id),
           t.fileNodes,
           if !known && e.path.Some? then Put(t.fileEdges, e.path.value, id) else t.fileEdges)
  }

  class RepoIndexSink {
    const coding: Coding
    var nodes: map<NodeId, Node>
    var edges: map<EdgeId, Edge>
    var symbolName: map<string, set<NodeId>>
    var moduleName: map<string, set<NodeId>>
    var edgesFrom: map<NodeId, set<EdgeId>>
    var edgesTo: map<NodeId, set<EdgeId>>
    var fileNodes: map<Path, set<NodeId>>
    var fileEdges: map<Path, set<EdgeId>>

    function Contents(): Tables
      reads this
    {
      Tables(nodes, edges, symbolName, moduleName, edgesFrom, edgesTo, fileNodes, fileEdges)
    }

    constructor (c: Coding)
      ensures Contents() == NO_TABLES && coding == c
    {
      coding := c;
      nodes, edges, symbolName, moduleName := map[], map[], map[], map[];
      edgesFrom, edgesTo, fileNodes, fileEdges := map[], map[], map[], map[];
    }

    method InsertNode(n: Node) returns (inserted: bool)
      modifies this
      ensures Contents() == WithNode(old(Contents()), coding, n)
      ensures inserted == (n.id !in old(nodes))
    {
      inserted := n.id !in nodes;
      nodes := nodes[n.id := n];
      if !inserted {
        return;
      }
      if n.kind == SymbolNode {
        symbolName := Put(symbolName, coding.lower(n.name), n.id);
      } else if n.kind == ModuleNode {
        moduleName := Put(moduleName, coding.lower(n.name), n.id);
      }
      if n.path.Some? {
        fileNodes := Put(fileNodes, n.path.value, n.id);
      }
    }

    method InsertEdge(e: Edge) returns (inserted: bool)
      modifies this
      ensures Contents() == WithEdge(old(Contents()), coding, e)
      ensures inserted == (coding.IdOf(e) !in old(edges))
    {
      var id := coding.IdOf(e);
      inserted := id !in edges;
      edges := edges[id := e];
      if !inserted {
        return;
      }
      edgesFrom := Put(edgesFrom, e.from, id);
      edgesTo := Put(edgesTo, e.to, id);
      if e.path.Some? {
        fileEdges := Put(fileEdges, e.path.value, id);
      }
    }
  }

  // The secondary tables as inverse images of the primary ones.

  ghost predicate NamesInverse(names: map<string, set<NodeId>>, nodes: map<NodeId, Node>, c: Coding, kind: NodeKind) {
    forall k, id :: id in ValuesAt(names, k) <==> id in nodes && nodes[id].kind == kind && c.lower(nodes[id].name) == k
  }

  ghost predicate NodePathsInverse(t: Tables) {
    forall p, id :: id in ValuesAt(t.fileNodes, p) <==> id in t.nodes && t.nodes[id].path == Some(p)
  }

  ghost predicate NodesInverse(t: Tables, c: Coding) {
    && (forall id :: id in t.nodes ==> t.nodes[id].id == id)
    && NamesInverse(t.symbolName, t.nodes, c, SymbolNode)
    && NamesInverse(t.moduleName, t.nodes, c, ModuleNode)
    && NodePathsInverse(t)
  }

  ghost predicate FromInverse(t: Tables) {
    forall v, h :: h in ValuesAt(t.edgesFrom, v) <==> h in t.edges && t.edges[h].from == v
  }

  ghost predicate ToInverse(t: Tables) {
    forall v, h :: h in ValuesAt(t.edgesTo, v) <==> h in t.edges && t.edges[h].to == v
  }

  ghost predicate EdgePathsInverse(t: Tables) {
    forall p, h :: h in ValuesAt(t.fileEdges, p) <==> h in t.edges && t.edges[h].path == Some(p)
  }

  ghost predicate EdgesInverse(t: Tables, c: Coding) {
    (forall h :: h in t.edges ==> c.IdOf(t.edges[h]) == h) && FromInverse(t) && ToInverse(t) && EdgePathsInverse(t)
  }

  ghost predicate Inverse(t: Tables, c: Coding) {
    NodesInverse(t, c) && EdgesInverse(t, c)
  }

  /** The two nodes are filed under the same keys. */
  ghost predicate FiledAlike(c: Coding, n: Node, m: Node) {
    && (n.kind == SymbolNode <==> m.kind == SymbolNode)
    && (n.kind == ModuleNode <==> m.kind == ModuleNode)
    && (n.kind == SymbolNode || n.kind == ModuleNode ==> c.lower(n.name) == c.lower(m.name))
    && n.path == m.path
  }

  ghost predicate JoinedAlike(e: Edge, f: Edge) {
    e.from == f.from && e.to == f.to && e.path == f.path
  }

  lemma SameFiling(t: Tables, c: Coding, n: Node, k: string)
    requires NodesInverse(t, c) && n.id in t.nodes && NodesInverse(WithNode(t, c, n), c)
    ensures var m := t.nodes[n.id];
            && (m.kind == SymbolNode && c.lower(m.name) == k <==> n.kind == SymbolNode && c.lower(n.name) == k)
            && (m.kind == ModuleNode && c.lower(m.name) == k <==> n.kind == ModuleNode && c.lower(n.name) == k)
            && (m.path == Some(k) <==> n.path == Some(k))
  {
    var m, t' := t.nodes[n.id], WithNode(t, c, n);
    assert t'.nodes[n.id] == n;
    assert n.id in ValuesAt(t.symbolName, k) <==> m.kind == SymbolNode && c.lower(m.name) == k;
    assert n.id in ValuesAt(t'.symbolName, k) <==> n.kind == SymbolNode && c.lower(n.name) == k;
    assert n.id in ValuesAt(t.moduleName, k) <==> m.kind == ModuleNode && c.lower(m.name) == k;
    assert n.id in ValuesAt(t'.moduleName, k) <==> n.kind == ModuleNode && c.lower(n.name) == k;
    assert n.id in ValuesAt(t.fileNodes, k) <==> m.path == Some(k);
    assert n.id in ValuesAt(t'.fileNodes, k) <==> n.path == Some(k);
  }

  lemma ReplacedNode(t: Tables, c: Coding, n: Node)
    requires NodesInverse(t, c) && n.id in t.nodes
    ensures NodesInverse(WithNode(t, c, n), c) <==> FiledAlike(c, t.nodes[n.id], n)
  {
    var m := t.nodes[n.id];
    if NodesInverse(WithNode(t, c, n), c) {
      SameFiling(t, c, n, c.lower(m.name));
      SameFiling(t, c, n, c.lower(n.name));
      SameFiling(t, c, n, m.path.GetOr(""));
      SameFiling(t, c, n, n.path.GetOr(""));
    }
  }

  lemma NewName(names: map<string, set<NodeId>>, nodes: map<NodeId, Node>, c: Coding, kind: NodeKind, n: Node)
    requires NamesInverse(names, nodes, c, kind) && n.id !in nodes
    ensures NamesInverse(if n.kind == kind then Put(names, c.lower(n.name), n.id) else names, nodes[n.id := n], c, kind)
  {
  }

  lemma NewNode(t: Tables, c: Coding, n: Node)
    requires NodesInverse(t, c) && n.id !in t.nodes
    ensures NodesInverse(WithNode(t, c, n), c)
  {
    NewName(t.symbolName, t.nodes, c, SymbolNode, n);
    NewName(t.moduleName, t.nodes, c, ModuleNode, n);
    assert NodePathsInverse(WithNode(t, c, n));
  }

  lemma SameEdgeTables(t: Tables, t': Tables, c: Coding)
    requires t'.edges == t.edges && t'.edgesFrom == t.edgesFrom && t'.edgesTo == t.edgesTo && t'.fileEdges ==
             t.fileEdges
    ensures EdgesInverse(t', c) <==> EdgesInverse(t, c)
  {
  }

  lemma SameNodeTables(t: Tables, t': Tables, c: Coding)
    requires t'.nodes == t.nodes && t'.symbolName == t.symbolName && t'.moduleName == t.moduleName && t'.fileNodes ==
             t.fileNodes
    ensures NodesInverse(t', c) <==> NodesInverse(t, c)
  {
  }

  lemma NodeStored(t: Tables, t': Tables, c: Coding, n: Node)
    requires NodesInverse(t, c) && t' == WithNode(t, c, n)
    ensures NodesInverse(t', c) <==> (n.id in t.nodes ==> FiledAlike(c, t.nodes[n.id], n))
  {
    if n.id in t.nodes {
      ReplacedNode(t, c, n);
    } else {
      NewNode(t, c, n);
    }
  }

  lemma EdgesKept(t: Tables, t': Tables, c: Coding, n: Node)
    requires EdgesInverse(t, c) && t' == WithNode(t, c, n)
    ensures EdgesInverse(t', c)
  {
    SameEdgeTables(t, t', c);
  }

  /** Storing a node keeps the tables exact if and only if it is filed like the node it replaces. */
  lemma InsertNodeInverse(t: Tables, c: Coding, n: Node)
    requires Inverse(t, c)
    ensures Inverse(WithNode(t, c, n), c) <==> (n.id in t.nodes ==> FiledAlike(c, t.nodes[n.id], n))
  {
    var t' := WithNode(t, c, n);
    NodeStored(t, t', c, n);
    EdgesKept(t, t', c, n);
    assert Inverse(t', c) <==> NodesInverse(t', c);
  }

  lemma ReplacedEdgeJoinedAlike(t: Tables, c: Coding, e: Edge)
    requires EdgesInverse(t, c) && c.IdOf(e) in t.edges && EdgesInverse(WithEdge(t, c, e), c)
    ensures JoinedAlike(t.edges[c.IdOf(e)], e)
  {
    var h, t' := c.IdOf(e), WithEdge(t, c, e);
    var f := t.edges[h];
    assert t'.edges[h] == e && t'.edgesFrom == t.edgesFrom && t'.edgesTo == t.edgesTo && t'.fileEdges == t.fileEdges;
    assert h in ValuesAt(t.edgesFrom, f.from) && h in ValuesAt(t.edgesTo, f.to);
    if f.path.Some? {
      assert h in ValuesAt(t.fileEdges, f.path.value);
    } else if e.path.Some? {
      assert h in ValuesAt(t'.fileEdges, e.path.value);
    }
  }

  lemma NewOrLikeEdge(t: Tables, c: Coding, e: Edge)
    requires EdgesInverse(t, c) && (c.IdOf(e) in t.edges ==> JoinedAlike(t.edges[c.IdOf(e)], e))
    ensures EdgesInverse(WithEdge(t, c, e), c)
  {
    var t' := WithEdge(t, c, e);
    assert t'.edges == t.edges[c.IdOf(e) := e];
    NewFrom(t, t', c, e);
    NewTo(t, t', c, e);
    NewEdgePath(t, t', c, e);
  }

  lemma NewFrom(t: Tables, t': Tables, c: Coding, e: Edge)
    requires FromInverse(t) && t' == WithEdge(t, c, e) && (c.IdOf(e) in t.edges ==> t.edges[c.IdOf(e)].from == e.from)
    ensures FromInverse(t')
  {
  }

  lemma NewTo(t: Tables, t': Tables, c: Coding, e: Edge)
    requires ToInverse(t) && t' == WithEdge(t, c, e) && (c.IdOf(e) in t.edges ==> t.edges[c.IdOf(e)].to == e.to)
    ensures ToInverse(t')
  {
  }

  lemma NewEdgePath(t: Tables, t': Tables, c: Coding, e: Edge)
    requires EdgePathsInverse(t) && t' == WithEdge(t, c, e)
             && (c.IdOf(e) in t.edges ==> t.edges[c.IdOf(e)].path == e.path)
    ensures EdgePathsInverse(t')
  {
    forall p, h ensures h in ValuesAt(t'.fileEdges, p) <==> h in t'.edges && t'.edges[h].path == Some(p) {
      NewPathAt(t, t', c, e, p, h);
    }
  }

  lemma NewPathAt(t: Tables, t': Tables, c: Coding, e: Edge, p: Path, h: EdgeId)
    requires t' == WithEdge(t, c, e) && (c.IdOf(e) in t.edges ==> t.edges[c.IdOf(e)].path == e.path)
    requires h in ValuesAt(t.fileEdges, p) <==> h in t.edges && t.edges[h].path == Some(p)
    ensures h in ValuesAt(t'.fileEdges, p) <==> h in t'.edges && t'.edges[h].path == Some(p)
  {
  }

  lemma EdgeStored(t: Tables, t': Tables, c: Coding, e: Edge)
    requires EdgesInverse(t, c) && t' == WithEdge(t, c, e)
    ensures EdgesInverse(t', c) <==> (c.IdOf(e) in t.edges ==> JoinedAlike(t.edges[c.IdOf(e)], e))
  {
    if c.IdOf(e) in t.edges ==> JoinedAlike(t.edges[c.IdOf(e)], e) {
      NewOrLikeEdge(t, c, e);
    } else if EdgesInverse(t', c) {
      ReplacedEdgeJoinedAlike(t, c, e);
    }
  }

  lemma NodesKept(t: Tables, t': Tables, c: Coding, e: Edge)
    requires NodesInverse(t, c) && t' == WithEdge(t, c, e)
    ensures NodesInverse(t', c)
  {
    SameNodeTables(t, t', c);
  }

  /** Storing an edge keeps the tables exact if and only if it joins the ends, in the file, of any edge it replaces. */
  lemma InsertEdgeInverse(t: Tables, c: Coding, e: Edge)
    requires Inverse(t, c)
    ensures Inverse(WithEdge(t, c, e), c) <==> (c.IdOf(e) in t.edges ==> JoinedAlike(t.edges[c.IdOf(e)], e))
  {
    var t' := WithEdge(t, c, e);
    EdgeStored(t, t', c, e);
    NodesKept(t, t', c, e);
    assert Inverse(t', c) <==> EdgesInverse(t', c);
  }

  // Any sequence of insertions.

  datatype IndexOp = PutNode(node: Node) | PutEdge(edge: Edge)

  ghost function After(ops: seq<IndexOp>, c: Coding): Tables {
    if ops == [] then NO_TABLES else
      var t := After(ops[..|ops| - 1], c);
      match ops[|ops| - 1]
      case PutNode(n) => WithNode(t, c, n)
      case PutEdge(e) => WithEdge(t, c, e)
  }

  /** Ids determine what is filed: nodes of one id are filed alike, edges of one hash joined alike. */
  ghost predicate Consistent(ops: seq<IndexOp>, c: Coding) {
    && (forall a, b :: PutNode(a) in ops && PutNode(b) in ops && a.id == b.id ==> FiledAlike(c, a, b))
    && (forall a, b :: PutEdge(a) in ops && PutEdge(b) in ops && c.IdOf(a) == c.IdOf(b) ==> JoinedAlike(a, b))
  }

  /** After any consistent sequence of insertions each secondary table is the inverse image of its primary one. */
  lemma {:induction false} InsertionsInverse(ops: seq<IndexOp>, c: Coding)
    requires Consistent(ops, c)
    ensures Inverse(After(ops, c), c)
    ensures forall id :: id in After(ops, c).nodes ==> PutNode(After(ops, c).nodes[id]) in ops
    ensures forall h :: h in After(ops, c).edges ==> PutEdge(After(ops, c).edges[h]) in ops
  {
    if ops != [] {
      var rest := ops[..|ops| - 1];
      assert ops == rest + [ops[|ops| - 1]];
      InsertionsInverse(rest, c);
      match ops[|ops| - 1] {
        case PutNode(n) => InsertNodeInverse(After(rest, c), c, n);
        case PutEdge(e) => InsertEdgeInverse(After(rest, c), c, e);
      }
    }
  }

  // Saving a graph.

  /** The hash separates the keys of the edges in play. */
  ghost predicate ClashFree(c: Coding, edges: set<Edge>) {
    forall a, b :: a in edges && b in edges && c.hash(KeyOf(a)) == c.hash(KeyOf(b)) ==> KeyOf(a) == KeyOf(b)
  }

  /** On edges of the shape the builders give them, the key loses nothing. */
  lemma KeyFaithful(a: Edge, b: Edge)
    requires EdgeOk(a) && EdgeOk(b) && KeyOf(a) == KeyOf(b)
    ensures a == b
  {
  }

  /** The index holds exactly these nodes and edges. */
  ghost predicate Holds(t: Tables, c: Coding, nodes: set<Node>, edges: set<Edge>) {
    Inverse(t, c) && t.nodes.Values == nodes && t.edges.Values == edges
  }

  lemma HoldsNode(t: Tables, c: Coding, nodes: set<Node>, edges: set<Edge>, n: Node)
    requires Holds(t, c, nodes, edges)
    requires forall m :: m in nodes ==> m.id != n.id
    ensures Holds(WithNode(t, c, n), c, nodes + {n}, edges)
  {
    forall id | id in t.nodes ensures id != n.id {
      assert t.nodes[id] in t.nodes.Values;
    }
    InsertNodeInverse(t, c, n);
    PutValues(t.nodes, n.id, n);
  }

  lemma PutValues<K, V>(m: map<K, V>, k: K, v: V)
    requires k in m ==> m[k] == v
    ensures m[k := v].Values == m.Values + {v}
  {
    forall x | x in m.Values + {v} ensures x in m[k := v].Values {
      if x == v {
        assert m[k := v][k] == v;
      } else {
        var j :| j in m && m[j] == x;
        assert m[k := v][j] == x;
      }
    }
  }

  lemma HoldsEdge(t: Tables, c: Coding, nodes: set<Node>, edges: set<Edge>, e: Edge)
    requires Holds(t, c, nodes, edges) && ClashFree(c, edges + {e})
    requires EdgeOk(e) && forall f :: f in edges ==> EdgeOk(f)
    ensures Holds(WithEdge(t, c, e), c, nodes, edges + {e})
    ensures c.IdOf(e) in t.edges <==> e in edges
  {
    HeldEdge(t, c, nodes, edges, e);
    InsertEdgeInverse(t, c, e);
    PutValues(t.edges, c.IdOf(e), e);
    assert WithEdge(t, c, e).edges == t.edges[c.IdOf(e) := e] && WithEdge(t, c, e).nodes == t.nodes;
  }

  lemma HeldEdge(t: Tables, c: Coding, nodes: set<Node>, edges: set<Edge>, e: Edge)
    requires Holds(t, c, nodes, edges) && ClashFree(c, edges + {e})
    requires EdgeOk(e) && forall f :: f in edges ==> EdgeOk(f)
    ensures c.IdOf(e) in t.edges <==> e in edges
    ensures c.IdOf(e) in t.edges ==> t.edges[c.IdOf(e)] == e
  {
    var h := c.IdOf(e);
    if h in t.edges {
      assert t.edges[h] in t.edges.Values;
      KeyFaithful(t.edges[h], e);
    }
    if e in edges {
      var k :| k in t.edges && t.edges[k] == e;
    }
  }

  method SaveNodes(sink: RepoIndexSink, nodes: seq<Node>)
    requires UniqueIds(nodes) && Holds(sink.Contents(), sink.coding, {}, {})
    modifies sink
    ensures Holds(sink.Contents(), sink.coding, Elems(nodes), {})
  {
    for i := 0 to |nodes|
      invariant Holds(sink.Contents(), sink.coding, Elems(nodes[..i]), {})
    {
      HoldsNode(sink.Contents(), sink.coding, Elems(nodes[..i]), {}, nodes[i]);
      assert Elems(nodes[..i + 1]) == Elems(nodes[..i]) + {nodes[i]};
      var _ := sink.InsertNode(nodes[i]);
    }
    assert nodes[..|nodes|] == nodes;
  }

  method SaveEdges(sink: RepoIndexSink, ghost nodes: set<Node>, edges: seq<Edge>)
    requires ClashFree(sink.coding, Elems(edges)) && Holds(sink.Contents(), sink.coding, nodes, {})
    requires forall e :: e in edges ==> EdgeOk(e)
    modifies sink
    ensures Holds(sink.Contents(), sink.coding, nodes, Elems(edges))
  {
    for i := 0 to |edges|
      invariant Holds(sink.Contents(), sink.coding, nodes, Elems(edges[..i]))
    {
      assert Elems(edges[..i + 1]) == Elems(edges[..i]) + {edges[i]};
      assert Elems(edges[..i + 1]) <= Elems(edges);
      HoldsEdge(sink.Contents(), sink.coding, nodes, Elems(edges[..i]), edges[i]);
      var _ := sink.InsertEdge(edges[i]);
    }
    assert edges[..|edges|] == edges;
  }

  /** Write a fresh index holding the graph. */
  method SaveIndex(g: Graph, c: Coding) returns (t: Tables, counts: Counts)
    requires WellFormed(g) && ClashFree(c, Elems(g.edges))
    ensures Holds(t, c, Elems(g.nodes), Elems(g.edges))
    ensures counts == g.counts
  {
    var sink := new RepoIndexSink(c);
    SaveNodes(sink, g.nodes);
    SaveEdges(sink, Elems(g.nodes), g.edges);
    t, counts := sink.Contents(), g.counts;
  }
}
