/** Symbol, caller, callee and document queries: a linear scan of the graph, and lookups in the index. */
module IndexQueries {
  import opened Prelude
  import opened RepoTypes
  import opened GraphParts
  import opened GraphMeaning
  import opened BuildTheorems
  import opened GraphRefresh
  import opened RepoIndex

  predicate OccursAt(hay: string, needle: string, i: nat) {
    i + |needle| <= |hay| && hay[i..i + |needle|] == needle
  }

  predicate Contains(hay: string, needle: string) {
    exists i :: 0 <= i <= |hay| && OccursAt(hay, needle, i)
  }

  predicate NameMatches(name: string, needle: string, exact: bool) {
    if exact then name == needle else Contains(name, needle)
  }

  /** The symbols and modules a query means, whatever the case of their names. */
  function Meant(lower: string -> string, symbol: string, exact: bool): Node -> bool {
    (n: Node) => (n.kind == SymbolNode || n.kind == ModuleNode) && NameMatches(lower(n.name), lower(symbol), exact)
  }

  /** A symbol or a module of that name, or one whose name has it somewhere, whatever the case. */
  ghost predicate Named(lower: string -> string, symbol: string, exact: bool, n: Node) {
    && (n.kind == SymbolNode || n.kind == ModuleNode)
    && if exact then lower(n.name) == lower(symbol) else exists a, b :: lower(n.name) == a + lower(symbol) + b
  }

  lemma ContainsExactly(hay: string, needle: string)
    ensures Contains(hay, needle) <==> exists a, b :: hay == a + needle + b
  {
    if Contains(hay, needle) {
      var i :| 0 <= i <= |hay| && OccursAt(hay, needle, i);
      assert hay == hay[..i] + needle + hay[i + |needle|..];
    }
    if exists a, b :: hay == a + needle + b {
      var a, b :| hay == a + needle + b;
      assert OccursAt(hay, needle, |a|);
    }
  }

  lemma MeantExactly(lower: string -> string, symbol: string, exact: bool, n: Node)
    ensures Meant(lower, symbol, exact)(n) <==> Named(lower, symbol, exact, n)
  {
    ContainsExactly(lower(n.name), lower(symbol));
  }

  function GraphSymbolLookup(g: Graph, lower: string -> string, symbol: string, exact: bool): seq<Node> {
    Filter(Meant(lower, symbol, exact), g.nodes)
  }

  /** The ids filed under the names that match: one entry if exact, a scan of all names if not. */
  method MatchingIds(names: map<string, set<NodeId>>, needle: string, exact: bool) returns (ids: set<NodeId>)
    ensures forall id :: id in ids <==> exists k :: NameMatches(k, needle, exact) && id in ValuesAt(names, k)
  {
    if exact {
      ids := ValuesAt(names, needle);
    } else {
      ids := {};
      var rest := names.Keys;
      while rest != {}
        invariant rest <= names.Keys
        invariant forall id :: id in ids <==>
                  exists k :: k !in rest && NameMatches(k, needle, false) && id in ValuesAt(names, k)
        decreases rest
      {
        var k :| k in rest;
        if Contains(k, needle) {
          ids := ids + names[k];
        }
        rest := rest - {k};
      }
    }
  }

  method IndexSymbolLookup(t: Tables, c: Coding, symbol: string, exact: bool) returns (found: seq<Node>)
    requires Inverse(t, c)
    ensures Distinct(found)
    ensures forall n :: n in found <==> n in t.nodes.Values && Meant(c.lower, symbol, exact)(n)
    ensures forall n :: n in found <==> n in t.nodes.Values && Named(c.lower, symbol, exact, n)
  {
    var needle := c.lower(symbol);
    var symbols := MatchingIds(t.symbolName, needle, exact);
    var modules := MatchingIds(t.moduleName, needle, exact);
    var rest := symbols + modules;
    forall id
      ensures id in rest <==> id in t.nodes && Meant(c.lower, symbol, exact)(t.nodes[id])
    {
      if id in t.nodes {
        var k := c.lower(t.nodes[id].name);
        assert id in ValuesAt(t.symbolName, k) <==> t.nodes[id].kind == SymbolNode;
        assert id in ValuesAt(t.moduleName, k) <==> t.nodes[id].kind == ModuleNode;
      }
    }
    ghost var ids := rest;
    found := [];
    while rest != {}
      invariant rest <= ids
      invariant forall n :: n in found <==> n.id in ids - rest && n == t.nodes[n.id]
      invariant Distinct(found)
      decreases rest
    {
      var id :| id in rest;
      if id in t.nodes {
        assert t.nodes[id].id == id;
        found := found + [t.nodes[id]];
      }
      rest := rest - {id};
    }
    forall n ensures n in found <==> n in t.nodes.Values && Meant(c.lower, symbol, exact)(n) {
      if n in t.nodes.Values {
        var id :| id in t.nodes && t.nodes[id] == n;
        assert n.id == id;
      }
    }
    forall n { MeantExactly(c.lower, symbol, exact, n); }
  }

  // Rows about edges.

  datatype Query = Callers | Callees | DocLinks

  /** A row of an answer. To a call the index adds the lines of both symbols and the path of the edge. */
  datatype Row = Row(source: string, sourcePath: string, target: string, targetPath: string, line: Option<nat>)

  datatype IndexRow = IndexRow(row: Row, sourceLine: Option<nat>, targetLine: Option<nat>, edgePath: string)

  function RowOf(from: Node, to: Node, e: Edge): Row {
    Row(from.name, from.path.GetOr(""), to.name, to.path.GetOr(""), e.line)
  }

  function IndexRowOf(q: Query, from: Node, to: Node, e: Edge): IndexRow {
    if q.DocLinks? then IndexRow(RowOf(from, to, e), None, None, "")
    else IndexRow(RowOf(from, to, e), from.line, to.line, e.path.GetOr(""))
  }

  /** What the graph scan compares to drop repeated rows: names for calls, ids for documents. */
  datatype RowKey = ByName(row: Row) | ByEdge(from: NodeId, to: NodeId, path: Option<Path>, line: Option<nat>)

  function ScanKey(q: Query, from: Node, to: Node, e: Edge): RowKey {
    if q.DocLinks? then ByEdge(from.id, to.id, e.path, e.line)
    else ByName(RowOf(from, to, e).(line := Some(e.line.GetOr(0))))
  }

  function LookupKey(from: Node, to: Node, e: Edge): RowKey {
    ByEdge(from.id, to.id, e.path, e.line)
  }

  predicate Asked(q: Query, targets: set<NodeId>, e: Edge) {
    && e.kind == (if q.DocLinks? then Documents else Calls)
    && (if q.Callees? then e.from else e.to) in targets
  }

  /** The end at which a query meets its edges. */
  function MetAt(q: Query, e: Edge): NodeId {
    if q.Callees? then e.from else e.to
  }

  type NodeTable = map<NodeId, Node>

  ghost function TableOf(nodes: seq<Node>): (m: NodeTable)
    requires UniqueIds(nodes)
    ensures m.Keys == Ids(nodes)
  {
    map n | n in nodes :: n.id := n
  }

  ghost predicate Joined(nodeAt: NodeTable, e: Edge) {
    e.from in nodeAt && e.to in nodeAt
  }

  /** The answer to a query over a table of nodes and a set of edges. */
  ghost predicate IsAnswer(nodeAt: NodeTable, edges: set<Edge>, q: Query, targets: set<NodeId>, row: Row) {
    exists e :: e in edges && Asked(q, targets, e) && Joined(nodeAt, e) && row == RowOf(nodeAt[e.from], nodeAt[e.to], e)
  }

  /** The edges asked for, each once, in the order in which their rows were found. */
  ghost predicate AskedOnce(nodeAt: NodeTable, edges: set<Edge>, q: Query, targets: set<NodeId>, met: seq<Edge>) {
    && Distinct(met)
    && forall e :: e in met <==> e in edges && Asked(q, targets, e) && Joined(nodeAt, e)
  }

  /** One row for each of these edges. */
  ghost predicate RowsFor(nodeAt: NodeTable, met: seq<Edge>, rows: seq<Row>) {
    && |rows| == |met|
    && forall i :: 0 <= i < |met| ==>
      Joined(nodeAt, met[i]) && rows[i] == RowOf(nodeAt[met[i].from], nodeAt[met[i].to], met[i])
  }

  ghost predicate IndexRowsFor(nodeAt: NodeTable, q: Query, met: seq<Edge>, rows: seq<IndexRow>) {
    && |rows| == |met|
    && forall i :: 0 <= i < |met| ==>
      Joined(nodeAt, met[i]) && rows[i] == IndexRowOf(q, nodeAt[met[i].from], nodeAt[met[i].to], met[i])
  }

  /** The table is keyed by the ids of its nodes. */
  ghost predicate Keyed(nodeAt: NodeTable) {
    forall id :: id in nodeAt ==> nodeAt[id].id == id
  }

  ghost predicate RowPerEdge(nodeAt: NodeTable, edges: set<Edge>, q: Query, targets: set<NodeId>, rows: seq<Row>) {
    exists met: seq<Edge> :: AskedOnce(nodeAt, edges, q, targets, met) && RowsFor(nodeAt, met, rows)
  }

  /** The rows of all edges asked for: equal rows are dropped for calls, but not for documents. */
  ghost predicate ScanResult(nodeAt: NodeTable, edges: set<Edge>, q: Query, targets: set<NodeId>, rows: seq<Row>) {
    && (forall row :: row in rows <==> IsAnswer(nodeAt, edges, q, targets, row))
    && (if q.DocLinks? then RowPerEdge(nodeAt, edges, q, targets, rows) else Distinct(rows))
  }

  /** A row for each edge asked for. */
  ghost predicate LookupResult(t: Tables, q: Query, targets: set<NodeId>, rows: seq<IndexRow>) {
    exists met: seq<Edge> :: AskedOnce(t.nodes, t.edges.Values, q, targets, met) && IndexRowsFor(t.nodes, q, met, rows)
  }

  // The scan. Its rows come from the edges `met`, in which no key is repeated.

  ghost predicate KeysOf(nodeAt: NodeTable, q: Query, met: seq<Edge>, keys: seq<RowKey>) {
    && |keys| == |met|
    && forall i :: 0 <= i < |met| ==>
      Joined(nodeAt, met[i]) && keys[i] == ScanKey(q, nodeAt[met[i].from], nodeAt[met[i].to], met[i])
  }

  /** What has been scanned: asked-for edges without a repeated key, and a key for every one there is. */
  ghost predicate Scanned(nodeAt: NodeTable, edges: set<Edge>, q: Query, targets: set<NodeId>, met: seq<Edge>,
                          keys: seq<RowKey>) {
    && KeysOf(nodeAt, q, met, keys) && Distinct(keys)
    && (forall e :: e in met ==> e in edges && Asked(q, targets, e))
    && (forall e :: e in edges && Asked(q, targets, e) && Joined(nodeAt, e) ==>
          ScanKey(q, nodeAt[e.from], nodeAt[e.to], e) in keys)
  }

  lemma ScannedSkips(nodeAt: NodeTable, edges: set<Edge>, q: Query, targets: set<NodeId>, met: seq<Edge>,
                     keys: seq<RowKey>, e: Edge)
    requires Scanned(nodeAt, edges, q, targets, met, keys)
    requires Asked(q, targets, e) && Joined(nodeAt, e) ==> ScanKey(q, nodeAt[e.from], nodeAt[e.to], e) in keys
    ensures Scanned(nodeAt, edges + {e}, q, targets, met, keys)
  {
  }

  lemma ScannedTakes(nodeAt: NodeTable, edges: set<Edge>, q: Query, targets: set<NodeId>, met: seq<Edge>,
                     keys: seq<RowKey>, e: Edge)
    requires Scanned(nodeAt, edges, q, targets, met, keys) && Asked(q, targets, e) && Joined(nodeAt, e)
    requires ScanKey(q, nodeAt[e.from], nodeAt[e.to], e) !in keys
    ensures Scanned(nodeAt, edges + {e}, q, targets, met + [e],
                    keys + [ScanKey(q, nodeAt[e.from], nodeAt[e.to], e)])
  {
  }

  /** The key of a call is its row, but for a line that is missing. */
  lemma KeyIsRow(nodeAt: NodeTable, q: Query, targets: set<NodeId>, e: Edge, f: Edge)
    requires Joined(nodeAt, e) && Joined(nodeAt, f) && Asked(q, targets, e) && Asked(q, targets, f)
    requires EdgeOk(e) && EdgeOk(f) && !q.DocLinks?
    ensures ScanKey(q, nodeAt[e.from], nodeAt[e.to], e) == ScanKey(q, nodeAt[f.from], nodeAt[f.to], f) <==>
            RowOf(nodeAt[e.from], nodeAt[e.to], e) == RowOf(nodeAt[f.from], nodeAt[f.to], f)
  {
  }

  /** The key of a document link is the link. */
  lemma KeyIsLink(nodeAt: NodeTable, q: Query, targets: set<NodeId>, e: Edge, f: Edge)
    requires Keyed(nodeAt) && Joined(nodeAt, e) && Joined(nodeAt, f) && Asked(q, targets, e) && Asked(q, targets, f)
    requires q.DocLinks?
    ensures ScanKey(q, nodeAt[e.from], nodeAt[e.to], e) == ScanKey(q, nodeAt[f.from], nodeAt[f.to], f) <==> e == f
  {
  }

  lemma CallsScanned(nodeAt: NodeTable, edges: set<Edge>, q: Query, targets: set<NodeId>, met: seq<Edge>,
                     keys: seq<RowKey>, rows: seq<Row>)
    requires Scanned(nodeAt, edges, q, targets, met, keys) && RowsFor(nodeAt, met, rows)
    requires !q.DocLinks? && forall e :: e in edges ==> EdgeOk(e)
    ensures Distinct(rows)
    ensures forall row :: row in rows <==> IsAnswer(nodeAt, edges, q, targets, row)
  {
    forall i, j | 0 <= i < j < |rows| ensures rows[i] != rows[j] {
      assert met[i] in met && met[j] in met && keys[i] != keys[j];
      KeyIsRow(nodeAt, q, targets, met[i], met[j]);
    }
    forall row | row in rows ensures IsAnswer(nodeAt, edges, q, targets, row) {
      var i :| 0 <= i < |rows| && rows[i] == row;
      assert met[i] in met;
    }
    forall e | e in edges && Asked(q, targets, e) && Joined(nodeAt, e)
      ensures RowOf(nodeAt[e.from], nodeAt[e.to], e) in rows
    {
      var i :| 0 <= i < |keys| && keys[i] == ScanKey(q, nodeAt[e.from], nodeAt[e.to], e);
      assert met[i] in met;
      KeyIsRow(nodeAt, q, targets, met[i], e);
    }
  }

  lemma LinksScanned(nodeAt: NodeTable, edges: set<Edge>, q: Query, targets: set<NodeId>, met: seq<Edge>,
                     keys: seq<RowKey>)
    requires Keyed(nodeAt) && Scanned(nodeAt, edges, q, targets, met, keys) && q.DocLinks?
    ensures AskedOnce(nodeAt, edges, q, targets, met)
  {
    forall i, j | 0 <= i < j < |met| ensures met[i] != met[j] {
      assert keys[i] != keys[j];
    }
    forall e | e in edges && Asked(q, targets, e) && Joined(nodeAt, e) ensures e in met {
      var i :| 0 <= i < |keys| && keys[i] == ScanKey(q, nodeAt[e.from], nodeAt[e.to], e);
      assert met[i] in met;
      KeyIsLink(nodeAt, q, targets, met[i], e);
    }
  }

  lemma OnceAnswers(nodeAt: NodeTable, edges: set<Edge>, q: Query, targets: set<NodeId>, met: seq<Edge>,
                    rows: seq<Row>)
    requires AskedOnce(nodeAt, edges, q, targets, met) && RowsFor(nodeAt, met, rows)
    ensures forall row :: row in rows <==> IsAnswer(nodeAt, edges, q, targets, row)
  {
    forall row | row in rows ensures IsAnswer(nodeAt, edges, q, targets, row) {
      var i :| 0 <= i < |rows| && rows[i] == row;
      assert met[i] in met;
    }
    forall row | IsAnswer(nodeAt, edges, q, targets, row) ensures row in rows {
      var e :| e in edges && Asked(q, targets, e) && Joined(nodeAt, e)
               && row == RowOf(nodeAt[e.from], nodeAt[e.to], e);
      var i :| 0 <= i < |met| && met[i] == e;
      assert rows[i] == row;
    }
  }

  lemma AllScanned(nodeAt: NodeTable, edges: set<Edge>, q: Query, targets: set<NodeId>, met: seq<Edge>,
                   keys: seq<RowKey>, rows: seq<Row>)
    requires Keyed(nodeAt) && forall e :: e in edges ==> EdgeOk(e)
    requires Scanned(nodeAt, edges, q, targets, met, keys) && RowsFor(nodeAt, met, rows)
    ensures ScanResult(nodeAt, edges, q, targets, rows)
  {
    if q.DocLinks? {
      LinksScanned(nodeAt, edges, q, targets, met, keys);
      OnceAnswers(nodeAt, edges, q, targets, met, rows);
    } else {
      CallsScanned(nodeAt, edges, q, targets, met, keys, rows);
    }
  }

  lemma MapIsTable(m: NodeTable, nodes: seq<Node>)
    requires UniqueIds(nodes) && m.Keys == Ids(nodes) && forall id :: id in m ==> m[id] in nodes && m[id].id == id
    ensures m == TableOf(nodes)
  {
  }

  lemma NothingAsked(nodeAt: NodeTable, edges: set<Edge>, q: Query, targets: set<NodeId>)
    requires targets == {}
    ensures ScanResult(nodeAt, edges, q, targets, [])
  {
    assert AskedOnce(nodeAt, edges, q, targets, []) && RowsFor(nodeAt, [], []);
  }

  /** Answer a query by scanning every edge of the graph. */
  method ScanRows(g: Graph, lower: string -> string, q: Query, symbol: string, exact: bool)
    returns (rows: seq<Row>)
    requires WellFormed(g)
    ensures ScanResult(TableOf(g.nodes), Elems(g.edges), q, Ids(GraphSymbolLookup(g, lower, symbol, exact)), rows)
  {
    var found := GraphSymbolLookup(g, lower, symbol, exact);
    var targets := NodeIds(found);
    assert targets == Ids(found);
    rows := [];
    if targets == {} {
      NothingAsked(TableOf(g.nodes), Elems(g.edges), q, targets);
      return;
    }
    var nodeAt := NodeMap(g.nodes);
    MapIsTable(nodeAt, g.nodes);
    rows := ScanEdges(nodeAt, g.edges, q, targets);
  }

  method ScanEdges(nodeAt: NodeTable, edges: seq<Edge>, q: Query, targets: set<NodeId>)
    returns (rows: seq<Row>)
    requires Keyed(nodeAt) && forall e :: e in edges ==> EdgeOk(e)
    ensures ScanResult(nodeAt, Elems(edges), q, targets, rows)
  {
    rows := [];
    ghost var met, keys := [], [];
    var seen: set<RowKey> := {};
    for i := 0 to |edges|
      invariant RowsFor(nodeAt, met, rows) && seen == Elems(keys)
      invariant Scanned(nodeAt, Elems(edges[..i]), q, targets, met, keys)
    {
      var e := edges[i];
      assert edges[..i + 1] == edges[..i] + [e];
      ElemsSnoc(edges[..i], e);
      if !Asked(q, targets, e) || e.from !in nodeAt || e.to !in nodeAt {
        ScannedSkips(nodeAt, Elems(edges[..i]), q, targets, met, keys, e);
        continue;
      }
      var key := ScanKey(q, nodeAt[e.from], nodeAt[e.to], e);
      if key in seen {
        ScannedSkips(nodeAt, Elems(edges[..i]), q, targets, met, keys, e);
        continue;
      }
      ScannedTakes(nodeAt, Elems(edges[..i]), q, targets, met, keys, e);
      ElemsSnoc(keys, key);
      seen := seen + {key};
      rows := rows + [RowOf(nodeAt[e.from], nodeAt[e.to], e)];
      met, keys := met + [e], keys + [key];
    }
    assert edges[..|edges|] == edges;
    AllScanned(nodeAt, Elems(edges), q, targets, met, keys, rows);
  }

  // The same answers from the index: a row for each edge asked for.

  ghost predicate WasLookedUp(nodeAt: NodeTable, met: seq<Edge>, key: RowKey) {
    exists e :: e in met && Joined(nodeAt, e) && key == LookupKey(nodeAt[e.from], nodeAt[e.to], e)
  }

  /** Two edges of one query with one key are one edge. */
  lemma LookupKeyFaithful(nodeAt: NodeTable, edges: set<Edge>, q: Query, targets: set<NodeId>, met: seq<Edge>, e: Edge)
    requires Keyed(nodeAt) && AskedOnce(nodeAt, edges, q, targets, met) && Asked(q, targets, e) && Joined(nodeAt, e)
    ensures WasLookedUp(nodeAt, met, LookupKey(nodeAt[e.from], nodeAt[e.to], e)) <==> e in met
  {
  }

  lemma OnceSkips(nodeAt: NodeTable, edges: set<Edge>, q: Query, targets: set<NodeId>, met: seq<Edge>, e: Edge)
    requires AskedOnce(nodeAt, edges, q, targets, met)
    requires Asked(q, targets, e) && Joined(nodeAt, e) ==> e in met
    ensures AskedOnce(nodeAt, edges + {e}, q, targets, met)
  {
  }

  lemma OnceTakes(nodeAt: NodeTable, edges: set<Edge>, q: Query, targets: set<NodeId>, met: seq<Edge>, e: Edge)
    requires AskedOnce(nodeAt, edges, q, targets, met) && Asked(q, targets, e) && Joined(nodeAt, e) && e !in met
    ensures AskedOnce(nodeAt, edges + {e}, q, targets, met + [e])
    ensures forall key :: WasLookedUp(nodeAt, met + [e], key) <==>
              WasLookedUp(nodeAt, met, key) || key == LookupKey(nodeAt[e.from], nodeAt[e.to], e)
  {
  }

  /** Follow the edges filed under one target, after those in `edges0`. */
  method FollowEdges(t: Tables, q: Query, targets: set<NodeId>, hashes: set<EdgeId>, ghost edges0: set<Edge>,
                     rows0: seq<IndexRow>, seen0: set<RowKey>, ghost met0: seq<Edge>)
    returns (rows: seq<IndexRow>, seen: set<RowKey>, ghost met: seq<Edge>)
    requires Keyed(t.nodes) && hashes <= t.edges.Keys
    requires AskedOnce(t.nodes, edges0, q, targets, met0) && IndexRowsFor(t.nodes, q, met0, rows0)
    requires forall key :: key in seen0 <==> WasLookedUp(t.nodes, met0, key)
    ensures AskedOnce(t.nodes, edges0 + set h | h in hashes :: t.edges[h], q, targets, met)
    ensures IndexRowsFor(t.nodes, q, met, rows) && forall key :: key in seen <==> WasLookedUp(t.nodes, met, key)
  {
    rows, seen, met := rows0, seen0, met0;
    var rest := hashes;
    ghost var edges := edges0;
    while rest != {}
      invariant rest <= hashes
      invariant edges == edges0 + set h | h in hashes - rest :: t.edges[h]
      invariant AskedOnce(t.nodes, edges, q, targets, met) && IndexRowsFor(t.nodes, q, met, rows)
      invariant forall key :: key in seen <==> WasLookedUp(t.nodes, met, key)
      decreases rest
    {
      var h :| h in rest;
      var e := t.edges[h];
      rest := rest - {h};
      if Asked(q, targets, e) && e.from in t.nodes && e.to in t.nodes {
        LookupKeyFaithful(t.nodes, edges, q, targets, met, e);
        var key := LookupKey(t.nodes[e.from], t.nodes[e.to], e);
        if key in seen {
          OnceSkips(t.nodes, edges, q, targets, met, e);
        } else {
          OnceTakes(t.nodes, edges, q, targets, met, e);
          seen := seen + {key};
          rows, met := rows + [IndexRowOf(q, t.nodes[e.from], t.nodes[e.to], e)], met + [e];
        }
      } else {
        OnceSkips(t.nodes, edges, q, targets, met, e);
      }
      edges := edges + {e};
    }
  }

  /** The edges an index lookup meets from the given targets. */
  ghost function MetFrom(t: Tables, q: Query, targets: set<NodeId>): set<Edge> {
    set h | h in t.edges && MetAt(q, t.edges[h]) in targets :: t.edges[h]
  }

  lemma MetStep(t: Tables, c: Coding, q: Query, done: set<NodeId>, target: NodeId)
    requires Inverse(t, c)
    ensures var hashes := ValuesAt(if q.Callees? then t.edgesFrom else t.edgesTo, target);
            && hashes <= t.edges.Keys && (forall h :: h in hashes ==> MetAt(q, t.edges[h]) == target)
            && MetFrom(t, q, done + {target}) == MetFrom(t, q, done) + set h | h in hashes :: t.edges[h]
  {
    var hashes := ValuesAt(if q.Callees? then t.edgesFrom else t.edgesTo, target);
    assert forall h :: h in hashes <==> h in t.edges && MetAt(q, t.edges[h]) == target;
  }

  /** The stored symbols and modules a query means. */
  ghost function MeantIds(t: Tables, c: Coding, symbol: string, exact: bool): set<NodeId> {
    set id | id in t.nodes && Meant(c.lower, symbol, exact)(t.nodes[id])
  }

  /** Answer a query by following the secondary table from each target. */
  method LookupRows(t: Tables, c: Coding, q: Query, symbol: string, exact: bool)
    returns (rows: seq<IndexRow>)
    requires Inverse(t, c)
    ensures LookupResult(t, q, MeantIds(t, c, symbol, exact), rows)
  {
    var found := IndexSymbolLookup(t, c, symbol, exact);
    var targets := set n | n in found :: n.id;
    FoundTargets(t, c, symbol, exact, found);
    rows := LookupFrom(t, c, q, targets);
  }

  lemma FoundTargets(t: Tables, c: Coding, symbol: string, exact: bool, found: seq<Node>)
    requires Inverse(t, c)
    requires forall n :: n in found <==> n in t.nodes.Values && Meant(c.lower, symbol, exact)(n)
    ensures (set n | n in found :: n.id) == MeantIds(t, c, symbol, exact)
  {
  }

  /** The rows of each target in turn, one for each edge. */
  method LookupFrom(t: Tables, c: Coding, q: Query, targets: set<NodeId>)
    returns (rows: seq<IndexRow>)
    requires Inverse(t, c)
    ensures LookupResult(t, q, targets, rows)
  {
    rows := [];
    ghost var met := [];
    var rest, seen := targets, {};
    while rest != {}
      invariant rest <= targets
      invariant AskedOnce(t.nodes, MetFrom(t, q, targets - rest), q, targets, met)
      invariant IndexRowsFor(t.nodes, q, met, rows)
      invariant forall key :: key in seen <==> WasLookedUp(t.nodes, met, key)
      decreases rest
    {
      var target :| target in rest;
      MetStep(t, c, q, targets - rest, target);
      var hashes := ValuesAt(if q.Callees? then t.edgesFrom else t.edgesTo, target);
      rows, seen, met := FollowEdges(t, q, targets, hashes, MetFrom(t, q, targets - rest), rows, seen, met);
      assert targets - rest + {target} == targets - (rest - {target});
      rest := rest - {target};
    }
    assert targets - {} == targets;
    AllMet(t, q, targets, met);
  }

  lemma AllMet(t: Tables, q: Query, targets: set<NodeId>, met: seq<Edge>)
    requires AskedOnce(t.nodes, MetFrom(t, q, targets), q, targets, met)
    ensures AskedOnce(t.nodes, t.edges.Values, q, targets, met)
  {
  }

  // Index and graph agree.

  /** An index that holds a graph has its node table, and means the same ids by every query. */
  lemma HeldTable(t: Tables, c: Coding, g: Graph, symbol: string, exact: bool)
    requires WellFormed(g) && Holds(t, c, Elems(g.nodes), Elems(g.edges))
    ensures t.nodes == TableOf(g.nodes)
    ensures forall n :: n in g.nodes <==> n in t.nodes.Values
    ensures MeantIds(t, c, symbol, exact) == Ids(GraphSymbolLookup(g, c.lower, symbol, exact))
  {
    forall id | id in t.nodes ensures t.nodes[id] in g.nodes && t.nodes[id].id == id {
      assert t.nodes[id] in t.nodes.Values;
    }
    forall n | n in g.nodes ensures n.id in t.nodes && t.nodes[n.id] == n {
      assert n in t.nodes.Values;
      var id :| id in t.nodes && t.nodes[id] == n;
    }
    assert t.nodes == TableOf(g.nodes);
  }

  function Narrow(): IndexRow -> Row { (wide: IndexRow) => wide.row }

  /** The row of an edge, were its ends in the table. */
  function RowAt(nodeAt: NodeTable): Edge -> Row {
    (e: Edge) =>
      if e.from in nodeAt && e.to in nodeAt then RowOf(nodeAt[e.from], nodeAt[e.to], e) else Row("", "", "", "", None)
  }

  lemma RowsMapped(nodeAt: NodeTable, met: seq<Edge>, rows: seq<Row>)
    requires RowsFor(nodeAt, met, rows)
    ensures rows == Map(RowAt(nodeAt), met)
  {
    MapAt(RowAt(nodeAt), met);
  }

  lemma IndexRowsMapped(nodeAt: NodeTable, q: Query, met: seq<Edge>, rows: seq<IndexRow>)
    requires IndexRowsFor(nodeAt, q, met, rows)
    ensures Map(Narrow(), rows) == Map(RowAt(nodeAt), met)
  {
    MapAt(Narrow(), rows);
    MapAt(RowAt(nodeAt), met);
  }

  lemma MappedAnswers(nodeAt: NodeTable, edges: set<Edge>, q: Query, targets: set<NodeId>, met: seq<Edge>, row: Row)
    requires AskedOnce(nodeAt, edges, q, targets, met)
    ensures row in Map(RowAt(nodeAt), met) <==> IsAnswer(nodeAt, edges, q, targets, row)
  {
    MapMember(RowAt(nodeAt), met, row);
  }

  lemma SameMultiset<T>(a: seq<T>, b: seq<T>)
    requires Distinct(a) && Distinct(b) && forall x :: x in a <==> x in b
    ensures multiset(a) == multiset(b)
  {
    DistinctOnce(a);
    DistinctOnce(b);
    forall x ensures multiset(a)[x] == multiset(b)[x] {
      assert x in multiset(a) <==> x in a;
      assert x in multiset(b) <==> x in b;
    }
  }

  lemma {:induction false} DistinctOnce<T>(a: seq<T>)
    requires Distinct(a)
    ensures forall x :: x in a ==> multiset(a)[x] == 1
  {
    if a != [] {
      var rest, last := a[..|a| - 1], a[|a| - 1];
      DistinctOnce(rest);
      assert a == rest + [last];
      assert last !in multiset(rest) by { assert last !in rest; }
    }
  }

  lemma {:induction false} MapReordered<A, B>(f: A -> B, a: seq<A>, b: seq<A>)
    requires multiset(a) == multiset(b)
    ensures multiset(Map(f, a)) == multiset(Map(f, b))
    decreases |a|
  {
    if a == [] {
      assert |b| == |multiset(b)| == 0;
    } else {
      assert a[0] in multiset(b);
      var i :| 0 <= i < |b| && b[i] == a[0];
      WithoutOne(a, 0);
      WithoutOne(b, i);
      assert multiset(Without(a, 0)) == multiset(a) - multiset{a[0]} == multiset(Without(b, i));
      MapReordered(f, Without(a, 0), Without(b, i));
      MapWithout(f, a, 0);
      MapWithout(f, b, i);
    }
  }

  lemma LinksAlike(nodeAt: NodeTable, edges: set<Edge>, q: Query, targets: set<NodeId>, scanned: seq<Edge>,
                   followed: seq<Edge>)
    requires AskedOnce(nodeAt, edges, q, targets, scanned) && AskedOnce(nodeAt, edges, q, targets, followed)
    ensures multiset(Map(RowAt(nodeAt), scanned)) == multiset(Map(RowAt(nodeAt), followed))
  {
    SameMultiset(scanned, followed);
    MapReordered(RowAt(nodeAt), scanned, followed);
  }

  lemma ResultsAlike(t: Tables, nodeAt: NodeTable, edges: set<Edge>, q: Query, targets: set<NodeId>, rows: seq<Row>,
                     wide: seq<IndexRow>)
    requires ScanResult(nodeAt, edges, q, targets, rows) && LookupResult(t, q, targets, wide)
    requires t.nodes == nodeAt && t.edges.Values == edges
    ensures forall row :: row in rows <==> row in Map(Narrow(), wide)
    ensures q.DocLinks? ==> multiset(rows) == multiset(Map(Narrow(), wide))
  {
    var followed :| AskedOnce(nodeAt, edges, q, targets, followed) && IndexRowsFor(nodeAt, q, followed, wide);
    IndexRowsMapped(nodeAt, q, followed, wide);
    forall row ensures row in rows <==> row in Map(Narrow(), wide) {
      MappedAnswers(nodeAt, edges, q, targets, followed, row);
    }
    if q.DocLinks? {
      var scanned :| AskedOnce(nodeAt, edges, q, targets, scanned) && RowsFor(nodeAt, scanned, rows);
      RowsMapped(nodeAt, scanned, rows);
      LinksAlike(nodeAt, edges, q, targets, scanned, followed);
    }
  }

  /** A lookup finds the rows of a scan with the extra columns added; for documents, each equally often. */
  lemma LookupEqualsScan(t: Tables, c: Coding, g: Graph, q: Query, symbol: string, exact: bool, rows: seq<Row>,
                         wide: seq<IndexRow>)
    requires WellFormed(g) && Holds(t, c, Elems(g.nodes), Elems(g.edges))
    requires ScanResult(TableOf(g.nodes), Elems(g.edges), q, Ids(GraphSymbolLookup(g, c.lower, symbol, exact)), rows)
    requires LookupResult(t, q, MeantIds(t, c, symbol, exact), wide)
    ensures forall row :: row in rows <==> row in Map(Narrow(), wide)
    ensures q.DocLinks? ==> multiset(rows) == multiset(Map(Narrow(), wide))
  {
    HeldTable(t, c, g, symbol, exact);
    ResultsAlike(t, TableOf(g.nodes), Elems(g.edges), q, Ids(GraphSymbolLookup(g, c.lower, symbol, exact)), rows, wide);
  }

  // What the columns of an answer say.

  predicate ShowsPath(shown: string, path: Option<Path>) {
    if path.Some? then shown == path.value else shown == ""
  }

  /** The row tells of an edge from the node `n` to the node `m`. */
  predicate TellsOf(row: Row, e: Edge, n: Node, m: Node) {
    && row.source == n.name && ShowsPath(row.sourcePath, n.path)
    && row.target == m.name && ShowsPath(row.targetPath, m.path)
    && row.line == e.line
  }

  /** The index adds, to a call only, where the two symbols are and the file of the call. */
  predicate TellsMore(q: Query, wide: IndexRow, e: Edge, n: Node, m: Node) {
    if q.DocLinks? then wide.sourceLine == wide.targetLine == None && wide.edgePath == ""
    else wide.sourceLine == n.line && wide.targetLine == m.line && ShowsPath(wide.edgePath, e.path)
  }

  /** A call or a link, of the kind asked for, between two nodes; the end that is asked about has the name. */
  ghost predicate Connects(q: Query, lower: string -> string, symbol: string, exact: bool, e: Edge, n: Node, m: Node) {
    && e.kind == (match q case DocLinks => Documents case _ => Calls)
    && n.id == e.from && m.id == e.to
    && Named(lower, symbol, exact, match q case Callees => n case _ => m)
  }

  lemma AskedConnects(nodeAt: NodeTable, q: Query, lower: string -> string, symbol: string, exact: bool,
                      targets: set<NodeId>, e: Edge)
    requires Keyed(nodeAt) && Joined(nodeAt, e)
    requires forall id :: id in targets <==> id in nodeAt && Meant(lower, symbol, exact)(nodeAt[id])
    ensures Asked(q, targets, e) <==> Connects(q, lower, symbol, exact, e, nodeAt[e.from], nodeAt[e.to])
  {
    MeantExactly(lower, symbol, exact, nodeAt[e.from]);
    MeantExactly(lower, symbol, exact, nodeAt[e.to]);
  }

  lemma ConnectsJoined(nodeAt: NodeTable, q: Query, lower: string -> string, symbol: string, exact: bool, e: Edge,
                       n: Node, m: Node)
    requires Keyed(nodeAt) && n in nodeAt.Values && m in nodeAt.Values && Connects(q, lower, symbol, exact, e, n, m)
    ensures Joined(nodeAt, e) && n == nodeAt[e.from] && m == nodeAt[e.to]
  {
  }

  lemma RowTells(row: Row, e: Edge, n: Node, m: Node)
    ensures TellsOf(row, e, n, m) <==> row == RowOf(n, m, e)
  {
  }

  lemma IndexRowTells(q: Query, wide: IndexRow, e: Edge, n: Node, m: Node)
    ensures TellsOf(wide.row, e, n, m) && TellsMore(q, wide, e, n, m) <==> wide == IndexRowOf(q, n, m, e)
  {
    RowTells(wide.row, e, n, m);
  }

  /** A row is in the answer exactly if its columns tell of a call or link of the graph at the name asked about. */
  ghost predicate RowsTell(nodes: set<Node>, edges: set<Edge>, q: Query, lower: string -> string, symbol: string,
                           exact: bool, row: Row) {
    exists e, n, m :: e in edges && n in nodes && m in nodes
                      && Connects(q, lower, symbol, exact, e, n, m) && TellsOf(row, e, n, m)
  }

  /** The same of a row with what the index adds. */
  ghost predicate IndexRowsTell(nodes: set<Node>, edges: set<Edge>, q: Query, lower: string -> string, symbol: string,
                                exact: bool, wide: IndexRow) {
    exists e, n, m :: e in edges && n in nodes && m in nodes && Connects(q, lower, symbol, exact, e, n, m)
                      && TellsOf(wide.row, e, n, m) && TellsMore(q, wide, e, n, m)
  }

  lemma AnswerColumns(nodeAt: NodeTable, edges: set<Edge>, q: Query, lower: string -> string, symbol: string,
                      exact: bool, targets: set<NodeId>, row: Row)
    requires Keyed(nodeAt)
    requires forall id :: id in targets <==> id in nodeAt && Meant(lower, symbol, exact)(nodeAt[id])
    ensures IsAnswer(nodeAt, edges, q, targets, row) <==>
            RowsTell(nodeAt.Values, edges, q, lower, symbol, exact, row)
  {
    if IsAnswer(nodeAt, edges, q, targets, row) {
      var e :| e in edges && Asked(q, targets, e) && Joined(nodeAt, e)
               && row == RowOf(nodeAt[e.from], nodeAt[e.to], e);
      AskedConnects(nodeAt, q, lower, symbol, exact, targets, e);
      RowTells(row, e, nodeAt[e.from], nodeAt[e.to]);
    }
    if RowsTell(nodeAt.Values, edges, q, lower, symbol, exact, row) {
      var e, n, m :| e in edges && n in nodeAt.Values && m in nodeAt.Values
                     && Connects(q, lower, symbol, exact, e, n, m) && TellsOf(row, e, n, m);
      ConnectsJoined(nodeAt, q, lower, symbol, exact, e, n, m);
      AskedConnects(nodeAt, q, lower, symbol, exact, targets, e);
      RowTells(row, e, n, m);
    }
  }

  lemma TableValues(g: Graph)
    requires WellFormed(g)
    ensures Keyed(TableOf(g.nodes)) && TableOf(g.nodes).Values == Elems(g.nodes)
  {
    forall n | n in g.nodes ensures n in TableOf(g.nodes).Values {
      assert TableOf(g.nodes)[n.id] == n;
    }
  }

  /** What a scan answers, column by column. */
  lemma ScanColumns(g: Graph, lower: string -> string, q: Query, symbol: string, exact: bool, rows: seq<Row>, row: Row)
    requires WellFormed(g)
    requires ScanResult(TableOf(g.nodes), Elems(g.edges), q, Ids(GraphSymbolLookup(g, lower, symbol, exact)), rows)
    ensures row in rows <==> RowsTell(Elems(g.nodes), Elems(g.edges), q, lower, symbol, exact, row)
  {
    var nodeAt, targets := TableOf(g.nodes), Ids(GraphSymbolLookup(g, lower, symbol, exact));
    TableValues(g);
    forall id ensures id in targets <==> id in nodeAt && Meant(lower, symbol, exact)(nodeAt[id]) {
    }
    AnswerColumns(nodeAt, Elems(g.edges), q, lower, symbol, exact, targets, row);
  }

  lemma MetTells(nodeAt: NodeTable, edges: set<Edge>, q: Query, lower: string -> string, symbol: string, exact: bool,
                 targets: set<NodeId>, met: seq<Edge>, rows: seq<IndexRow>, i: nat)
    requires Keyed(nodeAt) && AskedOnce(nodeAt, edges, q, targets, met) && IndexRowsFor(nodeAt, q, met, rows)
    requires forall id :: id in targets <==> id in nodeAt && Meant(lower, symbol, exact)(nodeAt[id])
    requires i < |rows|
    ensures IndexRowsTell(nodeAt.Values, edges, q, lower, symbol, exact, rows[i])
  {
    var e := met[i];
    assert e in met;
    AskedConnects(nodeAt, q, lower, symbol, exact, targets, e);
    IndexRowTells(q, rows[i], e, nodeAt[e.from], nodeAt[e.to]);
  }

  lemma TellsMet(nodeAt: NodeTable, edges: set<Edge>, q: Query, lower: string -> string, symbol: string, exact: bool,
                 targets: set<NodeId>, met: seq<Edge>, rows: seq<IndexRow>, wide: IndexRow, e: Edge)
    requires Keyed(nodeAt) && AskedOnce(nodeAt, edges, q, targets, met) && IndexRowsFor(nodeAt, q, met, rows)
    requires e in edges && Asked(q, targets, e) && Joined(nodeAt, e)
    requires wide == IndexRowOf(q, nodeAt[e.from], nodeAt[e.to], e)
    ensures wide in rows
  {
    var i :| 0 <= i < |met| && met[i] == e;
    assert rows[i] == wide;
  }

  /** What an index lookup answers. */
  lemma LookupColumns(t: Tables, c: Coding, q: Query, symbol: string, exact: bool, rows: seq<IndexRow>, wide: IndexRow)
    requires Inverse(t, c) && LookupResult(t, q, MeantIds(t, c, symbol, exact), rows)
    ensures wide in rows <==> IndexRowsTell(t.nodes.Values, t.edges.Values, q, c.lower, symbol, exact, wide)
  {
    var edges, targets := t.edges.Values, MeantIds(t, c, symbol, exact);
    var met :| AskedOnce(t.nodes, edges, q, targets, met) && IndexRowsFor(t.nodes, q, met, rows);
    if wide in rows {
      var i :| 0 <= i < |rows| && rows[i] == wide;
      MetTells(t.nodes, edges, q, c.lower, symbol, exact, targets, met, rows, i);
    }
    if IndexRowsTell(t.nodes.Values, edges, q, c.lower, symbol, exact, wide) {
      var e, n, m :| && e in edges && n in t.nodes.Values && m in t.nodes.Values
                     && Connects(q, c.lower, symbol, exact, e, n, m)
                     && TellsOf(wide.row, e, n, m) && TellsMore(q, wide, e, n, m);
      ConnectsJoined(t.nodes, q, c.lower, symbol, exact, e, n, m);
      AskedConnects(t.nodes, q, c.lower, symbol, exact, targets, e);
      IndexRowTells(q, wide, e, n, m);
      TellsMet(t.nodes, edges, q, c.lower, symbol, exact, targets, met, rows, wide, e);
    }
  }

  // When the rows about documents are distinct.

  /** No two links from one document to the given symbols look alike: they differ in the target's name or its path. */
  ghost predicate LinksDiffer(edges: set<Edge>, targets: set<NodeId>) {
    forall e, f :: e in edges && f in edges && Asked(DocLinks, targets, e) && Asked(DocLinks, targets, f)
                   && e.from == f.from && NameOf(e.to) == NameOf(f.to) && PathOf(e.to) == PathOf(f.to)
      ==> e == f
  }

  lemma LinkEnds(g: Graph, e: Edge)
    requires WellFormed(g) && e in g.edges && e.kind == Documents
    ensures Joined(TableOf(g.nodes), e)
    ensures var row := RowOf(TableOf(g.nodes)[e.from], TableOf(g.nodes)[e.to], e);
            && e.from == DocId(row.sourcePath) && e.path == Some(row.sourcePath)
            && NameOf(e.to) == row.target && PathOf(e.to) == Some(row.targetPath) && e.line == row.line == None
  {
    var nodeAt := TableOf(g.nodes);
    assert EdgeOk(e) && NodeOk(nodeAt[e.from]) && NodeOk(nodeAt[e.to]);
  }

  /** Two links have one row exactly when they look alike. */
  lemma AlikeRows(g: Graph, e: Edge, f: Edge)
    requires WellFormed(g) && e in g.edges && f in g.edges && e.kind == f.kind == Documents
    ensures Joined(TableOf(g.nodes), e) && Joined(TableOf(g.nodes), f)
    ensures RowAt(TableOf(g.nodes))(e) == RowAt(TableOf(g.nodes))(f) <==>
            e.from == f.from && NameOf(e.to) == NameOf(f.to) && PathOf(e.to) == PathOf(f.to)
  {
    LinkEnds(g, e);
    LinkEnds(g, f);
  }

  lemma EqualRowsAt(nodeAt: NodeTable, met: seq<Edge>, rows: seq<Row>, e: Edge, f: Edge)
    requires RowsFor(nodeAt, met, rows) && e in met && f in met && e != f && Joined(nodeAt, e) && Joined(nodeAt, f)
    requires RowOf(nodeAt[e.from], nodeAt[e.to], e) == RowOf(nodeAt[f.from], nodeAt[f.to], f)
    ensures !Distinct(rows)
  {
    var i :| 0 <= i < |met| && met[i] == e;
    var j :| 0 <= j < |met| && met[j] == f;
    assert rows[i] == rows[j];
  }

  lemma DistinctRowsDiffer(g: Graph, targets: set<NodeId>, met: seq<Edge>, rows: seq<Row>)
    requires WellFormed(g) && AskedOnce(TableOf(g.nodes), Elems(g.edges), DocLinks, targets, met)
    requires RowsFor(TableOf(g.nodes), met, rows)
    ensures Distinct(rows) <==> LinksDiffer(Elems(g.edges), targets)
  {
    if !LinksDiffer(Elems(g.edges), targets) {
      var e, f :| e in Elems(g.edges) && f in Elems(g.edges) && Asked(DocLinks, targets, e)
                  && Asked(DocLinks, targets, f) && e.from == f.from && NameOf(e.to) == NameOf(f.to)
                  && PathOf(e.to) == PathOf(f.to) && e != f;
      AlikeRows(g, e, f);
      EqualRowsAt(TableOf(g.nodes), met, rows, e, f);
    } else {
      forall i, j | 0 <= i < j < |rows| ensures rows[i] != rows[j] {
        assert met[i] in met && met[j] in met && met[i] != met[j];
        AlikeRows(g, met[i], met[j]);
      }
    }
  }

  /** The rows about documents are distinct exactly when no two links asked for look alike. */
  lemma DocumentRowsDistinct(g: Graph, targets: set<NodeId>, rows: seq<Row>)
    requires WellFormed(g) && RowPerEdge(TableOf(g.nodes), Elems(g.edges), DocLinks, targets, rows)
    ensures Distinct(rows) <==> LinksDiffer(Elems(g.edges), targets)
  {
    var met :| AskedOnce(TableOf(g.nodes), Elems(g.edges), DocLinks, targets, met)
               && RowsFor(TableOf(g.nodes), met, rows);
    DistinctRowsDiffer(g, targets, met, rows);
  }

  // The same, told from the files and the query.

  ghost predicate Resolved(repo: Repo, cap: nat, name: string) {
    DefTotal(repo, repo.Keys, name) <= cap
  }

  /** Some file defines this name at both lines. */
  ghost predicate DefinedAtBoth(repo: Repo, name: string, k: nat, l: nat) {
    exists p :: HasSymbol(ContentAt(repo, p), name, k) && HasSymbol(ContentAt(repo, p), name, l)
  }

  /** No name that a document mentions, the query means and the cap lets through is defined at two lines of a file. */
  ghost predicate DefinedOncePerFile(repo: Repo, cap: nat, lower: string -> string, symbol: string, exact: bool) {
    forall d, name, k, l ::
      name in MentionsOf(ContentAt(repo, d)) && NameMatches(lower(name), lower(symbol), exact)
      && Resolved(repo, cap, name) && DefinedAtBoth(repo, name, k, l)
      ==> k == l
  }

  function MentionsOf(c: FileContent): seq<string> { if c.Doc? then c.mentions else [] }

  function LinkOf(d: Path, p: Path, name: string, line: nat): Edge {
    Edge(Documents, DocId(d), SymbolId(p, name, line), Some(d), None)
  }

  /** The links asked for are those of a mentioned and meant name within the cap to each of its definitions. */
  lemma LinkAskedExactly(g: Graph, repo: Repo, cap: nat, lower: string -> string, symbol: string, exact: bool, d: Path,
                         p: Path, name: string, line: nat)
    requires Mirrors(g, repo, cap)
    ensures var e := LinkOf(d, p, name, line);
            e in g.edges && Asked(DocLinks, Ids(GraphSymbolLookup(g, lower, symbol, exact)), e) <==>
            && name in MentionsOf(ContentAt(repo, d)) && NameMatches(lower(name), lower(symbol), exact)
            && Resolved(repo, cap, name) && HasSymbol(ContentAt(repo, p), name, line)
  {
    var e := LinkOf(d, p, name, line);
    assert e in g.edges <==> Denotes(repo, cap, e);
    MeantTarget(g, lower, symbol, exact, e.to);
  }

  lemma MeantTarget(g: Graph, lower: string -> string, symbol: string, exact: bool, id: NodeId)
    requires WellFormed(g) && id.SymbolId?
    ensures id in Ids(GraphSymbolLookup(g, lower, symbol, exact)) <==>
            id in Ids(g.nodes) && NameMatches(lower(id.name), lower(symbol), exact)
  {
    if id in Ids(g.nodes) {
      var n :| n in g.nodes && n.id == id;
      assert NodeOk(n) && n.kind == SymbolNode && n.name == id.name;
    }
  }

  lemma DefinedTwiceAlike(g: Graph, repo: Repo, cap: nat, lower: string -> string, symbol: string, exact: bool,
                          d: Path, name: string, k: nat, l: nat)
    requires Mirrors(g, repo, cap)
    requires LinksDiffer(Elems(g.edges), Ids(GraphSymbolLookup(g, lower, symbol, exact)))
    requires name in MentionsOf(ContentAt(repo, d)) && NameMatches(lower(name), lower(symbol), exact)
    requires Resolved(repo, cap, name) && DefinedAtBoth(repo, name, k, l)
    ensures k == l
  {
    var p :| HasSymbol(ContentAt(repo, p), name, k) && HasSymbol(ContentAt(repo, p), name, l);
    LinkAskedExactly(g, repo, cap, lower, symbol, exact, d, p, name, k);
    LinkAskedExactly(g, repo, cap, lower, symbol, exact, d, p, name, l);
    assert LinkOf(d, p, name, k) in Elems(g.edges) && LinkOf(d, p, name, l) in Elems(g.edges);
  }

  lemma AlikeDefinedTwice(g: Graph, repo: Repo, cap: nat, lower: string -> string, symbol: string, exact: bool,
                          e: Edge, f: Edge)
    requires Mirrors(g, repo, cap) && DefinedOncePerFile(repo, cap, lower, symbol, exact)
    requires e in g.edges && Asked(DocLinks, Ids(GraphSymbolLookup(g, lower, symbol, exact)), e)
    requires f in g.edges && Asked(DocLinks, Ids(GraphSymbolLookup(g, lower, symbol, exact)), f)
    requires e.from == f.from && NameOf(e.to) == NameOf(f.to) && PathOf(e.to) == PathOf(f.to)
    ensures e == f
  {
    assert EdgeOk(e) && EdgeOk(f);
    var d, p, name := e.from.path, e.to.path, e.to.name;
    assert e == LinkOf(d, p, name, e.to.line) && f == LinkOf(d, p, name, f.to.line);
    LinkAskedExactly(g, repo, cap, lower, symbol, exact, d, p, name, e.to.line);
    LinkAskedExactly(g, repo, cap, lower, symbol, exact, d, p, name, f.to.line);
    assert DefinedAtBoth(repo, name, e.to.line, f.to.line);
  }

  lemma LinksDifferExactly(g: Graph, repo: Repo, cap: nat, lower: string -> string, symbol: string, exact: bool)
    requires Mirrors(g, repo, cap)
    ensures LinksDiffer(Elems(g.edges), Ids(GraphSymbolLookup(g, lower, symbol, exact))) <==>
            DefinedOncePerFile(repo, cap, lower, symbol, exact)
  {
    var targets := Ids(GraphSymbolLookup(g, lower, symbol, exact));
    if LinksDiffer(Elems(g.edges), targets) {
      forall d, name, k, l | name in MentionsOf(ContentAt(repo, d)) && NameMatches(lower(name), lower(symbol), exact)
                             && Resolved(repo, cap, name) && DefinedAtBoth(repo, name, k, l)
        ensures k == l
      {
        DefinedTwiceAlike(g, repo, cap, lower, symbol, exact, d, name, k, l);
      }
    }
    if DefinedOncePerFile(repo, cap, lower, symbol, exact) {
      forall e, f | e in Elems(g.edges) && f in Elems(g.edges) && Asked(DocLinks, targets, e)
                    && Asked(DocLinks, targets, f) && e.from == f.from && NameOf(e.to) == NameOf(f.to)
                    && PathOf(e.to) == PathOf(f.to)
        ensures e == f
      {
        AlikeDefinedTwice(g, repo, cap, lower, symbol, exact, e, f);
      }
    }
  }

  /** The rows about documents are distinct exactly when no name asked for is defined twice in a file. */
  lemma DocumentRowsDistinctIn(g: Graph, repo: Repo, cap: nat, lower: string -> string, symbol: string, exact: bool,
                               rows: seq<Row>)
    requires Mirrors(g, repo, cap)
    requires ScanResult(TableOf(g.nodes), Elems(g.edges), DocLinks, Ids(GraphSymbolLookup(g, lower, symbol, exact)),
                        rows)
    ensures Distinct(rows) <==> DefinedOncePerFile(repo, cap, lower, symbol, exact)
  {
    DocumentRowsDistinct(g, Ids(GraphSymbolLookup(g, lower, symbol, exact)), rows);
    LinksDifferExactly(g, repo, cap, lower, symbol, exact);
  }

  // A document that mentions a name defined twice in one file has two links and two equal rows.

  const TWICE: Repo := map["a.rs" := Source("rust", [], [Symbol("f", "function", 1, "f", []),
                                                         Symbol("f", "function", 9, "f", [])]),
                           "d.md" := Doc(["f"])]

  lemma TwiceCounts()
    ensures DefTotal(TWICE, TWICE.Keys, "f") == 2
  {
    var f := DefCountAt(TWICE, "f");
    FilterUniform(HasName("f"), SymbolsIn(TWICE["a.rs"]), true);
    SumSplit({"a.rs"}, {"d.md"}, f);
    SumOne("a.rs", f);
    SumOne("d.md", f);
    assert TWICE.Keys == {"a.rs"} + {"d.md"};
  }

  lemma TwiceDefined()
    ensures DefinedAtBoth(TWICE, "f", 1, 9) && "f" in MentionsOf(ContentAt(TWICE, "d.md"))
  {
    var symbols := SymbolsIn(TWICE["a.rs"]);
    assert symbols[0] in symbols && symbols[1] in symbols;
    assert HasSymbol(ContentAt(TWICE, "a.rs"), "f", 1) && HasSymbol(ContentAt(TWICE, "a.rs"), "f", 9);
  }

  lemma TwiceIsNotOnce(repo: Repo, cap: nat, lower: string -> string, name: string, d: Path, k: nat, l: nat)
    requires name in MentionsOf(ContentAt(repo, d)) && Resolved(repo, cap, name) && k != l
    requires DefinedAtBoth(repo, name, k, l)
    ensures !DefinedOncePerFile(repo, cap, lower, name, true)
  {
    assert NameMatches(lower(name), lower(name), true);
  }

  /** The rows about documents do repeat. */
  lemma DocumentRowsRepeat(g: Graph, cap: nat, lower: string -> string, rows: seq<Row>)
    requires cap >= 2 && Mirrors(g, TWICE, cap)
    requires ScanResult(TableOf(g.nodes), Elems(g.edges), DocLinks, Ids(GraphSymbolLookup(g, lower, "f", true)), rows)
    ensures !Distinct(rows)
  {
    TwiceCounts();
    TwiceDefined();
    TwiceIsNotOnce(TWICE, cap, lower, "f", "d.md", 1, 9);
    DocumentRowsDistinctIn(g, TWICE, cap, lower, "f", true, rows);
  }
}
