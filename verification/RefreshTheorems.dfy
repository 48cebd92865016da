/** When patching the requested files gives the graph a full rebuild would give. */
module RefreshTheorems {
  import opened Prelude
  import opened RepoTypes
  import opened GraphParts
  import opened GraphMeaning
  import opened BuildTheorems
  import opened GraphRefresh

  ghost predicate OnlyChanged(pre: Repo, post: Repo, requested: set<Path>) {
    forall p :: p !in requested ==> ContentAt(pre, p) == ContentAt(post, p)
  }

  /** The files a refresh leaves alone. */
  ghost function Rest(pre: Repo, post: Repo, requested: set<Path>): set<Path> {
    pre.Keys + post.Keys - requested
  }

  /** What the cap is compared with for a name: definitions in files left alone (all pushed, and distinct), and
      definitions in requested files, before and after. */
  datatype Tally = Tally(kept: nat, distinct: nat, gone: nat, added: nat) {
    ghost predicate Before(cap: nat) { kept + gone <= cap }
    ghost predicate After(cap: nat) { kept + added <= cap }
    ghost predicate AfterPatch(cap: nat) { distinct + added <= cap }

    /** No reference to the name, from a file left alone or from a requested one, gains an edge a rebuild has not. */
    ghost predicate InventsNothing(cap: nat, requested: bool) {
      if requested then kept + added > 0 && AfterPatch(cap) ==> After(cap)
      else
        && (kept > 0 && Before(cap) ==> After(cap))
        && (added > 0 && Before(cap) && gone > 0 && AfterPatch(cap) ==> After(cap))
    }

    /** No reference to the name lacks an edge a rebuild has; requested files never do. */
    ghost predicate LosesNothing(cap: nat, requested: bool) {
      !requested && After(cap) ==> (kept > 0 ==> Before(cap)) && (added > 0 ==> Before(cap) && gone > 0)
    }
  }

  ghost function TallyOf(pre: Repo, post: Repo, requested: set<Path>, name: string): Tally {
    var rest := Rest(pre, post, requested);
    Tally(DefTotal(pre, rest, name), |DefsIn(pre, rest, name)|, DefTotal(pre, requested, name),
          DefTotal(post, requested, name))
  }

  /** The file mentions the name, in a call or in a document. */
  ghost predicate Mentions(c: FileContent, name: string) {
    || (c.Doc? && name in c.mentions)
    || exists s, k :: s in SymbolsIn(c) && k in s.calls && k.name == name
  }

  // Counting definitions.

  lemma DefsInMember(repo: Repo, files: set<Path>, name: string, id: NodeId)
    ensures id in DefsIn(repo, files, name) <==>
            id.SymbolId? && id.name == name && id.path in files && Declares(repo, id)
  {
  }

  lemma SomeDefinition(repo: Repo, files: set<Path>, name: string)
    ensures DefTotal(repo, files, name) > 0 <==> DefsIn(repo, files, name) != {}
  {
    SumZero(files, DefCountAt(repo, name));
    if p :| p in files && DefCountAt(repo, name)(p) > 0 {
      var defs := Filter(HasName(name), SymbolsIn(ContentAt(repo, p)));
      assert defs[0] in defs;
      assert SymbolId(p, name, defs[0].line) in DefsIn(repo, files, name);
    }
    if id :| id in DefsIn(repo, files, name) {
      var p, s :| p in files && s in SymbolsIn(ContentAt(repo, p)) && s.name == name && id == SymbolId(p, name, s.line);
      assert s in Filter(HasName(name), SymbolsIn(ContentAt(repo, p)));
      assert DefCountAt(repo, name)(p) > 0;
    }
  }

  lemma WholeTotal(repo: Repo, files: set<Path>, name: string)
    requires repo.Keys <= files
    ensures DefTotal(repo, repo.Keys, name) == DefTotal(repo, files, name)
  {
    SumSplit(repo.Keys, files - repo.Keys, DefCountAt(repo, name));
    assert repo.Keys + (files - repo.Keys) == files;
    SumZero(files - repo.Keys, DefCountAt(repo, name));
  }

  /** The two builds compare the cap with what is kept plus what is gone, or plus what is added. */
  lemma TotalsOf(pre: Repo, post: Repo, requested: set<Path>, name: string)
    requires OnlyChanged(pre, post, requested)
    ensures var t := TallyOf(pre, post, requested, name);
            && DefTotal(pre, pre.Keys, name) == t.kept + t.gone
            && DefTotal(post, post.Keys, name) == t.kept + t.added
  {
    var rest := Rest(pre, post, requested);
    WholeTotal(pre, rest + requested, name);
    WholeTotal(post, rest + requested, name);
    SumSplit(rest, requested, DefCountAt(pre, name));
    SumSplit(rest, requested, DefCountAt(post, name));
    SumSame(rest, DefCountAt(pre, name), DefCountAt(post, name));
  }

  // The nodes of a patched graph.

  lemma {:induction false} FilterUnique(keep: Node -> bool, nodes: seq<Node>)
    requires UniqueIds(nodes)
    ensures UniqueIds(Filter(keep, nodes))
  {
    if nodes != [] {
      FilterUnique(keep, nodes[..|nodes| - 1]);
      forall n | n in nodes[..|nodes| - 1] ensures n.id != nodes[|nodes| - 1].id {
        var i :| 0 <= i < |nodes| - 1 && nodes[i] == n;
      }
    }
  }

  lemma {:induction false} DefsDistinct(nodes: seq<Node>, name: string)
    requires UniqueIds(nodes)
    ensures Distinct(DefsNamed(nodes, name))
  {
    if nodes != [] {
      var rest, last := nodes[..|nodes| - 1], nodes[|nodes| - 1];
      DefsDistinct(rest, name);
      FlatMapMember(Named(name), rest, last.id);
    }
  }

  lemma KeptNodeIds(g: Graph, pre: Repo, cap: nat, requested: set<Path>, id: NodeId)
    requires Mirrors(g, pre, cap)
    ensures id in RemovedIds(g.nodes, requested) <==> id in Ids(g.nodes) && !id.ModuleId? && id.path in requested
    ensures id in Ids(Filter(KeepsNode(RemovedIds(g.nodes, requested)), g.nodes)) <==>
            id in Ids(g.nodes) && (id.ModuleId? || id.path !in requested)
  {
  }

  lemma PatchedIds(g: Graph, pre: Repo, post: Repo, requested: seq<Path>, cap: nat, id: NodeId)
    requires Mirrors(g, pre, cap) && OnlyChanged(pre, post, Elems(requested))
    ensures id in Ids(PatchedNodes(g, post, requested)) <==>
            if id.ModuleId? then Declares(post, id) || id in Ids(g.nodes) else Declares(post, id)
  {
    var kept := Filter(KeepsNode(RemovedIds(g.nodes, Elems(requested))), g.nodes);
    var pushed := FlatMap(NodesAt(post), requested);
    assert Ids(kept + pushed) == Ids(kept) + Ids(pushed);
    KeptNodeIds(g, pre, cap, Elems(requested), id);
    IdsMember(post, requested, id);
    forall p | p in requested { IdMember(post, p, id); }
    if id.ModuleId? {
      if Declares(post, id) {
        var p :| p in post && post[p].Source? && id.name in post[p].imports;
        if p in requested {
          assert id in Ids(NodesAt(post)(p));
        } else {
          assert ContentAt(pre, p) == post[p];
          assert Declares(pre, id);
        }
      }
    } else if id.path in requested {
      assert id in Ids(NodesAt(post)(id.path)) <==> Declares(post, id);
    } else {
      assert ContentAt(pre, id.path) == ContentAt(post, id.path);
    }
  }

  lemma PatchedNodesOk(g: Graph, repo: Repo, requested: seq<Path>)
    requires WellFormed(g)
    ensures forall n :: n in PatchedNodes(g, repo, requested) ==> NodeOk(n)
  {
    forall n | n in FlatMap(NodesAt(repo), requested)
      ensures NodeOk(n)
    {
      FlatMapMember(NodesAt(repo), requested, n);
      var p :| p in requested && n in NodesAt(repo)(p);
      NodeMember(repo, p, n);
    }
  }

  /** The kept definitions of a name are those in files left alone. */
  lemma KeptDefs(g: Graph, pre: Repo, post: Repo, requested: set<Path>, cap: nat, name: string)
    requires Mirrors(g, pre, cap) && OnlyChanged(pre, post, requested)
    ensures var kept := Filter(KeepsNode(RemovedIds(g.nodes, requested)), g.nodes);
            Elems(DefsNamed(kept, name)) == DefsIn(pre, Rest(pre, post, requested), name)
  {
    var kept := Filter(KeepsNode(RemovedIds(g.nodes, requested)), g.nodes);
    forall id
      ensures id in DefsNamed(kept, name) <==> id in DefsIn(pre, Rest(pre, post, requested), name)
    {
      DefsMember(kept, name, id);
      KeptNodeIds(g, pre, cap, requested, id);
      DefsInMember(pre, Rest(pre, post, requested), name, id);
    }
  }

  /** The patched index holds each kept definition once and each patched one as often as it was pushed. */
  lemma PatchedDefs(g: Graph, pre: Repo, post: Repo, requested: seq<Path>, cap: nat, name: string)
    requires Mirrors(g, pre, cap) && OnlyChanged(pre, post, Elems(requested)) && Distinct(requested)
    ensures var t := TallyOf(pre, post, Elems(requested), name);
            |DefsNamed(PatchedNodes(g, post, requested), name)| == t.distinct + t.added
  {
    var keep := KeepsNode(RemovedIds(g.nodes, Elems(requested)));
    var kept := Filter(keep, g.nodes);
    DefsAppend(kept, FlatMap(NodesAt(post), requested), name);
    IndexedTotal(post, requested, name);
    assert |Elems(DefsNamed(kept, name))| == |DefsNamed(kept, name)| by {
      FilterUnique(keep, g.nodes);
      DefsDistinct(kept, name);
      DistinctCount(DefsNamed(kept, name));
    }
    KeptDefs(g, pre, post, Elems(requested), cap, name);
  }

  // The edges of a patched graph.

  /** The edges a patched graph holds, reference by reference. */
  ghost predicate PatchDenotes(pre: Repo, post: Repo, requested: set<Path>, cap: nat, e: Edge) {
    || LocalEdge(post, e)
    || (Refers(post, e) && Declares(post, e.to)
        && var t := TallyOf(pre, post, requested, e.to.name);
           if e.path.value in requested then t.AfterPatch(cap)
           else t.Before(cap) && (e.to.path in requested ==> t.gone > 0 && t.AfterPatch(cap)))
  }

  /** Each reference from a file left alone is bound again when it was bound and one of its targets went. */
  ghost predicate Rebound(pre: Repo, post: Repo, requested: set<Path>, cap: nat, e: Edge) {
    && Refers(pre, e) && e.path.value !in requested
    && var t := TallyOf(pre, post, requested, e.to.name);
       t.Before(cap) && t.gone > 0
  }

  lemma KeptEdgeMember(g: Graph, pre: Repo, cap: nat, requested: set<Path>, e: Edge)
    requires Mirrors(g, pre, cap)
    ensures e in Filter(KeepsEdge(requested, RemovedIds(g.nodes, requested)), g.edges) <==>
            Denotes(pre, cap, e) && e.path.value !in requested && (e.to.ModuleId? || e.to.path !in requested)
  {
  }

  ghost predicate SameReference(e: Edge, was: Edge) {
    && EdgeOk(e) && EdgeOk(was) && (e.kind == Calls || e.kind == Documents)
    && was == e.(to := was.to) && was.to.name == e.to.name
  }

  lemma ReferenceDenoted(repo: Repo, cap: nat, e: Edge, was: Edge)
    requires SameReference(e, was)
    ensures Denotes(repo, cap, was) <==>
            Refers(repo, e) && Declares(repo, was.to) && DefTotal(repo, repo.Keys, e.to.name) <= cap
  {
  }

  /** An old edge to a removed target comes from a reference that is bound again. */
  lemma RemovedTarget(g: Graph, pre: Repo, post: Repo, cap: nat, requested: set<Path>, e: Edge, was: Edge)
    requires Mirrors(g, pre, cap) && OnlyChanged(pre, post, requested) && SameReference(e, was)
    requires was in g.edges && Unrequested(requested, was) && was.to in RemovedIds(g.nodes, requested)
    ensures Rebound(pre, post, requested, cap, e)
  {
    KeptNodeIds(g, pre, cap, requested, was.to);
    ReferenceDenoted(pre, cap, e, was);
    TotalsOf(pre, post, requested, e.to.name);
    DefsInMember(pre, requested, e.to.name, was.to);
    SomeDefinition(pre, requested, e.to.name);
  }

  /** A reference that is bound again had an old edge to some removed target. */
  lemma SomeRemovedTarget(g: Graph, pre: Repo, post: Repo, cap: nat, requested: set<Path>, e: Edge) returns (was: Edge)
    requires Mirrors(g, pre, cap) && OnlyChanged(pre, post, requested)
    requires EdgeOk(e) && (e.kind == Calls || e.kind == Documents) && Rebound(pre, post, requested, cap, e)
    ensures SameReference(e, was) && was in g.edges && Unrequested(requested, was)
    ensures was.from !in RemovedIds(g.nodes, requested) && was.to in RemovedIds(g.nodes, requested)
  {
    SomeDefinition(pre, requested, e.to.name);
    var target :| target in DefsIn(pre, requested, e.to.name);
    was := e.(to := target);
    DefsInMember(pre, requested, e.to.name, target);
    ReferenceDenoted(pre, cap, e, was);
    TotalsOf(pre, post, requested, e.to.name);
    KeptNodeIds(g, pre, cap, requested, was.from);
    KeptNodeIds(g, pre, cap, requested, was.to);
  }

  lemma ReboundReference(requested: set<Path>, removed: set<NodeId>, e: Edge, was: Edge)
    requires EdgeOk(was) && e.path.Some? && e.to.SymbolId?
    requires (e.kind == Calls && e.line.Some?) || (e.kind == Documents && e.line == None)
    ensures var rebound := && SameReference(e, was) && Unrequested(requested, was)
                           && was.from !in removed && was.to in removed;
            && (e.kind == Calls ==>
                  (PendingCall(e.from, e.to.name, e.path.value, e.line.value) in ReboundCall(requested, removed)(was)
                   <==> rebound))
            && (e.kind == Documents ==>
                  (PendingLink(e.from, e.path.value, e.to.name) in ReboundLink(requested, removed)(was) <==> rebound))
  {
  }

  lemma ReboundCallMember(g: Graph, pre: Repo, post: Repo, cap: nat, requested: set<Path>, e: Edge)
    requires Mirrors(g, pre, cap) && OnlyChanged(pre, post, requested)
    requires e.kind == Calls && e.path.Some? && e.to.SymbolId? && e.line.Some?
    ensures PendingCall(e.from, e.to.name, e.path.value, e.line.value)
              in FlatMap(ReboundCall(requested, RemovedIds(g.nodes, requested)), g.edges)
            <==> Rebound(pre, post, requested, cap, e)
  {
    var k := PendingCall(e.from, e.to.name, e.path.value, e.line.value);
    var f := ReboundCall(requested, RemovedIds(g.nodes, requested));
    FlatMapMember(f, g.edges, k);
    if k in FlatMap(f, g.edges) {
      var was :| was in g.edges && k in f(was);
      ReboundReference(requested, RemovedIds(g.nodes, requested), e, was);
      RemovedTarget(g, pre, post, cap, requested, e, was);
    }
    if Rebound(pre, post, requested, cap, e) {
      var was := SomeRemovedTarget(g, pre, post, cap, requested, e);
      ReboundReference(requested, RemovedIds(g.nodes, requested), e, was);
    }
  }

  lemma ReboundLinkMember(g: Graph, pre: Repo, post: Repo, cap: nat, requested: set<Path>, e: Edge)
    requires Mirrors(g, pre, cap) && OnlyChanged(pre, post, requested)
    requires e.kind == Documents && e.path.Some? && e.to.SymbolId? && e.line == None
    ensures PendingLink(e.from, e.path.value, e.to.name)
              in FlatMap(ReboundLink(requested, RemovedIds(g.nodes, requested)), g.edges)
            <==> Rebound(pre, post, requested, cap, e)
  {
    var l := PendingLink(e.from, e.path.value, e.to.name);
    var f := ReboundLink(requested, RemovedIds(g.nodes, requested));
    FlatMapMember(f, g.edges, l);
    if l in FlatMap(f, g.edges) {
      var was :| was in g.edges && l in f(was);
      ReboundReference(requested, RemovedIds(g.nodes, requested), e, was);
      RemovedTarget(g, pre, post, cap, requested, e, was);
    }
    if Rebound(pre, post, requested, cap, e) {
      var was := SomeRemovedTarget(g, pre, post, cap, requested, e);
      ReboundReference(requested, RemovedIds(g.nodes, requested), e, was);
    }
  }

  lemma PatchedReached(g: Graph, pre: Repo, post: Repo, requested: seq<Path>, cap: nat, id: NodeId)
    requires Mirrors(g, pre, cap) && OnlyChanged(pre, post, Elems(requested)) && Distinct(requested)
    ensures Reached(PatchedNodes(g, post, requested), cap, id) <==>
            id.SymbolId? && Declares(post, id) && TallyOf(pre, post, Elems(requested), id.name).AfterPatch(cap)
  {
    PatchedIds(g, pre, post, requested, cap, id);
    if id.SymbolId? {
      PatchedDefs(g, pre, post, requested, cap, id.name);
    }
  }

  /** The references pushed by a refresh: those of the requested files, and those bound again. */
  lemma PushedReference(g: Graph, pre: Repo, post: Repo, requested: seq<Path>, cap: nat, e: Edge)
    requires Mirrors(g, pre, cap) && OnlyChanged(pre, post, Elems(requested)) && Distinct(requested)
    ensures var paths := Elems(requested);
            var removed, nodes := RemovedIds(g.nodes, paths), PatchedNodes(g, post, requested);
            e in FlatMap(CallEdges(nodes, cap),
                         FlatMap(CallsAt(post), requested) + FlatMap(ReboundCall(paths, removed), g.edges))
              || e in FlatMap(LinkEdges(nodes, cap),
                              FlatMap(LinksAt(post), requested) + FlatMap(ReboundLink(paths, removed), g.edges))
            <==> Reached(nodes, cap, e.to)
                 && ((Refers(post, e) && e.path.value in requested) || Rebound(pre, post, paths, cap, e))
  {
    var paths := Elems(requested);
    var removed, nodes := RemovedIds(g.nodes, paths), PatchedNodes(g, post, requested);
    PatchedNodesOk(g, post, requested);
    CallEdgeMember(nodes, cap, FlatMap(CallsAt(post), requested) + FlatMap(ReboundCall(paths, removed), g.edges), e);
    LinkEdgeMember(nodes, cap, FlatMap(LinksAt(post), requested) + FlatMap(ReboundLink(paths, removed), g.edges), e);
    if e.path.Some? && e.to.SymbolId? {
      if e.kind == Calls && e.line.Some? {
        CallRefers(post, requested, e);
        ReboundCallMember(g, pre, post, cap, paths, e);
      } else if e.kind == Documents && e.line == None {
        LinkRefers(post, requested, e);
        ReboundLinkMember(g, pre, post, cap, paths, e);
      }
    }
  }

  /** For an edge in a file left alone, only the totals its target's name is judged by can change. */
  lemma EdgeLeftAlone(pre: Repo, post: Repo, requested: set<Path>, cap: nat, e: Edge)
    requires OnlyChanged(pre, post, requested) && EdgeOk(e) && e.path.value !in requested
    ensures LocalEdge(pre, e) <==> LocalEdge(post, e)
    ensures Refers(pre, e) <==> Refers(post, e)
    ensures Denotes(pre, cap, e) && (e.to.ModuleId? || e.to.path !in requested) <==>
            || LocalEdge(post, e)
            || (Refers(post, e) && e.to.path !in requested && Declares(post, e.to)
                && TallyOf(pre, post, requested, e.to.name).Before(cap))
  {
    assert ContentAt(pre, e.from.path) == ContentAt(post, e.from.path);
    assert LocalEdge(pre, e) <==> LocalEdge(post, e);
    assert Refers(pre, e) <==> Refers(post, e);
    if e.to.SymbolId? {
      TotalsOf(pre, post, requested, e.to.name);
      if e.to.path !in requested {
        assert ContentAt(pre, e.to.path) == ContentAt(post, e.to.path);
        assert Declares(pre, e.to) <==> Declares(post, e.to);
      }
    }
  }

  lemma PatchedEdgeMember(g: Graph, pre: Repo, post: Repo, requested: seq<Path>, cap: nat, e: Edge)
    requires Mirrors(g, pre, cap) && OnlyChanged(pre, post, Elems(requested)) && Distinct(requested)
    ensures e in PatchedEdges(g, post, requested, cap) <==> PatchDenotes(pre, post, Elems(requested), cap, e)
  {
    var paths := Elems(requested);
    KeptEdgeMember(g, pre, cap, paths, e);
    LocalMember(post, requested, e);
    PushedReference(g, pre, post, requested, cap, e);
    PatchedReached(g, pre, post, requested, cap, e.to);
    var kept := Filter(KeepsEdge(paths, RemovedIds(g.nodes, paths)), g.edges);
    if !EdgeOk(e) {
      assert e !in kept;
      assert !Refers(pre, e) && !Refers(post, e) && !LocalEdge(post, e);
    } else if e.path.value in paths {
      assert e !in kept;
      assert !Rebound(pre, post, paths, cap, e);
    } else {
      EdgeLeftAlone(pre, post, paths, cap, e);
    }
  }

  // Well-formedness is kept, whatever the graph said before.

  lemma PushedIds(repo: Repo, requested: seq<Path>, id: NodeId)
    requires if id.ModuleId? then
               exists p :: p in requested && ContentAt(repo, p).Source? && id.name in ContentAt(repo, p).imports
             else id.path in requested && Declares(repo, id)
    ensures id in Ids(FlatMap(NodesAt(repo), requested))
  {
    IdsMember(repo, requested, id);
    forall p | p in requested { IdMember(repo, p, id); }
    if !id.ModuleId? {
      assert id in Ids(NodesAt(repo)(id.path));
    }
  }

  lemma KeptIds(g: Graph, requested: set<Path>, id: NodeId)
    requires id in Ids(g.nodes) && id !in RemovedIds(g.nodes, requested)
    ensures id in Ids(Filter(KeepsNode(RemovedIds(g.nodes, requested)), g.nodes))
  {
  }

  lemma PatchedReferenceOk(g: Graph, repo: Repo, requested: seq<Path>, cap: nat, e: Edge)
    requires WellFormed(g)
    requires var paths := Elems(requested);
             var removed, nodes := RemovedIds(g.nodes, paths), PatchedNodes(g, repo, requested);
             || e in FlatMap(CallEdges(nodes, cap),
                             FlatMap(CallsAt(repo), requested) + FlatMap(ReboundCall(paths, removed), g.edges))
             || e in FlatMap(LinkEdges(nodes, cap),
                             FlatMap(LinksAt(repo), requested) + FlatMap(ReboundLink(paths, removed), g.edges))
    ensures EdgeOk(e) && e.to in Ids(PatchedNodes(g, repo, requested))
    ensures || e.from in Ids(FlatMap(NodesAt(repo), requested))
            || e.from in Ids(Filter(KeepsNode(RemovedIds(g.nodes, Elems(requested))), g.nodes))
  {
    var paths := Elems(requested);
    var removed, nodes := RemovedIds(g.nodes, paths), PatchedNodes(g, repo, requested);
    var calls, links := FlatMap(CallsAt(repo), requested), FlatMap(LinksAt(repo), requested);
    PatchedNodesOk(g, repo, requested);
    CallEdgeMember(nodes, cap, calls + FlatMap(ReboundCall(paths, removed), g.edges), e);
    LinkEdgeMember(nodes, cap, links + FlatMap(ReboundLink(paths, removed), g.edges), e);
    var was: Edge := e;
    if e.kind == Calls {
      var k := PendingCall(e.from, e.to.name, e.path.value, e.line.value);
      if k in calls {
        CallRefers(repo, requested, e);
        PushedIds(repo, requested, e.from);
        return;
      }
      FlatMapMember(ReboundCall(paths, removed), g.edges, k);
      was :| was in g.edges && k in ReboundCall(paths, removed)(was);
    } else {
      var l := PendingLink(e.from, e.path.value, e.to.name);
      if l in links {
        LinkRefers(repo, requested, e);
        PushedIds(repo, requested, e.from);
        return;
      }
      FlatMapMember(ReboundLink(paths, removed), g.edges, l);
      was :| was in g.edges && l in ReboundLink(paths, removed)(was);
    }
    ReboundReference(paths, removed, e, was);
    KeptIds(g, paths, e.from);
  }

  lemma PatchedEndpoints(g: Graph, repo: Repo, requested: seq<Path>, cap: nat, e: Edge)
    requires WellFormed(g) && e in PatchedEdges(g, repo, requested, cap)
    ensures EdgeOk(e)
    ensures var kept, pushed := Filter(KeepsNode(RemovedIds(g.nodes, Elems(requested))), g.nodes),
            FlatMap(NodesAt(repo), requested);
            && (e.from in Ids(kept) || e.from in Ids(pushed)) && (e.to in Ids(kept) || e.to in Ids(pushed))
  {
    var paths := Elems(requested);
    LocalMember(repo, requested, e);
    if e in Filter(KeepsEdge(paths, RemovedIds(g.nodes, paths)), g.edges) {
      KeptIds(g, paths, e.from);
      KeptIds(g, paths, e.to);
    } else if e in FlatMap(EdgesAt(repo), requested) {
      PushedIds(repo, requested, e.from);
      PushedIds(repo, requested, e.to);
    } else {
      PatchedReferenceOk(g, repo, requested, cap, e);
    }
  }

  lemma PatchKeepsWellFormed(r: Graph, g: Graph, repo: Repo, requested: seq<Path>, cap: nat)
    requires WellFormed(g) && IsPatch(r, g, repo, requested, cap)
    ensures WellFormed(r)
  {
    var kept, pushed := Filter(KeepsNode(RemovedIds(g.nodes, Elems(requested))), g.nodes),
        FlatMap(NodesAt(repo), requested);
    PatchedNodesOk(g, repo, requested);
    forall e | e in r.edges
      ensures EdgeOk(e) && e.from in Ids(r.nodes) && e.to in Ids(r.nodes)
    {
      assert e in Elems(r.edges);
      PatchedEndpoints(g, repo, requested, cap, e);
      IdsOfBoth(kept, pushed, e.from);
      IdsOfBoth(kept, pushed, e.to);
    }
  }

  lemma IdsOfBoth(a: seq<Node>, b: seq<Node>, id: NodeId)
    ensures id in Ids(a + b) <==> id in Ids(a) || id in Ids(b)
  {
  }

  // What a patched graph shares with a full rebuild.

  ghost predicate NothingInvented(pre: Repo, post: Repo, requested: set<Path>, cap: nat) {
    forall p, name :: Mentions(ContentAt(post, p), name)
      ==> TallyOf(pre, post, requested, name).InventsNothing(cap, p in requested)
  }

  ghost predicate NothingLost(pre: Repo, post: Repo, requested: set<Path>, cap: nat) {
    forall p, name :: Mentions(ContentAt(post, p), name)
      ==> TallyOf(pre, post, requested, name).LosesNothing(cap, p in requested)
  }

  lemma DefsStep(repo: Repo, files: set<Path>, p: Path, name: string)
    ensures DefsIn(repo, files, name) <=
            DefsIn(repo, files - {p}, name) +
                Elems(Map(DefinedAt(p), Filter(HasName(name), SymbolsIn(ContentAt(repo, p)))))
  {
    var named := Filter(HasName(name), SymbolsIn(ContentAt(repo, p)));
    forall q, s | q in files && s in SymbolsIn(ContentAt(repo, q)) && s.name == name
      ensures SymbolId(q, name, s.line) in DefsIn(repo, files - {p}, name) + Elems(Map(DefinedAt(p), named))
    {
      if q == p {
        MapMember(DefinedAt(p), named, SymbolId(p, name, s.line));
        assert s in named && SymbolId(p, name, s.line) == DefinedAt(p)(s);
      }
    }
  }

  lemma {:induction false} DistinctAtMost(repo: Repo, files: set<Path>, name: string)
    ensures |DefsIn(repo, files, name)| <= DefTotal(repo, files, name)
    decreases files
  {
    if files == {} {
      assert DefsIn(repo, files, name) == {};
    } else {
      var p :| p in files;
      var named := Filter(HasName(name), SymbolsIn(ContentAt(repo, p)));
      DistinctAtMost(repo, files - {p}, name);
      SumPick(files, DefCountAt(repo, name), p);
      MapAt(DefinedAt(p), named);
      AtMostLength(Map(DefinedAt(p), named));
      DefsStep(repo, files, p, name);
      AtMostUnion(DefsIn(repo, files, name), DefsIn(repo, files - {p}, name), Elems(Map(DefinedAt(p), named)));
    }
  }

  function DefinedAt(p: Path): Symbol -> NodeId { (s: Symbol) => SymbolId(p, s.name, s.line) }

  /** Some reference that makes a file mention a name, as an edge to any definition of the name. */
  lemma Referrer(repo: Repo, p: Path, name: string, target: NodeId) returns (e: Edge)
    requires Mentions(ContentAt(repo, p), name)
    requires target.SymbolId? && target.name == name
    ensures Refers(repo, e) && e.path == Some(p) && e.to == target
  {
    var c := ContentAt(repo, p);
    if c.Doc? && name in c.mentions {
      e := Edge(Documents, DocId(p), target, Some(p), None);
    } else {
      var s, k :| s in SymbolsIn(c) && k in s.calls && k.name == name;
      e := Edge(Calls, SymbolId(p, s.name, s.line), target, Some(p), Some(k.line));
      assert k == Call(name, k.line);
    }
  }

  lemma RefersMentions(repo: Repo, e: Edge)
    requires Refers(repo, e)
    ensures Mentions(ContentAt(repo, e.path.value), e.to.name) && e.to.SymbolId?
  {
  }

  /** Whether the target of a reference is kept or added. */
  lemma TargetCounts(pre: Repo, post: Repo, requested: set<Path>, id: NodeId)
    requires OnlyChanged(pre, post, requested) && id.SymbolId? && Declares(post, id)
    ensures var t := TallyOf(pre, post, requested, id.name);
            if id.path in requested then t.added > 0 else t.kept > 0
  {
    if id.path in requested {
      DefsInMember(post, requested, id.name, id);
      SomeDefinition(post, requested, id.name);
    } else {
      assert ContentAt(pre, id.path) == ContentAt(post, id.path);
      DefsInMember(pre, Rest(pre, post, requested), id.name, id);
      SomeDefinition(pre, Rest(pre, post, requested), id.name);
    }
  }

  lemma SomeTarget(pre: Repo, post: Repo, requested: set<Path>, name: string, added: bool) returns (id: NodeId)
    requires OnlyChanged(pre, post, requested)
    requires var t := TallyOf(pre, post, requested, name); if added then t.added > 0 else t.kept > 0
    ensures id.SymbolId? && id.name == name && Declares(post, id) && (id.path in requested <==> added)
  {
    if added {
      SomeDefinition(post, requested, name);
      id :| id in DefsIn(post, requested, name);
      DefsInMember(post, requested, name, id);
    } else {
      SomeDefinition(pre, Rest(pre, post, requested), name);
      id :| id in DefsIn(pre, Rest(pre, post, requested), name);
      DefsInMember(pre, Rest(pre, post, requested), name, id);
      assert ContentAt(pre, id.path) == ContentAt(post, id.path);
    }
  }

  lemma InventionShows(pre: Repo, post: Repo, requested: set<Path>, cap: nat, p: Path, name: string)
    requires OnlyChanged(pre, post, requested) && Mentions(ContentAt(post, p), name)
    requires forall e :: PatchDenotes(pre, post, requested, cap, e) ==> Denotes(post, cap, e)
    ensures TallyOf(pre, post, requested, name).InventsNothing(cap, p in requested)
  {
    TotalsOf(pre, post, requested, name);
    var t := TallyOf(pre, post, requested, name);
    if t.kept > 0 {
      var id := SomeTarget(pre, post, requested, name, false);
      var e := Referrer(post, p, name, id);
      assert PatchDenotes(pre, post, requested, cap, e) ==> Denotes(post, cap, e);
    }
    if t.added > 0 {
      var id := SomeTarget(pre, post, requested, name, true);
      var e := Referrer(post, p, name, id);
      assert PatchDenotes(pre, post, requested, cap, e) ==> Denotes(post, cap, e);
    }
  }

  /** The patched graph has no edge a rebuild has not, exactly when no mentioned name invents one. */
  lemma NothingInventedExactly(pre: Repo, post: Repo, requested: set<Path>, cap: nat)
    requires OnlyChanged(pre, post, requested)
    ensures (forall e :: PatchDenotes(pre, post, requested, cap, e) ==> Denotes(post, cap, e))
            <==> NothingInvented(pre, post, requested, cap)
  {
    if NothingInvented(pre, post, requested, cap) {
      forall e | PatchDenotes(pre, post, requested, cap, e)
        ensures Denotes(post, cap, e)
      {
        if !LocalEdge(post, e) {
          RefersMentions(post, e);
          TargetCounts(pre, post, requested, e.to);
          TotalsOf(pre, post, requested, e.to.name);
        }
      }
    }
    if forall e :: PatchDenotes(pre, post, requested, cap, e) ==> Denotes(post, cap, e) {
      forall p, name | Mentions(ContentAt(post, p), name)
        ensures TallyOf(pre, post, requested, name).InventsNothing(cap, p in requested)
      {
        InventionShows(pre, post, requested, cap, p, name);
      }
    }
  }

  lemma LossShows(pre: Repo, post: Repo, requested: set<Path>, cap: nat, p: Path, name: string)
    requires OnlyChanged(pre, post, requested) && Mentions(ContentAt(post, p), name)
    requires forall e :: Denotes(post, cap, e) ==> PatchDenotes(pre, post, requested, cap, e)
    ensures TallyOf(pre, post, requested, name).LosesNothing(cap, p in requested)
  {
    TotalsOf(pre, post, requested, name);
    var t := TallyOf(pre, post, requested, name);
    if t.kept > 0 {
      var id := SomeTarget(pre, post, requested, name, false);
      var e := Referrer(post, p, name, id);
      assert Denotes(post, cap, e) ==> PatchDenotes(pre, post, requested, cap, e);
    }
    if t.added > 0 {
      var id := SomeTarget(pre, post, requested, name, true);
      var e := Referrer(post, p, name, id);
      assert Denotes(post, cap, e) ==> PatchDenotes(pre, post, requested, cap, e);
    }
  }

  /** The patched graph lacks no edge of a rebuild exactly when no mentioned name loses one. */
  lemma NothingLostExactly(pre: Repo, post: Repo, requested: set<Path>, cap: nat)
    requires OnlyChanged(pre, post, requested)
    ensures (forall e :: Denotes(post, cap, e) ==> PatchDenotes(pre, post, requested, cap, e))
            <==> NothingLost(pre, post, requested, cap)
  {
    if NothingLost(pre, post, requested, cap) {
      forall e | Denotes(post, cap, e)
        ensures PatchDenotes(pre, post, requested, cap, e)
      {
        if !LocalEdge(post, e) {
          RefersMentions(post, e);
          TargetCounts(pre, post, requested, e.to);
          TotalsOf(pre, post, requested, e.to.name);
          DistinctAtMost(pre, Rest(pre, post, requested), e.to.name);
        }
      }
    }
    if forall e :: Denotes(post, cap, e) ==> PatchDenotes(pre, post, requested, cap, e) {
      forall p, name | Mentions(ContentAt(post, p), name)
        ensures TallyOf(pre, post, requested, name).LosesNothing(cap, p in requested)
      {
        LossShows(pre, post, requested, cap, p, name);
      }
    }
  }

  /** A refresh of a graph that mirrored the old files. */
  ghost predicate RefreshOf(r: Graph, g: Graph, pre: Repo, post: Repo, requested: seq<Path>, cap: nat) {
    && Mirrors(g, pre, cap) && OnlyChanged(pre, post, Elems(requested)) && Distinct(requested)
    && IsPatch(r, g, post, requested, cap)
  }

  lemma RefreshedEdge(r: Graph, g: Graph, pre: Repo, post: Repo, requested: seq<Path>, cap: nat, e: Edge)
    requires RefreshOf(r, g, pre, post, requested, cap)
    ensures e in r.edges <==> PatchDenotes(pre, post, Elems(requested), cap, e)
  {
    PatchedEdgeMember(g, pre, post, requested, cap, e);
    assert e in r.edges <==> e in Elems(r.edges);
    assert e in PatchedEdges(g, post, requested, cap) <==> e in Elems(PatchedEdges(g, post, requested, cap));
  }

  ghost predicate OnlyDenoted(r: Graph, repo: Repo, cap: nat) {
    forall e :: e in r.edges ==> Denotes(repo, cap, e)
  }

  ghost predicate AllDenoted(r: Graph, repo: Repo, cap: nat) {
    forall e :: Denotes(repo, cap, e) ==> e in r.edges
  }

  ghost predicate NodesMirror(r: Graph, repo: Repo) {
    && WellFormed(r)
    && (forall id :: Declares(repo, id) ==> id in Ids(r.nodes))
    && (forall id :: id in Ids(r.nodes) && !id.ModuleId? ==> Declares(repo, id))
  }

  lemma MirrorsWhen(r: Graph, repo: Repo, cap: nat)
    requires NodesMirror(r, repo)
    ensures Mirrors(r, repo, cap) <==> OnlyDenoted(r, repo, cap) && AllDenoted(r, repo, cap)
  {
  }

  lemma RefreshedEdges(r: Graph, g: Graph, pre: Repo, post: Repo, requested: seq<Path>, cap: nat)
    requires RefreshOf(r, g, pre, post, requested, cap)
    ensures OnlyDenoted(r, post, cap) <==> NothingInvented(pre, post, Elems(requested), cap)
    ensures AllDenoted(r, post, cap) <==> NothingLost(pre, post, Elems(requested), cap)
  {
    forall e ensures e in r.edges <==> PatchDenotes(pre, post, Elems(requested), cap, e) {
      RefreshedEdge(r, g, pre, post, requested, cap, e);
    }
    NothingInventedExactly(pre, post, Elems(requested), cap);
    NothingLostExactly(pre, post, Elems(requested), cap);
  }

  /** The nodes of a refreshed graph are always right, apart from modules nothing imports any more. */
  lemma RefreshedNodes(r: Graph, g: Graph, pre: Repo, post: Repo, requested: seq<Path>, cap: nat)
    requires RefreshOf(r, g, pre, post, requested, cap)
    ensures NodesMirror(r, post)
  {
    PatchKeepsWellFormed(r, g, post, requested, cap);
    forall id
      ensures Declares(post, id) ==> id in Ids(r.nodes)
      ensures id in Ids(r.nodes) && !id.ModuleId? ==> Declares(post, id)
    {
      PatchedIds(g, pre, post, requested, cap, id);
    }
  }

  /** A node that is left alone says the same of the new files, unless it is a module. */
  lemma StillDescribes(pre: Repo, post: Repo, requested: set<Path>, n: Node)
    requires OnlyChanged(pre, post, requested) && Describes(pre, n)
    requires n.path.Some? ==> n.path.value !in requested
    ensures n.id.ModuleId? || Describes(post, n)
  {
  }

  lemma PatchedDescribes(g: Graph, pre: Repo, post: Repo, requested: seq<Path>, n: Node)
    requires OnlyChanged(pre, post, Elems(requested)) && forall m :: m in g.nodes ==> Describes(pre, m)
    requires n in PatchedNodes(g, post, requested)
    ensures Describes(post, n) || (n.id.ModuleId? && Describes(pre, n))
  {
    var removed := RemovedIds(g.nodes, Elems(requested));
    if n in Filter(KeepsNode(removed), g.nodes) {
      assert KeepsNode(removed)(n);
      StillDescribes(pre, post, Elems(requested), n);
    } else {
      FlatMapMember(NodesAt(post), requested, n);
      var p :| p in requested && n in NodesAt(post)(p);
      NodeDescribes(post, p, n);
    }
  }

  /** Whatever a node of a refreshed graph says was reported of the new files, or, for a module, of the old ones. */
  lemma RefreshDescribes(r: Graph, g: Graph, pre: Repo, post: Repo, requested: seq<Path>, cap: nat)
    requires RefreshOf(r, g, pre, post, requested, cap) && forall n :: n in g.nodes ==> Describes(pre, n)
    ensures forall n :: n in r.nodes ==> Describes(post, n) || (n.id.ModuleId? && Describes(pre, n))
  {
    forall n | n in r.nodes ensures Describes(post, n) || (n.id.ModuleId? && Describes(pre, n)) {
      PatchedDescribes(g, pre, post, requested, n);
    }
  }

  /** A refresh and a rebuild agree on the edges exactly when no mentioned name invents or loses one. */
  lemma RefreshEqualsRebuild(r: Graph, g: Graph, pre: Repo, post: Repo, requested: seq<Path>, cap: nat)
    requires RefreshOf(r, g, pre, post, requested, cap)
    ensures OnlyDenoted(r, post, cap) <==> NothingInvented(pre, post, Elems(requested), cap)
    ensures AllDenoted(r, post, cap) <==> NothingLost(pre, post, Elems(requested), cap)
    ensures Mirrors(r, post, cap) <==>
            NothingInvented(pre, post, Elems(requested), cap) && NothingLost(pre, post, Elems(requested), cap)
  {
    RefreshedEdges(r, g, pre, post, requested, cap);
    RefreshedNodes(r, g, pre, post, requested, cap);
    MirrorsWhen(r, post, cap);
  }

  // A build walks the tree and leaves out working trees nested in it; a patch reads what is requested.

  /** What a walk sees of the files a patch sees: it may miss requested ones. */
  ghost predicate WalkOf(walked: Repo, post: Repo, requested: set<Path>) {
    forall p :: ContentAt(walked, p) == ContentAt(post, p) || (p in requested && ContentAt(walked, p).Untracked?)
  }

  ghost predicate SameContents(a: Repo, b: Repo) {
    forall p :: ContentAt(a, p) == ContentAt(b, p)
  }

  lemma SameDeclares(a: Repo, b: Repo, id: NodeId)
    requires SameContents(a, b)
    ensures Declares(a, id) <==> Declares(b, id)
  {
    forall p ensures p in a && a[p].Source? <==> p in b && b[p].Source? {
      assert ContentAt(a, p) == ContentAt(b, p);
    }
    if id.ModuleId? {
      forall p | p in a && a[p].Source? ensures p in b && a[p] == b[p] { assert ContentAt(a, p) == ContentAt(b, p); }
    } else {
      assert ContentAt(a, id.path) == ContentAt(b, id.path);
    }
  }

  lemma SameTotals(a: Repo, b: Repo, name: string)
    requires SameContents(a, b)
    ensures DefTotal(a, a.Keys, name) == DefTotal(b, b.Keys, name)
  {
    WholeTotal(a, a.Keys + b.Keys, name);
    WholeTotal(b, a.Keys + b.Keys, name);
    SumSame(a.Keys + b.Keys, DefCountAt(a, name), DefCountAt(b, name));
  }

  lemma SameDenotes(a: Repo, b: Repo, cap: nat, e: Edge)
    requires SameContents(a, b)
    ensures Denotes(a, cap, e) <==> Denotes(b, cap, e)
  {
    if EdgeOk(e) {
      assert ContentAt(a, e.from.path) == ContentAt(b, e.from.path);
      assert LocalEdge(a, e) <==> LocalEdge(b, e);
      assert Refers(a, e) <==> Refers(b, e);
      if Refers(a, e) {
        SameDeclares(a, b, e.to);
        SameTotals(a, b, e.to.name);
      }
    }
  }

  lemma SameNodes(r: Graph, a: Repo, b: Repo)
    requires SameContents(a, b)
    ensures NodesMirror(r, a) <==> NodesMirror(r, b)
  {
    forall id ensures Declares(a, id) <==> Declares(b, id) { SameDeclares(a, b, id); }
  }

  lemma SameMirrors(r: Graph, a: Repo, b: Repo, cap: nat)
    requires SameContents(a, b)
    ensures Mirrors(r, a, cap) <==> Mirrors(r, b, cap)
  {
    SameNodes(r, a, b);
    forall e ensures Denotes(a, cap, e) <==> Denotes(b, cap, e) { SameDenotes(a, b, cap, e); }
  }

  /** A graph with the nodes of what a patch sees has a node too many for each file the walk misses. */
  lemma MissedFile(r: Graph, walked: Repo, post: Repo, p: Path)
    requires NodesMirror(r, post) && ContentAt(walked, p).Untracked? && !ContentAt(post, p).Untracked?
    ensures !NodesMirror(r, walked)
  {
    var id := if ContentAt(post, p).Source? then FileId(p) else DocId(p);
    assert Declares(post, id) && !Declares(walked, id);
  }

  lemma MirrorsNodes(r: Graph, repo: Repo, cap: nat)
    ensures Mirrors(r, repo, cap) ==> NodesMirror(r, repo)
  {
  }

  lemma WalkMisses(r: Graph, post: Repo, walked: Repo, requested: set<Path>)
    requires NodesMirror(r, post) && WalkOf(walked, post, requested)
    ensures NodesMirror(r, walked) <==> SameContents(walked, post)
  {
    if SameContents(walked, post) {
      SameNodes(r, walked, post);
    } else {
      var p :| ContentAt(walked, p) != ContentAt(post, p);
      MissedFile(r, walked, post, p);
    }
  }

  lemma WalkMirrors(r: Graph, post: Repo, walked: Repo, requested: set<Path>, cap: nat)
    requires NodesMirror(r, post) && WalkOf(walked, post, requested)
    ensures Mirrors(r, walked, cap) <==> SameContents(walked, post) && Mirrors(r, post, cap)
  {
    WalkMisses(r, post, walked, requested);
    MirrorsNodes(r, walked, cap);
    if SameContents(walked, post) {
      SameMirrors(r, walked, post, cap);
    }
  }

  /** Against a rebuild that walks the tree, a refresh is right if besides the walk misses no requested file. */
  lemma RefreshedAgainstWalk(r: Graph, g: Graph, pre: Repo, post: Repo, walked: Repo, requested: seq<Path>, cap: nat)
    requires RefreshOf(r, g, pre, post, requested, cap) && WalkOf(walked, post, Elems(requested))
    ensures NodesMirror(r, walked) <==> SameContents(walked, post)
    ensures Mirrors(r, walked, cap) <==>
            && SameContents(walked, post)
            && NothingInvented(pre, post, Elems(requested), cap) && NothingLost(pre, post, Elems(requested), cap)
  {
    RefreshedNodes(r, g, pre, post, requested, cap);
    RefreshEqualsRebuild(r, g, pre, post, requested, cap);
    WalkMisses(r, post, walked, Elems(requested));
    WalkMirrors(r, post, walked, Elems(requested), cap);
  }

  /** While every mentioned name stays within the cap a refresh never invents an edge, whatever files add or drop. */
  lemma RefreshNeverInvents(r: Graph, g: Graph, pre: Repo, post: Repo, requested: seq<Path>, cap: nat)
    requires RefreshOf(r, g, pre, post, requested, cap)
    requires forall p, name :: Mentions(ContentAt(post, p), name) ==> DefTotal(post, post.Keys, name) <= cap
    ensures forall e :: e in r.edges ==> Denotes(post, cap, e)
  {
    forall p, name | Mentions(ContentAt(post, p), name)
      ensures TallyOf(pre, post, Elems(requested), name).InventsNothing(cap, p in Elems(requested))
    {
      TotalsOf(pre, post, Elems(requested), name);
    }
    RefreshEqualsRebuild(r, g, pre, post, requested, cap);
  }

  /** Names that a file left alone mentions and a requested file now defines were defined in a requested file before. */
  ghost predicate NoNewTargets(pre: Repo, post: Repo, requested: set<Path>) {
    forall p, name :: p !in requested && Mentions(ContentAt(post, p), name) && DefTotal(post, requested, name) > 0
      ==> DefTotal(pre, requested, name) > 0
  }

  ghost predicate WithinCap(mentioning: Repo, repo: Repo, cap: nat) {
    forall p, name :: Mentions(ContentAt(mentioning, p), name) ==> DefTotal(repo, repo.Keys, name) <= cap
  }

  /** Within the cap before and after, it is enough that no reference can find its first target in a requested file. */
  lemma RefreshMirrors(r: Graph, g: Graph, pre: Repo, post: Repo, requested: seq<Path>, cap: nat)
    requires RefreshOf(r, g, pre, post, requested, cap)
    requires WithinCap(post, pre, cap) && WithinCap(post, post, cap)
    requires NoNewTargets(pre, post, Elems(requested))
    ensures Mirrors(r, post, cap)
  {
    forall p, name | Mentions(ContentAt(post, p), name)
      ensures TallyOf(pre, post, Elems(requested), name).InventsNothing(cap, p in Elems(requested))
      ensures TallyOf(pre, post, Elems(requested), name).LosesNothing(cap, p in Elems(requested))
    {
      TotalsOf(pre, post, Elems(requested), name);
    }
    RefreshEqualsRebuild(r, g, pre, post, requested, cap);
  }

  /** Two graphs that mirror the same files differ only in modules that no edge touches. */
  lemma MirrorsAgree(r: Graph, b: Graph, repo: Repo, cap: nat)
    requires Mirrors(r, repo, cap) && MirrorsExactly(b, repo, cap)
    ensures Elems(r.edges) == Elems(b.edges) && Ids(b.nodes) <= Ids(r.nodes)
    ensures forall id :: id in Ids(r.nodes) - Ids(b.nodes)
              ==> id.ModuleId? && forall e :: e in r.edges ==> e.from != id && e.to != id
  {
  }

  // The agreement does fail. In both examples `a.rs` calls `f` and only `b.rs` changes.

  const CALLER := Source("rust", [], [Symbol("main", "function", 1, "a.rs::main", [Call("f", 2)])])
  const CALLEE := Source("rust", [], [Symbol("f", "function", 1, "f", [])])
  const EMPTY := Source("rust", [], [])

  const ONE_CALLER: Repo := map["a.rs" := CALLER, "b.rs" := EMPTY]
  const NOW_DEFINED: Repo := map["a.rs" := CALLER, "b.rs" := CALLEE]
  const ONE_DEFINITION: Repo := map["a.rs" := CALLER, "b.rs" := EMPTY, "c.rs" := CALLEE]
  const TWO_DEFINITIONS: Repo := map["a.rs" := CALLER, "b.rs" := CALLEE, "c.rs" := CALLEE]

  lemma ExampleCounts(repo: Repo)
    requires ContentAt(repo, "a.rs") == CALLER
    ensures Mentions(ContentAt(repo, "a.rs"), "f")
    ensures DefCount(CALLER, "f") == DefCount(EMPTY, "f") == 0 && DefCount(CALLEE, "f") == 1
  {
  }

  lemma TotalOne(repo: Repo, p: Path, name: string)
    ensures DefTotal(repo, {p}, name) == DefCount(ContentAt(repo, p), name)
  {
    SumOne(p, DefCountAt(repo, name));
  }

  lemma LossRest(requested: set<Path>)
    requires requested == {"b.rs"}
    ensures OnlyChanged(ONE_CALLER, NOW_DEFINED, requested)
    ensures Rest(ONE_CALLER, NOW_DEFINED, requested) == {"a.rs"}
  {
  }

  lemma LossExample(requested: set<Path>, cap: nat)
    requires requested == {"b.rs"} && cap > 0
    ensures OnlyChanged(ONE_CALLER, NOW_DEFINED, requested)
    ensures !TallyOf(ONE_CALLER, NOW_DEFINED, requested, "f").LosesNothing(cap, "a.rs" in requested)
  {
    LossRest(requested);
    ExampleCounts(NOW_DEFINED);
    TotalOne(ONE_CALLER, "a.rs", "f");
    TotalOne(ONE_CALLER, "b.rs", "f");
    TotalOne(NOW_DEFINED, "b.rs", "f");
  }

  lemma LossFollows(r: Graph, g: Graph, pre: Repo, post: Repo, requested: seq<Path>, cap: nat, p: Path,
                    name: string)
    requires Mirrors(g, pre, cap) && IsPatch(r, g, post, requested, cap)
    requires OnlyChanged(pre, post, Elems(requested)) && Distinct(requested) && Mentions(ContentAt(post, p), name)
    requires !TallyOf(pre, post, Elems(requested), name).LosesNothing(cap, p in Elems(requested))
    ensures RefreshOf(r, g, pre, post, requested, cap) && !AllDenoted(r, post, cap)
  {
    RefreshEqualsRebuild(r, g, pre, post, requested, cap);
  }

  lemma InventionFollows(r: Graph, g: Graph, pre: Repo, post: Repo, requested: seq<Path>, cap: nat, p: Path,
                         name: string)
    requires Mirrors(g, pre, cap) && IsPatch(r, g, post, requested, cap)
    requires OnlyChanged(pre, post, Elems(requested)) && Distinct(requested) && Mentions(ContentAt(post, p), name)
    requires !TallyOf(pre, post, Elems(requested), name).InventsNothing(cap, p in Elems(requested))
    ensures RefreshOf(r, g, pre, post, requested, cap) && !OnlyDenoted(r, post, cap)
  {
    RefreshEqualsRebuild(r, g, pre, post, requested, cap);
  }

  lemma LossHolds(requested: seq<Path>, cap: nat)
    requires requested == ["b.rs"] && cap > 0
    ensures OnlyChanged(ONE_CALLER, NOW_DEFINED, Elems(requested)) && Distinct(requested)
    ensures Mentions(ContentAt(NOW_DEFINED, "a.rs"), "f")
    ensures !TallyOf(ONE_CALLER, NOW_DEFINED, Elems(requested), "f").LosesNothing(cap, "a.rs" in Elems(requested))
  {
    assert Elems(requested) == {"b.rs"};
    LossExample(Elems(requested), cap);
    ExampleCounts(NOW_DEFINED);
  }

  /** A call keeps missing the function that a patched file begins to define. */
  lemma RefreshCanLose(r: Graph, g: Graph, cap: nat)
    requires cap > 0 && Mirrors(g, ONE_CALLER, cap) && IsPatch(r, g, NOW_DEFINED, ["b.rs"], cap)
    ensures RefreshOf(r, g, ONE_CALLER, NOW_DEFINED, ["b.rs"], cap) && !AllDenoted(r, NOW_DEFINED, cap)
  {
    LossHolds(["b.rs"], cap);
    LossFollows(r, g, ONE_CALLER, NOW_DEFINED, ["b.rs"], cap, "a.rs", "f");
  }

  lemma ExamplePair(repo: Repo)
    requires ContentAt(repo, "a.rs") == CALLER && ContentAt(repo, "c.rs") == CALLEE
    ensures DefTotal(repo, {"a.rs", "c.rs"}, "f") == 1
  {
    ExampleCounts(repo);
    var f := DefCountAt(repo, "f");
    SumSplit({"a.rs"}, {"c.rs"}, f);
    SumOne("a.rs", f);
    SumOne("c.rs", f);
    assert {"a.rs"} + {"c.rs"} == {"a.rs", "c.rs"};
  }

  lemma InventionRest(requested: set<Path>)
    requires requested == {"b.rs"}
    ensures OnlyChanged(ONE_DEFINITION, TWO_DEFINITIONS, requested)
    ensures Rest(ONE_DEFINITION, TWO_DEFINITIONS, requested) == {"a.rs", "c.rs"}
  {
  }

  lemma InventionExample(requested: set<Path>)
    requires requested == {"b.rs"}
    ensures OnlyChanged(ONE_DEFINITION, TWO_DEFINITIONS, requested)
    ensures !TallyOf(ONE_DEFINITION, TWO_DEFINITIONS, requested, "f").InventsNothing(1, "a.rs" in requested)
  {
    InventionRest(requested);
    ExampleCounts(TWO_DEFINITIONS);
    ExamplePair(ONE_DEFINITION);
    TotalOne(ONE_DEFINITION, "b.rs", "f");
    TotalOne(TWO_DEFINITIONS, "b.rs", "f");
  }

  lemma InventionHolds(requested: seq<Path>)
    requires requested == ["b.rs"]
    ensures OnlyChanged(ONE_DEFINITION, TWO_DEFINITIONS, Elems(requested)) && Distinct(requested)
    ensures Mentions(ContentAt(TWO_DEFINITIONS, "a.rs"), "f")
    ensures !TallyOf(ONE_DEFINITION, TWO_DEFINITIONS, Elems(requested), "f")
               .InventsNothing(1, "a.rs" in Elems(requested))
  {
    assert Elems(requested) == {"b.rs"};
    InventionExample(Elems(requested));
    ExampleCounts(TWO_DEFINITIONS);
  }

  /** A call keeps its edge when a patched file pushes the name over the cap. */
  lemma RefreshCanInvent(r: Graph, g: Graph)
    requires Mirrors(g, ONE_DEFINITION, 1) && IsPatch(r, g, TWO_DEFINITIONS, ["b.rs"], 1)
    ensures RefreshOf(r, g, ONE_DEFINITION, TWO_DEFINITIONS, ["b.rs"], 1) && !OnlyDenoted(r, TWO_DEFINITIONS, 1)
  {
    InventionHolds(["b.rs"]);
    InventionFollows(r, g, ONE_DEFINITION, TWO_DEFINITIONS, ["b.rs"], 1, "a.rs", "f");
  }

  // A file in a working tree nested in the root.

  const NESTED: Repo := map["sub/a.rs" := EMPTY]
  const UNWALKED: Repo := map["sub/a.rs" := Untracked]

  lemma NestedExample(requested: set<Path>)
    requires requested == {"sub/a.rs"}
    ensures OnlyChanged(map[], NESTED, requested) && WalkOf(UNWALKED, NESTED, requested)
  {
  }

  lemma MissedFollows(r: Graph, g: Graph, pre: Repo, post: Repo, walked: Repo, requested: seq<Path>, cap: nat, p: Path)
    requires RefreshOf(r, g, pre, post, requested, cap)
    requires ContentAt(walked, p).Untracked? && !ContentAt(post, p).Untracked?
    ensures !NodesMirror(r, walked)
  {
    RefreshedNodes(r, g, pre, post, requested, cap);
    MissedFile(r, walked, post, p);
  }

  /** A patch adds it, and a build does not. */
  lemma NestedPatchDiffers(r: Graph, g: Graph, cap: nat)
    requires Mirrors(g, map[], cap) && IsPatch(r, g, NESTED, ["sub/a.rs"], cap)
    ensures RefreshOf(r, g, map[], NESTED, ["sub/a.rs"], cap) && WalkOf(UNWALKED, NESTED, Elems(["sub/a.rs"]))
    ensures !NodesMirror(r, UNWALKED)
  {
    assert Elems(["sub/a.rs"]) == {"sub/a.rs"};
    NestedExample(Elems(["sub/a.rs"]));
    MissedFollows(r, g, map[], NESTED, UNWALKED, ["sub/a.rs"], cap, "sub/a.rs");
  }
}
