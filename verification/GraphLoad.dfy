/** What sanitising a loaded graph drops, and that it leaves a well-formed graph. */
module GraphLoad {
  import opened Prelude
  import opened RepoTypes
  import opened GraphBuilder
  import opened GraphMeaning
  import opened BuildTheorems
  import opened GraphRefresh
  import opened RefreshTheorems

  ghost predicate Tracked(trackable: Path -> bool, id: NodeId) {
    PathOf(id).Some? ==> trackable(PathOf(id).value)
  }

  ghost predicate TouchedBy(edges: seq<Edge>, id: NodeId) {
    exists e :: e in edges && (e.from == id || e.to == id)
  }

  lemma {:induction false} FilterDistinct(keep: Edge -> bool, edges: seq<Edge>)
    requires Distinct(edges)
    ensures Distinct(Filter(keep, edges))
  {
    if edges != [] {
      var rest, last := edges[..|edges| - 1], edges[|edges| - 1];
      FilterDistinct(keep, rest);
      forall e | e in rest ensures e != last {
        var i :| 0 <= i < |edges| - 1 && edges[i] == e;
      }
    }
  }

  /** A stored graph as it may be read back: well formed, but for edges that lack a node. */
  ghost predicate LooselyFormed(g: Graph) {
    && UniqueIds(g.nodes) && (forall n :: n in g.nodes ==> NodeOk(n))
    && Distinct(g.edges) && (forall e :: e in g.edges ==> EdgeOk(e))
  }

  lemma NodeStays(g: Graph, trackable: Path -> bool, id: NodeId)
    requires LooselyFormed(g)
    ensures id in NodeIds(Filter(OutsidePaths(UntrackedPaths(g, trackable)), g.nodes)) <==>
            id in Ids(g.nodes) && Tracked(trackable, id)
  {
  }

  /** Unless no path is skipped, exactly the edges stay both of whose nodes are there and tracked. */
  lemma SanitizedEdges(g: Graph, trackable: Path -> bool, e: Edge)
    requires LooselyFormed(g)
    ensures e in SanitizeLoadedGraph(g, trackable).edges <==>
            && e in g.edges
            && (UntrackedPaths(g, trackable) == {}
                || (e.from in Ids(g.nodes) && e.to in Ids(g.nodes)
                    && Tracked(trackable, e.from) && Tracked(trackable, e.to)))
  {
    var skipped := UntrackedPaths(g, trackable);
    if e in g.edges {
      NodeStays(g, trackable, e.from);
      NodeStays(g, trackable, e.to);
      if e.from in Ids(g.nodes) && Tracked(trackable, e.from) {
        var from :| from in g.nodes && from.id == e.from;
        assert NodeOk(from) && EdgeOk(e) && from.path == e.path;
        assert e.path.value !in skipped;
      }
    }
  }

  lemma NothingSkipped(g: Graph, trackable: Path -> bool, id: NodeId)
    requires LooselyFormed(g) && id in Ids(g.nodes)
    ensures UntrackedPaths(g, trackable) == {} ==> Tracked(trackable, id)
  {
    if !Tracked(trackable, id) {
      var n :| n in g.nodes && n.id == id;
      assert n.path.value in UntrackedPaths(g, trackable);
    }
  }

  /** Of a well-formed graph exactly the edges between tracked nodes stay, whether or not a path is skipped. */
  lemma SanitizedEdgesTracked(g: Graph, trackable: Path -> bool, e: Edge)
    requires WellFormed(g)
    ensures e in SanitizeLoadedGraph(g, trackable).edges <==>
            e in g.edges && Tracked(trackable, e.from) && Tracked(trackable, e.to)
  {
    SanitizedEdges(g, trackable, e);
    if e in g.edges && UntrackedPaths(g, trackable) == {} {
      NothingSkipped(g, trackable, e.from);
      NothingSkipped(g, trackable, e.to);
    }
  }

  /** When a path is skipped, exactly the tracked nodes stay that have a path or that an edge still touches. */
  lemma SanitizedNodes(g: Graph, trackable: Path -> bool, n: Node)
    requires LooselyFormed(g)
    ensures var s := SanitizeLoadedGraph(g, trackable);
            if UntrackedPaths(g, trackable) == {} then s == g
            else n in s.nodes <==>
                 n in g.nodes && Tracked(trackable, n.id) && (n.path.Some? || TouchedBy(s.edges, n.id))
  {
    var s, skipped := SanitizeLoadedGraph(g, trackable), UntrackedPaths(g, trackable);
    if n in g.nodes {
      assert NodeOk(n);
      assert n.id in EndpointIds(s.edges) <==> TouchedBy(s.edges, n.id);
    }
  }

  /** Whatever graph was stored: once a path is skipped, no edge lacks a node, and no node without a path an edge. */
  lemma SanitizeRepairs(g: Graph, trackable: Path -> bool)
    requires UntrackedPaths(g, trackable) != {}
    ensures var s := SanitizeLoadedGraph(g, trackable);
            && EndpointsPresent(s) && (forall n :: n in s.nodes ==> n.path.Some? || TouchedBy(s.edges, n.id))
            && s.counts == Recalculate(s.nodes, s.edges)
  {
    var s, skipped := SanitizeLoadedGraph(g, trackable), UntrackedPaths(g, trackable);
    var nodes := Filter(OutsidePaths(skipped), g.nodes);
    forall e | e in s.edges
      ensures e.from in Ids(s.nodes) && e.to in Ids(s.nodes)
    {
      forall id | id == e.from || id == e.to ensures id in Ids(s.nodes) {
        var n :| n in nodes && n.id == id;
        assert id in EndpointIds(s.edges);
        assert n in s.nodes;
      }
    }
    forall n | n in s.nodes ensures n.path.Some? || TouchedBy(s.edges, n.id) {
      assert n.id in EndpointIds(s.edges) <==> TouchedBy(s.edges, n.id);
    }
  }

  /** The edges of a loaded graph have their nodes exactly when a path was skipped or they had them before. */
  lemma SanitizeCloses(g: Graph, trackable: Path -> bool)
    ensures EndpointsPresent(SanitizeLoadedGraph(g, trackable)) <==>
            UntrackedPaths(g, trackable) != {} || EndpointsPresent(g)
  {
    if UntrackedPaths(g, trackable) != {} {
      SanitizeRepairs(g, trackable);
    }
  }

  lemma SanitizeKeepsLoose(g: Graph, trackable: Path -> bool)
    requires LooselyFormed(g)
    ensures LooselyFormed(SanitizeLoadedGraph(g, trackable))
  {
    var s, skipped := SanitizeLoadedGraph(g, trackable), UntrackedPaths(g, trackable);
    if skipped != {} {
      var nodes := Filter(OutsidePaths(skipped), g.nodes);
      FilterUnique(OutsidePaths(skipped), g.nodes);
      FilterUnique(HasPathOrIn(EndpointIds(s.edges)), nodes);
      FilterDistinct(InsideGraph(skipped, NodeIds(nodes)), g.edges);
    }
  }

  /** A loaded graph is well formed exactly when a path was skipped or the stored one was. */
  lemma SanitizeKeepsWellFormed(g: Graph, trackable: Path -> bool)
    requires LooselyFormed(g)
    ensures WellFormed(SanitizeLoadedGraph(g, trackable)) <==> UntrackedPaths(g, trackable) != {} || WellFormed(g)
  {
    SanitizeKeepsLoose(g, trackable);
    SanitizeCloses(g, trackable);
  }

  /** A second load changes nothing, whatever graph was stored. */
  lemma SanitizeIdempotent(g: Graph, trackable: Path -> bool)
    ensures var s := SanitizeLoadedGraph(g, trackable); SanitizeLoadedGraph(s, trackable) == s
  {
    var s := SanitizeLoadedGraph(g, trackable);
    assert UntrackedPaths(s, trackable) == {};
  }

  /** Every source file and document is tracked. */
  ghost predicate AllTracked(repo: Repo, trackable: Path -> bool) {
    forall p :: p in repo && !repo[p].Untracked? ==> trackable(p)
  }

  /** A graph that mirrors files all of which are tracked is loaded as it was saved. */
  lemma LoadKeepsMirror(g: Graph, repo: Repo, cap: nat, trackable: Path -> bool)
    requires Mirrors(g, repo, cap)
    requires AllTracked(repo, trackable)
    ensures SanitizeLoadedGraph(g, trackable) == g
  {
    forall n | n in g.nodes && n.path.Some? ensures trackable(n.path.value) {
      assert n.id in Ids(g.nodes) && NodeOk(n);
      assert Declares(repo, n.id);
    }
    assert UntrackedPaths(g, trackable) == {};
  }

  /** A load and a patch whose request covers what changed, with no mentioned name inventing or losing an edge. */
  ghost predicate FaithfulStep(r: Graph, stored: Graph, trackable: Path -> bool, pre: Repo, post: Repo,
                               requested: seq<Path>, cap: nat) {
    && AllTracked(pre, trackable)
    && OnlyChanged(pre, post, Elems(requested)) && Distinct(requested)
    && IsPatch(r, SanitizeLoadedGraph(stored, trackable), post, requested, cap)
    && NothingInvented(pre, post, Elems(requested), cap) && NothingLost(pre, post, Elems(requested), cap)
  }

  lemma FaithfulStepMirrors(r: Graph, stored: Graph, trackable: Path -> bool, pre: Repo, post: Repo,
                            requested: seq<Path>, cap: nat)
    requires Mirrors(stored, pre, cap) && FaithfulStep(r, stored, trackable, pre, post, requested, cap)
    ensures Mirrors(r, post, cap)
  {
    LoadKeepsMirror(stored, pre, cap, trackable);
    RefreshEqualsRebuild(r, stored, pre, post, requested, cap);
  }

  /** One refresh in a run: the files as they have become, what the load took for trackable, what was requested, and
      the graph that is stored. */
  datatype Refresh = Refresh(repo: Repo, trackable: Path -> bool, requested: seq<Path>, graph: Graph)

  ghost predicate FaithfulRun(start: Refresh, steps: seq<Refresh>, last: Refresh, cap: nat)
    decreases |steps|
  {
    if steps == [] then start == last else
      var next := steps[0];
      && FaithfulStep(next.graph, start.graph, next.trackable, start.repo, next.repo, next.requested, cap)
      && FaithfulRun(next, steps[1..], last, cap)
  }

  /** Along any run of such refreshes the stored graph says what a rebuild would say. */
  lemma {:induction false} RefreshRun(start: Refresh, steps: seq<Refresh>, last: Refresh, cap: nat)
    requires Mirrors(start.graph, start.repo, cap) && FaithfulRun(start, steps, last, cap)
    ensures Mirrors(last.graph, last.repo, cap)
    decreases |steps|
  {
    if steps != [] {
      var next := steps[0];
      FaithfulStepMirrors(next.graph, start.graph, next.trackable, start.repo, next.repo, next.requested, cap);
      RefreshRun(next, steps[1..], last, cap);
    }
  }

  /** `requested` lists the normalised request; nothing to patch, or nothing to patch it into, means a full build. */
  method RefreshGraphForPaths(stored: Stored, repo: Repo, files: seq<Path>, requested: seq<Path>, cap: nat,
                              trackable: Path -> bool)
    returns (r: Graph)
    requires Distinct(files) && Elems(files) == repo.Keys
    requires stored.Saved? ==> WellFormed(stored.graph)
    ensures WellFormed(r)
    ensures if requested == [] || !stored.Saved?
            then IsBuild(r, repo, files, cap)
            else IsPatch(r, SanitizeLoadedGraph(stored.graph, trackable), repo, requested, cap)
  {
    if requested == [] || !stored.Saved? {
      r := Build(repo, files, cap);
      BuildMirrors(r, repo, files, cap);
    } else {
      var g := SanitizeLoadedGraph(stored.graph, trackable);
      SanitizeKeepsWellFormed(stored.graph, trackable);
      r := Patch(g, repo, requested, cap);
      PatchKeepsWellFormed(r, g, repo, requested, cap);
    }
  }
}
