/** The stored graph beside a changing working tree: what counts as stale, and what freshening restores. */
module Freshness {
  import opened Prelude
  import opened RepoTypes
  import opened GraphParts
  import opened GraphBuilder
  import opened GraphMeaning
  import opened BuildTheorems
  import opened GraphRefresh
  import opened RefreshTheorems
  import opened GraphLoad

  /** A file as parsed, when it was last modified, and its size. */
  datatype Stamped = Stamped(content: FileContent, modified: nat, size: nat)

  /** What counts as a file of the graph: its name must, and it must not exceed the budget. A build and a patch judge
      the whole path, so find nothing in a root that is buried in a directory to be skipped, and always see the size. A
      load and a status judge the path below the root, and see its size only if the process runs in the root. */
  datatype Rules = Rules(named: Path -> bool, buried: bool, budget: nat, rooted: bool) {
    predicate Reads(p: Path, size: nat) { !buried && named(p) && size <= budget }

    function Trackable(files: map<Path, Stamped>): Path -> bool {
      p => named(p) && (rooted && p in files ==> files[p].size <= budget)
    }
  }

  datatype Freshness = NoGraph | Fresh | StaleSmall | StaleLarge

  function FreshnessOf(behind: nat): Freshness {
    if behind == 0 then Fresh else if behind <= STALE_SMALL_LIMIT then StaleSmall else StaleLarge
  }

  datatype Status = Status(present: bool, stale: bool, staleFiles: nat, missingFiles: nat, freshness: Freshness,
                           oversized: bool)

  datatype Strategy = BuildMissing | AlreadyFresh | RebuildOversized | StaleUnknown | RebuildLargeSet | PatchPaths

  datatype Report = Report(refreshed: bool, strategy: Strategy, requested: seq<Path>)

  const STALE_SMALL_LIMIT := 200

  function ViewOf(files: map<Path, Stamped>): Repo {
    map p | p in files :: files[p].content
  }

  /** The paths a loaded graph has file or document nodes for. */
  function TrackedPaths(g: Graph, trackable: Path -> bool): set<Path> {
    set n | n in g.nodes && (n.kind == FileNode || n.kind == DocNode) && n.path.Some?
      && trackable(n.path.value) :: n.path.value
  }

  function MissingPaths(tracked: set<Path>, files: map<Path, Stamped>): set<Path> {
    set p | p in tracked && p !in files
  }

  function ModifiedPaths(tracked: set<Path>, files: map<Path, Stamped>, builtAt: nat): set<Path> {
    set p | p in tracked && p in files && files[p].modified > builtAt
  }

  /** What a loaded graph is behind on: dirty paths, and tracked paths that are gone or newer than the build. */
  function StalePaths(g: Graph, trackable: Path -> bool, dirty: set<Path>, files: map<Path, Stamped>,
                      builtAt: nat): set<Path> {
    var tracked := TrackedPaths(g, trackable);
    dirty + MissingPaths(tracked, files) + ModifiedPaths(tracked, files, builtAt)
  }

  /** What an index remembers for its own freshness: the paths of the nodes it was made from, and when. */
  datatype Indexed = Indexed(paths: set<Path>, builtAt: nat)

  function NodePaths(g: Graph): set<Path> {
    set n | n in g.nodes && n.path.Some? :: n.path.value
  }

  /** Any dirty path, and any indexed path that is gone or newer, makes an index stale. */
  predicate IndexStale(x: Indexed, dirty: set<Path>, files: map<Path, Stamped>) {
    dirty != {} || MissingPaths(x.paths, files) != {} || ModifiedPaths(x.paths, files, x.builtAt) != {}
  }

  /** The paths a build finds something in. */
  function ParsedPaths(files: map<Path, Stamped>): set<Path> {
    set p | p in files && !files[p].content.Untracked?
  }

  /** Every file differing from what the graph was made from is stale. */
  ghost predicate Covers(g: Graph, snapshot: Repo, cap: nat, trackable: Path -> bool, files: map<Path, Stamped>,
                         stale: set<Path>) {
    && Mirrors(g, snapshot, cap)
    && AllTracked(snapshot, trackable)
    && OnlyChanged(snapshot, ViewOf(files), stale)
  }

  ghost predicate FilesOk(files: map<Path, Stamped>, trackable: Path -> bool, clock: nat) {
    forall p :: p in files ==> files[p].modified <= clock && (!files[p].content.Untracked? ==> trackable(p))
  }

  /** Only the files that count are parsed. */
  ghost predicate FilesValid(files: map<Path, Stamped>, rules: Rules, clock: nat) {
    forall p :: p in files ==>
      files[p].modified <= clock && (files[p].content.Untracked? <==> !rules.Reads(p, files[p].size))
  }

  lemma ValidFilesOk(files: map<Path, Stamped>, rules: Rules, clock: nat)
    requires FilesValid(files, rules, clock)
    ensures FilesOk(files, rules.Trackable(files), clock)
  {
  }

  lemma WrittenValid(files: map<Path, Stamped>, rules: Rules, clock: nat, p: Path, file: Stamped)
    requires FilesValid(files, rules, clock) && file.modified >= clock
    requires file.content.Untracked? <==> !rules.Reads(p, file.size)
    ensures FilesValid(files[p := file], rules, file.modified)
  {
  }

  lemma LaterValid(files: map<Path, Stamped>, rules: Rules, clock: nat, now: nat)
    requires FilesValid(files, rules, clock) && now >= clock
    ensures FilesValid(files, rules, now)
  {
  }

  lemma NewlyIndexed(files: map<Path, Stamped>, rules: Rules, now: nat)
    requires FilesValid(files, rules, now)
    ensures !IndexStale(Indexed(ParsedPaths(files), now), {}, files)
  {
  }

  lemma RemovedValid(files: map<Path, Stamped>, rules: Rules, clock: nat, p: Path, now: nat)
    requires FilesValid(files, rules, clock) && now >= clock
    ensures FilesValid(files - {p}, rules, now)
  {
  }

  /** What is left out of a build: files it does not name or that are too large, and all of a buried root. */
  lemma LeftOut(files: map<Path, Stamped>, rules: Rules, clock: nat, p: Path)
    requires FilesValid(files, rules, clock) && p in files
    ensures files[p].content.Untracked? <==> rules.buried || !rules.named(p) || files[p].size > rules.budget
  {
  }

  /** A build of a buried root is empty. */
  lemma BuriedEmpty(g: Graph, files: map<Path, Stamped>, rules: Rules, clock: nat, cap: nat)
    requires FilesValid(files, rules, clock) && rules.buried && MirrorsExactly(g, ViewOf(files), cap)
    ensures g.nodes == [] && g.edges == []
  {
    SomeId(g);
    forall id ensures !Declares(ViewOf(files), id) {
      NoneDeclared(files, id);
    }
    assert Ids(g.nodes) == {};
  }

  lemma SomeId(g: Graph)
    ensures g.nodes != [] ==> Ids(g.nodes) != {}
    ensures EndpointsPresent(g) && g.edges != [] ==> Ids(g.nodes) != {}
  {
    if g.nodes != [] {
      assert g.nodes[0].id in Ids(g.nodes);
    }
    if EndpointsPresent(g) && g.edges != [] {
      assert g.edges[0].from in Ids(g.nodes);
    }
  }

  lemma NoneDeclared(files: map<Path, Stamped>, id: NodeId)
    requires forall p :: p in files ==> files[p].content.Untracked?
    ensures !Declares(ViewOf(files), id)
  {
  }

  /** The index of a graph that mirrors the files remembers those that were parsed. */
  lemma MirrorPaths(g: Graph, repo: Repo, cap: nat, p: Path)
    requires Mirrors(g, repo, cap)
    ensures p in NodePaths(g) <==> !ContentAt(repo, p).Untracked?
  {
    if p in NodePaths(g) {
      var n :| n in g.nodes && n.path == Some(p);
      assert NodeOk(n) && n.id in Ids(g.nodes) && Declares(repo, n.id);
    }
    if !ContentAt(repo, p).Untracked? {
      var id := if ContentAt(repo, p).Source? then FileId(p) else DocId(p);
      assert Declares(repo, id);
      var n :| n in g.nodes && n.id == id;
      assert NodeOk(n);
    }
  }

  lemma OneMore(s: set<Path>, p: Path)
    requires p !in s
    ensures |s + {p}| == |s| + 1
  {
  }

  lemma MissingNext(done: set<Path>, p: Path, files: map<Path, Stamped>)
    requires p !in done
    ensures |MissingPaths(done + {p}, files)| == |MissingPaths(done, files)| + if p !in files then 1 else 0
  {
    if p !in files {
      assert MissingPaths(done + {p}, files) == MissingPaths(done, files) + {p};
      OneMore(MissingPaths(done, files), p);
    } else {
      assert MissingPaths(done + {p}, files) == MissingPaths(done, files);
    }
  }

  lemma ModifiedNext(done: set<Path>, p: Path, files: map<Path, Stamped>, builtAt: nat)
    requires p !in done
    ensures |ModifiedPaths(done + {p}, files, builtAt)| ==
            |ModifiedPaths(done, files, builtAt)| + if p in files && files[p].modified > builtAt then 1 else 0
  {
    if p in files && files[p].modified > builtAt {
      assert ModifiedPaths(done + {p}, files, builtAt) == ModifiedPaths(done, files, builtAt) + {p};
      OneMore(ModifiedPaths(done, files, builtAt), p);
    } else {
      assert ModifiedPaths(done + {p}, files, builtAt) == ModifiedPaths(done, files, builtAt);
    }
  }

  /** How many of the listed paths are newer than the build, and how many are gone. */
  method CountBehind(list: seq<Path>, files: map<Path, Stamped>, builtAt: nat)
    returns (staleFiles: nat, missingFiles: nat)
    requires Distinct(list)
    ensures staleFiles == |ModifiedPaths(Elems(list), files, builtAt)|
    ensures missingFiles == |MissingPaths(Elems(list), files)|
  {
    staleFiles, missingFiles := 0, 0;
    for i := 0 to |list|
      invariant staleFiles == |ModifiedPaths(Elems(list[..i]), files, builtAt)|
      invariant missingFiles == |MissingPaths(Elems(list[..i]), files)|
    {
      assert list[..i + 1] == list[..i] + [list[i]];
      ElemsSnoc(list[..i], list[i]);
      MissingNext(Elems(list[..i]), list[i], files);
      ModifiedNext(Elems(list[..i]), list[i], files, builtAt);
      if list[i] !in files {
        missingFiles := missingFiles + 1;
      } else if files[list[i]].modified > builtAt {
        staleFiles := staleFiles + 1;
      }
    }
    assert list[..|list|] == list;
  }

  method ListOf(paths: set<Path>) returns (list: seq<Path>)
    ensures Distinct(list) && Elems(list) == paths && |list| == |paths|
  {
    list := [];
    var rest := paths;
    while rest != {}
      invariant rest <= paths && Distinct(list) && Elems(list) == paths - rest && |list| + |rest| == |paths|
      decreases rest
    {
      var p :| p in rest;
      assert Elems(list + [p]) == Elems(list) + {p};
      assert p !in Elems(list);
      list, rest := list + [p], rest - {p};
    }
  }

  /** Stops at the first path that is gone or newer. */
  method IndexIsStale(x: Indexed, dirty: set<Path>, files: map<Path, Stamped>) returns (stale: bool)
    ensures stale <==> IndexStale(x, dirty, files)
  {
    if dirty != {} {
      return true;
    }
    var list := ListOf(x.paths);
    for i := 0 to |list|
      invariant forall k :: 0 <= k < i ==> list[k] in files && files[list[k]].modified <= x.builtAt
    {
      if list[i] !in files || files[list[i]].modified > x.builtAt {
        assert list[i] in Elems(list);
        assert list[i] in MissingPaths(x.paths, files) + ModifiedPaths(x.paths, files, x.builtAt);
        return true;
      }
    }
    forall p | p in x.paths ensures p in files && files[p].modified <= x.builtAt {
      assert p in Elems(list);
    }
    NoneBehind(x.paths, files, x.builtAt);
    return false;
  }

  lemma TakeDistinct(list: seq<Path>, k: nat)
    requires Distinct(list) && k <= |list|
    ensures Distinct(list[..k]) && Elems(list[..k]) <= Elems(list)
  {
  }

  // What a build and a patch leave tracked.

  lemma DeclaresTracked(g: Graph, repo: Repo, cap: nat, trackable: Path -> bool, p: Path)
    requires Mirrors(g, repo, cap)
    ensures p in TrackedPaths(g, trackable) <==> trackable(p) && !ContentAt(repo, p).Untracked?
  {
    if p in TrackedPaths(g, trackable) {
      var n :| n in g.nodes && (n.kind == FileNode || n.kind == DocNode) && n.path == Some(p);
      assert NodeOk(n) && n.id in Ids(g.nodes) && Declares(repo, n.id);
    }
    if !ContentAt(repo, p).Untracked? && trackable(p) {
      var id := if ContentAt(repo, p).Source? then FileId(p) else DocId(p);
      assert Declares(repo, id);
      var n :| n in g.nodes && n.id == id;
      assert NodeOk(n);
    }
  }

  /** After a patch a path is tracked if it was requested and is still there, or was tracked and not requested. */
  lemma PatchTracks(r: Graph, g: Graph, repo: Repo, requested: seq<Path>, cap: nat, trackable: Path -> bool, p: Path)
    requires WellFormed(g) && IsPatch(r, g, repo, requested, cap) && p in TrackedPaths(r, trackable)
    ensures if p in requested then p in repo else p in TrackedPaths(g, trackable)
  {
    var n :| n in r.nodes && (n.kind == FileNode || n.kind == DocNode) && n.path == Some(p);
    var removed := RemovedIds(g.nodes, Elems(requested));
    assert n in PatchedNodes(g, repo, requested);
    if n in Filter(KeepsNode(removed), g.nodes) {
      assert n.id !in removed;
      assert p !in Elems(requested);
    } else {
      FlatMapMember(NodesAt(repo), requested, n);
      var q :| q in requested && n in NodesAt(repo)(q);
      NodeMember(repo, q, n);
      assert n.id in Ids(NodesAt(repo)(q));
      IdMember(repo, q, n.id);
    }
  }

  lemma NothingBehind(g: Graph, trackable: Path -> bool, files: map<Path, Stamped>, now: nat)
    requires WellFormed(g) && FilesOk(files, trackable, now)
    requires forall p :: p in TrackedPaths(g, trackable) ==> p in files
    ensures StalePaths(SanitizeLoadedGraph(g, trackable), trackable, {}, files, now) == {}
  {
  }

  /** A patch of every stale path leaves nothing stale. */
  lemma PatchLeavesNothing(r: Graph, g: Graph, requested: seq<Path>, cap: nat, trackable: Path -> bool,
                           dirty: set<Path>, files: map<Path, Stamped>, builtAt: nat, now: nat)
    requires WellFormed(g) && FilesOk(files, trackable, now)
    requires Elems(requested) == StalePaths(g, trackable, dirty, files, builtAt)
    requires IsPatch(r, g, ViewOf(files), requested, cap)
    ensures WellFormed(r) && StalePaths(SanitizeLoadedGraph(r, trackable), trackable, {}, files, now) == {}
  {
    PatchKeepsWellFormed(r, g, ViewOf(files), requested, cap);
    forall p | p in TrackedPaths(r, trackable) ensures p in files {
      PatchTracks(r, g, ViewOf(files), requested, cap, trackable, p);
      assert p in requested <==> p in Elems(requested);
      assert p in TrackedPaths(g, trackable) && p !in files ==> p in MissingPaths(TrackedPaths(g, trackable), files);
    }
    NothingBehind(r, trackable, files, now);
  }

  lemma PatchCovers(r: Graph, g: Graph, saved: Graph, snapshot: Repo, requested: seq<Path>, cap: nat,
                    trackable: Path -> bool, files: map<Path, Stamped>, now: nat)
    requires g == SanitizeLoadedGraph(saved, trackable) && FilesOk(files, trackable, now)
    requires Covers(saved, snapshot, cap, trackable, files, Elems(requested)) && Distinct(requested)
    requires IsPatch(r, g, ViewOf(files), requested, cap)
    ensures Covers(r, ViewOf(files), cap, trackable, files, {})
            <==> NothingInvented(snapshot, ViewOf(files), Elems(requested), cap)
                 && NothingLost(snapshot, ViewOf(files), Elems(requested), cap)
  {
    LoadKeepsMirror(saved, snapshot, cap, trackable);
    RefreshEqualsRebuild(r, g, snapshot, ViewOf(files), requested, cap);
  }

  /** A build leaves nothing stale and covers the files it read. */
  lemma BuildLeavesNothing(g: Graph, paths: seq<Path>, cap: nat, trackable: Path -> bool, files: map<Path, Stamped>,
                           now: nat)
    requires FilesOk(files, trackable, now) && IsBuild(g, ViewOf(files), paths, cap)
    ensures MirrorsExactly(g, ViewOf(files), cap) && Covers(g, ViewOf(files), cap, trackable, files, {})
    ensures StalePaths(SanitizeLoadedGraph(g, trackable), trackable, {}, files, now) == {}
  {
    BuildMirrors(g, ViewOf(files), paths, cap);
    forall p | p in TrackedPaths(g, trackable) ensures p in files {
      DeclaresTracked(g, ViewOf(files), cap, trackable, p);
    }
    NothingBehind(g, trackable, files, now);
  }

  lemma SameTracked(g: Graph, was: Path -> bool, now: Path -> bool, q: Path)
    requires was(q) == now(q)
    ensures q in TrackedPaths(g, was) <==> q in TrackedPaths(g, now)
  {
  }

  lemma SameStale(g: Graph, was: Path -> bool, now: Path -> bool, dirty: set<Path>, builtAt: nat,
                  files: map<Path, Stamped>, changed: map<Path, Stamped>, q: Path)
    requires was(q) == now(q) && (q in files <==> q in changed) && (q in files ==> files[q] == changed[q])
    ensures q in StalePaths(g, was, dirty, files, builtAt) <==> q in StalePaths(g, now, dirty, changed, builtAt)
    ensures ContentAt(ViewOf(changed), q) == ContentAt(ViewOf(files), q)
  {
    SameTracked(g, was, now, q);
  }

  lemma SameElsewhere(files: map<Path, Stamped>, changed: map<Path, Stamped>, p: Path, q: Path)
    requires files - {p} == changed - {p} && q != p
    ensures (q in files <==> q in changed) && (q in files ==> files[q] == changed[q])
  {
    assert q in files - {p} <==> q in changed - {p};
    if q in files {
      assert files[q] == (files - {p})[q] == (changed - {p})[q] == changed[q];
    }
  }

  /** The change itself, while the loaded graph is the stored one. */
  lemma LoadedChange(g: Graph, snapshot: Repo, cap: nat, was: Path -> bool, now: Path -> bool, dirty: set<Path>,
                     builtAt: nat, files: map<Path, Stamped>, changed: map<Path, Stamped>, p: Path)
    requires OnlyChanged(snapshot, ViewOf(files), StalePaths(g, was, dirty, files, builtAt))
    requires files - {p} == changed - {p} && forall q :: q != p ==> was(q) == now(q)
    ensures var stale := StalePaths(g, now, dirty, changed, builtAt);
            OnlyChanged(snapshot, ViewOf(changed), stale) <==>
            p in stale || ContentAt(ViewOf(changed), p) == ContentAt(snapshot, p)
  {
    forall q | q != p
      ensures q in StalePaths(g, was, dirty, files, builtAt) <==> q in StalePaths(g, now, dirty, changed, builtAt)
      ensures ContentAt(ViewOf(changed), q) == ContentAt(ViewOf(files), q)
    {
      SameElsewhere(files, changed, p, q);
      SameStale(g, was, now, dirty, builtAt, files, changed, q);
    }
  }

  /** A change to one file is covered if the file, when the graph has it, still counts as tracked, and the change is
      seen as stale or brings the file back. */
  lemma ChangeCovered(g: Graph, snapshot: Repo, cap: nat, was: Path -> bool, now: Path -> bool, dirty: set<Path>,
                      builtAt: nat, files: map<Path, Stamped>, changed: map<Path, Stamped>, p: Path)
    requires Covers(g, snapshot, cap, was, files, StalePaths(SanitizeLoadedGraph(g, was), was, dirty, files, builtAt))
    requires files - {p} == changed - {p} && forall q :: q != p ==> was(q) == now(q)
    ensures var stale := StalePaths(SanitizeLoadedGraph(g, now), now, dirty, changed, builtAt);
            Covers(g, snapshot, cap, now, changed, stale) <==>
            && (ContentAt(snapshot, p).Untracked? || now(p))
            && (p in stale || ContentAt(ViewOf(changed), p) == ContentAt(snapshot, p))
  {
    LoadKeepsMirror(g, snapshot, cap, was);
    if AllTracked(snapshot, now) {
      LoadKeepsMirror(g, snapshot, cap, now);
      LoadedChange(g, snapshot, cap, was, now, dirty, builtAt, files, changed, p);
    }
    assert AllTracked(snapshot, now) <==> ContentAt(snapshot, p).Untracked? || now(p);
  }

  /** A file that goes away is seen as stale if the graph has it. */
  lemma RemovalCovered(g: Graph, snapshot: Repo, cap: nat, now: Path -> bool, dirty: set<Path>, builtAt: nat,
                       changed: map<Path, Stamped>, p: Path)
    requires Mirrors(g, snapshot, cap) && AllTracked(snapshot, now) && p !in changed
    ensures p in StalePaths(SanitizeLoadedGraph(g, now), now, dirty, changed, builtAt)
            || ContentAt(ViewOf(changed), p) == ContentAt(snapshot, p)
  {
    LoadKeepsMirror(g, snapshot, cap, now);
    DeclaresTracked(g, snapshot, cap, now, p);
  }

  lemma WrittenElsewhere(files: map<Path, Stamped>, rules: Rules, p: Path, file: Stamped)
    ensures files - {p} == files[p := file] - {p}
    ensures forall q :: q != p ==> rules.Trackable(files)(q) == rules.Trackable(files[p := file])(q)
    ensures ContentAt(ViewOf(files[p := file]), p) == file.content
  {
  }

  lemma EditCovered(g: Graph, snapshot: Repo, cap: nat, rules: Rules, dirty: set<Path>, builtAt: nat,
                    files: map<Path, Stamped>, p: Path, file: Stamped, changed: map<Path, Stamped>,
                    was: Path -> bool, now: Path -> bool)
    requires changed == files[p := file] && was == rules.Trackable(files) && now == rules.Trackable(changed)
    requires Covers(g, snapshot, cap, was, files, StalePaths(SanitizeLoadedGraph(g, was), was, dirty, files, builtAt))
    ensures var stale := StalePaths(SanitizeLoadedGraph(g, now), now, dirty, changed, builtAt);
            Covers(g, snapshot, cap, now, changed, stale) <==>
            && (ContentAt(snapshot, p).Untracked? || now(p))
            && (p in stale || file.content == ContentAt(snapshot, p))
  {
    WrittenElsewhere(files, rules, p, file);
    ChangeCovered(g, snapshot, cap, was, now, dirty, builtAt, files, changed, p);
  }

  lemma DeleteCovered(g: Graph, snapshot: Repo, cap: nat, rules: Rules, dirty: set<Path>, builtAt: nat,
                      files: map<Path, Stamped>, p: Path)
    requires var now := rules.Trackable(files);
             Covers(g, snapshot, cap, now, files, StalePaths(SanitizeLoadedGraph(g, now), now, dirty, files, builtAt))
    ensures var left := files - {p};
            var now := rules.Trackable(left);
            Covers(g, snapshot, cap, now, left, StalePaths(SanitizeLoadedGraph(g, now), now, dirty, left, builtAt))
  {
    var left := files - {p};
    ChangeCovered(g, snapshot, cap, rules.Trackable(files), rules.Trackable(left), dirty, builtAt, files, left, p);
    RemovalCovered(g, snapshot, cap, rules.Trackable(left), dirty, builtAt, left, p);
  }

  lemma WrittenStale(g: Graph, trackable: Path -> bool, dirty: set<Path>, files: map<Path, Stamped>, builtAt: nat,
                     p: Path)
    requires p in files
    ensures p in StalePaths(g, trackable, dirty, files, builtAt) <==>
            p in dirty || (p in TrackedPaths(g, trackable) && files[p].modified > builtAt)
  {
  }

  lemma AllForgotten(dirty: set<Path>, requested: seq<Path>)
    requires dirty <= Elems(requested)
    ensures dirty - (set p | p in requested) == {}
  {
  }

  method BuildFiles(files: map<Path, Stamped>, cap: nat, trackable: Path -> bool, now: nat) returns (g: Graph)
    requires FilesOk(files, trackable, now)
    ensures MirrorsExactly(g, ViewOf(files), cap) && Covers(g, ViewOf(files), cap, trackable, files, {})
    ensures StalePaths(SanitizeLoadedGraph(g, trackable), trackable, {}, files, now) == {}
  {
    var paths := ListOf(files.Keys);
    g := Build(ViewOf(files), paths, cap);
    BuildLeavesNothing(g, paths, cap, trackable, files, now);
  }

  method PatchFrom(saved: Graph, ghost snapshot: Repo, requested: seq<Path>, cap: nat, trackable: Path -> bool,
                   ghost dirty: set<Path>, files: map<Path, Stamped>, ghost builtAt: nat, ghost now: nat)
    returns (r: Graph)
    requires WellFormed(saved) && FilesOk(files, trackable, now) && Distinct(requested)
    requires Elems(requested) == StalePaths(SanitizeLoadedGraph(saved, trackable), trackable, dirty, files, builtAt)
    ensures WellFormed(r) && StalePaths(SanitizeLoadedGraph(r, trackable), trackable, {}, files, now) == {}
    ensures IsPatch(r, SanitizeLoadedGraph(saved, trackable), ViewOf(files), requested, cap)
    ensures Covers(saved, snapshot, cap, trackable, files, Elems(requested)) ==>
              (Covers(r, ViewOf(files), cap, trackable, files, {})
               <==> NothingInvented(snapshot, ViewOf(files), Elems(requested), cap)
                    && NothingLost(snapshot, ViewOf(files), Elems(requested), cap))
  {
    var g := SanitizeLoadedGraph(saved, trackable);
    SanitizeKeepsWellFormed(saved, trackable);
    r := Patch(g, ViewOf(files), requested, cap);
    PatchLeavesNothing(r, g, requested, cap, trackable, dirty, files, builtAt, now);
    if Covers(saved, snapshot, cap, trackable, files, Elems(requested)) {
      PatchCovers(r, g, saved, snapshot, requested, cap, trackable, files, now);
    }
  }

  /** Forgetting what is dirty keeps a graph covered exactly when each such file is unchanged or still seen as stale. */
  lemma ForgetCovered(g: Graph, snapshot: Repo, cap: nat, trackable: Path -> bool, dirty: set<Path>,
                      files: map<Path, Stamped>, builtAt: nat)
    requires Covers(g, snapshot, cap, trackable, files,
             StalePaths(SanitizeLoadedGraph(g, trackable), trackable, dirty, files, builtAt))
    ensures var left := StalePaths(SanitizeLoadedGraph(g, trackable), trackable, {}, files, builtAt);
            Covers(g, snapshot, cap, trackable, files, left) <==>
            forall p :: p in dirty ==> p in left || ContentAt(ViewOf(files), p) == ContentAt(snapshot, p)
  {
    var loaded := SanitizeLoadedGraph(g, trackable);
    assert StalePaths(loaded, trackable, dirty, files, builtAt) ==
           dirty + StalePaths(loaded, trackable, {}, files, builtAt);
  }

  /** A covered graph with nothing stale says what a rebuild of the files would say. */
  lemma FreshMirrors(g: Graph, snapshot: Repo, cap: nat, trackable: Path -> bool, files: map<Path, Stamped>)
    requires Covers(g, snapshot, cap, trackable, files, {})
    ensures Mirrors(SanitizeLoadedGraph(g, trackable), ViewOf(files), cap)
  {
    LoadKeepsMirror(g, snapshot, cap, trackable);
    SameMirrors(g, snapshot, ViewOf(files), cap);
  }

  // What goes unnoticed unless it is marked dirty: nothing is stale, yet the loaded graph is not what a rebuild gives.

  lemma SanitizedTracks(g: Graph, trackable: Path -> bool)
    ensures TrackedPaths(SanitizeLoadedGraph(g, trackable), trackable) <= TrackedPaths(g, trackable)
  {
  }

  lemma NoneBehind(tracked: set<Path>, files: map<Path, Stamped>, builtAt: nat)
    requires forall p :: p in tracked ==> p in files && files[p].modified <= builtAt
    ensures MissingPaths(tracked, files) == {} && ModifiedPaths(tracked, files, builtAt) == {}
  {
  }

  lemma NothingStale(g: Graph, snapshot: Repo, cap: nat, trackable: Path -> bool, files: map<Path, Stamped>,
                     builtAt: nat)
    requires Mirrors(g, snapshot, cap)
    requires forall p :: trackable(p) && !ContentAt(snapshot, p).Untracked? ==>
               p in files && files[p].modified <= builtAt
    ensures StalePaths(SanitizeLoadedGraph(g, trackable), trackable, {}, files, builtAt) == {}
  {
    var tracked := TrackedPaths(SanitizeLoadedGraph(g, trackable), trackable);
    SanitizedTracks(g, trackable);
    forall p | p in tracked ensures p in files && files[p].modified <= builtAt {
      DeclaresTracked(g, snapshot, cap, trackable, p);
    }
    NoneBehind(tracked, files, builtAt);
  }

  ghost predicate Unnoticed(g: Graph, cap: nat, rules: Rules, files: map<Path, Stamped>, builtAt: nat) {
    var trackable := rules.Trackable(files);
    && StalePaths(SanitizeLoadedGraph(g, trackable), trackable, {}, files, builtAt) == {}
    && !Mirrors(SanitizeLoadedGraph(g, trackable), ViewOf(files), cap)
  }

  /** A new file. */
  lemma NewFileMissed(g: Graph, cap: nat, rules: Rules, builtAt: nat, now: nat)
    requires Mirrors(g, map[], cap) && rules.Reads("a.rs", 0)
    ensures FilesValid(map["a.rs" := Stamped(EMPTY, now, 0)], rules, now)
    ensures Unnoticed(g, cap, rules, map["a.rs" := Stamped(EMPTY, now, 0)], builtAt)
  {
    var files := map["a.rs" := Stamped(EMPTY, now, 0)];
    NothingStale(g, map[], cap, rules.Trackable(files), files, builtAt);
    LoadKeepsMirror(g, map[], cap, rules.Trackable(files));
    assert Declares(ViewOf(files), FileId("a.rs")) && !Declares(map[], FileId("a.rs"));
  }

  /** An edit in the instant of the build. */
  lemma SameInstantMissed(g: Graph, cap: nat, rules: Rules, now: nat)
    requires Mirrors(g, map["a.rs" := EMPTY], cap) && rules.Reads("a.rs", 0)
    ensures FilesValid(map["a.rs" := Stamped(CALLEE, now, 0)], rules, now)
    ensures Unnoticed(g, cap, rules, map["a.rs" := Stamped(CALLEE, now, 0)], now)
  {
    var files := map["a.rs" := Stamped(CALLEE, now, 0)];
    var id := SymbolId("a.rs", "f", 1);
    NothingStale(g, map["a.rs" := EMPTY], cap, rules.Trackable(files), files, now);
    LoadKeepsMirror(g, map["a.rs" := EMPTY], cap, rules.Trackable(files));
    assert CALLEE.symbols[0] in SymbolsIn(CALLEE);
    assert Declares(ViewOf(files), id) && !Declares(map["a.rs" := EMPTY], id);
  }

  /** The two definitions of a name beyond the cap become one when a file outgrows the budget. */
  function Outgrown(budget: nat, now: nat): map<Path, Stamped> {
    map["a.rs" := Stamped(CALLER, 0, 0), "b.rs" := Stamped(Untracked, now, budget + 1), "c.rs" := Stamped(CALLEE, 0, 0)]
  }

  const MISSED := Edge(Calls, SymbolId("a.rs", "main", 1), SymbolId("c.rs", "f", 1), Some("a.rs"), Some(2))

  lemma MissedRefers(repo: Repo)
    requires ContentAt(repo, "a.rs") == CALLER && ContentAt(repo, "c.rs") == CALLEE
    ensures Refers(repo, MISSED) && Declares(repo, MISSED.to) && !LocalEdge(repo, MISSED)
  {
    assert CALLER.symbols[0] in SymbolsIn(CALLER) && CALLEE.symbols[0] in SymbolsIn(CALLEE);
    assert CALLER.symbols[0].calls[0] in CALLER.symbols[0].calls;
  }

  lemma TotalWithB(repo: Repo)
    requires ContentAt(repo, "a.rs") == CALLER && ContentAt(repo, "c.rs") == CALLEE
    requires repo.Keys == {"a.rs", "b.rs", "c.rs"}
    ensures DefTotal(repo, repo.Keys, "f") == 1 + DefCount(ContentAt(repo, "b.rs"), "f")
  {
    ExamplePair(repo);
    TotalOne(repo, "b.rs", "f");
    SumSplit({"a.rs", "c.rs"}, {"b.rs"}, DefCountAt(repo, "f"));
    assert {"a.rs", "c.rs"} + {"b.rs"} == repo.Keys;
  }

  lemma MissedEdge(budget: nat, now: nat)
    ensures Denotes(ViewOf(Outgrown(budget, now)), 1, MISSED) && !Denotes(TWO_DEFINITIONS, 1, MISSED)
  {
    var view := ViewOf(Outgrown(budget, now));
    MissedRefers(view);
    MissedRefers(TWO_DEFINITIONS);
    TotalWithB(view);
    TotalWithB(TWO_DEFINITIONS);
    ExampleCounts(view);
  }

  lemma OutgrownValid(rules: Rules, now: nat)
    requires rules.Reads("a.rs", 0) && rules.Reads("b.rs", 0) && rules.Reads("c.rs", 0)
    ensures FilesValid(Outgrown(rules.budget, now), rules, now)
  {
  }

  lemma MissesEdge(g: Graph, snapshot: Repo, view: Repo, cap: nat, trackable: Path -> bool, e: Edge)
    requires Mirrors(g, snapshot, cap) && !Denotes(snapshot, cap, e) && Denotes(view, cap, e)
    ensures !Mirrors(SanitizeLoadedGraph(g, trackable), view, cap)
  {
    SanitizedEdgesTracked(g, trackable, e);
  }

  lemma OutgrownUnseen(rules: Rules, builtAt: nat, now: nat, files: map<Path, Stamped>)
    requires rules.rooted && files == Outgrown(rules.budget, now)
    ensures forall p :: rules.Trackable(files)(p) && !ContentAt(TWO_DEFINITIONS, p).Untracked? ==>
              p in files && files[p].modified <= builtAt
  {
  }

  /** A file that outgrows the budget, seen from the root. */
  lemma OutgrownMissed(g: Graph, rules: Rules, builtAt: nat, now: nat)
    requires Mirrors(g, TWO_DEFINITIONS, 1) && rules.rooted
    requires rules.Reads("a.rs", 0) && rules.Reads("b.rs", 0) && rules.Reads("c.rs", 0)
    ensures FilesValid(Outgrown(rules.budget, now), rules, now)
    ensures Unnoticed(g, 1, rules, Outgrown(rules.budget, now), builtAt)
  {
    var files := Outgrown(rules.budget, now);
    OutgrownValid(rules, now);
    OutgrownUnseen(rules, builtAt, now, files);
    NothingStale(g, TWO_DEFINITIONS, 1, rules.Trackable(files), files, builtAt);
    MissedEdge(rules.budget, now);
    MissesEdge(g, TWO_DEFINITIONS, ViewOf(files), 1, rules.Trackable(files), MISSED);
  }

  /** A new file that was marked dirty, once an index has been built. */
  lemma IndexForgets(g: Graph, cap: nat, rules: Rules, builtAt: nat, now: nat)
    requires Mirrors(g, map[], cap) && rules.Reads("a.rs", 0)
    ensures var files := map["a.rs" := Stamped(EMPTY, now, 0)];
            var trackable := rules.Trackable(files);
            && FilesValid(files, rules, now) && trackable("a.rs")
            && Covers(g, map[], cap, trackable, files,
                      StalePaths(SanitizeLoadedGraph(g, trackable), trackable, {"a.rs"}, files, builtAt))
            && Unnoticed(g, cap, rules, files, builtAt)
  {
    NewFileMissed(g, cap, rules, builtAt, now);
  }

  class GraphStore {
    const rules: Rules
    const fits: Graph -> bool
    const cap: nat
    var clock: nat
    var files: map<Path, Stamped>
    var graph: Option<Graph>
    var builtAt: nat
    var dirty: set<Path>
    var indexed: Option<Indexed>
    /** The files the stored graph was made from. */
    ghost var snapshot: Repo

    ghost predicate Valid()
      reads this
    {
      && builtAt <= clock
      && FilesValid(files, rules, clock)
      && (forall p :: p in dirty ==> rules.named(p))
      && (graph.Some? ==> WellFormed(graph.value))
    }

    function Trackable(): Path -> bool
      reads this
    {
      rules.Trackable(files)
    }

    function Loaded(): Graph
      reads this
      requires graph.Some?
    {
      SanitizeLoadedGraph(graph.value, Trackable())
    }

    function StaleSet(): set<Path>
      reads this
      requires graph.Some?
    {
      StalePaths(Loaded(), Trackable(), dirty, files, builtAt)
    }

    /** The graph says what the snapshot denotes, and whatever has changed since then is stale. */
    ghost predicate Covered()
      reads this
    {
      graph.Some? && Covers(graph.value, snapshot, cap, Trackable(), files, StaleSet())
    }

    ghost predicate Current()
      reads this
    {
      graph.Some? && fits(graph.value) && StaleSet() == {}
    }

    constructor (counting: Rules, loads: Graph -> bool, calls: nat)
      ensures Valid() && graph == None && files == map[] && dirty == {} && indexed == None
      ensures rules == counting && fits == loads && cap == calls
    {
      rules, fits, cap := counting, loads, calls;
      clock, files, graph, builtAt, dirty, indexed, snapshot := 0, map[], None, 0, {}, None, map[];
    }

    /** A file is written. It is noticed if it is dirty, or tracked and written after the build. */
    method Edit(p: Path, content: FileContent, size: nat, now: nat)
      requires Valid() && now >= clock && (content.Untracked? <==> !rules.Reads(p, size))
      modifies this`clock, this`files
      ensures Valid() && files == old(files)[p := Stamped(content, now, size)] && clock == now
      ensures old(Covered()) ==>
                (Covered() <==>
                 && (ContentAt(snapshot, p).Untracked? || Trackable()(p))
                 && (p in StaleSet() || content == ContentAt(snapshot, p)))
      ensures graph.Some? ==>
                (p in StaleSet() <==> p in dirty || (p in TrackedPaths(Loaded(), Trackable()) && now > builtAt))
    {
      var file := Stamped(content, now, size);
      WrittenValid(files, rules, clock, p, file);
      if Covered() {
        EditCovered(graph.value, snapshot, cap, rules, dirty, builtAt, files, p, file, files[p := file],
                    Trackable(), rules.Trackable(files[p := file]));
      }
      clock, files := now, files[p := file];
      if graph.Some? {
        WrittenStale(Loaded(), Trackable(), dirty, files, builtAt, p);
      }
    }

    /** A file goes away. That is always noticed. */
    method Delete(p: Path, now: nat)
      requires Valid() && now >= clock
      modifies this`clock, this`files
      ensures Valid() && files == old(files) - {p} && clock == now
      ensures old(Covered()) ==> Covered()
    {
      RemovedValid(files, rules, clock, p, now);
      if Covered() {
        DeleteCovered(graph.value, snapshot, cap, rules, dirty, builtAt, files, p);
      }
      clock, files := now, files - {p};
    }

    method MarkDirty(paths: seq<Path>)
      requires Valid()
      modifies this`dirty
      ensures Valid()
      ensures forall p :: p in dirty <==>
                (p in old(dirty)
                 || (p in paths && rules.named(p) && (rules.rooted && p in files ==> files[p].size <= rules.budget)))
      ensures old(Covered()) ==> Covered()
    {
      dirty := dirty + set p | p in paths && Trackable()(p);
    }

    /** What the status of a loadable graph shows: how much is newer, gone or dirty, and whether that is a lot. */
    function LoadedStatus(): Status
      reads this
      requires graph.Some?
    {
      var tracked := TrackedPaths(Loaded(), Trackable());
      var staleFiles, missingFiles := |ModifiedPaths(tracked, files, builtAt)|, |MissingPaths(tracked, files)|;
      Status(true, StaleSet() != {}, staleFiles, missingFiles,
             FreshnessOf(staleFiles + missingFiles + |dirty|), false)
    }

    method GraphStatus() returns (s: Status)
      requires Valid()
      ensures s == if graph == None then Status(false, false, 0, 0, NoGraph, false)
                   else if !fits(graph.value) then Status(true, true, 0, 0, StaleLarge, true)
                   else LoadedStatus()
      ensures graph.Some? ==> (s.stale <==> s.freshness != Fresh)
      ensures graph.Some? && fits(graph.value) ==>
                var behind := s.staleFiles + s.missingFiles + |dirty|;
                && (s.freshness == Fresh <==> behind == 0)
                && (s.freshness == StaleSmall <==> 1 <= behind <= 200)
                && (s.freshness == StaleLarge <==> behind > 200)
    {
      if graph == None {
        return Status(false, false, 0, 0, NoGraph, false);
      }
      if !fits(graph.value) {
        return Status(true, true, 0, 0, StaleLarge, true);
      }
      var tracked := ListOf(TrackedPaths(Loaded(), Trackable()));
      var staleFiles, missingFiles := CountBehind(tracked, files, builtAt);
      var stale := staleFiles > 0 || missingFiles > 0 || dirty != {};
      s := Status(true, stale, staleFiles, missingFiles, FreshnessOf(staleFiles + missingFiles + |dirty|), false);
    }

    /** The first `limit` stale paths; none for a graph too large to load. */
    method GraphStalePaths(limit: nat) returns (paths: seq<Path>)
      requires Valid() && graph.Some?
      ensures Distinct(paths) && |paths| <= limit
      ensures if !fits(graph.value) then paths == []
              else Elems(paths) <= StaleSet() && (|paths| < limit ==> Elems(paths) == StaleSet())
                   && (limit > 0 ==> (paths == [] <==> StaleSet() == {}))
    {
      if !fits(graph.value) {
        return [];
      }
      var list := ListOf(StaleSet());
      paths := if |list| <= limit then list else list[..limit];
      if |list| > limit {
        TakeDistinct(list, limit);
      }
    }

    /** Write a graph made from the files, and the index of that graph, and keep only some of what was dirty. */
    method Save(g: Graph, left: set<Path>, now: nat)
      modifies this`clock, this`graph, this`builtAt, this`dirty, this`indexed, this`snapshot
      ensures clock == builtAt == now && graph == Some(g) && dirty == left && snapshot == ViewOf(files)
      ensures indexed == Some(Indexed(NodePaths(g), now))
    {
      clock, graph, builtAt, dirty, indexed := now, Some(g), now, left, Some(Indexed(NodePaths(g), now));
      snapshot := ViewOf(files);
    }

    method FullBuild(now: nat)
      requires Valid() && now >= clock
      modifies this`clock, this`graph, this`builtAt, this`dirty, this`indexed, this`snapshot
      ensures Valid() && clock == now && graph.Some? && dirty == {}
      ensures indexed.Some? && indexed.value.builtAt == now
      ensures forall p :: p in indexed.value.paths <==> p in files && !files[p].content.Untracked?
      ensures snapshot == ViewOf(files) && MirrorsExactly(graph.value, snapshot, cap) && Covered() && StaleSet() == {}
    {
      ValidFilesOk(files, rules, now);
      var g := BuildFiles(files, cap, Trackable(), now);
      forall p { MirrorPaths(g, ViewOf(files), cap, p); }
      Save(g, {}, now);
    }

    /** Patch the requested paths, which are all that is stale, and forget that they were dirty. */
    method PatchStale(requested: seq<Path>, now: nat)
      requires Valid() && now >= clock && graph.Some? && Distinct(requested) && Elems(requested) == StaleSet()
      modifies this`clock, this`graph, this`builtAt, this`dirty, this`indexed, this`snapshot
      ensures Valid() && clock == now && graph.Some? && dirty == {} && StaleSet() == {}
      ensures snapshot == ViewOf(files) && indexed == Some(Indexed(NodePaths(graph.value), now))
      ensures IsPatch(graph.value, old(Loaded()), ViewOf(files), requested, cap)
      ensures old(Covered()) ==>
                (Covered() <==> NothingInvented(old(snapshot), ViewOf(files), Elems(requested), cap)
                                && NothingLost(old(snapshot), ViewOf(files), Elems(requested), cap))
    {
      ValidFilesOk(files, rules, now);
      var r := PatchFrom(graph.value, snapshot, requested, cap, Trackable(), dirty, files, builtAt, now);
      AllForgotten(dirty, requested);
      Save(r, dirty - (set p | p in requested), now);
    }

    method Freshen(maxIncremental: nat, now: nat) returns (report: Report)
      requires Valid() && now >= clock
      modifies this`clock, this`graph, this`builtAt, this`dirty, this`indexed, this`snapshot
      ensures Valid() && graph.Some? && report.strategy != StaleUnknown
      ensures report.strategy ==
              if old(graph == None) then BuildMissing
              else if old(Current()) then AlreadyFresh
              else if old(!fits(graph.value)) then RebuildOversized
              else if |old(StaleSet())| > maxIncremental then RebuildLargeSet
              else PatchPaths
      ensures report.refreshed <==> !old(Current())
      ensures !report.refreshed ==> report.strategy == AlreadyFresh && unchanged(this)
      ensures report.refreshed ==> StaleSet() == {} && dirty == {} && snapshot == ViewOf(files)
      ensures report.refreshed && fits(graph.value) ==> Current()
      ensures report.refreshed && report.strategy != PatchPaths ==> Covered()
      ensures report.strategy == PatchPaths ==>
              old(graph.Some?) && |report.requested| <= maxIncremental && Elems(report.requested) == old(StaleSet())
      ensures report.strategy == PatchPaths && old(Covered()) ==>
                (Covered() <==> NothingInvented(old(snapshot), ViewOf(files), Elems(report.requested), cap)
                                && NothingLost(old(snapshot), ViewOf(files), Elems(report.requested), cap))
    {
      var before := GraphStatus();
      if graph == None {
        FullBuild(now);
        return Report(true, BuildMissing, []);
      }
      if !before.stale {
        return Report(false, AlreadyFresh, []);
      }
      if before.oversized {
        FullBuild(now);
        return Report(true, RebuildOversized, []);
      }
      var requested := GraphStalePaths(maxIncremental + 1);
      DistinctCount(requested);
      AtMostSubset(Elems(requested), StaleSet());
      if requested == [] {
        return Report(false, StaleUnknown, []);
      }
      if |requested| > maxIncremental {
        FullBuild(now);
        return Report(true, RebuildLargeSet, requested);
      }
      PatchStale(requested, now);
      report := Report(true, PatchPaths, requested);
    }

    /** The graph is what a rebuild would give. */
    lemma CurrentMirrors()
      requires Covered() && StaleSet() == {}
      ensures Mirrors(Loaded(), ViewOf(files), cap)
    {
      FreshMirrors(graph.value, snapshot, cap, Trackable(), files);
    }

    /** An index built on its own leaves the graph as it is, and nothing dirty. */
    method RebuildIndex(now: nat)
      requires Valid() && now >= clock
      modifies this`clock, this`dirty, this`indexed
      ensures Valid() && clock == now && dirty == {} && indexed.Some? && indexed.value.builtAt == now
      ensures forall p :: p in indexed.value.paths <==> p in files && !files[p].content.Untracked?
      ensures !IndexStale(indexed.value, dirty, files)
      ensures old(Covered()) ==>
                (Covered() <==> forall p :: p in old(dirty) ==>
                   p in StaleSet() || ContentAt(ViewOf(files), p) == ContentAt(snapshot, p))
    {
      if Covered() {
        ForgetCovered(graph.value, snapshot, cap, Trackable(), dirty, files, builtAt);
      }
      LaterValid(files, rules, clock, now);
      NewlyIndexed(files, rules, now);
      clock, dirty, indexed := now, {}, Some(Indexed(ParsedPaths(files), now));
    }

    /** What a query of the index does first. */
    method FreshenIndex(now: nat) returns (rebuilt: bool)
      requires Valid() && now >= clock
      modifies this`clock, this`dirty, this`indexed
      ensures Valid() && dirty == {} && indexed.Some? && !IndexStale(indexed.value, dirty, files)
      ensures rebuilt <==> old(indexed == None || IndexStale(indexed.value, dirty, files))
      ensures rebuilt ==> indexed.value.builtAt == now
      ensures rebuilt ==> forall p :: p in indexed.value.paths <==> p in files && !files[p].content.Untracked?
      ensures !rebuilt ==> unchanged(this)
      ensures old(Covered()) ==>
                (Covered() <==> forall p :: p in old(dirty) ==>
                   p in StaleSet() || ContentAt(ViewOf(files), p) == ContentAt(snapshot, p))
    {
      rebuilt := true;
      if indexed.Some? {
        rebuilt := IndexIsStale(indexed.value, dirty, files);
      }
      if rebuilt {
        RebuildIndex(now);
      }
    }
  }
}
