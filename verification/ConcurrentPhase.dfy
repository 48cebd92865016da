/** Workers that run concurrently: spawned, asking, settling and joined in any order whatever. */
module ConcurrentPhase {
  import opened Prelude
  import opened Workers

  /** `next` subtasks have been spawned or refused; a spawned one has yet to ask, has asked, has settled or is
      joined. */
  datatype Phase = Phase(next: nat, spawned: seq<SubTask>, asked: seq<SubTask>, settled: seq<WorkerOutput>,
                         results: seq<WorkerOutput>, trace: seq<Action>)

  function Remaining(s: Phase, total: nat): int {
    4 * (total - s.next) + 3 * |s.spawned| + 2 * |s.asked| + |s.settled|
  }

  /** The refused subtasks come first, in plan order. */
  ghost predicate RefusedFirst(personas: Personas, tasks: seq<SubTask>, results: seq<WorkerOutput>) {
    var refused := Map(Refusal(personas), Filter(Refused(personas), tasks));
    refused <= results
  }

  ghost predicate Sane(personas: Personas, s: Phase) {
    && (forall t :: t in s.spawned || t in s.asked ==> personas(t.worker).Ok?)
    && (forall o :: o in s.settled || o in s.results ==> Answers(personas, o, TaskOf()(o), o.subtask))
  }

  ghost predicate Counted(personas: Personas, tasks: seq<SubTask>, s: Phase) {
    && s.next <= |tasks|
    && |s.trace| + |s.spawned| == |Filter(Admitted(personas), tasks[..s.next])| + |s.settled| + |s.results|
    && |s.spawned| + |s.asked| + |s.settled| + |s.results| == s.next
  }

  ghost predicate RefusedSoFar(personas: Personas, tasks: seq<SubTask>, s: Phase) {
    && s.next <= |tasks|
    && RefusedFirst(personas, tasks[..s.next], s.results)
    && (s.next < |tasks| ==> s.results == Map(Refusal(personas), Filter(Refused(personas), tasks[..s.next])))
  }

  /** Every subtask is in exactly one place. */
  ghost predicate AllPlaced(tasks: seq<SubTask>, s: Phase) {
    && s.next <= |tasks|
    && multiset(s.spawned) + multiset(s.asked) + multiset(Map(TaskOf(), s.settled)) + multiset(Map(TaskOf(), s.results))
       == multiset(tasks[..s.next])
  }

  ghost predicate AllSettledOnce(s: Phase) {
    multiset(Filter(IsSettled(), s.trace)) == multiset(Map(Settles(), s.settled)) + multiset(Map(Settles(), s.results))
  }

  ghost predicate AllAskedOnce(personas: Personas, tasks: seq<SubTask>, s: Phase) {
    && s.next <= |tasks|
    && multiset(Filter(IsAsk(), s.trace)) + multiset(Map(AskAlone(personas), s.spawned))
       == multiset(Map(AskAlone(personas), Filter(Admitted(personas), tasks[..s.next])))
  }

  /** The calls made are those settled and those waiting for the model, and were so ordered all along. */
  ghost function InOrder(personas: Personas): Phase -> bool {
    (s: Phase) =>
      && AskedFirst(personas, s.trace)
      && Requests(s.trace) == Settlements(personas, s.trace) + multiset(s.asked)
  }

  ghost predicate Running(personas: Personas, tasks: seq<SubTask>, s: Phase) {
    && Sane(personas, s) && Counted(personas, tasks, s) && RefusedSoFar(personas, tasks, s) && AllPlaced(tasks, s)
    && AllSettledOnce(s) && AllAskedOnce(personas, tasks, s) && InOrder(personas)(s)
  }

  // One step each: a subtask is spawned or refused, asks, settles, is joined.

  function Spawned(s: Phase, t: SubTask): Phase {
    Phase(s.next + 1, s.spawned + [t], s.asked, s.settled, s.results, s.trace)
  }

  function Turned(s: Phase, o: WorkerOutput): Phase {
    Phase(s.next + 1, s.spawned, s.asked, s.settled, s.results + [o], s.trace + [Settles()(o)])
  }

  function HasAsked(s: Phase, i: nat, a: Action): Phase
    requires i < |s.spawned|
  {
    Phase(s.next, Without(s.spawned, i), s.asked + [s.spawned[i]], s.settled, s.results, s.trace + [a])
  }

  function HasSettled(s: Phase, i: nat, o: WorkerOutput): Phase
    requires i < |s.asked|
  {
    Phase(s.next, s.spawned, Without(s.asked, i), s.settled + [o], s.results, s.trace + [Settles()(o)])
  }

  function Joined(s: Phase, i: nat): Phase
    requires i < |s.settled|
  {
    Phase(s.next, s.spawned, s.asked, Without(s.settled, i), s.results + [s.settled[i]], s.trace)
  }

  lemma PlacedAfterSpawn(tasks: seq<SubTask>, s: Phase)
    requires AllPlaced(tasks, s) && s.next < |tasks|
    ensures AllPlaced(tasks, Spawned(s, tasks[s.next]))
  {
    assert tasks[..s.next + 1] == tasks[..s.next] + [tasks[s.next]];
  }

  lemma PlacedAfterTurn(tasks: seq<SubTask>, s: Phase, o: WorkerOutput)
    requires AllPlaced(tasks, s) && s.next < |tasks| && TaskOf()(o) == tasks[s.next]
    ensures AllPlaced(tasks, Turned(s, o))
  {
    assert tasks[..s.next + 1] == tasks[..s.next] + [tasks[s.next]];
    MapOne(TaskOf(), s.results, o);
  }

  lemma PlacedAfterAsk(tasks: seq<SubTask>, s: Phase, i: nat, a: Action)
    requires AllPlaced(tasks, s) && i < |s.spawned|
    ensures AllPlaced(tasks, HasAsked(s, i, a))
  {
    WithoutOne(s.spawned, i);
  }

  lemma PlacedAfterStep(tasks: seq<SubTask>, s: Phase, i: nat, o: WorkerOutput)
    requires AllPlaced(tasks, s) && i < |s.asked| && TaskOf()(o) == s.asked[i]
    ensures AllPlaced(tasks, HasSettled(s, i, o))
  {
    MapOne(TaskOf(), s.settled, o);
    WithoutOne(s.asked, i);
  }

  lemma PlacedAfterJoin(tasks: seq<SubTask>, s: Phase, i: nat)
    requires AllPlaced(tasks, s) && i < |s.settled|
    ensures AllPlaced(tasks, Joined(s, i))
  {
    MapWithout(TaskOf(), s.settled, i);
    MapOne(TaskOf(), s.results, s.settled[i]);
  }

  lemma SettledAfterTurn(s: Phase, o: WorkerOutput)
    requires AllSettledOnce(s)
    ensures AllSettledOnce(Turned(s, o))
  {
    TraceGrows(s.trace, Settles()(o));
    MapOne(Settles(), s.results, o);
    Grown(Filter(IsSettled(), s.trace), Filter(IsSettled(), Turned(s, o).trace), Map(Settles(), s.results),
          Map(Settles(), Turned(s, o).results), multiset(Map(Settles(), s.settled)), Settles()(o));
  }

  lemma SettledAfterStep(s: Phase, i: nat, o: WorkerOutput)
    requires AllSettledOnce(s) && i < |s.asked|
    ensures AllSettledOnce(HasSettled(s, i, o))
  {
    TraceGrows(s.trace, Settles()(o));
    MapOne(Settles(), s.settled, o);
    var r := HasSettled(s, i, o);
    Grown(Filter(IsSettled(), s.trace), Filter(IsSettled(), r.trace), Map(Settles(), s.settled),
          Map(Settles(), r.settled), multiset(Map(Settles(), s.results)), Settles()(o));
  }

  lemma SettledAfterJoin(s: Phase, i: nat)
    requires AllSettledOnce(s) && i < |s.settled|
    ensures AllSettledOnce(Joined(s, i))
  {
    MapWithout(Settles(), s.settled, i);
    MapOne(Settles(), s.results, s.settled[i]);
  }

  lemma AskedAfterNext(personas: Personas, tasks: seq<SubTask>, s: Phase)
    requires AllAskedOnce(personas, tasks, s) && s.next < |tasks| && personas(tasks[s.next].worker).Ok?
    ensures AllAskedOnce(personas, tasks, Spawned(s, tasks[s.next]))
  {
    var t, admitted := tasks[s.next], Filter(Admitted(personas), tasks[..s.next]);
    var r := Spawned(s, t);
    TakesNext(Admitted(personas), tasks, s.next);
    assert Map(AskAlone(personas), r.spawned) == Map(AskAlone(personas), s.spawned) + [AskAlone(personas)(t)] by {
      MapOne(AskAlone(personas), s.spawned, t);
    }
    assert Map(AskAlone(personas), Filter(Admitted(personas), tasks[..r.next])) ==
           Map(AskAlone(personas), admitted) + [AskAlone(personas)(t)] by {
      MapOne(AskAlone(personas), admitted, t);
    }
    BothGrow(multiset(Filter(IsAsk(), s.trace)), Map(AskAlone(personas), s.spawned), Map(AskAlone(personas), admitted),
             AskAlone(personas)(t));
  }

  lemma SettlingIsNoAsk(trace: seq<Action>, o: WorkerOutput)
    ensures Filter(IsAsk(), trace + [Settles()(o)]) == Filter(IsAsk(), trace)
  {
    assert !Settles()(o).Asked?;
    TraceGrows(trace, Settles()(o));
  }

  lemma AskedAfterTurn(personas: Personas, tasks: seq<SubTask>, s: Phase, o: WorkerOutput)
    requires AllAskedOnce(personas, tasks, s) && s.next < |tasks| && personas(tasks[s.next].worker).Err?
    ensures AllAskedOnce(personas, tasks, Turned(s, o))
  {
    assert Filter(Admitted(personas), tasks[..s.next + 1]) == Filter(Admitted(personas), tasks[..s.next]) by {
      TakesNext(Admitted(personas), tasks, s.next);
    }
    SettlingIsNoAsk(s.trace, o);
  }

  lemma AskingIsAsk(personas: Personas, trace: seq<Action>, t: SubTask)
    ensures Filter(IsAsk(), trace + [AskAlone(personas)(t)]) == Filter(IsAsk(), trace) + [AskAlone(personas)(t)]
  {
    assert AskAlone(personas)(t).Asked?;
    TraceGrows(trace, AskAlone(personas)(t));
  }

  lemma AskedAfterAsk(personas: Personas, tasks: seq<SubTask>, s: Phase, i: nat)
    requires AllAskedOnce(personas, tasks, s) && i < |s.spawned|
    ensures AllAskedOnce(personas, tasks, HasAsked(s, i, AskAlone(personas)(s.spawned[i])))
  {
    var t := s.spawned[i];
    AskingIsAsk(personas, s.trace, t);
    MapWithout(AskAlone(personas), s.spawned, i);
    Moved(Map(AskAlone(personas), s.spawned), Map(AskAlone(personas), Without(s.spawned, i)),
          Filter(IsAsk(), s.trace), Filter(IsAsk(), s.trace + [AskAlone(personas)(t)]), multiset{},
          AskAlone(personas)(t));
  }

  lemma AskedAfterStep(personas: Personas, tasks: seq<SubTask>, s: Phase, i: nat, o: WorkerOutput)
    requires AllAskedOnce(personas, tasks, s) && i < |s.asked|
    ensures AllAskedOnce(personas, tasks, HasSettled(s, i, o))
  {
    SettlingIsNoAsk(s.trace, o);
  }

  lemma RefusedAfterSpawn(personas: Personas, tasks: seq<SubTask>, s: Phase)
    requires RefusedSoFar(personas, tasks, s) && s.next < |tasks| && personas(tasks[s.next].worker).Ok?
    ensures RefusedSoFar(personas, tasks, Spawned(s, tasks[s.next]))
  {
    TakesNext(Refused(personas), tasks, s.next);
  }

  lemma MapTakesNext(keep: SubTask -> bool, f: SubTask -> WorkerOutput, tasks: seq<SubTask>, k: nat,
                     results: seq<WorkerOutput>)
    requires k < |tasks| && keep(tasks[k]) && results == Map(f, Filter(keep, tasks[..k]))
    ensures results + [f(tasks[k])] == Map(f, Filter(keep, tasks[..k + 1]))
  {
    TakesNext(keep, tasks, k);
    MapOne(f, Filter(keep, tasks[..k]), tasks[k]);
  }

  lemma RefusedAfterTurn(personas: Personas, tasks: seq<SubTask>, s: Phase)
    requires RefusedSoFar(personas, tasks, s) && s.next < |tasks| && personas(tasks[s.next].worker).Err?
    ensures RefusedSoFar(personas, tasks, Turned(s, Refusal(personas)(tasks[s.next])))
  {
    MapTakesNext(Refused(personas), Refusal(personas), tasks, s.next, s.results);
  }

  lemma SaneAfterNext(personas: Personas, s: Phase, t: SubTask)
    requires Sane(personas, s)
    ensures if personas(t.worker).Ok? then Sane(personas, Spawned(s, t))
            else Sane(personas, Turned(s, Refusal(personas)(t)))
  {
    assert TaskOf()(Refusal(personas)(t)) == t;
  }

  lemma SaneAfterAsk(personas: Personas, s: Phase, i: nat, a: Action)
    requires Sane(personas, s) && i < |s.spawned|
    ensures Sane(personas, HasAsked(s, i, a))
  {
    assert s.spawned[i] in s.spawned;
  }

  lemma SaneAfterStep(personas: Personas, s: Phase, i: nat, o: WorkerOutput)
    requires Sane(personas, s) && i < |s.asked| && Answers(personas, o, TaskOf()(o), o.subtask)
    ensures Sane(personas, HasSettled(s, i, o))
  {
  }

  lemma SaneAfterJoin(personas: Personas, s: Phase, i: nat)
    requires Sane(personas, s) && i < |s.settled|
    ensures Sane(personas, Joined(s, i))
  {
    assert s.settled[i] in s.settled;
  }

  lemma CountedAfterNext(personas: Personas, tasks: seq<SubTask>, s: Phase)
    requires Counted(personas, tasks, s) && s.next < |tasks|
    ensures var t := tasks[s.next];
            if personas(t.worker).Ok? then Counted(personas, tasks, Spawned(s, t))
            else Counted(personas, tasks, Turned(s, Refusal(personas)(t)))
  {
    TakesNext(Admitted(personas), tasks, s.next);
  }

  lemma OneSettles<T>(requests: multiset<T>, settled: multiset<T>, asked: seq<T>, i: nat)
    requires i < |asked| && requests == settled + multiset(asked)
    ensures requests == settled + multiset{asked[i]} + multiset(Without(asked, i))
    ensures settled + multiset{asked[i]} <= requests
  {
    WithoutOne(asked, i);
  }

  lemma OrderAfterTurn(personas: Personas, s: Phase, o: WorkerOutput)
    requires InOrder(personas)(s) && personas(o.worker).Err?
    ensures InOrder(personas)(Turned(s, o))
  {
    SettlingCounts(personas, s.trace, o);
    AskedFirstGrows(personas, s.trace, Settles()(o));
  }

  lemma OrderAfterAsk(personas: Personas, s: Phase, i: nat, a: Action)
    requires InOrder(personas)(s) && i < |s.spawned| && a.Asked? && a.task == s.spawned[i]
    ensures InOrder(personas)(HasAsked(s, i, a))
  {
    AskingCounts(personas, s.trace, a);
    AskedFirstGrows(personas, s.trace, a);
  }

  lemma OrderAfterStep(personas: Personas, s: Phase, i: nat, o: WorkerOutput)
    requires InOrder(personas)(s) && i < |s.asked| && TaskOf()(o) == s.asked[i] && personas(o.worker).Ok?
    ensures InOrder(personas)(HasSettled(s, i, o))
  {
    SettlingCounts(personas, s.trace, o);
    OneSettles(Requests(s.trace), Settlements(personas, s.trace), s.asked, i);
    AskedFirstGrows(personas, s.trace, Settles()(o));
  }

  lemma SameOrder(personas: Personas, s: Phase, r: Phase)
    requires InOrder(personas)(s) && r.trace == s.trace && r.asked == s.asked
    ensures InOrder(personas)(r)
  {
  }

  lemma RunsAfterSpawn(personas: Personas, tasks: seq<SubTask>, s: Phase, r: Phase)
    requires Running(personas, tasks, s) && s.next < |tasks| && personas(tasks[s.next].worker).Ok?
    requires r == Spawned(s, tasks[s.next])
    ensures Running(personas, tasks, r) && Remaining(r, |tasks|) < Remaining(s, |tasks|)
  {
    SaneAfterNext(personas, s, tasks[s.next]);
    CountedAfterNext(personas, tasks, s);
    PlacedAfterSpawn(tasks, s);
    RefusedAfterSpawn(personas, tasks, s);
    AskedAfterNext(personas, tasks, s);
    SameOrder(personas, s, Spawned(s, tasks[s.next]));
  }

  lemma RunsAfterTurn(personas: Personas, tasks: seq<SubTask>, s: Phase, r: Phase)
    requires Running(personas, tasks, s) && s.next < |tasks| && personas(tasks[s.next].worker).Err?
    requires r == Turned(s, Refusal(personas)(tasks[s.next]))
    ensures Running(personas, tasks, r) && Remaining(r, |tasks|) < Remaining(s, |tasks|)
  {
    var o := Refusal(personas)(tasks[s.next]);
    SaneAfterNext(personas, s, tasks[s.next]);
    CountedAfterNext(personas, tasks, s);
    PlacedAfterTurn(tasks, s, o);
    RefusedAfterTurn(personas, tasks, s);
    SettledAfterTurn(s, o);
    AskedAfterTurn(personas, tasks, s, o);
    OrderAfterTurn(personas, s, o);
  }

  /** Spawn the next subtask, or refuse it at once. */
  method Spawn(personas: Personas, tasks: seq<SubTask>, s: Phase) returns (r: Phase)
    requires Running(personas, tasks, s) && s.next < |tasks|
    ensures Running(personas, tasks, r) && Remaining(r, |tasks|) < Remaining(s, |tasks|)
  {
    if personas(tasks[s.next].worker).Ok? {
      r := Spawned(s, tasks[s.next]);
      RunsAfterSpawn(personas, tasks, s, r);
    } else {
      r := Turned(s, Refusal(personas)(tasks[s.next]));
      RunsAfterTurn(personas, tasks, s, r);
    }
  }

  method AskModel(personas: Personas, tasks: seq<SubTask>, s: Phase, i: nat) returns (r: Phase)
    requires Running(personas, tasks, s) && i < |s.spawned|
    ensures Running(personas, tasks, r) && Remaining(r, |tasks|) < Remaining(s, |tasks|)
  {
    var t := s.spawned[i];
    assert t in s.spawned;
    var a := Ask(t, personas(t.worker).value, t.description);
    PlacedAfterAsk(tasks, s, i, a);
    SaneAfterAsk(personas, s, i, a);
    TraceGrows(s.trace, a);
    AskedAfterAsk(personas, tasks, s, i);
    OrderAfterAsk(personas, s, i, a);
    r := HasAsked(s, i, a);
  }

  method SettleTask(personas: Personas, tasks: seq<SubTask>, s: Phase, i: nat) returns (r: Phase)
    requires Running(personas, tasks, s) && i < |s.asked|
    ensures Running(personas, tasks, r) && Remaining(r, |tasks|) < Remaining(s, |tasks|)
  {
    var t := s.asked[i];
    assert t in s.asked;
    var o := Execute(t, t.description);
    PlacedAfterStep(tasks, s, i, o);
    SaneAfterStep(personas, s, i, o);
    SettledAfterStep(s, i, o);
    AskedAfterStep(personas, tasks, s, i, o);
    OrderAfterStep(personas, s, i, o);
    r := HasSettled(s, i, o);
  }

  method JoinTask(personas: Personas, tasks: seq<SubTask>, s: Phase, i: nat) returns (r: Phase)
    requires Running(personas, tasks, s) && s.next == |tasks| && i < |s.settled|
    ensures Running(personas, tasks, r) && Remaining(r, |tasks|) < Remaining(s, |tasks|)
  {
    assert s.settled[i] in s.settled;
    PlacedAfterJoin(tasks, s, i);
    SaneAfterJoin(personas, s, i);
    SettledAfterJoin(s, i);
    SameOrder(personas, s, Joined(s, i));
    r := Joined(s, i);
  }

  predicate Done(tasks: seq<SubTask>, s: Phase) {
    s.next >= |tasks| && s.spawned == [] && s.asked == [] && s.settled == []
  }

  /** Any one step that is possible. */
  method Advance(personas: Personas, tasks: seq<SubTask>, s: Phase) returns (r: Phase)
    requires Running(personas, tasks, s) && !Done(tasks, s)
    ensures Running(personas, tasks, r) && 0 <= Remaining(r, |tasks|) < Remaining(s, |tasks|)
  {
    if
    case s.next < |tasks| =>
      r := Spawn(personas, tasks, s);
    case s.spawned != [] =>
      var i: nat :| i < |s.spawned|;
      r := AskModel(personas, tasks, s, i);
    case s.asked != [] =>
      var i: nat :| i < |s.asked|;
      r := SettleTask(personas, tasks, s, i);
    case s.next == |tasks| && s.settled != [] =>
      var i: nat :| i < |s.settled|;
      r := JoinTask(personas, tasks, s, i);
  }

  lemma DonePlaced(tasks: seq<SubTask>, s: Phase)
    requires AllPlaced(tasks, s) && Done(tasks, s)
    ensures multiset(Map(TaskOf(), s.results)) == multiset(tasks)
  {
    assert tasks[..s.next] == tasks;
  }

  lemma DoneAsked(personas: Personas, tasks: seq<SubTask>, s: Phase)
    requires AllAskedOnce(personas, tasks, s) && Done(tasks, s)
    ensures multiset(Filter(IsAsk(), s.trace)) == multiset(Map(AskAlone(personas), Filter(Admitted(personas), tasks)))
  {
    assert tasks[..s.next] == tasks;
  }

  lemma DoneCounted(personas: Personas, tasks: seq<SubTask>, s: Phase)
    requires Counted(personas, tasks, s) && RefusedSoFar(personas, tasks, s) && Done(tasks, s)
    ensures |s.results| == |tasks| && |s.trace| == |Filter(Admitted(personas), tasks)| + |tasks|
    ensures RefusedFirst(personas, tasks, s.results)
  {
    assert tasks[..s.next] == tasks;
  }

  lemma DoneSettled(s: Phase)
    requires AllSettledOnce(s) && s.settled == []
    ensures multiset(Filter(IsSettled(), s.trace)) == multiset(Map(Settles(), s.results))
  {
  }

  lemma DoneMeans(personas: Personas, tasks: seq<SubTask>, s: Phase)
    requires Running(personas, tasks, s) && Done(tasks, s)
    ensures multiset(Map(TaskOf(), s.results)) == multiset(tasks) && |s.results| == |tasks|
    ensures forall o :: o in s.results ==> Answers(personas, o, TaskOf()(o), o.subtask)
    ensures RefusedFirst(personas, tasks, s.results)
    ensures multiset(Filter(IsSettled(), s.trace)) == multiset(Map(Settles(), s.results))
    ensures multiset(Filter(IsAsk(), s.trace)) == multiset(Map(AskAlone(personas), Filter(Admitted(personas), tasks)))
    ensures |s.trace| == |Filter(Admitted(personas), tasks)| + |tasks|
  {
    DonePlaced(tasks, s);
    DoneAsked(personas, tasks, s);
    DoneCounted(personas, tasks, s);
    DoneSettled(s);
  }

  lemma AllInTurn(personas: Personas, s: Phase)
    requires InOrder(personas)(s) && s.asked == []
    ensures InTurn(personas)(s.trace)
  {
  }

  lemma StartsRunning(personas: Personas, tasks: seq<SubTask>)
    ensures Running(personas, tasks, Phase(0, [], [], [], [], []))
  {
    assert tasks[..0] == [];
  }

  /** Spawned workers ask, settle and are joined in any order whatever. */
  method RunConcurrently(personas: Personas, tasks: seq<SubTask>)
    returns (results: seq<WorkerOutput>, trace: seq<Action>)
    ensures multiset(Map(TaskOf(), results)) == multiset(tasks) && |results| == |tasks|
    ensures forall o :: o in results ==> Answers(personas, o, TaskOf()(o), o.subtask)
    ensures RefusedFirst(personas, tasks, results)
    ensures multiset(Filter(IsSettled(), trace)) == multiset(Map(Settles(), results))
    ensures multiset(Filter(IsAsk(), trace)) == multiset(Map(AskAlone(personas), Filter(Admitted(personas), tasks)))
    ensures |trace| == |Filter(Admitted(personas), tasks)| + |tasks|
    ensures InTurn(personas)(trace)
  {
    var s := Phase(0, [], [], [], [], []);
    StartsRunning(personas, tasks);
    while !Done(tasks, s)
      invariant Running(personas, tasks, s)
      decreases Remaining(s, |tasks|)
    {
      s := Advance(personas, tasks, s);
    }
    DoneMeans(personas, tasks, s);
    AllInTurn(personas, s);
    results, trace := s.results, s.trace;
  }
}
