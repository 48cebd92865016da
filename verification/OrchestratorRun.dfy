/** A whole orchestrator run: plan, normalise the topology, dispatch, and replan once for what was blocked. */
module OrchestratorRun {
  import opened Prelude
  import opened Text
  import opened Workers
  import opened WorkerDispatch

  /** One object of a planner's array; a member that is missing or no string is None. */
  datatype Step = Step(worker: Option<string>, subtask: Option<string>)

  datatype PlanReply = Unavailable(reason: string) | NotAnArray | Steps(steps: seq<Step>)

  datatype Failure = MaxDepthExceeded(max: nat) | WorkerNotAllowed(name: string) | NoPlan(reason: string)

  datatype Orchestrator = Orchestrator(depth: nat, maxDepth: nat, allowed: Option<seq<string>>, specs: seq<WorkerSpec>,
                                       personas: Personas)

  datatype Report = Report(output: string, blockers: seq<string>, tokens: nat)

  function SpecName(): WorkerSpec -> string { (w: WorkerSpec) => w.name }

  /** Declared workers override the workers the persona allows. */
  function FromPersona(depth: nat, maxDepth: nat, personaAllowed: Option<seq<string>>, specs: seq<WorkerSpec>,
                       personas: Personas): Orchestrator {
    Orchestrator(depth, maxDepth, if specs == [] then personaAllowed else Some(Map(SpecName(), specs)), specs, personas)
  }

  // Plans.

  function TaskOfStep(): Step -> SubTask { (v: Step) => SubTask(v.worker.GetOr(""), v.subtask.GetOr("")) }

  /** What a step says to whom; what is missing is empty. */
  ghost predicate IsStep(v: Step, t: SubTask) {
    && t.worker == (if v.worker.Some? then v.worker.value else "")
    && t.description == (if v.subtask.Some? then v.subtask.value else "")
  }

  predicate Permits(allowed: Option<seq<string>>, worker: string) {
    allowed.Some? ==> worker in allowed.value
  }

  function ParseSteps(steps: seq<Step>, allowed: Option<seq<string>>): Result<seq<SubTask>, Failure> {
    if steps == [] then Ok([]) else
      var t := TaskOfStep()(steps[0]);
      if !Permits(allowed, t.worker) then Err(WorkerNotAllowed(t.worker)) else
        match ParseSteps(steps[1..], allowed)
        case Ok(rest) => Ok([t] + rest)
        case Err(e) => Err(e)
  }

  function ParsePlan(reply: PlanReply, allowed: Option<seq<string>>): Result<seq<SubTask>, Failure> {
    match reply
    case Unavailable(reason) => Err(NoPlan(reason))
    case NotAnArray => Err(NoPlan("planner response must be a JSON array of {worker, subtask} objects"))
    case Steps(steps) => ParseSteps(steps, allowed)
  }

  ghost predicate AllPermitted(steps: seq<Step>, allowed: Option<seq<string>>) {
    forall v :: v in steps ==> Permits(allowed, TaskOfStep()(v).worker)
  }

  /** The step at `i` is the first that names a worker that is not allowed. */
  ghost predicate FirstRefused(steps: seq<Step>, allowed: Option<seq<string>>, i: int) {
    0 <= i < |steps| && AllPermitted(steps[..i], allowed) && !Permits(allowed, TaskOfStep()(steps[i]).worker)
  }

  lemma RefusedLater(steps: seq<Step>, allowed: Option<seq<string>>, i: nat)
    requires steps != [] && FirstRefused(steps[1..], allowed, i) && Permits(allowed, TaskOfStep()(steps[0]).worker)
    ensures FirstRefused(steps, allowed, i + 1) && steps[i + 1] == steps[1..][i]
  {
    assert steps[..i + 1] == [steps[0]] + steps[1..][..i];
  }

  /** A plan is accepted whole, or refused for the first worker in it that is not allowed. */
  lemma {:induction false} PlanAccepted(steps: seq<Step>, allowed: Option<seq<string>>)
    ensures ParseSteps(steps, allowed).Ok? <==> AllPermitted(steps, allowed)
    ensures ParseSteps(steps, allowed).Ok? ==> ParseSteps(steps, allowed).value == Map(TaskOfStep(), steps)
    ensures ParseSteps(steps, allowed).Err? ==>
              exists i :: FirstRefused(steps, allowed, i)
                          && ParseSteps(steps, allowed).error == WorkerNotAllowed(TaskOfStep()(steps[i]).worker)
  {
    if steps != [] {
      var rest := steps[1..];
      PlanAccepted(rest, allowed);
      assert steps == [steps[0]] + rest;
      if !Permits(allowed, TaskOfStep()(steps[0]).worker) {
        assert FirstRefused(steps, allowed, 0);
      } else if ParseSteps(rest, allowed).Err? {
        var i :| FirstRefused(rest, allowed, i) && ParseSteps(rest, allowed).error ==
            WorkerNotAllowed(TaskOfStep()(rest[i]).worker);
        RefusedLater(steps, allowed, i);
      } else {
        MapFirst(TaskOfStep(), steps);
      }
    }
  }

  lemma MapFirst<A, B>(f: A -> B, xs: seq<A>)
    requires xs != []
    ensures Map(f, xs) == [f(xs[0])] + Map(f, xs[1..])
  {
    assert xs == [xs[0]] + xs[1..];
    MapAppend(f, [xs[0]], xs[1..]);
    assert Map(f, [xs[0]]) == [f(xs[0])];
  }

  /** A planner's reply is a plan exactly if it is an array that names no worker that is not allowed. */
  lemma PlanParsed(reply: PlanReply, allowed: Option<seq<string>>)
    ensures ParsePlan(reply, allowed).Ok? <==> reply.Steps? && AllPermitted(reply.steps, allowed)
    ensures ParsePlan(reply, allowed).Ok? ==> |ParsePlan(reply, allowed).value| == |reply.steps|
    ensures ParsePlan(reply, allowed).Ok? ==>
              forall i :: 0 <= i < |reply.steps| ==> IsStep(reply.steps[i], ParsePlan(reply, allowed).value[i])
    ensures reply.Steps? && ParsePlan(reply, allowed).Err? ==>
              exists i :: FirstRefused(reply.steps, allowed, i)
                          && ParsePlan(reply, allowed).error ==
                             WorkerNotAllowed(TaskOfStep()(reply.steps[i]).worker)
  {
    if reply.Steps? {
      PlanAccepted(reply.steps, allowed);
      MapAt(TaskOfStep(), reply.steps);
    }
  }

  lemma NamedByStep(reply: PlanReply, allowed: Option<seq<string>>, worker: string)
    requires ParsePlan(reply, allowed).Ok? && exists t :: t in ParsePlan(reply, allowed).value && t.worker == worker
    ensures exists v :: v in reply.steps && TaskOfStep()(v).worker == worker
  {
    PlanAccepted(reply.steps, allowed);
    var t :| t in ParsePlan(reply, allowed).value && t.worker == worker;
    MapMember(TaskOfStep(), reply.steps, t);
  }

  lemma PlanPermitted(reply: PlanReply, allowed: Option<seq<string>>)
    ensures ParsePlan(reply, allowed).Ok? ==> forall t :: t in ParsePlan(reply, allowed).value ==>
            Permits(allowed, t.worker)
  {
    if reply.Steps? && ParsePlan(reply, allowed).Ok? {
      PlanAccepted(reply.steps, allowed);
      forall t | t in ParsePlan(reply, allowed).value ensures Permits(allowed, t.worker) {
        MapMember(TaskOfStep(), reply.steps, t);
      }
    }
  }

  // The declared topology.

  function ForWorker(worker: string): SubTask -> bool { (t: SubTask) => t.worker == worker }

  function DescriptionOf(): SubTask -> string { (t: SubTask) => t.description }

  /** What the plan says to a worker, in plan order. */
  function PartsFor(planned: seq<SubTask>, worker: string): seq<string> {
    Map(DescriptionOf(), Filter(ForWorker(worker), planned))
  }

  function TextFor(planned: seq<SubTask>, worker: string, task: string): string {
    var text := Join("\n\n", PartsFor(planned, worker));
    if Blank(text) then task else text
  }

  /** What the plan says to a worker, if it is to that one. */
  function Said(worker: string): SubTask -> Option<string> {
    (t: SubTask) => if t.worker == worker then Some(t.description) else None
  }

  /** A worker is given all that the plan says to it, in plan order, unless that is blank: then the request. */
  lemma TextSays(planned: seq<SubTask>, worker: string, task: string)
    ensures if forall t :: t in planned && t.worker == worker ==> Blank(t.description)
            then TextFor(planned, worker, task) == task
            else HoldsInOrder(TextFor(planned, worker, task), planned, Said(worker))
  {
    JoinHolds("\n\n", ForWorker(worker), DescriptionOf(), Said(worker), planned);
    BlankText(planned, worker);
  }

  lemma BlankText(planned: seq<SubTask>, worker: string)
    ensures Blank(Join("\n\n", PartsFor(planned, worker))) <==>
            forall t :: t in planned && t.worker == worker ==> Blank(t.description)
  {
    var chosen := Filter(ForWorker(worker), planned);
    BlankJoin("\n\n", PartsFor(planned, worker));
    MapAt(DescriptionOf(), chosen);
    forall t | t in planned && t.worker == worker ensures t.description in PartsFor(planned, worker) {
      assert ForWorker(worker)(t) && t in chosen;
      MapMember(DescriptionOf(), chosen, t.description);
      assert DescriptionOf()(t) == t.description;
    }
    forall p | p in PartsFor(planned, worker)
      ensures exists t :: t in planned && t.worker == worker && t.description == p
    {
      MapMember(DescriptionOf(), chosen, p);
    }
  }

  lemma {:induction false} BlankJoin(separator: string, parts: seq<string>)
    requires Blank(separator)
    ensures Blank(Join(separator, parts)) <==> forall p :: p in parts ==> Blank(p)
  {
    if parts != [] {
      var init, last := parts[..|parts| - 1], parts[|parts| - 1];
      BlankJoin(separator, init);
      assert parts == init + [last];
      JoinSnoc(separator, init, last);
      BlankBoth(Join(separator, init), separator);
      BlankBoth(Join(separator, init) + separator, last);
    }
  }

  lemma BlankBoth(a: string, b: string)
    ensures Blank(a + b) <==> Blank(a) && Blank(b)
  {
    forall c | c in a + b ensures c in a || c in b {
    }
    assert forall c :: c in a || c in b ==> c in a + b;
  }

  ghost predicate Declared(specs: seq<WorkerSpec>, worker: string) {
    exists w :: w in specs && w.name == worker
  }

  ghost function Assigned(specs: seq<WorkerSpec>, planned: seq<SubTask>, task: string, i: nat): SubTask
    requires i < |specs|
  {
    SubTask(specs[i].name, if Declared(specs[..i], specs[i].name) then task else TextFor(planned, specs[i].name, task))
  }

  /** A subtask per spec, in spec order: the first of a name gets the planned text, later ones the original request. */
  ghost predicate IsTopology(r: seq<SubTask>, specs: seq<WorkerSpec>, planned: seq<SubTask>, task: string) {
    && |r| == |specs|
    && forall i :: 0 <= i < |specs| ==> r[i] == Assigned(specs, planned, task, i)
  }

  /** The first spec of a name is given what the plan says to it, unless that is blank; any other spec the request. */
  lemma TopologyTexts(r: seq<SubTask>, specs: seq<WorkerSpec>, planned: seq<SubTask>, task: string, i: nat)
    requires IsTopology(r, specs, planned, task) && i < |specs|
    ensures r[i].worker == specs[i].name
    ensures if (exists j :: 0 <= j < i && specs[j].name == specs[i].name)
               || forall t :: t in planned && t.worker == specs[i].name ==> Blank(t.description)
            then r[i].description == task
            else HoldsInOrder(r[i].description, planned, Said(specs[i].name))
  {
    assert r[i] == Assigned(specs, planned, task, i);
    TextSays(planned, specs[i].name, task);
    if exists j :: 0 <= j < i && specs[j].name == specs[i].name {
      var j :| 0 <= j < i && specs[j].name == specs[i].name;
      assert specs[..i][j] in specs[..i];
    }
  }

  ghost predicate Groups(byWorker: map<string, seq<string>>, planned: seq<SubTask>) {
    forall w :: (w in byWorker <==> PartsFor(planned, w) != [])
      && (w in byWorker ==> byWorker[w] == PartsFor(planned, w))
  }

  lemma PartsNext(planned: seq<SubTask>, k: nat, worker: string)
    requires k < |planned|
    ensures PartsFor(planned[..k + 1], worker) ==
            if planned[k].worker == worker then PartsFor(planned[..k], worker) + [planned[k].description]
            else PartsFor(planned[..k], worker)
  {
    TakesNext(ForWorker(worker), planned, k);
    MapOne(DescriptionOf(), Filter(ForWorker(worker), planned[..k]), planned[k]);
  }

  lemma PartsPlanned(planned: seq<SubTask>, worker: string)
    ensures PartsFor(planned, worker) != [] <==> exists t :: t in planned && t.worker == worker
  {
  }

  /** The parts of each worker with one more subtask of the plan. */
  function WithPart(byWorker: map<string, seq<string>>, t: SubTask): map<string, seq<string>> {
    byWorker[t.worker := (if t.worker in byWorker then byWorker[t.worker] else []) + [t.description]]
  }

  lemma GroupNext(byWorker: map<string, seq<string>>, planned: seq<SubTask>, k: nat, w: string)
    requires k < |planned| && Groups(byWorker, planned[..k])
    ensures var next, parts := WithPart(byWorker, planned[k]), PartsFor(planned[..k + 1], w);
            (w in next <==> parts != []) && (w in next ==> next[w] == parts)
  {
    PartsNext(planned, k, w);
  }

  lemma GroupsNext(byWorker: map<string, seq<string>>, planned: seq<SubTask>, k: nat)
    requires k < |planned| && Groups(byWorker, planned[..k])
    ensures Groups(WithPart(byWorker, planned[k]), planned[..k + 1])
  {
    forall w
      ensures var next, parts := WithPart(byWorker, planned[k]), PartsFor(planned[..k + 1], w);
              (w in next <==> parts != []) && (w in next ==> next[w] == parts)
    {
      GroupNext(byWorker, planned, k, w);
    }
  }

  method Group(planned: seq<SubTask>) returns (byWorker: map<string, seq<string>>)
    ensures Groups(byWorker, planned)
  {
    byWorker := map[];
    for i := 0 to |planned|
      invariant Groups(byWorker, planned[..i])
    {
      var t := planned[i];
      GroupsNext(byWorker, planned, i);
      byWorker := byWorker[t.worker := (if t.worker in byWorker then byWorker[t.worker] else []) + [t.description]];
    }
    assert planned[..|planned|] == planned;
  }

  method FindUndeclared(specs: seq<WorkerSpec>, workers: set<string>) returns (undeclared: Option<string>)
    ensures undeclared.None? ==> forall w :: w in workers ==> Declared(specs, w)
    ensures undeclared.Some? ==> undeclared.value in workers && !Declared(specs, undeclared.value)
  {
    var allowed := set w | w in specs :: w.name;
    var rest := workers;
    while rest != {}
      invariant rest <= workers && forall w :: w in workers - rest ==> Declared(specs, w)
      decreases rest
    {
      var w :| w in rest;
      if w !in allowed {
        return Some(w);
      }
      rest := rest - {w};
    }
    return None;
  }

  method NormalizeTopology(specs: seq<WorkerSpec>, task: string, planned: seq<SubTask>)
    returns (r: Result<seq<SubTask>, Failure>)
    ensures specs == [] ==> r == Ok(planned)
    ensures specs != [] ==> (r.Ok? <==> forall t :: t in planned ==> Declared(specs, t.worker))
    ensures specs != [] && r.Ok? ==> IsTopology(r.value, specs, planned, task)
    ensures r.Err? ==> r.error.WorkerNotAllowed? && !Declared(specs, r.error.name)
                       && exists t :: t in planned && t.worker == r.error.name
  {
    if specs == [] {
      return Ok(planned);
    }
    var byWorker := Group(planned);
    forall w { PartsPlanned(planned, w); }
    var undeclared := FindUndeclared(specs, byWorker.Keys);
    if undeclared.Some? {
      assert undeclared.value in byWorker;
      return Err(WorkerNotAllowed(undeclared.value));
    }
    forall t | t in planned ensures Declared(specs, t.worker) {
      assert t.worker in byWorker;
    }
    var tasks := TakeTexts(specs, task, planned, byWorker);
    r := Ok(tasks);
  }

  /** The names of the first `i` specs have been taken. */
  ghost predicate Left(left: map<string, seq<string>>, byWorker: map<string, seq<string>>, specs: seq<WorkerSpec>) {
    forall w :: (w in left <==> w in byWorker && !Declared(specs, w)) && (w in left ==> left[w] == byWorker[w])
  }

  lemma LeftNext(left: map<string, seq<string>>, byWorker: map<string, seq<string>>, specs: seq<WorkerSpec>, i: nat)
    requires i < |specs| && Left(left, byWorker, specs[..i])
    ensures Left(left - {specs[i].name}, byWorker, specs[..i + 1])
  {
  }

  method TakeText(left: map<string, seq<string>>, ghost byWorker: map<string, seq<string>>, specs: seq<WorkerSpec>,
                  ghost planned: seq<SubTask>, task: string, i: nat) returns (description: string)
    requires i < |specs| && Groups(byWorker, planned) && Left(left, byWorker, specs[..i])
    ensures description == if Declared(specs[..i], specs[i].name) then task else TextFor(planned, specs[i].name, task)
  {
    var name := specs[i].name;
    assert PartsFor(planned, name) == [] ==> TextFor(planned, name, task) == task;
    if name in left {
      var text := Join("\n\n", left[name]);
      description := if Blank(text) then task else text;
    } else {
      description := task;
    }
  }

  ghost predicate AssignedSoFar(r: seq<SubTask>, specs: seq<WorkerSpec>, planned: seq<SubTask>, task: string) {
    |r| <= |specs| && forall k :: 0 <= k < |r| ==> r[k] == Assigned(specs, planned, task, k)
  }

  lemma AssignedNext(r: seq<SubTask>, specs: seq<WorkerSpec>, planned: seq<SubTask>, task: string, t: SubTask)
    requires AssignedSoFar(r, specs, planned, task) && |r| < |specs| && t == Assigned(specs, planned, task, |r|)
    ensures AssignedSoFar(r + [t], specs, planned, task)
  {
  }

  /** The text of a name goes to its first spec, and is gone for later ones. */
  method TakeTexts(specs: seq<WorkerSpec>, task: string, ghost planned: seq<SubTask>, byWorker: map<string,
                   seq<string>>)
    returns (r: seq<SubTask>)
    requires Groups(byWorker, planned)
    ensures IsTopology(r, specs, planned, task)
  {
    r := [];
    var left := byWorker;
    assert Left(left, byWorker, specs[..0]);
    for i := 0 to |specs|
      invariant |r| == i && Left(left, byWorker, specs[..i])
      invariant AssignedSoFar(r, specs, planned, task)
    {
      var description := TakeText(left, byWorker, specs, planned, task, i);
      LeftNext(left, byWorker, specs, i);
      AssignedNext(r, specs, planned, task, SubTask(specs[i].name, description));
      left := left - {specs[i].name};
      r := r + [SubTask(specs[i].name, description)];
    }
  }

  // The run.

  method DrainBlocked(outputs: seq<WorkerOutput>) returns (blocked: seq<WorkerOutput>, rest: seq<WorkerOutput>)
    ensures blocked == Filter(IsBlocked(), outputs) && rest == Filter(Unblocked(), outputs)
    ensures multiset(outputs) == multiset(blocked) + multiset(rest)
  {
    blocked, rest := [], [];
    for i := 0 to |outputs|
      invariant blocked == Filter(IsBlocked(), outputs[..i]) && rest == Filter(Unblocked(), outputs[..i])
    {
      FilterSnoc(IsBlocked(), outputs, i);
      FilterSnoc(Unblocked(), outputs, i);
      if outputs[i].blocker.Some? {
        blocked := blocked + [outputs[i]];
      } else {
        rest := rest + [outputs[i]];
      }
    }
    assert outputs[..|outputs|] == outputs;
    FilterPartition(IsBlocked(), Unblocked(), outputs);
  }

  function BlockerOf(): WorkerOutput -> seq<string> {
    (o: WorkerOutput) => if o.blocker.Some? then [o.blocker.value] else []
  }

  function Paragraph(): WorkerOutput -> string { (o: WorkerOutput) => Section()(o) + "\n\n" }

  function TokenSum(outputs: seq<WorkerOutput>): nat {
    if outputs == [] then 0 else TokenSum(outputs[..|outputs| - 1]) + outputs[|outputs| - 1].tokens
  }

  /** All outputs in order without the trailing white space, the reasons of the blocked ones, and the tokens of all. */
  ghost predicate Reports(r: Report, outputs: seq<WorkerOutput>) {
    && r.output == TrimEnd(FlatMap(Paragraph(), outputs))
    && r.blockers == FlatMap(BlockerOf(), outputs) && r.tokens == TokenSum(outputs)
  }

  /** Every output is in the report. */
  function Reported(): WorkerOutput -> Option<string> {
    (o: WorkerOutput) => Some("[" + o.worker + "]\n" + o.output)
  }

  lemma {:induction false} ParagraphsHold(outputs: seq<WorkerOutput>)
    ensures HoldsInOrder(FlatMap(Paragraph(), outputs), outputs, Reported())
  {
    if outputs != [] {
      var init, last := outputs[..|outputs| - 1], outputs[|outputs| - 1];
      ParagraphsHold(init);
      var piece := "[" + last.worker + "]\n" + last.output;
      ParagraphOf(last);
      assert FlatMap(Paragraph(), outputs) == FlatMap(Paragraph(), init) + piece + "\n\n";
    }
  }

  /** But for white space at the very end, a report holds every output in order. */
  lemma ReportHolds(r: Report, outputs: seq<WorkerOutput>) returns (space: string)
    requires Reports(r, outputs)
    ensures Blank(space) && HoldsInOrder(r.output + space, outputs, Reported())
  {
    var text := FlatMap(Paragraph(), outputs);
    TrimEndExact(text);
    ParagraphsHold(outputs);
    space := text[|r.output|..];
    assert text == r.output + space;
  }

  lemma ParagraphOf(o: WorkerOutput)
    ensures Paragraph()(o) == "[" + o.worker + "]\n" + o.output + "\n\n"
  {
    SectionOf(o);
  }

  method Combine(outputs: seq<WorkerOutput>) returns (r: Report)
    ensures Reports(r, outputs)
  {
    var text, blockers, tokens := "", [], 0;
    for i := 0 to |outputs|
      invariant text == FlatMap(Paragraph(), outputs[..i])
      invariant blockers == FlatMap(BlockerOf(), outputs[..i]) && tokens == TokenSum(outputs[..i])
    {
      FlatMapNext(Paragraph(), outputs, i);
      FlatMapNext(BlockerOf(), outputs, i);
      assert outputs[..i + 1][..i] == outputs[..i];
      ParagraphOf(outputs[i]);
      text, tokens := text + ("[" + outputs[i].worker + "]\n" + outputs[i].output + "\n\n"), tokens + outputs[i].tokens;
      if outputs[i].blocker.Some? {
        blockers := blockers + [outputs[i].blocker.value];
      } else {
        assert blockers + [] == blockers;
      }
    }
    assert outputs[..|outputs|] == outputs;
    r := Report(TrimEnd(text), blockers, tokens);
  }

  /** The outputs after the one replan: blocked ones give way only to a non-empty revised plan. */
  ghost predicate Replanned(o: Orchestrator, first: seq<WorkerOutput>, second: PlanReply, outputs: seq<WorkerOutput>,
                            again: Round) {
    var blocked, kept := Filter(IsBlocked(), first), Filter(Unblocked(), first);
    var revised := ParsePlan(second, o.allowed);
    if blocked == [] then outputs == first && again == Round([], [])
    else if revised.Ok? && revised.value != [] then
      && outputs == kept + again.outputs && InTurn(o.personas)(again.trace)
      && Dispatched(o.specs, o.personas, revised.value, again.outputs, again.trace)
    else outputs == kept + blocked && again == Round([], [])
  }

  method Replan(o: Orchestrator, first: seq<WorkerOutput>, second: PlanReply)
    returns (outputs: seq<WorkerOutput>, again: Round, planCalls: nat)
    ensures Replanned(o, first, second, outputs, again)
    ensures planCalls == if Filter(IsBlocked(), first) == [] then 0 else 1
  {
    var blocked, rest := DrainBlocked(first);
    outputs, again, planCalls := rest, Round([], []), 0;
    if blocked == [] {
      NoneBlocked(first);
      return;
    }
    planCalls := 1;
    var revised := ParsePlan(second, o.allowed);
    if revised.Ok? && revised.value != [] {
      var results, trace := Dispatch(o.specs, o.personas, revised.value);
      outputs, again := outputs + results, Round(results, trace);
    } else {
      outputs := outputs + blocked;
    }
  }

  lemma {:induction false} NoneBlocked(outputs: seq<WorkerOutput>)
    requires Filter(IsBlocked(), outputs) == []
    ensures Filter(Unblocked(), outputs) == outputs
  {
    forall o | o in outputs ensures Unblocked()(o) {
      if o.blocker.Some? {
        assert o in Filter(IsBlocked(), outputs);
      }
    }
    FilterUniform(Unblocked(), outputs, true);
  }

  /** What a run that gets past its guards plans first. */
  ghost predicate Planned(o: Orchestrator, task: string, reply: PlanReply, subtasks: seq<SubTask>) {
    var plan := ParsePlan(reply, o.allowed);
    && plan.Ok?
    && if o.specs == [] then subtasks == plan.value
       else
         && (forall t :: t in plan.value ==> Declared(o.specs, t.worker))
         && IsTopology(subtasks, o.specs, plan.value, task)
  }

  ghost predicate Starts(o: Orchestrator, first: PlanReply) {
    && o.depth < o.maxDepth && o.allowed != Some([])
    && ParsePlan(first, o.allowed).Ok?
    && (o.specs != [] ==> forall t :: t in ParsePlan(first, o.allowed).value ==> Declared(o.specs, t.worker))
  }

  /** Why a run does not start. */
  ghost predicate Refuses(o: Orchestrator, first: PlanReply, e: Failure) {
    if o.depth >= o.maxDepth then e == MaxDepthExceeded(o.maxDepth)
    else if o.allowed == Some([]) then e == WorkerNotAllowed("<none>")
    else
      match first
      case Unavailable(reason) => e == NoPlan(reason)
      case NotAnArray => e == NoPlan("planner response must be a JSON array of {worker, subtask} objects")
      case Steps(steps) =>
        && e.WorkerNotAllowed?
        && if AllPermitted(steps, o.allowed) then
             !Declared(o.specs, e.name) && exists v :: v in steps && TaskOfStep()(v).worker == e.name
           else exists i :: FirstRefused(steps, o.allowed, i) && e.name == TaskOfStep()(steps[i]).worker
  }

  /** A dispatch: its outputs and its trace. */
  datatype Round = Round(outputs: seq<WorkerOutput>, trace: seq<Action>)

  /** Everything a successful run does, in one round or in two. */
  ghost predicate Worked(o: Orchestrator, subtasks: seq<SubTask>, second: PlanReply, first: Round, again: Round,
                         outputs: seq<WorkerOutput>, trace: seq<Action>) {
    && Dispatched(o.specs, o.personas, subtasks, first.outputs, first.trace) && InTurn(o.personas)(first.trace)
    && Replanned(o, first.outputs, second, outputs, again)
    && trace == first.trace + again.trace
  }

  method Work(o: Orchestrator, subtasks: seq<SubTask>, second: PlanReply)
    returns (report: Report, outputs: seq<WorkerOutput>, trace: seq<Action>, planCalls: nat, ghost first: Round,
             ghost again: Round)
    ensures Worked(o, subtasks, second, first, again, outputs, trace) && Reports(report, outputs)
    ensures planCalls == if Filter(IsBlocked(), first.outputs) == [] then 0 else 1
  {
    var results, traceFirst := Dispatch(o.specs, o.personas, subtasks);
    var extra;
    outputs, extra, planCalls := Replan(o, results, second);
    trace, first, again := traceFirst + extra.trace, Round(results, traceFirst), extra;
    report := Combine(outputs);
  }

  method PlanTasks(o: Orchestrator, task: string, reply: PlanReply)
    returns (r: Result<seq<SubTask>, Failure>, planCalls: nat)
    ensures r.Ok? <==> Starts(o, reply)
    ensures if r.Ok? then Planned(o, task, reply, r.value) else Refuses(o, reply, r.error)
    ensures planCalls == if o.depth >= o.maxDepth || o.allowed == Some([]) then 0 else 1
  {
    if o.depth >= o.maxDepth {
      return Err(MaxDepthExceeded(o.maxDepth)), 0;
    }
    if o.allowed == Some([]) {
      return Err(WorkerNotAllowed("<none>")), 0;
    }
    planCalls := 1;
    var plan := ParsePlan(reply, o.allowed);
    PlanParsed(reply, o.allowed);
    if plan.Err? {
      return Err(plan.error), planCalls;
    }
    r := NormalizeTopology(o.specs, task, plan.value);
    if r.Err? {
      NamedByStep(reply, o.allowed, r.error.name);
    }
  }

  /** `reply` and `second` are what the planner would answer, `outputs` what is recorded as the last run. */
  method Run(o: Orchestrator, task: string, reply: PlanReply, second: PlanReply)
    returns (r: Result<Report, Failure>, outputs: seq<WorkerOutput>, trace: seq<Action>, planCalls: nat,
             ghost subtasks: seq<SubTask>, ghost first: Round, ghost again: Round)
    ensures r.Ok? <==> Starts(o, reply)
    ensures r.Err? ==> Refuses(o, reply, r.error) && outputs == [] && trace == [] && planCalls <= 1
    ensures planCalls == 0 <==> o.depth >= o.maxDepth || o.allowed == Some([])
    ensures r.Ok? ==> Planned(o, task, reply, subtasks) && Worked(o, subtasks, second, first, again, outputs, trace)
    ensures r.Ok? ==> planCalls == if Filter(IsBlocked(), first.outputs) == [] then 1 else 2
    ensures r.Ok? ==> Reports(r.value, outputs)
  {
    outputs, trace, subtasks, first, again := [], [], [], Round([], []), Round([], []);
    var plan;
    plan, planCalls := PlanTasks(o, task, reply);
    if plan.Err? {
      r := Err(plan.error);
      return;
    }
    subtasks := plan.value;
    var report, calls;
    report, outputs, trace, calls, first, again := Work(o, plan.value, second);
    planCalls := planCalls + calls;
    r := Ok(report);
  }

  // What a run guarantees.

  lemma WorkersOf(subtasks: seq<SubTask>, results: seq<WorkerOutput>, w: WorkerOutput)
    requires multiset(Map(TaskOf(), results)) == multiset(subtasks) && w in results
    ensures TaskOf()(w) in subtasks
  {
    MapMember(TaskOf(), results, TaskOf()(w));
    assert TaskOf()(w) in multiset(Map(TaskOf(), results));
  }

  lemma PlannedAllowed(o: Orchestrator, task: string, first: PlanReply, subtasks: seq<SubTask>, t: SubTask)
    requires Planned(o, task, first, subtasks) && t in subtasks
    requires o.specs != [] ==> o.allowed == Some(Map(SpecName(), o.specs))
    ensures Permits(o.allowed, t.worker)
  {
    PlanPermitted(first, o.allowed);
    if o.specs != [] {
      var i :| 0 <= i < |subtasks| && subtasks[i] == t;
      assert subtasks[i] == Assigned(o.specs, ParsePlan(first, o.allowed).value, task, i);
      assert o.specs[i] in o.specs && SpecName()(o.specs[i]) == t.worker;
      MapMember(SpecName(), o.specs, t.worker);
    }
  }

  lemma AgainAllowed(o: Orchestrator, first: seq<WorkerOutput>, second: PlanReply, outputs: seq<WorkerOutput>,
                     again: Round, w: WorkerOutput)
    requires Replanned(o, first, second, outputs, again) && w in again.outputs
    ensures Permits(o.allowed, w.worker)
  {
    WorkersOf(ParsePlan(second, o.allowed).value, again.outputs, w);
    PlanPermitted(second, o.allowed);
  }

  lemma OutputsFrom(o: Orchestrator, first: seq<WorkerOutput>, second: PlanReply, outputs: seq<WorkerOutput>,
                    again: Round, w: WorkerOutput)
    requires Replanned(o, first, second, outputs, again) && w in outputs
    ensures w in first || w in again.outputs
  {
  }

  lemma OutputAllowed(o: Orchestrator, task: string, reply: PlanReply, second: PlanReply, subtasks: seq<SubTask>,
                      first: Round, again: Round, outputs: seq<WorkerOutput>, trace: seq<Action>, w: WorkerOutput)
    requires o.specs != [] ==> o.allowed == Some(Map(SpecName(), o.specs))
    requires Planned(o, task, reply, subtasks) && Worked(o, subtasks, second, first, again, outputs, trace)
    requires w in outputs || w in first.outputs || w in again.outputs
    ensures Permits(o.allowed, w.worker)
  {
    if w in outputs {
      OutputsFrom(o, first.outputs, second, outputs, again, w);
    }
    if w in first.outputs {
      WorkersOf(subtasks, first.outputs, w);
      PlannedAllowed(o, task, reply, subtasks, TaskOf()(w));
    } else {
      AgainAllowed(o, first.outputs, second, outputs, again, w);
    }
  }

  /** A round in which all is in turn and one event settles each output. */
  ghost predicate RoundRight(personas: Personas, round: Round) {
    && InTurn(personas)(round.trace)
    && multiset(Filter(IsSettled(), round.trace)) == multiset(Map(Settles(), round.outputs))
  }

  /** Whatever is seen in a round is about the subtask of one of its outputs. */
  lemma ActionOutput(personas: Personas, round: Round, a: Action) returns (w: WorkerOutput)
    requires RoundRight(personas, round) && a in round.trace
    ensures w in round.outputs && TaskOf()(w) == TaskBehind()(a)
  {
    var b := a;
    if a.Asked? {
      b := AskedSettles(personas, round.trace, a);
    }
    w := SettledOutput(round.trace, round.outputs, b);
  }

  lemma RoundsRight(o: Orchestrator, subtasks: seq<SubTask>, second: PlanReply, first: Round, again: Round,
                    outputs: seq<WorkerOutput>, trace: seq<Action>)
    requires Worked(o, subtasks, second, first, again, outputs, trace)
    ensures RoundRight(o.personas, first) && (again == Round([], []) || RoundRight(o.personas, again))
    ensures trace == first.trace + again.trace
  {
  }

  lemma ActionAllowed(o: Orchestrator, task: string, reply: PlanReply, second: PlanReply, subtasks: seq<SubTask>,
                      first: Round, again: Round, outputs: seq<WorkerOutput>, trace: seq<Action>, a: Action)
    requires o.specs != [] ==> o.allowed == Some(Map(SpecName(), o.specs))
    requires Planned(o, task, reply, subtasks) && Worked(o, subtasks, second, first, again, outputs, trace)
    requires a in trace
    ensures Permits(o.allowed, if a.Asked? then a.task.worker else a.worker)
  {
    RoundsRight(o, subtasks, second, first, again, outputs, trace);
    var w := ActionOutput(o.personas, if a in first.trace then first else again, a);
    OutputAllowed(o, task, reply, second, subtasks, first, again, outputs, trace, w);
  }

  /** The worker is in the list of the persona, if there is one; declared workers take the place of that list. */
  ghost predicate MayWork(personaAllowed: Option<seq<string>>, specs: seq<WorkerSpec>, worker: string) {
    if specs == [] then personaAllowed.Some? ==> worker in personaAllowed.value
    else exists w :: w in specs && w.name == worker
  }

  lemma PermitsMayWork(depth: nat, maxDepth: nat, personaAllowed: Option<seq<string>>, specs: seq<WorkerSpec>,
                       personas: Personas, worker: string)
    ensures var o := FromPersona(depth, maxDepth, personaAllowed, specs, personas);
            Permits(o.allowed, worker) <==> MayWork(personaAllowed, specs, worker)
  {
    if specs != [] {
      MapMember(SpecName(), specs, worker);
      if exists w :: w in specs && w.name == worker {
        var w :| w in specs && w.name == worker;
        assert SpecName()(w) == worker;
      }
    }
  }

  /** A run of an orchestrator made from a persona asks, settles and returns outputs only of workers that may work. */
  lemma OnlyAllowedWorkers(depth: nat, maxDepth: nat, personaAllowed: Option<seq<string>>, specs: seq<WorkerSpec>,
                           personas: Personas, task: string, reply: PlanReply, second: PlanReply,
                           subtasks: seq<SubTask>, first: Round, again: Round, outputs: seq<WorkerOutput>,
                           trace: seq<Action>)
    requires var o := FromPersona(depth, maxDepth, personaAllowed, specs, personas);
             Planned(o, task, reply, subtasks) && Worked(o, subtasks, second, first, again, outputs, trace)
    ensures forall w :: w in outputs || w in first.outputs || w in again.outputs ==>
              MayWork(personaAllowed, specs, w.worker)
    ensures forall a :: a in trace ==> MayWork(personaAllowed, specs, if a.Asked? then a.task.worker else a.worker)
  {
    var o := FromPersona(depth, maxDepth, personaAllowed, specs, personas);
    forall w | w in outputs || w in first.outputs || w in again.outputs
      ensures MayWork(personaAllowed, specs, w.worker)
    {
      OutputAllowed(o, task, reply, second, subtasks, first, again, outputs, trace, w);
      PermitsMayWork(depth, maxDepth, personaAllowed, specs, personas, w.worker);
    }
    forall a | a in trace ensures MayWork(personaAllowed, specs, if a.Asked? then a.task.worker else a.worker) {
      ActionAllowed(o, task, reply, second, subtasks, first, again, outputs, trace, a);
      PermitsMayWork(depth, maxDepth, personaAllowed, specs, personas, if a.Asked? then a.task.worker else a.worker);
    }
  }

  ghost predicate NamesAllowed(v: Step, personaAllowed: Option<seq<string>>, specs: seq<WorkerSpec>) {
    MayWork(personaAllowed, specs, if v.worker.Some? then v.worker.value else "")
  }

  /** A run starts exactly if it is not too deep, someone may work, and the planner names no one else. */
  lemma StartsExactly(depth: nat, maxDepth: nat, personaAllowed: Option<seq<string>>, specs: seq<WorkerSpec>,
                      personas: Personas, reply: PlanReply)
    ensures var o := FromPersona(depth, maxDepth, personaAllowed, specs, personas);
            Starts(o, reply) <==>
              depth < maxDepth && (specs == [] ==> personaAllowed != Some([])) && reply.Steps?
              && forall v :: v in reply.steps ==> NamesAllowed(v, personaAllowed, specs)
  {
    var o := FromPersona(depth, maxDepth, personaAllowed, specs, personas);
    MapAt(SpecName(), specs);
    if reply.Steps? {
      PlanAccepted(reply.steps, o.allowed);
      forall v | v in reply.steps
        ensures Permits(o.allowed, TaskOfStep()(v).worker) <==> NamesAllowed(v, personaAllowed, specs)
      {
        PermitsMayWork(depth, maxDepth, personaAllowed, specs, personas, TaskOfStep()(v).worker);
      }
      if ParsePlan(reply, o.allowed).Ok? && specs != [] {
        forall t | t in ParsePlan(reply, o.allowed).value ensures Declared(specs, t.worker) {
          PlanPermitted(reply, o.allowed);
          PermitsMayWork(depth, maxDepth, personaAllowed, specs, personas, t.worker);
        }
      }
    }
  }

  /** Unblocked first-round outputs survive, and blocked ones too unless a non-empty revised plan replaces them. */
  lemma FirstRoundSurvives(o: Orchestrator, second: PlanReply, first: seq<WorkerOutput>, again: Round,
                           outputs: seq<WorkerOutput>)
    requires Replanned(o, first, second, outputs, again)
    ensures var revised := ParsePlan(second, o.allowed);
            if Filter(IsBlocked(), first) != [] && revised.Ok? && revised.value != [] then
              multiset(outputs) == multiset(Filter(Unblocked(), first)) + multiset(again.outputs)
            else multiset(outputs) == multiset(first)
  {
    FilterPartition(IsBlocked(), Unblocked(), first);
  }
}
