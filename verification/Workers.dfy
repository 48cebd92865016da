/** What workers are given and return, and what an observer of a dispatch sees. */
module Workers {
  import opened Prelude
  import opened Text

  datatype WorkerSpec = WorkerSpec(name: string, sequential: bool)

  datatype SubTask = SubTask(worker: string, description: string)

  datatype WorkerOutput = WorkerOutput(worker: string, subtask: string, output: string, blocker: Option<string>,
                                       tokens: nat)

  /** What a worker is called with; its system prompt is composed elsewhere. */
  datatype Persona = Persona(model: string, system: string)

  /** The persona of a worker, or why it has none that may work. */
  type Personas = string -> Result<Persona, string>

  /** What an observer sees: a model call with the event announcing it, and the event that settles a subtask. A call is
      labelled with the subtask it is made for. */
  datatype Action =
    | Asked(task: SubTask, persona: Persona, prompt: string, estimate: nat)
    | Finished(worker: string, subtask: string, preview: string)
    | Blocked(worker: string, subtask: string, reason: string)

  const PREVIEW_CHARS := 512
  const SEPARATOR := "\n\n---\n\n"

  /** The first spec of a name decides; an undeclared worker runs concurrently. */
  function RunsAlone(specs: seq<WorkerSpec>, worker: string): bool {
    if specs == [] then false
    else if specs[0].name == worker then specs[0].sequential
    else RunsAlone(specs[1..], worker)
  }

  ghost predicate Sequential(specs: seq<WorkerSpec>, worker: string) {
    exists i :: 0 <= i < |specs| && specs[i].name == worker && specs[i].sequential
                && forall j :: 0 <= j < i ==> specs[j].name != worker
  }

  lemma {:induction false} RunsAloneExact(specs: seq<WorkerSpec>, worker: string)
    ensures RunsAlone(specs, worker) <==> Sequential(specs, worker)
  {
    if specs != [] && specs[0].name != worker {
      var rest := specs[1..];
      RunsAloneExact(rest, worker);
      if Sequential(rest, worker) {
        var i :| 0 <= i < |rest| && rest[i].name == worker && rest[i].sequential
                 && forall j :: 0 <= j < i ==> rest[j].name != worker;
        assert specs[i + 1] == rest[i];
        assert forall j :: 0 < j < i + 1 ==> specs[j] == rest[j - 1];
      }
      if Sequential(specs, worker) {
        var i :| 0 <= i < |specs| && specs[i].name == worker && specs[i].sequential
                 && forall j :: 0 <= j < i ==> specs[j].name != worker;
        assert rest[i - 1] == specs[i];
        assert forall j :: 0 <= j < i - 1 ==> rest[j] == specs[j + 1];
      }
    }
  }

  function InSequence(specs: seq<WorkerSpec>): SubTask -> bool { (t: SubTask) => RunsAlone(specs, t.worker) }

  function InParallel(specs: seq<WorkerSpec>): SubTask -> bool { (t: SubTask) => !RunsAlone(specs, t.worker) }

  function Estimate(prompt: string): nat { Saturated(2 * |Words(prompt)|) }

  function TaskOf(): WorkerOutput -> SubTask { (o: WorkerOutput) => SubTask(o.worker, o.subtask) }

  function Unblocked(): WorkerOutput -> bool { (o: WorkerOutput) => o.blocker == None }

  function IsBlocked(): WorkerOutput -> bool { (o: WorkerOutput) => o.blocker != None }

  function Section(): WorkerOutput -> string { (o: WorkerOutput) => "[" + o.worker + "]\n" + o.output }

  lemma SectionOf(o: WorkerOutput)
    ensures Section()(o) == "[" + o.worker + "]\n" + o.output
  {
  }

  /** What a sequential worker is told of the outputs before it. */
  function Context(outputs: seq<WorkerOutput>): string {
    Join(SEPARATOR, Map(Section(), Filter(Unblocked(), outputs)))
  }

  function Prompt(context: string, description: string): string {
    if context == "" then description else "## Prior worker outputs\n\n" + context + "\n\n---\n\n" + description
  }

  /** What an output tells later workers, if anything. */
  function Told(): WorkerOutput -> Option<string> {
    (o: WorkerOutput) => if o.blocker.Some? then None else Some("[" + o.worker + "]\n" + o.output)
  }

  /** The prompt ends with the description; before it the unblocked outputs are told in order, under a heading, unless
      there are none. */
  ghost predicate Tells(prompt: string, description: string, before: seq<WorkerOutput>) {
    && EndsWith(prompt, description)
    && HoldsInOrder(prompt[..|prompt| - |description|], before, Told())
    && (prompt == description <==> forall o :: o in before ==> o.blocker.Some?)
    && (prompt != description ==>
          "## Prior worker outputs\n\n" <= prompt && EndsWith(prompt, "\n\n---\n\n" + description))
  }

  lemma SomeTold(outputs: seq<WorkerOutput>)
    ensures Context(outputs) == "" <==> forall o :: o in outputs ==> o.blocker.Some?
  {
    var unblocked := Filter(Unblocked(), outputs);
    MapAt(Section(), unblocked);
    JoinEmpty(SEPARATOR, Map(Section(), unblocked));
    if exists o :: o in outputs && o.blocker.None? {
      var o :| o in outputs && o.blocker.None?;
      assert o in unblocked;
    }
    if unblocked != [] {
      assert unblocked[0] in unblocked;
    }
  }

  lemma PromptTells(description: string, before: seq<WorkerOutput>)
    ensures Tells(Prompt(Context(before), description), description, before)
  {
    var context := Context(before);
    JoinHolds(SEPARATOR, Unblocked(), Section(), Told(), before);
    SomeTold(before);
    if context == "" {
      assert description[..0] == context;
    } else {
      var heading, line := "## Prior worker outputs\n\n", "\n\n---\n\n";
      HoldsWithin(heading, context, line, before, Told());
      var prompt := Prompt(context, description);
      assert prompt == (heading + context + line) + description;
      assert prompt[..|prompt| - |description|] == heading + context + line;
      assert prompt == (heading + context) + (line + description);
    }
  }

  function Settles(): WorkerOutput -> Action {
    (o: WorkerOutput) =>
      if o.blocker.Some? then Blocked(o.worker, o.subtask, o.blocker.value)
      else Finished(o.worker, o.subtask, if |o.output| > PREVIEW_CHARS then o.output[..PREVIEW_CHARS] else o.output)
  }

  /** A settled output is shown with its reason, or with its first 512 characters. */
  predicate Shows(b: Action, o: WorkerOutput) {
    if o.blocker.Some? then b == Blocked(o.worker, o.subtask, o.blocker.value)
    else
      && b.Finished? && b.worker == o.worker && b.subtask == o.subtask
      && b.preview <= o.output && |b.preview| == if |o.output| < 512 then |o.output| else 512
  }

  function Ask(t: SubTask, p: Persona, prompt: string): Action { Asked(t, p, prompt, Estimate(prompt)) }

  function IsAsk(): Action -> bool { (a: Action) => a.Asked? }

  function IsSettled(): Action -> bool { (a: Action) => !a.Asked? }

  function Refused(personas: Personas): SubTask -> bool { (t: SubTask) => personas(t.worker).Err? }

  function Admitted(personas: Personas): SubTask -> bool { (t: SubTask) => personas(t.worker).Ok? }

  function Refusal(personas: Personas): SubTask -> WorkerOutput {
    (t: SubTask) =>
      WorkerOutput(t.worker, t.description, "",
                   Some(if personas(t.worker).Err? then personas(t.worker).error else ""), 0)
  }

  /** The request a concurrent worker makes, without any context. */
  function AskAlone(personas: Personas): SubTask -> Action {
    (t: SubTask) => Ask(t, if personas(t.worker).Ok? then personas(t.worker).value else Persona("", ""), t.description)
  }

  /** A call is made of the persona of its worker, and announced with two tokens a word. */
  ghost predicate AskedRight(personas: Personas, a: Action)
    requires a.Asked?
  {
    personas(a.task.worker) == Ok(a.persona) && a.estimate == Saturated(|Words(a.prompt)| + |Words(a.prompt)|)
  }

  // Every request before the event that settles its subtask.

  /** The subtask a call is made for, or an event settles. */
  function TaskBehind(): Action -> SubTask {
    (a: Action) => if a.Asked? then a.task else SubTask(a.worker, a.subtask)
  }

  /** An event that settles a subtask whose worker was not refused. */
  function SettlesAdmitted(personas: Personas): Action -> bool {
    (a: Action) => !a.Asked? && personas(a.worker).Ok?
  }

  function Requests(trace: seq<Action>): multiset<SubTask> { multiset(Map(TaskBehind(), Filter(IsAsk(), trace))) }

  function Settlements(personas: Personas, trace: seq<Action>): multiset<SubTask> {
    multiset(Map(TaskBehind(), Filter(SettlesAdmitted(personas), trace)))
  }

  /** At no point have more workers settled a subtask than have made the call for it. */
  ghost predicate AskedFirst(personas: Personas, trace: seq<Action>) {
    forall k :: 0 <= k <= |trace| ==> Settlements(personas, trace[..k]) <= Requests(trace[..k])
  }

  /** Every call precedes the event that settles its subtask, and there is such an event for every call. */
  ghost function InTurn(personas: Personas): seq<Action> -> bool {
    (trace: seq<Action>) => AskedFirst(personas, trace) && Requests(trace) == Settlements(personas, trace)
  }

  /** Where all is in turn, every subtask a call was made for was settled. */
  lemma AskedSettles(personas: Personas, trace: seq<Action>, a: Action) returns (b: Action)
    requires InTurn(personas)(trace) && a in trace && a.Asked?
    ensures b in trace && !b.Asked? && TaskBehind()(b) == a.task
  {
    MapMember(TaskBehind(), Filter(IsAsk(), trace), a.task);
    assert IsAsk()(a) && TaskBehind()(a) == a.task;
    assert a.task in Settlements(personas, trace) by { assert a.task in Requests(trace); }
    MapMember(TaskBehind(), Filter(SettlesAdmitted(personas), trace), a.task);
    b :| b in Filter(SettlesAdmitted(personas), trace) && a.task == TaskBehind()(b);
    assert SettlesAdmitted(personas)(b);
  }

  /** Every event that settles comes from an output. */
  lemma SettledOutput(trace: seq<Action>, results: seq<WorkerOutput>, b: Action) returns (w: WorkerOutput)
    requires multiset(Filter(IsSettled(), trace)) == multiset(Map(Settles(), results)) && b in trace && !b.Asked?
    ensures w in results && TaskOf()(w) == TaskBehind()(b) && Shows(b, w)
  {
    assert IsSettled()(b) && b in multiset(Filter(IsSettled(), trace));
    assert b in Map(Settles(), results);
    MapMember(Settles(), results, b);
    w :| w in results && b == Settles()(w);
  }

  lemma OutputSettled(trace: seq<Action>, results: seq<WorkerOutput>, o: WorkerOutput) returns (b: Action)
    requires multiset(Filter(IsSettled(), trace)) == multiset(Map(Settles(), results)) && o in results
    ensures b in trace && Shows(b, o)
  {
    b := Settles()(o);
    MapMember(Settles(), results, b);
    assert b in multiset(Map(Settles(), results));
    assert b in Filter(IsSettled(), trace);
  }

  lemma FilterNext(keep: Action -> bool, trace: seq<Action>, a: Action)
    ensures multiset(Map(TaskBehind(), Filter(keep, trace + [a]))) ==
            if keep(a) then multiset(Map(TaskBehind(), Filter(keep, trace))) + multiset{TaskBehind()(a)}
            else multiset(Map(TaskBehind(), Filter(keep, trace)))
  {
    assert (trace + [a])[..|trace|] == trace;
    if keep(a) {
      MapOne(TaskBehind(), Filter(keep, trace), a);
    }
  }

  lemma AskedFirstGrows(personas: Personas, trace: seq<Action>, a: Action)
    requires AskedFirst(personas, trace) && Settlements(personas, trace + [a]) <= Requests(trace + [a])
    ensures AskedFirst(personas, trace + [a])
  {
    forall k | 0 <= k <= |trace + [a]|
      ensures Settlements(personas, (trace + [a])[..k]) <= Requests((trace + [a])[..k])
    {
      if k <= |trace| {
        assert (trace + [a])[..k] == trace[..k];
      } else {
        assert (trace + [a])[..k] == trace + [a];
      }
    }
  }

  /** What settling adds to the two sides that are compared. */
  lemma SettlingCounts(personas: Personas, trace: seq<Action>, o: WorkerOutput)
    ensures Requests(trace + [Settles()(o)]) == Requests(trace)
    ensures Settlements(personas, trace + [Settles()(o)]) ==
            if personas(o.worker).Ok? then Settlements(personas, trace) + multiset{TaskOf()(o)}
            else Settlements(personas, trace)
  {
    FilterNext(IsAsk(), trace, Settles()(o));
    FilterNext(SettlesAdmitted(personas), trace, Settles()(o));
  }

  lemma AskingCounts(personas: Personas, trace: seq<Action>, a: Action)
    requires a.Asked?
    ensures Requests(trace + [a]) == Requests(trace) + multiset{a.task}
    ensures Settlements(personas, trace + [a]) == Settlements(personas, trace)
  {
    FilterNext(IsAsk(), trace, a);
    FilterNext(SettlesAdmitted(personas), trace, a);
  }

  /** The model, asked with this prompt, answered with this output or failed. */
  predicate Executed(o: WorkerOutput, t: SubTask, prompt: string) {
    var estimate := Saturated(|Words(prompt)| + |Words(prompt)|);
    && o.worker == t.worker && o.subtask == t.description
    && if o.blocker.Some? then o.output == "" && o.tokens == estimate
       else o.tokens == Saturated(estimate + |Words(o.output)|)
  }

  predicate Answers(personas: Personas, o: WorkerOutput, t: SubTask, prompt: string) {
    match personas(t.worker)
    case Err(reason) => o == WorkerOutput(t.worker, t.description, "", Some(reason), 0)
    case Ok(_) => Executed(o, t, prompt)
  }

  /** The model may answer anything, or fail with any reason. */
  method Execute(t: SubTask, prompt: string) returns (o: WorkerOutput)
    ensures Executed(o, t, prompt)
  {
    var reply: Result<string, string> := *;
    match reply
    case Ok(content) =>
      o := WorkerOutput(t.worker, t.description, content, None, Saturated(Estimate(prompt) + |Words(content)|));
    case Err(reason) =>
      o := WorkerOutput(t.worker, t.description, "", Some(reason), Estimate(prompt));
  }

  lemma TraceGrows(trace: seq<Action>, a: Action)
    ensures Filter(IsAsk(), trace + [a]) == if a.Asked? then Filter(IsAsk(), trace) + [a] else Filter(IsAsk(), trace)
    ensures Filter(IsSettled(), trace + [a]) == if a.Asked? then Filter(IsSettled(), trace)
            else Filter(IsSettled(), trace) + [a]
  {
    assert (trace + [a])[..|trace|] == trace;
  }
}
