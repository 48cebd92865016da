/** Workers dispatched in two phases: concurrently in any order, then one at a time on accumulated context. */
module WorkerDispatch {
  import opened Prelude
  import opened Text
  import opened Workers
  import opened ConcurrentPhase

  /** What one sequential worker does after the given outputs. */
  function ActionsAfter(personas: Personas): (seq<WorkerOutput>, SubTask, WorkerOutput) -> seq<Action> {
    (before: seq<WorkerOutput>, t: SubTask, o: WorkerOutput) =>
      if personas(t.worker).Ok? then [Ask(t, personas(t.worker).value, Prompt(Context(before), t.description)),
                                      Settles()(o)]
      else [Settles()(o)]
  }

  /** It answers a prompt made from exactly the unblocked outputs before it. */
  function AnswersAfter(personas: Personas): (seq<WorkerOutput>, SubTask, WorkerOutput) -> bool {
    (before: seq<WorkerOutput>, t: SubTask, o: WorkerOutput) =>
      Answers(personas, o, t, Prompt(Context(before), t.description))
  }

  lemma ContextGrows(outputs: seq<WorkerOutput>, o: WorkerOutput)
    ensures Context(outputs + [o]) ==
            if o.blocker != None then Context(outputs)
            else if Context(outputs) == "" then "[" + o.worker + "]\n" + o.output
            else Context(outputs) + "\n\n---\n\n" + "[" + o.worker + "]\n" + o.output
  {
    var unblocked := Filter(Unblocked(), outputs);
    assert (outputs + [o])[..|outputs|] == outputs;
    MapAt(Section(), unblocked);
    SectionOf(o);
    if o.blocker == None {
      MapOne(Section(), unblocked, o);
      JoinSnoc(SEPARATOR, Map(Section(), unblocked), Section()(o));
      JoinEmpty(SEPARATOR, Map(Section(), unblocked));
    }
  }

  method RunOne(personas: Personas, t: SubTask, context: string, ghost before: seq<WorkerOutput>)
    returns (o: WorkerOutput, actions: seq<Action>)
    requires context == Context(before)
    ensures AnswersAfter(personas)(before, t, o) && actions == ActionsAfter(personas)(before, t, o)
  {
    match personas(t.worker)
    case Err(reason) =>
      o := WorkerOutput(t.worker, t.description, "", Some(reason), 0);
      actions := [Blocked(t.worker, t.description, reason)];
      assert actions[0] == Settles()(o);
    case Ok(p) =>
      var prompt := if context == "" then t.description
                    else "## Prior worker outputs\n\n" + context + "\n\n---\n\n" + t.description;
      o := Execute(t, prompt);
      assert prompt == Prompt(Context(before), t.description);
      actions := [Asked(t, p, prompt, Saturated(2 * |Words(prompt)|)), Settles()(o)];
      assert actions[0] == Ask(t, p, prompt);
  }

  method Extend(context: string, o: WorkerOutput, ghost before: seq<WorkerOutput>) returns (r: string)
    requires context == Context(before)
    ensures r == Context(before + [o])
  {
    ContextGrows(before, o);
    r := context;
    if o.blocker == None {
      if r != "" {
        r := r + "\n\n---\n\n";
      }
      r := r + ("[" + o.worker + "]\n" + o.output);
    }
  }

  /** The call for the subtask of the output at `k`, which is told of the outputs before that one. */
  ghost predicate AskedAt(personas: Personas, results: seq<WorkerOutput>, k: nat, a: Action) {
    && a.Asked? && AskedRight(personas, a)
    && k < |results| && a.task == SubTask(results[k].worker, results[k].subtask)
    && Tells(a.prompt, a.task.description, results[..k])
  }

  lemma AsksOnce(personas: Personas, before: seq<WorkerOutput>, t: SubTask, o: WorkerOutput, a: Action)
    requires a in ActionsAfter(personas)(before, t, o) && a.Asked?
    ensures personas(t.worker).Ok?
    ensures a == Ask(t, personas(t.worker).value, Prompt(Context(before), t.description))
  {
    var settled := Settles()(o);
    assert !settled.Asked?;
    if personas(t.worker).Ok? {
      var ask := Ask(t, personas(t.worker).value, Prompt(Context(before), t.description));
      assert ActionsAfter(personas)(before, t, o) == [ask, settled];
    }
  }

  lemma AnswersIt(personas: Personas, before: seq<WorkerOutput>, t: SubTask, o: WorkerOutput)
    requires AnswersAfter(personas)(before, t, o)
    ensures t == SubTask(o.worker, o.subtask)
  {
  }

  lemma SequentialAsks(personas: Personas, tasks: seq<SubTask>, results: seq<WorkerOutput>, n: nat, a: Action)
    returns (k: nat)
    requires Linked(AnswersAfter(personas), tasks, results, n)
    requires a in Emitted(ActionsAfter(personas), tasks, results, n) && a.Asked?
    ensures n <= k && AskedAt(personas, results, k, a) && a.task == tasks[k - n]
  {
    var i := EmittedMember(ActionsAfter(personas), tasks, results, n, a);
    k := n + i;
    AsksOnce(personas, results[..k], tasks[i], results[k], a);
    AnswersIt(personas, results[..k], tasks[i], results[k]);
    PromptTells(tasks[i].description, results[..k]);
  }

  method RunSequentially(personas: Personas, tasks: seq<SubTask>, earlier: seq<WorkerOutput>)
    returns (results: seq<WorkerOutput>, trace: seq<Action>)
    ensures earlier <= results && Linked(AnswersAfter(personas), tasks, results, |earlier|)
    ensures trace == Emitted(ActionsAfter(personas), tasks, results, |earlier|)
    ensures forall a :: a in trace && a.Asked? ==> exists k :: |earlier| <= k && AskedAt(personas, results, k, a)
  {
    results, trace := earlier, [];
    var context := Join(SEPARATOR, Map(Section(), Filter(Unblocked(), earlier)));
    for i := 0 to |tasks|
      invariant earlier <= results && context == Context(results)
      invariant Linked(AnswersAfter(personas), tasks[..i], results, |earlier|)
      invariant trace == Emitted(ActionsAfter(personas), tasks[..i], results, |earlier|)
    {
      var o, actions := RunOne(personas, tasks[i], context, results);
      LinkedGrows(AnswersAfter(personas), tasks, i, results, |earlier|, o);
      EmittedGrows(ActionsAfter(personas), tasks, i, results, |earlier|, o);
      context := Extend(context, o, results);
      results, trace := results + [o], trace + actions;
    }
    assert tasks[..|tasks|] == tasks;
    forall a | a in trace && a.Asked? ensures exists k :: |earlier| <= k && AskedAt(personas, results, k, a) {
      var k := SequentialAsks(personas, tasks, results, |earlier|, a);
    }
  }

  // Both phases.

  lemma SequentialTasks(personas: Personas, tasks: seq<SubTask>, results: seq<WorkerOutput>, n: nat)
    requires Linked(AnswersAfter(personas), tasks, results, n)
    ensures Map(TaskOf(), results[n..]) == tasks
  {
    MapAt(TaskOf(), results[n..]);
    forall i | 0 <= i < |tasks| ensures TaskOf()(results[n..][i]) == tasks[i] {
      assert AnswersAfter(personas)(results[..n + i], tasks[i], results[n + i]);
    }
  }

  lemma OneAction(a: Action)
    ensures Filter(IsSettled(), [a]) == if a.Asked? then [] else [a]
  {
    FilterUniform(IsSettled(), [a], !a.Asked?);
  }

  lemma TwoActions(ask: Action, a: Action)
    requires ask.Asked? && !a.Asked?
    ensures Filter(IsSettled(), [ask, a]) == [a]
  {
    OneAction(ask);
    OneAction(a);
    FilterAppend(IsSettled(), [ask], [a]);
    assert [ask] + [a] == [ask, a];
  }

  lemma SettlesOnce(personas: Personas, before: seq<WorkerOutput>, t: SubTask, o: WorkerOutput)
    ensures Filter(IsSettled(), ActionsAfter(personas)(before, t, o)) == [Settles()(o)]
  {
    if personas(t.worker).Ok? {
      TwoActions(Ask(t, personas(t.worker).value, Prompt(Context(before), t.description)), Settles()(o));
    } else {
      OneAction(Settles()(o));
    }
  }

  lemma SequentialSettles(personas: Personas, tasks: seq<SubTask>, results: seq<WorkerOutput>, n: nat)
    requires |results| == n + |tasks|
    ensures Filter(IsSettled(), Emitted(ActionsAfter(personas), tasks, results, n)) == Map(Settles(), results[n..])
  {
    forall before, t, o
      ensures Filter(IsSettled(), ActionsAfter(personas)(before, t, o)) == [Settles()(o)]
    {
      SettlesOnce(personas, before, t, o);
    }
    EmittedOnce(ActionsAfter(personas), IsSettled(), Settles(), tasks, results, n);
  }

  /** The concurrent outputs: one for each subtask, refused ones first in plan order, each asked on its own. */
  ghost predicate ParallelRight(personas: Personas, tasks: seq<SubTask>, results: seq<WorkerOutput>,
                                trace: seq<Action>) {
    && multiset(Map(TaskOf(), results)) == multiset(tasks) && |results| == |tasks|
    && RefusedFirst(personas, tasks, results)
    && (forall o :: o in results ==> Answers(personas, o, TaskOf()(o), o.subtask))
    && multiset(Filter(IsAsk(), trace)) == multiset(Map(AskAlone(personas), Filter(Admitted(personas), tasks)))
  }

  /** The sequential outputs: in plan order, each asked with the context of all unblocked outputs before it. */
  ghost predicate SequentialRight(personas: Personas, tasks: seq<SubTask>, results: seq<WorkerOutput>, n: nat,
                                  trace: seq<Action>) {
    && |results| == n + |tasks|
    && Map(TaskOf(), results[n..]) == tasks
    && Linked(AnswersAfter(personas), tasks, results, n)
    && trace == Emitted(ActionsAfter(personas), tasks, results, n)
  }

  /** Nothing is lost, and each subtask is settled once. */
  ghost predicate AllDone(subtasks: seq<SubTask>, results: seq<WorkerOutput>, trace: seq<Action>) {
    && multiset(Map(TaskOf(), results)) == multiset(subtasks) && |results| == |subtasks|
    && multiset(Filter(IsSettled(), trace)) == multiset(Map(Settles(), results))
  }

  /** What one dispatch guarantees, whatever the models answer and in whatever order workers finish. */
  ghost predicate Dispatched(specs: seq<WorkerSpec>, personas: Personas, subtasks: seq<SubTask>,
                             results: seq<WorkerOutput>, trace: seq<Action>) {
    var parallel, sequential := Filter(InParallel(specs), subtasks), Filter(InSequence(specs), subtasks);
    var n, m := |parallel|, |parallel| + |Filter(Admitted(personas), parallel)|;
    && n <= |results| && m <= |trace|
    && ParallelRight(personas, parallel, results[..n], trace[..m])
    && SequentialRight(personas, sequential, results, n, trace[m..])
    && AllDone(subtasks, results, trace)
  }

  lemma BothPhases(specs: seq<WorkerSpec>, personas: Personas, subtasks: seq<SubTask>, first: seq<WorkerOutput>,
                   results: seq<WorkerOutput>)
    requires multiset(Map(TaskOf(), first)) == multiset(Filter(InParallel(specs), subtasks))
    requires |first| == |Filter(InParallel(specs), subtasks)| && first <= results
    requires |results| == |first| + |Filter(InSequence(specs), subtasks)|
    requires Linked(AnswersAfter(personas), Filter(InSequence(specs), subtasks), results, |first|)
    ensures multiset(Map(TaskOf(), results)) == multiset(subtasks) && |results| == |subtasks|
    ensures Map(TaskOf(), results[|first|..]) == Filter(InSequence(specs), subtasks)
  {
    var sequential := Filter(InSequence(specs), subtasks);
    FilterPartition(InParallel(specs), InSequence(specs), subtasks);
    SequentialTasks(personas, sequential, results, |first|);
    MapBoth(TaskOf(), first, results);
  }

  lemma BothTraces(personas: Personas, tasks: seq<SubTask>, first: seq<WorkerOutput>, results: seq<WorkerOutput>,
                   firstTrace: seq<Action>)
    requires multiset(Filter(IsSettled(), firstTrace)) == multiset(Map(Settles(), first))
    requires first <= results && |results| == |first| + |tasks|
    ensures var trace := firstTrace + Emitted(ActionsAfter(personas), tasks, results, |first|);
            multiset(Filter(IsSettled(), trace)) == multiset(Map(Settles(), results))
  {
    SequentialSettles(personas, tasks, results, |first|);
    MapBoth(Settles(), first, results);
    FilterAppend(IsSettled(), firstTrace, Emitted(ActionsAfter(personas), tasks, results, |first|));
  }

  lemma AskInTurn(personas: Personas, trace: seq<Action>, ask: Action, o: WorkerOutput)
    requires InTurn(personas)(trace) && ask.Asked? && ask.task == TaskOf()(o) && personas(o.worker).Ok?
    ensures InTurn(personas)(trace + [ask] + [Settles()(o)])
  {
    AskingCounts(personas, trace, ask);
    AskedFirstGrows(personas, trace, ask);
    SettlingCounts(personas, trace + [ask], o);
    AskedFirstGrows(personas, trace + [ask], Settles()(o));
  }

  lemma RefusalInTurn(personas: Personas, trace: seq<Action>, o: WorkerOutput)
    requires InTurn(personas)(trace) && personas(o.worker).Err?
    ensures InTurn(personas)(trace + [Settles()(o)])
  {
    SettlingCounts(personas, trace, o);
    AskedFirstGrows(personas, trace, Settles()(o));
  }

  function IsFor(): (SubTask, WorkerOutput) -> bool {
    (t: SubTask, o: WorkerOutput) => o.worker == t.worker && o.subtask == t.description
  }

  lemma OneInTurn(personas: Personas, trace: seq<Action>, before: seq<WorkerOutput>, t: SubTask, o: WorkerOutput)
    requires InTurn(personas)(trace) && IsFor()(t, o)
    ensures InTurn(personas)(trace + ActionsAfter(personas)(before, t, o))
  {
    if personas(t.worker).Ok? {
      var ask := Ask(t, personas(t.worker).value, Prompt(Context(before), t.description));
      AskInTurn(personas, trace, ask, o);
      AppendTwo(trace, ask, Settles()(o));
    } else {
      RefusalInTurn(personas, trace, o);
    }
  }

  lemma AppendTwo<T>(s: seq<T>, x: T, y: T)
    ensures s + [x, y] == s + [x] + [y]
  {
  }

  /** Each sequential worker is asked before it is settled, after whatever the concurrent ones did. */
  lemma SequentialInTurn(personas: Personas, first: seq<Action>, tasks: seq<SubTask>, results: seq<WorkerOutput>,
                         n: nat)
    requires InTurn(personas)(first) && |results| == n + |tasks| && Map(TaskOf(), results[n..]) == tasks
    ensures InTurn(personas)(first + Emitted(ActionsAfter(personas), tasks, results, n))
  {
    MapAt(TaskOf(), results[n..]);
    forall trace, before, t, o | InTurn(personas)(trace) && IsFor()(t, o)
      ensures InTurn(personas)(trace + ActionsAfter(personas)(before, t, o))
    {
      OneInTurn(personas, trace, before, t, o);
    }
    EmittedKeeps(ActionsAfter(personas), InTurn(personas), IsFor(), first, tasks, results, n);
  }

  lemma Assembled(specs: seq<WorkerSpec>, personas: Personas, subtasks: seq<SubTask>, first: seq<WorkerOutput>,
                  results: seq<WorkerOutput>, firstTrace: seq<Action>, rest: seq<Action>)
    requires first <= results && |first| == |Filter(InParallel(specs), subtasks)|
    requires |firstTrace| == |first| + |Filter(Admitted(personas), Filter(InParallel(specs), subtasks))|
    requires ParallelRight(personas, Filter(InParallel(specs), subtasks), first, firstTrace)
    requires SequentialRight(personas, Filter(InSequence(specs), subtasks), results, |first|, rest)
    requires AllDone(subtasks, results, firstTrace + rest)
    ensures Dispatched(specs, personas, subtasks, results, firstTrace + rest)
  {
    var trace := firstTrace + rest;
    assert first == results[..|first|];
    assert firstTrace == trace[..|firstTrace|];
    assert rest == trace[|firstTrace|..];
  }

  // What an observer of a dispatch sees.

  lemma AskedAlone(personas: Personas, t: SubTask)
    requires Admitted(personas)(t)
    ensures var a := AskAlone(personas)(t);
            a.Asked? && AskedRight(personas, a) && a.task == t && a.prompt == t.description
  {
  }

  lemma ConcurrentAsks(personas: Personas, tasks: seq<SubTask>, trace: seq<Action>, a: Action)
    requires multiset(Filter(IsAsk(), trace)) == multiset(Map(AskAlone(personas), Filter(Admitted(personas), tasks)))
    requires a in trace && a.Asked?
    ensures AskedRight(personas, a) && a.task in tasks && a.prompt == a.task.description
  {
    assert a in Filter(IsAsk(), trace);
    var t := MapSource(AskAlone(personas), Filter(Admitted(personas), tasks), Filter(IsAsk(), trace), a);
    AskedAlone(personas, t);
  }

  /** The call is for a subtask at hand, with its bare description unless the first spec of its worker is sequential;
      then with what all unblocked outputs before its own say. */
  ghost predicate AskFits(specs: seq<WorkerSpec>, personas: Personas, subtasks: seq<SubTask>,
                          results: seq<WorkerOutput>, a: Action) {
    && a.Asked? && AskedRight(personas, a) && a.task in subtasks
    && if Sequential(specs, a.task.worker) then exists k :: AskedAt(personas, results, k, a)
       else a.prompt == a.task.description
  }

  lemma ParallelAsks(specs: seq<WorkerSpec>, personas: Personas, subtasks: seq<SubTask>, first: seq<WorkerOutput>,
                     results: seq<WorkerOutput>, trace: seq<Action>, a: Action)
    requires ParallelRight(personas, Filter(InParallel(specs), subtasks), first, trace) && a in trace && a.Asked?
    ensures AskFits(specs, personas, subtasks, results, a)
  {
    ConcurrentAsks(personas, Filter(InParallel(specs), subtasks), trace, a);
    assert InParallel(specs)(a.task);
    RunsAloneExact(specs, a.task.worker);
  }

  lemma SequenceAsks(specs: seq<WorkerSpec>, personas: Personas, subtasks: seq<SubTask>, results: seq<WorkerOutput>,
                     n: nat, trace: seq<Action>, a: Action)
    requires SequentialRight(personas, Filter(InSequence(specs), subtasks), results, n, trace)
    requires a in trace && a.Asked?
    ensures AskFits(specs, personas, subtasks, results, a)
  {
    var k := SequentialAsks(personas, Filter(InSequence(specs), subtasks), results, n, a);
    assert a.task in Filter(InSequence(specs), subtasks);
    assert InSequence(specs)(a.task);
    RunsAloneExact(specs, a.task.worker);
  }

  /** Every call of the two phases fits. */
  lemma DispatchAsks(specs: seq<WorkerSpec>, personas: Personas, subtasks: seq<SubTask>, first: seq<WorkerOutput>,
                     results: seq<WorkerOutput>, n: nat, early: seq<Action>, late: seq<Action>, a: Action)
    requires ParallelRight(personas, Filter(InParallel(specs), subtasks), first, early)
    requires SequentialRight(personas, Filter(InSequence(specs), subtasks), results, n, late)
    requires a.Asked? && (a in early || a in late)
    ensures AskFits(specs, personas, subtasks, results, a)
  {
    if a in early {
      ParallelAsks(specs, personas, subtasks, first, results, early, a);
    } else {
      SequenceAsks(specs, personas, subtasks, results, n, late, a);
    }
  }

  /** Run the concurrent subtasks, then the sequential ones in plan order. */
  method Dispatch(specs: seq<WorkerSpec>, personas: Personas, subtasks: seq<SubTask>)
    returns (results: seq<WorkerOutput>, trace: seq<Action>)
    ensures Dispatched(specs, personas, subtasks, results, trace) && InTurn(personas)(trace)
    ensures forall a :: a in trace && a.Asked? ==> AskFits(specs, personas, subtasks, results, a)
  {
    var parallel, sequential := Filter(InParallel(specs), subtasks), Filter(InSequence(specs), subtasks);
    var first, firstTrace := RunConcurrently(personas, parallel);
    var rest;
    results, rest := RunSequentially(personas, sequential, first);
    trace := firstTrace + rest;
    BothPhases(specs, personas, subtasks, first, results);
    BothTraces(personas, sequential, first, results, firstTrace);
    SequentialInTurn(personas, firstTrace, sequential, results, |first|);
    Assembled(specs, personas, subtasks, first, results, firstTrace, rest);
    forall a | a in trace && a.Asked? ensures AskFits(specs, personas, subtasks, results, a) {
      DispatchAsks(specs, personas, subtasks, first, results, |first|, firstTrace, rest, a);
    }
  }

  lemma OutputAt(specs: seq<WorkerSpec>, personas: Personas, subtasks: seq<SubTask>, results: seq<WorkerOutput>,
                 trace: seq<Action>, i: nat)
    requires Dispatched(specs, personas, subtasks, results, trace) && i < |results|
    ensures Sequential(specs, results[i].worker) <==> i >= |Filter(InParallel(specs), subtasks)|
  {
    var parallel, sequential := Filter(InParallel(specs), subtasks), Filter(InSequence(specs), subtasks);
    RunsAloneExact(specs, results[i].worker);
    if i < |parallel| {
      var first := results[..|parallel|];
      assert results[i] in first by { assert first[i] == results[i]; }
      MapMember(TaskOf(), first, TaskOf()(results[i]));
      assert TaskOf()(results[i]) in multiset(Map(TaskOf(), first));
      assert InParallel(specs)(TaskOf()(results[i]));
    } else {
      var rest := results[|parallel|..];
      MapAt(TaskOf(), rest);
      assert sequential[i - |parallel|] == TaskOf()(rest[i - |parallel|]);
      assert InSequence(specs)(TaskOf()(results[i]));
    }
  }

  /** Workers whose first spec is sequential come last; each output is shown by an event, and each event shows one. */
  lemma DispatchShows(specs: seq<WorkerSpec>, personas: Personas, subtasks: seq<SubTask>, results: seq<WorkerOutput>,
                      trace: seq<Action>)
    requires Dispatched(specs, personas, subtasks, results, trace)
    ensures forall i, j :: 0 <= i < j < |results| && Sequential(specs, results[i].worker) ==>
              Sequential(specs, results[j].worker)
    ensures forall o :: o in results ==> exists b :: b in trace && Shows(b, o)
    ensures forall b :: b in trace && !b.Asked? ==> exists o :: o in results && Shows(b, o)
  {
    forall i | 0 <= i < |results|
      ensures Sequential(specs, results[i].worker) <==> i >= |Filter(InParallel(specs), subtasks)|
    {
      OutputAt(specs, personas, subtasks, results, trace, i);
    }
    forall b | b in trace && !b.Asked? ensures exists o :: o in results && Shows(b, o) {
      var o := SettledOutput(trace, results, b);
    }
    forall o | o in results ensures exists b :: b in trace && Shows(b, o) {
      var b := OutputSettled(trace, results, o);
    }
  }
}
