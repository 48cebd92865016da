/** The store of runs, updated one file at a time. */
module RunStore {
  import opened Prelude
  import opened Text
  import opened RunAccounting

  type RunId = string

  /** Reads the log line by line, as the rescan does. */
  method ScanRunActivity(log: seq<Entry>) returns (retries: nat, toolCalls: nat, toolErrors: nat)
    ensures retries == Capped(CountIn(IsRetry(), log))
    ensures toolCalls == Capped(CountIn(IsToolCall(), log)) && toolErrors == Capped(CountIn(IsToolError(), log))
  {
    retries, toolCalls, toolErrors := 0, 0, 0;
    for i := 0 to |log|
      invariant retries == Capped(CountIn(IsRetry(), log[..i]))
      invariant toolCalls == Capped(CountIn(IsToolCall(), log[..i]))
      invariant toolErrors == Capped(CountIn(IsToolError(), log[..i]))
    {
      var entry := log[i];
      assert log[..i + 1] == log[..i] + [entry];
      LogGrows(IsRetry(), log[..i], entry);
      LogGrows(IsToolCall(), log[..i], entry);
      LogGrows(IsToolError(), log[..i], entry);
      if entry.kind == "workflow-step-retry" {
        retries := PlusOne(retries);
      } else if entry.kind == "agent-event" && entry.payload.Parsed? {
        match entry.payload.event
        case ToolCall => toolCalls := PlusOne(toolCalls);
        case ToolCallResult(success) =>
          if !success {
            toolErrors := PlusOne(toolErrors);
          }
        case _ =>
      }
    }
    assert log[..|log|] == log;
  }

  method ComputeTokenSummary(log: seq<Entry>) returns (s: Summary)
    ensures s == Computed(log)
  {
    s := NO_TOKENS;
    for i := 0 to |log|
      invariant s == Computed(log[..i])
    {
      assert log[..i + 1] == log[..i] + [log[i]];
      RequestsGrow(log[..i], log[i]);
      if log[i].kind == "agent-event" && log[i].payload.Parsed? && log[i].payload.event.ModelRequest? {
        s := Summary((s.tokens + log[i].payload.event.tokens) % 0x1_0000_0000_0000_0000,
                     (s.requests + 1) % 0x1_0000_0000);
      }
    }
    assert log[..|log|] == log;
  }

  method HasModelRequestEvent(log: seq<Entry>) returns (found: bool)
    ensures found <==> HasRequest(log)
  {
    for i := 0 to |log|
      invariant !HasRequest(log[..i])
    {
      assert log[..i + 1] == log[..i] + [log[i]];
      RequestsGrow(log[..i], log[i]);
      if log[i].kind == "agent-event" && log[i].payload.Parsed? && log[i].payload.event.ModelRequest? {
        assert IsRequest()(log[i]);
        return true;
      }
    }
    assert log[..|log|] == log;
    return false;
  }

  ghost predicate AllIn(runs: map<RunId, RunFiles>) {
    forall id :: id in runs ==> Accounted(runs[id])
  }

  lemma OneChanged(runs: map<RunId, RunFiles>, id: RunId, f: RunFiles)
    requires AllIn(runs)
    ensures AllIn(runs[id := f]) <==> Accounted(f)
  {
    assert id in runs[id := f];
  }

  /** All but the runs in `rest` have been cleaned. */
  ghost predicate Swept(was: map<RunId, RunFiles>, runs: map<RunId, RunFiles>, rest: set<RunId>) {
    runs.Keys == was.Keys && forall id :: id in runs ==> runs[id] == if id in rest then was[id] else Cleaned(was[id])
  }

  lemma SweptNext(was: map<RunId, RunFiles>, runs: map<RunId, RunFiles>, rest: set<RunId>, id: RunId)
    requires id in rest && id in was && Swept(was, runs, rest)
    ensures runs[id] == was[id] && Swept(was, runs[id := Cleaned(was[id])], rest - {id})
  {
  }

  lemma AllSwept(was: map<RunId, RunFiles>, runs: map<RunId, RunFiles>)
    requires Swept(was, runs, {})
    ensures AllIn(was) ==> AllIn(runs)
    ensures forall id :: id in runs ==> !IsStale(runs[id])
  {
    forall id | id in runs ensures !IsStale(runs[id]) && (AllIn(was) ==> Accounted(runs[id])) {
      if AllIn(was) {
        CleanedAccounted(was[id]);
      }
    }
  }

  class RunStore {
    var runs: map<RunId, RunFiles>

    function Files(id: RunId): RunFiles
      reads this
    {
      if id in runs then runs[id] else NO_FILES
    }

    ghost predicate AllAccounted()
      reads this
    {
      AllIn(runs)
    }

    constructor ()
      ensures runs == map[] && AllAccounted()
    {
      runs := map[];
    }

    // The single files.

    method AppendEntry(id: RunId, kind: string, payload: Payload)
      modifies this
      ensures runs == old(runs)[id := Appended(old(Files(id)), Entry(kind, payload))]
    {
      runs := runs[id := Files(id).(log := Files(id).log + [Entry(kind, payload)])];
    }

    method BumpTokenSummary(id: RunId, tokens: nat)
      modifies this
      ensures runs == old(runs)[id :=
              old(Files(id)).(summary := Some(Bumped(old(Files(id)).summary.GetOr(NO_TOKENS), tokens)))]
    {
      var summary := Files(id).summary.GetOr(NO_TOKENS);
      summary := Summary((summary.tokens + tokens) % 0x1_0000_0000_0000_0000, (summary.requests + 1) % 0x1_0000_0000);
      runs := runs[id := Files(id).(summary := Some(summary))];
    }

    method LoadOrInitScorecard(id: RunId) returns (c: Scorecard)
      requires Files(id).meta.Some?
      ensures c == CardOf(Files(id))
    {
      if Files(id).scorecard.Some? {
        return Files(id).scorecard.value;
      }
      var retries, toolCalls, toolErrors := ScanRunActivity(Files(id).log);
      var m, s := Files(id).meta.value, Files(id).summary.GetOr(NO_TOKENS);
      c := Scorecard(m.mode, m.provider, m.status, m.status.Succeeded? || m.status.Failed?, m.status.Succeeded?,
                     m.finished, s.tokens, s.requests, retries, toolCalls, toolErrors);
    }

    method StoreScorecard(id: RunId, c: Scorecard)
      requires Files(id).meta.Some?
      modifies this
      ensures runs == old(runs)[id := old(Files(id)).(scorecard :=
                Some(Synced(old(Files(id)).meta.value, old(Files(id)).summary.GetOr(NO_TOKENS), c.retries, c.toolCalls,
                            c.toolErrors)))]
    {
      var m, s := Files(id).meta.value, Files(id).summary.GetOr(NO_TOKENS);
      var synced := c.(mode := m.mode, provider := m.provider, status := m.status,
                       completed := m.status.Succeeded? || m.status.Failed?, success := m.status.Succeeded?,
                       finished := m.finished, tokens := s.tokens, requests := s.requests);
      runs := runs[id := Files(id).(scorecard := Some(synced))];
    }

    method UpdateScorecardFromEvent(id: RunId, e: Event)
      requires id in runs
      modifies this
      ensures runs == old(runs)[id := CardAfterEvent(old(Files(id)), e)]
    {
      if Files(id).meta == None {
        return;
      }
      var c := LoadOrInitScorecard(id);
      match e {
        case ToolCall => c := c.(toolCalls := PlusOne(c.toolCalls));
        case ToolCallResult(success) =>
          if !success {
            c := c.(toolErrors := PlusOne(c.toolErrors));
          }
        case _ =>
      }
      StoreScorecard(id, c);
    }

    method UpdateScorecardFromNote(id: RunId, kind: string)
      requires id in runs
      modifies this
      ensures runs == old(runs)[id := CardAfterNote(old(Files(id)), kind)]
    {
      if kind != "workflow-step-retry" || Files(id).meta == None {
        return;
      }
      var c := LoadOrInitScorecard(id);
      StoreScorecard(id, c.(retries := PlusOne(c.retries)));
    }

    method UpsertScorecard(id: RunId)
      requires Files(id).meta.Some?
      modifies this
      ensures runs == old(runs)[id := Upserted(old(Files(id)))]
    {
      var c := LoadOrInitScorecard(id);
      StoreScorecard(id, c);
    }

    method WriteMetadata(id: RunId, m: Meta)
      modifies this
      ensures runs == old(runs)[id := old(Files(id)).(meta := Some(m))]
    {
      runs := runs[id := Files(id).(meta := Some(m))];
    }

    method PutMetadata(id: RunId, m: Meta)
      modifies this
      ensures runs == old(runs)[id := Upserted(old(Files(id)).(meta := Some(m)))]
    {
      WriteMetadata(id, m);
      UpsertScorecard(id);
    }

    // The operations.

    /** Ids are drawn afresh. */
    method CreateRun(id: RunId, mode: string, provider: Option<string>)
      requires id !in runs
      modifies this
      ensures runs == old(runs)[id := Created(mode, provider)]
      ensures old(AllAccounted()) ==> AllAccounted()
    {
      CreatedAccounted(mode, provider);
      if AllAccounted() {
        OneChanged(runs, id, Created(mode, provider));
      }
      PutMetadata(id, Meta(mode, provider, Running, false, None));
    }

    method AppendEvent(id: RunId, e: Event)
      modifies this
      ensures runs == old(runs)[id := WithEvent(old(Files(id)), e)]
      ensures old(AllAccounted()) ==> AllAccounted()
    {
      if AllAccounted() {
        EventAccounted(Files(id), e);
        OneChanged(runs, id, WithEvent(Files(id), e));
      }
      AppendEntry(id, "agent-event", Parsed(e));
      if e.ModelRequest? {
        BumpTokenSummary(id, e.tokens);
      }
      UpdateScorecardFromEvent(id, e);
    }

    method AppendNote(id: RunId, kind: string, payload: Payload)
      modifies this
      ensures runs == old(runs)[id := WithNote(old(Files(id)), kind, payload)]
      ensures old(AllAccounted()) ==> (AllAccounted() <==> !ReadsAsCounted(old(Files(id)), kind, payload))
    {
      if AllAccounted() {
        NoteAccounted(Files(id), kind, payload);
        OneChanged(runs, id, WithNote(Files(id), kind, payload));
      }
      AppendEntry(id, kind, payload);
      UpdateScorecardFromNote(id, kind);
    }

    method EnsureHostedTokenFallback(id: RunId, m: Meta, preview: string)
      requires id in runs
      modifies this
      ensures runs == old(runs)[id := WithFallback(old(Files(id)), m, preview)]
    {
      if m.mode != "hosted-mcp" || Blank(preview) {
        return;
      }
      var found := HasModelRequestEvent(Files(id).log);
      if found {
        return;
      }
      var tokens := if |preview| / 4 < 1 then 1 else |preview| / 4;
      AppendEvent(id, ModelRequest(m.provider.GetOr(m.mode), tokens));
    }

    method EnsureTokenSummary(id: RunId)
      requires id in runs
      modifies this
      ensures runs == old(runs)[id := WithSummary(old(Files(id)))]
    {
      if Files(id).summary.Some? {
        return;
      }
      var summary := ComputeTokenSummary(Files(id).log);
      runs := runs[id := Files(id).(summary := Some(summary))];
    }

    method EnsureTokens(id: RunId, m: Meta, preview: string)
      requires id in runs
      modifies this
      ensures runs == old(runs)[id := WithSummary(WithFallback(old(Files(id)), m, preview))]
    {
      EnsureHostedTokenFallback(id, m, preview);
      EnsureTokenSummary(id);
    }

    /** Nothing happens to a run without metadata. */
    method FinishRunWithStatus(id: RunId, status: Status, preview: string) returns (r: Option<Meta>)
      modifies this
      ensures runs == if old(Files(id)).meta == None then old(runs)
              else old(runs)[id := Finished(old(Files(id)), status, preview)]
      ensures r == if old(Files(id)).meta == None then None else Files(id).meta
      ensures old(AllAccounted()) ==> AllAccounted()
    {
      if Files(id).meta == None {
        return None;
      }
      ghost var was, f := runs, Files(id);
      var m := Files(id).meta.value;
      EnsureTokens(id, m, preview);
      m := m.(finished := true, status := status, preview := Some(Truncated(preview)));
      PutMetadata(id, m);
      r := Some(m);
      assert runs == was[id := Finished(f, status, preview)];
      if AllIn(was) {
        FinishedAccounted(f, status, preview);
        OneChanged(was, id, Finished(f, status, preview));
      }
    }

    method UpdateRunStatus(id: RunId, status: Status, preview: Option<string>) returns (r: Option<Meta>)
      modifies this
      ensures runs == if old(Files(id)).meta == None then old(runs)
              else old(runs)[id := Updated(old(Files(id)), status, preview)]
      ensures r == if old(Files(id)).meta == None then None else Files(id).meta
      ensures old(AllAccounted()) ==> AllAccounted()
    {
      if Files(id).meta == None {
        return None;
      }
      ghost var was, f := runs, Files(id);
      var shown := if preview.Some? then Some(Truncated(preview.value)) else None;
      var finished := match status case Running => false case AwaitingApproval => false case _ => true;
      var m := Files(id).meta.value.(status := status, preview := shown, finished := finished);
      PutMetadata(id, m);
      r := Some(m);
      assert runs == was[id := Updated(f, status, preview)];
      if AllIn(was) {
        UpdatedAccounted(f, status, preview, "");
        OneChanged(was, id, Updated(f, status, preview));
      }
    }

    method SetProvider(id: RunId, provider: string)
      modifies this
      ensures runs == if old(Files(id)).meta == None then old(runs)
              else old(runs)[id := Provided(old(Files(id)), provider)]
      ensures old(AllAccounted()) ==> AllAccounted()
    {
      if Files(id).meta.Some? {
        ghost var was, f := runs, Files(id);
        PutMetadata(id, Files(id).meta.value.(provider := Some(provider)));
        assert runs == was[id := Provided(f, provider)];
        if AllIn(was) {
          UpdatedAccounted(f, Running, None, provider);
          OneChanged(was, id, Provided(f, provider));
        }
      }
    }

    method FailStaleRun(id: RunId)
      requires id in runs && IsStale(Files(id))
      modifies this
      ensures runs == old(runs)[id := Cleaned(old(Files(id)))]
    {
      var preview := "terminated: server restarted";
      var m := Files(id).meta.value.(status := Failed, finished := true, preview := Some(preview));
      WriteMetadata(id, m);
      EnsureTokens(id, m, preview);
      UpsertScorecard(id);
    }

    method CleanUpRun(id: RunId) returns (cleaned: bool)
      requires id in runs
      modifies this
      ensures runs == old(runs)[id := Cleaned(old(Files(id)))] && (cleaned <==> IsStale(old(Files(id))))
    {
      cleaned := Files(id).meta.Some? && Files(id).meta.value.status == Running && !Files(id).meta.value.finished;
      if cleaned {
        FailStaleRun(id);
      } else {
        assert runs[id := Files(id)] == runs;
      }
    }

    /** Runs are visited in whatever order the directory lists them. */
    method CleanUpStaleRuns() returns (cleaned: nat)
      modifies this
      ensures runs.Keys == old(runs).Keys && forall id :: id in runs ==> runs[id] == Cleaned(old(runs)[id])
      ensures cleaned == |set id | id in old(runs) && IsStale(old(runs)[id])|
      ensures old(AllAccounted()) ==> AllAccounted()
      ensures forall id :: id in runs ==> !IsStale(runs[id])
    {
      cleaned := 0;
      ghost var was := runs;
      var rest := runs.Keys;
      ghost var done: set<RunId> := {};
      while rest != {}
        invariant rest <= was.Keys && Swept(was, runs, rest)
        invariant cleaned == |done| && forall id :: id in done <==> id in was && id !in rest && IsStale(was[id])
        decreases rest
      {
        var id :| id in rest;
        SweptNext(was, runs, rest, id);
        var stale := CleanUpRun(id);
        rest := rest - {id};
        if stale {
          done := done + {id};
          cleaned := cleaned + 1;
        }
      }
      assert done == set id | id in was && IsStale(was[id]);
      AllSwept(was, runs);
    }
  }
}
