/** What a run's log, token summary and scorecard are, and that every operation keeps them in step with the log. */
module RunAccounting {
  import opened Prelude
  import opened Text

  const U64_SPAN: nat := 0x1_0000_0000_0000_0000
  const U32_SPAN: nat := 0x1_0000_0000
  const U32_MAX: nat := 0xFFFF_FFFF

  datatype Event = ModelRequest(provider: string, tokens: nat) | ToolCall | ToolCallResult(success: bool) | OtherEvent

  /** A payload that reads back as an event, or one that does not. */
  datatype Payload = Parsed(event: Event) | Opaque

  datatype Entry = Entry(kind: string, payload: Payload)

  datatype Status = Running | AwaitingApproval | Succeeded | Failed

  datatype Meta = Meta(mode: string, provider: Option<string>, status: Status, finished: bool, preview: Option<string>)

  datatype Summary = Summary(tokens: nat, requests: nat)

  const NO_TOKENS := Summary(0, 0)

  datatype Scorecard = Scorecard(mode: string, provider: Option<string>, status: Status, completed: bool, success: bool,
                                 finished: bool, tokens: nat, requests: nat, retries: nat, toolCalls: nat,
                                 toolErrors: nat)

  /** The files of one run. */
  datatype RunFiles = RunFiles(meta: Option<Meta>, log: seq<Entry>, summary: Option<Summary>,
                               scorecard: Option<Scorecard>)

  const NO_FILES := RunFiles(None, [], None, None)

  const HOSTED := "hosted-mcp"
  const AGENT_EVENT := "agent-event"
  const STEP_RETRY := "workflow-step-retry"
  const STALE_PREVIEW := "terminated: server restarted"
  const PREVIEW_CHARS := 240

  // What the log says.

  predicate HasEvent(e: Entry) { e.kind == AGENT_EVENT && e.payload.Parsed? }

  function IsRequest(): Entry -> bool { (e: Entry) => HasEvent(e) && e.payload.event.ModelRequest? }

  function IsToolCall(): Entry -> bool { (e: Entry) => HasEvent(e) && e.payload.event.ToolCall? }

  function IsToolError(): Entry -> bool {
    (e: Entry) => HasEvent(e) && e.payload.event.ToolCallResult? && !e.payload.event.success
  }

  function IsRetry(): Entry -> bool { (e: Entry) => e.kind == STEP_RETRY }

  function TokensIn(log: seq<Entry>): nat {
    if log == [] then 0 else
      var last := log[|log| - 1];
      TokensIn(log[..|log| - 1]) + if IsRequest()(last) then last.payload.event.tokens else 0
  }

  function CountIn(want: Entry -> bool, log: seq<Entry>): nat { |Filter(want, log)| }

  function Capped(n: nat): (r: nat)
    ensures r <= n && r <= 0xFFFF_FFFF && (r == n || r == 0xFFFF_FFFF)
  {
    if n > U32_MAX then U32_MAX else n
  }

  /** The summary a rescan finds: sums that wrap at the width of their fields. */
  function Computed(log: seq<Entry>): Summary {
    Summary(TokensIn(log) % U64_SPAN, CountIn(IsRequest(), log) % U32_SPAN)
  }

  predicate HasRequest(log: seq<Entry>) {
    exists e :: e in log && IsRequest()(e)
  }

  // One step of each piece of bookkeeping.

  function Bumped(s: Summary, tokens: nat): Summary {
    Summary((s.tokens + tokens) % U64_SPAN, (s.requests + 1) % U32_SPAN)
  }

  function PlusOne(n: nat): nat { if n >= U32_MAX then U32_MAX else n + 1 }

  function Appended(f: RunFiles, e: Entry): RunFiles { f.(log := f.log + [e]) }

  function WithBump(f: RunFiles, e: Event): RunFiles {
    if e.ModelRequest? then f.(summary := Some(Bumped(f.summary.GetOr(NO_TOKENS), e.tokens))) else f
  }

  function Completed(s: Status): bool { s.Succeeded? || s.Failed? }

  /** Everything in a scorecard but its counters follows the metadata and the summary. */
  function Synced(m: Meta, s: Summary, retries: nat, toolCalls: nat, toolErrors: nat): Scorecard {
    Scorecard(m.mode, m.provider, m.status, Completed(m.status), m.status.Succeeded?, m.finished, s.tokens, s.requests,
              retries, toolCalls, toolErrors)
  }

  function Scanned(m: Meta, s: Summary, log: seq<Entry>): Scorecard {
    Synced(m, s, Capped(CountIn(IsRetry(), log)), Capped(CountIn(IsToolCall(), log)),
           Capped(CountIn(IsToolError(), log)))
  }

  /** The stored scorecard, or a new one from a scan of the log. */
  function CardOf(f: RunFiles): Scorecard
    requires f.meta.Some?
  {
    f.scorecard.GetOr(Scanned(f.meta.value, f.summary.GetOr(NO_TOKENS), f.log))
  }

  function Upserted(f: RunFiles): RunFiles
    requires f.meta.Some?
  {
    var c := CardOf(f);
    f.(scorecard := Some(Synced(f.meta.value, f.summary.GetOr(NO_TOKENS), c.retries, c.toolCalls, c.toolErrors)))
  }

  function CardAfterEvent(f: RunFiles, e: Event): RunFiles {
    if f.meta == None then f else
      var c := CardOf(f);
      f.(scorecard := Some(Synced(f.meta.value, f.summary.GetOr(NO_TOKENS), c.retries,
                                  if e.ToolCall? then PlusOne(c.toolCalls) else c.toolCalls,
                                  if e.ToolCallResult? && !e.success then PlusOne(c.toolErrors) else c.toolErrors)))
  }

  function CardAfterNote(f: RunFiles, kind: string): RunFiles {
    if kind != STEP_RETRY || f.meta == None then f else
      var c := CardOf(f);
      f.(scorecard := Some(Synced(f.meta.value, f.summary.GetOr(NO_TOKENS), PlusOne(c.retries), c.toolCalls,
                                  c.toolErrors)))
  }

  // The operations on one run.

  function Created(mode: string, provider: Option<string>): RunFiles {
    Upserted(NO_FILES.(meta := Some(Meta(mode, provider, Running, false, None))))
  }

  function WithEvent(f: RunFiles, e: Event): RunFiles {
    CardAfterEvent(WithBump(Appended(f, Entry(AGENT_EVENT, Parsed(e))), e), e)
  }

  function WithNote(f: RunFiles, kind: string, payload: Payload): RunFiles {
    CardAfterNote(Appended(f, Entry(kind, payload)), kind)
  }

  predicate NeedsFallback(f: RunFiles, m: Meta, preview: string) {
    m.mode == HOSTED && !Blank(preview) && !HasRequest(f.log)
  }

  /** A hosted run that reported no model request is charged one, a quarter token per character of its output. */
  function FallbackOf(m: Meta, preview: string): Event {
    ModelRequest(m.provider.GetOr(m.mode), if |preview| / 4 < 1 then 1 else |preview| / 4)
  }

  function WithFallback(f: RunFiles, m: Meta, preview: string): RunFiles {
    if NeedsFallback(f, m, preview) then WithEvent(f, FallbackOf(m, preview)) else f
  }

  function WithSummary(f: RunFiles): RunFiles {
    if f.summary.Some? then f else f.(summary := Some(Computed(f.log)))
  }

  function Truncated(preview: string): string {
    if |preview| > PREVIEW_CHARS then preview[..PREVIEW_CHARS] + "..." else preview
  }

  function Finished(f: RunFiles, status: Status, preview: string): RunFiles {
    if f.meta == None then f else
      var g := WithSummary(WithFallback(f, f.meta.value, preview));
      Upserted(g.(meta := Some(f.meta.value.(finished := true, status := status, preview := Some(Truncated(preview))))))
  }

  function Updated(f: RunFiles, status: Status, preview: Option<string>): RunFiles {
    if f.meta == None then f else
      var shown := if preview.Some? then Some(Truncated(preview.value)) else None;
      Upserted(f.(meta := Some(f.meta.value.(status := status, preview := shown, finished := Completed(status)))))
  }

  function Provided(f: RunFiles, provider: string): RunFiles {
    if f.meta == None then f else Upserted(f.(meta := Some(f.meta.value.(provider := Some(provider)))))
  }

  predicate IsStale(f: RunFiles) {
    f.meta.Some? && f.meta.value.status == Running && !f.meta.value.finished
  }

  /** The metadata is written before the fallback, so the fallback's scorecard already says failed. */
  function Cleaned(f: RunFiles): RunFiles {
    if !IsStale(f) then f else
      var m := f.meta.value.(status := Failed, finished := true, preview := Some(STALE_PREVIEW));
      Upserted(WithSummary(WithFallback(f.(meta := Some(m)), m, STALE_PREVIEW)))
  }

  // Bookkeeping in step with the log.

  ghost predicate TokensInStep(f: RunFiles) {
    if f.summary.Some? then f.summary.value == Computed(f.log) else !HasRequest(f.log)
  }

  /** The card shows the metadata and the figures of the summary. */
  ghost predicate Shows(c: Scorecard, m: Meta, s: Summary) {
    && c.mode == m.mode && c.provider == m.provider && c.status == m.status && c.finished == m.finished
    && (c.completed <==> m.status == Succeeded || m.status == Failed) && (c.success <==> m.status == Succeeded)
    && c.tokens == s.tokens && c.requests == s.requests
  }

  /** The card counts the retries, tool calls and tool errors of the log, each up to the largest 32-bit number. */
  ghost predicate Counts(c: Scorecard, log: seq<Entry>) {
    && c.retries == Capped(CountIn(IsRetry(), log))
    && c.toolCalls == Capped(CountIn(IsToolCall(), log)) && c.toolErrors == Capped(CountIn(IsToolError(), log))
  }

  ghost predicate CardInStep(f: RunFiles) {
    if f.meta == None then f.scorecard == None
    else
      && f.scorecard.Some? && Counts(f.scorecard.value, f.log)
      && Shows(f.scorecard.value, f.meta.value, if f.summary.Some? then f.summary.value else Summary(0, 0))
  }

  ghost predicate Accounted(f: RunFiles) { TokensInStep(f) && CardInStep(f) }

  lemma LogGrows(want: Entry -> bool, log: seq<Entry>, e: Entry)
    ensures CountIn(want, log + [e]) == CountIn(want, log) + if want(e) then 1 else 0
  {
  }

  lemma RequestsGrow(log: seq<Entry>, e: Entry)
    ensures HasRequest(log + [e]) <==> HasRequest(log) || IsRequest()(e)
    ensures Computed(log + [e]) == if IsRequest()(e) then Bumped(Computed(log), e.payload.event.tokens)
            else Computed(log)
  {
    assert (log + [e])[..|log|] == log;
    assert e in log + [e];
    LogGrows(IsRequest(), log, e);
    if IsRequest()(e) {
      TokensWrap(TokensIn(log), e.payload.event.tokens);
      RequestsWrap(CountIn(IsRequest(), log), 1);
    }
  }

  lemma TokensWrap(a: nat, b: nat)
    ensures (a % U64_SPAN + b) % U64_SPAN == (a + b) % U64_SPAN
  {
  }

  lemma RequestsWrap(a: nat, b: nat)
    ensures (a % U32_SPAN + b) % U32_SPAN == (a + b) % U32_SPAN
  {
  }

  lemma {:induction false} NoRequests(log: seq<Entry>)
    requires !HasRequest(log)
    ensures Computed(log) == NO_TOKENS
  {
    if log != [] {
      var rest, last := log[..|log| - 1], log[|log| - 1];
      assert log == rest + [last];
      RequestsGrow(rest, last);
      NoRequests(rest);
    }
  }

  lemma CreatedAccounted(mode: string, provider: Option<string>)
    ensures Accounted(Created(mode, provider))
  {
  }

  lemma EventTokens(f: RunFiles, e: Event)
    requires TokensInStep(f)
    ensures TokensInStep(WithEvent(f, e))
  {
    RequestsGrow(f.log, Entry(AGENT_EVENT, Parsed(e)));
    if f.summary == None {
      NoRequests(f.log);
    }
  }

  lemma EventCard(f: RunFiles, e: Event)
    requires CardInStep(f)
    ensures CardInStep(WithEvent(f, e))
  {
    var entry := Entry(AGENT_EVENT, Parsed(e));
    LogGrows(IsRetry(), f.log, entry);
    LogGrows(IsToolCall(), f.log, entry);
    LogGrows(IsToolError(), f.log, entry);
  }

  lemma EventAccounted(f: RunFiles, e: Event)
    requires Accounted(f)
    ensures Accounted(WithEvent(f, e))
  {
    EventTokens(f, e);
    EventCard(f, e);
  }

  /** A note with this content would be read back as an event that some count includes. */
  predicate ReadsAsCounted(f: RunFiles, kind: string, payload: Payload) {
    && kind == AGENT_EVENT && payload.Parsed?
    && match payload.event
       case ModelRequest(_, _) => true
       case ToolCall => f.meta.Some? && CountIn(IsToolCall(), f.log) < U32_MAX
       case ToolCallResult(success) => f.meta.Some? && !success && CountIn(IsToolError(), f.log) < U32_MAX
       case OtherEvent => false
  }

  /** A note keeps the bookkeeping in step exactly when it does not pass for a counted event. */
  lemma NoteAccounted(f: RunFiles, kind: string, payload: Payload)
    requires Accounted(f)
    ensures Accounted(WithNote(f, kind, payload)) <==> !ReadsAsCounted(f, kind, payload)
  {
    var entry := Entry(kind, payload);
    RequestsGrow(f.log, entry);
    LogGrows(IsRetry(), f.log, entry);
    LogGrows(IsToolCall(), f.log, entry);
    LogGrows(IsToolError(), f.log, entry);
    if IsRequest()(entry) && f.summary.Some? {
      assert Bumped(f.summary.value, entry.payload.event.tokens).requests != f.summary.value.requests;
    }
  }

  /** One such note puts any new run out of step: a tool call that only a rescan counts. */
  lemma NoteMiscounts(mode: string, provider: Option<string>)
    ensures Accounted(Created(mode, provider))
    ensures !Accounted(WithNote(Created(mode, provider), AGENT_EVENT, Parsed(ToolCall)))
  {
    CreatedAccounted(mode, provider);
    NoteAccounted(Created(mode, provider), AGENT_EVENT, Parsed(ToolCall));
  }

  lemma FallbackAccounted(f: RunFiles, m: Meta, preview: string)
    requires Accounted(f)
    ensures Accounted(WithFallback(f, m, preview)) && WithFallback(f, m, preview).meta == f.meta
  {
    if NeedsFallback(f, m, preview) {
      EventAccounted(f, FallbackOf(m, preview));
    }
  }

  /** Writing the summary that was missing changes no figure the scorecard shows. */
  lemma SummaryAccounted(f: RunFiles)
    requires Accounted(f)
    ensures Accounted(WithSummary(f)) && WithSummary(f).summary == Some(Computed(f.log))
  {
    if f.summary == None {
      NoRequests(f.log);
    }
  }

  lemma FinishedAccounted(f: RunFiles, status: Status, preview: string)
    requires Accounted(f)
    ensures var r := Finished(f, status, preview); Accounted(r) && (f.meta.Some? ==> r.summary == Some(Computed(r.log)))
  {
    if f.meta.Some? {
      FallbackAccounted(f, f.meta.value, preview);
      SummaryAccounted(WithFallback(f, f.meta.value, preview));
    }
  }

  lemma UpdatedAccounted(f: RunFiles, status: Status, preview: Option<string>, provider: string)
    requires Accounted(f)
    ensures Accounted(Updated(f, status, preview)) && Accounted(Provided(f, provider))
  {
  }

  /** The stale run's scorecard lags behind its metadata only until the upsert. */
  lemma CleanedAccounted(f: RunFiles)
    requires Accounted(f)
    ensures Accounted(Cleaned(f)) && !IsStale(Cleaned(f))
            && (IsStale(f) ==> Cleaned(f).summary == Some(Computed(Cleaned(f).log)))
  {
    if IsStale(f) {
      var m := f.meta.value.(status := Failed, finished := true, preview := Some(STALE_PREVIEW));
      var g := f.(meta := Some(m));
      var card := Upserted(g);
      assert Accounted(card);
      FallbackAccounted(card, m, STALE_PREVIEW);
      SummaryAccounted(WithFallback(card, m, STALE_PREVIEW));
      assert Upserted(WithSummary(WithFallback(g, m, STALE_PREVIEW))) ==
             Upserted(WithSummary(WithFallback(card, m, STALE_PREVIEW)));
    }
  }

  // Whole runs.

  datatype Op =
    | Append(event: Event)
    | Note(kind: string, payload: Payload)
    | Finish(status: Status, preview: string)
    | Update(status: Status, shown: Option<string>)
    | SetProvider(provider: string)
    | CleanUp

  function Apply(f: RunFiles, op: Op): RunFiles {
    match op
    case Append(e) => WithEvent(f, e)
    case Note(kind, payload) => WithNote(f, kind, payload)
    case Finish(status, preview) => Finished(f, status, preview)
    case Update(status, shown) => Updated(f, status, shown)
    case SetProvider(provider) => Provided(f, provider)
    case CleanUp => Cleaned(f)
  }

  function ApplyAll(f: RunFiles, ops: seq<Op>): RunFiles
    decreases ops
  {
    if ops == [] then f else ApplyAll(Apply(f, ops[0]), ops[1..])
  }

  /** An operation that logs an entry of its own. */
  function Logs(): Op -> bool { (op: Op) => op.Append? || op.Note? }

  ghost predicate HonestNotes(f: RunFiles, ops: seq<Op>)
    decreases ops
  {
    ops == [] || ((ops[0].Note? ==> !ReadsAsCounted(f, ops[0].kind, ops[0].payload))
                  && HonestNotes(Apply(f, ops[0]), ops[1..]))
  }

  /** Over any run of operations the summary and the scorecard say what a rescan of the log would. */
  lemma {:induction false} RunAccounted(f: RunFiles, ops: seq<Op>)
    requires Accounted(f) && HonestNotes(f, ops)
    ensures Accounted(ApplyAll(f, ops))
    decreases ops
  {
    if ops != [] {
      match ops[0] {
        case Append(e) => EventAccounted(f, e);
        case Note(kind, payload) => NoteAccounted(f, kind, payload);
        case Finish(status, preview) => FinishedAccounted(f, status, preview);
        case Update(status, shown) => UpdatedAccounted(f, status, shown, "");
        case SetProvider(provider) => UpdatedAccounted(f, Running, None, provider);
        case CleanUp => CleanedAccounted(f);
      }
      RunAccounted(Apply(f, ops[0]), ops[1..]);
    }
  }

  // What finishing and cleaning up leave behind.

  /** The first 240 characters and an ellipsis, or all if there are no more. */
  ghost predicate IsPreview(shown: string, preview: string) {
    if |preview| <= 240 then shown == preview
    else |shown| == 243 && shown[..240] == preview[..240] && shown[240..] == "..."
  }

  ghost predicate LogsRequest(log: seq<Entry>) {
    exists e :: e in log && e.kind == "agent-event" && e.payload.Parsed? && e.payload.event.ModelRequest?
  }

  /** A hosted run with something to show and no request in its log gets one; no other log changes. */
  ghost predicate Charged(log: seq<Entry>, r: seq<Entry>, m: Meta, preview: string) {
    if m.mode == "hosted-mcp" && (exists c :: c in preview && !IsSpace(c)) && !LogsRequest(log) then
      exists provider: string, tokens: nat ::
        && r == log + [Entry("agent-event", Parsed(ModelRequest(provider, tokens)))]
        && provider == (if m.provider.Some? then m.provider.value else m.mode)
        && 4 * tokens <= Larger(|preview|, 4) < 4 * tokens + 4
    else r == log
  }

  lemma FallbackCharges(f: RunFiles, m: Meta, preview: string)
    ensures Charged(f.log, WithFallback(f, m, preview).log, m, preview)
    ensures WithFallback(f, m, preview).meta == f.meta
  {
    assert HasRequest(f.log) <==> LogsRequest(f.log);
    if NeedsFallback(f, m, preview) {
      var e := FallbackOf(m, preview);
      assert WithFallback(f, m, preview).log ==
             f.log + [Entry("agent-event", Parsed(ModelRequest(e.provider, e.tokens)))];
    }
  }

  /** A finished run has the status given and the preview cut short, and may have been charged; nothing else changes. */
  lemma FinishedTells(f: RunFiles, status: Status, preview: string)
    requires f.meta.Some?
    ensures var r := Finished(f, status, preview);
            && r.meta.Some? && r.meta.value.status == status && r.meta.value.finished
            && r.meta.value.mode == f.meta.value.mode && r.meta.value.provider == f.meta.value.provider
            && r.meta.value.preview.Some? && IsPreview(r.meta.value.preview.value, preview)
            && Charged(f.log, r.log, f.meta.value, preview)
  {
    FallbackCharges(f, f.meta.value, preview);
  }

  /** A stale run is failed; it is charged by its new preview. */
  lemma CleanedTells(f: RunFiles)
    ensures f.meta == None || f.meta.value.finished || !f.meta.value.status.Running? ==> Cleaned(f) == f
    ensures f.meta.Some? && !f.meta.value.finished && f.meta.value.status.Running? ==>
              var r := Cleaned(f);
              && r.meta.Some? && r.meta.value.status == Failed && r.meta.value.finished
              && r.meta.value.mode == f.meta.value.mode && r.meta.value.provider == f.meta.value.provider
              && r.meta.value.preview == Some("terminated: server restarted")
              && Charged(f.log, r.log, f.meta.value, "terminated: server restarted")
  {
    if IsStale(f) {
      var m := f.meta.value.(status := Failed, finished := true, preview := Some(STALE_PREVIEW));
      FallbackCharges(f.(meta := Some(m)), m, STALE_PREVIEW);
    }
  }

  /** Notes of any other kind are always honest. */
  lemma {:induction false} OtherNotesHonest(f: RunFiles, ops: seq<Op>)
    requires forall op :: op in ops && op.Note? ==> op.kind != AGENT_EVENT
    ensures HonestNotes(f, ops)
    decreases ops
  {
    if ops != [] {
      assert ops[0] in ops;
      OtherNotesHonest(Apply(f, ops[0]), ops[1..]);
    }
  }

  lemma FallbackIsRequest(f: RunFiles, m: Meta, preview: string)
    ensures f.log <= WithFallback(f, m, preview).log && |WithFallback(f, m, preview).log| <= |f.log| + 1
    ensures HasRequest(f.log) ==> WithFallback(f, m, preview).log == f.log
    ensures WithFallback(f, m, preview).log != f.log ==> HasRequest(WithFallback(f, m, preview).log)
  {
    RequestsGrow(f.log, Entry(AGENT_EVENT, Parsed(FallbackOf(m, preview))));
  }

  lemma LogOf(f: RunFiles, op: Op)
    ensures var r, own := Apply(f, op).log, if Logs()(op) then 1 else 0;
            && f.log <= r && |f.log| + own <= |r| <= |f.log| + own + 1
            && (HasRequest(f.log) ==> |r| == |f.log| + own) && (|r| > |f.log| + own ==> HasRequest(r))
  {
    if op.Finish? && f.meta.Some? {
      FallbackIsRequest(f, f.meta.value, op.preview);
    } else if op.CleanUp? && IsStale(f) {
      var m := f.meta.value.(status := Failed, finished := true, preview := Some(STALE_PREVIEW));
      FallbackIsRequest(f.(meta := Some(m)), m, STALE_PREVIEW);
    }
  }

  /** However often a run is finished or cleaned up, its log grows by at most one entry besides those that were given to
      be logged, and by none after a request. */
  lemma {:induction false} ChargedOnce(f: RunFiles, ops: seq<Op>)
    ensures var given := |f.log| + |Filter(Logs(), ops)|;
            && given <= |ApplyAll(f, ops).log| <= given + 1
            && (HasRequest(f.log) ==> |ApplyAll(f, ops).log| == given)
    decreases ops
  {
    if ops != [] {
      LogOf(f, ops[0]);
      if e :| e in f.log && IsRequest()(e) {
        assert e in Apply(f, ops[0]).log;
      }
      assert ops == [ops[0]] + ops[1..];
      FilterAppend(Logs(), [ops[0]], ops[1..]);
      FilterUniform(Logs(), [ops[0]], Logs()(ops[0]));
      ChargedOnce(Apply(f, ops[0]), ops[1..]);
    }
  }
}
