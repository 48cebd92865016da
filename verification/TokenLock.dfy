/** Any number of stores on one directory adding to one token summary, step by step, under the directory's lock. */
module TokenLock {
  import opened Prelude
  import opened RunAccounting

  type Thread = nat

  type LockKey = string

  /** What a thread is to add: an event it has logged, or a summary of its own. */
  datatype Amount = Bump(estimate: nat) | Delta(extra: Summary)

  /** Where a thread stands: appending is not under the lock; reading, writing and releasing are. */
  datatype Place = Idle | Waiting(amount: Amount) | Holding(amount: Amount) | Loaded(amount: Amount,
                                  was: Summary) | Written

  /** `log` holds the estimates of the logged model requests, `deltas` the summaries given to be added. */
  datatype State = State(places: map<Thread, Place>, locks: map<LockKey, Thread>, log: seq<nat>, deltas: seq<Summary>,
                         summary: Summary)

  datatype Action = LogRequest(estimate: nat) | AddSummary(extra: Summary) | Acquire | Load | Store | Release

  /** Bumping wraps at the width of the fields; adding a summary saturates. */
  function Plus(s: Summary, a: Amount): Summary {
    match a
    case Bump(estimate) => Bumped(s, estimate)
    case Delta(d) =>
      Summary(if s.tokens + d.tokens >= U64_SPAN then U64_SPAN - 1 else s.tokens + d.tokens,
              if s.requests + d.requests >= U32_SPAN then U32_SPAN - 1 else s.requests + d.requests)
  }

  /** A bump wraps, at the width of each field; an added summary stops at the largest number. */
  lemma PlusAdds(s: Summary, a: Amount)
    ensures var r := Plus(s, a);
            match a
            case Bump(n) =>
              && r.tokens < 0x1_0000_0000_0000_0000 && (s.tokens + n - r.tokens) % 0x1_0000_0000_0000_0000 == 0
              && r.requests < 0x1_0000_0000 && (s.requests + 1 - r.requests) % 0x1_0000_0000 == 0
            case Delta(d) =>
              && r.tokens == Smaller(s.tokens + d.tokens, 0xFFFF_FFFF_FFFF_FFFF)
              && r.requests == Smaller(s.requests + d.requests, 0xFFFF_FFFF)
  {
  }

  /** `key` says which lock a thread's store resolved its directory to. */
  predicate Enabled(key: Thread -> LockKey, s: State, t: Thread, a: Action) {
    && t in s.places
    && match a
       case LogRequest(_) => s.places[t].Idle?
       case AddSummary(_) => s.places[t].Idle?
       case Acquire => s.places[t].Waiting? && key(t) !in s.locks
       case Load => s.places[t].Holding?
       case Store => s.places[t].Loaded?
       case Release => s.places[t].Written?
  }

  function Next(key: Thread -> LockKey, s: State, t: Thread, a: Action): State
    requires Enabled(key, s, t, a)
  {
    match a
    case LogRequest(n) => State(s.places[t := Waiting(Bump(n))], s.locks, s.log + [n], s.deltas, s.summary)
    case AddSummary(d) => State(s.places[t := Waiting(Delta(d))], s.locks, s.log, s.deltas + [d], s.summary)
    case Acquire => State(s.places[t := Holding(s.places[t].amount)], s.locks[key(t) := t], s.log, s.deltas, s.summary)
    case Load => State(s.places[t := Loaded(s.places[t].amount, s.summary)], s.locks, s.log, s.deltas, s.summary)
    case Store => State(s.places[t := Written], s.locks, s.log, s.deltas, Plus(s.places[t].was, s.places[t].amount))
    case Release => State(s.places[t := Idle], s.locks - {key(t)}, s.log, s.deltas, s.summary)
  }

  datatype Step = Step(thread: Thread, action: Action)

  /** Every interleaving: each step is any enabled action of any thread. */
  ghost predicate IsRun(key: Thread -> LockKey, s: State, steps: seq<Step>, last: State)
    decreases steps
  {
    if steps == [] then s == last
    else Enabled(key, s, steps[0].thread, steps[0].action)
         && IsRun(key, Next(key, s, steps[0].thread, steps[0].action), steps[1..], last)
  }

  ghost predicate IsStart(s: State) {
    (forall t :: t in s.places ==> s.places[t].Idle?) && s.locks == map[] && s.log == [] && s.deltas == []
        && s.summary == NO_TOKENS
  }

  ghost predicate Quiet(s: State) {
    forall t :: t in s.places ==> s.places[t].Idle?
  }

  /** All stores resolved the directory to one lock, as clones of one store do. */
  ghost predicate OneLock(key: Thread -> LockKey, s: State) {
    forall t, u :: t in s.places && u in s.places ==> key(t) == key(u)
  }

  // What has been given to be added, and what is not in the summary yet.

  function LogTotal(log: seq<nat>): nat {
    if log == [] then 0 else LogTotal(log[..|log| - 1]) + log[|log| - 1]
  }

  function DeltaTotal(deltas: seq<Summary>): Summary {
    if deltas == [] then NO_TOKENS else
      var rest, last := DeltaTotal(deltas[..|deltas| - 1]), deltas[|deltas| - 1];
      Summary(rest.tokens + last.tokens, rest.requests + last.requests)
  }

  function Total(s: State): Summary {
    Summary(LogTotal(s.log) + DeltaTotal(s.deltas).tokens, |s.log| + DeltaTotal(s.deltas).requests)
  }

  function AmountOf(a: Amount): Summary {
    match a
    case Bump(n) => Summary(n, 1)
    case Delta(d) => d
  }

  function Owed(p: Place): Summary {
    if p.Idle? || p.Written? then NO_TOKENS else AmountOf(p.amount)
  }

  function OwedTokens(places: map<Thread, Place>): Thread -> nat {
    t => if t in places then Owed(places[t]).tokens else 0
  }

  function OwedRequests(places: map<Thread, Place>): Thread -> nat {
    t => if t in places then Owed(places[t]).requests else 0
  }

  ghost function Pending(s: State): Summary {
    Summary(Sum(s.places.Keys, OwedTokens(s.places)), Sum(s.places.Keys, OwedRequests(s.places)))
  }

  /** As long as a total fits its field, the summary and what is pending make it up. */
  ghost predicate Balanced(s: State) {
    && (Total(s).tokens < U64_SPAN ==> s.summary.tokens + Pending(s).tokens == Total(s).tokens)
    && (Total(s).requests < U32_SPAN ==> s.summary.requests + Pending(s).requests == Total(s).requests)
  }

  predicate Inside(p: Place) { p.Holding? || p.Loaded? || p.Written? }

  /** A thread is inside exactly when it holds its lock, and what it has loaded is what is still stored. */
  ghost predicate Exclusive(key: Thread -> LockKey, s: State) {
    && (forall t :: t in s.places ==> (Inside(s.places[t]) <==> key(t) in s.locks && s.locks[key(t)] == t))
    && (forall t :: t in s.places && s.places[t].Loaded? ==> s.places[t].was == s.summary)
  }

  ghost predicate Sound(key: Thread -> LockKey, s: State) {
    OneLock(key, s) && Exclusive(key, s) && Balanced(s)
  }

  // Each step keeps it.

  lemma SumMoves(keys: set<Thread>, f: Thread -> nat, g: Thread -> nat, t: Thread)
    requires t in keys && forall u :: u in keys && u != t ==> f(u) == g(u)
    ensures Sum(keys, g) + f(t) == Sum(keys, f) + g(t)
  {
    SumPick(keys, f, t);
    SumPick(keys, g, t);
    SumSame(keys - {t}, f, g);
  }

  /** Only the moving thread owes a different amount. */
  lemma PendingMoves(s: State, r: State, t: Thread)
    requires t in s.places && t in r.places && r.places == s.places[t := r.places[t]]
    ensures Pending(r).tokens + Owed(s.places[t]).tokens == Pending(s).tokens + Owed(r.places[t]).tokens
    ensures Pending(r).requests + Owed(s.places[t]).requests == Pending(s).requests + Owed(r.places[t]).requests
  {
    assert r.places.Keys == s.places.Keys;
    SumMoves(s.places.Keys, OwedTokens(s.places), OwedTokens(r.places), t);
    SumMoves(s.places.Keys, OwedRequests(s.places), OwedRequests(r.places), t);
  }

  lemma LogSnoc(log: seq<nat>, n: nat)
    ensures LogTotal(log + [n]) == LogTotal(log) + n
  {
  }

  lemma DeltaSnoc(deltas: seq<Summary>, d: Summary)
    ensures DeltaTotal(deltas + [d]) ==
            Summary(DeltaTotal(deltas).tokens + d.tokens, DeltaTotal(deltas).requests + d.requests)
  {
  }

  /** Adding does what it says while the result fits. */
  lemma PlusExact(s: Summary, a: Amount)
    ensures s.tokens + AmountOf(a).tokens < U64_SPAN ==> Plus(s, a).tokens == s.tokens + AmountOf(a).tokens
    ensures s.requests + AmountOf(a).requests < U32_SPAN ==> Plus(s, a).requests == s.requests + AmountOf(a).requests
  {
  }

  lemma StoreBalanced(key: Thread -> LockKey, s: State, t: Thread)
    requires Sound(key, s) && Enabled(key, s, t, Store)
    ensures Balanced(Next(key, s, t, Store))
  {
    PendingMoves(s, Next(key, s, t, Store), t);
    PlusExact(s.summary, s.places[t].amount);
  }

  lemma LogBalanced(key: Thread -> LockKey, s: State, t: Thread, n: nat)
    requires Balanced(s) && Enabled(key, s, t, LogRequest(n))
    ensures Balanced(Next(key, s, t, LogRequest(n)))
  {
    PendingMoves(s, Next(key, s, t, LogRequest(n)), t);
    LogSnoc(s.log, n);
  }

  lemma AddBalanced(key: Thread -> LockKey, s: State, t: Thread, d: Summary)
    requires Balanced(s) && Enabled(key, s, t, AddSummary(d))
    ensures Balanced(Next(key, s, t, AddSummary(d)))
  {
    PendingMoves(s, Next(key, s, t, AddSummary(d)), t);
    DeltaSnoc(s.deltas, d);
  }

  lemma StepBalanced(key: Thread -> LockKey, s: State, t: Thread, a: Action)
    requires Sound(key, s) && Enabled(key, s, t, a)
    ensures Balanced(Next(key, s, t, a))
  {
    match a
    case LogRequest(n) => LogBalanced(key, s, t, n);
    case AddSummary(d) => AddBalanced(key, s, t, d);
    case Store => StoreBalanced(key, s, t);
    case _ => PendingMoves(s, Next(key, s, t, a), t);
  }

  lemma StepExclusive(key: Thread -> LockKey, s: State, t: Thread, a: Action)
    requires OneLock(key, s) && Exclusive(key, s) && Enabled(key, s, t, a)
    ensures OneLock(key, Next(key, s, t, a)) && Exclusive(key, Next(key, s, t, a))
  {
  }

  /** On one lock no interleaving loses or repeats an addition. */
  lemma {:induction false} RunSound(key: Thread -> LockKey, s: State, steps: seq<Step>, last: State)
    requires Sound(key, s) && IsRun(key, s, steps, last)
    ensures Sound(key, last) && last.places.Keys == s.places.Keys
    decreases steps
  {
    if steps != [] {
      StepBalanced(key, s, steps[0].thread, steps[0].action);
      StepExclusive(key, s, steps[0].thread, steps[0].action);
      RunSound(key, Next(key, s, steps[0].thread, steps[0].action), steps[1..], last);
    }
  }

  lemma NothingPending(s: State)
    requires Quiet(s)
    ensures Pending(s) == NO_TOKENS
  {
    SumZero(s.places.Keys, OwedTokens(s.places));
    SumZero(s.places.Keys, OwedRequests(s.places));
  }

  ghost predicate Exact(s: State) {
    && (Total(s).tokens < U64_SPAN ==> s.summary.tokens == Total(s).tokens)
    && (Total(s).requests < U32_SPAN ==> s.summary.requests == Total(s).requests)
  }

  /** Every run from the start that comes to rest. */
  ghost predicate EndsExact(key: Thread -> LockKey, start: State) {
    forall steps, last :: IsRun(key, start, steps, last) && Quiet(last) ==> Exact(last)
  }

  lemma OneLockExact(key: Thread -> LockKey, start: State)
    requires IsStart(start) && OneLock(key, start)
    ensures EndsExact(key, start)
  {
    NothingPending(start);
    forall steps, last | IsRun(key, start, steps, last) && Quiet(last) ensures Exact(last) {
      RunSound(key, start, steps, last);
      NothingPending(last);
    }
  }

  /** Two threads with different locks both load the old summary; the one that stores last wins. */
  function Race(t: Thread, u: Thread): seq<Step> {
    [Step(t, LogRequest(1)), Step(u, LogRequest(1)), Step(t, Acquire), Step(u, Acquire), Step(t, Load), Step(u, Load),
     Step(t, Store), Step(u, Store), Step(t, Release), Step(u, Release)]
  }

  lemma {:induction false} RunsJoin(key: Thread -> LockKey, s: State, a: seq<Step>, middle: State, b: seq<Step>,
                                    last: State)
    requires IsRun(key, s, a, middle) && IsRun(key, middle, b, last)
    ensures IsRun(key, s, a + b, last)
    decreases a
  {
    if a == [] {
      assert a + b == b;
    } else {
      assert (a + b)[1..] == a[1..] + b;
      RunsJoin(key, Next(key, s, a[0].thread, a[0].action), a[1..], middle, b, last);
    }
  }

  /** Both threads take the same kind of step, one after the other. */
  lemma BothStep(key: Thread -> LockKey, s: State, t: Thread, u: Thread, a: Action) returns (last: State)
    requires Enabled(key, s, t, a) && Enabled(key, Next(key, s, t, a), u, a)
    ensures last == Next(key, Next(key, s, t, a), u, a) && IsRun(key, s, [Step(t, a), Step(u, a)], last)
  {
    last := Next(key, Next(key, s, t, a), u, a);
    var run := [Step(t, a), Step(u, a)];
    assert run[1..] == [Step(u, a)] && [Step(u, a)][1..] == [];
    assert IsRun(key, Next(key, s, t, a), [Step(u, a)], last);
  }

  /** The two threads stand at this place, all others are idle. */
  ghost predicate BothAt(key: Thread -> LockKey, s: State, t: Thread, u: Thread, p: Place) {
    && t in s.places && u in s.places && t != u && key(t) != key(u)
    && s.places[t] == p && s.places[u] == p
    && forall v :: v in s.places && v != t && v != u ==> s.places[v].Idle?
  }

  lemma RaceOpens(key: Thread -> LockKey, start: State, t: Thread, u: Thread) returns (s: State)
    requires IsStart(start) && t in start.places && u in start.places && key(t) != key(u)
    ensures IsRun(key, start, Race(t, u)[..4], s) && BothAt(key, s, t, u, Holding(Bump(1)))
    ensures s.log == [1, 1] && s.deltas == [] && s.summary == NO_TOKENS
  {
    var logged := BothStep(key, start, t, u, LogRequest(1));
    s := BothStep(key, logged, t, u, Acquire);
    RunsJoin(key, start, [Step(t, LogRequest(1)), Step(u, LogRequest(1))], logged,
             [Step(t, Acquire), Step(u, Acquire)], s);
    assert Race(t, u)[..4] == [Step(t, LogRequest(1)), Step(u, LogRequest(1))] + [Step(t, Acquire), Step(u, Acquire)];
  }

  lemma RaceStores(key: Thread -> LockKey, s: State, t: Thread, u: Thread) returns (last: State)
    requires BothAt(key, s, t, u, Holding(Bump(1))) && s.log == [1, 1] && s.deltas == [] && s.summary == NO_TOKENS
    ensures IsRun(key, s, Race(t, u)[4..8], last) && BothAt(key, last, t, u, Written)
    ensures last.log == [1, 1] && last.deltas == [] && last.summary == Summary(1, 1)
  {
    var loaded := BothStep(key, s, t, u, Load);
    last := BothStep(key, loaded, t, u, Store);
    RunsJoin(key, s, [Step(t, Load), Step(u, Load)], loaded, [Step(t, Store), Step(u, Store)], last);
    assert Race(t, u)[4..8] == [Step(t, Load), Step(u, Load)] + [Step(t, Store), Step(u, Store)];
  }

  lemma RaceLoses(key: Thread -> LockKey, start: State, t: Thread, u: Thread) returns (last: State)
    requires IsStart(start) && t in start.places && u in start.places && key(t) != key(u)
    ensures IsRun(key, start, Race(t, u), last) && Quiet(last) && !Exact(last)
  {
    var held := RaceOpens(key, start, t, u);
    var stored := RaceStores(key, held, t, u);
    last := BothStep(key, stored, t, u, Release);
    RunsJoin(key, start, Race(t, u)[..4], held, Race(t, u)[4..8], stored);
    RunsJoin(key, start, Race(t, u)[..4] + Race(t, u)[4..8], stored, [Step(t, Release), Step(u, Release)], last);
    assert Race(t, u) == Race(t, u)[..4] + Race(t, u)[4..8] + [Step(t, Release), Step(u, Release)];
    LogSnoc([1], 1);
    assert [1] + [1] == [1, 1];
  }

  /** Every run accounts for everything exactly when all stores share one lock. */
  lemma SharedLockNeeded(key: Thread -> LockKey, start: State)
    requires IsStart(start)
    ensures EndsExact(key, start) <==> OneLock(key, start)
  {
    if OneLock(key, start) {
      OneLockExact(key, start);
    } else {
      var t, u :| t in start.places && u in start.places && key(t) != key(u);
      var last := RaceLoses(key, start, t, u);
    }
  }
}
