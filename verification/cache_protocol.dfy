// Any number of goroutines inside `getOrCreate`, interleaved one mutex section at a time.
module CacheProtocol {
  import opened Collections
  import opened CacheState

  type CallerId = nat

  // One initialisation call.  `outcome` and `closed` are what waiters read; `uid`, `owner` and `finished`
  // are bookkeeping of the model.
  datatype Call = Call(uid: Uid, configHash: Hash, owner: CallerId, outcome: Outcome, finished: bool, closed: bool)

  // How a caller came by its result.
  datatype Source = FromEntry | FromOwnCall(call: CallId) | FromOtherCall(call: CallId) | FromContext

  datatype Pc =
    | Looping                         // about to lock the mutex at the top of the loop
    | Parked(call: CallId)            // unlocked, not yet counted as waiting
    | Waiting(call: CallId)           // in the select statement
    | Initializing(call: CallId)      // running `create`
    | Committing(call: CallId)        // `create` is done, about to lock the mutex again
    | Returned(meta: Meta, err: Option<Error>, source: Source)

  // One invocation of getOrCreate.  `waited` remembers the calls it ever waited on.
  datatype Caller = Caller(uid: Uid, hash: Hash, pc: Pc, waited: set<CallId>)

  // Calls and callers are numbered in order of creation and never removed.
  datatype State = State(cache: Cache, calls: seq<Call>, callers: seq<Caller>)

  datatype Event =
    | Invoke(uid: Uid, hash: Hash)
    | Lookup(caller: CallerId)
    | BeginWaiting(caller: CallerId)
    | Wake(caller: CallerId)
    | Cancel(caller: CallerId)
    | CreateEnds(caller: CallerId, result: CreateResult)
    | Commit(caller: CallerId)

  function Initial(maxEntries: int): State {
    State(NewCache(maxEntries), [], [])
  }

  predicate Enabled(s: State, e: Event) {
    match e
    case Invoke(_, _) => true
    case Lookup(i) => i < |s.callers| && s.callers[i].pc.Looping?
    case BeginWaiting(i) => i < |s.callers| && s.callers[i].pc.Parked?
    case Wake(i) => i < |s.callers| && s.callers[i].pc.Waiting? &&
                    s.callers[i].pc.call < |s.calls| && s.calls[s.callers[i].pc.call].closed
    case Cancel(i) => i < |s.callers| && s.callers[i].pc.Waiting?
    case CreateEnds(i, _) => i < |s.callers| && s.callers[i].pc.Initializing? && s.callers[i].pc.call < |s.calls|
    case Commit(i) => i < |s.callers| && s.callers[i].pc.Committing? && s.callers[i].pc.call < |s.calls|
  }

  function Moved(s: State, i: CallerId, pc: Pc): State
    requires i < |s.callers|
  {
    s.(callers := s.callers[i := s.callers[i].(pc := pc)])
  }

  function Recounted(s: State, metrics: Metrics): State {
    s.(cache := s.cache.(metrics := metrics))
  }

  function LookupStep(s: State, i: CallerId): State
    requires i < |s.callers|
  {
    var c := s.callers[i];
    match LookupSection(s.cache, c.uid, c.hash, |s.calls|)
    case (Hit(meta), cache) =>
      Moved(s.(cache := cache), i, Returned(meta, None, FromEntry))
    case (MustWait(k), cache) =>
      s.(cache := cache, callers := s.callers[i := c.(pc := Parked(k), waited := c.waited + {k})])
    case (MustInitialize, cache) =>
      Moved(s.(cache := cache, calls := s.calls + [Call(c.uid, c.hash, i, ZERO_OUTCOME, false, false)]),
            i, Initializing(|s.calls|))
  }

  // A woken waiter reports the call's error when the call was for its own configuration, and otherwise retries.
  function WakeStep(s: State, i: CallerId): State
    requires Enabled(s, Wake(i))
  {
    var c := s.callers[i];
    var k := c.pc.call;
    var call := s.calls[k];
    var m := s.cache.metrics.(waiting := s.cache.metrics.waiting - 1);
    if call.configHash == c.hash && call.outcome.err.Some? then
      Moved(Recounted(s, m.(waitsFailed := m.waitsFailed + 1)),
            i, Returned(NilMeta, call.outcome.err, FromOtherCall(k)))
    else if call.configHash == c.hash then
      Moved(Recounted(s, m.(waitsCompleted := m.waitsCompleted + 1)), i, Looping)
    else
      Moved(Recounted(s, m.(waitsChanged := m.waitsChanged + 1)), i, Looping)
  }

  function CancelStep(s: State, i: CallerId): State
    requires i < |s.callers|
  {
    var m := s.cache.metrics;
    Moved(Recounted(s, m.(waiting := m.waiting - 1, waitsCanceled := m.waitsCanceled + 1)),
          i, Returned(NilMeta, Some(ContextDone), FromContext))
  }

  function CreateEndsStep(s: State, i: CallerId, result: CreateResult): State
    requires Enabled(s, CreateEnds(i, result))
  {
    var k := s.callers[i].pc.call;
    var outcome := InitializeProviderMeta(result);
    var m := s.cache.metrics;
    var counted := if outcome.err.None? then m.(initSuccess := m.initSuccess + 1) else m.(initError := m.initError + 1);
    Moved(Recounted(s.(calls := s.calls[k := s.calls[k].(outcome := outcome, finished := true)]), counted),
          i, Committing(k))
  }

  function CommitStep(s: State, i: CallerId): State
    requires Enabled(s, Commit(i))
  {
    var c := s.callers[i];
    var k := c.pc.call;
    var outcome := s.calls[k].outcome;
    Moved(s.(cache := CommitSection(s.cache, c.uid, c.hash, outcome),
             calls := s.calls[k := s.calls[k].(closed := true)]),
          i, Returned(outcome.meta, outcome.err, FromOwnCall(k)))
  }

  function Step(s: State, e: Event): State
    requires Enabled(s, e)
  {
    match e
    case Invoke(uid, hash) => s.(callers := s.callers + [Caller(uid, hash, Looping, {})])
    case Lookup(i) => LookupStep(s, i)
    case BeginWaiting(i) =>
      var m := s.cache.metrics;
      Moved(Recounted(s, m.(waiting := m.waiting + 1)), i, Waiting(s.callers[i].pc.call))
    case Wake(i) => WakeStep(s, i)
    case Cancel(i) => CancelStep(s, i)
    case CreateEnds(i, result) => CreateEndsStep(s, i, result)
    case Commit(i) => CommitStep(s, i)
  }

  // The callers after a step: one is new, or one has changed.
  lemma CallersStep(s: State, e: Event)
    requires Enabled(s, e)
    ensures match e
            case Invoke(uid, hash) => Step(s, e).callers == s.callers + [Caller(uid, hash, Looping, {})]
            case _ => e.caller < |s.callers| == |Step(s, e).callers|
                      && Step(s, e).callers == s.callers[e.caller := Step(s, e).callers[e.caller]]
  {
  }

  // A finite run: states[n] is the state before events[n].
  datatype Run = Run(maxEntries: int, states: seq<State>, events: seq<Event>)

  // Event `n` is possible where it happens, and leads to the next state.
  ghost predicate Follows(r: Run, n: nat)
    requires |r.states| == |r.events| + 1 && n < |r.events|
  {
    Enabled(r.states[n], r.events[n]) && r.states[n + 1] == Step(r.states[n], r.events[n])
  }

  ghost predicate IsRun(r: Run) {
    && |r.states| == |r.events| + 1
    && r.states[0] == Initial(r.maxEntries)
    && forall n: nat | n < |r.events| :: Follows(r, n)
  }

  lemma RunStep(r: Run, n: nat)
    requires IsRun(r) && n < |r.events|
    ensures Enabled(r.states[n], r.events[n]) && r.states[n + 1] == Step(r.states[n], r.events[n])
  {
    assert Follows(r, n);
  }
}
