// The metrics tell the truth in every state of every run.
module CacheCounters {
  import opened Collections
  import opened CacheState
  import opened CacheProtocol
  import opened CacheInvariants
  import opened CacheProgress

  function Parks(c: Caller): nat { One(c.pc.Parked?) }
  function Waits(c: Caller): nat { One(c.pc.Waiting?) }
  function Initializes(c: Caller): nat { One(c.pc.Initializing?) }
  function Commits(c: Caller): nat { One(c.pc.Committing?) }
  function WaitsBegun(c: Caller): nat { |c.waited| }
  function HasHit(c: Caller): nat { One(c.pc.Returned? && c.pc.source.FromEntry?) }
  function WasCanceled(c: Caller): nat { One(c.pc.Returned? && c.pc.source.FromContext?) }
  function HasFailedWaiting(c: Caller): nat { One(c.pc.Returned? && c.pc.source.FromOtherCall?) }
  function Succeeded(c: Call): nat { One(c.finished && c.outcome.err.None?) }
  function Failed(c: Call): nat { One(c.finished && c.outcome.err.Some?) }

  // The counters and gauges against the callers and calls they are about.
  ghost predicate WaitersCounted(m: Metrics, cs: seq<Caller>) {
    && m.waiting == Sum(cs, Waits)
    && m.Waits() + Sum(cs, Parks) + Sum(cs, Waits) == Sum(cs, WaitsBegun)
    && m.waitsCanceled == Sum(cs, WasCanceled)
    && m.waitsFailed == Sum(cs, HasFailedWaiting)
    && m.hits == Sum(cs, HasHit)
  }

  ghost predicate InitializersCounted(m: Metrics, cs: seq<Caller>) {
    && m.Initializations() + Sum(cs, Initializes) == m.Misses()
    && m.inflight == Sum(cs, Initializes) + Sum(cs, Commits)
  }

  ghost predicate CallsCounted(m: Metrics, calls: seq<Call>) {
    && m.Misses() == |calls|
    && m.initSuccess == Sum(calls, Succeeded)
    && m.initError == Sum(calls, Failed)
  }

  ghost predicate GaugesExact(c: Cache) {
    && c.metrics.entries == |c.entries|
    && c.metrics.inflight == |c.inflight|
    && c.metrics.capacity == c.maxEntries
  }

  ghost predicate Counted(s: State) {
    && WaitersCounted(s.cache.metrics, s.callers)
    && InitializersCounted(s.cache.metrics, s.callers)
    && CallsCounted(s.cache.metrics, s.calls)
    && GaugesExact(s.cache)
  }

  // Counters that change with one caller as its position does stay right.
  lemma WaiterMoved(m: Metrics, cs: seq<Caller>, i: CallerId, m': Metrics, c: Caller)
    requires WaitersCounted(m, cs) && i < |cs|
    requires m'.waiting == m.waiting + Waits(c) - Waits(cs[i])
    requires m'.Waits() + Parks(c) + Waits(c) + WaitsBegun(cs[i])
             == m.Waits() + Parks(cs[i]) + Waits(cs[i]) + WaitsBegun(c)
    requires m'.waitsCanceled + WasCanceled(cs[i]) == m.waitsCanceled + WasCanceled(c)
    requires m'.waitsFailed + HasFailedWaiting(cs[i]) == m.waitsFailed + HasFailedWaiting(c)
    requires m'.hits + HasHit(cs[i]) == m.hits + HasHit(c)
    ensures WaitersCounted(m', cs[i := c])
  {
    SumUpdate(cs, i, c, Parks);
    SumUpdate(cs, i, c, Waits);
    SumUpdate(cs, i, c, WaitsBegun);
    SumUpdate(cs, i, c, HasHit);
    SumUpdate(cs, i, c, WasCanceled);
    SumUpdate(cs, i, c, HasFailedWaiting);
  }

  lemma InitializerMoved(m: Metrics, cs: seq<Caller>, i: CallerId, m': Metrics, c: Caller)
    requires InitializersCounted(m, cs) && i < |cs|
    requires m'.Initializations() + Initializes(c) + m.Misses()
             == m.Initializations() + Initializes(cs[i]) + m'.Misses()
    requires m'.inflight + Initializes(cs[i]) + Commits(cs[i]) == m.inflight + Initializes(c) + Commits(c)
    ensures InitializersCounted(m', cs[i := c])
  {
    SumUpdate(cs, i, c, Initializes);
    SumUpdate(cs, i, c, Commits);
  }

  lemma InvokeKeepsCounted(s: State, uid: Uid, hash: Hash)
    requires Counted(s)
    ensures Counted(Step(s, Invoke(uid, hash)))
  {
    var c := Caller(uid, hash, Looping, {});
    SumAppend(s.callers, c, Parks);
    SumAppend(s.callers, c, Waits);
    SumAppend(s.callers, c, Initializes);
    SumAppend(s.callers, c, Commits);
    SumAppend(s.callers, c, WaitsBegun);
    SumAppend(s.callers, c, HasHit);
    SumAppend(s.callers, c, WasCanceled);
    SumAppend(s.callers, c, HasFailedWaiting);
  }

  // A caller that hits, parks, begins, finishes or commits: the counters it changes, and what stays right.
  lemma CallerHits(m: Metrics, cs: seq<Caller>, i: CallerId, meta: Meta)
    requires WaitersCounted(m, cs) && i < |cs| && cs[i].pc.Looping?
    ensures WaitersCounted(m.(hits := m.hits + 1), cs[i := cs[i].(pc := Returned(meta, None, FromEntry))])
  {
    WaiterMoved(m, cs, i, m.(hits := m.hits + 1), cs[i].(pc := Returned(meta, None, FromEntry)));
  }

  lemma CallerParks(m: Metrics, cs: seq<Caller>, i: CallerId, k: CallId)
    requires WaitersCounted(m, cs) && i < |cs| && cs[i].pc.Looping? && k !in cs[i].waited
    ensures WaitersCounted(m, cs[i := cs[i].(pc := Parked(k), waited := cs[i].waited + {k})])
  {
    WaiterMoved(m, cs, i, m, cs[i].(pc := Parked(k), waited := cs[i].waited + {k}));
  }

  // Same counters for waiters, and the caller is in none of them before or after.
  lemma WaitersUnmoved(m: Metrics, cs: seq<Caller>, i: CallerId, m': Metrics, c: Caller)
    requires WaitersCounted(m, cs) && i < |cs| && c.waited == cs[i].waited
    requires m'.waiting == m.waiting && m'.Waits() == m.Waits() && m'.hits == m.hits
    requires m'.waitsCanceled == m.waitsCanceled && m'.waitsFailed == m.waitsFailed
    requires cs[i].pc.Looping? || cs[i].pc.Initializing? || cs[i].pc.Committing?
    requires c.pc.Initializing? || c.pc.Committing? || (c.pc.Returned? && c.pc.source.FromOwnCall?)
    ensures WaitersCounted(m', cs[i := c])
  {
    WaiterMoved(m, cs, i, m', c);
  }

  lemma LookupKeepsWaitersCounted(s: State, i: CallerId)
    requires Inv(s) && WaitersCounted(s.cache.metrics, s.callers) && Enabled(s, Lookup(i))
    ensures var t := LookupStep(s, i); WaitersCounted(t.cache.metrics, t.callers)
  {
    var c, m := s.callers[i], s.cache.metrics;
    match LookupSection(s.cache, c.uid, c.hash, |s.calls|)
    case (Hit(meta), _) => CallerHits(m, s.callers, i, meta);
    case (MustWait(k), _) =>
      ParkingIsNew(s, i);
      CallerParks(m, s.callers, i, k);
    case (MustInitialize, cache) =>
      WaitersUnmoved(m, s.callers, i, cache.metrics, c.(pc := Initializing(|s.calls|)));
  }

  // Beginning a call counts a miss and fills a slot.
  lemma CallBegun(c: Cache, calls: seq<Call>, call: Call, hash: Hash)
    requires GaugesExact(c) && CallsCounted(c.metrics, calls) && !call.finished
    requires LookupSection(c, call.uid, hash, |calls|).0 == MustInitialize
    ensures var d := LookupSection(c, call.uid, hash, |calls|).1;
            && GaugesExact(d) && CallsCounted(d.metrics, calls + [call])
            && d.metrics.Misses() == c.metrics.Misses() + 1 && d.metrics.inflight == c.metrics.inflight + 1
            && d.metrics.Initializations() == c.metrics.Initializations()
  {
  }

  lemma LookupKeepsInitializersCounted(s: State, i: CallerId)
    requires Counted(s) && Enabled(s, Lookup(i))
    ensures var t := LookupStep(s, i);
            && InitializersCounted(t.cache.metrics, t.callers) && CallsCounted(t.cache.metrics, t.calls)
            && GaugesExact(t.cache)
  {
    var c := s.callers[i];
    var t := LookupStep(s, i);
    if LookupSection(s.cache, c.uid, c.hash, |s.calls|).0 == MustInitialize {
      CallBegun(s.cache, s.calls, Call(c.uid, c.hash, i, ZERO_OUTCOME, false, false), c.hash);
    }
    InitializerMoved(s.cache.metrics, s.callers, i, t.cache.metrics, t.callers[i]);
  }

  lemma LookupKeepsCounted(s: State, i: CallerId)
    requires Inv(s) && Counted(s) && Enabled(s, Lookup(i))
    ensures Counted(LookupStep(s, i))
  {
    LookupKeepsWaitersCounted(s, i);
    LookupKeepsInitializersCounted(s, i);
  }

  lemma BeginWaitingKeepsCounted(s: State, i: CallerId)
    requires Counted(s) && Enabled(s, BeginWaiting(i))
    ensures Counted(Step(s, BeginWaiting(i)))
  {
    var t := Step(s, BeginWaiting(i));
    WaiterMoved(s.cache.metrics, s.callers, i, t.cache.metrics, t.callers[i]);
    InitializerMoved(s.cache.metrics, s.callers, i, t.cache.metrics, t.callers[i]);
  }

  lemma WakeKeepsCounted(s: State, i: CallerId)
    requires Counted(s) && Enabled(s, Wake(i))
    ensures Counted(WakeStep(s, i))
  {
    var t := WakeStep(s, i);
    WaiterMoved(s.cache.metrics, s.callers, i, t.cache.metrics, t.callers[i]);
    InitializerMoved(s.cache.metrics, s.callers, i, t.cache.metrics, t.callers[i]);
  }

  lemma CancelKeepsCounted(s: State, i: CallerId)
    requires Counted(s) && Enabled(s, Cancel(i))
    ensures Counted(CancelStep(s, i))
  {
    var t := CancelStep(s, i);
    WaiterMoved(s.cache.metrics, s.callers, i, t.cache.metrics, t.callers[i]);
    InitializerMoved(s.cache.metrics, s.callers, i, t.cache.metrics, t.callers[i]);
  }

  lemma FinishedMetrics(m: Metrics, cs: seq<Caller>, i: CallerId, m': Metrics, k: CallId)
    requires WaitersCounted(m, cs) && InitializersCounted(m, cs) && i < |cs| && cs[i].pc.Initializing?
    requires m' == m.(initSuccess := m.initSuccess + 1) || m' == m.(initError := m.initError + 1)
    ensures var after := cs[i := cs[i].(pc := Committing(k))];
            WaitersCounted(m', after) && InitializersCounted(m', after)
  {
    WaitersUnmoved(m, cs, i, m', cs[i].(pc := Committing(k)));
    InitializerMoved(m, cs, i, m', cs[i].(pc := Committing(k)));
  }

  lemma CreateEndsKeepsCounted(s: State, i: CallerId, result: CreateResult)
    requires Inv(s) && Counted(s) && Enabled(s, CreateEnds(i, result))
    ensures Counted(CreateEndsStep(s, i, result))
  {
    var k := s.callers[i].pc.call;
    var m := CreateEndsStep(s, i, result).cache.metrics;
    OwnerFacts(s, i);
    FinishedMetrics(s.cache.metrics, s.callers, i, m, k);
    CallFinished(s.cache.metrics, s.calls, k, InitializeProviderMeta(result), m);
  }

  lemma CallFinished(m: Metrics, calls: seq<Call>, k: CallId, outcome: Outcome, m': Metrics)
    requires CallsCounted(m, calls) && k < |calls| && !calls[k].finished
    requires m' == if outcome.err.None? then m.(initSuccess := m.initSuccess + 1) else m.(initError := m.initError + 1)
    ensures CallsCounted(m', calls[k := calls[k].(outcome := outcome, finished := true)])
  {
    var call := calls[k].(outcome := outcome, finished := true);
    SumUpdate(calls, k, call, Succeeded);
    SumUpdate(calls, k, call, Failed);
  }

  lemma CommitMetrics(s: State, i: CallerId)
    requires Inv(s) && GaugesExact(s.cache) && Enabled(s, Commit(i))
    ensures var t := CommitStep(s, i);
            var m := s.cache.metrics;
            && GaugesExact(t.cache)
            && t.cache.metrics.inflight == m.inflight - 1
            && t.cache.metrics == m.(entries := t.cache.metrics.entries, inflight := t.cache.metrics.inflight,
                                     evictions := t.cache.metrics.evictions)
  {
    var c := s.callers[i];
    var outcome := s.calls[c.pc.call].outcome;
    OwnerFacts(s, i);
    if outcome.err.None? {
      StoreEffect(s.cache, c.uid, c.hash, outcome.meta);
    }
    assert (s.cache.inflight - {c.uid}).Keys == s.cache.inflight.Keys - {c.uid};
  }

  lemma CommittedMetrics(m: Metrics, cs: seq<Caller>, i: CallerId, m': Metrics, pc: Pc)
    requires WaitersCounted(m, cs) && InitializersCounted(m, cs) && i < |cs| && cs[i].pc.Committing?
    requires m.inflight >= 1
    requires m' == m.(entries := m'.entries, inflight := m.inflight - 1, evictions := m'.evictions)
    requires pc.Returned? && pc.source.FromOwnCall?
    ensures var after := cs[i := cs[i].(pc := pc)]; WaitersCounted(m', after) && InitializersCounted(m', after)
  {
    WaitersUnmoved(m, cs, i, m', cs[i].(pc := pc));
    InitializerMoved(m, cs, i, m', cs[i].(pc := pc));
  }

  lemma CommitKeepsCounted(s: State, i: CallerId)
    requires Inv(s) && Counted(s) && Enabled(s, Commit(i))
    ensures Counted(CommitStep(s, i))
  {
    var k := s.callers[i].pc.call;
    var t := CommitStep(s, i);
    OwnerFacts(s, i);
    CommitMetrics(s, i);
    CommittedMetrics(s.cache.metrics, s.callers, i, t.cache.metrics, t.callers[i].pc);
    CallClosed(s.cache.metrics, s.calls, k, t.cache.metrics);
  }

  lemma CallClosed(m: Metrics, calls: seq<Call>, k: CallId, m': Metrics)
    requires CallsCounted(m, calls) && k < |calls|
    requires m'.Misses() == m.Misses() && m'.initSuccess == m.initSuccess && m'.initError == m.initError
    ensures CallsCounted(m', calls[k := calls[k].(closed := true)])
  {
    SumUpdate(calls, k, calls[k].(closed := true), Succeeded);
    SumUpdate(calls, k, calls[k].(closed := true), Failed);
  }

  lemma StepKeepsCounted(s: State, e: Event)
    requires Inv(s) && Counted(s) && Enabled(s, e)
    ensures Counted(Step(s, e))
  {
    match e
    case Invoke(uid, hash) => InvokeKeepsCounted(s, uid, hash);
    case Lookup(i) => LookupKeepsCounted(s, i);
    case CreateEnds(i, result) => CreateEndsKeepsCounted(s, i, result);
    case Commit(i) => CommitKeepsCounted(s, i);
    case BeginWaiting(i) => BeginWaitingKeepsCounted(s, i);
    case Wake(i) => WakeKeepsCounted(s, i);
    case Cancel(i) => CancelKeepsCounted(s, i);
  }

  lemma RunKeepsCounted(r: Run, n: nat)
    requires IsRun(r) && n < |r.events| && Counted(r.states[n])
    ensures Counted(r.states[n + 1])
  {
    InvHolds(r, n);
    RunStep(r, n);
    StepKeepsCounted(r.states[n], r.events[n]);
  }

  lemma NothingIsCounted(maxEntries: int)
    ensures Counted(Initial(maxEntries))
  {
  }

  // Conservation: in every state of every run the counters and gauges match what happened.
  lemma {:induction false} CountersHold(r: Run, n: nat)
    requires IsRun(r) && n < |r.states|
    ensures Counted(r.states[n])
  {
    if n == 0 {
      NothingIsCounted(r.maxEntries);
    } else {
      CountersHold(r, n - 1);
      RunKeepsCounted(r, n - 1);
    }
  }

  // Step `n` adds an entry for a uid that had none.
  ghost predicate AddsKey(r: Run, n: nat)
    requires IsRun(r) && n < |r.events|
  {
    var s, e := r.states[n], r.events[n];
    e.Commit? && Enabled(s, e) && s.callers[e.caller].uid !in s.cache.entries
      && s.calls[s.callers[e.caller].pc.call].outcome.err.None?
  }

  ghost function KeysAdded(r: Run, n: nat): nat
    requires IsRun(r) && n < |r.states|
  {
    if n == 0 then 0 else KeysAdded(r, n - 1) + if AddsKey(r, n - 1) then 1 else 0
  }

  lemma CommitChangesSize(s: State, i: CallerId)
    requires Inv(s) && Enabled(s, Commit(i))
    ensures var t := CommitStep(s, i);
            var added := s.callers[i].uid !in s.cache.entries && s.calls[s.callers[i].pc.call].outcome.err.None?;
            |t.cache.entries| + t.cache.metrics.evictions
              == |s.cache.entries| + s.cache.metrics.evictions + if added then 1 else 0
  {
    var c := s.callers[i];
    var outcome := s.calls[c.pc.call].outcome;
    if outcome.err.None? {
      StoreEffect(s.cache, c.uid, c.hash, outcome.meta);
      InsertedListed(s.cache, c.uid, Entry(c.hash, outcome.meta));
      var full := s.cache.entries[c.uid := Entry(c.hash, outcome.meta)];
      if Victim(s.cache, c.uid).Some? {
        assert (full - {Victim(s.cache, c.uid).value}).Keys == full.Keys - {Victim(s.cache, c.uid).value};
      }
    }
  }

  lemma StepConservesEntries(r: Run, n: nat)
    requires IsRun(r) && n < |r.events|
    ensures |r.states[n + 1].cache.entries| + r.states[n + 1].cache.metrics.evictions
            == |r.states[n].cache.entries| + r.states[n].cache.metrics.evictions + if AddsKey(r, n) then 1 else 0
  {
    InvHolds(r, n);
    RunStep(r, n);
    var s, e := r.states[n], r.events[n];
    if e.Commit? {
      CommitChangesSize(s, e.caller);
    } else {
      OtherStepsKeepEntries(s, e);
    }
  }

  // Entries are conserved: every entry ever added is still there or was counted as evicted.
  lemma {:induction false} EntriesConserved(r: Run, n: nat)
    requires IsRun(r) && n < |r.states|
    ensures KeysAdded(r, n) == |r.states[n].cache.entries| + r.states[n].cache.metrics.evictions
  {
    if n > 0 {
      EntriesConserved(r, n - 1);
      StepConservesEntries(r, n - 1);
    }
  }
}
