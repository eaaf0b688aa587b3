// Every counter counts the steps that it is named after.
module CacheEvents {
  import opened CacheState
  import opened CacheProtocol
  import opened CacheInvariants
  import opened CacheProgress

  // Looks up a configuration that is cached.
  ghost predicate Hits(s: State, e: Event) {
    && e.Lookup? && e.caller < |s.callers|
    && var c := s.callers[e.caller];
       c.uid in s.cache.entries && s.cache.entries[c.uid].configHash == c.hash
  }

  // Looks up a uid without an entry, or with one for another configuration, that nobody initialises.
  ghost predicate MissesAbsent(s: State, e: Event) {
    && e.Lookup? && e.caller < |s.callers|
    && var c := s.callers[e.caller];
       c.uid !in s.cache.entries && c.uid !in s.cache.inflight
  }

  ghost predicate MissesChanged(s: State, e: Event) {
    && e.Lookup? && e.caller < |s.callers|
    && var c := s.callers[e.caller];
       c.uid in s.cache.entries && s.cache.entries[c.uid].configHash != c.hash && c.uid !in s.cache.inflight
  }

  // Ends a wait on a call, for the waiter's own configuration or for another.
  ghost predicate Wakes(s: State, e: Event, same: bool) {
    && e.Wake? && Enabled(s, e)
    && (s.calls[s.callers[e.caller].pc.call].configHash == s.callers[e.caller].hash) == same
  }

  ghost predicate WakesFailed(s: State, e: Event) {
    Wakes(s, e, true) && s.calls[s.callers[e.caller].pc.call].outcome.err.Some?
  }

  ghost predicate WakesCompleted(s: State, e: Event) {
    Wakes(s, e, true) && s.calls[s.callers[e.caller].pc.call].outcome.err.None?
  }

  ghost predicate WakesChanged(s: State, e: Event) {
    Wakes(s, e, false)
  }

  ghost predicate CreateSucceeds(e: Event) {
    e.CreateEnds? && e.result.Returns? && e.result.err.None?
  }

  ghost predicate CreateFails(e: Event) {
    e.CreateEnds? && (e.result.Panics? || e.result.err.Some?)
  }

  // What the counters are to say, evictions apart.
  datatype Tally = Tally(hits: nat, missesAbsent: nat, missesChanged: nat, waitsCanceled: nat, waitsFailed: nat,
                         waitsCompleted: nat, waitsChanged: nat, initSuccess: nat, initError: nat)

  function TallyOf(m: Metrics): Tally {
    Tally(m.hits, m.missesAbsent, m.missesChanged, m.waitsCanceled, m.waitsFailed, m.waitsCompleted, m.waitsChanged,
          m.initSuccess, m.initError)
  }

  ghost function Tallied(t: Tally, s: State, e: Event): Tally {
    Tally(t.hits + One(Hits(s, e)),
          t.missesAbsent + One(MissesAbsent(s, e)), t.missesChanged + One(MissesChanged(s, e)),
          t.waitsCanceled + One(e.Cancel?), t.waitsFailed + One(WakesFailed(s, e)),
          t.waitsCompleted + One(WakesCompleted(s, e)), t.waitsChanged + One(WakesChanged(s, e)),
          t.initSuccess + One(CreateSucceeds(e)), t.initError + One(CreateFails(e)))
  }

  // How many of the first `n` steps were of each kind.
  ghost function Happened(r: Run, n: nat): Tally
    requires IsRun(r) && n < |r.states|
  {
    if n == 0 then Tally(0, 0, 0, 0, 0, 0, 0, 0, 0)
    else Tallied(Happened(r, n - 1), r.states[n - 1], r.events[n - 1])
  }

  lemma LookupIsTallied(s: State, i: CallerId)
    requires Enabled(s, Lookup(i))
    ensures TallyOf(LookupStep(s, i).cache.metrics) == Tallied(TallyOf(s.cache.metrics), s, Lookup(i))
  {
  }

  lemma WakeIsTallied(s: State, i: CallerId)
    requires Enabled(s, Wake(i))
    ensures TallyOf(WakeStep(s, i).cache.metrics) == Tallied(TallyOf(s.cache.metrics), s, Wake(i))
  {
  }

  lemma CommitIsTallied(s: State, i: CallerId)
    requires WellFormed(s.cache) && Enabled(s, Commit(i))
    ensures TallyOf(CommitStep(s, i).cache.metrics) == Tallied(TallyOf(s.cache.metrics), s, Commit(i))
  {
    var c := s.callers[i];
    var outcome := s.calls[c.pc.call].outcome;
    if outcome.err.None? {
      StoreEffect(s.cache, c.uid, c.hash, outcome.meta);
    }
  }

  lemma StepIsTallied(s: State, e: Event)
    requires WellFormed(s.cache) && Enabled(s, e)
    ensures TallyOf(Step(s, e).cache.metrics) == Tallied(TallyOf(s.cache.metrics), s, e)
  {
    match e
    case Lookup(i) => LookupIsTallied(s, i);
    case Wake(i) => WakeIsTallied(s, i);
    case Commit(i) => CommitIsTallied(s, i);
    case _ =>
  }

  lemma RunIsTallied(r: Run, n: nat)
    requires IsRun(r) && n < |r.events|
    ensures TallyOf(r.states[n + 1].cache.metrics)
         == Tallied(TallyOf(r.states[n].cache.metrics), r.states[n], r.events[n])
  {
    InvHolds(r, n);
    RunStep(r, n);
    StepIsTallied(r.states[n], r.events[n]);
  }

  // In every state of every run the counters say how often what has happened.
  lemma {:induction false} CountersCountSteps(r: Run, n: nat)
    requires IsRun(r) && n < |r.states|
    ensures TallyOf(r.states[n].cache.metrics) == Happened(r, n)
  {
    if n > 0 {
      CountersCountSteps(r, n - 1);
      RunIsTallied(r, n - 1);
    }
  }
}
