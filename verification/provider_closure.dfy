// What `create` does for the cache: it configures the embedded provider, and only a meta that was configured is kept.
module ProviderClosure {
  import opened Collections
  import opened CacheState
  import opened CacheProtocol
  import opened CacheInvariants
  import opened CacheSafety

  // How configuring the embedded provider can end.
  datatype ProviderOutcome = ConfigureFailed(text: string) | Configured(meta: Meta) | ProviderPanicked(text: string)

  // The `create` closure: diagnostics with errors and a nil meta are both errors.
  function CreateProviderMeta(p: ProviderOutcome): CreateResult {
    match p
    case ConfigureFailed(text) => Returns(NilMeta, Some(CreateFailed(text)))
    case Configured(NilMeta) =>
      Returns(NilMeta, Some(CreateFailed("OCI provider Configure succeeded but returned nil meta")))
    case Configured(meta) => Returns(meta, None)
    case ProviderPanicked(text) => Panics(text)
  }

  // Every `create` of the run is that closure; `ps[n]` is how configuring ended when step `n` is the end of a `create`.
  ghost predicate ConfiguresProviders(r: Run, ps: seq<ProviderOutcome>) {
    |ps| == |r.events|
    && forall n | 0 <= n < |r.events| && r.events[n].CreateEnds? :: r.events[n].result == CreateProviderMeta(ps[n])
  }

  // The error that a failed configuration is reported with.
  ghost predicate Reports(err: Option<Error>, p: ProviderOutcome) {
    match p
    case ConfigureFailed(text) => err == Some(CreateFailed(text))
    case ProviderPanicked(text) => err == Some(CreatePanicked(text))
    case Configured(_) => err == Some(CreateFailed("OCI provider Configure succeeded but returned nil meta"))
  }

  // Configuring failed, panicked or gave nothing: its caller ends with that error and without a meta.
  lemma FailedConfigurationIsReported(r: Run, ps: seq<ProviderOutcome>, n: nat, m: nat, i: CallerId)
    returns (err: Option<Error>)
    requires IsRun(r) && ConfiguresProviders(r, ps) && n < m < |r.states|
    requires r.events[n].CreateEnds? && r.events[n].caller == i
    requires ps[n].Configured? ==> ps[n].meta == NilMeta
    ensures Reports(err, ps[n]) && HasOutcome(r.states[m], i, Outcome(NilMeta, err))
  {
    var result := r.events[n].result;
    OwnResultIsReturned(r, n, m, i, result);
    err := if result.Panics? then Some(CreatePanicked(result.text)) else result.err;
  }

  // Its commit stores nothing and evicts nothing.
  lemma FailedConfigurationStoresNothing(r: Run, ps: seq<ProviderOutcome>, n: nat, m: nat, i: CallerId)
    requires IsRun(r) && ConfiguresProviders(r, ps) && n < m < |r.events|
    requires r.events[n].CreateEnds? && r.events[n].caller == i && r.events[m] == Commit(i)
    requires ps[n].Configured? ==> ps[n].meta == NilMeta
    ensures var c, d := r.states[m].cache, r.states[m + 1].cache;
            d.entries == c.entries && d.recency == c.recency && d.metrics.evictions == c.metrics.evictions
    ensures i < |r.states[m + 1].callers|
    ensures var pc := r.states[m + 1].callers[i].pc; pc.Returned? && pc.meta == NilMeta && Reports(pc.err, ps[n])
  {
    var err := FailedConfigurationIsReported(r, ps, n, m, i);
    RunStep(r, m);
    FailureLeavesCacheAlone(r, m, i);
  }

  // A configured meta is stored under the caller's uid and hash, and returned without an error.
  lemma ConfiguredMetaIsStored(r: Run, ps: seq<ProviderOutcome>, n: nat, m: nat, i: CallerId)
    requires IsRun(r) && ConfiguresProviders(r, ps) && n < m < |r.events|
    requires r.events[n].CreateEnds? && r.events[n].caller == i && r.events[m] == Commit(i)
    requires ps[n].Configured? && ps[n].meta != NilMeta
    ensures i < |r.states[m].callers| && i < |r.states[m + 1].callers|
    ensures var c, d := r.states[m].callers[i], r.states[m + 1].cache;
            c.uid in d.entries && d.entries[c.uid] == Entry(c.hash, ps[n].meta)
    ensures var pc := r.states[m + 1].callers[i].pc; pc.Returned? && pc.meta == ps[n].meta && pc.err.None?
  {
    OwnResultIsReturned(r, n, m, i, r.events[n].result);
    RunStep(r, m);
    var c := r.states[m].callers[i];
    assert CommitsAt(r, m, c.uid, c.hash);
    CommitStores(r, m, c.uid, c.hash);
  }

  // Step `n` is the end of the configuration that call `k` stands for.
  ghost predicate Ends(r: Run, n: nat, k: CallId)
    requires IsRun(r) && n < |r.events|
  {
    var s, e := r.states[n], r.events[n];
    && e.CreateEnds? && e.caller < |s.callers| && s.callers[e.caller].pc == Initializing(k) && k < |s.calls|
    && s.calls[k].uid == s.callers[e.caller].uid && s.calls[k].configHash == s.callers[e.caller].hash
  }

  // What call `k` ended with, once it is over.
  ghost predicate EndedBefore(r: Run, n: nat, k: CallId)
    requires IsRun(r) && n < |r.states| && k < |r.states[n].calls|
  {
    exists m: nat :: m < n && Ends(r, m, k)
      && r.states[n].calls[k].outcome == InitializeProviderMeta(r.events[m].result)
  }

  lemma CreateIsTheEnd(r: Run, n: nat)
    requires IsRun(r) && n < |r.events| && r.events[n].CreateEnds?
    ensures Enabled(r.states[n], r.events[n])
    ensures Ends(r, n, r.states[n].callers[r.events[n].caller].pc.call)
  {
    InvHolds(r, n);
    RunStep(r, n);
    OwnerFacts(r.states[n], r.events[n].caller);
  }

  lemma FinishedStaysOrEnds(s: State, e: Event, k: CallId)
    requires Inv(s) && Enabled(s, e) && k < |Step(s, e).calls| && Step(s, e).calls[k].finished
    ensures || (e.CreateEnds? && s.callers[e.caller].pc.call == k
                && Step(s, e).calls[k].outcome == InitializeProviderMeta(e.result))
            || (k < |s.calls| && s.calls[k].finished && Step(s, e).calls[k].outcome == s.calls[k].outcome)
  {
    match e
    case Lookup(i) => LookupFinishesNothing(s, i, k);
    case Commit(i) =>
    case CreateEnds(i, result) =>
    case _ => assert Step(s, e).calls == s.calls;
  }

  lemma LookupFinishesNothing(s: State, i: CallerId, k: CallId)
    requires Enabled(s, Lookup(i)) && k < |LookupStep(s, i).calls| && LookupStep(s, i).calls[k].finished
    ensures k < |s.calls| && LookupStep(s, i).calls[k] == s.calls[k]
  {
  }

  // Step `n` is the end of call `k`, and gives it its outcome.
  ghost predicate EndsHere(r: Run, n: nat, k: CallId)
    requires IsRun(r) && n < |r.events| && k < |r.states[n + 1].calls|
  {
    Ends(r, n, k) && r.states[n + 1].calls[k].outcome == InitializeProviderMeta(r.events[n].result)
  }

  lemma FinishedBefore(r: Run, n: nat, k: CallId)
    requires IsRun(r) && n < |r.events| && k < |r.states[n + 1].calls| && r.states[n + 1].calls[k].finished
    requires !EndsHere(r, n, k)
    ensures k < |r.states[n].calls| && r.states[n].calls[k].finished
    ensures r.states[n + 1].calls[k].outcome == r.states[n].calls[k].outcome
  {
    var s, e := r.states[n], r.events[n];
    InvHolds(r, n);
    RunStep(r, n);
    FinishedStaysOrEnds(s, e, k);
    if e.CreateEnds? && s.callers[e.caller].pc.call == k {
      CreateIsTheEnd(r, n);
    }
  }

  lemma {:induction false} FinishedCallsEnded(r: Run, n: nat, k: CallId)
    requires IsRun(r) && n < |r.states| && k < |r.states[n].calls| && r.states[n].calls[k].finished
    ensures EndedBefore(r, n, k)
  {
    if n > 0 && !EndsHere(r, n - 1, k) {
      FinishedBefore(r, n - 1, k);
      FinishedCallsEnded(r, n - 1, k);
    }
  }

  // Step `n` ends a configuration for this uid and hash with this meta.
  ghost predicate ConfiguredAt(r: Run, ps: seq<ProviderOutcome>, n: nat, uid: Uid, hash: Hash, meta: Meta)
    requires IsRun(r) && |ps| == |r.events| && n < |r.events|
  {
    var s, e := r.states[n], r.events[n];
    && e.CreateEnds? && e.caller < |s.callers| && s.callers[e.caller].uid == uid && s.callers[e.caller].hash == hash
    && ps[n] == Configured(meta) && meta != NilMeta
  }

  lemma ProducedWasConfigured(r: Run, ps: seq<ProviderOutcome>, n: nat, uid: Uid, hash: Hash, meta: Meta)
    requires IsRun(r) && ConfiguresProviders(r, ps) && n < |r.states| && Produced(r.states[n].calls, uid, hash, meta)
    ensures exists m: nat :: m < n && ConfiguredAt(r, ps, m, uid, hash, meta)
  {
    var s := r.states[n];
    var k: CallId :| k < |s.calls| && MadeBy(s.calls[k], uid, hash, meta);
    FinishedCallsEnded(r, n, k);
    var m: nat :| m < n && Ends(r, m, k) && s.calls[k].outcome == InitializeProviderMeta(r.events[m].result);
    CallsPersist(r, m, n, k);
    assert ConfiguredAt(r, ps, m, uid, hash, meta);
  }

  // Every cached meta, and every meta returned without an error, was configured for that uid and configuration; so none
  // of them is nil.
  lemma OnlyConfiguredIsCached(r: Run, ps: seq<ProviderOutcome>, n: nat)
    requires IsRun(r) && ConfiguresProviders(r, ps) && n < |r.states|
    ensures var s := r.states[n];
      && (forall u | u in s.cache.entries ::
            exists m: nat :: m < n && ConfiguredAt(r, ps, m, u, s.cache.entries[u].configHash, s.cache.entries[u].meta))
      && (forall i: CallerId | i < |s.callers| && s.callers[i].pc.Returned? && s.callers[i].pc.err.None? ::
            exists m: nat :: m < n && ConfiguredAt(r, ps, m, s.callers[i].uid, s.callers[i].hash, s.callers[i].pc.meta))
  {
    var s := r.states[n];
    InvHolds(r, n);
    forall u | u in s.cache.entries
      ensures exists m: nat ::
        m < n && ConfiguredAt(r, ps, m, u, s.cache.entries[u].configHash, s.cache.entries[u].meta)
    {
      ProducedWasConfigured(r, ps, n, u, s.cache.entries[u].configHash, s.cache.entries[u].meta);
    }
    forall i: CallerId | i < |s.callers| && s.callers[i].pc.Returned? && s.callers[i].pc.err.None?
      ensures exists m: nat ::
        m < n && ConfiguredAt(r, ps, m, s.callers[i].uid, s.callers[i].hash, s.callers[i].pc.meta)
    {
      SuccessIsCoherent(r, n, i);
      ProducedWasConfigured(r, ps, n, s.callers[i].uid, s.callers[i].hash, s.callers[i].pc.meta);
    }
  }

  // No nil meta is ever cached, and none is returned without an error.
  lemma NilIsNeverCached(r: Run, ps: seq<ProviderOutcome>, n: nat)
    requires IsRun(r) && ConfiguresProviders(r, ps) && n < |r.states|
    ensures var s := r.states[n];
            && (forall u | u in s.cache.entries :: s.cache.entries[u].meta != NilMeta)
            && (forall i: CallerId | i < |s.callers| && s.callers[i].pc.Returned? && s.callers[i].pc.err.None? ::
                  s.callers[i].pc.meta != NilMeta)
  {
    OnlyConfiguredIsCached(r, ps, n);
  }
}
