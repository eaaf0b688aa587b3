// What callers get to see over whole runs: coherent results, isolated failures, no redundant work.
module CacheSafety {
  import opened Collections
  import opened CacheState
  import opened CacheProtocol
  import opened CacheInvariants

  // A nil-error result was made by a successful initialisation for exactly the caller's uid and
  // configuration, whatever happened to the entry in the meantime.
  lemma SuccessIsCoherent(r: Run, n: nat, i: CallerId)
    requires IsRun(r) && n < |r.states| && i < |r.states[n].callers|
    requires var pc := r.states[n].callers[i].pc; pc.Returned? && pc.err.None?
    ensures var s := r.states[n];
            Produced(s.calls, s.callers[i].uid, s.callers[i].hash, s.callers[i].pc.meta)
  {
    var s := r.states[n];
    InvHolds(r, n);
    assert ReturnCoherent(s, s.callers[i]);
    if s.callers[i].pc.source.FromOwnCall? {
      OwnerFacts(s, i);
      var k := s.callers[i].pc.source.call;
      assert MadeBy(s.calls[k], s.callers[i].uid, s.callers[i].hash, s.callers[i].pc.meta);
    }
  }

  // An error comes from the caller's own initialisation, from one it waited on that was for the same uid and
  // configuration, or from its context; in the last two cases no meta is returned with it.
  lemma ErrorsAreIsolated(r: Run, n: nat, i: CallerId)
    requires IsRun(r) && n < |r.states| && i < |r.states[n].callers|
    requires var pc := r.states[n].callers[i].pc; pc.Returned? && pc.err.Some?
    ensures var s := r.states[n];
            var c := s.callers[i];
            || (c.pc.meta == NilMeta && c.pc.err == Some(ContextDone) && c.pc.source == FromContext)
            || (exists k: CallId :: k < |s.calls| && s.calls[k].closed
                  && s.calls[k].uid == c.uid && s.calls[k].configHash == c.hash && s.calls[k].outcome.err == c.pc.err
                  && (s.calls[k].owner == i || (k in c.waited && c.pc.meta == NilMeta)))
  {
    var s := r.states[n];
    InvHolds(r, n);
    assert ReturnCoherent(s, s.callers[i]);
    match s.callers[i].pc.source
    case FromOwnCall(_) => OwnerFacts(s, i);
    case FromOtherCall(k) =>
      assert CallerOk(s, i);
      assert WaitOk(s, i, k);
    case _ =>
  }

  lemma FailedCommit(s: State, i: CallerId)
    requires Inv(s) && Enabled(s, Commit(i)) && s.calls[s.callers[i].pc.call].outcome.err.Some?
    ensures var t, c := CommitStep(s, i), s.callers[i];
            var outcome := s.calls[c.pc.call].outcome;
            && t.cache.entries == s.cache.entries && t.cache.recency == s.cache.recency
            && t.cache.metrics.evictions == s.cache.metrics.evictions
            && c.uid in s.cache.inflight && t.cache.inflight == s.cache.inflight - {c.uid}
            && t.callers == s.callers[i := c.(pc := Returned(outcome.meta, outcome.err, FromOwnCall(c.pc.call)))]
  {
    OwnerFacts(s, i);
  }

  // A failed or panicked initialisation leaves the cached entries and their order as they were, frees its
  // slot, and answers its own caller with the error.
  lemma FailureLeavesCacheAlone(r: Run, n: nat, i: CallerId)
    requires IsRun(r) && n < |r.events| && r.events[n] == Commit(i) && Enabled(r.states[n], Commit(i))
    requires r.states[n].calls[r.states[n].callers[i].pc.call].outcome.err.Some?
    ensures var s, t, c := r.states[n], r.states[n + 1], r.states[n].callers[i];
            var outcome := s.calls[c.pc.call].outcome;
            && t.cache.entries == s.cache.entries && t.cache.recency == s.cache.recency
            && t.cache.metrics.evictions == s.cache.metrics.evictions
            && c.uid in s.cache.inflight && t.cache.inflight == s.cache.inflight - {c.uid}
            && t.callers == s.callers[i := c.(pc := Returned(outcome.meta, outcome.err, FromOwnCall(c.pc.call)))]
  {
    InvHolds(r, n);
    RunStep(r, n);
    FailedCommit(r.states[n], i);
  }

  // A waiter may always give up, and one whose call is done may always go on: it fails with the error of a call for its
  // own configuration, and otherwise looks again.
  lemma WaitersMoveOn(r: Run, n: nat, i: CallerId)
    requires IsRun(r) && n < |r.states| && i < |r.states[n].callers| && r.states[n].callers[i].pc.Waiting?
    ensures var s := r.states[n];
            && Enabled(s, Cancel(i))
            && Step(s, Cancel(i)).callers[i].pc == Returned(NilMeta, Some(ContextDone), FromContext)
            && s.callers[i].pc.call < |s.calls|
    ensures var s, k := r.states[n], r.states[n].callers[i].pc.call;
            s.calls[k].closed ==>
              && Enabled(s, Wake(i))
              && Step(s, Wake(i)).callers[i].pc
                 == if s.calls[k].configHash == s.callers[i].hash && s.calls[k].outcome.err.Some?
                    then Returned(NilMeta, s.calls[k].outcome.err, FromOtherCall(k)) else Looping
  {
    InvHolds(r, n);
    assert CallerOk(r.states[n], i);
    assert WaitOk(r.states[n], i, r.states[n].callers[i].pc.call);
  }

  // What a caller is at once its `create` has ended with `outcome`.
  ghost predicate HasOutcome(s: State, i: CallerId, outcome: Outcome) {
    && i < |s.callers|
    && match s.callers[i].pc
       case Committing(k) => k < |s.calls| && s.calls[k].outcome == outcome
       case Returned(meta, err, FromOwnCall(_)) => Outcome(meta, err) == outcome
       case _ => false
  }

  lemma OutcomeStays(s: State, e: Event, i: CallerId, outcome: Outcome)
    requires Inv(s) && Enabled(s, e) && HasOutcome(s, i, outcome)
    ensures HasOutcome(Step(s, e), i, outcome)
  {
    CallersStep(s, e);
    if e == Commit(i) {
      assert s.callers[i].pc.Committing?;
    } else if s.callers[i].pc.Committing? {
      OwnerFacts(s, i);
      CallStays(s, e, s.callers[i].pc.call);
    }
  }

  // Whatever `create` ends in, the caller that ran it returns just that: its meta and error, or, when it panicked,
  // no meta and an error that says so.
  lemma {:induction false} OwnResultIsReturned(r: Run, n: nat, m: nat, i: CallerId, result: CreateResult)
    requires IsRun(r) && n < m < |r.states| && r.events[n] == CreateEnds(i, result)
    ensures HasOutcome(r.states[m], i, if result.Panics? then Outcome(NilMeta, Some(CreatePanicked(result.text)))
                                       else Outcome(result.meta, result.err))
  {
    var outcome := if result.Panics? then Outcome(NilMeta, Some(CreatePanicked(result.text)))
                   else Outcome(result.meta, result.err);
    RunStep(r, m - 1);
    if m > n + 1 {
      OwnResultIsReturned(r, n, m - 1, i, result);
      InvHolds(r, m - 1);
      OutcomeStays(r.states[m - 1], r.events[m - 1], i, outcome);
    }
  }

  // The history between two points of a run.

  ghost predicate CommitsAt(r: Run, n: nat, uid: Uid, hash: Hash)
    requires IsRun(r) && n < |r.events|
  {
    var s, e := r.states[n], r.events[n];
    e.Commit? && Enabled(s, e) && s.callers[e.caller].uid == uid && s.callers[e.caller].hash == hash
      && s.calls[s.callers[e.caller].pc.call].outcome.err.None?
  }

  // Step `n` begins an initialisation for this uid and configuration.
  ghost predicate BeginsAt(r: Run, n: nat, uid: Uid, hash: Hash)
    requires IsRun(r) && n < |r.events|
  {
    var s, e := r.states[n], r.events[n];
    e.Lookup? && Enabled(s, e) && s.callers[e.caller].uid == uid && s.callers[e.caller].hash == hash
      && LookupSection(s.cache, uid, hash, |s.calls|).0.MustInitialize?
  }

  // Step `n` takes away the entry for this uid and configuration: it evicts the uid, or a commit replaces it.
  ghost predicate DropsAt(r: Run, n: nat, uid: Uid, hash: Hash)
    requires IsRun(r) && n < |r.events|
  {
    || (uid in r.states[n].cache.entries && uid !in r.states[n + 1].cache.entries)
    || (exists h: Hash :: h != hash && CommitsAt(r, n, uid, h))
  }

  // An entry that is cached stays cached until it is dropped.
  lemma {:induction false} CachedUntilDropped(r: Run, m: nat, n: nat, uid: Uid, hash: Hash)
    requires IsRun(r) && m <= n < |r.states|
    requires Cached(r.states[m].cache, uid, hash)
    requires forall q | m <= q < n :: !DropsAt(r, q, uid, hash)
    ensures Cached(r.states[n].cache, uid, hash)
  {
    if m < n {
      CachedUntilDropped(r, m, n - 1, uid, hash);
      KeptUnlessDropped(r, n - 1, uid, hash);
    }
  }

  lemma StepKeepsCached(s: State, e: Event, uid: Uid, hash: Hash)
    requires Inv(s) && Enabled(s, e) && Cached(s.cache, uid, hash)
    ensures || Cached(Step(s, e).cache, uid, hash)
            || uid !in Step(s, e).cache.entries
            || (e.Commit? && s.callers[e.caller].uid == uid && s.callers[e.caller].hash != hash
                && s.calls[s.callers[e.caller].pc.call].outcome.err.None?)
  {
    if e.Commit? {
      var c := s.callers[e.caller];
      CommitEffect(s.cache, c.uid, c.hash, s.calls[c.pc.call].outcome);
    } else {
      OtherStepsKeepEntries(s, e);
    }
  }

  lemma KeptUnlessDropped(r: Run, n: nat, uid: Uid, hash: Hash)
    requires IsRun(r) && n < |r.events|
    requires Cached(r.states[n].cache, uid, hash) && !DropsAt(r, n, uid, hash)
    ensures Cached(r.states[n + 1].cache, uid, hash)
  {
    InvHolds(r, n);
    RunStep(r, n);
    var s, e := r.states[n], r.events[n];
    StepKeepsCached(s, e, uid, hash);
    if e.Commit? {
      assert CommitsAt(r, n, uid, s.callers[e.caller].hash) <==>
             s.callers[e.caller].uid == uid && s.calls[s.callers[e.caller].pc.call].outcome.err.None?;
    }
  }

  lemma CommitSectionCaches(c: Cache, uid: Uid, hash: Hash, outcome: Outcome)
    requires WellFormed(c) && outcome.err.None?
    ensures Cached(CommitSection(c, uid, hash, outcome), uid, hash)
  {
    StoreEffect(c, uid, hash, outcome.meta);
  }

  lemma CommitStepCaches(s: State, i: CallerId)
    requires Inv(s) && Enabled(s, Commit(i)) && s.calls[s.callers[i].pc.call].outcome.err.None?
    ensures Cached(CommitStep(s, i).cache, s.callers[i].uid, s.callers[i].hash)
  {
    CommitSectionCaches(s.cache, s.callers[i].uid, s.callers[i].hash, s.calls[s.callers[i].pc.call].outcome);
  }

  lemma CommitCaches(r: Run, n: nat, uid: Uid, hash: Hash)
    requires IsRun(r) && n < |r.events| && CommitsAt(r, n, uid, hash)
    ensures Cached(r.states[n + 1].cache, uid, hash)
  {
    InvHolds(r, n);
    RunStep(r, n);
    CommitStepCaches(r.states[n], r.events[n].caller);
  }

  // No initialisation begins for a configuration that was committed and not dropped since.
  lemma NoRedundantStart(r: Run, m: nat, n: nat, uid: Uid, hash: Hash)
    requires IsRun(r) && m < n < |r.events|
    requires CommitsAt(r, m, uid, hash) && BeginsAt(r, n, uid, hash)
    ensures exists q | m < q < n :: DropsAt(r, q, uid, hash)
  {
    if forall q | m < q < n :: !DropsAt(r, q, uid, hash) {
      CommitCaches(r, m, uid, hash);
      CachedUntilDropped(r, m + 1, n, uid, hash);
      assert false;
    }
  }

  // What stays true of a call: owner, uid and configuration never change, and closing is final.
  ghost predicate Persists(before: Call, after: Call) {
    && after.uid == before.uid && after.configHash == before.configHash && after.owner == before.owner
    && (before.closed ==> after.closed)
  }

  lemma CallPersists(s: State, e: Event, k: CallId)
    requires Enabled(s, e) && k < |s.calls|
    ensures k < |Step(s, e).calls| && Persists(s.calls[k], Step(s, e).calls[k])
  {
  }

  lemma {:induction false} CallsPersist(r: Run, m: nat, n: nat, k: CallId)
    requires IsRun(r) && m <= n < |r.states| && k < |r.states[m].calls|
    ensures k < |r.states[n].calls| && Persists(r.states[m].calls[k], r.states[n].calls[k])
  {
    if m < n {
      CallsPersist(r, m, n - 1, k);
      RunStep(r, n - 1);
      CallPersists(r.states[n - 1], r.events[n - 1], k);
    }
  }

  lemma NewCallBegins(s: State, e: Event, k: CallId)
    requires Enabled(s, e) && |s.calls| <= k < |Step(s, e).calls|
    ensures k == |s.calls| && e.Lookup?
    ensures var c, call := s.callers[e.caller], Step(s, e).calls[k];
            c.uid == call.uid && c.hash == call.configHash && LookupSection(s.cache, c.uid, c.hash, k).0.MustInitialize?
  {
  }

  lemma NewCallBeginsAt(r: Run, n: nat, k: CallId)
    requires IsRun(r) && n < |r.events| && |r.states[n].calls| <= k < |r.states[n + 1].calls|
    ensures k == |r.states[n].calls|
    ensures BeginsAt(r, n, r.states[n + 1].calls[k].uid, r.states[n + 1].calls[k].configHash)
  {
    RunStep(r, n);
    NewCallBegins(r.states[n], r.events[n], k);
  }

  // Every call was begun by some earlier step.
  lemma {:induction false} FindBeginning(r: Run, n: nat, k: CallId) returns (b: nat)
    requires IsRun(r) && n < |r.states| && k < |r.states[n].calls|
    ensures b < n && |r.states[b].calls| == k && k < |r.states[b + 1].calls|
    ensures BeginsAt(r, b, r.states[n].calls[k].uid, r.states[n].calls[k].configHash)
  {
    assert n > 0;
    if k < |r.states[n - 1].calls| {
      b := FindBeginning(r, n - 1, k);
      CallsPersist(r, n - 1, n, k);
    } else {
      b := n - 1;
      NewCallBeginsAt(r, b, k);
    }
  }

  // The call that a committing caller is about to close.
  function CommittedCall(r: Run, n: nat): CallId
    requires IsRun(r) && n < |r.events| && r.events[n].Commit? && Enabled(r.states[n], r.events[n])
  {
    r.states[n].callers[r.events[n].caller].pc.call
  }

  lemma OpenCallsAreDistinct(s: State, k1: CallId, k2: CallId)
    requires Ownership(s) && k1 < |s.calls| && k2 < |s.calls| && s.calls[k1].uid == s.calls[k2].uid
    requires !s.calls[k1].closed && !s.calls[k2].closed
    ensures k1 == k2
  {
    assert CallOk(s, k1) && CallOk(s, k2);
  }

  // A commit of this uid and configuration is by the owner of an open call for them, which it closes.
  lemma CommitClosesItsCall(r: Run, n: nat, uid: Uid, hash: Hash)
    requires IsRun(r) && n < |r.events| && CommitsAt(r, n, uid, hash)
    ensures var k := CommittedCall(r, n);
            && k < |r.states[n].calls| && k < |r.states[n + 1].calls|
            && r.states[n].calls[k].uid == uid && r.states[n].calls[k].configHash == hash
            && !r.states[n].calls[k].closed && r.states[n + 1].calls[k].closed
  {
    InvHolds(r, n);
    RunStep(r, n);
    OwnerFacts(r.states[n], r.events[n].caller);
  }

  lemma OneOpenCall(r: Run, n: nat, k1: CallId, k2: CallId)
    requires IsRun(r) && n < |r.states| && k1 < |r.states[n].calls| && k2 < |r.states[n].calls|
    requires r.states[n].calls[k1].uid == r.states[n].calls[k2].uid
    requires !r.states[n].calls[k1].closed && !r.states[n].calls[k2].closed
    ensures k1 == k2
  {
    InvHolds(r, n);
    OpenCallsAreDistinct(r.states[n], k1, k2);
  }

  // Two initialisations of one uid do not overlap: the later one to commit began after the earlier one did.
  lemma InitializationsDoNotOverlap(r: Run, m: nat, n: nat, uid: Uid, hash: Hash) returns (b: nat)
    requires IsRun(r) && m < n < |r.events|
    requires CommitsAt(r, m, uid, hash) && CommitsAt(r, n, uid, hash)
    ensures m < b < n && BeginsAt(r, b, uid, hash)
  {
    var k1, k2 := CommittedCall(r, m), CommittedCall(r, n);
    CommitClosesItsCall(r, m, uid, hash);
    CommitClosesItsCall(r, n, uid, hash);
    b := FindBeginning(r, n, k2);
    CallsPersist(r, m + 1, n, k1);
    if b < m {
      CallsPersist(r, b + 1, m, k2);
      CallsPersist(r, m, n, k2);
      OneOpenCall(r, m, k1, k2);
    }
  }

  // Between two successful initialisations for one uid and configuration, that entry was evicted or replaced.
  lemma NoRedundantInitialization(r: Run, m: nat, n: nat, uid: Uid, hash: Hash)
    requires IsRun(r) && m < n < |r.events|
    requires CommitsAt(r, m, uid, hash) && CommitsAt(r, n, uid, hash)
    ensures exists q | m < q < n :: DropsAt(r, q, uid, hash)
  {
    var b := InitializationsDoNotOverlap(r, m, n, uid, hash);
    NoRedundantStart(r, m, b, uid, hash);
  }

  // The meta that a commit stores.
  ghost function CommittedMeta(r: Run, n: nat, uid: Uid, hash: Hash): Meta
    requires IsRun(r) && n < |r.events| && CommitsAt(r, n, uid, hash)
  {
    r.states[n].calls[r.states[n].callers[r.events[n].caller].pc.call].outcome.meta
  }

  lemma CommitStores(r: Run, n: nat, uid: Uid, hash: Hash)
    requires IsRun(r) && n < |r.events| && CommitsAt(r, n, uid, hash)
    ensures uid in r.states[n + 1].cache.entries
    ensures r.states[n + 1].cache.entries[uid] == Entry(hash, CommittedMeta(r, n, uid, hash))
  {
    CommitCaches(r, n, uid, hash);
    InvHolds(r, n);
    RunStep(r, n);
    var s := r.states[n];
    CommitEffect(s.cache, uid, hash, s.calls[s.callers[r.events[n].caller].pc.call].outcome);
  }

  lemma StepKeepsEntry(s: State, e: Event, uid: Uid)
    requires Inv(s) && Enabled(s, e) && uid in s.cache.entries && uid in Step(s, e).cache.entries
    ensures || Step(s, e).cache.entries[uid] == s.cache.entries[uid]
            || (e.Commit? && s.callers[e.caller].uid == uid
                && s.calls[s.callers[e.caller].pc.call].outcome.err.None?)
  {
    if e.Commit? {
      var c := s.callers[e.caller];
      CommitEffect(s.cache, c.uid, c.hash, s.calls[c.pc.call].outcome);
    } else {
      OtherStepsKeepEntries(s, e);
    }
  }

  lemma EntryKept(r: Run, n: nat, uid: Uid, hash: Hash)
    requires IsRun(r) && n < |r.events| && !DropsAt(r, n, uid, hash) && !CommitsAt(r, n, uid, hash)
    requires Cached(r.states[n].cache, uid, hash) && Cached(r.states[n + 1].cache, uid, hash)
    ensures r.states[n + 1].cache.entries[uid] == r.states[n].cache.entries[uid]
  {
    InvHolds(r, n);
    RunStep(r, n);
    var s, e := r.states[n], r.events[n];
    StepKeepsEntry(s, e, uid);
    if e.Commit? {
      assert CommitsAt(r, n, uid, s.callers[e.caller].hash) <==>
             s.callers[e.caller].uid == uid && s.calls[s.callers[e.caller].pc.call].outcome.err.None?;
    }
  }

  // What was committed stays in its entry until that is dropped: nothing is committed for its configuration before.
  lemma {:induction false} CommittedMetaStays(r: Run, m: nat, n: nat, uid: Uid, hash: Hash)
    requires IsRun(r) && m < n < |r.states| && CommitsAt(r, m, uid, hash)
    requires forall q | m < q < n :: !DropsAt(r, q, uid, hash)
    ensures uid in r.states[n].cache.entries
    ensures r.states[n].cache.entries[uid] == Entry(hash, CommittedMeta(r, m, uid, hash))
  {
    if n == m + 1 {
      CommitStores(r, m, uid, hash);
    } else {
      CommittedMetaStays(r, m, n - 1, uid, hash);
      KeptUnlessDropped(r, n - 1, uid, hash);
      if CommitsAt(r, n - 1, uid, hash) {
        NoRedundantInitialization(r, m, n - 1, uid, hash);
        assert false;
      }
      EntryKept(r, n - 1, uid, hash);
    }
  }

  // Whoever looks up what was committed and not dropped since gets exactly that, at once.
  lemma LaterLookupsHit(r: Run, m: nat, n: nat, uid: Uid, hash: Hash, i: CallerId)
    requires IsRun(r) && m < n < |r.events| && CommitsAt(r, m, uid, hash)
    requires forall q | m < q < n :: !DropsAt(r, q, uid, hash)
    requires r.events[n] == Lookup(i) && i < |r.states[n].callers|
    requires r.states[n].callers[i].uid == uid && r.states[n].callers[i].hash == hash
    ensures i < |r.states[n + 1].callers|
    ensures r.states[n + 1].callers[i].pc == Returned(CommittedMeta(r, m, uid, hash), None, FromEntry)
  {
    CommittedMetaStays(r, m, n, uid, hash);
    RunStep(r, n);
  }
}
