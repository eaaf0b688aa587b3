// What every state of every run satisfies.
module CacheInvariants {
  import opened Collections
  import opened CacheState
  import opened CacheProtocol

  // The call a caller owns according to its program counter.
  function OwnedCall(pc: Pc): Option<CallId> {
    match pc
    case Initializing(k) => Some(k)
    case Committing(k) => Some(k)
    case Returned(_, _, FromOwnCall(k)) => Some(k)
    case _ => None
  }

  // The call a caller is waiting on.
  function AwaitedCall(pc: Pc): Option<CallId> {
    match pc
    case Parked(k) => Some(k)
    case Waiting(k) => Some(k)
    case _ => None
  }

  // The program counter an owner must be at, given the state of its call.
  ghost predicate OwnerAt(pc: Pc, call: Call, k: CallId) {
    if call.closed then call.finished && pc == Returned(call.outcome.meta, call.outcome.err, FromOwnCall(k))
    else if call.finished then pc == Committing(k)
    else pc == Initializing(k)
  }

  // Call `k` belongs to one caller with its uid and configuration; until that caller closes it, it
  // occupies the in-flight slot of its uid.
  ghost predicate CallOk(s: State, k: CallId)
    requires k < |s.calls|
  {
    var call := s.calls[k];
    && call.owner < |s.callers|
    && s.callers[call.owner].uid == call.uid
    && s.callers[call.owner].hash == call.configHash
    && OwnerAt(s.callers[call.owner].pc, call, k)
    && (!call.closed ==> call.uid in s.cache.inflight && s.cache.inflight[call.uid] == k)
  }

  // An in-flight slot holds an open call for its uid.
  ghost predicate SlotOk(s: State, u: Uid)
    requires u in s.cache.inflight
  {
    var k := s.cache.inflight[u];
    k < |s.calls| && s.calls[k].uid == u && !s.calls[k].closed
  }

  // A caller waits only on other callers' calls for its own uid, and leaves a call behind for good once
  // that call is closed.
  ghost predicate WaitOk(s: State, i: CallerId, k: CallId)
    requires i < |s.callers|
  {
    && k < |s.calls|
    && s.calls[k].uid == s.callers[i].uid
    && s.calls[k].owner != i
    && (AwaitedCall(s.callers[i].pc) == Some(k) || s.calls[k].closed || s.callers[i].pc.Returned?)
  }

  ghost predicate CallerOk(s: State, i: CallerId)
    requires i < |s.callers|
  {
    var c := s.callers[i];
    && (OwnedCall(c.pc).Some? ==> OwnedCall(c.pc).value < |s.calls| && s.calls[OwnedCall(c.pc).value].owner == i)
    && (AwaitedCall(c.pc).Some? ==> AwaitedCall(c.pc).value in c.waited)
    && forall k | k in c.waited :: WaitOk(s, i, k)
  }

  ghost predicate Ownership(s: State) {
    && (forall u | u in s.cache.inflight :: SlotOk(s, u))
    && (forall k: CallId | k < |s.calls| :: CallOk(s, k))
    && (forall i: CallerId | i < |s.callers| :: CallerOk(s, i))
  }

  // Some successful initialisation for exactly this uid and configuration made `meta`.
  ghost predicate Produced(calls: seq<Call>, uid: Uid, hash: Hash, meta: Meta) {
    exists k: CallId :: k < |calls| && MadeBy(calls[k], uid, hash, meta)
  }

  ghost predicate MadeBy(call: Call, uid: Uid, hash: Hash, meta: Meta) {
    call.finished && call.uid == uid && call.configHash == hash && call.outcome == Outcome(meta, None)
  }

  ghost predicate EntriesCoherent(s: State) {
    forall u | u in s.cache.entries ::
      Produced(s.calls, u, s.cache.entries[u].configHash, s.cache.entries[u].meta)
  }

  ghost predicate ReturnCoherent(s: State, c: Caller)
    requires c.pc.Returned?
  {
    match c.pc.source
    case FromEntry => c.pc.err.None? && Produced(s.calls, c.uid, c.hash, c.pc.meta)
    case FromOwnCall(_) => true
    case FromOtherCall(k) =>
      && k in c.waited && k < |s.calls|
      && c.pc.meta == NilMeta && c.pc.err.Some?
      && s.calls[k].closed && s.calls[k].configHash == c.hash && s.calls[k].outcome.err == c.pc.err
    case FromContext => c.pc.meta == NilMeta && c.pc.err == Some(ContextDone) && c.waited != {}
  }

  ghost predicate ReturnsCoherent(s: State) {
    forall i: CallerId | i < |s.callers| && s.callers[i].pc.Returned? :: ReturnCoherent(s, s.callers[i])
  }

  ghost predicate Coherence(s: State) {
    EntriesCoherent(s) && ReturnsCoherent(s)
  }

  ghost predicate Inv(s: State) {
    WellFormed(s.cache) && Ownership(s) && Coherence(s)
  }

  lemma CommitEffect(c: Cache, uid: Uid, hash: Hash, outcome: Outcome)
    requires WellFormed(c)
    ensures var r := CommitSection(c, uid, hash, outcome);
            && WellFormed(r)
            && r.inflight == c.inflight - {uid}
            && (outcome.err.Some? ==> r.entries == c.entries && r.recency == c.recency)
            && (outcome.err.None? ==>
                  forall v | v in r.entries ::
                    if v == uid then r.entries[v] == Entry(hash, outcome.meta)
                    else v in c.entries && r.entries[v] == c.entries[v])
  {
    if outcome.err.None? {
      StoreEffect(c, uid, hash, outcome.meta);
    }
  }

  lemma StepKeepsWellFormed(s: State, e: Event)
    requires WellFormed(s.cache) && Enabled(s, e)
    ensures WellFormed(Step(s, e).cache)
  {
    match e
    case Lookup(i) => LookupKeepsWellFormed(s.cache, s.callers[i].uid, s.callers[i].hash, |s.calls|);
    case Commit(i) => CommitEffect(s.cache, s.callers[i].uid, s.callers[i].hash, s.calls[s.callers[i].pc.call].outcome);
    case _ =>
  }

  // What the ownership invariant says about caller `i`, spelled out.
  lemma OwnerFacts(s: State, i: CallerId)
    requires Ownership(s) && i < |s.callers| && OwnedCall(s.callers[i].pc).Some?
    ensures var k := OwnedCall(s.callers[i].pc).value;
            && k < |s.calls| && CallOk(s, k) && s.calls[k].owner == i
            && forall j: CallId | j < |s.calls| && s.calls[j].owner == i :: j == k
  {
    assert CallerOk(s, i);
    assert CallOk(s, OwnedCall(s.callers[i].pc).value);
    forall j: CallId | j < |s.calls| && s.calls[j].owner == i
      ensures j == OwnedCall(s.callers[i].pc).value
    {
      assert CallOk(s, j);
    }
  }

  lemma IdleOwnsNothing(s: State, i: CallerId)
    requires Ownership(s) && i < |s.callers| && OwnedCall(s.callers[i].pc).None?
    ensures forall k: CallId | k < |s.calls| :: s.calls[k].owner != i
  {
    forall k: CallId | k < |s.calls|
      ensures s.calls[k].owner != i
    {
      assert CallOk(s, k);
    }
  }

  // A caller that owns no call moves on; nothing else changes.
  lemma MoveKeepsOwnership(s: State, t: State, i: CallerId, pc: Pc)
    requires Ownership(s) && i < |s.callers|
    requires t.calls == s.calls && t.cache.inflight == s.cache.inflight
    requires t.callers == s.callers[i := s.callers[i].(pc := pc)]
    requires OwnedCall(s.callers[i].pc).None? && OwnedCall(pc).None? && !s.callers[i].pc.Returned?
    requires var before, after := AwaitedCall(s.callers[i].pc), AwaitedCall(pc);
             || after == before
             || (after.None? && (pc.Returned? || (before.value < |s.calls| && s.calls[before.value].closed)))
    ensures Ownership(t)
  {
    IdleOwnsNothing(s, i);
    forall u | u in t.cache.inflight ensures SlotOk(t, u) { assert SlotOk(s, u); }
    forall k: CallId | k < |t.calls| ensures CallOk(t, k) { assert CallOk(s, k); }
    forall j: CallerId | j < |t.callers|
      ensures CallerOk(t, j)
    {
      assert CallerOk(s, j);
      forall k | k in t.callers[j].waited ensures WaitOk(t, j, k) { assert WaitOk(s, j, k); }
    }
  }

  lemma InvokeKeepsOwnership(s: State, uid: Uid, hash: Hash)
    requires Ownership(s)
    ensures Ownership(Step(s, Invoke(uid, hash)))
  {
    var t := Step(s, Invoke(uid, hash));
    forall u | u in t.cache.inflight ensures SlotOk(t, u) { assert SlotOk(s, u); }
    forall k: CallId | k < |t.calls| ensures CallOk(t, k) { assert CallOk(s, k); }
    forall j: CallerId | j < |t.callers|
      ensures CallerOk(t, j)
    {
      if j < |s.callers| {
        assert CallerOk(s, j);
        forall k | k in t.callers[j].waited ensures WaitOk(t, j, k) { assert WaitOk(s, j, k); }
      }
    }
  }

  lemma ParkKeepsOwnership(s: State, i: CallerId, t: State)
    requires Ownership(s) && i < |s.callers| && s.callers[i].pc.Looping?
    requires var c := s.callers[i];
             && c.uid in s.cache.inflight
             && t.calls == s.calls && t.cache.inflight == s.cache.inflight
             && var k := s.cache.inflight[c.uid];
                t.callers == s.callers[i := c.(pc := Parked(k), waited := c.waited + {k})]
    ensures Ownership(t)
  {
    IdleOwnsNothing(s, i);
    assert SlotOk(s, s.callers[i].uid);
    forall u | u in t.cache.inflight ensures SlotOk(t, u) { assert SlotOk(s, u); }
    forall k: CallId | k < |t.calls| ensures CallOk(t, k) { assert CallOk(s, k); }
    forall j: CallerId | j < |t.callers|
      ensures CallerOk(t, j)
    {
      assert CallerOk(s, j);
      forall k | k in t.callers[j].waited
        ensures WaitOk(t, j, k)
      {
        if k in s.callers[j].waited { assert WaitOk(s, j, k); }
      }
    }
  }

  lemma BeginKeepsOwnership(s: State, i: CallerId, t: State)
    requires Ownership(s) && i < |s.callers| && s.callers[i].pc.Looping?
    requires var c := s.callers[i];
             && c.uid !in s.cache.inflight
             && t.calls == s.calls + [Call(c.uid, c.hash, i, ZERO_OUTCOME, false, false)]
             && t.cache.inflight == s.cache.inflight[c.uid := |s.calls|]
             && t.callers == s.callers[i := c.(pc := Initializing(|s.calls|))]
    ensures Ownership(t)
  {
    IdleOwnsNothing(s, i);
    forall u | u in t.cache.inflight
      ensures SlotOk(t, u)
    {
      if u in s.cache.inflight { assert SlotOk(s, u); }
    }
    forall k: CallId | k < |t.calls|
      ensures CallOk(t, k)
    {
      if k < |s.calls| { assert CallOk(s, k); }
    }
    forall j: CallerId | j < |t.callers|
      ensures CallerOk(t, j)
    {
      assert CallerOk(s, j);
      forall k | k in t.callers[j].waited ensures WaitOk(t, j, k) { assert WaitOk(s, j, k); }
    }
  }

  lemma LookupKeepsOwnership(s: State, i: CallerId)
    requires Ownership(s) && Enabled(s, Lookup(i))
    ensures Ownership(LookupStep(s, i))
  {
    var c := s.callers[i];
    var t := LookupStep(s, i);
    match LookupSection(s.cache, c.uid, c.hash, |s.calls|).0
    case Hit(meta) => MoveKeepsOwnership(s, t, i, Returned(meta, None, FromEntry));
    case MustWait(k) => ParkKeepsOwnership(s, i, t);
    case MustInitialize => BeginKeepsOwnership(s, i, t);
  }

  lemma CreateEndsKeepsOwnership(s: State, i: CallerId, result: CreateResult)
    requires Ownership(s) && Enabled(s, CreateEnds(i, result))
    ensures Ownership(CreateEndsStep(s, i, result))
  {
    var t := CreateEndsStep(s, i, result);
    OwnerFacts(s, i);
    forall u | u in t.cache.inflight ensures SlotOk(t, u) { assert SlotOk(s, u); }
    forall j: CallId | j < |t.calls| ensures CallOk(t, j) { assert CallOk(s, j); }
    forall j: CallerId | j < |t.callers|
      ensures CallerOk(t, j)
    {
      assert CallerOk(s, j);
      forall k | k in t.callers[j].waited ensures WaitOk(t, j, k) { assert WaitOk(s, j, k); }
    }
  }

  lemma CloseKeepsOwnership(s: State, i: CallerId, t: State)
    requires Ownership(s) && Enabled(s, Commit(i))
    requires var k := s.callers[i].pc.call;
             var outcome := s.calls[k].outcome;
             && t.calls == s.calls[k := s.calls[k].(closed := true)]
             && t.cache.inflight == s.cache.inflight - {s.callers[i].uid}
             && t.callers == s.callers[i := s.callers[i].(pc := Returned(outcome.meta, outcome.err, FromOwnCall(k)))]
    ensures Ownership(t)
  {
    OwnerFacts(s, i);
    forall u | u in t.cache.inflight ensures SlotOk(t, u) { assert SlotOk(s, u); }
    forall j: CallId | j < |t.calls| ensures CallOk(t, j) { assert CallOk(s, j); }
    forall j: CallerId | j < |t.callers|
      ensures CallerOk(t, j)
    {
      assert CallerOk(s, j);
      forall m | m in t.callers[j].waited ensures WaitOk(t, j, m) { assert WaitOk(s, j, m); }
    }
  }

  lemma CommitKeepsOwnership(s: State, i: CallerId)
    requires WellFormed(s.cache) && Ownership(s) && Enabled(s, Commit(i))
    ensures Ownership(CommitStep(s, i))
  {
    CommitEffect(s.cache, s.callers[i].uid, s.callers[i].hash, s.calls[s.callers[i].pc.call].outcome);
    CloseKeepsOwnership(s, i, CommitStep(s, i));
  }

  lemma StepKeepsOwnership(s: State, e: Event)
    requires WellFormed(s.cache) && Ownership(s) && Enabled(s, e)
    ensures Ownership(Step(s, e))
  {
    match e
    case Invoke(uid, hash) => InvokeKeepsOwnership(s, uid, hash);
    case Lookup(i) => LookupKeepsOwnership(s, i);
    case BeginWaiting(i) => MoveKeepsOwnership(s, Step(s, e), i, Step(s, e).callers[i].pc);
    case Wake(i) => MoveKeepsOwnership(s, Step(s, e), i, Step(s, e).callers[i].pc);
    case Cancel(i) => MoveKeepsOwnership(s, Step(s, e), i, Step(s, e).callers[i].pc);
    case CreateEnds(i, result) => CreateEndsKeepsOwnership(s, i, result);
    case Commit(i) => CommitKeepsOwnership(s, i);
  }

  // A finished call keeps its outcome, a closed one never changes again.
  lemma CallStays(s: State, e: Event, k: CallId)
    requires Ownership(s) && Enabled(s, e)
    requires k < |s.calls| && s.calls[k].finished
    ensures k < |Step(s, e).calls|
    ensures var after := Step(s, e).calls[k];
            after == s.calls[k] || (!s.calls[k].closed && after == s.calls[k].(closed := true))
  {
    if e.CreateEnds? || e.Commit? {
      OwnerFacts(s, e.caller);
    }
  }

  lemma ProducedStays(s: State, e: Event, uid: Uid, hash: Hash, meta: Meta)
    requires Ownership(s) && Enabled(s, e)
    requires Produced(s.calls, uid, hash, meta)
    ensures Produced(Step(s, e).calls, uid, hash, meta)
  {
    var k: CallId :| k < |s.calls| && MadeBy(s.calls[k], uid, hash, meta);
    CallStays(s, e, k);
    assert MadeBy(Step(s, e).calls[k], uid, hash, meta);
  }

  lemma OtherStepsKeepEntries(s: State, e: Event)
    requires Enabled(s, e) && !e.Commit?
    ensures Step(s, e).cache.entries == s.cache.entries
  {
  }

  lemma StepKeepsEntriesCoherent(s: State, e: Event)
    requires Inv(s) && Enabled(s, e)
    ensures EntriesCoherent(Step(s, e))
  {
    var t := Step(s, e);
    forall u | u in t.cache.entries
      ensures Produced(t.calls, u, t.cache.entries[u].configHash, t.cache.entries[u].meta)
    {
      if e.Commit? {
        CommittedEntryCoherent(s, e.caller, u);
      } else {
        OtherStepsKeepEntries(s, e);
        ProducedStays(s, e, u, s.cache.entries[u].configHash, s.cache.entries[u].meta);
      }
    }
  }

  lemma CommittedEntryCoherent(s: State, i: CallerId, u: Uid)
    requires Inv(s) && Enabled(s, Commit(i)) && u in CommitStep(s, i).cache.entries
    ensures var t := CommitStep(s, i);
            Produced(t.calls, u, t.cache.entries[u].configHash, t.cache.entries[u].meta)
  {
    var c := s.callers[i];
    var k := c.pc.call;
    var outcome := s.calls[k].outcome;
    CommitEffect(s.cache, c.uid, c.hash, outcome);
    OwnerFacts(s, i);
    if u == c.uid && outcome.err.None? {
      assert MadeBy(CommitStep(s, i).calls[k], u, c.hash, outcome.meta);
    } else {
      ProducedStays(s, Commit(i), u, s.cache.entries[u].configHash, s.cache.entries[u].meta);
    }
  }

  // What was said about a returned caller stays true.
  lemma ReturnStays(s: State, e: Event, c: Caller)
    requires Inv(s) && Enabled(s, e)
    requires c.pc.Returned? && ReturnCoherent(s, c)
    requires c.pc.source.FromOtherCall? && c.pc.source.call < |s.calls| ==> CallOk(s, c.pc.source.call)
    ensures ReturnCoherent(Step(s, e), c)
  {
    if c.pc.source == FromEntry {
      ProducedStays(s, e, c.uid, c.hash, c.pc.meta);
    }
    if c.pc.source.FromOtherCall? {
      CallStays(s, e, c.pc.source.call);
    }
  }

  // How a caller comes to return, event by event.
  lemma LookupReturnCoherent(s: State, i: CallerId)
    requires Inv(s) && Enabled(s, Lookup(i)) && LookupStep(s, i).callers[i].pc.Returned?
    ensures ReturnCoherent(LookupStep(s, i), LookupStep(s, i).callers[i])
  {
  }

  lemma WakeReturnCoherent(s: State, i: CallerId)
    requires Inv(s) && Enabled(s, Wake(i)) && WakeStep(s, i).callers[i].pc.Returned?
    ensures ReturnCoherent(WakeStep(s, i), WakeStep(s, i).callers[i])
  {
    assert CallerOk(s, i);
  }

  lemma CancelReturnCoherent(s: State, i: CallerId)
    requires Inv(s) && Enabled(s, Cancel(i))
    ensures CancelStep(s, i).callers[i].pc.Returned? && ReturnCoherent(CancelStep(s, i), CancelStep(s, i).callers[i])
  {
    assert CallerOk(s, i);
  }

  lemma NewReturnCoherent(s: State, e: Event)
    requires Inv(s) && Enabled(s, e) && !e.Invoke?
    requires Step(s, e).callers[e.caller].pc.Returned?
    ensures ReturnCoherent(Step(s, e), Step(s, e).callers[e.caller])
  {
    match e
    case Lookup(i) => LookupReturnCoherent(s, i);
    case Wake(i) => WakeReturnCoherent(s, i);
    case Cancel(i) => CancelReturnCoherent(s, i);
    case _ =>
  }

  lemma StepKeepsReturnsCoherent(s: State, e: Event)
    requires Inv(s) && Enabled(s, e)
    ensures ReturnsCoherent(Step(s, e))
  {
    var t := Step(s, e);
    forall i: CallerId | i < |t.callers| && t.callers[i].pc.Returned?
      ensures ReturnCoherent(t, t.callers[i])
    {
      if i < |s.callers| && s.callers[i].pc.Returned? {
        assert t.callers[i] == s.callers[i];
        var source := s.callers[i].pc.source;
        if source.FromOtherCall? && source.call < |s.calls| { assert CallOk(s, source.call); }
        ReturnStays(s, e, s.callers[i]);
      } else {
        assert i < |s.callers| && !e.Invoke? && e.caller == i;
        NewReturnCoherent(s, e);
      }
    }
  }

  lemma {:induction false} InvHolds(r: Run, n: nat)
    requires IsRun(r) && n < |r.states|
    ensures Inv(r.states[n])
  {
    if n > 0 {
      InvHolds(r, n - 1);
      RunStep(r, n - 1);
      StepKeepsWellFormed(r.states[n - 1], r.events[n - 1]);
      StepKeepsOwnership(r.states[n - 1], r.events[n - 1]);
      StepKeepsEntriesCoherent(r.states[n - 1], r.events[n - 1]);
      StepKeepsReturnsCoherent(r.states[n - 1], r.events[n - 1]);
    }
  }
}
