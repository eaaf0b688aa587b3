// Single flight, freedom from deadlock, and bounds on retries and on the length of runs.
module CacheProgress {
  import opened Collections
  import opened CacheState
  import opened CacheProtocol
  import opened CacheInvariants

  predicate Initializer(pc: Pc) {
    pc.Initializing? || pc.Committing?
  }

  // In every state of every run: the in-flight slots are exactly the uids being initialised, each by one
  // goroutine, and a goroutine waits only for another goroutine's call on its own uid.
  lemma SingleFlight(r: Run, n: nat)
    requires IsRun(r) && n < |r.states|
    ensures var s := r.states[n];
            && (forall i, j | 0 <= i < |s.callers| && 0 <= j < |s.callers|
                              && Initializer(s.callers[i].pc) && Initializer(s.callers[j].pc)
                              && s.callers[i].uid == s.callers[j].uid :: i == j)
            && (forall i | 0 <= i < |s.callers| && Initializer(s.callers[i].pc) ::
                  s.callers[i].uid in s.cache.inflight && s.cache.inflight[s.callers[i].uid] == s.callers[i].pc.call)
            && (forall u | u in s.cache.inflight ::
                  exists i: CallerId | i < |s.callers| ::
                    && s.callers[i].uid == u && Initializer(s.callers[i].pc)
                    && s.callers[i].pc.call == s.cache.inflight[u])
  {
    var s := r.states[n];
    InvHolds(r, n);
    forall i: CallerId | i < |s.callers| && Initializer(s.callers[i].pc)
      ensures s.callers[i].uid in s.cache.inflight && s.cache.inflight[s.callers[i].uid] == s.callers[i].pc.call
      ensures s.callers[i].pc.call < |s.calls| && s.calls[s.callers[i].pc.call].owner == i
    {
      OwnerFacts(s, i);
    }
    forall u | u in s.cache.inflight
      ensures exists i: CallerId | i < |s.callers| ::
                s.callers[i].uid == u && Initializer(s.callers[i].pc) && s.callers[i].pc.call == s.cache.inflight[u]
    {
      assert SlotOk(s, u);
      assert CallOk(s, s.cache.inflight[u]);
      assert Initializer(s.callers[s.calls[s.cache.inflight[u]].owner].pc);
    }
  }

  // A commit frees the slot of its uid; no other step frees a slot.
  lemma StepKeepsSlots(s: State, e: Event)
    requires Inv(s) && Enabled(s, e)
    ensures e.Commit? ==> Step(s, e).cache.inflight == s.cache.inflight - {s.callers[e.caller].uid}
    ensures !e.Commit? ==> forall u | u in s.cache.inflight ::
              u in Step(s, e).cache.inflight && Step(s, e).cache.inflight[u] == s.cache.inflight[u]
  {
    if e.Commit? {
      var c := s.callers[e.caller];
      CommitEffect(s.cache, c.uid, c.hash, s.calls[c.pc.call].outcome);
    }
  }

  // A commit closes its own call, which is open until then; no other step opens or closes a call.
  lemma CommitClosesOwn(s: State, i: CallerId, k: CallId)
    requires Inv(s) && Enabled(s, Commit(i)) && k < |s.calls|
    ensures CommitStep(s, i).calls[k].closed <==> s.calls[k].closed || s.calls[k].owner == i
    ensures s.calls[k].owner == i ==> !s.calls[k].closed
  {
    OwnerFacts(s, i);
  }

  lemma OthersCloseNothing(s: State, e: Event, k: CallId)
    requires Enabled(s, e) && !e.Commit? && k < |s.calls|
    ensures k < |Step(s, e).calls| && (Step(s, e).calls[k].closed <==> s.calls[k].closed)
  {
  }

  lemma StepClosesOwn(s: State, e: Event, k: CallId)
    requires Inv(s) && Enabled(s, e) && k < |s.calls|
    ensures k < |Step(s, e).calls|
    ensures Step(s, e).calls[k].closed <==> s.calls[k].closed || e == Commit(s.calls[k].owner)
    ensures e == Commit(s.calls[k].owner) ==> !s.calls[k].closed
  {
    if e.Commit? {
      CommitClosesOwn(s, e.caller, k);
    } else {
      OthersCloseNothing(s, e, k);
    }
  }

  lemma SlotIsFreedWithItsCall(s: State, e: Event, u: Uid)
    requires Inv(s) && Enabled(s, e) && u in s.cache.inflight
    ensures var k := s.cache.inflight[u];
            && k < |s.calls| && s.calls[k].uid == u && !s.calls[k].closed
            && (e == Commit(s.calls[k].owner) <==> u !in Step(s, e).cache.inflight)
  {
    assert SlotOk(s, u);
    assert CallOk(s, s.cache.inflight[u]);
    StepKeepsSlots(s, e);
    if e.Commit? {
      OwnerFacts(s, e.caller);
    }
  }

  // Only its owner closes a call, and only once: the call is open before that commit and closed ever after.  That
  // step, and no other, frees the call's slot.
  lemma OnlyOwnersClose(r: Run, n: nat, k: CallId)
    requires IsRun(r) && n < |r.events| && k < |r.states[n].calls|
    ensures var s, t, e := r.states[n], r.states[n + 1], r.events[n];
            var call := s.calls[k];
            && k < |t.calls|
            && (t.calls[k].closed <==> call.closed || e == Commit(call.owner))
            && (e == Commit(call.owner) ==> !call.closed)
            && (!call.closed <==> call.uid in s.cache.inflight && s.cache.inflight[call.uid] == k)
            && (e == Commit(call.owner) ==> call.uid !in t.cache.inflight)
            && (e != Commit(call.owner) && !call.closed ==> call.uid in t.cache.inflight)
  {
    var s, e := r.states[n], r.events[n];
    InvHolds(r, n);
    RunStep(r, n);
    assert CallOk(s, k);
    StepClosesOwn(s, e, k);
    if s.calls[k].uid in s.cache.inflight {
      SlotIsFreedWithItsCall(s, e, s.calls[k].uid);
    }
  }

  // An event of an existing caller; `create` is taken to end eventually, in any way.
  function OwnEvent(i: CallerId, pc: Pc): Event {
    match pc
    case Looping => Lookup(i)
    case Parked(_) => BeginWaiting(i)
    case Waiting(_) => Wake(i)
    case Initializing(_) => CreateEnds(i, Panics(""))
    case Committing(_) => Commit(i)
    case Returned(_, _, _) => Lookup(i)
  }

  // Waiting for an open call whose owner, another caller, can move.
  ghost predicate AwaitsMovingOwner(s: State, pc: Pc, i: CallerId) {
    && pc.Waiting? && pc.call < |s.calls| && !s.calls[pc.call].closed
    && var o := s.calls[pc.call].owner;
       o < |s.callers| && o != i && Initializer(s.callers[o].pc) && Enabled(s, OwnEvent(o, s.callers[o].pc))
  }

  lemma InitializerCanMove(s: State, i: CallerId)
    requires Inv(s) && i < |s.callers| && Initializer(s.callers[i].pc)
    ensures Enabled(s, OwnEvent(i, s.callers[i].pc))
  {
    OwnerFacts(s, i);
  }

  lemma EveryoneCanMove(s: State, i: CallerId)
    requires Inv(s) && i < |s.callers| && !s.callers[i].pc.Returned?
    ensures Enabled(s, OwnEvent(i, s.callers[i].pc)) || AwaitsMovingOwner(s, s.callers[i].pc, i)
  {
    var pc := s.callers[i].pc;
    if Initializer(pc) {
      InitializerCanMove(s, i);
    }
    if pc.Waiting? {
      assert CallerOk(s, i);
      assert WaitOk(s, i, pc.call);
      assert CallOk(s, pc.call);
      if !s.calls[pc.call].closed {
        InitializerCanMove(s, s.calls[pc.call].owner);
      }
    }
  }

  // No deadlock: a caller that has not returned can move by itself, or waits for an open call whose owner
  // can.  Chains of waiting have length one.
  lemma NoDeadlock(r: Run, n: nat, i: CallerId)
    requires IsRun(r) && n < |r.states|
    requires i < |r.states[n].callers| && !r.states[n].callers[i].pc.Returned?
    ensures var s := r.states[n];
            Enabled(s, OwnEvent(i, s.callers[i].pc)) || AwaitsMovingOwner(s, s.callers[i].pc, i)
  {
    InvHolds(r, n);
    EveryoneCanMove(r.states[n], i);
  }

  // While some caller is unanswered, a step other than a new invocation is possible.
  lemma UnansweredMeansProgress(r: Run, n: nat, i: CallerId) returns (e: Event)
    requires IsRun(r) && n < |r.states|
    requires i < |r.states[n].callers| && !r.states[n].callers[i].pc.Returned?
    ensures Enabled(r.states[n], e) && !e.Invoke?
  {
    var s := r.states[n];
    NoDeadlock(r, n, i);
    e := OwnEvent(i, s.callers[i].pc);
    if !Enabled(s, e) {
      var o := s.calls[s.callers[i].pc.call].owner;
      e := OwnEvent(o, s.callers[o].pc);
    }
  }

  function One(b: bool): nat { if b then 1 else 0 }

  // A step of an existing caller.
  predicate OwnStep(e: Event, i: CallerId) {
    !e.Invoke? && e.caller == i
  }

  // How many steps a caller may have had, given where it stands.
  function Budget(c: Caller): nat {
    match c.pc
    case Looping => 3 * |c.waited| + 1
    case Parked(_) => if |c.waited| == 0 then 0 else 3 * |c.waited| - 1
    case Waiting(_) => 3 * |c.waited|
    case Initializing(_) => 3 * |c.waited| + 2
    case Committing(_) => 3 * |c.waited| + 3
    case Returned(_, _, _) => 3 * |c.waited| + 4
  }

  // How many times it may have been round the loop, and how many times it may have run `create`.
  function RoundBudget(c: Caller): nat {
    |c.waited| + One(!c.pc.Looping? && AwaitedCall(c.pc).None?)
  }

  function CreateBudget(c: Caller): nat {
    One(c.pc.Committing? || c.pc.Returned?)
  }

  // The call it is about to wait on is open; those it waited on before are closed.
  lemma ParkingIsNew(s: State, i: CallerId)
    requires Inv(s) && Enabled(s, Lookup(i)) && s.callers[i].uid in s.cache.inflight
    ensures s.cache.inflight[s.callers[i].uid] !in s.callers[i].waited
  {
    assert SlotOk(s, s.callers[i].uid);
    assert CallerOk(s, i);
    assert forall m | m in s.callers[i].waited :: WaitOk(s, i, m) && s.calls[m].closed;
  }

  // The moves of one caller through the loop.
  ghost predicate Moves(b: Caller, c: Caller, e: Event) {
    match e
    case Lookup(_) => b.pc.Looping? && (if c.pc.Parked? then |c.waited| == |b.waited| + 1
                                        else c.waited == b.waited && (c.pc.Initializing? || c.pc.Returned?))
    case BeginWaiting(_) => b.pc.Parked? && c.pc.Waiting? && c.waited == b.waited != {}
    case Wake(_) => b.pc.Waiting? && (c.pc.Looping? || c.pc.Returned?) && c.waited == b.waited
    case Cancel(_) => b.pc.Waiting? && c.pc.Returned? && c.waited == b.waited
    case CreateEnds(_, _) => b.pc.Initializing? && c.pc.Committing? && c.waited == b.waited
    case Commit(_) => b.pc.Committing? && c.pc.Returned? && c.waited == b.waited
    case Invoke(_, _) => false
  }

  lemma LookupMoves(s: State, i: CallerId)
    requires Inv(s) && Enabled(s, Lookup(i))
    ensures Moves(s.callers[i], LookupStep(s, i).callers[i], Lookup(i))
  {
    if s.callers[i].uid in s.cache.inflight {
      ParkingIsNew(s, i);
    }
  }

  lemma OwnStepMoves(s: State, e: Event)
    requires Inv(s) && Enabled(s, e) && !e.Invoke?
    ensures e.caller < |Step(s, e).callers| && Moves(s.callers[e.caller], Step(s, e).callers[e.caller], e)
  {
    if e.Lookup? {
      LookupMoves(s, e.caller);
    }
    assert CallerOk(s, e.caller);
  }

  lemma MovesSpend(b: Caller, c: Caller, e: Event)
    requires Moves(b, c, e)
    ensures Budget(c) >= Budget(b) + 1
    ensures RoundBudget(c) >= RoundBudget(b) + One(e.Lookup?)
    ensures CreateBudget(c) >= CreateBudget(b) + One(e.CreateEnds?)
  {
  }

  // Each step raises the budget of one caller, or brings a caller.
  lemma StepSpends(s: State, e: Event)
    requires Inv(s) && Enabled(s, e)
    ensures Sum(Step(s, e).callers, Budget) >= Sum(s.callers, Budget) + 1
  {
    CallersStep(s, e);
    if e.Invoke? {
      SumAppend(s.callers, Caller(e.uid, e.hash, Looping, {}), Budget);
    } else {
      OwnStepMoves(s, e);
      MovesSpend(s.callers[e.caller], Step(s, e).callers[e.caller], e);
      SumUpdate(s.callers, e.caller, Step(s, e).callers[e.caller], Budget);
    }
  }

  lemma RunSpends(r: Run, n: nat)
    requires IsRun(r) && n < |r.events|
    ensures Sum(r.states[n + 1].callers, Budget) >= Sum(r.states[n].callers, Budget) + 1
  {
    InvHolds(r, n);
    RunStep(r, n);
    StepSpends(r.states[n], r.events[n]);
  }

  lemma {:induction false} StepsAreSpent(r: Run, n: nat)
    requires IsRun(r) && n < |r.states|
    ensures n <= Sum(r.states[n].callers, Budget)
  {
    if n > 0 {
      StepsAreSpent(r, n - 1);
      RunSpends(r, n - 1);
    }
  }

  predicate IsLookup(e: Event) { e.Lookup? }
  predicate IsCreate(e: Event) { e.CreateEnds? }

  // How many of the first `n` events are steps of caller `i` that satisfy `p`.
  function Times(events: seq<Event>, n: nat, i: CallerId, p: Event -> bool): nat
    requires n <= |events|
  {
    if n == 0 then 0 else Times(events, n - 1, i, p) + One(OwnStep(events[n - 1], i) && p(events[n - 1]))
  }

  // The budgets of caller `i`; none for a caller still to come.
  function Rounds(cs: seq<Caller>, i: CallerId): nat {
    if i < |cs| then RoundBudget(cs[i]) else 0
  }

  function Creates(cs: seq<Caller>, i: CallerId): nat {
    if i < |cs| then CreateBudget(cs[i]) else 0
  }

  lemma StepKeepsBudgets(s: State, e: Event, i: CallerId)
    requires Inv(s) && Enabled(s, e)
    ensures Rounds(Step(s, e).callers, i) >= Rounds(s.callers, i) + One(OwnStep(e, i) && IsLookup(e))
    ensures Creates(Step(s, e).callers, i) >= Creates(s.callers, i) + One(OwnStep(e, i) && IsCreate(e))
  {
    CallersStep(s, e);
    if OwnStep(e, i) {
      OwnStepMoves(s, e);
      MovesSpend(s.callers[i], Step(s, e).callers[i], e);
    }
  }

  lemma RunKeepsBudgets(r: Run, n: nat, i: CallerId)
    requires IsRun(r) && n < |r.events|
    ensures var before, after, e := r.states[n].callers, r.states[n + 1].callers, r.events[n];
            && Rounds(after, i) >= Rounds(before, i) + One(OwnStep(e, i) && IsLookup(e))
            && Creates(after, i) >= Creates(before, i) + One(OwnStep(e, i) && IsCreate(e))
  {
    InvHolds(r, n);
    RunStep(r, n);
    StepKeepsBudgets(r.states[n], r.events[n], i);
  }

  lemma {:induction false} TimesWithinBudget(r: Run, n: nat, i: CallerId)
    requires IsRun(r) && n < |r.states|
    ensures Times(r.events, n, i, IsLookup) <= Rounds(r.states[n].callers, i)
    ensures Times(r.events, n, i, IsCreate) <= Creates(r.states[n].callers, i)
  {
    if n > 0 {
      TimesWithinBudget(r, n - 1, i);
      RunKeepsBudgets(r, n - 1, i);
    }
  }

  // The callers that asked for the same uid as caller `i`, itself included.
  ghost function SameUid(s: State, i: CallerId): set<CallerId>
    requires i < |s.callers|
  {
    set j: CallerId | j < |s.callers| && s.callers[j].uid == s.callers[i].uid
  }

  function OwnerOf(calls: seq<Call>, k: CallId): CallerId {
    if k < |calls| then calls[k].owner else 0
  }

  // A caller has waited only on calls of other callers of its uid, one call of each at most, and it never waits
  // again on a call it has left.
  lemma WaitsAreBounded(s: State, i: CallerId)
    requires Inv(s) && i < |s.callers|
    ensures forall k | k in s.callers[i].waited :: k < |s.calls| && OwnerOf(s.calls, k) in SameUid(s, i) - {i}
    ensures forall k, m | k in s.callers[i].waited && m in s.callers[i].waited ::
              OwnerOf(s.calls, k) == OwnerOf(s.calls, m) ==> k == m
    ensures s.callers[i].pc.Looping? && s.callers[i].uid in s.cache.inflight ==>
              s.cache.inflight[s.callers[i].uid] !in s.callers[i].waited
    ensures |s.callers[i].waited| + 1 <= |SameUid(s, i)|
  {
    var waited := s.callers[i].waited;
    assert CallerOk(s, i);
    forall k | k in waited
      ensures k < |s.calls| && OwnerOf(s.calls, k) in SameUid(s, i) - {i}
    {
      assert WaitOk(s, i, k);
      assert CallOk(s, k);
    }
    forall k, m | k in waited && m in waited && OwnerOf(s.calls, k) == OwnerOf(s.calls, m)
      ensures k == m
    {
      assert CallOk(s, k) && CallOk(s, m);
    }
    if s.callers[i].pc.Looping? && s.callers[i].uid in s.cache.inflight {
      ParkingIsNew(s, i);
    }
    var owner: CallId -> CallId := k => OwnerOf(s.calls, k);
    InjectionSize<CallId, CallId>(waited, SameUid(s, i) - {i}, owner);
  }

  // Retry bound: however the goroutines interleave, a caller goes round its loop at most once for each
  // caller of the same uid, and runs `create` at most once.
  lemma RetriesAreBounded(r: Run, n: nat, i: CallerId)
    requires IsRun(r) && n < |r.states| && i < |r.states[n].callers|
    ensures Times(r.events, n, i, IsLookup) <= |SameUid(r.states[n], i)|
    ensures Times(r.events, n, i, IsCreate) <= 1
  {
    InvHolds(r, n);
    TimesWithinBudget(r, n, i);
    WaitsAreBounded(r.states[n], i);
  }

  lemma {:induction false} BoundedSetSize(a: set<CallerId>, n: nat)
    requires forall x | x in a :: x < n
    ensures |a| <= n
  {
    if n > 0 {
      BoundedSetSize(a - {n - 1}, n - 1);
    } else {
      assert a == {};
    }
  }

  lemma BudgetIsBounded(s: State, i: CallerId)
    requires Inv(s) && i < |s.callers|
    ensures Budget(s.callers[i]) <= 3 * |s.callers| + 1
  {
    WaitsAreBounded(s, i);
    BoundedSetSize(SameUid(s, i), |s.callers|);
  }

  // Every run is finite: with c callers it has at most c * (3c + 1) steps, so there is no livelock.
  lemma RunsAreFinite(r: Run)
    requires IsRun(r)
    ensures var callers := |r.states[|r.events|].callers|;
            |r.events| <= callers * (3 * callers + 1)
  {
    var n := |r.events|;
    var s := r.states[n];
    InvHolds(r, n);
    forall i: CallerId | i < |s.callers|
      ensures Budget(s.callers[i]) <= 3 * |s.callers| + 1
    {
      BudgetIsBounded(s, i);
    }
    StepsAreSpent(r, n);
    SumAtMost(s.callers, Budget, 3 * |s.callers| + 1);
  }
}
