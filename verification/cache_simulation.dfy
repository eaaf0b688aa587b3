// The object and the protocol are the same thing: whatever section or stretch of `getOrCreate` runs on the object, the
// state it stands for makes the corresponding step, so what is proved about runs is true of the object.
module CacheSimulation {
  import opened Collections
  import opened CacheState
  import opened CacheProtocol
  import opened CacheInvariants
  import P = ProviderMetaCache

  // A call record and the call it stands for.
  ghost predicate IsCall(record: P.CacheCall, k: CallId, call: Call)
    reads record
  {
    && record.id == k && record.configHash == call.configHash
    && record.outcome == call.outcome && record.done == call.closed
  }

  ghost predicate AreCalls(records: seq<P.CacheCall>, calls: seq<Call>)
    reads records
  {
    |records| == |calls| && forall k: CallId | k < |records| :: IsCall(records[k], k, calls[k])
  }

  ghost predicate SlotsHold(inflight: map<Uid, P.CacheCall>, records: seq<P.CacheCall>) {
    forall u | u in inflight :: inflight[u].id < |records| && records[inflight[u].id] == inflight[u]
  }

  // The cache object with its call records stands for the state of the protocol.
  ghost predicate StandsFor(c: P.Cache, records: seq<P.CacheCall>, s: State)
    reads c, c.recency, c.recency.cells, records
  {
    c.Valid() && c.Value() == s.cache && AreCalls(records, s.calls) && SlotsHold(c.inflight, records)
  }

  lemma OneMoreCall(records: seq<P.CacheCall>, calls: seq<Call>, record: P.CacheCall, call: Call)
    requires AreCalls(records, calls) && IsCall(record, |calls|, call)
    ensures AreCalls(records + [record], calls + [call])
  {
  }

  lemma OneMoreSlot(inflight: map<Uid, P.CacheCall>, records: seq<P.CacheCall>, u: Uid, record: P.CacheCall)
    requires SlotsHold(inflight, records) && record.id == |records|
    ensures SlotsHold(inflight[u := record], records + [record])
  {
  }

  function Last(r: Run): State
    requires r.states != []
  {
    r.states[|r.states| - 1]
  }

  function Then(r: Run, e: Event): Run
    requires r.states != [] && Enabled(Last(r), e)
  {
    Run(r.maxEntries, r.states + [Step(Last(r), e)], r.events + [e])
  }

  lemma RunGoesOn(r: Run, e: Event)
    requires IsRun(r) && Enabled(Last(r), e)
    ensures IsRun(Then(r, e)) && Last(Then(r, e)) == Step(Last(r), e)
  {
    var t := Then(r, e);
    forall n: nat | n < |t.events|
      ensures Follows(t, n)
    {
      if n < |r.events| {
        assert Follows(r, n);
      }
    }
  }

  // The object is where some run of the protocol has come to.
  ghost predicate Reached(c: P.Cache, records: seq<P.CacheCall>, r: Run)
    reads c, c.recency, c.recency.cells, records
  {
    IsRun(r) && StandsFor(c, records, Last(r))
  }

  // What the lookup section answers is what the caller does next.
  ghost predicate Leads(a: P.Answer, pc: Pc) {
    match a
    case Found(meta) => pc == Returned(meta, None, FromEntry)
    case Wait(call) => pc == Parked(call.id)
    case Run(call) => pc == Initializing(call.id)
  }

  method Create(maxEntries: int) returns (c: P.Cache, ghost r: Run)
    ensures fresh(c) && Reached(c, [], r) && r.events == []
  {
    c := new P.Cache(maxEntries);
    r := Run(maxEntries, [Initial(maxEntries)], []);
  }

  // A goroutine enters; the object does not notice.
  lemma Enter(c: P.Cache, records: seq<P.CacheCall>, r: Run, uid: Uid, hash: Hash)
    requires Reached(c, records, r)
    ensures Reached(c, records, Then(r, Invoke(uid, hash)))
  {
    RunGoesOn(r, Invoke(uid, hash));
  }

  method LookupSection(c: P.Cache, uid: Uid, hash: Hash, ghost records: seq<P.CacheCall>, ghost r: Run,
                       ghost i: CallerId)
    returns (a: P.Answer, ghost records': seq<P.CacheCall>)
    requires Reached(c, records, r) && i < |Last(r).callers| && Last(r).callers[i].pc == Looping
    requires Last(r).callers[i].uid == uid && Last(r).callers[i].hash == hash
    modifies c`inflight, c`metrics, c.recency, c.recency.cells
    ensures Enabled(Last(r), Lookup(i)) && Reached(c, records', Then(r, Lookup(i)))
    ensures Leads(a, Last(Then(r, Lookup(i))).callers[i].pc)
    ensures records' == (if a.Run? then records + [a.call] else records) && (a.Wait? ==> a.call in records)
  {
    RunGoesOn(r, Lookup(i));
    ghost var s, inflight := Last(r), c.inflight;
    a := c.LookupSection(uid, hash, |s.calls|);
    assert AreCalls(records, s.calls);
    records' := records;
    if a.Run? {
      records' := records + [a.call];
      OneMoreCall(records, s.calls, a.call, Call(uid, hash, i, ZERO_OUTCOME, false, false));
      OneMoreSlot(inflight, records, uid, a.call);
    }
  }

  method StartWaiting(c: P.Cache, ghost records: seq<P.CacheCall>, ghost r: Run, ghost i: CallerId)
    requires Reached(c, records, r) && i < |Last(r).callers| && Last(r).callers[i].pc.Parked?
    modifies c`metrics
    ensures Enabled(Last(r), BeginWaiting(i)) && Reached(c, records, Then(r, BeginWaiting(i)))
  {
    RunGoesOn(r, BeginWaiting(i));
    c.BeginWaiting();
  }

  method CancelWaiting(c: P.Cache, ghost records: seq<P.CacheCall>, ghost r: Run, ghost i: CallerId)
    requires Reached(c, records, r) && i < |Last(r).callers| && Last(r).callers[i].pc.Waiting?
    modifies c`metrics
    ensures Enabled(Last(r), Cancel(i)) && Reached(c, records, Then(r, Cancel(i)))
    ensures Last(Then(r, Cancel(i))).callers[i].pc == Returned(NilMeta, Some(ContextDone), FromContext)
  {
    RunGoesOn(r, Cancel(i));
    c.CancelWaiting();
  }

  // A waiter wakes when the call it waits on is done, and returns the call's error or goes round again.
  method EndWaiting(c: P.Cache, call: P.CacheCall, hash: Hash, ghost records: seq<P.CacheCall>, ghost r: Run,
                    ghost i: CallerId)
    returns (err: Option<Error>)
    requires Reached(c, records, r) && call in records && call.done
    requires i < |Last(r).callers| && Last(r).callers[i].pc == Waiting(call.id) && Last(r).callers[i].hash == hash
    modifies c`metrics
    ensures Enabled(Last(r), Wake(i)) && Reached(c, records, Then(r, Wake(i)))
    ensures var pc := Last(Then(r, Wake(i))).callers[i].pc;
            if err.None? then pc.Looping? else pc == Returned(NilMeta, err, FromOtherCall(call.id))
    ensures err == if call.configHash == hash then call.outcome.err else None
  {
    RunGoesOn(r, Wake(i));
    err := c.EndWaiting(call, hash);
  }

  method RunCreate(c: P.Cache, call: P.CacheCall, result: CreateResult, ghost records: seq<P.CacheCall>, ghost r: Run,
                   ghost i: CallerId)
    requires Reached(c, records, r) && call in records
    requires i < |Last(r).callers| && Last(r).callers[i].pc == Initializing(call.id)
    modifies c`metrics, call`outcome
    ensures Enabled(Last(r), CreateEnds(i, result)) && Reached(c, records, Then(r, CreateEnds(i, result)))
    ensures Last(Then(r, CreateEnds(i, result))).callers[i].pc == Committing(call.id)
  {
    RunGoesOn(r, CreateEnds(i, result));
    c.RunCreate(call, result);
  }

  method CommitSection(c: P.Cache, uid: Uid, hash: Hash, call: P.CacheCall,
                       ghost records: seq<P.CacheCall>, ghost r: Run, ghost i: CallerId)
    returns (meta: Meta, err: Option<Error>)
    requires Reached(c, records, r) && call in records
    requires i < |Last(r).callers| && Last(r).callers[i].pc == Committing(call.id)
    requires Last(r).callers[i].uid == uid && Last(r).callers[i].hash == hash
    modifies c, c.recency, c.recency.cells, call`done
    ensures Enabled(Last(r), Commit(i)) && Reached(c, records, Then(r, Commit(i)))
    ensures Last(Then(r, Commit(i))).callers[i].pc == Returned(meta, err, FromOwnCall(call.id))
  {
    RunGoesOn(r, Commit(i));
    c.CommitSection(uid, hash, call);
    meta, err := call.outcome.meta, call.outcome.err;
  }

  // Record `k` is of a call for this uid, with the entry's configuration, that succeeded with the entry's meta.
  ghost predicate MadeEntry(entry: P.CacheEntry, u: Uid, records: seq<P.CacheCall>, s: State, k: CallId)
    reads records
  {
    && k < |records| && k < |s.calls| && s.calls[k].uid == u
    && records[k].configHash == entry.configHash && records[k].outcome == Outcome(entry.meta, None)
  }

  // What runs promise carries over to the object, for instance that each entry was made by a successful call for its
  // uid and configuration, and that a call in flight is not done.
  lemma ObjectIsCoherent(c: P.Cache, records: seq<P.CacheCall>, r: Run)
    requires Reached(c, records, r)
    ensures |c.entries| <= c.maxEntries
    ensures forall u | u in c.entries :: exists k: CallId :: MadeEntry(c.entries[u], u, records, Last(r), k)
    ensures forall u | u in c.inflight :: c.inflight[u] in records && !c.inflight[u].done
  {
    var s := Last(r);
    InvHolds(r, |r.events|);
    P.SameSize(c.entries, s.cache.entries);
    forall u | u in c.entries
      ensures exists k: CallId :: MadeEntry(c.entries[u], u, records, s, k)
    {
      assert Produced(s.calls, u, s.cache.entries[u].configHash, s.cache.entries[u].meta);
      var k: CallId :| k < |s.calls| && MadeBy(s.calls[k], u, s.cache.entries[u].configHash, s.cache.entries[u].meta);
      assert IsCall(records[k], k, s.calls[k]);
      assert MadeEntry(c.entries[u], u, records, s, k);
    }
    forall u | u in c.inflight
      ensures c.inflight[u] in records && !c.inflight[u].done
    {
      assert u in s.cache.inflight && SlotOk(s, u);
      assert IsCall(records[c.inflight[u].id], c.inflight[u].id, s.calls[c.inflight[u].id]);
    }
  }
}
