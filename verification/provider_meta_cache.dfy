// The cache object itself: maps of entry and call records, and the ring the entries point into.  Each
// critical section is proved to do to the fields what its function in `cache_state.dfy` says.
module ProviderMetaCache {
  import opened Collections
  import S = CacheState
  import L = RecencyList

  // A cached meta and its place in the recency list.
  datatype CacheEntry = CacheEntry(configHash: S.Hash, meta: S.Meta, recency: L.Element)

  // An initialisation under way; `id` is its number in the model of the protocol.
  class CacheCall {
    ghost const id: S.CallId
    const configHash: S.Hash
    var outcome: S.Outcome
    var done: bool

    constructor (ghost id: S.CallId, configHash: S.Hash)
      ensures this.id == id && this.configHash == configHash && outcome == S.ZERO_OUTCOME && !done
    {
      this.id, this.configHash, outcome, done := id, configHash, S.ZERO_OUTCOME, false;
    }

    // Runs `create`, whose result is given.  A panic leaves no meta and an error; there is no error only when `create`
    // returned without one, and then its meta is the call's.
    method Initialize(result: S.CreateResult)
      modifies this`outcome
      ensures outcome == S.InitializeProviderMeta(result)
      ensures result.Panics? ==> outcome.meta == S.NilMeta && outcome.err.Some?
      ensures outcome.err.None? ==> result == S.Returns(outcome.meta, None)
    {
      match result
      case Returns(meta, err) => outcome := S.Outcome(meta, err);
      case Panics(text) => outcome := S.Outcome(S.NilMeta, Some(S.CreatePanicked(text)));
    }
  }

  // What the lookup section answers: a meta, a call to wait for, or a call to run.
  datatype Answer = Found(meta: S.Meta) | Wait(call: CacheCall) | Run(call: CacheCall)

  ghost function VerdictOf(a: Answer): S.Verdict {
    match a
    case Found(meta) => S.Hit(meta)
    case Wait(call) => S.MustWait(call.id)
    case Run(_) => S.MustInitialize
  }

  ghost function EntryValues(entries: map<S.Uid, CacheEntry>): map<S.Uid, S.Entry> {
    map u | u in entries :: S.Entry(entries[u].configHash, entries[u].meta)
  }

  ghost function SlotValues(inflight: map<S.Uid, CacheCall>): map<S.Uid, S.CallId> {
    map u | u in inflight :: inflight[u].id
  }

  lemma SameSize<T, U>(a: map<S.Uid, T>, b: map<S.Uid, U>)
    requires a.Keys == b.Keys
    ensures |a| == |b|
  {
  }

  // Entries and list elements point at each other.
  ghost predicate Paired(entries: map<S.Uid, CacheEntry>, elements: set<L.Element>) {
    && (forall u | u in entries :: entries[u].recency in elements && entries[u].recency.value == u)
    && (forall e | e in elements :: e.value in entries && entries[e.value].recency == e)
  }

  lemma PairedMinus(entries: map<S.Uid, CacheEntry>, elements: set<L.Element>, e: L.Element)
    requires Paired(entries, elements) && e in elements
    ensures Paired(entries - {e.value}, elements - {e})
    ensures EntryValues(entries - {e.value}) == EntryValues(entries) - {e.value}
  {
  }

  // Setting the entry of `uid`, whose element is new or its old one.
  lemma PairedPlus(entries: map<S.Uid, CacheEntry>, elements: set<L.Element>, uid: S.Uid, entry: CacheEntry)
    requires Paired(entries, elements) && entry.recency.value == uid
    requires uid in entries ==> entries[uid].recency == entry.recency
    ensures Paired(entries[uid := entry], elements + {entry.recency})
    ensures EntryValues(entries[uid := entry]) == EntryValues(entries)[uid := S.Entry(entry.configHash, entry.meta)]
  {
  }

  lemma SlotPlus(inflight: map<S.Uid, CacheCall>, uid: S.Uid, call: CacheCall)
    ensures SlotValues(inflight[uid := call]) == SlotValues(inflight)[uid := call.id]
    ensures |inflight[uid := call]| == |SlotValues(inflight)[uid := call.id]|
  {
    SameSize(inflight[uid := call], SlotValues(inflight)[uid := call.id]);
  }

  lemma SlotMinus(inflight: map<S.Uid, CacheCall>, uid: S.Uid)
    ensures SlotValues(inflight - {uid}) == SlotValues(inflight) - {uid}
    ensures |inflight - {uid}| == |SlotValues(inflight) - {uid}|
  {
    SameSize(inflight - {uid}, SlotValues(inflight) - {uid});
  }

  // The recency list of a well-formed cache names cached uids only, each once.
  lemma ValuesAreDistinct(entries: map<S.Uid, CacheEntry>, root: L.Element, ring: seq<L.Element>, values: seq<S.Uid>)
    requires Paired(entries, Elements(ring)) && NoDuplicates([root] + ring) && L.Hold(ring, values)
    ensures NoDuplicates(values) && forall u | u in values :: u in entries
  {
    forall i, j | 0 <= i < j < |ring|
      ensures values[i] != values[j]
    {
      assert ([root] + ring)[i + 1] == ring[i] && ([root] + ring)[j + 1] == ring[j];
      assert ring[i] in Elements(ring) && ring[j] in Elements(ring);
    }
    forall i | 0 <= i < |ring|
      ensures values[i] in entries
    {
      assert ring[i] in Elements(ring);
    }
  }

  // Where the element of a cached uid is.
  lemma IndexOf(entries: map<S.Uid, CacheEntry>, ring: seq<L.Element>, uid: S.Uid) returns (i: nat)
    requires Paired(entries, Elements(ring)) && uid in entries
    ensures i < |ring| && ring[i] == entries[uid].recency && ring[i].value == uid
  {
    assert entries[uid].recency in Elements(ring);
    i :| 0 <= i < |ring| && ring[i] == entries[uid].recency;
  }

  // The element of a cached uid, and the order once it has moved to the front.
  lemma PlaceOf(entries: map<S.Uid, CacheEntry>, root: L.Element, ring: seq<L.Element>, values: seq<S.Uid>, uid: S.Uid)
    returns (i: nat)
    requires Paired(entries, Elements(ring)) && NoDuplicates([root] + ring) && L.Hold(ring, values) && uid in entries
    ensures i < |ring| && ring[i] == entries[uid].recency && ring[i].value == uid
    ensures S.MoveToFront(values, uid) == [uid] + values[..i] + values[i + 1..]
  {
    i := IndexOf(entries, ring, uid);
    ValuesAreDistinct(entries, root, ring, values);
    WithoutAt(values, i);
  }

  class Cache {
    const maxEntries: nat
    var entries: map<S.Uid, CacheEntry>
    const recency: L.List
    var inflight: map<S.Uid, CacheCall>
    var metrics: S.Metrics

    ghost predicate Valid()
      reads this`entries, recency, recency.cells
    {
      recency.Valid() && Paired(entries, Elements(recency.ring))
    }

    // The guarded fields as a value.
    ghost function Value(): S.Cache
      reads this, recency`values
    {
      S.Cache(maxEntries, EntryValues(entries), recency.values, SlotValues(inflight), metrics)
    }

    constructor (maxEntries: int)
      ensures Valid() && Value() == S.NewCache(maxEntries) && entries == map[] && inflight == map[]
      ensures this.maxEntries == metrics.capacity == (if maxEntries < 1 then 1 else maxEntries)
      ensures fresh(recency) && fresh(recency.cells)
    {
      var bound := if maxEntries < 1 then 1 else maxEntries;
      var list := new L.List();
      this.maxEntries := bound;
      this.entries, this.recency, this.inflight := map[], list, map[];
      this.metrics := S.NO_METRICS.(capacity := bound);
    }

    // Moves the entry of `uid` to the front of the recency list.
    method Touch(uid: S.Uid)
      requires Valid() && uid in entries
      modifies recency, recency.cells
      ensures Valid() && recency.cells == old(recency.cells)
      ensures recency.values == S.MoveToFront(old(recency.values), uid)
    {
      ghost var i := PlaceOf(entries, recency.root, recency.ring, recency.values, uid);
      recency.MoveToFront(entries[uid].recency, i);
    }

    // The section at the top of the retry loop: answers from the entry, or says what to wait for or run.
    // `callId` is the number of the call created on a miss.
    method LookupSection(uid: S.Uid, hash: S.Hash, ghost callId: S.CallId) returns (a: Answer)
      requires Valid()
      modifies this`inflight, this`metrics, recency, recency.cells
      ensures Valid()
      ensures (VerdictOf(a), Value()) == S.LookupSection(old(Value()), uid, hash, callId)
      ensures a.Wait? ==> uid in inflight && a.call == inflight[uid]
      ensures a.Run? ==> fresh(a.call) && a.call.id == callId && a.call.configHash == hash && !a.call.done
                         && a.call.outcome == S.ZERO_OUTCOME && inflight == old(inflight)[uid := a.call]
      ensures !a.Run? ==> inflight == old(inflight)
    {
      if uid in entries && entries[uid].configHash == hash {
        a := AnswerFrom(uid, hash, callId);
      } else {
        a := Join(uid, hash, callId);
      }
    }

    // No entry for this configuration: waits for the initialisation under way, or begins one.
    method Join(uid: S.Uid, hash: S.Hash, ghost callId: S.CallId) returns (a: Answer)
      requires Valid() && !(uid in entries && entries[uid].configHash == hash)
      modifies this`inflight, this`metrics
      ensures Valid()
      ensures (VerdictOf(a), Value()) == S.LookupSection(old(Value()), uid, hash, callId)
      ensures a.Wait? ==> uid in inflight && a.call == inflight[uid]
      ensures a.Run? ==> fresh(a.call) && a.call.id == callId && a.call.configHash == hash && !a.call.done
                         && a.call.outcome == S.ZERO_OUTCOME && inflight == old(inflight)[uid := a.call]
      ensures !a.Run? ==> inflight == old(inflight)
    {
      if uid in inflight {
        a := Wait(inflight[uid]);
      } else {
        a := Begin(uid, hash, callId);
      }
    }

    // An entry for this configuration: answers from it.
    method AnswerFrom(uid: S.Uid, ghost hash: S.Hash, ghost callId: S.CallId) returns (a: Answer)
      requires Valid() && uid in entries && entries[uid].configHash == hash
      modifies this`metrics, recency, recency.cells
      ensures Valid() && a.Found?
      ensures (VerdictOf(a), Value()) == S.LookupSection(old(Value()), uid, hash, callId)
    {
      assert Value().entries[uid] == S.Entry(hash, entries[uid].meta);
      a := Reuse(uid);
    }

    method Reuse(uid: S.Uid) returns (a: Answer)
      requires Valid() && uid in entries
      modifies this`metrics, recency, recency.cells
      ensures Valid() && a == Found(entries[uid].meta)
      ensures var c := old(Value());
              Value() == c.(recency := S.MoveToFront(c.recency, uid), metrics := c.metrics.(hits := c.metrics.hits + 1))
    {
      Touch(uid);
      metrics := metrics.(hits := metrics.hits + 1);
      a := Found(entries[uid].meta);
    }

    method Begin(uid: S.Uid, hash: S.Hash, ghost callId: S.CallId) returns (a: Answer)
      requires uid !in inflight
      modifies this`inflight, this`metrics
      ensures a.Run? && fresh(a.call) && a.call.id == callId && a.call.configHash == hash && !a.call.done
      ensures a.call.outcome == S.ZERO_OUTCOME
      ensures inflight == old(inflight)[uid := a.call]
      ensures var c := old(Value());
              var m := if uid in c.entries then c.metrics.(missesChanged := c.metrics.missesChanged + 1)
                       else c.metrics.(missesAbsent := c.metrics.missesAbsent + 1);
              var slots := c.inflight[uid := callId];
              Value() == c.(inflight := slots, metrics := m.(inflight := |slots|))
    {
      if uid in entries {
        metrics := metrics.(missesChanged := metrics.missesChanged + 1);
      } else {
        metrics := metrics.(missesAbsent := metrics.missesAbsent + 1);
      }
      var call := new CacheCall(callId, hash);
      SlotPlus(inflight, uid, call);
      inflight := inflight[uid := call];
      metrics := metrics.(inflight := |inflight|);
      a := Run(call);
    }

    // Drops the least recently used entry from the map and from the list.
    method Drop(oldest: L.Element)
      requires Valid()
      requires recency.ring != [] && oldest == recency.ring[|recency.ring| - 1]
      modifies recency, recency.cells, this`entries
      ensures Valid() && recency.cells == old(recency.cells)
      ensures var order := old(recency.values);
              var last := |order| - 1;
              recency.values == order[..last] && EntryValues(entries) == EntryValues(old(entries)) - {order[last]}
    {
      ghost var order := recency.values;
      ghost var last := |order| - 1;
      assert oldest in Elements(recency.ring) && oldest.value == order[last];
      assert order[..last] + order[last + 1..] == order[..last];
      PairedMinus(entries, Elements(recency.ring), oldest);
      entries := entries - {oldest.value};
      recency.Remove(oldest, last);
    }

    method EvictLast(oldest: L.Element)
      requires Valid()
      requires recency.ring != [] && oldest == recency.ring[|recency.ring| - 1]
      modifies recency, recency.cells, this`entries, this`metrics
      ensures Valid() && recency.cells == old(recency.cells)
      ensures Value() == S.WithoutOldest(old(Value()))
    {
      ghost var c := Value();
      Drop(oldest);
      metrics := metrics.(evictions := metrics.evictions + 1);
      assert recency.values == c.recency[..|c.recency| - 1];
      assert EntryValues(entries) == c.entries - {c.recency[|c.recency| - 1]};
      assert SlotValues(inflight) == c.inflight;
    }

    // One round of the eviction loop; stops only when the list is empty.
    method EvictRound() returns (stop: bool)
      requires Valid() && |entries| > maxEntries
      modifies recency, recency.cells, this`entries, this`metrics
      ensures Valid() && recency.cells == old(recency.cells)
      ensures S.EvictOverflow(Value()) == S.EvictOverflow(old(Value()))
      ensures if stop then Value() == S.EvictOverflow(old(Value())) else |recency.values| < |old(recency.values)|
    {
      SameSize(entries, EntryValues(entries));
      var oldest := recency.Back();
      if oldest == null {
        return true;
      }
      EvictLast(oldest);
      return false;
    }

    // Evicts until the bound is met.
    method EvictOverflow()
      requires Valid()
      modifies recency, recency.cells, this`entries, this`metrics
      ensures Valid() && Value() == S.EvictOverflow(old(Value()))
    {
      while |entries| > maxEntries
        invariant Valid() && recency.cells == old(recency.cells)
        invariant S.EvictOverflow(Value()) == S.EvictOverflow(old(Value()))
        decreases |recency.values|
      {
        var stop := EvictRound();
        if stop {
          return;
        }
      }
      SameSize(entries, EntryValues(entries));
    }

    method Replace(uid: S.Uid, hash: S.Hash, meta: S.Meta)
      requires Valid() && uid in entries
      modifies recency, recency.cells, this`entries
      ensures Valid() && recency.cells == old(recency.cells)
      ensures recency.values == S.MoveToFront(old(recency.values), uid)
      ensures EntryValues(entries) == EntryValues(old(entries))[uid := S.Entry(hash, meta)]
    {
      var entry := CacheEntry(hash, meta, entries[uid].recency);
      PairedPlus(entries, Elements(recency.ring), uid, entry);
      assert Elements(recency.ring) + {entry.recency} == Elements(recency.ring);
      entries := entries[uid := entry];
      Touch(uid);
    }

    method Add(uid: S.Uid, hash: S.Hash, meta: S.Meta)
      requires Valid() && uid !in entries
      modifies recency, recency.cells, this`entries
      ensures Valid() && fresh(recency.cells - old(recency.cells))
      ensures recency.values == [uid] + old(recency.values)
      ensures EntryValues(entries) == EntryValues(old(entries))[uid := S.Entry(hash, meta)]
    {
      ghost var elements := Elements(recency.ring);
      var element := recency.PushFront(uid);
      var entry := CacheEntry(hash, meta, element);
      PairedPlus(entries, elements, uid, entry);
      entries := entries[uid := entry];
    }

    // Replaces the entry of `uid`, or adds one in front.
    method Insert(uid: S.Uid, hash: S.Hash, meta: S.Meta)
      requires Valid()
      modifies recency, recency.cells, this`entries
      ensures Valid() && fresh(recency.cells - old(recency.cells))
      ensures Value() == S.Inserted(old(Value()), uid, S.Entry(hash, meta))
    {
      if uid in entries {
        Replace(uid, hash, meta);
      } else {
        Unlisted(uid);
        Add(uid, hash, meta);
      }
    }

    lemma Unlisted(uid: S.Uid)
      requires Valid() && uid !in entries
      ensures S.MoveToFront(recency.values, uid) == [uid] + recency.values
    {
    }

    method InsertAndEvict(uid: S.Uid, hash: S.Hash, meta: S.Meta)
      requires Valid()
      modifies recency, recency.cells, this`entries, this`metrics
      ensures Valid() && Value() == S.EvictOverflow(S.Inserted(old(Value()), uid, S.Entry(hash, meta)))
    {
      Insert(uid, hash, meta);
      EvictOverflow();
    }

    // Stores a successful result.
    method Store(uid: S.Uid, hash: S.Hash, meta: S.Meta)
      requires Valid()
      modifies recency, recency.cells, this`entries, this`metrics
      ensures Valid() && Value() == S.Store(old(Value()), uid, hash, meta)
    {
      StoreIsInsertAndEvict(uid, hash, meta);
      InsertAndEvict(uid, hash, meta);
      CountEntries();
    }

    lemma StoreIsInsertAndEvict(uid: S.Uid, hash: S.Hash, meta: S.Meta)
      requires Valid()
      ensures var kept := S.EvictOverflow(S.Inserted(Value(), uid, S.Entry(hash, meta)));
              S.Store(Value(), uid, hash, meta) == kept.(metrics := kept.metrics.(entries := |kept.entries|))
    {
      if uid !in entries {
        Unlisted(uid);
      }
      S.StoreIsInsertThenEvict(Value(), uid, hash, meta);
    }

    method CountEntries()
      modifies this`metrics
      ensures var c := old(Value());
              Value() == c.(metrics := c.metrics.(entries := |c.entries|))
    {
      SameSize(entries, EntryValues(entries));
      metrics := metrics.(entries := |entries|);
    }

    // The section after an initialisation: stores its meta if it succeeded, frees the slot, wakes the waiters.
    method CommitSection(uid: S.Uid, hash: S.Hash, call: CacheCall)
      requires Valid()
      modifies this, recency, recency.cells, call`done
      ensures Valid() && Value() == S.CommitSection(old(Value()), uid, hash, call.outcome)
      ensures inflight == old(inflight) - {uid} && call.done && call.outcome == old(call.outcome)
    {
      StoreSuccess(uid, hash, call.outcome);
      Release(uid, call);
    }

    method StoreSuccess(uid: S.Uid, hash: S.Hash, outcome: S.Outcome)
      requires Valid()
      modifies recency, recency.cells, this`entries, this`metrics
      ensures Valid()
      ensures Value() == if outcome.err.None? then S.Store(old(Value()), uid, hash, outcome.meta) else old(Value())
    {
      if outcome.err.None? {
        Store(uid, hash, outcome.meta);
      }
    }

    method Release(uid: S.Uid, call: CacheCall)
      modifies this`inflight, this`metrics, call`done
      ensures inflight == old(inflight) - {uid} && call.done
      ensures var c := old(Value());
              var slots := c.inflight - {uid};
              Value() == c.(inflight := slots, metrics := c.metrics.(inflight := |slots|))
    {
      FreeSlot(uid);
      call.done := true;
    }

    method FreeSlot(uid: S.Uid)
      modifies this`inflight, this`metrics
      ensures inflight == old(inflight) - {uid}
      ensures var c := old(Value());
              var slots := c.inflight - {uid};
              Value() == c.(inflight := slots, metrics := c.metrics.(inflight := |slots|))
    {
      ghost var c := Value();
      SlotMinus(inflight, uid);
      inflight := inflight - {uid};
      metrics := metrics.(inflight := |inflight|);
      assert Value().entries == c.entries;
    }

    // The stretches of the retry loop that run without the mutex, and touch nothing but counters.

    method BeginWaiting()
      modifies this`metrics
      ensures Value() == old(Value()).(metrics := old(metrics).(waiting := old(metrics).waiting + 1))
    {
      metrics := metrics.(waiting := metrics.waiting + 1);
    }

    method CancelWaiting()
      modifies this`metrics
      ensures var m := old(metrics);
              Value() == old(Value()).(metrics := m.(waiting := m.waiting - 1, waitsCanceled := m.waitsCanceled + 1))
    {
      metrics := metrics.(waiting := metrics.waiting - 1);
      metrics := metrics.(waitsCanceled := metrics.waitsCanceled + 1);
    }

    // What a waiter does once its call is done: the call's error if it concerns the waiter's configuration, else None
    // for another round of the loop.
    method EndWaiting(call: CacheCall, hash: S.Hash) returns (err: Option<S.Error>)
      modifies this`metrics
      ensures err == if call.configHash == hash then call.outcome.err else None
      ensures var m := old(metrics).(waiting := old(metrics).waiting - 1);
              Value() == old(Value()).(metrics :=
                if call.configHash != hash then m.(waitsChanged := m.waitsChanged + 1)
                else if call.outcome.err.Some? then m.(waitsFailed := m.waitsFailed + 1)
                else m.(waitsCompleted := m.waitsCompleted + 1))
    {
      var sameConfiguration := call.configHash == hash;
      metrics := metrics.(waiting := metrics.waiting - 1);
      if sameConfiguration && call.outcome.err.Some? {
        metrics := metrics.(waitsFailed := metrics.waitsFailed + 1);
        return call.outcome.err;
      }
      if sameConfiguration {
        metrics := metrics.(waitsCompleted := metrics.waitsCompleted + 1);
      } else {
        metrics := metrics.(waitsChanged := metrics.waitsChanged + 1);
      }
      err := None;
    }

    // Runs `create` for a call and counts how it ended.
    method RunCreate(call: CacheCall, result: S.CreateResult)
      modifies this`metrics, call`outcome
      ensures call.outcome == S.InitializeProviderMeta(result)
      ensures var m := old(metrics);
              Value() == old(Value()).(metrics := if call.outcome.err.None? then m.(initSuccess := m.initSuccess + 1)
                                                  else m.(initError := m.initError + 1))
    {
      call.Initialize(result);
      if call.outcome.err.None? {
        metrics := metrics.(initSuccess := metrics.initSuccess + 1);
      } else {
        metrics := metrics.(initError := metrics.initError + 1);
      }
    }
  }
}
