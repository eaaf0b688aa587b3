// The provider-meta cache as values: what its two critical sections do to the fields guarded by the
// mutex.  The class in `provider_meta_cache.dfy` implements exactly these functions on the heap, and
// the transition system in `cache_protocol.dfy` interleaves them.
module CacheState {
  import opened Collections

  datatype Uid = Uid(text: string)
  datatype Hash = Hash(text: string)
  type CallId = nat

  // The configured provider instance; Go's `any`, so it may be nil.
  datatype Meta = NilMeta | Instance(id: nat)

  datatype Error = CreateFailed(text: string) | CreatePanicked(text: string) | ContextDone

  // What running the caller's `create` closure can end in.
  datatype CreateResult = Returns(meta: Meta, err: Option<Error>) | Panics(text: string)

  // The two result fields of an initialisation call; their zero value is (nil, nil).
  datatype Outcome = Outcome(meta: Meta, err: Option<Error>)

  const ZERO_OUTCOME := Outcome(NilMeta, None)

  // A panic becomes an error with a nil meta; everything else is passed through.
  function InitializeProviderMeta(r: CreateResult): Outcome {
    match r
    case Returns(meta, err) => Outcome(meta, err)
    case Panics(text) => Outcome(NilMeta, Some(CreatePanicked(text)))
  }

  datatype Entry = Entry(configHash: Hash, meta: Meta)

  // Counters and gauges.  `waiting` is an `int` because it is changed outside the mutex.
  datatype Metrics = Metrics(
    hits: nat,
    missesAbsent: nat, missesChanged: nat,
    waitsCanceled: nat, waitsFailed: nat, waitsCompleted: nat, waitsChanged: nat,
    initSuccess: nat, initError: nat,
    evictions: nat,
    entries: nat, inflight: nat, waiting: int, capacity: nat)
  {
    function Misses(): nat { missesAbsent + missesChanged }
    function Waits(): nat { waitsCanceled + waitsFailed + waitsCompleted + waitsChanged }
    function Initializations(): nat { initSuccess + initError }
  }

  const NO_METRICS := Metrics(0, 0, 0, 0, 0, 0, 0, 0, 0, 0, 0, 0, 0, 0)

  // `recency` lists the cached uids, most recently used first.
  datatype Cache = Cache(
    maxEntries: nat,
    entries: map<Uid, Entry>,
    recency: seq<Uid>,
    inflight: map<Uid, CallId>,
    metrics: Metrics)

  function NewCache(maxEntries: int): Cache {
    var bound := if maxEntries < 1 then 1 else maxEntries;
    Cache(bound, map[], [], map[], NO_METRICS.(capacity := bound))
  }

  // What the lookup section tells the caller to do next.
  datatype Verdict = Hit(meta: Meta) | MustWait(call: CallId) | MustInitialize

  ghost predicate Cached(c: Cache, uid: Uid, hash: Hash) {
    uid in c.entries && c.entries[uid].configHash == hash
  }

  function MoveToFront(recency: seq<Uid>, uid: Uid): seq<Uid> {
    [uid] + Without(recency, uid)
  }

  // The section that starts each round of the retry loop.  `callId` names the call it creates on a miss.
  function LookupSection(c: Cache, uid: Uid, hash: Hash, callId: CallId): (Verdict, Cache) {
    if uid in c.entries && c.entries[uid].configHash == hash then
      (Hit(c.entries[uid].meta),
       c.(recency := MoveToFront(c.recency, uid), metrics := c.metrics.(hits := c.metrics.hits + 1)))
    else if uid in c.inflight then
      (MustWait(c.inflight[uid]), c)
    else
      var counted := if uid in c.entries
                     then c.metrics.(missesChanged := c.metrics.missesChanged + 1)
                     else c.metrics.(missesAbsent := c.metrics.missesAbsent + 1);
      var inflight := c.inflight[uid := callId];
      (MustInitialize, c.(inflight := inflight, metrics := counted.(inflight := |inflight|)))
  }

  function WithoutOldest(c: Cache): Cache
    requires c.recency != []
  {
    var last := |c.recency| - 1;
    c.(entries := c.entries - {c.recency[last]}, recency := c.recency[..last],
       metrics := c.metrics.(evictions := c.metrics.evictions + 1))
  }

  // Drops least recently used entries until the bound is met.
  function EvictOverflow(c: Cache): Cache
    decreases |c.recency|
  {
    if |c.entries| <= c.maxEntries || c.recency == [] then c else EvictOverflow(WithoutOldest(c))
  }

  function Store(c: Cache, uid: Uid, hash: Hash, meta: Meta): Cache {
    var recency := if uid in c.entries then MoveToFront(c.recency, uid) else [uid] + c.recency;
    var evicted := EvictOverflow(c.(entries := c.entries[uid := Entry(hash, meta)], recency := recency));
    evicted.(metrics := evicted.metrics.(entries := |evicted.entries|))
  }

  // The section an initialiser runs once `create` is done.
  function CommitSection(c: Cache, uid: Uid, hash: Hash, outcome: Outcome): Cache {
    var stored := if outcome.err.None? then Store(c, uid, hash, outcome.meta) else c;
    var inflight := stored.inflight - {uid};
    stored.(inflight := inflight, metrics := stored.metrics.(inflight := |inflight|))
  }

  // The recency list names every cached uid exactly once.
  ghost predicate Listed(c: Cache) {
    NoDuplicates(c.recency) && Elements(c.recency) == c.entries.Keys
  }

  ghost predicate WellFormed(c: Cache) {
    Listed(c) && 1 <= c.maxEntries && |c.entries| <= c.maxEntries
  }

  lemma RecencyLength(c: Cache)
    requires Listed(c)
    ensures |c.recency| == |c.entries|
  {
    DistinctLength(c.recency);
  }

  // A lookup keeps the cache well formed and changes no entry.
  lemma LookupKeepsWellFormed(c: Cache, uid: Uid, hash: Hash, callId: CallId)
    requires WellFormed(c)
    ensures WellFormed(LookupSection(c, uid, hash, callId).1)
    ensures LookupSection(c, uid, hash, callId).1.entries == c.entries
  {
    if uid in c.entries && c.entries[uid].configHash == hash {
      WithoutKeepsDistinct(c.recency, uid);
      assert uid in Elements(c.recency);
      assert Elements(MoveToFront(c.recency, uid)) == Elements(c.recency);
    }
  }

  // One entry too many: exactly the last uid of the list goes.
  lemma EvictOne(c: Cache)
    requires Listed(c) && 1 <= c.maxEntries && |c.entries| == c.maxEntries + 1
    ensures c.recency != []
    ensures var last := |c.recency| - 1;
            var oldest := c.recency[last];
            var r := EvictOverflow(c);
            && Listed(r)
            && |r.entries| == c.maxEntries
            && r == WithoutOldest(c)
            && r.entries.Keys == c.entries.Keys - {oldest}
  {
    RecencyLength(c);
    var last := |c.recency| - 1;
    var oldest := c.recency[last];
    var trimmed := WithoutOldest(c);
    assert trimmed.entries.Keys == c.entries.Keys - {oldest};
    assert oldest in Elements(c.recency);
    assert |trimmed.entries.Keys| == |c.entries.Keys| - 1;
    assert c.recency == trimmed.recency + [oldest];
    assert oldest !in trimmed.recency;
    assert Elements(trimmed.recency) == trimmed.entries.Keys;
    assert EvictOverflow(c) == EvictOverflow(trimmed) == trimmed;
  }

  // The state between inserting an entry and evicting.
  function Inserted(c: Cache, uid: Uid, entry: Entry): Cache {
    c.(entries := c.entries[uid := entry], recency := MoveToFront(c.recency, uid))
  }

  // Moving a uid to the front, whether or not it was listed.
  lemma FrontListed(recency: seq<Uid>, uid: Uid)
    requires NoDuplicates(recency)
    ensures NoDuplicates(MoveToFront(recency, uid))
    ensures Elements(MoveToFront(recency, uid)) == Elements(recency) + {uid}
    ensures uid !in recency ==> MoveToFront(recency, uid) == [uid] + recency
  {
    WithoutKeepsDistinct(recency, uid);
  }

  lemma InsertedListed(c: Cache, uid: Uid, entry: Entry)
    requires Listed(c)
    ensures Listed(Inserted(c, uid, entry))
    ensures Inserted(c, uid, entry).entries.Keys == c.entries.Keys + {uid}
    ensures |Inserted(c, uid, entry).entries| == if uid in c.entries then |c.entries| else |c.entries| + 1
    ensures uid !in c.entries ==> MoveToFront(c.recency, uid) == [uid] + c.recency
  {
    FrontListed(c.recency, uid);
    InsertedSize(c.entries, uid, entry);
    assert uid in c.recency <==> uid in Elements(c.recency);
  }

  lemma StoreIsInsertThenEvict(c: Cache, uid: Uid, hash: Hash, meta: Meta)
    requires uid !in c.entries ==> MoveToFront(c.recency, uid) == [uid] + c.recency
    ensures var kept := EvictOverflow(Inserted(c, uid, Entry(hash, meta)));
            Store(c, uid, hash, meta) == kept.(metrics := kept.metrics.(entries := |kept.entries|))
  {
  }

  // The uid that storing `uid` pushes out, if any.
  function Victim(c: Cache, uid: Uid): Option<Uid> {
    if uid in c.entries || |c.entries| < c.maxEntries || c.recency == [] then None
    else Some(c.recency[|c.recency| - 1])
  }

  // Storing without eviction, and storing with it.
  lemma StoreFits(c: Cache, uid: Uid, entry: Entry)
    requires WellFormed(c) && Victim(c, uid).None?
    ensures var full := Inserted(c, uid, entry);
            && WellFormed(full)
            && full.recency == Take(c.maxEntries, full.recency)
            && Store(c, uid, entry.configHash, entry.meta) == full.(metrics := c.metrics.(entries := |full.entries|))
  {
    InsertedListed(c, uid, entry);
    RecencyLength(c);
    RecencyLength(Inserted(c, uid, entry));
  }

  // Inserting a new uid into a full cache makes it one entry too large, with the victim last.
  lemma InsertedIsOverfull(c: Cache, uid: Uid, entry: Entry, victim: Uid)
    requires WellFormed(c) && Victim(c, uid) == Some(victim)
    ensures victim != uid && victim in c.entries
    ensures var full := Inserted(c, uid, entry);
            && Listed(full) && |full.entries| == c.maxEntries + 1 == |full.recency|
            && full.recency == [uid] + c.recency && full.recency[c.maxEntries] == victim
  {
    InsertedListed(c, uid, entry);
    RecencyLength(c);
    RecencyLength(Inserted(c, uid, entry));
    assert victim in Elements(c.recency);
  }

  lemma StoreEvicts(c: Cache, uid: Uid, entry: Entry, victim: Uid)
    requires WellFormed(c) && Victim(c, uid) == Some(victim)
    ensures victim != uid && victim in c.entries
    ensures var full := Inserted(c, uid, entry);
            var r := Store(c, uid, entry.configHash, entry.meta);
            && WellFormed(r)
            && r == full.(entries := full.entries - {victim}, recency := Take(c.maxEntries, full.recency),
                          metrics := c.metrics.(entries := c.maxEntries, evictions := c.metrics.evictions + 1))
            && |r.entries| == c.maxEntries
  {
    InsertedIsOverfull(c, uid, entry, victim);
    var full := Inserted(c, uid, entry);
    EvictOne(full);
    StoreIsInsertThenEvict(c, uid, entry.configHash, entry.meta);
    var kept := EvictOverflow(full);
    assert kept.recency == Take(c.maxEntries, full.recency);
    assert kept.entries == full.entries - {victim} && kept.metrics == c.metrics.(evictions := c.metrics.evictions + 1);
  }

  // What a successful commit leaves behind: the new entry in front, followed by the old order cut to
  // the bound.  At most one uid loses its entry: the least recently used one, and never `uid` itself.
  lemma StoreEffect(c: Cache, uid: Uid, hash: Hash, meta: Meta)
    requires WellFormed(c)
    ensures var r := Store(c, uid, hash, meta);
            && WellFormed(r)
            && r.maxEntries == c.maxEntries && r.inflight == c.inflight
            && r.recency == Take(c.maxEntries, MoveToFront(c.recency, uid))
            && match Victim(c, uid)
               case None =>
                 && r.entries == c.entries[uid := Entry(hash, meta)]
                 && r.metrics == c.metrics.(entries := |r.entries|)
               case Some(victim) =>
                 && victim != uid && victim in c.entries
                 && r.entries == c.entries[uid := Entry(hash, meta)] - {victim}
                 && r.metrics == c.metrics.(entries := |r.entries|, evictions := c.metrics.evictions + 1)
  {
    match Victim(c, uid)
    case None => StoreFits(c, uid, Entry(hash, meta));
    case Some(victim) => StoreEvicts(c, uid, Entry(hash, meta), victim);
  }
}
