// How many entries a cache keeps, and when it begins to evict.
module CacheBounds {
  import opened Collections
  import opened CacheState
  import opened CacheProtocol
  import opened CacheInvariants
  import opened CacheCounters
  import opened CacheLru

  // In every run the bound and its gauge are what the cache was made with, but at least one.
  lemma CapacityIsAsAsked(r: Run, n: nat)
    requires IsRun(r) && n < |r.states|
    ensures var c := r.states[n].cache;
            c.maxEntries == c.metrics.capacity == (if r.maxEntries < 1 then 1 else r.maxEntries)
            && |c.entries| <= c.maxEntries
  {
    RecencyIsTouchOrder(r, n);
    CountersHold(r, n);
    InvHolds(r, n);
  }

  // A uid that is touched for the first time is a new key, unless it was touched before.
  lemma NewTouchAddsKey(r: Run, n: nat)
    requires IsRun(r) && n < |r.events|
    ensures |TouchOrder(r, n + 1)| <= |TouchOrder(r, n)| + if AddsKey(r, n) then 1 else 0
  {
    RecencyIsTouchOrder(r, n);
    InvHolds(r, n);
    var c, order := r.states[n].cache, TouchOrder(r, n);
    match Touched(r, n)
    case None =>
    case Some(u) =>
      WithoutKeepsDistinct(order, u);
      if !AddsKey(r, n) {
        RunStep(r, n);
        assert u in Elements(c.recency) && c.recency == Take(c.maxEntries, order);
        assert u in order;
      }
  }

  lemma {:induction false} TouchedKeysWereAdded(r: Run, n: nat)
    requires IsRun(r) && n < |r.states|
    ensures |TouchOrder(r, n)| <= KeysAdded(r, n)
  {
    if n > 0 {
      TouchedKeysWereAdded(r, n - 1);
      NewTouchAddsKey(r, n - 1);
      assert KeysAdded(r, n) == KeysAdded(r, n - 1) + if AddsKey(r, n - 1) then 1 else 0;
    }
  }

  // While no more uids have been touched than fit, a new key was never touched before.
  lemma AddedKeyIsNew(r: Run, n: nat)
    requires IsRun(r) && n < |r.events| && |TouchOrder(r, n + 1)| <= r.states[n].cache.maxEntries
    ensures |TouchOrder(r, n + 1)| >= |TouchOrder(r, n)| + if AddsKey(r, n) then 1 else 0
  {
    RecencyIsTouchOrder(r, n);
    InvHolds(r, n);
    var c, order := r.states[n].cache, TouchOrder(r, n);
    match Touched(r, n)
    case None =>
    case Some(u) =>
      WithoutKeepsDistinct(order, u);
      if AddsKey(r, n) {
        assert u !in Elements(c.recency);
        assert |order| <= c.maxEntries && c.recency == order;
        assert u !in order;
      }
  }

  lemma {:induction false} AddedKeysWereTouched(r: Run, n: nat)
    requires IsRun(r) && n < |r.states| && |TouchOrder(r, n)| <= r.states[n].cache.maxEntries
    ensures KeysAdded(r, n) <= |TouchOrder(r, n)|
  {
    if n > 0 {
      RecencyIsTouchOrder(r, n - 1);
      RecencyIsTouchOrder(r, n);
      AddedKeyIsNew(r, n - 1);
      AddedKeysWereTouched(r, n - 1);
    }
  }

  // The cache evicts exactly when more uids have been touched than it was made for; until then it keeps them all.
  lemma EvictsOnlyOverflow(r: Run, n: nat) returns (touched: seq<Uid>)
    requires IsRun(r) && n < |r.states|
    ensures NewestFirst(r, n, touched)
    ensures var c, bound := r.states[n].cache, if r.maxEntries < 1 then 1 else r.maxEntries;
            && (c.metrics.evictions == 0 <==> |touched| <= bound)
            && (|touched| <= bound ==> c.recency == touched && c.entries.Keys == Elements(touched))
  {
    touched := TouchOrder(r, n);
    TouchOrderIsNewestFirst(r, n);
    RecencyIsTouchOrder(r, n);
    InvHolds(r, n);
    EntriesConserved(r, n);
    TouchedKeysWereAdded(r, n);
    RecencyLength(r.states[n].cache);
    if |touched| <= r.states[n].cache.maxEntries {
      AddedKeysWereTouched(r, n);
    }
  }
}
