// The concurrent cache refines an atomic least-recently-used cache.
module CacheLru {
  import opened Collections
  import opened CacheState
  import opened CacheProtocol
  import opened CacheInvariants

  // The reference: one list of slots, most recently used first, with two atomic operations.
  datatype Slot = Slot(uid: Uid, hash: Hash, meta: Meta)
  type Lru = seq<Slot>

  datatype LruOp = Get(uid: Uid, hash: Hash) | Put(uid: Uid, hash: Hash, meta: Meta)

  function Find(l: Lru, uid: Uid): Option<Slot> {
    if l == [] then None else if l[0].uid == uid then Some(l[0]) else Find(l[1..], uid)
  }

  function WithoutUid(l: Lru, uid: Uid): Lru {
    if l == [] then []
    else if l[0].uid == uid then WithoutUid(l[1..], uid)
    else [l[0]] + WithoutUid(l[1..], uid)
  }

  function Perform(max: nat, l: Lru, op: LruOp): Lru {
    match op
    case Get(uid, hash) =>
      (match Find(l, uid)
       case Some(slot) => if slot.hash == hash then [slot] + WithoutUid(l, uid) else l
       case None => l)
    case Put(uid, hash, meta) => Take(max, [Slot(uid, hash, meta)] + WithoutUid(l, uid))
  }

  function Replay(max: nat, ops: seq<LruOp>): Lru {
    if ops == [] then [] else Perform(max, Replay(max, ops[..|ops| - 1]), ops[|ops| - 1])
  }

  // The abstract value of a cache.
  ghost function Slots(recency: seq<Uid>, entries: map<Uid, Entry>): Lru
    requires forall u | u in recency :: u in entries
  {
    if recency == [] then []
    else [Slot(recency[0], entries[recency[0]].configHash, entries[recency[0]].meta)] + Slots(recency[1..], entries)
  }

  ghost function Abstract(c: Cache): Lru
    requires WellFormed(c)
  {
    assert forall u | u in c.recency :: u in Elements(c.recency);
    Slots(c.recency, c.entries)
  }

  lemma {:induction false} SlotsFrame(recency: seq<Uid>, e1: map<Uid, Entry>, e2: map<Uid, Entry>)
    requires forall u | u in recency :: u in e1 && u in e2 && e1[u] == e2[u]
    ensures Slots(recency, e1) == Slots(recency, e2)
  {
    if recency != [] {
      SlotsFrame(recency[1..], e1, e2);
    }
  }

  lemma {:induction false} SlotsWithout(recency: seq<Uid>, entries: map<Uid, Entry>, uid: Uid)
    requires forall u | u in recency :: u in entries
    ensures Slots(Without(recency, uid), entries) == WithoutUid(Slots(recency, entries), uid)
  {
    if recency != [] {
      SlotsWithout(recency[1..], entries, uid);
    }
  }

  lemma {:induction false} SlotsTake(n: nat, recency: seq<Uid>, entries: map<Uid, Entry>)
    requires forall u | u in recency :: u in entries
    ensures |Slots(recency, entries)| == |recency|
    ensures Slots(Take(n, recency), entries) == Take(n, Slots(recency, entries))
  {
    if recency != [] {
      SlotsTake(if n == 0 then 0 else n - 1, recency[1..], entries);
      if 0 < n < |recency| {
        assert recency[..n][1..] == recency[1..][..n - 1];
      }
    }
  }

  lemma {:induction false} SlotsFind(recency: seq<Uid>, entries: map<Uid, Entry>, uid: Uid)
    requires forall u | u in recency :: u in entries
    ensures Find(Slots(recency, entries), uid)
            == if uid in recency then Some(Slot(uid, entries[uid].configHash, entries[uid].meta)) else None
  {
    if recency != [] {
      SlotsFind(recency[1..], entries, uid);
    }
  }

  lemma HitRefines(c: Cache, uid: Uid)
    requires WellFormed(c) && uid in c.entries
    ensures Elements(MoveToFront(c.recency, uid)) == c.entries.Keys
    ensures Slots(MoveToFront(c.recency, uid), c.entries)
            == [Slot(uid, c.entries[uid].configHash, c.entries[uid].meta)] + WithoutUid(Abstract(c), uid)
  {
    var order := MoveToFront(c.recency, uid);
    assert uid in Elements(c.recency);
    assert forall u | u in c.recency :: u in Elements(c.recency);
    assert order[1..] == Without(c.recency, uid);
    SlotsWithout(c.recency, c.entries, uid);
  }

  // The abstract cache answers a request like the entries do.
  lemma FindRefines(c: Cache, uid: Uid)
    requires WellFormed(c)
    ensures Find(Abstract(c), uid)
            == if uid in c.entries then Some(Slot(uid, c.entries[uid].configHash, c.entries[uid].meta)) else None
  {
    assert forall u :: u in c.recency <==> u in Elements(c.recency);
    SlotsFind(c.recency, c.entries, uid);
  }

  lemma HitIsGet(c: Cache, uid: Uid, hash: Hash)
    requires WellFormed(c) && Cached(c, uid, hash)
    ensures Perform(c.maxEntries, Abstract(c), Get(uid, hash))
            == [Slot(uid, hash, c.entries[uid].meta)] + WithoutUid(Abstract(c), uid)
  {
    FindRefines(c, uid);
  }

  lemma MissIsGet(c: Cache, uid: Uid, hash: Hash)
    requires WellFormed(c) && !Cached(c, uid, hash)
    ensures Perform(c.maxEntries, Abstract(c), Get(uid, hash)) == Abstract(c)
  {
    FindRefines(c, uid);
  }

  // A lookup is an abstract Get, and answers with what the abstract cache holds.
  lemma LookupRefines(c: Cache, uid: Uid, hash: Hash, call: CallId)
    requires WellFormed(c)
    ensures var r := LookupSection(c, uid, hash, call);
            && WellFormed(r.1)
            && Abstract(r.1) == Perform(c.maxEntries, Abstract(c), Get(uid, hash))
            && (if Find(Abstract(c), uid).Some? && Find(Abstract(c), uid).value.hash == hash
                then r.0 == Hit(Find(Abstract(c), uid).value.meta)
                else !r.0.Hit?)
  {
    LookupKeepsWellFormed(c, uid, hash, call);
    var r := LookupSection(c, uid, hash, call);
    if Cached(c, uid, hash) {
      HitRefines(c, uid);
      HitIsGet(c, uid, hash);
    } else {
      MissIsGet(c, uid, hash);
      assert r.1.recency == c.recency && r.1.entries == c.entries;
    }
    FindRefines(c, uid);
  }

  lemma FrontRefines(c: Cache, uid: Uid, full: map<Uid, Entry>)
    requires WellFormed(c) && uid in full
    requires forall u | u in c.entries && u != uid :: u in full && full[u] == c.entries[u]
    ensures forall u | u in MoveToFront(c.recency, uid) :: u in full
    ensures Slots(MoveToFront(c.recency, uid), full)
            == [Slot(uid, full[uid].configHash, full[uid].meta)] + WithoutUid(Abstract(c), uid)
  {
    var rest := Without(c.recency, uid);
    assert forall u | u in c.recency :: u in Elements(c.recency);
    assert MoveToFront(c.recency, uid)[1..] == rest;
    SlotsFrame(rest, c.entries, full);
    SlotsWithout(c.recency, c.entries, uid);
  }

  lemma KeptEntries(c: Cache, uid: Uid, hash: Hash, meta: Meta)
    requires WellFormed(c)
    ensures var r, full := Store(c, uid, hash, meta), c.entries[uid := Entry(hash, meta)];
            && WellFormed(r) && r.recency == Take(c.maxEntries, MoveToFront(c.recency, uid))
            && forall u | u in r.recency :: u in r.entries && u in full && r.entries[u] == full[u]
  {
    StoreEffect(c, uid, hash, meta);
    var r := Store(c, uid, hash, meta);
    assert forall u | u in r.recency :: u in Elements(r.recency);
  }

  lemma PutRefines(c: Cache, uid: Uid, hash: Hash, meta: Meta, r: Cache)
    requires WellFormed(c) && WellFormed(r) && r.recency == Take(c.maxEntries, MoveToFront(c.recency, uid))
    requires var full := c.entries[uid := Entry(hash, meta)];
             forall u | u in r.recency :: u in r.entries && u in full && r.entries[u] == full[u]
    ensures Abstract(r) == Perform(c.maxEntries, Abstract(c), Put(uid, hash, meta))
  {
    var full := c.entries[uid := Entry(hash, meta)];
    FrontRefines(c, uid, full);
    SlotsTake(c.maxEntries, MoveToFront(c.recency, uid), full);
    SlotsFrame(r.recency, r.entries, full);
  }

  // A successful commit is an abstract Put.
  lemma StoreRefines(c: Cache, uid: Uid, hash: Hash, meta: Meta)
    requires WellFormed(c)
    ensures var r := Store(c, uid, hash, meta);
            WellFormed(r) && Abstract(r) == Perform(c.maxEntries, Abstract(c), Put(uid, hash, meta))
  {
    KeptEntries(c, uid, hash, meta);
    PutRefines(c, uid, hash, meta, Store(c, uid, hash, meta));
  }

  // The atomic operation that step `n` performs, if any.
  ghost function Effect(s: State, e: Event): Option<LruOp>
    requires Enabled(s, e)
  {
    match e
    case Lookup(i) => Some(Get(s.callers[i].uid, s.callers[i].hash))
    case Commit(i) =>
      var outcome := s.calls[s.callers[i].pc.call].outcome;
      if outcome.err.None? then Some(Put(s.callers[i].uid, s.callers[i].hash, outcome.meta)) else None
    case _ => None
  }

  lemma StepRefines(s: State, e: Event)
    requires WellFormed(s.cache) && Enabled(s, e)
    ensures var t := Step(s, e);
            && WellFormed(t.cache) && t.cache.maxEntries == s.cache.maxEntries
            && Abstract(t.cache) == match Effect(s, e)
                                    case Some(op) => Perform(s.cache.maxEntries, Abstract(s.cache), op)
                                    case None => Abstract(s.cache)
  {
    match e
    case Lookup(i) => LookupRefines(s.cache, s.callers[i].uid, s.callers[i].hash, |s.calls|);
    case Commit(i) =>
      var outcome := s.calls[s.callers[i].pc.call].outcome;
      if outcome.err.None? {
        StoreRefines(s.cache, s.callers[i].uid, s.callers[i].hash, outcome.meta);
        StoreEffect(s.cache, s.callers[i].uid, s.callers[i].hash, outcome.meta);
      }
    case _ =>
  }

  // The atomic operations of the first `n` steps, in order.
  ghost function History(r: Run, n: nat): seq<LruOp>
    requires IsRun(r) && n < |r.states|
  {
    if n == 0 then []
    else
      RunStep(r, n - 1);
      match Effect(r.states[n - 1], r.events[n - 1])
      case Some(op) => History(r, n - 1) + [op]
      case None => History(r, n - 1)
  }

  // One more step of the run is one more operation at most on the reference.
  lemma HistoryStep(r: Run, n: nat)
    requires IsRun(r) && n < |r.events| && WellFormed(r.states[n].cache)
    requires Abstract(r.states[n].cache) == Replay(r.states[n].cache.maxEntries, History(r, n))
    ensures WellFormed(r.states[n + 1].cache) && r.states[n + 1].cache.maxEntries == r.states[n].cache.maxEntries
    ensures Abstract(r.states[n + 1].cache) == Replay(r.states[n].cache.maxEntries, History(r, n + 1))
  {
    RunStep(r, n);
    var s, e := r.states[n], r.events[n];
    StepRefines(s, e);
    if Effect(s, e).Some? {
      var before := History(r, n);
      assert (before + [Effect(s, e).value])[..|before|] == before;
    }
  }

  // Refinement: at every point of every run the cache is what the atomic LRU cache would be after the same
  // lookups and successful commits, and it lists exactly the cached uids.
  lemma {:induction false} RefinesLru(r: Run, n: nat)
    requires IsRun(r) && n < |r.states|
    ensures var c := r.states[n].cache;
            && c.maxEntries == (if r.maxEntries < 1 then 1 else r.maxEntries)
            && WellFormed(c)
            && Abstract(c) == Replay(c.maxEntries, History(r, n))
  {
    if n > 0 {
      RefinesLru(r, n - 1);
      HistoryStep(r, n - 1);
    }
  }

  // Recency in terms of time.

  // The uid that step `n` touches: the one of a hit or of a successful commit.
  ghost function Touched(r: Run, n: nat): Option<Uid>
    requires IsRun(r) && n < |r.events|
  {
    var s, e := r.states[n], r.events[n];
    RunStep(r, n);
    match e
    case Lookup(i) => if Cached(s.cache, s.callers[i].uid, s.callers[i].hash) then Some(s.callers[i].uid) else None
    case Commit(i) => if s.calls[s.callers[i].pc.call].outcome.err.None? then Some(s.callers[i].uid) else None
    case _ => None
  }

  // One more than the last of the first `n` steps that touched `uid`; 0 when none did.
  ghost function LastTouch(r: Run, n: nat, uid: Uid): nat
    requires IsRun(r) && n < |r.states|
  {
    if n == 0 then 0 else if Touched(r, n - 1) == Some(uid) then n else LastTouch(r, n - 1, uid)
  }

  // Distinct uids by last touch, newest first.
  ghost predicate NewestFirst(r: Run, n: nat, order: seq<Uid>)
    requires IsRun(r) && n < |r.states|
  {
    && (forall i, j | 0 <= i < j < |order| :: LastTouch(r, n, order[i]) > LastTouch(r, n, order[j]))
    && (forall u :: u in order <==> LastTouch(r, n, u) > 0)
  }

  ghost function TouchOrder(r: Run, n: nat): seq<Uid>
    requires IsRun(r) && n < |r.states|
  {
    if n == 0 then []
    else match Touched(r, n - 1)
         case Some(u) => MoveToFront(TouchOrder(r, n - 1), u)
         case None => TouchOrder(r, n - 1)
  }

  lemma {:induction false} LastTouchBound(r: Run, n: nat, uid: Uid)
    requires IsRun(r) && n < |r.states|
    ensures LastTouch(r, n, uid) <= n
  {
    if n > 0 {
      LastTouchBound(r, n - 1, uid);
    }
  }

  ghost predicate Decreasing(s: seq<Uid>, time: Uid -> int) {
    forall i, j | 0 <= i < j < |s| :: time(s[i]) > time(s[j])
  }

  // Removing an element keeps the relative order of the others.
  lemma {:induction false} WithoutKeepsOrder(s: seq<Uid>, x: Uid, time: Uid -> int)
    requires Decreasing(s, time)
    ensures Decreasing(Without(s, x), time)
  {
    if s != [] {
      assert Decreasing(s[1..], time);
      WithoutKeepsOrder(s[1..], x, time);
      PrependKeepsOrder(s, Without(s[1..], x), time);
    }
  }

  lemma PrependKeepsOrder(s: seq<Uid>, w: seq<Uid>, time: Uid -> int)
    requires s != [] && Decreasing(s, time) && Decreasing(w, time)
    requires forall u | u in w :: u in s[1..]
    ensures Decreasing([s[0]] + w, time)
  {
    forall j | 0 <= j < |w|
      ensures time(s[0]) > time(w[j])
    {
      assert w[j] in s[1..];
      var m :| 1 <= m < |s| && s[m] == w[j];
    }
  }

  // Moving an element to the front puts it where its new, latest time belongs.
  lemma FrontKeepsOrder(before: seq<Uid>, x: Uid, time: Uid -> int, later: Uid -> int)
    requires Decreasing(before, time)
    requires forall u :: if u == x then later(u) > time(u) else later(u) == time(u) < later(x)
    ensures Decreasing(MoveToFront(before, x), later)
  {
    var rest := Without(before, x);
    WithoutKeepsOrder(before, x, time);
    forall i, j | 0 <= i < j < |rest|
      ensures later(rest[i]) > later(rest[j])
    {
      assert time(rest[i]) > time(rest[j]);
      assert rest[i] in rest && rest[j] in rest;
    }
    forall j | 0 <= j < |rest|
      ensures later(x) > later(rest[j])
    {
      assert rest[j] in rest;
    }
  }

  lemma LastTouchStep(r: Run, n: nat, x: Uid, u: Uid)
    requires IsRun(r) && n < |r.events| && Touched(r, n) == Some(x)
    ensures LastTouch(r, n, u) <= n
    ensures LastTouch(r, n + 1, u) == if u == x then n + 1 else LastTouch(r, n, u)
  {
    LastTouchBound(r, n, u);
  }

  lemma TouchKeepsNewestFirst(r: Run, n: nat, before: seq<Uid>, x: Uid)
    requires IsRun(r) && n < |r.events| && Touched(r, n) == Some(x)
    requires NewestFirst(r, n, before)
    ensures NewestFirst(r, n + 1, MoveToFront(before, x))
  {
    var time: Uid -> int, later: Uid -> int := u => LastTouch(r, n, u), u => LastTouch(r, n + 1, u);
    assert Decreasing(before, time);
    forall u
      ensures time(u) <= n && later(u) == if u == x then n + 1 else time(u)
    {
      LastTouchStep(r, n, x, u);
    }
    FrontKeepsOrder(before, x, time, later);
    var after := MoveToFront(before, x);
    forall i, j | 0 <= i < j < |after|
      ensures LastTouch(r, n + 1, after[i]) > LastTouch(r, n + 1, after[j])
    {
      assert later(after[i]) > later(after[j]);
    }
    forall u
      ensures u in after <==> LastTouch(r, n + 1, u) > 0
    {
      LastTouchStep(r, n, x, u);
      assert u in after <==> u == x || u in Without(before, x);
    }
  }

  lemma NoTouchKeepsNewestFirst(r: Run, n: nat, order: seq<Uid>)
    requires IsRun(r) && n < |r.events| && Touched(r, n).None? && NewestFirst(r, n, order)
    ensures NewestFirst(r, n + 1, order)
  {
    forall u
      ensures LastTouch(r, n + 1, u) == LastTouch(r, n, u)
    {
    }
  }

  lemma {:induction false} TouchOrderIsNewestFirst(r: Run, n: nat)
    requires IsRun(r) && n < |r.states|
    ensures NewestFirst(r, n, TouchOrder(r, n))
  {
    if n > 0 {
      TouchOrderIsNewestFirst(r, n - 1);
      match Touched(r, n - 1)
      case None => NoTouchKeepsNewestFirst(r, n - 1, TouchOrder(r, n - 1));
      case Some(x) => TouchKeepsNewestFirst(r, n - 1, TouchOrder(r, n - 1), x);
    }
  }

  // Cutting before or after moving an element to the front makes no difference.
  lemma TakeWithout(n: nat, s: seq<Uid>, x: Uid)
    requires NoDuplicates(s)
    ensures Take(n, [x] + Without(s, x)) == Take(n, [x] + Without(Take(n, s), x))
  {
    if n < |s| {
      var kept, cut := s[..n], s[n..];
      assert s == kept + cut;
      WithoutAppend(kept, cut, x);
      WithoutKeepsDistinct(kept, x);
      var w := Without(kept, x);
      assert x in kept ==> x !in cut;
      PrefixOfTake(n, x, w, Without(cut, x));
    }
  }

  lemma PrefixOfTake(n: nat, x: Uid, w: seq<Uid>, rest: seq<Uid>)
    requires n - 1 <= |w| <= n
    ensures Take(n, [x] + (w + rest)) == Take(n, [x] + w)
  {
  }

  // A step moves the uid it touches to the front and cuts to the bound; other steps keep the list.
  lemma StepTouches(r: Run, n: nat)
    requires IsRun(r) && n < |r.events|
    ensures var c, d := r.states[n].cache, r.states[n + 1].cache;
            && d.maxEntries == c.maxEntries
            && d.recency == match Touched(r, n)
                            case Some(u) => Take(c.maxEntries, MoveToFront(c.recency, u))
                            case None => c.recency
  {
    InvHolds(r, n);
    var s, e := r.states[n], r.events[n];
    RunStep(r, n);
    if Touched(r, n).Some? {
      var u := Touched(r, n).value;
      if e.Commit? {
        StoreEffect(s.cache, u, s.callers[e.caller].hash, s.calls[s.callers[e.caller].pc.call].outcome.meta);
      } else {
        HitKeepsLength(s.cache, u);
      }
    }
  }

  lemma TouchOrderStep(r: Run, n: nat, max: nat)
    requires IsRun(r) && n < |r.events| && NoDuplicates(TouchOrder(r, n))
    ensures NoDuplicates(TouchOrder(r, n + 1))
    ensures Take(max, TouchOrder(r, n + 1)) == match Touched(r, n)
                                               case Some(u) => Take(max, MoveToFront(Take(max, TouchOrder(r, n)), u))
                                               case None => Take(max, TouchOrder(r, n))
  {
    if Touched(r, n).Some? {
      WithoutKeepsDistinct(TouchOrder(r, n), Touched(r, n).value);
      TakeWithout(max, TouchOrder(r, n), Touched(r, n).value);
    }
  }

  ghost predicate InTouchOrder(r: Run, n: nat)
    requires IsRun(r) && n < |r.states|
  {
    && r.states[n].cache.maxEntries == (if r.maxEntries < 1 then 1 else r.maxEntries)
    && NoDuplicates(TouchOrder(r, n))
    && r.states[n].cache.recency == Take(r.states[n].cache.maxEntries, TouchOrder(r, n))
  }

  lemma StepKeepsTouchOrder(r: Run, n: nat)
    requires IsRun(r) && n < |r.events| && InTouchOrder(r, n)
    ensures InTouchOrder(r, n + 1)
  {
    StepTouches(r, n);
    TouchOrderStep(r, n, r.states[n].cache.maxEntries);
  }

  lemma {:induction false} RecencyIsTouchOrder(r: Run, n: nat)
    requires IsRun(r) && n < |r.states|
    ensures InTouchOrder(r, n)
  {
    if n > 0 {
      RecencyIsTouchOrder(r, n - 1);
      StepKeepsTouchOrder(r, n - 1);
    }
  }

  lemma HitKeepsLength(c: Cache, u: Uid)
    requires WellFormed(c) && u in c.entries
    ensures MoveToFront(c.recency, u) == Take(c.maxEntries, MoveToFront(c.recency, u))
  {
    WithoutKeepsDistinct(c.recency, u);
    RecencyLength(c);
    assert u in Elements(c.recency);
  }

  // At every point of every run, the recency list is the list of all uids ever touched, newest touch first,
  // cut to the number of entries asked for, or to one entry if that is less than one.
  lemma RecencyIsNewestFirst(r: Run, n: nat)
    requires IsRun(r) && n < |r.states|
    ensures exists order :: NewestFirst(r, n, order)
              && r.states[n].cache.recency == Take(if r.maxEntries < 1 then 1 else r.maxEntries, order)
  {
    RecencyIsTouchOrder(r, n);
    TouchOrderIsNewestFirst(r, n);
  }
}
