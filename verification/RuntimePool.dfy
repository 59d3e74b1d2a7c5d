/**
 The two runtime pools: lookups that reuse, evict and insert, first as a step machine over
 any interleaving of lookups and sessions, then as the object that holds the pools.
 */
module RuntimePool {
  import opened Wrappers
  import opened PoolEviction

  // The pools in insertion order, the next runtime identity, and the clock.
  datatype Pools = Pools(direct: seq<Entry>, proxied: seq<Entry>, nextId: nat, now: int)

  datatype Limits = Limits(idleTtl: int, maxEntries: int)

  function Ttl(l: Limits): nat { if l.idleTtl < 0 then 0 else l.idleTtl }

  function MaxEntries(l: Limits): nat { if l.maxEntries < 1 then 1 else l.maxEntries }

  function All(p: Pools): seq<Entry> { p.direct + p.proxied }

  function Touched(es: seq<Entry>, k: Key, now: int): seq<Entry> {
    seq(|es|, i requires 0 <= i < |es| => if es[i].key == k then es[i].(rt := es[i].rt.(lastUsed := now)) else es[i])
  }

  function Touch(p: Pools, k: Key): Pools {
    p.(direct := Touched(p.direct, k, p.now), proxied := Touched(p.proxied, k, p.now))
  }

  // Sessions of the runtime come or go; one that comes touches it.
  function SetBusy(es: seq<Entry>, k: Key, busy: nat, touched: Option<int>): seq<Entry> {
    seq(|es|, i requires 0 <= i < |es| =>
      if es[i].key == k then es[i].(rt := WithSessions(es[i].rt, busy, touched)) else es[i])
  }

  function WithSessions(r: Runtime, busy: nat, touched: Option<int>): Runtime {
    r.(busy := busy, lastUsed := if touched.Some? then touched.value else r.lastUsed)
  }

  function Victims(p: Pools, l: Limits): seq<Entry> { Select(All(p), p.now, Ttl(l), MaxEntries(l)) }

  function Evict(p: Pools, l: Limits): Pools {
    var c := Victims(p, l);
    p.(direct := DropKeys(p.direct, c), proxied := DropKeys(p.proxied, c))
  }

  function Insert(p: Pools, k: Key): Pools {
    var e := Entry(k, Runtime(p.nextId, 0, p.now));
    if k.DirectKey? then p.(direct := p.direct + [e], nextId := p.nextId + 1)
    else p.(proxied := p.proxied + [e], nextId := p.nextId + 1)
  }

  function PoolOf(p: Pools, k: Key): seq<Entry> { if k.DirectKey? then p.direct else p.proxied }

  // The first, unlocked test: reuse or change nothing.
  function FindFast(p: Pools, k: Key): Pools { if HasKey(PoolOf(p, k), k) then Touch(p, k) else p }

  // Under the pool lock: test again, and on a miss evict and insert.
  function FindLocked(p: Pools, k: Key, l: Limits): Pools {
    if HasKey(PoolOf(p, k), k) then Touch(p, k) else Touch(Insert(Evict(p, l), k), k)
  }

  // pool.get
  function Lookup(es: seq<Entry>, k: Key): Option<Runtime> {
    if es == [] then None else if es[0].key == k then Some(es[0].rt) else Lookup(es[1..], k)
  }

  // What the unlocked test returns: the runtime it found and touched, if any.
  function FastAnswer(p: Pools, k: Key): Option<Runtime> {
    match Lookup(PoolOf(p, k), k)
    case None => None
    case Some(r) => Some(r.(lastUsed := p.now))
  }

  // What a lookup under the lock returns: the runtime it found, or a new one, touched.
  function LockedAnswer(p: Pools, k: Key): Runtime {
    match Lookup(PoolOf(p, k), k)
    case None => Runtime(p.nextId, 0, p.now)
    case Some(r) => r.(lastUsed := p.now)
  }

  datatype Event =
    | Fast(key: Key)
    | Locked(key: Key)
    | Sessions(key: Key, busy: nat, comes: bool)
    | Tick(elapsed: nat)
    | Shutdown

  function Step(p: Pools, l: Limits, e: Event): Pools {
    match e
    case Fast(k) => FindFast(p, k)
    case Locked(k) => FindLocked(p, k, l)
    case Sessions(k, busy, comes) =>
      var touched := if comes then Some(p.now) else None;
      p.(direct := SetBusy(p.direct, k, busy, touched), proxied := SetBusy(p.proxied, k, busy, touched))
    case Tick(elapsed) => p.(now := p.now + elapsed)
    case Shutdown => p.(direct := [], proxied := [])
  }

  function Run(p: Pools, l: Limits, events: seq<Event>): Pools
    decreases |events|
  {
    if events == [] then p else Run(Step(p, l, events[0]), l, events[1..])
  }

  // Each key has one entry in its own pool, each runtime one key, and identities are fresh.
  predicate PoolsOk(p: Pools) {
    && UniqueKeys(All(p))
    && (forall e :: e in p.direct ==> e.key.DirectKey?) && (forall e :: e in p.proxied ==> e.key.ProxiedKey?)
    && (forall e :: e in All(p) ==> e.rt.id < p.nextId)
    && (forall a, b :: a in All(p) && b in All(p) && a.rt.id == b.rt.id ==> a.key == b.key)
  }

  // Same keys and identities, position by position.
  predicate SameIdentities(es: seq<Entry>, fs: seq<Entry>) {
    |es| == |fs| && forall i :: 0 <= i < |es| ==> es[i].key == fs[i].key && es[i].rt.id == fs[i].rt.id
  }

  lemma SameConcat(a: seq<Entry>, b: seq<Entry>, c: seq<Entry>, d: seq<Entry>)
    requires SameIdentities(a, c) && SameIdentities(b, d)
    ensures SameIdentities(a + b, c + d)
  {
  }

  // An entry of the second sequence has its counterpart in the first.
  lemma Counterpart(es: seq<Entry>, fs: seq<Entry>, f: Entry) returns (e: Entry)
    requires SameIdentities(es, fs) && f in fs
    ensures e in es && e.key == f.key && e.rt.id == f.rt.id
  {
    var i :| 0 <= i < |fs| && fs[i] == f;
    e := es[i];
  }

  lemma SameIdentitiesOk(p: Pools, q: Pools)
    requires PoolsOk(p) && SameIdentities(p.direct, q.direct) && SameIdentities(p.proxied, q.proxied) &&
      p.nextId == q.nextId
    ensures PoolsOk(q)
  {
    var es, fs := All(p), All(q);
    SameConcat(p.direct, p.proxied, q.direct, q.proxied);
    forall f | f in fs ensures f.rt.id < q.nextId { var e := Counterpart(es, fs, f); }
    forall f, g | f in fs && g in fs && f.rt.id == g.rt.id ensures f.key == g.key {
      var e := Counterpart(es, fs, f);
      var d := Counterpart(es, fs, g);
    }
    forall f | f in q.direct ensures f.key.DirectKey? { var e := Counterpart(p.direct, q.direct, f); }
    forall f | f in q.proxied ensures f.key.ProxiedKey? { var e := Counterpart(p.proxied, q.proxied, f); }
  }

  lemma {:induction false} DropKeyConcat(a: seq<Entry>, b: seq<Entry>, k: Key)
    ensures DropKey(a + b, k) == DropKey(a, k) + DropKey(b, k)
  {
    if a == [] {
      assert a + b == b;
    } else {
      assert (a + b)[1..] == a[1..] + b;
      DropKeyConcat(a[1..], b, k);
    }
  }

  lemma {:induction false} DropKeysConcat(a: seq<Entry>, b: seq<Entry>, gone: seq<Entry>)
    ensures DropKeys(a + b, gone) == DropKeys(a, gone) + DropKeys(b, gone)
    decreases |gone|
  {
    if gone != [] {
      DropKeyConcat(a, b, gone[0].key);
      DropKeysConcat(DropKey(a, gone[0].key), DropKey(b, gone[0].key), gone[1..]);
    }
  }

  lemma EvictOk(p: Pools, l: Limits)
    requires PoolsOk(p)
    ensures PoolsOk(Evict(p, l)) && All(Evict(p, l)) == DropKeys(All(p), Victims(p, l))
    ensures forall e :: e in All(Evict(p, l)) ==> e in All(p)
  {
    var c := Victims(p, l);
    EvictionIsExact(All(p), p.now, Ttl(l), MaxEntries(l));
    DropKeysConcat(p.direct, p.proxied, c);
    forall e ensures e in DropKeys(p.direct, c) ==> e in p.direct { DropKeysMember(p.direct, c, e); }
    forall e ensures e in DropKeys(p.proxied, c) ==> e in p.proxied { DropKeysMember(p.proxied, c, e); }
    forall e ensures e in All(Evict(p, l)) ==> e in All(p) { DropKeysMember(All(p), c, e); }
  }

  lemma InsertOk(p: Pools, k: Key)
    requires PoolsOk(p) && !HasKey(PoolOf(p, k), k)
    ensures PoolsOk(Insert(p, k))
  {
    var q := Insert(p, k);
    var e := Entry(k, Runtime(p.nextId, 0, p.now));
    assert !HasKey(All(p), k);
    forall x ensures x in All(q) <==> x in All(p) || x == e {}
    if k.DirectKey? {
      assert All(q) == p.direct + [e] + p.proxied;
    } else {
      assert All(q) == All(p) + [e];
    }
    InsertUnique(p.direct, p.proxied, e);
  }

  lemma InsertUnique(a: seq<Entry>, b: seq<Entry>, e: Entry)
    requires UniqueKeys(a + b) && !HasKey(a + b, e.key)
    ensures UniqueKeys(a + [e] + b) && UniqueKeys(a + b + [e])
  {
    var es, m, n := a + b, a + [e] + b, |a|;
    forall i | 0 <= i < |es| ensures es[i].key != e.key { assert es[i] in es; }
    forall i, j | 0 <= i < j < |m| ensures m[i].key != m[j].key {
      assert m[i] == if i < n then es[i] else if i == n then e else es[i - 1];
      assert m[j] == if j < n then es[j] else if j == n then e else es[j - 1];
    }
  }

  // ---- every run ----

  lemma TouchedSame(es: seq<Entry>, k: Key, now: int)
    ensures SameIdentities(es, Touched(es, k, now)) && HasKey(Touched(es, k, now), k) == HasKey(es, k)
  {
    var fs := Touched(es, k, now);
    if HasKey(es, k) {
      var e :| e in es && e.key == k;
      var i :| 0 <= i < |es| && es[i] == e;
      assert fs[i] in fs;
    }
    if HasKey(fs, k) {
      var e :| e in fs && e.key == k;
      var i :| 0 <= i < |fs| && fs[i] == e;
      assert es[i] in es;
    }
  }

  lemma TouchOk(p: Pools, k: Key)
    requires PoolsOk(p)
    ensures PoolsOk(Touch(p, k))
  {
    TouchedSame(p.direct, k, p.now);
    TouchedSame(p.proxied, k, p.now);
    SameIdentitiesOk(p, Touch(p, k));
  }

  lemma StepKeepsOk(p: Pools, l: Limits, e: Event)
    requires PoolsOk(p)
    ensures PoolsOk(Step(p, l, e))
  {
    match e
    case Fast(k) => TouchOk(p, k);
    case Locked(k) =>
      if HasKey(PoolOf(p, k), k) {
        TouchOk(p, k);
      } else {
        MissOk(p, l, k);
        TouchOk(Insert(Evict(p, l), k), k);
      }
    case Sessions(k, busy, comes) =>
      var touched := if comes then Some(p.now) else None;
      assert SameIdentities(p.direct, SetBusy(p.direct, k, busy, touched));
      assert SameIdentities(p.proxied, SetBusy(p.proxied, k, busy, touched));
      SameIdentitiesOk(p, Step(p, l, e));
    case Tick(_) => SameIdentitiesOk(p, Step(p, l, e));
    case Shutdown =>
  }

  lemma MissOk(p: Pools, l: Limits, k: Key)
    requires PoolsOk(p) && !HasKey(PoolOf(p, k), k)
    ensures PoolsOk(Evict(p, l)) && !HasKey(PoolOf(Evict(p, l), k), k) && PoolsOk(Insert(Evict(p, l), k))
  {
    EvictOk(p, l);
    var q := Evict(p, l);
    forall e | e in PoolOf(q, k) ensures e.key != k {
      DropKeysMember(PoolOf(p, k), Victims(p, l), e);
    }
    InsertOk(q, k);
  }

  lemma {:induction false} RunKeepsOk(p: Pools, l: Limits, events: seq<Event>)
    requires PoolsOk(p)
    ensures PoolsOk(Run(p, l, events))
    decreases |events|
  {
    if events != [] {
      StepKeepsOk(p, l, events[0]);
      RunKeepsOk(Step(p, l, events[0]), l, events[1..]);
    }
  }

  /** In every run each key names at most one runtime and each runtime has one key. */
  lemma OneRuntimePerKey(l: Limits, now: int, events: seq<Event>)
    ensures PoolsOk(Run(Pools([], [], 0, now), l, events))
  {
    RunKeepsOk(Pools([], [], 0, now), l, events);
  }

  // The runtime stored for a key.
  predicate Stored(p: Pools, k: Key, r: Runtime) { Entry(k, r) in PoolOf(p, k) }

  lemma {:induction false} LookupFinds(es: seq<Entry>, k: Key)
    ensures Lookup(es, k).Some? <==> HasKey(es, k)
    ensures Lookup(es, k).Some? ==> Entry(k, Lookup(es, k).value) in es
  {
    if es != [] {
      LookupFinds(es[1..], k);
      if HasKey(es, k) && es[0].key != k {
        var e :| e in es && e.key == k;
        assert e in es[1..];
      }
      if es[0].key == k { assert es[0] == Entry(k, es[0].rt); }
    }
  }

  lemma StoredIsFound(p: Pools, k: Key, r: Runtime)
    requires PoolsOk(p) && Stored(p, k, r)
    ensures Lookup(PoolOf(p, k), k) == Some(r)
  {
    var es := PoolOf(p, k);
    LookupFinds(es, k);
    SameKeySameEntry(p, Entry(k, r), Entry(k, Lookup(es, k).value));
  }

  lemma SameKeySameEntry(p: Pools, d: Entry, e: Entry)
    requires PoolsOk(p) && d in All(p) && e in All(p) && d.key == e.key
    ensures d == e
  {
    var i :| 0 <= i < |All(p)| && All(p)[i] == d;
    var j :| 0 <= j < |All(p)| && All(p)[j] == e;
  }

  /** A lookup that finds its key returns the runtime stored for it, just used, by either test;
      no entry comes or goes and no runtime changes its key. */
  lemma HitReturnsStored(p: Pools, l: Limits, k: Key, found: Runtime)
    requires PoolsOk(p) && Stored(p, k, found)
    ensures FastAnswer(p, k) == Some(found.(lastUsed := p.now)) && LockedAnswer(p, k) == found.(lastUsed := p.now)
    ensures FindFast(p, k) == FindLocked(p, k, l) && Stored(FindLocked(p, k, l), k, LockedAnswer(p, k))
    ensures SameIdentities(All(p), All(FindLocked(p, k, l)))
  {
    StoredIsFound(p, k, found);
    TouchedHas(PoolOf(p, k), k, p.now, Entry(k, found));
    TouchedSame(p.direct, k, p.now);
    TouchedSame(p.proxied, k, p.now);
    SameConcat(p.direct, p.proxied, Touched(p.direct, k, p.now), Touched(p.proxied, k, p.now));
  }

  /** A lookup that misses under the lock stores and returns a new, idle runtime; the only
      other entries are survivors of the eviction; and either the pools hold at most
      max_entries entries or every other entry is busy. */
  lemma MissInsertsNew(p: Pools, l: Limits, k: Key)
    requires PoolsOk(p) && !HasKey(PoolOf(p, k), k)
    ensures FastAnswer(p, k) == None && FindFast(p, k) == p && LockedAnswer(p, k) == Runtime(p.nextId, 0, p.now)
    ensures var q := FindLocked(p, k, l);
      && Stored(q, k, LockedAnswer(p, k))
      && (forall e :: e in All(q) && e.key != k ==> e in All(p) && e !in Victims(p, l))
      && (|All(q)| <= MaxEntries(l) || forall e :: e in All(q) && e.key != k ==> e.rt.busy > 0)
  {
    LookupFinds(PoolOf(p, k), k);
    var v := Insert(Evict(p, l), k);
    TouchedHas(PoolOf(v, k), k, v.now, Entry(k, Runtime(p.nextId, 0, p.now)));
    MissLeavesRoom(p, l, k);
  }

  // ---- eviction in the settings' own numbers ----

  // Idle for at least the configured time; a time of zero or less means never.
  predicate PastIdleTime(e: Entry, now: int, l: Limits) {
    e.rt.busy == 0 && l.idleTtl > 0 && now - e.rt.lastUsed >= l.idleTtl
  }

  lemma {:induction false} DistinctCount(es: seq<Entry>)
    requires UniqueKeys(es)
    ensures |es| == |set e | e in es|
    decreases |es|
  {
    if es != [] {
      UniqueTail(es);
      DistinctCount(es[1..]);
      var rest := set e | e in es[1..];
      assert es == [es[0]] + es[1..] && es[0] !in rest;
      assert (set e | e in es) == rest + {es[0]};
    }
  }

  /** A lookup that misses evicts every runtime past the idle time, and of the other idle ones as many
      as it takes until, with max_entries of at least one, a new entry fits; and afterwards the pools
      hold at most max_entries entries or every other entry is busy. */
  lemma EvictionInNumbers(p: Pools, l: Limits, k: Key)
    requires PoolsOk(p) && !HasKey(PoolOf(p, k), k)
    ensures var all := set e | e in All(p); var gone := set e | e in Victims(p, l);
      var past := set e | e in All(p) && PastIdleTime(e, p.now, l); var idle := set e | e in All(p) && e.rt.busy == 0;
      var over := |all| - (if l.maxEntries < 1 then 1 else l.maxEntries) + 1;
      && past <= gone <= idle
      && |gone| == (if over <= |past| then |past| else if over <= |idle| then over else |idle|)
    ensures var q := FindLocked(p, k, l);
      (|All(q)| <= 1 || |All(q)| <= l.maxEntries) || forall e :: e in All(q) && e.key != k ==> e.rt.busy > 0
  {
    var es, c := All(p), Victims(p, l);
    MissLeavesRoom(p, l, k);
    EvictionIsExact(es, p.now, Ttl(l), MaxEntries(l));
    PastCount(es, p.now, l);
    IdleCount(es);
    DistinctCount(c);
    DistinctCount(es);
    SubsetSize(set e | e in es && PastIdleTime(e, p.now, l), set e | e in es && e.rt.busy == 0);
  }

  lemma PastCount(es: seq<Entry>, now: int, l: Limits)
    requires UniqueKeys(es)
    ensures |TtlCandidates(es, now, Ttl(l))| == |set e | e in es && PastIdleTime(e, now, l)|
    ensures forall e :: e in es && PastIdleTime(e, now, l) ==> Expired(e, now, Ttl(l))
  {
    var c := TtlCandidates(es, now, Ttl(l));
    TtlUnique(es, now, Ttl(l));
    DistinctCount(c);
    forall e ensures e in c <==> e in es && PastIdleTime(e, now, l) { TtlMember(es, now, Ttl(l), e); }
    assert (set e | e in c) == set e | e in es && PastIdleTime(e, now, l);
  }

  lemma IdleCount(es: seq<Entry>)
    requires UniqueKeys(es)
    ensures |Idle(es)| == |set e | e in es && e.rt.busy == 0|
  {
    RemainingUnique(es, []);
    DistinctCount(Idle(es));
    forall e ensures e in Idle(es) <==> e in es && e.rt.busy == 0 { RemainingMember(es, [], e); }
    assert (set e | e in Idle(es)) == set e | e in es && e.rt.busy == 0;
  }

  // The key keeps its entry in every state on the way.
  predicate KeptThrough(p: Pools, l: Limits, k: Key, events: seq<Event>)
    decreases |events|
  {
    HasKey(PoolOf(p, k), k) && (events != [] ==> KeptThrough(Step(p, l, events[0]), l, k, events[1..]))
  }

  // Every entry of q with this key has its counterpart in p.
  lemma EntryBefore(p: Pools, l: Limits, e: Event, f: Entry) returns (d: Entry)
    requires PoolsOk(p) && HasKey(PoolOf(p, f.key), f.key) && f in PoolOf(Step(p, l, e), f.key)
    ensures d in All(p) && d.key == f.key && d.rt.id == f.rt.id
  {
    match e
    case Fast(k) => if HasKey(PoolOf(p, k), k) { d := BeforeTouch(p, k, f); } else { d := f; }
    case Locked(k) =>
      if HasKey(PoolOf(p, k), k) {
        d := BeforeTouch(p, k, f);
      } else {
        EvictOk(p, l);
        var v := Insert(Evict(p, l), k);
        d := BeforeTouch(v, k, f);
        assert d.key != k;
      }
    case Sessions(k, busy, comes) =>
      d := Counterpart(PoolOf(p, f.key), SetBusy(PoolOf(p, f.key), k, busy, if comes then Some(p.now) else None), f);
    case Tick(_) => d := f;
  }

  lemma BeforeTouch(p: Pools, k: Key, f: Entry) returns (d: Entry)
    requires f in PoolOf(Touch(p, k), f.key)
    ensures d in PoolOf(p, f.key) && d.key == f.key && d.rt.id == f.rt.id
  {
    TouchedSame(PoolOf(p, f.key), k, p.now);
    d := Counterpart(PoolOf(p, f.key), Touched(PoolOf(p, f.key), k, p.now), f);
  }

  /** As long as a key keeps its entry, every lookup of it, by either test and whatever happens
      in between, returns the same runtime. */
  lemma {:induction false} SameRuntimeWhileKept(p: Pools, l: Limits, k: Key, events: seq<Event>)
    requires PoolsOk(p) && KeptThrough(p, l, k, events)
    ensures var q := Run(p, l, events);
      LockedAnswer(q, k).id == LockedAnswer(p, k).id && FastAnswer(q, k) == Some(LockedAnswer(q, k))
    decreases |events|
  {
    LookupFinds(PoolOf(p, k), k);
    if events != [] {
      var q := Step(p, l, events[0]);
      LookupFinds(PoolOf(q, k), k);
      var d := EntryBefore(p, l, events[0], Entry(k, Lookup(PoolOf(q, k), k).value));
      SameKeySameEntry(p, d, Entry(k, Lookup(PoolOf(p, k), k).value));
      StepKeepsOk(p, l, events[0]);
      SameRuntimeWhileKept(q, l, k, events[1..]);
    }
  }

  /** Two lookups that both miss the unlocked test share one runtime: the first to get the lock
      inserts it, and as long as it is kept the second finds it under the lock. */
  lemma RacingLookupsShareOne(p: Pools, l: Limits, k: Key, between: seq<Event>)
    requires PoolsOk(p) && !HasKey(PoolOf(p, k), k) && KeptThrough(FindLocked(p, k, l), l, k, between)
    ensures FastAnswer(p, k) == None
    ensures var q := Run(FindLocked(p, k, l), l, between);
      LockedAnswer(q, k).id == LockedAnswer(p, k).id == p.nextId && Stored(FindLocked(q, k, l), k, LockedAnswer(q, k))
  {
    var w := FindLocked(p, k, l);
    var q := Run(w, l, between);
    MissInsertsNew(p, l, k);
    StepKeepsOk(p, l, Locked(k));
    StoredIsFound(w, k, LockedAnswer(p, k));
    SameRuntimeWhileKept(w, l, k, between);
    RunKeepsOk(w, l, between);
    LookupFinds(PoolOf(q, k), k);
    HitReturnsStored(q, l, k, Lookup(PoolOf(q, k), k).value);
  }

  lemma TouchedHas(es: seq<Entry>, k: Key, now: int, e: Entry)
    requires e in es && e.key == k
    ensures Entry(k, e.rt.(lastUsed := now)) in Touched(es, k, now)
  {
    var i :| 0 <= i < |es| && es[i] == e;
    assert Touched(es, k, now)[i] == Entry(k, e.rt.(lastUsed := now));
  }

  lemma MissLeavesRoom(p: Pools, l: Limits, k: Key)
    requires PoolsOk(p) && !HasKey(PoolOf(p, k), k)
    ensures var q := FindLocked(p, k, l);
      && (forall e :: e in All(q) && e.key != k ==> e in All(p) && e !in Victims(p, l))
      && (|All(q)| <= MaxEntries(l) || forall e :: e in All(q) && e.key != k ==> e.rt.busy > 0)
  {
    var rest := All(Evict(p, l));
    EvictOk(p, l);
    SecondLoopIsIdle(All(p), p.now, Ttl(l), MaxEntries(l));
    var v := Insert(Evict(p, l), k);
    var q := Touch(v, k);
    forall e | e in All(q) && e.key != k ensures e in rest && e in All(p) && e !in Victims(p, l) {
      TouchedKeeps(v.direct, k, v.now, e);
      TouchedKeeps(v.proxied, k, v.now, e);
      DropKeysMember(All(p), Victims(p, l), e);
    }
  }

  lemma TouchedKeeps(es: seq<Entry>, k: Key, now: int, e: Entry)
    requires e.key != k
    ensures e in Touched(es, k, now) ==> e in es
  {
    var fs := Touched(es, k, now);
    if e in fs {
      var i :| 0 <= i < |fs| && fs[i] == e;
      assert es[i] == e;
    }
  }

  // ---- the pool object ----

  lemma {:induction false} DropKeysSnoc(es: seq<Entry>, gone: seq<Entry>, x: Entry)
    ensures DropKeys(es, gone + [x]) == DropKey(DropKeys(es, gone), x.key)
    decreases |gone|
  {
    if gone == [] {
      assert gone + [x] == [x] && [x][1..] == [];
    } else {
      assert (gone + [x])[1..] == gone[1..] + [x];
      DropKeysSnoc(DropKey(es, gone[0].key), gone[1..], x);
    }
  }

  function Pop(p: Pools, k: Key): Pools { p.(direct := DropKey(p.direct, k), proxied := DropKey(p.proxied, k)) }

  function PopAll(p: Pools, gone: seq<Entry>): Pools {
    p.(direct := DropKeys(p.direct, gone), proxied := DropKeys(p.proxied, gone))
  }

  lemma PopAllSnoc(p: Pools, gone: seq<Entry>, e: Entry)
    ensures PopAll(p, gone + [e]) == Pop(PopAll(p, gone), e.key)
  {
    DropKeysSnoc(p.direct, gone, e);
    DropKeysSnoc(p.proxied, gone, e);
  }

  lemma TrimmedStep(gone: seq<Entry>, e: Entry, rest: seq<Entry>)
    ensures gone + ([e] + rest) == (gone + [e]) + rest
  {
  }

  lemma RuntimesSnoc(closing: seq<Runtime>, gone: seq<Entry>, e: Entry)
    ensures closing + Runtimes(gone + [e]) == closing + Runtimes(gone) + [e.rt]
  {
  }

  function Runtimes(es: seq<Entry>): seq<Runtime> {
    seq(|es|, i requires 0 <= i < |es| => es[i].rt)
  }

  class BrowserRuntimePool {
    var direct: seq<Entry>
    var proxied: seq<Entry>
    var nextId: nat
    var now: int

    function View(): Pools
      reads this
    {
      Pools(direct, proxied, nextId, now)
    }

    constructor (now: int)
      ensures View() == Pools([], [], 0, now)
    {
      direct, proxied, nextId, this.now := [], [], 0, now;
    }

    method CollectTtlCandidates(ttl: int) returns (rows: seq<Entry>)
      ensures rows == TtlCandidates(All(View()), now, ttl)
    {
      rows := [];
      if ttl <= 0 {
        NoneExpired(direct + proxied, now, ttl);
        return;
      }
      var es := direct + proxied;
      for i := 0 to |es|
        invariant rows + TtlCandidates(es[i..], now, ttl) == TtlCandidates(es, now, ttl)
      {
        assert es[i..][1..] == es[i + 1..];
        if Expired(es[i], now, ttl) {
          rows := rows + [es[i]];
        }
      }
    }

    method CollectRemaining(excluded: seq<Entry>) returns (rows: seq<Entry>)
      ensures rows == Remaining(All(View()), excluded)
    {
      rows := [];
      var es := direct + proxied;
      var keys := set e | e in excluded :: e.key;
      for i := 0 to |es|
        invariant rows + Remaining(es[i..], excluded) == Remaining(es, excluded)
      {
        assert es[i..][1..] == es[i + 1..];
        assert es[i].key in keys <==> HasKey(excluded, es[i].key);
        if es[i].rt.busy != 0 || es[i].key in keys { continue; }
        rows := rows + [es[i]];
      }
    }

    // Removes the candidate if its key still maps to it, idle and not used since.
    method PopIfStillIdle(candidate: Entry, closing: seq<Runtime>) returns (closed: seq<Runtime>)
      requires PoolsOk(View())
      modifies this`direct, this`proxied
      ensures var still := candidate.(rt := candidate.rt.(busy := 0)) in PoolOf(old(View()), candidate.key);
        && View() == (if still then Pop(old(View()), candidate.key) else old(View()))
        && closed == (if still then closing + [candidate.rt] else closing)
    {
      closed := closing;
      var idle := candidate.(rt := candidate.rt.(busy := 0));
      if candidate.key.DirectKey? {
        if idle !in direct { return; }
        AbsentKey(proxied, candidate.key);
        direct := DropKey(direct, candidate.key);
      } else {
        if idle !in proxied { return; }
        AbsentKey(direct, candidate.key);
        proxied := DropKey(proxied, candidate.key);
      }
      closed := closed + [candidate.rt];
    }

    // The pops of one eviction: every candidate is still in its pool.
    method PopCandidates(candidates: seq<Entry>) returns (closed: seq<Runtime>)
      requires PoolsOk(View()) && Poppable(View(), candidates)
      modifies this`direct, this`proxied
      ensures View() == PopAll(old(View()), candidates)
      ensures closed == Runtimes(candidates)
    {
      closed := [];
      ghost var start := View();
      for i := 0 to |candidates|
        invariant PoolsOk(View()) && View() == PopAll(start, candidates[..i])
        invariant closed == Runtimes(candidates[..i])
      {
        CandidatePops(start, candidates, i, candidates[i]);
        closed := PopIfStillIdle(candidates[i], closed);
      }
      assert candidates[..|candidates|] == candidates;
    }

    // The second capacity loop.
    method TrimToCapacity(maxEntries: int, closing: seq<Runtime>) returns (closed: seq<Runtime>)
      requires PoolsOk(View())
      modifies this`direct, this`proxied
      ensures var gone := Trimmed(All(old(View())), maxEntries);
        View() == PopAll(old(View()), gone) && closed == closing + Runtimes(gone)
    {
      closed := closing;
      ghost var start, gone := View(), [];
      while |direct| + |proxied| > maxEntries
        invariant PoolsOk(View()) && View() == PopAll(start, gone)
        invariant closed == closing + Runtimes(gone)
        invariant Trimmed(All(start), maxEntries) == gone + Trimmed(All(View()), maxEntries)
        decreases |direct| + |proxied|
      {
        var remaining := CollectRemaining([]);
        if remaining == [] { break; }
        var e := Oldest(remaining);
        OldestIsThere(View(), e);
        PopAllSnoc(start, gone, e);
        RuntimesSnoc(closing, gone, e);
        closed := PopIfStillIdle(e, closed);
        TrimmedStep(gone, e, Trimmed(All(View()), maxEntries));
        gone := gone + [e];
      }
      assert Trimmed(All(View()), maxEntries) == [] && gone + [] == gone;
    }

    // evict_idle_browser_runtimes_locked
    method EvictIdleBrowserRuntimesLocked(l: Limits) returns (closed: seq<Runtime>)
      requires PoolsOk(View())
      modifies this`direct, this`proxied
      ensures View() == Evict(old(View()), l)
      ensures closed == Runtimes(Victims(old(View()), l))
    {
      var candidates := ChooseCandidates(Ttl(l), MaxEntries(l));
      VictimsPop(View(), l);
      closed := PopCandidates(candidates);
      closed := TrimToCapacity(MaxEntries(l), closed);
    }

    method ChooseCandidates(ttl: int, maxEntries: int) returns (candidates: seq<Entry>)
      ensures candidates == Select(All(View()), now, ttl, maxEntries)
    {
      ghost var es := All(View());
      candidates := CollectTtlCandidates(ttl);
      while |direct| + |proxied| - |candidates| >= maxEntries
        invariant Grow(es, candidates, maxEntries) == Select(es, now, ttl, maxEntries)
        decreases |Remaining(es, candidates)|
      {
        var remaining := CollectRemaining(candidates);
        if remaining == [] { break; }
        RemainingSnoc(es, candidates, Oldest(remaining));
        DropKeyShorter(remaining, Oldest(remaining));
        candidates := candidates + [Oldest(remaining)];
      }
    }

    // get_browser_runtime up to the lock: a hit is returned at once.
    method FindUnlocked(k: Key) returns (runtime: Option<Runtime>)
      modifies this`direct, this`proxied
      ensures View() == FindFast(old(View()), k) && runtime == FastAnswer(old(View()), k)
    {
      runtime := Lookup(if k.DirectKey? then direct else proxied, k);
      LookupFinds(PoolOf(View(), k), k);
      if runtime.Some? {
        runtime := Some(runtime.value.(lastUsed := now));
        direct, proxied := Touched(direct, k, now), Touched(proxied, k, now);
      }
    }

    // get_browser_runtime under the pool lock, for a lookup that missed.
    method FindUnderLock(k: Key, l: Limits) returns (runtime: Runtime, closed: seq<Runtime>)
      requires PoolsOk(View())
      modifies this
      ensures View() == FindLocked(old(View()), k, l) && runtime == LockedAnswer(old(View()), k)
      ensures closed == if HasKey(PoolOf(old(View()), k), k) then [] else Runtimes(Victims(old(View()), l))
    {
      closed := [];
      LookupFinds(PoolOf(View(), k), k);
      var found := Lookup(if k.DirectKey? then direct else proxied, k);
      if found.Some? {
        runtime := found.value;
      } else {
        closed := EvictIdleBrowserRuntimesLocked(l);
        runtime := Runtime(nextId, 0, now);
        nextId := nextId + 1;
        var e := Entry(k, runtime);
        if k.DirectKey? { direct := direct + [e]; } else { proxied := proxied + [e]; }
      }
      runtime := runtime.(lastUsed := now);
      direct, proxied := Touched(direct, k, now), Touched(proxied, k, now);
    }

    // get_browser_runtime when nobody else comes between the two tests. What it returns is
    // stored for the key.
    method GetBrowserRuntime(k: Key, l: Limits) returns (runtime: Runtime, closed: seq<Runtime>)
      requires PoolsOk(View())
      modifies this
      ensures View() == FindLocked(old(View()), k, l) && runtime == LockedAnswer(old(View()), k)
      ensures Stored(View(), k, runtime)
      ensures closed == if HasKey(PoolOf(old(View()), k), k) then [] else Runtimes(Victims(old(View()), l))
    {
      LockedAnswerIsStored(View(), l, k);
      var found := FindUnlocked(k);
      closed := [];
      if found.Some? {
        runtime := found.value;
      } else {
        runtime, closed := FindUnderLock(k, l);
      }
    }
  }

  // What a lookup under the lock returns is stored for its key, found or new.
  lemma LockedAnswerIsStored(p: Pools, l: Limits, k: Key)
    requires PoolsOk(p)
    ensures Stored(FindLocked(p, k, l), k, LockedAnswer(p, k))
    ensures FastAnswer(p, k) == if HasKey(PoolOf(p, k), k) then Some(LockedAnswer(p, k)) else None
  {
    LookupFinds(PoolOf(p, k), k);
    if HasKey(PoolOf(p, k), k) {
      HitReturnsStored(p, l, k, Lookup(PoolOf(p, k), k).value);
    } else {
      MissInsertsNew(p, l, k);
    }
  }

  // Distinct idle entries of the pools.
  predicate Poppable(p: Pools, candidates: seq<Entry>) {
    UniqueKeys(candidates) && forall e :: e in candidates ==> e in All(p) && e.rt.busy == 0
  }

  // What an eviction chooses can be popped, and the second loop then finds nothing.
  lemma VictimsPop(p: Pools, l: Limits)
    requires PoolsOk(p)
    ensures Poppable(p, Victims(p, l))
    ensures var q := PopAll(p, Victims(p, l)); q == Evict(p, l) && PoolsOk(q) && Trimmed(All(q), MaxEntries(l)) == []
  {
    EvictionIsExact(All(p), p.now, Ttl(l), MaxEntries(l));
    EvictOk(p, l);
    SecondLoopIsIdle(All(p), p.now, Ttl(l), MaxEntries(l));
  }

  // An entry of the pools is in its own pool, and without it the pools stay well formed.
  lemma PopTakes(p: Pools, e: Entry)
    requires PoolsOk(p) && e in All(p)
    ensures e in PoolOf(p, e.key) && PoolsOk(Pop(p, e.key))
    ensures All(Pop(p, e.key)) == DropKey(All(p), e.key)
  {
    DropKeyConcat(p.direct, p.proxied, e.key);
    DropKeyUnique(All(p), e.key);
    forall x ensures x in DropKey(p.direct, e.key) ==> x in p.direct { DropKeyMember(p.direct, e.key, x); }
    forall x ensures x in DropKey(p.proxied, e.key) ==> x in p.proxied { DropKeyMember(p.proxied, e.key, x); }
  }

  lemma OldestIsThere(p: Pools, e: Entry)
    requires PoolsOk(p) && Idle(All(p)) != [] && e == Oldest(Idle(All(p)))
    ensures e.rt.busy == 0 && e in PoolOf(p, e.key) && PoolsOk(Pop(p, e.key))
    ensures All(Pop(p, e.key)) == DropKey(All(p), e.key)
    ensures |All(Pop(p, e.key))| < |All(p)|
  {
    RemainingMember(All(p), [], e);
    PopTakes(p, e);
    DropKeyShorter(All(p), e);
  }

  // Popping candidate i after those before it.
  lemma CandidatePops(p: Pools, candidates: seq<Entry>, i: nat, e: Entry)
    requires i < |candidates| && Poppable(p, candidates) && e == candidates[i]
    requires PoolsOk(PopAll(p, candidates[..i]))
    ensures var q := PopAll(p, candidates[..i]);
      && e.(rt := e.rt.(busy := 0)) == e && e in PoolOf(q, e.key)
      && PopAll(p, candidates[..i + 1]) == Pop(q, e.key) && PoolsOk(Pop(q, e.key))
    ensures Runtimes(candidates[..i + 1]) == Runtimes(candidates[..i]) + [e.rt]
  {
    CandidateStillThere(p, candidates, i);
    assert candidates[..i + 1] == candidates[..i] + [e];
    PopAllSnoc(p, candidates[..i], e);
    RuntimesSnoc([], candidates[..i], e);
  }

  lemma CandidateStillThere(p: Pools, candidates: seq<Entry>, i: nat)
    requires i < |candidates| && Poppable(p, candidates)
    requires PoolsOk(PopAll(p, candidates[..i]))
    ensures var q := PopAll(p, candidates[..i]); var e := candidates[i];
      e.rt.busy == 0 && e in PoolOf(q, e.key) && PoolsOk(Pop(q, e.key))
  {
    var e, gone := candidates[i], candidates[..i];
    assert e in candidates;
    forall x | x in gone ensures x.key != e.key {
      var j :| 0 <= j < i && gone[j] == x;
    }
    DropKeysMember(p.direct, gone, e);
    DropKeysMember(p.proxied, gone, e);
    PopTakes(PopAll(p, gone), e);
  }

  lemma {:induction false} NoneExpired(es: seq<Entry>, now: int, ttl: int)
    requires ttl <= 0
    ensures TtlCandidates(es, now, ttl) == []
  {
    if es != [] { NoneExpired(es[1..], now, ttl); }
  }
}
