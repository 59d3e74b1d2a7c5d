/**
 Which idle browser runtimes leave the pools: every one past the idle time-to-live, then
 the least recently used until a new one fits. Python dictionaries keep insertion order,
 so a pool is a sequence of entries with distinct keys.
 */
module PoolEviction {
  import opened Wrappers

  datatype Key = DirectKey(engine: string) | ProxiedKey(engine: string, proxy: string)

  // A runtime object's identity, its active plus queued count, and its last use.
  datatype Runtime = Runtime(id: nat, busy: nat, lastUsed: int)

  datatype Entry = Entry(key: Key, rt: Runtime)

  predicate UniqueKeys(es: seq<Entry>) {
    forall i, j :: 0 <= i < j < |es| ==> es[i].key != es[j].key
  }

  predicate Expired(e: Entry, now: int, ttl: int) {
    ttl > 0 && e.rt.busy == 0 && (if now < e.rt.lastUsed then 0 else now - e.rt.lastUsed) >= ttl
  }

  // _ttl_candidates
  function TtlCandidates(es: seq<Entry>, now: int, ttl: int): seq<Entry> {
    if es == [] then []
    else (if Expired(es[0], now, ttl) then [es[0]] else []) + TtlCandidates(es[1..], now, ttl)
  }

  predicate HasKey(es: seq<Entry>, k: Key) { exists e :: e in es && e.key == k }

  // _remaining_idle_candidates
  function Remaining(es: seq<Entry>, excluded: seq<Entry>): seq<Entry> {
    if es == [] then []
    else (if es[0].rt.busy == 0 && !HasKey(excluded, es[0].key) then [es[0]] else []) + Remaining(es[1..], excluded)
  }

  function Idle(es: seq<Entry>): seq<Entry> { Remaining(es, []) }

  // _oldest_idle_candidate: the first of the least recently used.
  function OldestIndex(es: seq<Entry>): (k: nat)
    requires es != []
    ensures k < |es|
    ensures forall j :: 0 <= j < k ==> es[k].rt.lastUsed < es[j].rt.lastUsed
    ensures forall j :: k < j < |es| ==> es[k].rt.lastUsed <= es[j].rt.lastUsed
  {
    if |es| == 1 then 0
    else
      var k := OldestIndex(es[1..]);
      assert forall j :: 1 <= j < |es| ==> es[1..][j - 1] == es[j];
      if es[0].rt.lastUsed <= es[k + 1].rt.lastUsed then 0 else k + 1
  }

  function Oldest(es: seq<Entry>): Entry
    requires es != []
  {
    es[OldestIndex(es)]
  }

  function DropKey(es: seq<Entry>, k: Key): seq<Entry> {
    if es == [] then [] else if es[0].key == k then DropKey(es[1..], k) else [es[0]] + DropKey(es[1..], k)
  }

  function DropKeys(es: seq<Entry>, gone: seq<Entry>): seq<Entry>
    decreases |gone|
  {
    if gone == [] then es else DropKeys(DropKey(es, gone[0].key), gone[1..])
  }

  // The capacity loop: add the oldest remaining idle entry until one more would fit.
  function Grow(es: seq<Entry>, chosen: seq<Entry>, maxEntries: int): seq<Entry>
    decreases |Remaining(es, chosen)|
  {
    var remaining := Remaining(es, chosen);
    if |es| - |chosen| < maxEntries || remaining == [] then chosen
    else
      RemainingSnoc(es, chosen, Oldest(remaining));
      DropKeyShorter(remaining, Oldest(remaining));
      Grow(es, chosen + [Oldest(remaining)], maxEntries)
  }

  // All candidates of one eviction, in the order they are closed.
  function Select(es: seq<Entry>, now: int, ttl: int, maxEntries: int): seq<Entry> {
    Grow(es, TtlCandidates(es, now, ttl), maxEntries)
  }

  // The second capacity loop: what it would still take out.
  function Trimmed(es: seq<Entry>, maxEntries: int): seq<Entry>
    decreases |es|
  {
    if |es| <= maxEntries || Idle(es) == [] then []
    else
      var e := Oldest(Idle(es));
      RemainingMember(es, [], e);
      DropKeyShorter(es, e);
      [e] + Trimmed(DropKey(es, e.key), maxEntries)
  }

  // ---- sequences with distinct keys ----

  lemma {:induction false} TtlMember(es: seq<Entry>, now: int, ttl: int, e: Entry)
    ensures e in TtlCandidates(es, now, ttl) <==> e in es && Expired(e, now, ttl)
  {
    if es != [] {
      TtlMember(es[1..], now, ttl, e);
      assert es == [es[0]] + es[1..];
    }
  }

  lemma {:induction false} RemainingMember(es: seq<Entry>, excluded: seq<Entry>, e: Entry)
    ensures e in Remaining(es, excluded) <==> e in es && e.rt.busy == 0 && !HasKey(excluded, e.key)
  {
    if es != [] {
      RemainingMember(es[1..], excluded, e);
      assert es == [es[0]] + es[1..];
    }
  }

  lemma {:induction false} DropKeyMember(es: seq<Entry>, k: Key, e: Entry)
    ensures e in DropKey(es, k) <==> e in es && e.key != k
  {
    if es != [] {
      DropKeyMember(es[1..], k, e);
      assert es == [es[0]] + es[1..];
    }
  }

  lemma UniqueTail(es: seq<Entry>)
    requires es != [] && UniqueKeys(es)
    ensures UniqueKeys(es[1..]) && !HasKey(es[1..], es[0].key)
  {
    forall e | e in es[1..] ensures e.key != es[0].key {
      var i :| 0 <= i < |es[1..]| && es[1..][i] == e;
      assert es[i + 1] == e;
    }
  }

  lemma {:induction false} RemainingUnique(es: seq<Entry>, excluded: seq<Entry>)
    requires UniqueKeys(es)
    ensures UniqueKeys(Remaining(es, excluded))
  {
    if es != [] {
      UniqueTail(es);
      RemainingUnique(es[1..], excluded);
      forall e | e in Remaining(es[1..], excluded) ensures e.key != es[0].key {
        RemainingMember(es[1..], excluded, e);
      }
      UniqueHead(es[0], Remaining(es[1..], excluded));
    }
  }

  lemma UniqueHead(e: Entry, es: seq<Entry>)
    requires UniqueKeys(es) && forall x :: x in es ==> x.key != e.key
    ensures UniqueKeys([e] + es)
  {
  }

  lemma {:induction false} TtlUnique(es: seq<Entry>, now: int, ttl: int)
    requires UniqueKeys(es)
    ensures UniqueKeys(TtlCandidates(es, now, ttl))
  {
    if es != [] {
      UniqueTail(es);
      TtlUnique(es[1..], now, ttl);
      forall e | e in TtlCandidates(es[1..], now, ttl) ensures e.key != es[0].key {
        TtlMember(es[1..], now, ttl, e);
      }
      UniqueHead(es[0], TtlCandidates(es[1..], now, ttl));
    }
  }

  lemma {:induction false} DropKeyUnique(es: seq<Entry>, k: Key)
    requires UniqueKeys(es)
    ensures UniqueKeys(DropKey(es, k)) && |DropKey(es, k)| == |es| - B(HasKey(es, k))
  {
    if es != [] {
      UniqueTail(es);
      DropKeyUnique(es[1..], k);
      assert es == [es[0]] + es[1..];
      forall e | e in DropKey(es[1..], k) ensures e.key != es[0].key {
        DropKeyMember(es[1..], k, e);
      }
      UniqueHead(es[0], DropKey(es[1..], k));
      assert HasKey(es, k) <==> es[0].key == k || HasKey(es[1..], k);
    }
  }

  lemma {:induction false} DropKeyShorter(es: seq<Entry>, e: Entry)
    ensures |DropKey(es, e.key)| <= |es| && (e in es ==> |DropKey(es, e.key)| < |es|)
  {
    if es != [] {
      DropKeyShorter(es[1..], e);
      assert es == [es[0]] + es[1..];
    }
  }

  lemma {:induction false} RemainingSnoc(es: seq<Entry>, chosen: seq<Entry>, x: Entry)
    ensures Remaining(es, chosen + [x]) == DropKey(Remaining(es, chosen), x.key)
  {
    if es != [] {
      RemainingSnoc(es[1..], chosen, x);
      HasKeySnoc(chosen, x, es[0].key);
      var tail := Remaining(es[1..], chosen);
      assert ([es[0]] + tail)[1..] == tail && [] + tail == tail;
      assert [] + Remaining(es[1..], chosen + [x]) == Remaining(es[1..], chosen + [x]);
    }
  }

  lemma HasKeySnoc(es: seq<Entry>, x: Entry, k: Key)
    ensures HasKey(es + [x], k) <==> HasKey(es, k) || x.key == k
  {
    if HasKey(es, k) {
      var e :| e in es && e.key == k;
      assert e in es + [x];
    }
    if x.key == k { assert x in es + [x]; }
  }

  lemma {:induction false} DropKeyMultiset(es: seq<Entry>, e: Entry)
    requires UniqueKeys(es) && e in es
    ensures multiset(DropKey(es, e.key)) + multiset{e} == multiset(es)
  {
    UniqueTail(es);
    assert es == [es[0]] + es[1..];
    if es[0] == e {
      AbsentKey(es[1..], e.key);
    } else {
      DropKeyMultiset(es[1..], e);
    }
  }

  lemma {:induction false} AbsentKey(es: seq<Entry>, k: Key)
    requires !HasKey(es, k)
    ensures DropKey(es, k) == es
  {
    if es != [] {
      assert es[0] in es && forall x :: x in es[1..] ==> x in es;
      AbsentKey(es[1..], k);
    }
  }

  lemma SameKey(es: seq<Entry>, a: Entry, b: Entry)
    requires UniqueKeys(es) && a in es && b in es && a.key == b.key
    ensures a == b
  {
  }

  // ---- the choice ----

  // `c` is a choice made so far: idle entries, the expired ones first, and none used later
  // than an idle entry that is left.
  predicate Chosen(es: seq<Entry>, c: seq<Entry>, now: int, ttl: int) {
    && UniqueKeys(c)
    && (forall e :: e in c ==> e in es && e.rt.busy == 0)
    && TtlCandidates(es, now, ttl) <= c
    && |c| + |Remaining(es, c)| == |Idle(es)|
    && (forall a, b :: a in c && b in Remaining(es, c) ==> a.rt.lastUsed <= b.rt.lastUsed)
    && (forall i, j :: |TtlCandidates(es, now, ttl)| <= i < j < |c| ==> c[i].rt.lastUsed <= c[j].rt.lastUsed)
  }

  lemma ChosenStart(es: seq<Entry>, now: int, ttl: int)
    requires UniqueKeys(es)
    ensures Chosen(es, TtlCandidates(es, now, ttl), now, ttl)
  {
    var c := TtlCandidates(es, now, ttl);
    TtlUnique(es, now, ttl);
    forall e ensures e in c <==> e in es && Expired(e, now, ttl) { TtlMember(es, now, ttl, e); }
    forall b | b in Remaining(es, c) ensures b in es && b.rt.busy == 0 && !Expired(b, now, ttl) {
      RemainingMember(es, c, b);
      if Expired(b, now, ttl) { assert HasKey(c, b.key); }
    }
    ExcludedCount(es, c);
  }

  // Leaving out entries of the sequence leaves the other idle ones.
  lemma {:induction false} ExcludedCount(es: seq<Entry>, c: seq<Entry>)
    requires UniqueKeys(es) && UniqueKeys(c) && forall e :: e in c ==> e in es && e.rt.busy == 0
    ensures |c| + |Remaining(es, c)| == |Idle(es)|
    decreases |c|
  {
    if c == [] {
    } else {
      var n := |c| - 1;
      var init, x := c[..n], c[n];
      assert c == init + [x];
      assert forall e :: e in init ==> e in c;
      ExcludedCount(es, init);
      RemainingSnoc(es, init, x);
      RemainingUnique(es, init);
      RemainingMember(es, init, x);
      DropKeyUnique(Remaining(es, init), x.key);
    }
  }

  // What adding the oldest remaining entry needs to know about it.
  lemma OldestRemaining(es: seq<Entry>, c: seq<Entry>, x: Entry)
    requires Remaining(es, c) != [] && x == Oldest(Remaining(es, c))
    ensures x in Remaining(es, c) && x in es && x.rt.busy == 0 && !HasKey(c, x.key)
    ensures forall b :: b in Remaining(es, c + [x]) ==> b in Remaining(es, c) && x.rt.lastUsed <= b.rt.lastUsed
  {
    var remaining := Remaining(es, c);
    RemainingMember(es, c, x);
    RemainingSnoc(es, c, x);
    forall b | b in Remaining(es, c + [x]) ensures b in remaining && x.rt.lastUsed <= b.rt.lastUsed {
      DropKeyMember(remaining, x.key, b);
      var i :| 0 <= i < |remaining| && remaining[i] == b;
    }
  }

  lemma UniqueSnoc(c: seq<Entry>, x: Entry)
    requires UniqueKeys(c) && !HasKey(c, x.key)
    ensures UniqueKeys(c + [x])
  {
    forall i | 0 <= i < |c| ensures c[i].key != x.key { assert c[i] in c; }
  }

  lemma ChosenSnoc(es: seq<Entry>, c: seq<Entry>, now: int, ttl: int)
    requires UniqueKeys(es) && Chosen(es, c, now, ttl) && Remaining(es, c) != []
    ensures Chosen(es, c + [Oldest(Remaining(es, c))], now, ttl)
  {
    var x := Oldest(Remaining(es, c));
    OldestRemaining(es, c, x);
    UniqueSnoc(c, x);
    ExcludedCount(es, c + [x]);
    ChosenOrder(es, c, now, ttl, x);
  }

  // The order of the choice, with the oldest remaining entry at its end.
  lemma ChosenOrder(es: seq<Entry>, c: seq<Entry>, now: int, ttl: int, x: Entry)
    requires Chosen(es, c, now, ttl) && x in Remaining(es, c)
    ensures var t, c' := TtlCandidates(es, now, ttl), c + [x];
      t <= c' && forall i, j :: |t| <= i < j < |c'| ==> c'[i].rt.lastUsed <= c'[j].rt.lastUsed
  {
    forall i | 0 <= i < |c| ensures c[i].rt.lastUsed <= x.rt.lastUsed { assert c[i] in c; }
  }

  function Wanted(es: seq<Entry>, chosen: nat, maxEntries: int): int {
    var fit := if |Idle(es)| < |es| - maxEntries + 1 then |Idle(es)| else |es| - maxEntries + 1;
    if chosen < fit then fit else chosen
  }

  lemma {:induction false} GrowIsChosen(es: seq<Entry>, c: seq<Entry>, now: int, ttl: int, maxEntries: int)
    requires UniqueKeys(es) && Chosen(es, c, now, ttl)
    ensures var g := Grow(es, c, maxEntries);
      && Chosen(es, g, now, ttl)
      && (|es| - |g| < maxEntries || Remaining(es, g) == [])
      && |g| == Wanted(es, |c|, maxEntries)
    decreases |Remaining(es, c)|
  {
    var remaining := Remaining(es, c);
    if |es| - |c| >= maxEntries && remaining != [] {
      RemainingSnoc(es, c, Oldest(remaining));
      DropKeyShorter(remaining, Oldest(remaining));
      ChosenSnoc(es, c, now, ttl);
      GrowIsChosen(es, c + [Oldest(remaining)], now, ttl, maxEntries);
    }
  }

  // ---- the result ----

  lemma {:induction false} DropKeysMember(es: seq<Entry>, gone: seq<Entry>, e: Entry)
    ensures e in DropKeys(es, gone) <==> e in es && !HasKey(gone, e.key)
    decreases |gone|
  {
    if gone != [] {
      DropKeysMember(DropKey(es, gone[0].key), gone[1..], e);
      DropKeyMember(es, gone[0].key, e);
      assert gone == [gone[0]] + gone[1..];
    }
  }

  lemma {:induction false} DropKeysExact(es: seq<Entry>, gone: seq<Entry>)
    requires UniqueKeys(es) && UniqueKeys(gone) && forall e :: e in gone ==> e in es
    ensures UniqueKeys(DropKeys(es, gone)) && |DropKeys(es, gone)| == |es| - |gone|
    ensures multiset(DropKeys(es, gone)) + multiset(gone) == multiset(es)
    decreases |gone|
  {
    if gone != [] {
      var e := gone[0];
      UniqueTail(gone);
      assert gone == [e] + gone[1..];
      DropKeyUnique(es, e.key);
      assert HasKey(es, e.key);
      DropKeyMultiset(es, e);
      forall x | x in gone[1..] ensures x in DropKey(es, e.key) { DropKeyMember(es, e.key, x); }
      DropKeysExact(DropKey(es, e.key), gone[1..]);
    }
  }

  /** One eviction over the entries `es` of both pools: survivors and evicted entries are
      exactly the original ones, each once; only idle entries go; every expired one goes;
      and the number that goes is the larger of the number expired and what capacity asks
      for, as far as there are idle entries. */
  lemma EvictionIsExact(es: seq<Entry>, now: int, ttl: int, maxEntries: int)
    requires UniqueKeys(es)
    ensures var c := Select(es, now, ttl, maxEntries);
      && multiset(DropKeys(es, c)) + multiset(c) == multiset(es)
      && UniqueKeys(c) && UniqueKeys(DropKeys(es, c)) && |DropKeys(es, c)| == |es| - |c|
      && (forall e :: e in c ==> e in es && e.rt.busy == 0)
      && (forall e :: e in es && Expired(e, now, ttl) ==> e in c)
      && |c| == Wanted(es, |TtlCandidates(es, now, ttl)|, maxEntries)
  {
    ChosenStart(es, now, ttl);
    GrowIsChosen(es, TtlCandidates(es, now, ttl), now, ttl, maxEntries);
    DropKeysExact(es, Select(es, now, ttl, maxEntries));
    forall e | e in es && Expired(e, now, ttl) ensures e in Select(es, now, ttl, maxEntries) {
      TtlMember(es, now, ttl, e);
    }
  }

  /** Eviction is least recently used: with an evicted entry every idle entry used strictly
      earlier is evicted too, and beyond the expired ones the order of closing is the order
      of last use. */
  lemma EvictionIsLru(es: seq<Entry>, now: int, ttl: int, maxEntries: int)
    requires UniqueKeys(es)
    ensures var c := Select(es, now, ttl, maxEntries); var t := TtlCandidates(es, now, ttl);
      && (forall a, b :: a in c && b in es && b.rt.busy == 0 && b.rt.lastUsed < a.rt.lastUsed ==> b in c)
      && t <= c
      && (forall i, j :: |t| <= i < j < |c| ==> c[i].rt.lastUsed <= c[j].rt.lastUsed)
  {
    var c := Select(es, now, ttl, maxEntries);
    ChosenStart(es, now, ttl);
    GrowIsChosen(es, TtlCandidates(es, now, ttl), now, ttl, maxEntries);
    forall a, b | a in c && b in es && b.rt.busy == 0 && b.rt.lastUsed < a.rt.lastUsed ensures b in c {
      RemainingMember(es, c, b);
      assert HasKey(c, b.key);
      var e :| e in c && e.key == b.key;
      SameKey(es, e, b);
    }
  }

  /** After the eviction one more entry fits, or every survivor is busy; either way the
      second capacity loop takes nothing. */
  lemma SecondLoopIsIdle(es: seq<Entry>, now: int, ttl: int, maxEntries: int)
    requires UniqueKeys(es)
    ensures var rest := DropKeys(es, Select(es, now, ttl, maxEntries));
      && (|rest| < maxEntries || forall e :: e in rest ==> e.rt.busy > 0)
      && Trimmed(rest, maxEntries) == []
  {
    var c := Select(es, now, ttl, maxEntries);
    var rest := DropKeys(es, c);
    ChosenStart(es, now, ttl);
    GrowIsChosen(es, TtlCandidates(es, now, ttl), now, ttl, maxEntries);
    DropKeysExact(es, c);
    if |rest| >= maxEntries {
      forall e | e in rest ensures e.rt.busy > 0 {
        DropKeysMember(es, c, e);
        RemainingMember(es, c, e);
      }
      if Idle(rest) != [] {
        RemainingMember(rest, [], Idle(rest)[0]);
      }
    }
  }
}
