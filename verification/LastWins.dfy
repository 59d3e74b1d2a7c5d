// A list filled like a dictionary: one element per key, the last one stored, in the order in
// which the keys first came.
module LastWins {
  import opened Wrappers

  function Put<T, K(==)>(key: T -> K, cs: seq<T>, c: T): seq<T> {
    if cs == [] then [c]
    else if key(cs[0]) == key(c) then [c] + cs[1..]
    else [cs[0]] + Put(key, cs[1..], c)
  }

  // The rows that hold something, stored one after another.
  function Dedup<T, K(==)>(key: T -> K, rows: seq<Option<T>>): seq<T> {
    if rows == [] then []
    else
      var before, last := Dedup(key, rows[..|rows| - 1]), rows[|rows| - 1];
      if last.Some? then Put(key, before, last.value) else before
  }

  lemma DedupOne<T, K>(key: T -> K, row: Option<T>)
    ensures Dedup(key, [row]) == if row.Some? then [row.value] else []
  {
    assert [row][..0] == [];
  }

  function Somes<T>(rows: seq<Option<T>>): seq<T> {
    if rows == [] then []
    else
      var before, last := Somes(rows[..|rows| - 1]), rows[|rows| - 1];
      if last.Some? then before + [last.value] else before
  }

  ghost predicate Distinct<T, K>(key: T -> K, cs: seq<T>) {
    forall i, j :: 0 <= i < j < |cs| ==> key(cs[i]) != key(cs[j])
  }

  lemma PutAt<T, K>(key: T -> K, cs: seq<T>, c: T, i: nat)
    requires i < |cs| && key(cs[i]) == key(c)
    requires forall j :: 0 <= j < i ==> key(cs[j]) != key(c)
    ensures Put(key, cs, c) == cs[i := c]
  {
    if i > 0 { PutAt(key, cs[1..], c, i - 1); }
  }

  lemma PutNew<T, K>(key: T -> K, cs: seq<T>, c: T)
    requires forall j :: 0 <= j < |cs| ==> key(cs[j]) != key(c)
    ensures Put(key, cs, c) == cs + [c]
  {
    if cs != [] { PutNew(key, cs[1..], c); }
  }

  lemma PutMembers<T, K>(key: T -> K, cs: seq<T>, c: T)
    requires Distinct(key, cs)
    ensures Distinct(key, Put(key, cs, c))
    ensures forall x :: x in Put(key, cs, c) <==> x == c || (x in cs && key(x) != key(c))
  {
    if i :| 0 <= i < |cs| && key(cs[i]) == key(c) {
      PutAt(key, cs, c, i);
      assert cs[i := c][i] == c;
      forall x | x in cs && key(x) != key(c) ensures x in cs[i := c] {
        var j :| 0 <= j < |cs| && cs[j] == x;
        assert cs[i := c][j] == x;
      }
    } else {
      PutNew(key, cs, c);
    }
  }

  // The list as a dictionary holds it: keys in order, and one element for each.
  ghost predicate Holds<T, K>(key: T -> K, keys: seq<K>, byKey: map<K, T>, cs: seq<T>) {
    && |keys| == |cs|
    && (forall k :: k in byKey ==> k in keys) && (forall i :: 0 <= i < |keys| ==> keys[i] in byKey)
    && (forall i :: 0 <= i < |cs| ==> keys[i] == key(cs[i]) && byKey[keys[i]] == cs[i])
    && (forall i, j :: 0 <= i < j < |keys| ==> keys[i] != keys[j])
  }

  lemma HoldsAt<T, K>(key: T -> K, keys: seq<K>, byKey: map<K, T>, cs: seq<T>, c: T, i: nat)
    requires Holds(key, keys, byKey, cs) && i < |keys| && keys[i] == key(c)
    ensures Holds(key, keys, byKey[keys[i] := c], cs[i := c])
  {
  }

  lemma HoldsNew<T, K>(key: T -> K, keys: seq<K>, byKey: map<K, T>, cs: seq<T>, c: T, k: K)
    requires Holds(key, keys, byKey, cs) && k == key(c) && k !in keys
    ensures Holds(key, keys + [k], byKey[k := c], cs + [c])
  {
  }

  lemma HoldsPut<T, K>(key: T -> K, keys: seq<K>, byKey: map<K, T>, cs: seq<T>, c: T)
    requires Holds(key, keys, byKey, cs)
    ensures Holds(key, if key(c) in byKey then keys else keys + [key(c)], byKey[key(c) := c], Put(key, cs, c))
  {
    if i :| 0 <= i < |keys| && keys[i] == key(c) {
      PutAt(key, cs, c, i);
      HoldsAt(key, keys, byKey, cs, c, i);
    } else {
      PutNew(key, cs, c);
      HoldsNew(key, keys, byKey, cs, c, key(c));
    }
  }

  // What storing one element does to the dictionary.
  method Store<T, K(==)>(key: T -> K, keys: seq<K>, byKey: map<K, T>, c: T, ghost cs: seq<T>)
    returns (keys': seq<K>, byKey': map<K, T>)
    requires Holds(key, keys, byKey, cs)
    ensures Holds(key, keys', byKey', Put(key, cs, c))
  {
    HoldsPut(key, keys, byKey, cs, c);
    keys' := if key(c) in byKey then keys else keys + [key(c)];
    byKey' := byKey[key(c) := c];
  }

  function Mapped<S, T>(f: S -> Option<T>, rows: seq<S>): seq<Option<T>> {
    seq(|rows|, i requires 0 <= i < |rows| => f(rows[i]))
  }

  // The loop over rows: each is turned into what it stands for, and that is stored.
  method Fill<S, T, K(==)>(key: T -> K, f: S -> Option<T>, rows: seq<S>) returns (cs: seq<T>)
    ensures cs == Dedup(key, Mapped(f, rows))
  {
    var keys: seq<K>, byKey: map<K, T> := [], map[];
    ghost var all := Mapped(f, rows);
    ghost var stored: seq<T> := [];
    for i := 0 to |rows|
      invariant stored == Dedup(key, all[..i]) && Holds(key, keys, byKey, stored)
    {
      assert all[..i + 1][..i] == all[..i];
      var c := f(rows[i]);
      if c.Some? {
        keys, byKey := Store(key, keys, byKey, c.value, stored);
        stored := Put(key, stored, c.value);
      }
    }
    assert all[..|rows|] == all;
    cs := Values(key, keys, byKey, stored);
  }

  // The dictionary's values, in order.
  method Values<T, K>(key: T -> K, keys: seq<K>, byKey: map<K, T>, ghost cs: seq<T>) returns (vs: seq<T>)
    requires Holds(key, keys, byKey, cs)
    ensures vs == cs
  {
    vs := seq(|keys|, i requires 0 <= i < |keys| => byKey[keys[i]]);
  }

  // Row k holds c, and no later row holds anything with its key.
  ghost predicate LastOfItsKey<T, K>(key: T -> K, rows: seq<Option<T>>, k: nat, c: T) {
    && k < |rows| && rows[k] == Some(c)
    && forall j :: k < j < |rows| && rows[j].Some? ==> key(rows[j].value) != key(c)
  }

  ghost predicate IsLast<T, K>(key: T -> K, rows: seq<Option<T>>, c: T) {
    exists k: nat :: LastOfItsKey(key, rows, k, c)
  }

  /** One element per key, and it is the last one with that key; nothing else is in the list,
      and no key is missing. */
  lemma {:induction false} DedupKeepsTheLast<T, K>(key: T -> K, rows: seq<Option<T>>)
    ensures Distinct(key, Dedup(key, rows))
    ensures forall c :: c in Dedup(key, rows) <==> IsLast(key, rows, c)
  {
    if rows != [] {
      var front, last := rows[..|rows| - 1], rows[|rows| - 1];
      assert rows == front + [last];
      DedupKeepsTheLast(key, front);
      forall c ensures IsLast(key, rows, c) <==> last == Some(c) || (IsLast(key, front, c) && !Hides(key, last, c)) {
        LastGrows(key, front, last, c);
      }
      if last.Some? { PutMembers(key, Dedup(key, front), last.value); }
    }
  }

  predicate Hides<T, K(==)>(key: T -> K, row: Option<T>, c: T) { row.Some? && key(row.value) == key(c) }

  lemma LastGrows<T, K>(key: T -> K, front: seq<Option<T>>, last: Option<T>, c: T)
    ensures IsLast(key, front + [last], c) <==> last == Some(c) || (IsLast(key, front, c) && !Hides(key, last, c))
  {
    var rows := front + [last];
    if last == Some(c) { assert LastOfItsKey(key, rows, |front|, c); }
    if IsLast(key, front, c) && !Hides(key, last, c) {
      var k: nat :| LastOfItsKey(key, front, k, c);
      assert LastOfItsKey(key, rows, k, c);
    }
    if k: nat :| LastOfItsKey(key, rows, k, c) && k < |front| {
      assert rows[|front|] == last;
      forall j | k < j < |front| && front[j].Some? ensures key(front[j].value) != key(c) { assert rows[j] == front[j]; }
      assert LastOfItsKey(key, front, k, c);
    }
  }

  /** A key keeps the place it first got, whatever is stored later. */
  lemma {:induction false} PlacesStay<T, K>(key: T -> K, rows: seq<Option<T>>, n: nat)
    requires n <= |rows|
    ensures var early, all := Dedup(key, rows[..n]), Dedup(key, rows);
      |early| <= |all| && forall i :: 0 <= i < |early| ==> key(early[i]) == key(all[i])
  {
    if n == |rows| {
      assert rows[..n] == rows;
    } else {
      var m := |rows| - 1;
      assert rows[..m][..n] == rows[..n];
      PlacesStay(key, rows[..m], n);
      if rows[m].Some? { PutKeepsPlaces(key, Dedup(key, rows[..m]), rows[m].value); }
    }
  }

  lemma PutKeepsPlaces<T, K>(key: T -> K, cs: seq<T>, c: T)
    ensures |cs| <= |Put(key, cs, c)| && forall i :: 0 <= i < |cs| ==> key(Put(key, cs, c)[i]) == key(cs[i])
  {
    if cs != [] { PutKeepsPlaces(key, cs[1..], c); }
  }

  /** Elements that have their keys to themselves all stay, in their order. */
  lemma {:induction false} DedupOfDistinct<T, K>(key: T -> K, rows: seq<Option<T>>)
    requires Distinct(key, Somes(rows))
    ensures Dedup(key, rows) == Somes(rows)
  {
    if rows != [] {
      var n := |rows| - 1;
      var before := Somes(rows[..n]);
      assert forall i :: 0 <= i < |before| ==> Somes(rows)[i] == before[i];
      DedupOfDistinct(key, rows[..n]);
      if rows[n].Some? {
        assert Somes(rows)[|before|] == rows[n].value;
        PutNew(key, before, rows[n].value);
      }
    }
  }

  /** Thinning a list out keeps its keys distinct. */
  lemma {:induction false} SomesOfDistinct<T, K>(key: T -> K, cs: seq<T>, rows: seq<Option<T>>)
    requires |rows| == |cs| && Distinct(key, cs)
    requires forall i :: 0 <= i < |cs| && rows[i].Some? ==> key(rows[i].value) == key(cs[i])
    ensures Distinct(key, Somes(rows))
    ensures forall x :: x in Somes(rows) ==> exists i :: 0 <= i < |cs| && rows[i] == Some(x)
  {
    if rows != [] {
      var n := |rows| - 1;
      var front := rows[..n];
      assert forall i :: 0 <= i < n ==> front[i] == rows[i];
      SomesOfDistinct(key, cs[..n], front);
      forall x | x in Somes(front) ensures !Hides(key, rows[n], x) && exists i :: 0 <= i < n && rows[i] == Some(x) {
        var i :| 0 <= i < n && front[i] == Some(x);
        assert rows[i].Some?;
      }
      var before := Somes(front);
      forall j | 0 <= j < |before| ensures !Hides(key, rows[n], before[j]) { assert before[j] in before; }
    }
  }
}
