/**
 What the scorer's sums count: equal pairs, fixtures with equal record counts, records, and values
 that occur nowhere in their page.
 */
module ScoringCounts {
  import opened Wrappers
  import opened Sums
  import opened Scoring

  // ---- counting places ----

  // The places below n where p holds.
  function Places(n: nat, p: nat -> bool): set<nat> { set i: nat | i < n && p(i) }

  lemma PlacesGrow(n: nat, p: nat -> bool)
    ensures |Places(n + 1, p)| == |Places(n, p)| + B(p(n))
  {
    if p(n) {
      assert Places(n + 1, p) == Places(n, p) + {n};
    } else {
      assert Places(n + 1, p) == Places(n, p);
    }
  }

  // Two tests that agree below n hold at the same places.
  lemma PlacesAgree(n: nat, p: nat -> bool, q: nat -> bool)
    requires forall i :: 0 <= i < n ==> p(i) == q(i)
    ensures Places(n, p) == Places(n, q)
  {
  }

  // ---- equal pairs ----

  function EqualAt(ps: seq<Pair>): nat -> bool { (i: nat) => i < |ps| && ps[i].produced == ps[i].expected }

  /** The exact matches are the number of aligned pairs that are equal. */
  lemma {:induction false} ExactCounts(ps: seq<Pair>)
    ensures Exact(ps) == |Places(|ps|, EqualAt(ps))|
    decreases |ps|
  {
    if ps != [] {
      var n := |ps| - 1;
      ExactCounts(ps[..n]);
      PlacesAgree(n, EqualAt(ps[..n]), EqualAt(ps));
      PlacesGrow(n, EqualAt(ps));
    }
  }

  // ---- grounding ----

  ghost predicate Occurs(html: string, value: string) { exists i: nat :: OccursAt(html, value, i) }

  ghost function AbsentAt(html: string, values: seq<string>): nat -> bool {
    (i: nat) => i < |values| && !Contains(html, values[i])
  }

  /** The misses of a list are the number of its values that occur nowhere in the page. */
  lemma {:induction false} UngroundedCounts(html: string, values: seq<string>)
    ensures Ungrounded(html, values) == |Places(|values|, AbsentAt(html, values))|
    ensures forall i :: 0 <= i < |values| ==> (AbsentAt(html, values)(i) <==> !Occurs(html, values[i]))
    decreases |values|
  {
    forall i | 0 <= i < |values| ensures AbsentAt(html, values)(i) <==> !Occurs(html, values[i]) {
      ContainsIff(html, values[i]);
    }
    if values != [] {
      var n := |values| - 1;
      UngroundedCounts(html, values[..n]);
      PlacesAgree(n, AbsentAt(html, values[..n]), AbsentAt(html, values));
      PlacesGrow(n, AbsentAt(html, values));
    }
  }

  // Every value of the record occurs in the page.
  ghost predicate Grounded(html: string, r: Record) {
    forall n, i :: n in r && 0 <= i < |ValuesOf(r, n)| ==> Occurs(html, ValuesOf(r, n)[i])
  }

  lemma RecordGroundedIff(html: string, r: Record)
    ensures Sum(r.Keys, Misses(html, r)) >= 0 && (Sum(r.Keys, Misses(html, r)) == 0 <==> Grounded(html, r))
  {
    SumZeroIff(r.Keys, Misses(html, r));
    forall n | n in r
      ensures Misses(html, r)(n) == 0 <==> forall i :: 0 <= i < |ValuesOf(r, n)| ==> Occurs(html, ValuesOf(r, n)[i])
    {
      AllOccurIff(html, ValuesOf(r, n));
    }
  }

  lemma AllOccurIff(html: string, values: seq<string>)
    ensures Ungrounded(html, values) == 0 <==> forall i :: 0 <= i < |values| ==> Occurs(html, values[i])
  {
    UngroundedCounts(html, values);
    var s := Places(|values|, AbsentAt(html, values));
    if s == {} {
      forall i | 0 <= i < |values| ensures Occurs(html, values[i]) { assert i !in s; }
    } else {
      var i :| i in s;
      assert AbsentAt(html, values)(i);
    }
  }

  ghost predicate AllGrounded(html: string, rs: seq<Record>) { forall i :: 0 <= i < |rs| ==> Grounded(html, rs[i]) }

  lemma GroundedSnoc(html: string, front: seq<Record>, last: Record, rs: seq<Record>)
    requires rs == front + [last]
    ensures AllGrounded(html, rs) <==> AllGrounded(html, front) && Grounded(html, last)
    ensures Missed(html, rs) == Missed(html, front) + Sum(last.Keys, Misses(html, last))
  {
    assert rs[..|front|] == front && rs[|front|] == last;
    assert forall i :: 0 <= i < |front| ==> front[i] == rs[i];
  }

  /** There are no hallucinations among a fixture's records if and only if every emitted value occurs
      in its page. */
  lemma {:induction false} NoneMissedIff(html: string, rs: seq<Record>)
    ensures Missed(html, rs) >= 0 && (Missed(html, rs) == 0 <==> AllGrounded(html, rs))
    decreases |rs|
  {
    if rs != [] {
      var front, last := rs[..|rs| - 1], rs[|rs| - 1];
      assert rs == front + [last];
      NoneMissedIff(html, front);
      RecordGroundedIff(html, last);
      GroundedSnoc(html, front, last, rs);
    }
  }

  // ---- fixtures ----

  function SameLength(fs: seq<Fixture>): nat -> bool { (i: nat) => i < |fs| && |fs[i].produced| == |fs[i].expected| }

  function AllProduced(fs: seq<Fixture>): seq<Record> {
    if fs == [] then [] else AllProduced(fs[..|fs| - 1]) + fs[|fs| - 1].produced
  }

  function AllExpected(fs: seq<Fixture>): seq<Record> {
    if fs == [] then [] else AllExpected(fs[..|fs| - 1]) + fs[|fs| - 1].expected
  }

  /** The boundary count is the number of fixtures whose record counts are equal, and the record
      counts are those of all produced and all expected records together. */
  lemma {:induction false} TallyCounts(fs: seq<Fixture>)
    ensures TallyOf(fs).bounded == |Places(|fs|, SameLength(fs))|
    ensures TallyOf(fs).produced == |AllProduced(fs)| && TallyOf(fs).expected == |AllExpected(fs)|
    decreases |fs|
  {
    if fs != [] {
      var n := |fs| - 1;
      TallyCounts(fs[..n]);
      PlacesAgree(n, SameLength(fs[..n]), SameLength(fs));
      PlacesGrow(n, SameLength(fs));
    }
  }
}
