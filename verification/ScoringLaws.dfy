// What the scorer's figures mean together.
module ScoringLaws {
  import opened Wrappers
  import opened Sums
  import opened Scoring

  // ---- conservation ----

  function ProducedSide(ps: seq<Pair>): seq<Record> { seq(|ps|, i requires 0 <= i < |ps| => ps[i].produced) }
  function ExpectedSide(ps: seq<Pair>): seq<Record> { seq(|ps|, i requires 0 <= i < |ps| => ps[i].expected) }

  function TpFps(f: string -> Metrics): string -> int { n => f(n).tp + f(n).fp }
  function TpFns(f: string -> Metrics): string -> int { n => f(n).tp + f(n).fn }

  // Adding a pair adds its values, for counts f before and g after.
  lemma PairConserves(fields: set<string>, f: string -> Metrics, g: string -> Metrics, pair: Pair)
    requires Adds(fields, f, g, pair)
    ensures var all, p, e := fields + pair.produced.Keys + pair.expected.Keys, pair.produced, pair.expected;
      Sum(all, TpFps(g)) == Sum(fields, TpFps(f)) + Sum(p.Keys, Sizes(p))
      && Sum(all, TpFns(g)) == Sum(fields, TpFns(f)) + Sum(e.Keys, Sizes(e))
  {
    var p, e := pair.produced, pair.expected;
    SumOfParts(fields + p.Keys + e.Keys, fields, p.Keys, TpFps(g), TpFps(f), Sizes(p));
    SumOfParts(fields + p.Keys + e.Keys, fields, e.Keys, TpFns(g), TpFns(f), Sizes(e));
  }

  lemma CountsGrow(front: seq<Pair>, pair: Pair, ps: seq<Pair>)
    requires ps == front + [pair]
    ensures Sum(Fields(ps), TpFps(Counts(ps))) ==
      Sum(Fields(front), TpFps(Counts(front))) + Sum(pair.produced.Keys, Sizes(pair.produced))
    ensures Sum(Fields(ps), TpFns(Counts(ps))) ==
      Sum(Fields(front), TpFns(Counts(front))) + Sum(pair.expected.Keys, Sizes(pair.expected))
  {
    PairAdds(front, pair);
    PairConserves(Fields(front), Counts(front), Counts(ps), pair);
  }

  lemma EmittedSnoc(rs: seq<Record>, r: Record)
    ensures Emitted(rs + [r]) == Emitted(rs) + Sum(r.Keys, Sizes(r))
  {
    assert (rs + [r])[..|rs|] == rs;
  }

  lemma SidesGrow(front: seq<Pair>, pair: Pair, ps: seq<Pair>)
    requires ps == front + [pair]
    ensures Emitted(ProducedSide(ps)) == Emitted(ProducedSide(front)) + Sum(pair.produced.Keys, Sizes(pair.produced))
    ensures Emitted(ExpectedSide(ps)) == Emitted(ExpectedSide(front)) + Sum(pair.expected.Keys, Sizes(pair.expected))
  {
    EmittedSnoc(ProducedSide(front), pair.produced);
    EmittedSnoc(ExpectedSide(front), pair.expected);
    assert ProducedSide(ps) == ProducedSide(front) + [pair.produced];
    assert ExpectedSide(ps) == ExpectedSide(front) + [pair.expected];
  }

  // Together the counts account for every value of the records.
  ghost predicate Conserves(ps: seq<Pair>) {
    && Sum(Fields(ps), TpFps(Counts(ps))) == Emitted(ProducedSide(ps))
    && Sum(Fields(ps), TpFns(Counts(ps))) == Emitted(ExpectedSide(ps))
  }

  lemma ConservesStep(front: seq<Pair>, pair: Pair, ps: seq<Pair>)
    requires Conserves(front) && ps == front + [pair]
    ensures Conserves(ps)
  {
    CountsGrow(front, pair, ps);
    SidesGrow(front, pair, ps);
  }

  lemma ConservesNothing(ps: seq<Pair>)
    requires ps == []
    ensures Conserves(ps)
  {
  }

  lemma {:induction false} PairsConserve(ps: seq<Pair>)
    ensures Conserves(ps)
  {
    if ps == [] {
      ConservesNothing(ps);
    } else {
      var front, last := ps[..|ps| - 1], ps[|ps| - 1];
      PairsConserve(front);
      assert ps == front + [last];
      ConservesStep(front, last, ps);
    }
  }

  lemma {:induction false} EmittedAppends(rs: seq<Record>, qs: seq<Record>)
    ensures Emitted(rs + qs) == Emitted(rs) + Emitted(qs)
  {
    if qs == [] {
      assert rs + qs == rs;
    } else {
      assert (rs + qs)[..|rs + qs| - 1] == rs + qs[..|qs| - 1];
      EmittedAppends(rs, qs[..|qs| - 1]);
    }
  }

  // Empty records behind the others emit nothing.
  lemma {:induction false} PaddingEmitsNothing(rs: seq<Record>, padded: seq<Record>)
    requires |rs| <= |padded| && padded[..|rs|] == rs && forall i :: |rs| <= i < |padded| ==> padded[i] == map[]
    ensures Emitted(padded) == Emitted(rs)
  {
    if |padded| > |rs| {
      var n := |padded| - 1;
      assert padded[..n][..|rs|] == rs;
      PaddingEmitsNothing(rs, padded[..n]);
    } else {
      assert padded == rs;
    }
  }

  lemma AlignedEmits(f: Fixture)
    ensures Emitted(ProducedSide(Aligned(f))) == Emitted(f.produced)
    ensures Emitted(ExpectedSide(Aligned(f))) == Emitted(f.expected)
  {
    PaddingEmitsNothing(f.produced, ProducedSide(Aligned(f)));
    PaddingEmitsNothing(f.expected, ExpectedSide(Aligned(f)));
  }

  // Values the labels expect.
  ghost function ExpectedValues(fs: seq<Fixture>): int {
    if fs == [] then 0 else ExpectedValues(fs[..|fs| - 1]) + Emitted(fs[|fs| - 1].expected)
  }

  lemma SidesAppend(ps: seq<Pair>, qs: seq<Pair>)
    ensures ProducedSide(ps + qs) == ProducedSide(ps) + ProducedSide(qs)
    ensures ExpectedSide(ps + qs) == ExpectedSide(ps) + ExpectedSide(qs)
  {
  }

  lemma FixtureEmits(ps: seq<Pair>, f: Fixture, qs: seq<Pair>)
    requires qs == Aligned(f)
    ensures Emitted(ProducedSide(ps + qs)) == Emitted(ProducedSide(ps)) + Emitted(f.produced)
    ensures Emitted(ExpectedSide(ps + qs)) == Emitted(ExpectedSide(ps)) + Emitted(f.expected)
  {
    AlignedEmits(f);
    SidesAppend(ps, qs);
    EmittedAppends(ProducedSide(ps), ProducedSide(qs));
    EmittedAppends(ExpectedSide(ps), ExpectedSide(qs));
  }

  lemma {:induction false} FixturesEmit(fs: seq<Fixture>)
    ensures Emitted(ProducedSide(AllPairs(fs))) == TallyOf(fs).emitted
    ensures Emitted(ExpectedSide(AllPairs(fs))) == ExpectedValues(fs)
  {
    if fs != [] {
      var f := fs[|fs| - 1];
      FixturesEmit(fs[..|fs| - 1]);
      FixtureEmits(AllPairs(fs[..|fs| - 1]), f, Aligned(f));
    }
  }

  /** The matching loop and the grounding loop agree: true and false positives together are the
      emitted values, and true positives and false negatives the expected ones. */
  lemma CountsAreConserved(fs: seq<Fixture>)
    ensures var ps := AllPairs(fs);
      Tp(ps) + Fp(ps) == TallyOf(fs).emitted && Tp(ps) + Fn(ps) == ExpectedValues(fs)
  {
    var ps := AllPairs(fs);
    var f := Counts(ps);
    SumPlus(Fields(ps), TpFps(f), Tps(f), Fps(f));
    SumPlus(Fields(ps), TpFns(f), Tps(f), Fns(f));
    PairsConserve(ps);
    FixturesEmit(fs);
  }

  // ---- rates ----

  ghost predicate NonNegative(m: Metrics) { m.tp >= 0 && m.fp >= 0 && m.fn >= 0 }

  lemma {:induction false} CountNonNegative(ps: seq<Pair>, name: string)
    ensures NonNegative(Count(ps, name))
  {
    if ps != [] {
      var last := ps[|ps| - 1];
      CountNonNegative(ps[..|ps| - 1], name);
      SharedBounds(ValuesOf(last.produced, name), ValuesOf(last.expected, name));
    }
  }

  lemma TotalsNonNegative(ps: seq<Pair>)
    ensures Tp(ps) >= 0 && Fp(ps) >= 0 && Fn(ps) >= 0
  {
    var f := Counts(ps);
    forall n ensures NonNegative(f(n)) { CountNonNegative(ps, n); }
    SumBound(Fields(ps), Tps(f), Tps(f)); SumBound(Fields(ps), Fps(f), Fps(f)); SumBound(Fields(ps), Fns(f), Fns(f));
  }

  lemma UngroundedBound(html: string, values: seq<string>)
    ensures Ungrounded(html, values) <= |values|
  {
  }

  lemma {:induction false} MissedBound(html: string, rs: seq<Record>)
    ensures 0 <= Missed(html, rs) <= Emitted(rs)
  {
    if rs != [] {
      var r := rs[|rs| - 1];
      MissedBound(html, rs[..|rs| - 1]);
      forall n | n in r.Keys ensures 0 <= Misses(html, r)(n) <= Sizes(r)(n) { UngroundedBound(html, ValuesOf(r, n)); }
      SumBound(r.Keys, Misses(html, r), Sizes(r));
    }
  }

  lemma {:induction false} TallyBounds(fs: seq<Fixture>)
    ensures var t := TallyOf(fs); 0 <= t.missed <= t.emitted && 0 <= t.bounded <= |fs|
  {
    if fs != [] {
      TallyBounds(fs[..|fs| - 1]);
      MissedBound(fs[|fs| - 1].html, fs[|fs| - 1].produced);
    }
  }

  ghost predicate EqualPairs(ps: seq<Pair>) { forall i :: 0 <= i < |ps| ==> ps[i].produced == ps[i].expected }

  lemma {:induction false} ExactIff(ps: seq<Pair>)
    ensures Exact(ps) <= |ps| && (Exact(ps) == |ps| <==> EqualPairs(ps))
  {
    if ps != [] { ExactIff(ps[..|ps| - 1]); }
  }

  lemma QuotientInUnit(r: real, p: real, w: real)
    requires w > 0.0 && 0.0 <= p <= w && r * w == p
    ensures 0.0 <= r <= 1.0 && (r == 1.0 <==> p == w)
  {
    var d := r - 1.0;
    assert r * w == d * w + w;
    ProductSign(r, w);
    ProductSign(d, w);
  }

  lemma ProductSign(a: real, w: real)
    requires w > 0.0
    ensures (a > 0.0 <==> a * w > 0.0) && (a < 0.0 <==> a * w < 0.0)
  {
  }

  lemma RateInUnit(part: int, whole: int)
    requires 0 <= part <= whole
    ensures Unit(Rate(part, whole)) && (Rate(part, whole) == 1.0 <==> part == whole)
  {
    if whole != 0 { QuotientInUnit(Rate(part, whole), part as real, whole as real); }
  }

  predicate Unit(x: real) { 0.0 <= x <= 1.0 }

  ghost predicate ReportOn(r: Report, fs: seq<Fixture>) { Reports(r, |fs|, AllPairs(fs), TallyOf(fs)) }

  lemma ReportRates(n: nat, tp: int, fp: int, fn: int, view: map<string, Metrics>, t: Tally, exact: int, aligned: int)
    requires tp >= 0 && fp >= 0 && fn >= 0 && 0 <= t.missed <= t.emitted && 0 <= t.bounded <= n && 0 <= exact <= aligned
    ensures var r := ReportFrom(n, tp, fp, fn, view, t, exact, aligned);
      && Unit(r.precision) && Unit(r.recall) && Unit(r.groundingRate) && Unit(r.boundaryRate) && Unit(r.exactRate)
      && (r.exactRate == 1.0 <==> exact == aligned) && (fp == 0 ==> r.precision == 1.0) && (fn == 0 ==> r.recall == 1.0)
  {
    RateInUnit(tp, tp + fp); RateInUnit(tp, tp + fn);
    RateInUnit(t.emitted - t.missed, t.emitted); RateInUnit(t.bounded, n); RateInUnit(exact, aligned);
  }

  // The figures of a report satisfy what its rates need.
  lemma ReportOnRates(fs: seq<Fixture>, r: Report, ps: seq<Pair>)
    requires ReportOn(r, fs) && ps == AllPairs(fs)
    ensures Unit(r.precision) && Unit(r.recall) && Unit(r.groundingRate) && Unit(r.boundaryRate) && Unit(r.exactRate)
    ensures (r.exactRate == 1.0 <==> EqualPairs(ps)) && (Fp(ps) == 0 ==> r.precision == 1.0) &&
      (Fn(ps) == 0 ==> r.recall == 1.0)
  {
    TotalsNonNegative(ps); TallyBounds(fs); ExactIff(ps);
    ReportRates(|fs|, Tp(ps), Fp(ps), Fn(ps), r.perField, TallyOf(fs), Exact(ps), |ps|);
  }

  /** Every rate of a report lies between zero and one, in total and for each field. */
  lemma RatesAreInUnit(fs: seq<Fixture>, r: Report)
    requires ReportOn(r, fs)
    ensures Unit(r.precision) && Unit(r.recall) && Unit(r.groundingRate) && Unit(r.boundaryRate) && Unit(r.exactRate)
    ensures forall n :: n in r.perField ==> UnitField(r.perField[n])
  {
    var ps := AllPairs(fs);
    ReportOnRates(fs, r, ps);
    forall n | n in r.perField ensures UnitField(r.perField[n]) { FieldRates(ps, n, r.perField[n]); }
  }

  predicate UnitField(m: Metrics) { Unit(Rate(m.tp, m.tp + m.fp)) && Unit(Rate(m.tp, m.tp + m.fn)) }

  lemma FieldRates(ps: seq<Pair>, n: string, m: Metrics)
    requires m == Count(ps, n)
    ensures UnitField(m)
  {
    CountNonNegative(ps, n);
    RateInUnit(m.tp, m.tp + m.fp); RateInUnit(m.tp, m.tp + m.fn);
  }

  // ---- swapping the two sides ----

  function Swapped(f: Fixture): Fixture { Fixture(f.html, f.expected, f.produced) }

  function AllSwapped(fs: seq<Fixture>): seq<Fixture> { seq(|fs|, i requires 0 <= i < |fs| => Swapped(fs[i])) }

  function SwappedPairs(ps: seq<Pair>): seq<Pair> {
    seq(|ps|, i requires 0 <= i < |ps| => Pair(ps[i].expected, ps[i].produced))
  }

  function Turned(m: Metrics): Metrics { Metrics(m.tp, m.fn, m.fp) }

  lemma {:induction false} CountSwaps(ps: seq<Pair>, name: string)
    ensures Count(SwappedPairs(ps), name) == Turned(Count(ps, name))
  {
    if ps != [] {
      var last := ps[|ps| - 1];
      assert SwappedPairs(ps)[..|ps| - 1] == SwappedPairs(ps[..|ps| - 1]);
      CountSwaps(ps[..|ps| - 1], name);
      SharedBounds(ValuesOf(last.produced, name), ValuesOf(last.expected, name));
    }
  }

  lemma {:induction false} FieldsSwap(ps: seq<Pair>)
    ensures Fields(SwappedPairs(ps)) == Fields(ps) && Exact(SwappedPairs(ps)) == Exact(ps)
  {
    if ps != [] {
      assert SwappedPairs(ps)[..|ps| - 1] == SwappedPairs(ps[..|ps| - 1]);
      FieldsSwap(ps[..|ps| - 1]);
    }
  }

  lemma SwappedAppend(ps: seq<Pair>, qs: seq<Pair>)
    ensures SwappedPairs(ps + qs) == SwappedPairs(ps) + SwappedPairs(qs)
  {
  }

  lemma AlignedSwaps(f: Fixture)
    ensures Aligned(Swapped(f)) == SwappedPairs(Aligned(f))
  {
  }

  lemma {:induction false} FixturesSwap(fs: seq<Fixture>)
    ensures AllPairs(AllSwapped(fs)) == SwappedPairs(AllPairs(fs))
    ensures TallyOf(AllSwapped(fs)).bounded == TallyOf(fs).bounded
  {
    if fs != [] {
      var f, front := fs[|fs| - 1], fs[..|fs| - 1];
      assert AllSwapped(fs)[..|fs| - 1] == AllSwapped(front);
      FixturesSwap(front);
      AlignedSwaps(f);
      SwappedAppend(AllPairs(front), Aligned(f));
    }
  }

  lemma TotalsSwap(ps: seq<Pair>, qs: seq<Pair>)
    requires qs == SwappedPairs(ps)
    ensures Tp(qs) == Tp(ps) && Fp(qs) == Fn(ps) && Fn(qs) == Fp(ps)
  {
    var f, g := Counts(ps), Counts(qs);
    FieldsSwap(ps);
    forall n ensures g(n) == Turned(f(n)) { CountSwaps(ps, n); }
    SumSupport(Fields(qs), Fields(ps), Tps(g), Tps(f));
    SumSupport(Fields(qs), Fields(ps), Fps(g), Fns(f));
    SumSupport(Fields(qs), Fields(ps), Fns(g), Fps(f));
  }

  /** Exchanging what was produced with what was expected exchanges precision and recall, and
      keeps the true positives, the exact matches and the boundary rate. */
  lemma SwapExchangesPrecisionAndRecall(fs: seq<Fixture>, a: Report, b: Report)
    requires ReportOn(a, AllSwapped(fs)) && ReportOn(b, fs)
    ensures a.precision == b.recall && a.recall == b.precision && a.exactRate == b.exactRate &&
      a.boundaryRate == b.boundaryRate
    ensures Tp(AllPairs(AllSwapped(fs))) == Tp(AllPairs(fs)) && a.perField.Keys == b.perField.Keys
    ensures forall n :: n in a.perField ==> a.perField[n] == Turned(b.perField[n])
  {
    var ps, qs := AllPairs(fs), AllPairs(AllSwapped(fs));
    FixturesSwap(fs);
    FieldsSwap(ps);
    TotalsSwap(ps, qs);
    forall n | n in a.perField ensures a.perField[n] == Turned(b.perField[n]) { CountSwaps(ps, n); }
  }

  // ---- exact matches ----

  lemma {:induction false} EqualPairsHaveNoErrors(ps: seq<Pair>, name: string)
    requires EqualPairs(ps)
    ensures Count(ps, name).fp == 0 && Count(ps, name).fn == 0
  {
    if ps != [] {
      var values := ValuesOf(ps[|ps| - 1].produced, name);
      EqualPairsHaveNoErrors(ps[..|ps| - 1], name);
      SharedBounds(values, values);
    }
  }

  /** The exact-match rate is one exactly when all aligned records are equal, a missing record
      counting as an empty one; precision and recall are then one as well. */
  lemma FullExactRateIff(fs: seq<Fixture>, r: Report)
    requires ReportOn(r, fs)
    ensures r.exactRate == 1.0 <==> EqualPairs(AllPairs(fs))
    ensures r.exactRate == 1.0 ==> r.precision == 1.0 && r.recall == 1.0
  {
    var ps := AllPairs(fs);
    ReportOnRates(fs, r, ps);
    if EqualPairs(ps) { NoErrorsInTotal(ps); }
  }

  lemma NoErrorsInTotal(ps: seq<Pair>)
    requires EqualPairs(ps)
    ensures Fp(ps) == 0 && Fn(ps) == 0
  {
    var f := Counts(ps);
    forall n ensures f(n).fp == 0 && f(n).fn == 0 { EqualPairsHaveNoErrors(ps, n); }
    SumSupport(Fields(ps), {}, Fps(f), Fps(f)); SumSupport(Fields(ps), {}, Fns(f), Fns(f));
  }

  // ---- perfect matches ----

  lemma SharedIsAllIff(a: seq<string>, b: seq<string>)
    ensures Shared(a, b) == |a| && Shared(a, b) == |b| <==> multiset(a) == multiset(b)
  {
    var x, y := multiset(a), multiset(b);
    SharedBounds(a, b);
    assert x == x * y + (x - y) && y == x * y + (y - x);
    if |x * y| == |x| && |x * y| == |y| {
      assert |x - y| == 0 && |y - x| == 0;
      assert x - y == multiset{} && y - x == multiset{};
    }
    if x == y { SharedBounds(a, a); }
  }

  predicate SamePair(pair: Pair, name: string) {
    multiset(ValuesOf(pair.produced, name)) == multiset(ValuesOf(pair.expected, name))
  }

  // The aligned records hold the same values in this field, in any order.
  ghost predicate SameValues(ps: seq<Pair>, name: string) { forall i :: 0 <= i < |ps| ==> SamePair(ps[i], name) }

  lemma SameValuesSnoc(front: seq<Pair>, last: Pair, ps: seq<Pair>, name: string)
    requires ps == front + [last]
    ensures SameValues(ps, name) <==> SameValues(front, name) && SamePair(last, name)
  {
    assert ps[|front|] == last && forall i :: 0 <= i < |front| ==> ps[i] == front[i];
  }

  lemma ComparedPerfectIff(pair: Pair, name: string, m: Metrics)
    requires m == Compared(pair, name)
    ensures m.fp >= 0 && m.fn >= 0 && (m.fp == 0 && m.fn == 0 <==> SamePair(pair, name))
  {
    SharedBounds(ValuesOf(pair.produced, name), ValuesOf(pair.expected, name));
    SharedIsAllIff(ValuesOf(pair.produced, name), ValuesOf(pair.expected, name));
  }

  ghost predicate PerfectMeansSame(ps: seq<Pair>, name: string) {
    Count(ps, name).fp == 0 && Count(ps, name).fn == 0 <==> SameValues(ps, name)
  }

  lemma PerfectStep(front: seq<Pair>, last: Pair, ps: seq<Pair>, name: string)
    requires ps == front + [last] && PerfectMeansSame(front, name)
    ensures PerfectMeansSame(ps, name)
  {
    var m, d := Count(front, name), Compared(last, name);
    assert ps[..|front|] == front && Count(ps, name) == Plus(m, d);
    CountNonNegative(front, name);
    ComparedPerfectIff(last, name, d);
    SameValuesSnoc(front, last, ps, name);
  }

  lemma {:induction false} FieldPerfectIff(ps: seq<Pair>, name: string)
    ensures PerfectMeansSame(ps, name)
  {
    if ps != [] {
      var front, last := ps[..|ps| - 1], ps[|ps| - 1];
      assert ps == front + [last];
      FieldPerfectIff(front, name);
      PerfectStep(front, last, ps, name);
    }
  }

  lemma PerfectTotalsIff(ps: seq<Pair>)
    ensures Fp(ps) == 0 && Fn(ps) == 0 <==> forall name :: SameValues(ps, name)
  {
    var f := Counts(ps);
    forall n ensures f(n).fp >= 0 && f(n).fn >= 0 && (f(n).fp == 0 && f(n).fn == 0 <==> SameValues(ps, n)) {
      CountNonNegative(ps, n);
      FieldPerfectIff(ps, n);
    }
    SumZeroIff(Fields(ps), Fps(f));
    SumZeroIff(Fields(ps), Fns(f));
    assert Fp(ps) == 0 <==> forall n :: n in Fields(ps) ==> Fps(f)(n) == 0;
    assert Fn(ps) == 0 <==> forall n :: n in Fields(ps) ==> Fns(f)(n) == 0;
    forall n | n !in Fields(ps) ensures SameValues(ps, n) {
      CountOutside(ps, n);
      assert f(n).fp == 0 && f(n).fn == 0;
    }
  }

  /** Precision and recall are both one exactly when in every field the aligned records hold the
      same values, in any order. */
  lemma PerfectIff(fs: seq<Fixture>, r: Report)
    requires ReportOn(r, fs)
    ensures r.precision == 1.0 && r.recall == 1.0 <==> forall name :: SameValues(AllPairs(fs), name)
  {
    PerfectIffOn(fs, r, AllPairs(fs));
  }

  lemma PerfectIffOn(fs: seq<Fixture>, r: Report, ps: seq<Pair>)
    requires ReportOn(r, fs) && ps == AllPairs(fs)
    ensures r.precision == 1.0 && r.recall == 1.0 <==> forall name :: SameValues(ps, name)
  {
    TotalsNonNegative(ps);
    PerfectTotalsIff(ps);
    PerfectRates(|fs|, Tp(ps), Fp(ps), Fn(ps), r.perField, TallyOf(fs), Exact(ps), |ps|);
  }

  lemma PerfectRates(n: nat, tp: int, fp: int, fn: int, view: map<string, Metrics>, t: Tally, exact: int, aligned: int)
    requires tp >= 0 && fp >= 0 && fn >= 0
    ensures var r := ReportFrom(n, tp, fp, fn, view, t, exact, aligned);
      r.precision == 1.0 && r.recall == 1.0 <==> fp == 0 && fn == 0
  {
    RateInUnit(tp, tp + fp);
    RateInUnit(tp, tp + fn);
  }

  // The two lists bring their values in the same order: at every point the same values have come.
  ghost predicate SameOrder(a: seq<string>, b: seq<string>) {
    forall n :: 0 <= n <= |a| && n <= |b| ==> multiset(a[..n]) == multiset(b[..n])
  }

  lemma {:induction false} SameOrderIsSame(a: seq<string>, b: seq<string>)
    requires |a| == |b|
    ensures SameOrder(a, b) <==> a == b
    decreases |a|
  {
    if SameOrder(a, b) && a != [] {
      var m := |a| - 1;
      assert SameOrder(a[..m], b[..m]) by {
        forall n | 0 <= n <= m ensures multiset(a[..m][..n]) == multiset(b[..m][..n]) {
          assert a[..m][..n] == a[..n] && b[..m][..n] == b[..n];
        }
      }
      SameOrderIsSame(a[..m], b[..m]);
      assert a[..|a|] == a == a[..m] + [a[m]] && b[..|a|] == b == b[..m] + [b[m]];
      LastOfBag(a[..m], a[m], b[m]);
    }
  }

  lemma LastOfBag(front: seq<string>, x: string, y: string)
    requires multiset(front + [x]) == multiset(front + [y])
    ensures x == y
  {
    assert multiset{x} == multiset(front + [x]) - multiset(front) == multiset{y};
    assert x in multiset{y};
  }

  // Same field names, a single value where the other has one, and lists in the same order.
  ghost predicate SameShape(p: Record, e: Record) {
    p.Keys == e.Keys && forall n :: n in p ==> p[n].One? == e[n].One? && SameOrder(ValuesOf(p, n), ValuesOf(e, n))
  }

  lemma EqualIff(pair: Pair)
    ensures pair.produced == pair.expected <==>
      SameShape(pair.produced, pair.expected) && forall name :: SamePair(pair, name)
  {
    var p, e := pair.produced, pair.expected;
    if SameShape(p, e) && forall name :: SamePair(pair, name) {
      forall n | n in p ensures p[n] == e[n] {
        assert SamePair(pair, n);
        SameSize(ValuesOf(p, n), ValuesOf(e, n));
        SameOrderIsSame(ValuesOf(p, n), ValuesOf(e, n));
      }
    }
  }

  lemma SameSize(a: seq<string>, b: seq<string>)
    requires multiset(a) == multiset(b)
    ensures |a| == |b|
  {
    assert |multiset(a)| == |multiset(b)|;
  }

  ghost predicate SameShapes(ps: seq<Pair>) { forall i :: 0 <= i < |ps| ==> SameShape(ps[i].produced, ps[i].expected) }

  lemma EqualPairsIff(ps: seq<Pair>)
    ensures EqualPairs(ps) <==> SameShapes(ps) && forall name :: SameValues(ps, name)
  {
    if EqualPairs(ps) {
      forall i | 0 <= i < |ps| ensures SameShape(ps[i].produced, ps[i].expected) { EqualIff(ps[i]); }
    }
    if SameShapes(ps) && forall name :: SameValues(ps, name) {
      forall i | 0 <= i < |ps| ensures ps[i].produced == ps[i].expected {
        forall name ensures SamePair(ps[i], name) { assert SameValues(ps, name); }
        EqualIff(ps[i]);
      }
    }
  }

  /** The exact-match rate is one exactly when precision and recall are one and every aligned
      pair also has the same shape. */
  lemma ExactIsPerfectInShape(fs: seq<Fixture>, r: Report)
    requires ReportOn(r, fs)
    ensures r.exactRate == 1.0 <==> r.precision == 1.0 && r.recall == 1.0 && SameShapes(AllPairs(fs))
  {
    FullExactRateIff(fs, r);
    PerfectIff(fs, r);
    EqualPairsIff(AllPairs(fs));
  }

  /** One value and a list of that one value match perfectly and are not equal. */
  lemma PerfectIsNotExact(name: string, value: string)
    ensures var ps := [Pair(map[name := One(value)], map[name := Many([value])])];
      !EqualPairs(ps) && Count(ps, name) == Metrics(1, 0, 0)
  {
    var ps := [Pair(map[name := One(value)], map[name := Many([value])])];
    assert ps[0].produced[name] != ps[0].expected[name] && ps[..0] == [];
    SharedBounds([value], [value]);
  }

  /** A record that was not produced matches an expected one without fields, though the record
      counts differ. */
  lemma MissingRecordIsExact(html: string, r: Report)
    requires ReportOn(r, [Fixture(html, [], [map[]])])
    ensures r.exactRate == 1.0 && r.producedRecords == 0 && r.expectedRecords == 1
  {
    var f := Fixture(html, [], [map[]]);
    var fs := [f];
    assert fs[..0] == [];
    PairsOfMissing(f, fs, AllPairs(fs));
    FullExactRateIff(fs, r);
  }

  lemma PairsOfMissing(f: Fixture, fs: seq<Fixture>, ps: seq<Pair>)
    requires fs == [f] && f.produced == [] && f.expected == [map[]] && ps == AllPairs(fs)
    ensures EqualPairs(ps) && TallyOf(fs).produced == 0 && TallyOf(fs).expected == 1
  {
    assert fs[..0] == [] && ps == [] + Aligned(f);
  }
}
