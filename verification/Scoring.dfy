/**
 The offline scorer: fields matched within aligned records, values grounded in the page, and
 record counts compared.
 */
module Scoring {
  import opened Wrappers
  import opened Sums

  datatype FieldValue = One(text: string) | Many(texts: seq<string>)

  type Record = map<string, FieldValue>

  datatype Case = Case(html: string, expected: seq<Record>)

  // A case together with what was produced for it.
  datatype Fixture = Fixture(html: string, produced: seq<Record>, expected: seq<Record>)

  // _as_value_list
  function AsValueList(v: FieldValue): seq<string> { if v.Many? then v.texts else [v.text] }

  function ValuesOf(r: Record, name: string): seq<string> { if name in r then AsValueList(r[name]) else [] }

  // ---- counting matches ----

  datatype Metrics = Metrics(tp: int, fp: int, fn: int)

  function Plus(a: Metrics, b: Metrics): Metrics { Metrics(a.tp + b.tp, a.fp + b.fp, a.fn + b.fn) }

  // Values the two lists share, with their multiplicities.
  function Shared(produced: seq<string>, expected: seq<string>): nat { |multiset(produced) * multiset(expected)| }

  function Compare(produced: seq<string>, expected: seq<string>): Metrics {
    var tp := Shared(produced, expected);
    Metrics(tp, |produced| - tp, |expected| - tp)
  }

  lemma SharedBounds(a: seq<string>, b: seq<string>)
    ensures Shared(a, b) == Shared(b, a) && Shared(a, b) <= |a| && Shared(a, b) <= |b| && Shared(a, a) == |a|
  {
    var x, y := multiset(a), multiset(b);
    assert x * y == y * x && x == x * y + (x - y) && y == x * y + (y - x) && x * x == x;
  }

  // A bag of values that both lists hold, with multiplicities.
  predicate CommonBag(m: multiset<string>, a: seq<string>, b: seq<string>) { m <= multiset(a) && m <= multiset(b) }

  // The size of a largest such bag.
  ghost predicate LargestCommon(n: int, a: seq<string>, b: seq<string>) {
    && (exists m :: CommonBag(m, a, b) && |m| == n)
    && (forall m :: CommonBag(m, a, b) ==> |m| <= n)
  }

  lemma SharedIsLargest(a: seq<string>, b: seq<string>)
    ensures LargestCommon(Shared(a, b), a, b)
  {
    var x := multiset(a) * multiset(b);
    assert CommonBag(x, a, b) && |x| == Shared(a, b);
    forall m | CommonBag(m, a, b) ensures |m| <= |x| {
      assert m <= x && x == m + (x - m);
    }
  }

  // What matching two lists of values adds: the largest common bag, and what each side has beyond it.
  ghost predicate Matched(before: Metrics, after: Metrics, produced: seq<string>, expected: seq<string>) {
    var n := after.tp - before.tp;
    && LargestCommon(n, produced, expected)
    && after.fp - before.fp == |produced| - n && after.fn - before.fn == |expected| - n
  }

  // Two records side by side.
  datatype Pair = Pair(produced: Record, expected: Record)

  function Compared(pair: Pair, name: string): Metrics {
    Compare(ValuesOf(pair.produced, name), ValuesOf(pair.expected, name))
  }

  // What all pairs add up to for one field, and which fields there are.
  function Count(ps: seq<Pair>, name: string): Metrics {
    if ps == [] then Metrics(0, 0, 0) else Plus(Count(ps[..|ps| - 1], name), Compared(ps[|ps| - 1], name))
  }

  function Fields(ps: seq<Pair>): set<string> {
    if ps == [] then {} else Fields(ps[..|ps| - 1]) + ps[|ps| - 1].produced.Keys + ps[|ps| - 1].expected.Keys
  }

  lemma {:induction false} CountOutside(ps: seq<Pair>, name: string)
    requires name !in Fields(ps)
    ensures Count(ps, name) == Metrics(0, 0, 0)
  {
    if ps != [] { CountOutside(ps[..|ps| - 1], name); }
  }

  function Exact(ps: seq<Pair>): nat {
    if ps == [] then 0 else Exact(ps[..|ps| - 1]) + B(ps[|ps| - 1].produced == ps[|ps| - 1].expected)
  }

  function RecordAt(rs: seq<Record>, i: nat): Record { if i < |rs| then rs[i] else map[] }

  function Span(f: Fixture): nat { if |f.produced| >= |f.expected| then |f.produced| else |f.expected| }

  // The records of a fixture side by side; a missing one counts as empty.
  function Aligned(f: Fixture): seq<Pair> {
    seq(Span(f), i requires 0 <= i < Span(f) => Pair(RecordAt(f.produced, i), RecordAt(f.expected, i)))
  }

  function AllPairs(fs: seq<Fixture>): seq<Pair> {
    if fs == [] then [] else AllPairs(fs[..|fs| - 1]) + Aligned(fs[|fs| - 1])
  }

  class FieldMetrics {
    var tp: int
    var fp: int
    var fn: int

    constructor ()
      ensures Value() == Metrics(0, 0, 0)
    {
      tp, fp, fn := 0, 0, 0;
    }

    function Value(): Metrics
      reads this
    {
      Metrics(tp, fp, fn)
    }

    // _count_field_matches
    method CountFieldMatches(produced: seq<string>, expected: seq<string>)
      modifies this
      ensures Value() == Plus(old(Value()), Compare(produced, expected))
      ensures Matched(old(Value()), Value(), produced, expected)
    {
      SharedIsLargest(produced, expected);
      var producedCounts, expectedCounts := multiset(produced), multiset(expected);
      var shared := |producedCounts * expectedCounts|;
      tp := tp + shared;
      fp := fp + |producedCounts| - shared;
      fn := fn + |expectedCounts| - shared;
    }
  }

  // No two fields share their metrics.
  ghost predicate Separate(t: map<string, FieldMetrics>) { forall m, n :: m in t && n in t && m != n ==> t[m] != t[n] }

  function Counts(ps: seq<Pair>): string -> Metrics { n => Count(ps, n) }

  // The dictionary holds these fields with these counts.
  ghost predicate Shows(t: map<string, FieldMetrics>, fields: set<string>, f: string -> Metrics)
    reads t.Values
  {
    t.Keys == fields && forall n :: n in t ==> t[n].Value() == f(n)
  }

  ghost predicate ShowsPairs(t: map<string, FieldMetrics>, ps: seq<Pair>)
    reads t.Values
  {
    Shows(t, Fields(ps), Counts(ps))
  }

  // It holds the later counts already, except for names that remain to be done.
  ghost predicate Partly(t: map<string, FieldMetrics>, fields: set<string>, f: string -> Metrics,
      g: string -> Metrics, todo: set<string>)
    reads t.Values
  {
    fields - todo <= t.Keys <= fields && forall n :: n in t ==> t[n].Value() == if n in todo then f(n) else g(n)
  }

  // Counts g after the pair, from counts f before it.
  ghost predicate Adds(fields: set<string>, f: string -> Metrics, g: string -> Metrics, pair: Pair) {
    && (forall n :: g(n) == Plus(f(n), Compared(pair, n)))
    && (forall n :: n !in fields ==> f(n) == Metrics(0, 0, 0))
    && (forall n :: n !in pair.produced && n !in pair.expected ==> g(n) == f(n))
  }

  lemma PairAdds(ps: seq<Pair>, pair: Pair)
    ensures Fields(ps + [pair]) == Fields(ps) + pair.produced.Keys + pair.expected.Keys
    ensures Adds(Fields(ps), Counts(ps), Counts(ps + [pair]), pair)
  {
    assert (ps + [pair])[..|ps|] == ps;
    forall n | n !in Fields(ps) ensures Counts(ps)(n) == Metrics(0, 0, 0) { CountOutside(ps, n); }
    forall n | n !in pair.produced && n !in pair.expected ensures Counts(ps + [pair])(n) == Counts(ps)(n) {
      ComparedOutside(pair, n, Count(ps, n));
    }
  }

  lemma ComparedOutside(pair: Pair, name: string, m: Metrics)
    requires name !in pair.produced && name !in pair.expected
    ensures Plus(m, Compared(pair, name)) == m
  {
  }

  method CountRecord(t: map<string, FieldMetrics>, pair: Pair, ghost ps: seq<Pair>)
    returns (t': map<string, FieldMetrics>)
    requires Separate(t) && ShowsPairs(t, ps)
    modifies t.Values
    ensures Separate(t') && fresh(t'.Values - t.Values) && ShowsPairs(t', ps + [pair])
  {
    PairAdds(ps, pair);
    t' := CountNames(t, pair, Fields(ps), Counts(ps), Counts(ps + [pair]));
  }

  // The names of both records, in any order; a field is added to the dictionary when it is new.
  method CountNames(t: map<string, FieldMetrics>, pair: Pair, ghost fields: set<string>, ghost f: string -> Metrics,
      ghost g: string -> Metrics)
    returns (t': map<string, FieldMetrics>)
    requires Separate(t) && Shows(t, fields, f) && Adds(fields, f, g, pair)
    modifies t.Values
    ensures Separate(t') && fresh(t'.Values - t.Values)
    ensures Shows(t', fields + pair.produced.Keys + pair.expected.Keys, g)
  {
    t' := t;
    var names := pair.produced.Keys + pair.expected.Keys;
    var todo := names;
    ghost var all := fields + pair.produced.Keys + pair.expected.Keys;
    while todo != {}
      invariant todo <= names
      invariant Separate(t') && fresh(t'.Values - t.Values) && t.Keys <= t'.Keys && Partly(t', all, f, g, todo)
    {
      var name :| name in todo;
      t' := CountField(t', name, ValuesOf(pair.produced, name), ValuesOf(pair.expected, name), all, f, g, todo);
      todo := todo - {name};
    }
  }

  method CountField(t: map<string, FieldMetrics>, name: string, produced: seq<string>, expected: seq<string>,
                    ghost fields: set<string>, ghost f: string -> Metrics, ghost g: string -> Metrics,
                    ghost todo: set<string>)
    returns (t': map<string, FieldMetrics>)
    requires Separate(t) && Partly(t, fields, f, g, todo) && name in todo && name in fields
    requires g(name) == Plus(f(name), Compare(produced, expected)) && (name !in t ==> f(name) == Metrics(0, 0, 0))
    modifies t.Values
    ensures Separate(t') && fresh(t'.Values - t.Values) && t.Keys <= t'.Keys && Partly(t', fields, f, g, todo - {name})
  {
    t' := FieldFor(t, name);
    t'[name].CountFieldMatches(produced, expected);
  }

  // The dictionary with metrics for this field; new ones count nothing yet.
  method FieldFor(t: map<string, FieldMetrics>, name: string) returns (t': map<string, FieldMetrics>)
    requires Separate(t)
    ensures Separate(t') && t'.Keys == t.Keys + {name} && forall n :: n in t ==> t'[n] == t[n]
    ensures name !in t ==> fresh(t'[name]) && t'[name].Value() == Metrics(0, 0, 0)
  {
    t' := t;
    if name !in t {
      var metrics := new FieldMetrics();
      t' := t[name := metrics];
    }
  }

  lemma PairsGrow(ps: seq<Pair>, qs: seq<Pair>, i: nat, pair: Pair)
    requires i < |qs| && qs[i] == pair
    ensures ps + qs[..i + 1] == ps + qs[..i] + [pair]
    ensures Exact(qs[..i + 1]) == Exact(qs[..i]) + B(pair.produced == pair.expected)
  {
    assert qs[..i + 1] == qs[..i] + [pair] && qs[..i + 1][..i] == qs[..i];
  }

  // The aligned records of one fixture, and how many of them are equal.
  method CountAligned(t: map<string, FieldMetrics>, f: Fixture, ghost ps: seq<Pair>, ghost qs: seq<Pair>)
    returns (t': map<string, FieldMetrics>, exact: nat)
    requires Separate(t) && ShowsPairs(t, ps) && qs == Aligned(f)
    modifies t.Values
    ensures Separate(t') && fresh(t'.Values - t.Values)
    ensures ShowsPairs(t', ps + qs) && exact == Exact(qs)
  {
    t', exact := t, 0;
    var n := Span(f);
    assert ps + qs[..0] == ps && |qs| == n;
    for i := 0 to n
      invariant Separate(t') && fresh(t'.Values - t.Values)
      invariant ShowsPairs(t', ps + qs[..i]) && exact == Exact(qs[..i])
    {
      var pair := Pair(RecordAt(f.produced, i), RecordAt(f.expected, i));
      PairsGrow(ps, qs, i, pair);
      if pair.produced == pair.expected { exact := exact + 1; }
      t' := CountRecord(t', pair, ps + qs[..i]);
    }
    assert qs[..n] == qs;
  }

  // ---- grounding ----

  predicate Contains(html: string, value: string) {
    value <= html || (html != "" && Contains(html[1..], value))
  }

  predicate OccursAt(html: string, value: string, i: nat) { i + |value| <= |html| && html[i..i + |value|] == value }

  /** Contained means: it occurs somewhere in the page. */
  lemma {:induction false} ContainsIff(html: string, value: string)
    ensures Contains(html, value) <==> exists i: nat :: OccursAt(html, value, i)
  {
    if value <= html {
      assert OccursAt(html, value, 0);
    } else if html != "" {
      var rest := html[1..];
      ContainsIff(rest, value);
      if i: nat :| OccursAt(rest, value, i) { assert OccursAt(html, value, i + 1); }
      if i: nat :| OccursAt(html, value, i) { assert OccursAt(rest, value, i - 1); }
    }
  }

  function Ungrounded(html: string, values: seq<string>): nat {
    if values == [] then 0 else Ungrounded(html, values[..|values| - 1]) + B(!Contains(html, values[|values| - 1]))
  }

  function Sizes(r: Record): string -> int { n => |ValuesOf(r, n)| }

  function Misses(html: string, r: Record): string -> int { n => Ungrounded(html, ValuesOf(r, n)) }

  ghost function Emitted(rs: seq<Record>): int {
    if rs == [] then 0 else Emitted(rs[..|rs| - 1]) + Sum(rs[|rs| - 1].Keys, Sizes(rs[|rs| - 1]))
  }

  ghost function Missed(html: string, rs: seq<Record>): int {
    if rs == [] then 0 else Missed(html, rs[..|rs| - 1]) + Sum(rs[|rs| - 1].Keys, Misses(html, rs[|rs| - 1]))
  }

  method GroundRecord(html: string, r: Record) returns (emitted: int, missed: int)
    ensures emitted == Sum(r.Keys, Sizes(r)) && missed == Sum(r.Keys, Misses(html, r))
  {
    emitted, missed := 0, 0;
    var todo, done := r.Keys, {};
    while todo != {}
      invariant todo !! done && todo + done == r.Keys
      invariant emitted == Sum(done, Sizes(r)) && missed == Sum(done, Misses(html, r))
    {
      var name :| name in todo;
      var values := AsValueList(r[name]);
      SumInsert(done, Sizes(r), name);
      SumInsert(done, Misses(html, r), name);
      var m := CountMisses(html, values);
      emitted, missed := emitted + |values|, missed + m;
      todo, done := todo - {name}, done + {name};
    }
    assert done == r.Keys;
  }

  method CountMisses(html: string, values: seq<string>) returns (missed: nat)
    ensures missed == Ungrounded(html, values)
  {
    missed := 0;
    for i := 0 to |values|
      invariant missed == Ungrounded(html, values[..i])
    {
      assert values[..i + 1][..i] == values[..i];
      if !Contains(html, values[i]) { missed := missed + 1; }
    }
    assert values[..|values|] == values;
  }

  method GroundRecords(html: string, rs: seq<Record>) returns (emitted: int, missed: int)
    ensures emitted == Emitted(rs) && missed == Missed(html, rs)
  {
    emitted, missed := 0, 0;
    for i := 0 to |rs|
      invariant emitted == Emitted(rs[..i]) && missed == Missed(html, rs[..i])
    {
      assert rs[..i + 1][..i] == rs[..i];
      var e, m := GroundRecord(html, rs[i]);
      emitted, missed := emitted + e, missed + m;
    }
    assert rs[..|rs|] == rs;
  }

  // ---- sums over fixtures ----

  // What the fixtures add up to, apart from the fields.
  datatype Tally = Tally(emitted: int, missed: int, bounded: int, produced: int, expected: int)

  ghost function FixtureTally(f: Fixture): Tally {
    Tally(Emitted(f.produced), Missed(f.html, f.produced), B(|f.produced| == |f.expected|), |f.produced|, |f.expected|)
  }

  function Both(a: Tally, b: Tally): Tally {
    Tally(a.emitted + b.emitted, a.missed + b.missed, a.bounded + b.bounded, a.produced + b.produced,
          a.expected + b.expected)
  }

  ghost function TallyOf(fs: seq<Fixture>): Tally {
    if fs == [] then Tally(0, 0, 0, 0, 0) else Both(TallyOf(fs[..|fs| - 1]), FixtureTally(fs[|fs| - 1]))
  }

  function Tps(f: string -> Metrics): string -> int { n => f(n).tp }
  function Fps(f: string -> Metrics): string -> int { n => f(n).fp }
  function Fns(f: string -> Metrics): string -> int { n => f(n).fn }

  ghost function Tp(ps: seq<Pair>): int { Sum(Fields(ps), Tps(Counts(ps))) }
  ghost function Fp(ps: seq<Pair>): int { Sum(Fields(ps), Fps(Counts(ps))) }
  ghost function Fn(ps: seq<Pair>): int { Sum(Fields(ps), Fns(Counts(ps))) }

  method SumMetrics(t: map<string, FieldMetrics>, ghost fields: set<string>, ghost f: string -> Metrics)
    returns (tp: int, fp: int, fn: int)
    requires Shows(t, fields, f)
    ensures tp == Sum(fields, Tps(f)) && fp == Sum(fields, Fps(f)) && fn == Sum(fields, Fns(f))
  {
    tp, fp, fn := 0, 0, 0;
    var todo, done := t.Keys, {};
    while todo != {}
      invariant todo !! done && todo + done == t.Keys
      invariant tp == Sum(done, Tps(f)) && fp == Sum(done, Fps(f)) && fn == Sum(done, Fns(f))
    {
      var name :| name in todo;
      SumInsert(done, Tps(f), name); SumInsert(done, Fps(f), name); SumInsert(done, Fns(f), name);
      tp, fp, fn := tp + t[name].tp, fp + t[name].fp, fn + t[name].fn;
      todo, done := todo - {name}, done + {name};
    }
    assert done == fields;
  }

  method Snapshot(t: map<string, FieldMetrics>, ghost fields: set<string>, ghost f: string -> Metrics)
    returns (view: map<string, Metrics>)
    requires Shows(t, fields, f)
    ensures view.Keys == fields && forall n :: n in view ==> view[n] == f(n)
  {
    view := map n | n in t :: t[n].Value();
  }

  // ---- the report ----

  // One when there is nothing to take a part of.
  function Rate(part: int, whole: int): (r: real)
    ensures if whole == 0 then r == 1.0 else r * whole as real == part as real
  {
    if whole == 0 then 1.0 else part as real / whole as real
  }

  datatype Report = Report(fixtureCount: nat, precision: real, recall: real, perField: map<string, Metrics>,
                           emitted: int, hallucinated: int, groundingRate: real, boundaryRate: real, exactRate: real,
                           producedRecords: int, expectedRecords: int)

  function ReportFrom(n: nat, tp: int, fp: int, fn: int, view: map<string, Metrics>, t: Tally, exact: int,
      aligned: int): Report {
    Report(n, Rate(tp, tp + fp), Rate(tp, tp + fn), view, t.emitted, t.missed, Rate(t.emitted - t.missed, t.emitted),
           Rate(t.bounded, n), Rate(exact, aligned), t.produced, t.expected)
  }

  // The report over n fixtures whose aligned pairs are ps.
  ghost predicate Reports(r: Report, n: nat, ps: seq<Pair>, t: Tally) {
    && r == ReportFrom(n, Tp(ps), Fp(ps), Fn(ps), r.perField, t, Exact(ps), |ps|)
    && r.perField.Keys == Fields(ps) && forall f :: f in r.perField ==> r.perField[f] == Counts(ps)(f)
  }

  // For one field of the aligned pairs: a largest common bag for every pair, and the counts they
  // add up to.
  ghost predicate FieldMatched(ps: seq<Pair>, name: string, m: Metrics, ns: seq<int>) {
    && |ns| == |ps|
    && (forall i :: 0 <= i < |ps| ==>
          LargestCommon(ns[i], ValuesOf(ps[i].produced, name), ValuesOf(ps[i].expected, name)))
    && m.tp == Total(ns) && m.fp == FieldSize(ps, name, true) - m.tp && m.fn == FieldSize(ps, name, false) - m.tp
  }

  function Total(ns: seq<int>): int { if ns == [] then 0 else Total(ns[..|ns| - 1]) + ns[|ns| - 1] }

  // How many values a field has on one side.
  function FieldSize(ps: seq<Pair>, name: string, produced: bool): int {
    if ps == [] then 0
    else
      var last := ps[|ps| - 1];
      FieldSize(ps[..|ps| - 1], name, produced) + |ValuesOf(if produced then last.produced else last.expected, name)|
  }

  lemma FieldSizeSnoc(front: seq<Pair>, last: Pair, ps: seq<Pair>, name: string, produced: bool)
    requires ps == front + [last]
    ensures FieldSize(ps, name, produced)
         == FieldSize(front, name, produced) + |ValuesOf(if produced then last.produced else last.expected, name)|
  {
    assert ps[..|front|] == front;
  }

  lemma MatchedStep(front: seq<Pair>, last: Pair, ps: seq<Pair>, name: string, before: seq<int>, m: Metrics, d: Metrics)
    requires ps == front + [last] && FieldMatched(front, name, m, before) && d == Compared(last, name)
    ensures FieldMatched(ps, name, Plus(m, d), before + [d.tp])
  {
    SharedIsLargest(ValuesOf(last.produced, name), ValuesOf(last.expected, name));
    FieldSizeSnoc(front, last, ps, name, true);
    FieldSizeSnoc(front, last, ps, name, false);
    assert (before + [d.tp])[..|before|] == before;
  }

  lemma NothingMatched(ps: seq<Pair>, name: string)
    requires ps == []
    ensures FieldMatched(ps, name, Count(ps, name), [])
  {
  }

  lemma {:induction false} CountIsMatched(ps: seq<Pair>, name: string) returns (ns: seq<int>)
    ensures FieldMatched(ps, name, Count(ps, name), ns)
    decreases |ps|
  {
    ns := [];
    if ps == [] {
      NothingMatched(ps, name);
    } else {
      var front, last := ps[..|ps| - 1], ps[|ps| - 1];
      var before := CountIsMatched(front, name);
      assert ps == front + [last];
      MatchedStep(front, last, ps, name, before, Count(front, name), Compared(last, name));
      ns := before + [Compared(last, name).tp];
    }
  }

  function Zip(cases: seq<Case>, produced: seq<seq<Record>>): seq<Fixture>
    requires |cases| == |produced|
  {
    seq(|cases|, i requires 0 <= i < |cases| => Fixture(cases[i].html, produced[i], cases[i].expected))
  }

  lemma {:induction false} ExactAppends(ps: seq<Pair>, qs: seq<Pair>)
    ensures Exact(ps + qs) == Exact(ps) + Exact(qs)
  {
    if qs == [] {
      assert ps + qs == ps;
    } else {
      assert (ps + qs)[..|ps + qs| - 1] == ps + qs[..|qs| - 1];
      ExactAppends(ps, qs[..|qs| - 1]);
    }
  }

  // score_surface. Lists of different lengths are refused.
  method ScoreSurface(cases: seq<Case>, producedByFixture: seq<seq<Record>>) returns (r: Option<Report>)
    ensures r.Some? <==> |cases| == |producedByFixture|
    ensures r.Some? ==> var fs := Zip(cases, producedByFixture); Reports(r.value, |fs|, AllPairs(fs), TallyOf(fs))
    ensures r.Some? ==>
      var ps := AllPairs(Zip(cases, producedByFixture));
      forall f :: f in r.value.perField ==> exists ns :: FieldMatched(ps, f, r.value.perField[f], ns)
  {
    if |producedByFixture| != |cases| { return None; }
    var fs := Zip(cases, producedByFixture);
    var perField, sums, aligned, exact := CountFixtures(fs);
    ghost var fields, f := Fields(AllPairs(fs)), Counts(AllPairs(fs));
    var tp, fp, fn := SumMetrics(perField, fields, f);
    var view := Snapshot(perField, fields, f);
    r := Some(ReportFrom(|fs|, tp, fp, fn, view, sums, exact, aligned));
    forall name | name in view ensures exists ns :: FieldMatched(AllPairs(fs), name, view[name], ns) {
      var ns := CountIsMatched(AllPairs(fs), name);
    }
  }

  lemma FixturesGrow(fs: seq<Fixture>, i: nat, qs: seq<Pair>)
    requires i < |fs| && qs == Aligned(fs[i])
    ensures AllPairs(fs[..i + 1]) == AllPairs(fs[..i]) + qs && |qs| == Span(fs[i])
    ensures TallyOf(fs[..i + 1]) == Both(TallyOf(fs[..i]), FixtureTally(fs[i]))
  {
    assert fs[..i + 1][..i] == fs[..i];
  }

  // The loop over fixtures.
  method CountFixtures(fs: seq<Fixture>)
    returns (perField: map<string, FieldMetrics>, sums: Tally, aligned: int, exact: int)
    ensures ShowsPairs(perField, AllPairs(fs)) && sums == TallyOf(fs)
    ensures aligned == |AllPairs(fs)| && exact == Exact(AllPairs(fs))
  {
    perField, sums, aligned, exact := map[], Tally(0, 0, 0, 0, 0), 0, 0;
    ghost var ps: seq<Pair> := [];
    for i := 0 to |fs|
      invariant ps == AllPairs(fs[..i]) && sums == TallyOf(fs[..i])
      invariant Separate(perField) && fresh(perField.Values) && ShowsPairs(perField, ps)
      invariant aligned == |ps| && exact == Exact(ps)
    {
      var f := fs[i];
      ghost var qs := Aligned(f);
      FixturesGrow(fs, i, qs);
      ExactAppends(ps, qs);
      var x, e, m;
      perField, x := CountAligned(perField, f, ps, qs);
      e, m := GroundRecords(f.html, f.produced);
      sums := Both(sums, Tally(e, m, if |f.produced| == |f.expected| then 1 else 0, |f.produced|, |f.expected|));
      aligned, exact := aligned + Span(f), exact + x;
      ps := ps + qs;
    }
    assert fs[..|fs|] == fs;
  }
}
