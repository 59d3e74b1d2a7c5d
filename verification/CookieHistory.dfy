/**
 What a load gives back, over any history of saves: the cookies last saved for that user,
 domain and engine, and never those of another.
 */
module CookieHistory {
  import opened Wrappers
  import opened Text
  import opened CookieSelection
  import opened CookieNormalization
  import opened CookieStores

  type History = seq<Save>

  function TableAfter(cfg: Config, h: History): Table {
    if h == [] then map[] else Persist(cfg, TableAfter(cfg, h[..|h| - 1]), h[|h| - 1], |h| - 1).0
  }

  // The clock never goes back.
  ghost predicate Ordered(h: History) {
    (forall i :: 0 <= i < |h| ==> h[i].now <= h[i].again) && forall i, j :: 0 <= i < j < |h| ==> h[i].again <= h[j].now
  }

  ghost predicate After(h: History, t: real) { forall i :: 0 <= i < |h| ==> h[i].again <= t }

  // What a save is fingerprinted by.
  function Fingerprinted(cfg: Config, s: Save): (seq<Item>, Option<Engine>) {
    (Normalize(cfg.rules, Entries(Remembered(cfg, s)), s.again), Tag(s))
  }

  function FingerprintOf(cfg: Config, s: Save): string { cfg.digest(Fingerprinted(cfg, s).0, Fingerprinted(cfg, s).1) }

  // No two accepted saves of this history share a digest but not what was digested.
  ghost predicate NoCollision(cfg: Config, h: History) {
    forall s, o ::
      s in h && o in h && Accepted(cfg, s) && Accepted(cfg, o) && FingerprintOf(cfg, s) == FingerprintOf(cfg, o) ==>
        Fingerprinted(cfg, s) == Fingerprinted(cfg, o)
  }

  // The last accepted save under one key.
  function LastUnder(cfg: Config, h: History, user: int, key: string): Option<Save> {
    if h == [] then None
    else
      var s := h[|h| - 1];
      if FiledUnder(cfg, s, user, key) then Some(s) else LastUnder(cfg, h[..|h| - 1], user, key)
  }

  // What remains, at time t, of the cookies a save remembered.
  function Recalled(cfg: Config, s: Save, t: real): seq<Item> { Normalize(cfg.rules, Entries(Remembered(cfg, s)), t) }

  // The row is as save `o` wrote it.
  predicate WrittenBy(cfg: Config, row: Row, o: Save) {
    row.cookies == Remembered(cfg, o) && row.tag == Tag(o) && row.fingerprint == FingerprintOf(cfg, o)
  }

  // Some save of the history wrote the row, no later than t, and from t on the row gives back
  // what save `s` gives back.
  ghost predicate Mirrors(cfg: Config, h: History, row: Row, s: Save, t: real) {
    && row.tag == Tag(s)
    && (exists o :: o in h && Accepted(cfg, o) && o.again <= t && WrittenBy(cfg, row, o))
    && forall u :: u >= t ==> Recall(cfg, row, u) == Recalled(cfg, s, u)
  }

  lemma FreshRowMirrors(cfg: Config, h: History, s: Save, stamp: nat)
    requires s in h && Accepted(cfg, s)
    ensures Mirrors(cfg, h, RowOf(cfg, s, stamp), s, s.again)
  {
    assert WrittenBy(cfg, RowOf(cfg, s, stamp), s);
  }

  // Two saves fingerprinted alike give back the same from the later one on.
  lemma AlikeSaves(cfg: Config, o: Save, s: Save, u: real)
    requires o.state.Some? && s.state.Some? && Fingerprinted(cfg, o) == Fingerprinted(cfg, s)
    requires o.again <= u && s.again <= u
    ensures Recalled(cfg, o, u) == Recalled(cfg, s, u)
  {
    NormalizeIsNormal(cfg.rules, o.state.value.cookies, o.now);
    NormalizeIsNormal(cfg.rules, s.state.value.cookies, s.now);
    NormalizeAfterNormalize(cfg.rules, Remembered(cfg, o), o.again, u);
    NormalizeAfterNormalize(cfg.rules, Remembered(cfg, s), s.again, u);
  }

  // A row left alone because the fingerprints agree gives back what the new one would.
  lemma SkippedRowMirrors(cfg: Config, h: History, row: Row, before: Save, s: Save, t: real)
    requires NoCollision(cfg, h) && s in h && Accepted(cfg, s) && t <= s.now <= s.again
    requires Mirrors(cfg, h, row, before, t) && row.fingerprint == FingerprintOf(cfg, s)
    ensures Mirrors(cfg, h, row, s, s.again)
  {
    var o :| o in h && Accepted(cfg, o) && o.again <= t && WrittenBy(cfg, row, o);
    assert Fingerprinted(cfg, o) == Fingerprinted(cfg, s);
    forall u | u >= s.again ensures Recall(cfg, row, u) == Recalled(cfg, s, u) { AlikeSaves(cfg, o, s, u); }
  }

  lemma MirrorsLater(cfg: Config, h: History, row: Row, s: Save, t: real, u: real)
    requires Mirrors(cfg, h, row, s, t) && t <= u
    ensures Mirrors(cfg, h, row, s, u)
  {
    var o :| o in h && Accepted(cfg, o) && o.again <= t && WrittenBy(cfg, row, o);
  }

  // The end of a history's clock.
  function Now(h: History): real { if h == [] then 0.0 else h[|h| - 1].again }

  ghost predicate KeyMirrors(cfg: Config, h: History, table: Table, user: int, key: string, last: Option<Save>,
      t: real) {
    match last
    case None => (user, key) !in table
    case Some(s) => (user, key) in table && Mirrors(cfg, h, table[(user, key)], s, t)
  }

  predicate FiledUnder(cfg: Config, s: Save, user: int, key: string) {
    Accepted(cfg, s) && s.user == user && SaveKey(cfg, s) == key
  }

  // `h` is the whole history; the save comes at its place in it.
  lemma SaveKeepsMirror(cfg: Config, h: History, table: Table, user: int, key: string, last: Option<Save>, t: real,
      s: Save, stamp: nat)
    requires NoCollision(cfg, h) && s in h && KeyMirrors(cfg, h, table, user, key, last, t)
    requires (last.Some? ==> t <= s.now) && s.now <= s.again
    ensures var last' := if FiledUnder(cfg, s, user, key) then Some(s) else last;
      KeyMirrors(cfg, h, Persist(cfg, table, s, stamp).0, user, key, last', s.again)
  {
    if FiledUnder(cfg, s, user, key) {
      FreshRowMirrors(cfg, h, s, stamp);
      if last.Some? && table[(user, key)].fingerprint == RowOf(cfg, s, stamp).fingerprint {
        SkippedRowMirrors(cfg, h, table[(user, key)], last.value, s, t);
      }
    } else if last.Some? {
      MirrorsLater(cfg, h, table[(user, key)], last.value, t, s.again);
    }
  }

  /** Every key always holds what the last accepted save under it left, whether that save wrote
      its row or found the fingerprint unchanged: at every point of a history. */
  lemma {:induction false} TableMirrorsLastSaves(cfg: Config, h: History, n: nat, user: int, key: string)
    requires n <= |h| && NoCollision(cfg, h) && Ordered(h)
    ensures KeyMirrors(cfg, h, TableAfter(cfg, h[..n]), user, key, LastUnder(cfg, h[..n], user, key), Now(h[..n]))
  {
    if n > 0 {
      var front, last := h[..n - 1], h[n - 1];
      TableMirrorsLastSaves(cfg, h, n - 1, user, key);
      assert h[..n][..n - 1] == front && last in h;
      var before := LastUnder(cfg, front, user, key);
      SaveKeepsMirror(cfg, h, TableAfter(cfg, front), user, key, before, Now(front), last, n - 1);
    }
  }

  // ---- scopes ----

  // The domain a save is filed under.
  function FiledDomain(cfg: Config, domain: string): string { NormalizeDomain(cfg, NormalizeDomain(cfg, domain)) }

  // The last accepted save for one user, filed domain and engine. Saves that name no engine
  // count for the default one.
  function LastFor(cfg: Config, h: History, user: int, domain: string, e: Engine): Option<Save> {
    if h == [] then None
    else
      var s := h[|h| - 1];
      if Accepted(cfg, s) && s.user == user && FiledDomain(cfg, s.domain) == domain && Home(ParseEngine(s.engine)) == e
      then Some(s)
      else LastFor(cfg, h[..|h| - 1], user, domain, e)
  }

  ghost predicate PlainHistory(cfg: Config, h: History) {
    forall s :: s in h && Accepted(cfg, s) ==> Plain(FiledDomain(cfg, s.domain))
  }

  lemma {:induction false} LastUnderIsLastFor(cfg: Config, h: History, user: int, domain: string, e: Engine)
    requires PlainHistory(cfg, h) && Plain(domain)
    ensures LastUnder(cfg, h, user, KeyFor(e, domain)) == LastFor(cfg, h, user, domain, e)
  {
    if h != [] {
      var s := h[|h| - 1];
      LastUnderIsLastFor(cfg, h[..|h| - 1], user, domain, e);
      if Accepted(cfg, s) {
        assert s in h;
        KeysAreDistinct(Home(ParseEngine(s.engine)), FiledDomain(cfg, s.domain), e, domain);
      }
    }
  }

  // The domain a load looks under: it normalises once more if it opens its own session, and
  // once more for an engine other than the default one.
  function LookedUpDomain(cfg: Config, domain: string, e: Engine, opens: bool): string {
    var d := FiledDomain(cfg, domain);
    var d' := if opens then NormalizeDomain(cfg, d) else d;
    if e == Chromium then d' else NormalizeDomain(cfg, d')
  }

  // How often normalising drops a leading label from a host.
  function WwwLabels(host: string): nat { if "www." <= host then 1 + WwwLabels(host[4..]) else 0 }

  function DropWww(host: string, n: nat): string
    decreases n
  {
    if n == 0 || !("www." <= host) then host else DropWww(host[4..], n - 1)
  }

  // Reading the host out of this domain's host, with or without labels dropped, gives it back.
  ghost predicate StableHost(cfg: Config, domain: string) {
    forall n: nat :: cfg.host(DropWww(cfg.host(domain), n)) == DropWww(cfg.host(domain), n)
  }

  lemma {:induction false} DropOneMore(host: string, n: nat)
    ensures var h := DropWww(host, n); DropWww(host, n + 1) == if "www." <= h then h[4..] else h
    ensures DropWww(host, n + 1) == DropWww(host, n) <==> WwwLabels(host) <= n
    ensures WwwLabels(host) <= n ==> DropWww(host, n + 1) == DropWww(host, n)
    ensures |DropWww(host, n)| == |host| - 4 * if WwwLabels(host) <= n then WwwLabels(host) else n
    decreases n
  {
    if "www." <= host {
      if n > 0 { DropOneMore(host[4..], n - 1); }
      if n == 0 { assert DropWww(host[4..], 0) == host[4..]; }
    }
  }

  lemma DropsAgree(host: string, n: nat, m: nat)
    requires n <= m
    ensures DropWww(host, m) == DropWww(host, n) <==> n == m || WwwLabels(host) <= n
  {
    DropOneMore(host, n);
    DropOneMore(host, m);
    if WwwLabels(host) <= n { DropsSettle(host, n, m); }
  }

  lemma {:induction false} DropsSettle(host: string, n: nat, m: nat)
    requires WwwLabels(host) <= n <= m
    ensures DropWww(host, m) == DropWww(host, n)
    decreases m
  {
    if n < m {
      DropsSettle(host, n, m - 1);
      DropOneMore(host, m - 1);
    }
  }

  lemma NormalizeDrops(cfg: Config, domain: string, n: nat)
    requires StableHost(cfg, domain)
    ensures NormalizeDomain(cfg, domain) == DropWww(cfg.host(domain), 1)
    ensures NormalizeDomain(cfg, DropWww(cfg.host(domain), n)) == DropWww(cfg.host(domain), n + 1)
  {
    DropOneMore(cfg.host(domain), 0);
    DropOneMore(cfg.host(domain), n);
  }

  // What a load asks for, and what a save is filed under, in labels dropped.
  lemma DomainsInLabels(cfg: Config, domain: string, e: Engine, opens: bool)
    requires StableHost(cfg, domain)
    ensures FiledDomain(cfg, domain) == DropWww(cfg.host(domain), 2)
    ensures LookedUpDomain(cfg, domain, e, opens) == DropWww(cfg.host(domain), 2 + B(opens) + B(e != Chromium))
  {
    NormalizeDrops(cfg, domain, 1);
    NormalizeDrops(cfg, domain, 2);
    NormalizeDrops(cfg, domain, 3);
  }

  // When a load looks where saves for the same domain go: the caller brings the session and
  // asks for the default engine, or the host has at most two leading www labels.
  predicate Meets(cfg: Config, domain: string, e: Engine, opens: bool) {
    (e == Chromium && !opens) || WwwLabels(cfg.host(domain)) <= 2
  }

  lemma MeetsIff(cfg: Config, domain: string, e: Engine, opens: bool)
    requires StableHost(cfg, domain)
    ensures LookedUpDomain(cfg, domain, e, opens) == FiledDomain(cfg, domain) <==> Meets(cfg, domain, e, opens)
  {
    DomainsInLabels(cfg, domain, e, opens);
    DropsAgree(cfg.host(domain), 2, 2 + B(opens) + B(e != Chromium));
  }

  /** A load looks under the key that a save for the same domain and engine is filed under
      exactly when it names the default engine and comes with its session, or the host has at
      most two leading www labels; and the filed domain is not empty. */
  lemma LookupMeetsSaveIff(cfg: Config, domain: string, e: Engine, opens: bool)
    requires StableHost(cfg, domain) && NormalizeDomain(cfg, domain) != ""
    ensures LoadKeys(cfg, domain, Some(e), opens) == [StorageKey(cfg, NormalizeDomain(cfg, domain), Some(e))]
       <==> FiledDomain(cfg, domain) != "" && Meets(cfg, domain, e, opens)
  {
    var d, k := FiledDomain(cfg, domain), LookedUpDomain(cfg, domain, e, opens);
    MeetsIff(cfg, domain, e, opens);
    MeetsIff(cfg, domain, Chromium, opens);
    if d != "" && (opens ==> NormalizeDomain(cfg, d) != "") {
      LoadKeysOf(cfg, domain, e, opens);
      KeyForInjective(e, d, k);
    }
  }

  lemma KeyForInjective(e: Engine, d: string, k: string)
    ensures KeyFor(e, d) == KeyFor(e, k) <==> d == k
    ensures e != Chromium ==> KeyFor(e, d) != ""
  {
    var head := EngineName(e) + SEPARATOR;
    assert e != Chromium ==> KeyFor(e, d)[|head|..] == d && KeyFor(e, k)[|head|..] == k;
  }

  // The one key of a load that names a supported engine.
  lemma LoadKeysOf(cfg: Config, domain: string, e: Engine, opens: bool)
    requires NormalizeDomain(cfg, domain) != "" && FiledDomain(cfg, domain) != ""
    requires opens ==> NormalizeDomain(cfg, FiledDomain(cfg, domain)) != ""
    ensures var k := LookedUpDomain(cfg, domain, e, opens);
      LoadKeys(cfg, domain, Some(e), opens) == [if k == "" then "" else KeyFor(e, k)]
  {
  }

  /** Three leading www labels are enough, on both ways to miss: another engine, or a load that
      opens its own session. */
  lemma RepeatedWwwIsNotFound(cfg: Config, e: Engine, opens: bool)
    requires cfg.host("www.www.www.a") == "www.www.www.a" && cfg.host("www.www.a") == "www.www.a"
    requires cfg.host("www.a") == "www.a" && cfg.host("a") == "a" && (e != Chromium || opens)
    ensures StorageKey(cfg, NormalizeDomain(cfg, "www.www.www.a"), Some(e)) == KeyFor(e, "www.a")
    ensures LoadKeys(cfg, "www.www.www.a", Some(e), opens) == [KeyFor(e, "a")]
  {
    var a, b, c, d := "www.www.www.a", "www.www.a", "www.a", "a";
    assert a[4..] == b && b[4..] == c && c[4..] == d;
    assert NormalizeDomain(cfg, a) == b && NormalizeDomain(cfg, b) == c && NormalizeDomain(cfg, c) == d;
    assert NormalizeDomain(cfg, d) == d;
    LoadKeysOf(cfg, a, e, opens);
  }

  // ---- loads ----

  // What a load for a supported engine gives back at time t.
  function Expected(cfg: Config, last: Option<Save>, e: Engine, t: real): Option<seq<Item>> {
    if last.Some? && Matches(Tag(last.value), Some(e)) && Recalled(cfg, last.value, t) != []
    then Some(Recalled(cfg, last.value, t))
    else None
  }

  function NthOr(s: seq<string>, n: nat, otherwise: string): string { if n < |s| then s[n] else otherwise }

  lemma ListingOfOne(table: Table, user: int, key: string, found: seq<string>)
    requires Listing(table, user, [key], found)
    ensures found == if (user, key) in table then [key] else []
  {
    if (user, key) in table { assert key in [key]; }
    var first, second := NthOr(found, 0, key), NthOr(found, 1, key);
    assert first in [key] && second in [key] && key in [key];
    if (user, key) in table { assert key in found; }
  }

  // The table after a history answers a load whose only key is this one.
  lemma LoadUnderKey(cfg: Config, h: History, user: int, e: Engine, d: string, t: real)
    requires NoCollision(cfg, h) && Ordered(h) && PlainHistory(cfg, h) && After(h, t) && Plain(d)
    ensures var table, last := TableAfter(cfg, h), LastFor(cfg, h, user, d, e); var at := (user, KeyFor(e, d));
      && (at in table <==> last.Some?)
      && (last.Some? ==> table[at].tag == Tag(last.value) && Recall(cfg, table[at], t) == Recalled(cfg, last.value, t))
  {
    assert h[..|h|] == h;
    TableMirrorsLastSaves(cfg, h, |h|, user, KeyFor(e, d));
    LastUnderIsLastFor(cfg, h, user, d, e);
    if h == [] { assert LastFor(cfg, h, user, d, e) == None; }
  }

  /** After any history of saves, a load for a supported engine gives back exactly what is left
      of the cookies last saved for that user, engine and the domain it looks under: those of no
      other save, and nothing when there was none, when all have expired, or when the last save
      named no engine and its state belongs to another one. */
  lemma LoadReturnsLookedUp(cfg: Config, h: History, user: int, domain: string, e: Engine, opens: bool,
                            found: seq<string>, t: real, r: Option<seq<Item>>)
    requires NoCollision(cfg, h) && Ordered(h) && PlainHistory(cfg, h) && After(h, t) && user > 0
    requires NormalizeDomain(cfg, domain) != "" && FiledDomain(cfg, domain) != ""
    requires opens ==> NormalizeDomain(cfg, FiledDomain(cfg, domain)) != ""
    requires Plain(LookedUpDomain(cfg, domain, e, opens))
    requires Listing(TableAfter(cfg, h), user, LoadKeys(cfg, domain, Some(e), opens), found)
    requires Loads(cfg, TableAfter(cfg, h), user, found, Some(e), t, r)
    ensures r == Expected(cfg, LastFor(cfg, h, user, LookedUpDomain(cfg, domain, e, opens), e), e, t)
  {
    var d, table := LookedUpDomain(cfg, domain, e, opens), TableAfter(cfg, h);
    LoadKeysOf(cfg, domain, e, opens);
    ListingOfOne(table, user, KeyFor(e, d), found);
    LoadUnderKey(cfg, h, user, e, d, t);
    if (user, KeyFor(e, d)) in table { assert found[0] == KeyFor(e, d); }
  }

  /** So wherever loads and saves meet, a load gives back what was last saved for the same user,
      domain and engine. For the default engine and the caller's own session that is always. */
  lemma LoadReturnsLastSave(cfg: Config, h: History, user: int, domain: string, e: Engine, opens: bool,
                            found: seq<string>, t: real, r: Option<seq<Item>>)
    requires NoCollision(cfg, h) && Ordered(h) && PlainHistory(cfg, h) && After(h, t) && user > 0
    requires NormalizeDomain(cfg, domain) != "" && Plain(FiledDomain(cfg, domain))
    requires (e == Chromium && !opens) || (StableHost(cfg, domain) && WwwLabels(cfg.host(domain)) <= 2)
    requires Listing(TableAfter(cfg, h), user, LoadKeys(cfg, domain, Some(e), opens), found)
    requires Loads(cfg, TableAfter(cfg, h), user, found, Some(e), t, r)
    ensures r == Expected(cfg, LastFor(cfg, h, user, FiledDomain(cfg, domain), e), e, t)
  {
    if !(e == Chromium && !opens) {
      MeetsIff(cfg, domain, e, opens);
      MeetsIff(cfg, domain, Chromium, opens);
    }
    LoadReturnsLookedUp(cfg, h, user, domain, e, opens, found, t, r);
  }

  /** What comes back of a save at time t are the rows that were kept at the time of the save, that
      no later kept row replaced, and that are still kept at t. */
  lemma RecalledIff(cfg: Config, s: Save, t: real, x: Item)
    requires s.state.Some?
    ensures x in Recalled(cfg, s, t) <==>
      exists k: nat, c :: NotReplaced(cfg.rules, s.state.value.cookies, s.now, k, c) &&
        NormalizedCookie(cfg.rules, Some(c), t) == Some(x)
  {
    var rows, cs := s.state.value.cookies, Remembered(cfg, s);
    NormalizedIff(cfg.rules, rows, s.now);
    NormalizeIsNormal(cfg.rules, rows, s.now);
    NormalizeIsPass(cfg.rules, cs, t);
    PassMembers(cfg.rules, cs, t, x);
    if c :| c in cs && Kept(cfg.rules, Clean(c), t) && x == Clean(c) {
      var k: nat :| NotReplaced(cfg.rules, rows, s.now, k, c);
      assert NormalizedCookie(cfg.rules, Some(c), t) == Some(x);
    }
    if k: nat, c :| NotReplaced(cfg.rules, rows, s.now, k, c) && NormalizedCookie(cfg.rules, Some(c), t) == Some(x) {
      assert c in cs;
    }
  }

  /** A save that names its engine comes back to that engine, where loads and saves meet, as long as
      one of its cookies is still kept: all that is left of it, and nothing else. */
  lemma SavedComesBack(cfg: Config, h: History, s: Save, e: Engine, opens: bool, found: seq<string>, t: real,
                       r: Option<seq<Item>>, k: nat, c: Item, x: Item)
    requires NoCollision(cfg, h + [s]) && Ordered(h + [s]) && PlainHistory(cfg, h + [s]) && After(h + [s], t)
    requires s.user > 0 && s.state.Some? && ParseEngine(s.engine) == Some(e)
    requires NormalizeDomain(cfg, s.domain) != "" && Plain(FiledDomain(cfg, s.domain))
    requires (e == Chromium && !opens) || (StableHost(cfg, s.domain) && WwwLabels(cfg.host(s.domain)) <= 2)
    requires NotReplaced(cfg.rules, s.state.value.cookies, s.now, k, c) &&
      NormalizedCookie(cfg.rules, Some(c), t) == Some(x)
    requires Listing(TableAfter(cfg, h + [s]), s.user, LoadKeys(cfg, s.domain, Some(e), opens), found)
    requires Loads(cfg, TableAfter(cfg, h + [s]), s.user, found, Some(e), t, r)
    ensures r == Some(Recalled(cfg, s, t)) && x in Recalled(cfg, s, t)
  {
    RecalledIff(cfg, s, t, x);
    NormalizedIff(cfg.rules, s.state.value.cookies, s.now);
    assert c in Remembered(cfg, s);
    assert (h + [s])[..|h|] == h;
    LoadReturnsLastSave(cfg, h + [s], s.user, s.domain, e, opens, found, t, r);
  }

  // ---- which row was written last ----

  // The place in the history of the save that last wrote the row under a key.
  function LastWrite(cfg: Config, h: History, user: int, key: string): (m: Option<nat>)
    ensures m.Some? ==> m.value < |h| && FiledUnder(cfg, h[m.value], user, key)
  {
    if h == [] then None
    else
      var n := |h| - 1;
      if FiledUnder(cfg, h[n], user, key) && Persist(cfg, TableAfter(cfg, h[..n]), h[n], n).1 then Some(n)
      else LastWrite(cfg, h[..n], user, key)
  }

  // The row under a key is as save m of the history wrote it.
  ghost predicate Stamped(cfg: Config, h: History, table: Table, user: int, key: string, m: Option<nat>) {
    && ((user, key) in table <==> m.Some?)
    && (m.Some? ==> m.value < |h| && table[(user, key)] == RowOf(cfg, h[m.value], m.value))
  }

  lemma StampStep(cfg: Config, h: History, table: Table, user: int, key: string, m: Option<nat>, s: Save, n: nat)
    requires n < |h| && h[n] == s && Stamped(cfg, h, table, user, key, m)
    ensures var (after, wrote) := Persist(cfg, table, s, n);
      Stamped(cfg, h, after, user, key, if FiledUnder(cfg, s, user, key) && wrote then Some(n) else m)
  {
  }

  lemma {:induction false} StampsUpTo(cfg: Config, h: History, n: nat, user: int, key: string)
    requires n <= |h|
    ensures Stamped(cfg, h, TableAfter(cfg, h[..n]), user, key, LastWrite(cfg, h[..n], user, key))
  {
    if n > 0 {
      var front := h[..n - 1];
      StampsUpTo(cfg, h, n - 1, user, key);
      assert h[..n][..n - 1] == front;
      StampStep(cfg, h, TableAfter(cfg, front), user, key, LastWrite(cfg, front, user, key), h[n - 1], n - 1);
    }
  }

  /** A row's stamp is the place of the save that last wrote it, and the row is as that save wrote
      it; saves that were skipped leave both alone. */
  lemma StampIsLastWrite(cfg: Config, h: History, user: int, key: string)
    ensures Stamped(cfg, h, TableAfter(cfg, h), user, key, LastWrite(cfg, h, user, key))
  {
    assert h[..|h|] == h;
    StampsUpTo(cfg, h, |h|, user, key);
  }

  /** An accepted save is skipped exactly when the save that last wrote its row was fingerprinted
      from the same cookies and tag. Then nothing changes, its row's stamp included. */
  lemma SkippedIff(cfg: Config, h: History, s: Save)
    requires NoCollision(cfg, h + [s]) && Accepted(cfg, s)
    ensures var m := LastWrite(cfg, h, s.user, SaveKey(cfg, s));
      TableAfter(cfg, h + [s]) == TableAfter(cfg, h) <==>
      m.Some? && Fingerprinted(cfg, h[m.value]) == Fingerprinted(cfg, s)
  {
    var m, row := LastWrite(cfg, h, s.user, SaveKey(cfg, s)), RowOf(cfg, s, |h|);
    assert (h + [s])[..|h|] == h && (h + [s])[|h|] == s;
    StampIsLastWrite(cfg, h, s.user, SaveKey(cfg, s));
    UpsertSkipsIff(TableAfter(cfg, h), s.user, SaveKey(cfg, s), row);
    if m.Some? { AlikeIff(cfg, h + [s], h[m.value], s, m.value); }
  }

  lemma UpsertSkipsIff(table: Table, user: int, key: string, row: Row)
    requires (user, key) in table ==> table[(user, key)].stamp != row.stamp
    ensures Upsert(table, user, key, row).0 == table <==>
      (user, key) in table && table[(user, key)].fingerprint == row.fingerprint
  {
    assert table[(user, key) := row][(user, key)] == row;
  }

  lemma AlikeIff(cfg: Config, h: History, o: Save, s: Save, i: nat)
    requires NoCollision(cfg, h) && i < |h| && h[i] == o && s in h && Accepted(cfg, o) && Accepted(cfg, s)
    ensures FingerprintOf(cfg, o) == FingerprintOf(cfg, s) <==> Fingerprinted(cfg, o) == Fingerprinted(cfg, s)
  {
    assert o in h;
  }

  // No row of the user was written later than the one under this key.
  ghost predicate NewestKey(cfg: Config, h: History, user: int, key: string) {
    && LastWrite(cfg, h, user, key).Some?
    && forall o :: LastWrite(cfg, h, user, o).Some? ==>
         LastWrite(cfg, h, user, o).value <= LastWrite(cfg, h, user, key).value
  }

  /** The last accepted save has the user's newest row exactly when it was not skipped, or its row
      was the newest already: saving the same again does not bring a row to the front. */
  lemma LastSaveIsNewestIff(cfg: Config, h: History, s: Save)
    requires NoCollision(cfg, h + [s]) && Accepted(cfg, s)
    ensures var m := LastWrite(cfg, h, s.user, SaveKey(cfg, s));
      NewestKey(cfg, h + [s], s.user, SaveKey(cfg, s)) <==>
      !(m.Some? && Fingerprinted(cfg, h[m.value]) == Fingerprinted(cfg, s))
      || NewestKey(cfg, h, s.user, SaveKey(cfg, s))
  {
    var key, wrote := SaveKey(cfg, s), Persist(cfg, TableAfter(cfg, h), s, |h|).1;
    assert (h + [s])[..|h|] == h && (h + [s])[|h|] == s;
    SkippedIff(cfg, h, s);
    StampIsLastWrite(cfg, h, s.user, key);
    UpsertSkipsIff(TableAfter(cfg, h), s.user, key, RowOf(cfg, s, |h|));
    forall o
      ensures LastWrite(cfg, h + [s], s.user, o)
           == if o == key && wrote then Some(|h|) else LastWrite(cfg, h, s.user, o)
    {
    }
  }

  /** A load that names no engine gives back what is left of one engine's last save, and nothing
      only if nothing is left for any of them. It is the engine whose row was written last among
      those that have something left. */
  lemma UnscopedLoadReturnsLastWritten(cfg: Config, h: History, user: int, domain: string, opens: bool,
                                       found: seq<string>, t: real, r: Option<seq<Item>>)
    requires NoCollision(cfg, h) && Ordered(h) && PlainHistory(cfg, h) && After(h, t) && user > 0
    requires NormalizeDomain(cfg, domain) != "" && FiledDomain(cfg, domain) != ""
    requires opens ==> NormalizeDomain(cfg, FiledDomain(cfg, domain)) != ""
    requires forall e: Engine :: Plain(LookedUpDomain(cfg, domain, e, opens))
    requires Listing(TableAfter(cfg, h), user, LoadKeys(cfg, domain, None, opens), found)
    requires Loads(cfg, TableAfter(cfg, h), user, found, None, t, r)
    ensures r.Some? <==> exists e: Engine :: LeftFor(cfg, h, user, domain, e, opens, t) != []
    ensures r.Some? ==> exists e: Engine :: r.value == LeftFor(cfg, h, user, domain, e, opens, t)
                                            && WrittenLast(cfg, h, user, domain, e, opens, t)
  {
    var a, b := KeyAt(cfg, domain, Chromium, opens), KeyAt(cfg, domain, Patchright, opens);
    var c := KeyAt(cfg, domain, RealChrome, opens);
    assert LoadKeys(cfg, domain, None, opens) == [a, b, c];
    forall e: Engine ensures LeftInTable(cfg, h, user, domain, e, opens, t) {
      LoadUnderKey(cfg, h, user, e, LookedUpDomain(cfg, domain, e, opens), t);
    }
    AnswerAmong(cfg, TableAfter(cfg, h), user, a, b, c, found, t, r);
    AnswerByEngine(cfg, h, user, domain, opens, a, b, c, t, r);
  }

  // The table holds, under an engine's key, what is left of its last save.
  ghost predicate LeftInTable(cfg: Config, h: History, user: int, domain: string, e: Engine, opens: bool, t: real) {
    LeftAt(cfg, TableAfter(cfg, h), user, KeyAt(cfg, domain, e, opens), t) == LeftFor(cfg, h, user, domain, e, opens, t)
  }

  lemma AnswerByEngine(cfg: Config, h: History, user: int, domain: string, opens: bool, a: string, b: string, c: string,
                       t: real, r: Option<seq<Item>>)
    requires a == KeyAt(cfg, domain, Chromium, opens) && b == KeyAt(cfg, domain, Patchright, opens)
    requires c == KeyAt(cfg, domain, RealChrome, opens)
    requires forall e: Engine :: LeftInTable(cfg, h, user, domain, e, opens, t)
    requires AnsweredBy(cfg, TableAfter(cfg, h), user, [a, b, c], t, r)
    ensures r.Some? <==> exists e: Engine :: LeftFor(cfg, h, user, domain, e, opens, t) != []
    ensures r.Some? ==> exists e: Engine :: r.value == LeftFor(cfg, h, user, domain, e, opens, t)
                                            && WrittenLast(cfg, h, user, domain, e, opens, t)
  {
    var table, keys := TableAfter(cfg, h), [a, b, c];
    forall e: Engine ensures KeyAt(cfg, domain, e, opens) in keys {}
    if r.Some? {
      var key :| Newest(cfg, table, user, keys, key, t) && r.value == LeftAt(cfg, table, user, key, t);
      var e: Engine := if key == a then Chromium else if key == b then Patchright else RealChrome;
      assert key == KeyAt(cfg, domain, e, opens) && LeftInTable(cfg, h, user, domain, e, opens, t);
      NewestIsWrittenLast(cfg, h, user, domain, e, opens, t, keys);
    } else {
      forall e: Engine ensures LeftFor(cfg, h, user, domain, e, opens, t) == [] {
        assert LeftInTable(cfg, h, user, domain, e, opens, t);
      }
    }
  }

  // What is left, at time t, of the last save for an engine and the domain a load looks under.
  function LeftFor(cfg: Config, h: History, user: int, domain: string, e: Engine, opens: bool, t: real): seq<Item> {
    Left(cfg, h, user, LookedUpDomain(cfg, domain, e, opens), e, t)
  }

  // No engine that has something left had its row written later than this one.
  ghost predicate WrittenLast(cfg: Config, h: History, user: int, domain: string, e: Engine, opens: bool, t: real) {
    var m := LastWrite(cfg, h, user, KeyAt(cfg, domain, e, opens));
    && m.Some?
    && forall f: Engine :: LeftFor(cfg, h, user, domain, f, opens, t) != [] ==>
         var n := LastWrite(cfg, h, user, KeyAt(cfg, domain, f, opens)); n.Some? && n.value <= m.value
  }

  // Of the keys that have something left, this one's row is the newest.
  ghost predicate Newest(cfg: Config, table: Table, user: int, keys: seq<string>, key: string, t: real) {
    && key in keys && LeftAt(cfg, table, user, key, t) != []
    && forall o :: o in keys && LeftAt(cfg, table, user, o, t) != [] ==>
         table[(user, o)].stamp <= table[(user, key)].stamp
  }

  lemma NewestIsWrittenLast(cfg: Config, h: History, user: int, domain: string, e: Engine, opens: bool, t: real,
                            keys: seq<string>)
    requires forall f: Engine :: KeyAt(cfg, domain, f, opens) in keys && LeftInTable(cfg, h, user, domain, f, opens, t)
    requires Newest(cfg, TableAfter(cfg, h), user, keys, KeyAt(cfg, domain, e, opens), t)
    ensures WrittenLast(cfg, h, user, domain, e, opens, t)
  {
    StampIsLastWrite(cfg, h, user, KeyAt(cfg, domain, e, opens));
    forall f: Engine | LeftFor(cfg, h, user, domain, f, opens, t) != []
      ensures var n := LastWrite(cfg, h, user, KeyAt(cfg, domain, f, opens));
        n.Some? && n.value <= LastWrite(cfg, h, user, KeyAt(cfg, domain, e, opens)).value
    {
      StampIsLastWrite(cfg, h, user, KeyAt(cfg, domain, f, opens));
      assert LeftInTable(cfg, h, user, domain, f, opens, t);
    }
  }

  // What a load that names no engine answers, over the keys it asks for.
  ghost predicate AnsweredBy(cfg: Config, table: Table, user: int, keys: seq<string>, t: real, r: Option<seq<Item>>) {
    if r.Some? then exists key :: Newest(cfg, table, user, keys, key, t) && r.value == LeftAt(cfg, table, user, key, t)
    else forall key :: key in keys ==> LeftAt(cfg, table, user, key, t) == []
  }

  // A load that names no engine, over three keys.
  lemma AnswerAmong(cfg: Config, table: Table, user: int, a: string, b: string, c: string, found: seq<string>,
                    t: real, r: Option<seq<Item>>)
    requires Listing(table, user, [a, b, c], found) && Loads(cfg, table, user, found, None, t, r) && user > 0
    ensures AnsweredBy(cfg, table, user, [a, b, c], t, r)
  {
    var keys := [a, b, c];
    if r.Some? {
      var i :| Answers(cfg, table, user, found, None, t, i) && r.value == Recall(cfg, table[(user, found[i])], t);
      assert found[i] in keys;
      forall o | o in keys && LeftAt(cfg, table, user, o, t) != []
        ensures table[(user, o)].stamp <= table[(user, found[i])].stamp
      {
        var j :| 0 <= j < |found| && found[j] == o;
        assert Usable(cfg, table[(user, found[j])], None, t);
      }
      assert Newest(cfg, table, user, keys, found[i], t);
    } else {
      forall key | key in keys ensures LeftAt(cfg, table, user, key, t) == [] {
        if (user, key) in table {
          var i :| 0 <= i < |found| && found[i] == key;
          assert !Usable(cfg, table[(user, found[i])], None, t);
        }
      }
    }
  }

  function KeyAt(cfg: Config, domain: string, e: Engine, opens: bool): string {
    KeyFor(e, LookedUpDomain(cfg, domain, e, opens))
  }

  // What is left at time t of the last save for an engine, or under a key of the table.
  function Left(cfg: Config, h: History, user: int, d: string, e: Engine, t: real): seq<Item> {
    var last := LastFor(cfg, h, user, d, e);
    if last.Some? then Recalled(cfg, last.value, t) else []
  }

  function LeftAt(cfg: Config, table: Table, user: int, key: string, t: real): seq<Item> {
    if (user, key) in table then Recall(cfg, table[(user, key)], t) else []
  }

  /** What an engine other than the default one saved last is never hidden from it. */
  lemma {:induction false} LastForNamesItsEngine(cfg: Config, h: History, user: int, domain: string, e: Engine)
    requires e != Chromium
    ensures var last := LastFor(cfg, h, user, domain, e); last.Some? ==> Matches(Tag(last.value), Some(e))
  {
    if h != [] { LastForNamesItsEngine(cfg, h[..|h| - 1], user, domain, e); }
  }

  /** A save that names no engine hides what the default engine had saved, if its state is
      tagged with another engine. */
  lemma TaggedSaveHidesDefault(cfg: Config, now: real)
    requires cfg.host("a") == "a" && !cfg.rules.challenge(Text("n"), Text("v"))
    ensures var state := State([Some(map[FName := Text("n"), FValue := Text("v")])], Some(Patchright));
      var first, second := Save(1, "a", Some(state), "chromium", now, now), Save(1, "a", Some(state), "", now, now);
      && Expected(cfg, LastFor(cfg, [first], 1, "a", Chromium), Chromium, now).Some?
      && Expected(cfg, LastFor(cfg, [first, second], 1, "a", Chromium), Chromium, now) == None
  {
    var item: Item := map[FName := Text("n"), FValue := Text("v")];
    var state := State([Some(item)], Some(Patchright));
    var first, second := Save(1, "a", Some(state), "chromium", now, now), Save(1, "a", Some(state), "", now, now);
    OneCookie(cfg.rules, item, now);
    EngineNamesParse(Chromium);
    assert FiledDomain(cfg, "a") == "a" && [first, second][..1] == [first];
    OneCookie(cfg.rules, Clean(item), now);
  }

  // A plain cookie alone is remembered as it is.
  lemma OneCookie(rules: Rules, item: Item, now: real)
    requires item == map[FName := Text("n"), FValue := Text("v")] && !rules.challenge(Text("n"), Text("v"))
    ensures Normalize(rules, [Some(item)], now) == [item] && Clean(item) == item && Entries([item]) == [Some(item)]
  {
    assert DropNuls("n") == "n" && DropNuls("v") == "v";
    assert Clean(item) == item;
    NormalizeOne(rules, item, now);
  }

  /** At the time of the save, what comes back is exactly what was normalised then if and only
      if no row that is the last of its key has a field made only of NULs. */
  lemma RecalledAtOnceIff(cfg: Config, s: Save)
    requires s.state.Some?
    ensures Recalled(cfg, s, s.now) == Remembered(cfg, s) <==> NoNulFields(cfg.rules, s.state.value.cookies, s.now)
    ensures |Recalled(cfg, s, s.now)| == |Remembered(cfg, s)|
  {
    IdempotentIff(cfg.rules, s.state.value.cookies, s.now);
  }
}
