/**
 Domain cookie memory: one row per user and storage key. A key holds a domain and, for every
 engine but the default one, the engine.
 */
module CookieStores {
  import opened Wrappers
  import opened Text
  import opened CookieSelection
  import opened LastWins
  import opened CookieNormalization

  // ---- storage keys ----

  datatype Engine = Chromium | Patchright | RealChrome

  const SEPARATOR := "::"

  function EngineName(e: Engine): string {
    match e
    case Chromium => "chromium"
    case Patchright => "patchright"
    case RealChrome => "real_chrome"
  }

  // _normalized_browser_engine
  function ParseEngine(value: string): Option<Engine> {
    var v := Lower(Strip(value));
    if v == EngineName(Chromium) then Some(Chromium)
    else if v == EngineName(Patchright) then Some(Patchright)
    else if v == EngineName(RealChrome) then Some(RealChrome)
    else None
  }

  // What comes from outside: the cookie rules, the host part of an address as urllib reads
  // it, and the digest of a payload.
  datatype Config = Config(rules: Rules, host: string -> string, digest: (seq<Item>, Option<Engine>) -> string)

  // normalize_domain
  function NormalizeDomain(cfg: Config, domain: string): string {
    var h := cfg.host(domain);
    if "www." <= h then h[4..] else h
  }

  function KeyFor(e: Engine, domain: string): string {
    if e == Chromium then domain else EngineName(e) + SEPARATOR + domain
  }

  function Home(e: Option<Engine>): Engine { if e.Some? then e.value else Chromium }

  // _domain_storage_key
  function StorageKey(cfg: Config, domain: string, e: Option<Engine>): string {
    var d := NormalizeDomain(cfg, domain);
    if d == "" then "" else KeyFor(Home(e), d)
  }

  // _domain_storage_lookup_keys. The engines come sorted by name.
  function LookupKeys(cfg: Config, domain: string, e: Option<Engine>): seq<string> {
    var d := NormalizeDomain(cfg, domain);
    if d == "" then []
    else
      match e
      case Some(Chromium) => [d]
      case Some(engine) => [StorageKey(cfg, d, e)]
      case None => [d, StorageKey(cfg, d, Some(Patchright)), StorageKey(cfg, d, Some(RealChrome))]
  }

  // The place of the first separator.
  function FirstSeparator(s: string): Option<nat> {
    if |s| < 2 then None
    else if s[0] == ':' && s[1] == ':' then Some(0)
    else
      match FirstSeparator(s[1..])
      case None => None
      case Some(n) => Some(n + 1)
  }

  lemma SeparatorFits(s: string)
    ensures FirstSeparator(s).Some? ==> FirstSeparator(s).value + 2 <= |s|
  {
  }

  // _domain_from_storage_key
  function DomainFromKey(key: string): string {
    var s := Strip(key);
    SeparatorFits(s);
    match FirstSeparator(s)
    case None => s
    case Some(n) => if ParseEngine(s[..n]).None? then s else s[n + 2..]
  }

  // _storage_key_browser_engine
  function EngineFromKey(key: string): Option<Engine> {
    var s := Strip(key);
    SeparatorFits(s);
    match FirstSeparator(s)
    case None => None
    case Some(n) => ParseEngine(s[..n])
  }

  // A domain that does not itself read as a key with an engine.
  predicate Plain(domain: string) { domain != "" && Strip(domain) == domain && DomainFromKey(domain) == domain }

  lemma SeparatorAfter(name: string, rest: string)
    requires ':' !in name
    ensures FirstSeparator(name + SEPARATOR + rest) == Some(|name|)
  {
    var s := name + SEPARATOR + rest;
    if name != "" {
      assert s[0] == name[0] && s[1..] == name[1..] + SEPARATOR + rest;
      SeparatorAfter(name[1..], rest);
    }
  }

  lemma EngineNamesParse(e: Engine)
    ensures var name := EngineName(e);
      name != "" && !IsSpace(name[0]) && ':' !in name && ParseEngine(name) == Some(e)
  {
    var name := EngineName(e);
    TrimmedIsStable(name);
    assert Lower(name) == name;
  }

  /** A storage key decodes to the domain and the engine it was made of. */
  lemma KeyDecodes(e: Engine, domain: string)
    requires Plain(domain)
    ensures DomainFromKey(KeyFor(e, domain)) == domain
    ensures EngineFromKey(KeyFor(e, domain)) == if e == Chromium then None else Some(e)
  {
    SeparatorFits(domain);
    if e != Chromium {
      var name, key := EngineName(e), KeyFor(e, domain);
      EngineNamesParse(e);
      StripTrims(domain);
      assert key[0] == name[0] && key[|key| - 1] == domain[|domain| - 1];
      TrimmedIsStable(key);
      SeparatorAfter(name, domain);
      assert key[..|name|] == name && key[|name| + 2..] == domain;
    }
  }

  /** So two keys are the same only for the same engine and domain. */
  lemma KeysAreDistinct(e: Engine, d: string, f: Engine, g: string)
    requires Plain(d) && Plain(g)
    ensures KeyFor(e, d) == KeyFor(f, g) <==> e == f && d == g
  {
    KeyDecodes(e, d);
    KeyDecodes(f, g);
  }

  // ---- the table ----

  // Encryption and JSON are inverse pairs, so a row holds the state itself. The stamp orders
  // rows by their last update.
  datatype Row = Row(cookies: seq<Item>, tag: Option<Engine>, fingerprint: string, stamp: nat)

  type Table = map<(int, string), Row>

  // _upsert_domain_storage_state
  function Upsert(table: Table, user: int, key: string, row: Row): (Table, bool) {
    if (user, key) in table && table[(user, key)].fingerprint == row.fingerprint then (table, false)
    else (table[(user, key) := row], true)
  }

  // A storage state as callers give it; the tag is the engine its metadata names.
  datatype State = State(cookies: seq<Option<Item>>, tag: Option<Engine>)

  // One call of persist_storage_state_for_domain. The clock is read once while normalising
  // and again while fingerprinting.
  datatype Save = Save(user: int, domain: string, state: Option<State>, engine: string, now: real, again: real)

  function Remembered(cfg: Config, s: Save): seq<Item> {
    if s.state.None? then [] else Normalize(cfg.rules, s.state.value.cookies, s.now)
  }

  function Tag(s: Save): Option<Engine> {
    if ParseEngine(s.engine).Some? then ParseEngine(s.engine)
    else if s.state.Some? then s.state.value.tag
    else None
  }

  function Accepted(cfg: Config, s: Save): bool {
    s.user > 0 && NormalizeDomain(cfg, s.domain) != "" && s.state.Some? && Remembered(cfg, s) != []
  }

  function SaveKey(cfg: Config, s: Save): string {
    StorageKey(cfg, NormalizeDomain(cfg, s.domain), ParseEngine(s.engine))
  }

  function RowOf(cfg: Config, s: Save, stamp: nat): Row {
    var cookies := Remembered(cfg, s);
    Row(cookies, Tag(s), cfg.digest(Normalize(cfg.rules, Entries(cookies), s.again), Tag(s)), stamp)
  }

  // persist_storage_state_for_domain
  function Persist(cfg: Config, table: Table, s: Save, stamp: nat): (Table, bool) {
    if Accepted(cfg, s) then Upsert(table, s.user, SaveKey(cfg, s), RowOf(cfg, s, stamp)) else (table, false)
  }

  // _storage_state_matches_browser_engine
  function Matches(tag: Option<Engine>, e: Option<Engine>): bool {
    if e.None? then true else if tag.None? then e.value == Chromium else tag == e
  }

  function Recall(cfg: Config, row: Row, now: real): seq<Item> { Normalize(cfg.rules, Entries(row.cookies), now) }

  predicate Usable(cfg: Config, row: Row, e: Option<Engine>, now: real) {
    Matches(row.tag, e) && Recall(cfg, row, now) != []
  }

  // What the query answers: the user's rows under these keys, latest update first.
  ghost predicate Listing(table: Table, user: int, keys: seq<string>, found: seq<string>) {
    && (forall i :: 0 <= i < |found| ==> found[i] in keys && (user, found[i]) in table)
    && (forall k :: k in keys && (user, k) in table ==> k in found)
    && (forall i, j :: 0 <= i < j < |found| ==> found[i] != found[j])
    && (forall i, j :: 0 <= i < j < |found| ==> table[(user, found[i])].stamp >= table[(user, found[j])].stamp)
  }

  // Keys asked for by one load. A load that opens its own session normalises once more.
  function LoadKeys(cfg: Config, domain: string, e: Option<Engine>, opens: bool): seq<string> {
    var d := NormalizeDomain(cfg, domain);
    if d == "" then []
    else
      var d' := if opens then NormalizeDomain(cfg, d) else d;
      if d' == "" then [] else LookupKeys(cfg, d', e)
  }

  // Key i answers the load: its row is usable, and those before it are not.
  ghost predicate Answers(cfg: Config, table: Table, user: int, found: seq<string>, e: Option<Engine>, now: real,
      i: int) {
    && 0 <= i < |found|
    && (forall j :: 0 <= j <= i ==> (user, found[j]) in table)
    && Usable(cfg, table[(user, found[i])], e, now)
    && (forall j :: 0 <= j < i ==> !Usable(cfg, table[(user, found[j])], e, now))
  }

  // What a load gives back: the cookies of the first usable row, or nothing if none is usable.
  ghost predicate Loads(cfg: Config, table: Table, user: int, found: seq<string>, e: Option<Engine>, t: real,
      r: Option<seq<Item>>) {
    && (user <= 0 ==> r.None?)
    && (r.Some? ==>
          exists i :: Answers(cfg, table, user, found, e, t, i) && r.value == Recall(cfg, table[(user, found[i])], t))
    && (user > 0 && r.None? ==>
          forall i :: 0 <= i < |found| && (user, found[i]) in table ==> !Usable(cfg, table[(user, found[i])], e, t))
  }

  class DomainCookieMemory {
    const cfg: Config
    var table: Table
    var updates: nat

    constructor (cfg: Config)
      ensures this.cfg == cfg && table == map[]
    {
      this.cfg, table, updates := cfg, map[], 0;
    }

    method UpsertDomainStorageState(user: int, key: string, row: Row) returns (changed: bool)
      modifies this`table
      ensures (table, changed) == Upsert(old(table), user, key, row)
    {
      if (user, key) in table && table[(user, key)].fingerprint == row.fingerprint { return false; }
      table := table[(user, key) := row];
      changed := true;
    }

    method PersistStorageStateForDomain(s: Save) returns (changed: bool)
      modifies this
      ensures (table, changed) == Persist(cfg, old(table), s, old(updates)) && updates == old(updates) + 1
    {
      updates := updates + 1;
      var domain := NormalizeDomain(cfg, s.domain);
      if s.user <= 0 || domain == "" || s.state.None? { return false; }
      var engine := ParseEngine(s.engine);
      var key := StorageKey(cfg, domain, engine);
      var cookies := NormalizeCookies(cfg.rules, s.state.value.cookies, s.now);
      if cookies == [] { return false; }
      var row := RowFor(s, cookies, updates - 1);
      changed := UpsertDomainStorageState(s.user, key, row);
    }

    // The row a save writes, fingerprint included.
    method RowFor(s: Save, cookies: seq<Item>, stamp: nat) returns (row: Row)
      requires s.state.Some? && cookies == Remembered(cfg, s)
      ensures row == RowOf(cfg, s, stamp)
    {
      var engine := ParseEngine(s.engine);
      var tag := if engine.Some? then engine else s.state.value.tag;
      var again := NormalizeCookies(cfg.rules, Entries(cookies), s.again);
      row := Row(cookies, tag, cfg.digest(again, tag), stamp);
    }

    // The rows are those the query found for the keys of the load.
    method LoadStorageStateForDomain(user: int, domain: string, engine: string, opens: bool, found: seq<string>,
        now: real)
      returns (r: Option<seq<Item>>)
      requires Listing(table, user, LoadKeys(cfg, domain, ParseEngine(engine), opens), found)
      ensures Loads(cfg, table, user, found, ParseEngine(engine), now, r)
    {
      if user <= 0 { return None; }
      var e := ParseEngine(engine);
      for i := 0 to |found|
        invariant forall j :: 0 <= j < i ==> !Usable(cfg, table[(user, found[j])], e, now)
      {
        var cookies := UsableCookies(table[(user, found[i])], e, now);
        if cookies.Some? {
          assert Answers(cfg, table, user, found, e, now, i);
          return cookies;
        }
      }
      return None;
    }

    method UsableCookies(row: Row, e: Option<Engine>, now: real) returns (r: Option<seq<Item>>)
      ensures r == if Usable(cfg, row, e, now) then Some(Recall(cfg, row, now)) else None
    {
      if !Matches(row.tag, e) { return None; }
      var cookies := NormalizeCookies(cfg.rules, Entries(row.cookies), now);
      return if cookies != [] then Some(cookies) else None;
    }
  }
}
