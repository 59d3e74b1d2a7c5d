/**
 Which cookies are worth remembering, and in what form: every cookie cleaned, useless ones
 dropped, and one cookie per name, domain and path.
 */
module CookieNormalization {
  import opened Wrappers
  import opened Text
  import opened CookieSelection
  import opened LastWins

  datatype Field = FName | FValue | FDomain | FPath | FExpires | FHttpOnly | FSecure | FSameSite | FUrl

  datatype Scalar = Null | Text(text: string) | Number(number: real) | Flag(flag: bool)

  type Item = map<Field, Scalar>

  type Key = (string, string, string)

  // What comes from outside: the block signatures, and how numbers and flags print.
  datatype Rules = Rules(challenge: (Scalar, Scalar) -> bool, render: Scalar -> string)

  // ---- one cookie ----

  function DropNuls(s: string): string {
    if s == "" then "" else if s[0] == '\0' then DropNuls(s[1..]) else [s[0]] + DropNuls(s[1..])
  }

  // _sanitize_storage_state_scalar
  function Sanitize(x: Scalar): Scalar { if x.Text? then Text(DropNuls(x.text)) else x }

  predicate Blank(x: Scalar) { x == Null || x == Text("") }

  predicate Truthy(x: Scalar) {
    match x
    case Null => false
    case Text(s) => s != ""
    case Number(n) => n != 0.0
    case Flag(b) => b
  }

  function Clean(item: Item): Item { map f | f in item && !Blank(item[f]) :: Sanitize(item[f]) }

  predicate Has(c: Item, f: Field) { f in c && Truthy(c[f]) }

  // A flag counts as the number one or zero here.
  predicate Expired(c: Item, now: real) {
    && FExpires in c
    && match c[FExpires]
       case Number(n) => 0.0 < n <= now
       case Flag(b) => b && 1.0 <= now
       case _ => false
  }

  predicate Kept(rules: Rules, c: Item, now: real) {
    Has(c, FName) && Has(c, FValue) && !rules.challenge(c[FName], c[FValue]) && !Expired(c, now)
  }

  // _normalized_cookie. An entry that is not a mapping is None.
  function NormalizedCookie(rules: Rules, entry: Option<Item>, now: real): Option<Item> {
    if entry.Some? && Kept(rules, Clean(entry.value), now) then Some(Clean(entry.value)) else None
  }

  function Str(rules: Rules, x: Scalar): string { if x.Text? then x.text else rules.render(x) }

  // The text of the first field that says something, or the default.
  function TextOf(rules: Rules, c: Item, f: Field, otherwise: string): string {
    if Has(c, f) then Str(rules, c[f]) else otherwise
  }

  function KeyOf(rules: Rules, c: Item): Key {
    var name := Lower(Strip(TextOf(rules, c, FName, "")));
    var domain := Lower(Strip(TextOf(rules, c, FDomain, TextOf(rules, c, FUrl, ""))));
    (name, domain, PathOf(TextOf(rules, c, FPath, "/")))
  }

  // ---- all cookies ----

  function Keyer(rules: Rules): Item -> Key { c => KeyOf(rules, c) }

  function Normalizer(rules: Rules, now: real): Option<Item> -> Option<Item> {
    entry => NormalizedCookie(rules, entry, now)
  }

  // Every entry as it would be remembered.
  function Cleaned(rules: Rules, rows: seq<Option<Item>>, now: real): seq<Option<Item>> {
    Mapped(Normalizer(rules, now), rows)
  }

  // _normalize_cookies
  function Normalize(rules: Rules, rows: seq<Option<Item>>, now: real): seq<Item> {
    Dedup(Keyer(rules), Cleaned(rules, rows, now))
  }

  // The dictionary keeps the order in which keys were added.
  method NormalizeCookies(rules: Rules, rows: seq<Option<Item>>, now: real) returns (cookies: seq<Item>)
    ensures cookies == Normalize(rules, rows, now)
  {
    cookies := Fill(Keyer(rules), Normalizer(rules, now), rows);
  }

  // ---- what normalising keeps, in the rows' own fields ----

  /** Dropping NULs leaves a text without any, keeps a text that has none, and goes piece by piece. */
  lemma {:induction false} DropNulsIs(a: string, b: string)
    ensures '\0' !in DropNuls(a) && ('\0' !in a ==> DropNuls(a) == a) && DropNuls("\0") == ""
    ensures DropNuls(a + b) == DropNuls(a) + DropNuls(b)
  {
    if a == "" {
      assert a + b == b;
    } else {
      assert (a + b)[0] == a[0] && (a + b)[1..] == a[1..] + b;
      DropNulsIs(a[1..], b);
    }
    assert "\0"[1..] == "";
  }

  // The field says something once its NULs are gone.
  predicate Filled(item: Item, f: Field) { f in item && Truthy(Sanitize(item[f])) }

  predicate PastDue(x: Scalar, now: real) {
    (x.Number? && x.number > 0.0 && x.number <= now) || (x.Flag? && x.flag && now >= 1.0)
  }

  /** A row is kept if and only if it is a mapping whose name and value say something, that is no
      challenge cookie, and that has not expired; what is kept are its fields that are neither null
      nor empty, without NULs. */
  lemma KeptIff(rules: Rules, row: Option<Item>, now: real)
    ensures var c := NormalizedCookie(rules, row, now);
      && (c.Some? <==>
          && row.Some? && Filled(row.value, FName) && Filled(row.value, FValue)
          && !rules.challenge(Sanitize(row.value[FName]), Sanitize(row.value[FValue]))
          && !(FExpires in row.value && PastDue(row.value[FExpires], now)))
      && (c.Some? ==> forall f :: (f in c.value <==> f in row.value && row.value[f] != Null && row.value[f] != Text(""))
                                  && (f in c.value ==> c.value[f] == Sanitize(row.value[f])))
  {
    if row.Some? {
      var item, c := row.value, Clean(row.value);
      assert forall f :: Has(c, f) <==> Filled(item, f);
      assert FExpires in item && PastDue(item[FExpires], now) <==> Expired(c, now);
    }
  }

  // What a field prints, or nothing.
  function Printed(rules: Rules, c: Item, f: Field): string {
    if f !in c || !Truthy(c[f]) then "" else if c[f].Text? then c[f].text else rules.render(c[f])
  }

  // The domain of a cookie, or its address where it has no domain.
  function Site(rules: Rules, c: Item): string {
    if FDomain in c && Truthy(c[FDomain]) then Printed(rules, c, FDomain) else Printed(rules, c, FUrl)
  }

  // Same name and same site up to case and surrounding white space, and same path, "/" for none.
  predicate SameCookie(rules: Rules, c: Item, d: Item) {
    && Lower(Strip(Printed(rules, c, FName))) == Lower(Strip(Printed(rules, d, FName)))
    && Lower(Strip(Site(rules, c))) == Lower(Strip(Site(rules, d)))
    && PathOf(Printed(rules, c, FPath)) == PathOf(Printed(rules, d, FPath))
  }

  lemma SameCookieIsSameKey(rules: Rules, c: Item, d: Item)
    ensures SameCookie(rules, c, d) <==> Keyer(rules)(c) == Keyer(rules)(d)
  {
    RootPath();
  }

  lemma RootPath()
    ensures PathOf("") == "/" && PathOf("/") == "/"
  {
    TrimmedIsStable("/");
  }

  // The row is kept as a cookie that is the same as c.
  predicate Replaces(rules: Rules, row: Option<Item>, now: real, c: Item) {
    var d := NormalizedCookie(rules, row, now);
    d.Some? && SameCookie(rules, c, d.value)
  }

  // Row k is kept as c, and no later kept row is the same cookie.
  ghost predicate NotReplaced(rules: Rules, rows: seq<Option<Item>>, now: real, k: nat, c: Item) {
    && k < |rows| && NormalizedCookie(rules, rows[k], now) == Some(c)
    && forall j :: k < j < |rows| ==> !Replaces(rules, rows[j], now, c)
  }

  /** A cookie is in the normalised list if and only if some row is kept as it and no later kept row
      has the same name, site and path; and no two cookies of the list are the same in that sense. */
  lemma NormalizedIff(rules: Rules, rows: seq<Option<Item>>, now: real)
    ensures forall c :: c in Normalize(rules, rows, now) <==> exists k: nat :: NotReplaced(rules, rows, now, k, c)
    ensures var cs := Normalize(rules, rows, now);
      forall i, j :: 0 <= i < j < |cs| ==> !SameCookie(rules, cs[i], cs[j])
  {
    var key, all, cs := Keyer(rules), Cleaned(rules, rows, now), Normalize(rules, rows, now);
    DedupKeepsTheLast(key, all);
    forall k: nat, c ensures NotReplaced(rules, rows, now, k, c) <==> LastOfItsKey(key, all, k, c) {
      NotReplacedIsLast(rules, rows, now, k, c, key, all);
    }
    forall c ensures c in cs <==> exists k: nat :: NotReplaced(rules, rows, now, k, c) {
      assert c in cs <==> IsLast(key, all, c);
    }
    forall i, j | 0 <= i < j < |cs| ensures !SameCookie(rules, cs[i],
      cs[j]) { SameCookieIsSameKey(rules, cs[i], cs[j]); }
  }

  lemma ReplacesIsHides(rules: Rules, row: Option<Item>, now: real, c: Item, key: Item -> Key, d: Option<Item>)
    requires key == Keyer(rules) && d == NormalizedCookie(rules, row, now)
    ensures Replaces(rules, row, now, c) <==> d.Some? && key(d.value) == key(c)
  {
    if d.Some? { SameCookieIsSameKey(rules, c, d.value); }
  }

  lemma NotReplacedIsLast(rules: Rules, rows: seq<Option<Item>>, now: real, k: nat, c: Item, key: Item -> Key,
                          all: seq<Option<Item>>)
    requires key == Keyer(rules) && all == Cleaned(rules, rows, now)
    ensures NotReplaced(rules, rows, now, k, c) <==> LastOfItsKey(key, all, k, c)
  {
    if k < |rows| && all[k] == Some(c) {
      forall j | k < j < |rows|
        ensures Replaces(rules, rows[j], now, c) <==> (all[j].Some? && key(all[j].value) == key(c))
      {
        ReplacesIsHides(rules, rows[j], now, c, key, all[j]);
      }
    }
  }

  // ---- normalising again ----

  // No field holds a NUL or nothing at all; a text may have become empty.
  predicate Sane(c: Item) {
    forall f :: f in c ==> c[f] != Null && Sanitize(c[f]) == c[f]
  }

  // Some field held nothing but NULs.
  predicate HasEmptyField(c: Item) { exists f :: f in c && c[f] == Text("") }

  lemma DropNulsTwice(s: string)
    ensures DropNuls(DropNuls(s)) == DropNuls(s)
  {
  }

  lemma CleanIsSane(item: Item)
    ensures Sane(Clean(item))
  {
    forall f | f in Clean(item) ensures Sanitize(Clean(item)[f]) == Clean(item)[f] {
      if item[f].Text? { DropNulsTwice(item[f].text); }
    }
  }

  // What cleaning a second time does: it drops the empty fields, and nothing that is read.
  lemma CleanAgain(rules: Rules, c: Item, now: real)
    requires Sane(c)
    ensures Clean(c) == c <==> !HasEmptyField(c)
    ensures Sane(Clean(c)) && Clean(Clean(c)) == Clean(c) && Keyer(rules)(Clean(c)) == Keyer(rules)(c)
    ensures Kept(rules, Clean(c), now) <==> Kept(rules, c, now)
  {
    CleanIsSane(c);
    assert forall f :: f in c && c[f] != Text("") ==> f in Clean(c) && Clean(c)[f] == c[f];
    assert forall f :: Has(Clean(c), f) <==> Has(c, f);
  }

  // One more pass over cookies that are already normalised.
  function Pass(rules: Rules, cs: seq<Item>, now: real): seq<Item> {
    if cs == [] then []
    else
      var rest, c := Pass(rules, cs[..|cs| - 1], now), cs[|cs| - 1];
      if Kept(rules, Clean(c), now) then rest + [Clean(c)] else rest
  }

  function Entries(cs: seq<Item>): seq<Option<Item>> { seq(|cs|, i requires 0 <= i < |cs| => Some(cs[i])) }

  ghost predicate Normal(rules: Rules, cs: seq<Item>) {
    Distinct(Keyer(rules), cs) && forall c :: c in cs ==> Sane(c)
  }

  lemma NormalizeIsNormal(rules: Rules, rows: seq<Option<Item>>, now: real)
    ensures Normal(rules, Normalize(rules, rows, now))
    ensures forall c :: c in Normalize(rules, rows, now) ==> Kept(rules, c, now)
  {
    var all := Cleaned(rules, rows, now);
    DedupKeepsTheLast(Keyer(rules), all);
    forall c | c in Normalize(rules, rows, now) ensures Sane(c) && Kept(rules, c, now) {
      assert IsLast(Keyer(rules), all, c);
      var k: nat :| LastOfItsKey(Keyer(rules), all, k, c);
      CleanIsSane(rows[k].value);
    }
  }

  lemma NormalizeIsPass(rules: Rules, cs: seq<Item>, now: real)
    requires Normal(rules, cs)
    ensures Normalize(rules, Entries(cs), now) == Pass(rules, cs, now) && Normal(rules, Pass(rules, cs, now))
  {
    var rows := Cleaned(rules, Entries(cs), now);
    forall i | 0 <= i < |cs| && rows[i].Some?
      ensures Keyer(rules)(rows[i].value) == Keyer(rules)(cs[i]) && Sane(rows[i].value)
    {
      CleanAgain(rules, cs[i], now);
    }
    SomesOfDistinct(Keyer(rules), cs, rows);
    DedupOfDistinct(Keyer(rules), rows);
    PassIsSomes(rules, cs, now);
  }

  lemma {:induction false} PassIsSomes(rules: Rules, cs: seq<Item>, now: real)
    ensures Pass(rules, cs, now) == Somes(Cleaned(rules, Entries(cs), now))
  {
    if cs != [] {
      var n := |cs| - 1;
      PassIsSomes(rules, cs[..n], now);
      assert Cleaned(rules, Entries(cs), now)[..n] == Cleaned(rules, Entries(cs[..n]), now);
    }
  }

  lemma {:induction false} PassMembers(rules: Rules, cs: seq<Item>, now: real, x: Item)
    ensures x in Pass(rules, cs, now) <==> exists c :: c in cs && Kept(rules, Clean(c), now) && x == Clean(c)
    decreases |cs|
  {
    if cs != [] {
      var front, last := cs[..|cs| - 1], cs[|cs| - 1];
      PassMembers(rules, front, now, x);
      assert forall c :: c in cs <==> c in front || c == last;
    }
  }

  /** Passes made one after another are the last one alone, if the clock does not go back. */
  lemma {:induction false} PassAfterPass(rules: Rules, cs: seq<Item>, now: real, later: real)
    requires Normal(rules, cs) && now <= later
    ensures Pass(rules, Pass(rules, cs, now), later) == Pass(rules, cs, later)
  {
    if cs != [] {
      var n := |cs| - 1;
      var c, rest := cs[n], Pass(rules, cs[..n], now);
      PassAfterPass(rules, cs[..n], now, later);
      CleanAgain(rules, c, now); CleanAgain(rules, c, later); CleanAgain(rules, Clean(c), later);
      if Kept(rules, Clean(c), now) { assert (rest + [Clean(c)])[..|rest|] == rest; }
    }
  }

  /** Normalising what was normalised already equals normalising it at the later time only. */
  lemma NormalizeAfterNormalize(rules: Rules, cs: seq<Item>, now: real, later: real)
    requires Normal(rules, cs) && now <= later
    ensures var once := Normalize(rules, Entries(cs), now);
      Normal(rules, once) && Normalize(rules, Entries(once), later) == Normalize(rules, Entries(cs), later)
  {
    NormalizeIsPass(rules, cs, now); NormalizeIsPass(rules, cs, later);
    NormalizeIsPass(rules, Pass(rules, cs, now), later);
    PassAfterPass(rules, cs, now, later);
  }

  ghost predicate NoEmptyFields(cs: seq<Item>) { forall c :: c in cs ==> !HasEmptyField(c) }

  // No row that is the last of its key has a field made only of NULs.
  ghost predicate NoNulFields(rules: Rules, rows: seq<Option<Item>>, now: real) {
    forall k: nat, c :: LastOfItsKey(Keyer(rules), Cleaned(rules, rows, now), k, c) ==> !HasNulField(rows[k].value)
  }

  predicate HasNulField(item: Item) { exists f :: f in item && AllNuls(item[f]) }

  lemma NoEmptyFieldsIff(rules: Rules, rows: seq<Option<Item>>, now: real)
    ensures NoEmptyFields(Normalize(rules, rows, now)) <==> NoNulFields(rules, rows, now)
  {
    var all, once := Cleaned(rules, rows, now), Normalize(rules, rows, now);
    DedupKeepsTheLast(Keyer(rules), all);
    forall k: nat, c | LastOfItsKey(Keyer(rules), all, k, c)
      ensures c in once && (HasEmptyField(c) <==> HasNulField(rows[k].value))
    {
      assert IsLast(Keyer(rules), all, c);
      EmptyFieldIff(rows[k].value);
    }
    forall c | c in once ensures IsLast(Keyer(rules), all, c) {}
  }

  /** At a fixed time, normalising is idempotent exactly when no row that is the last of its key
      has a field made only of NULs; and from the second time on it always is. */
  lemma IdempotentIff(rules: Rules, rows: seq<Option<Item>>, now: real)
    ensures var once := Normalize(rules, rows, now); var twice := Normalize(rules, Entries(once), now);
      (twice == once <==> NoNulFields(rules, rows, now)) && |twice| == |once| &&
        Normalize(rules, Entries(twice), now) == twice
  {
    NoEmptyFieldsIff(rules, rows, now);
    var once := Normalize(rules, rows, now);
    NormalizeIsNormal(rules, rows, now);
    NormalizeIsPass(rules, once, now);
    NormalizeAfterNormalize(rules, once, now, now);
    PassCleans(rules, once, now);
    var twice := Pass(rules, once, now);
    if twice == once {
      forall c | c in once ensures !HasEmptyField(c) {
        var i :| 0 <= i < |once| && once[i] == c;
        CleanAgain(rules, c, now);
      }
    }
    if NoEmptyFields(once) {
      forall i | 0 <= i < |once| ensures twice[i] == once[i] { CleanAgain(rules, once[i], now); }
    }
  }

  lemma {:induction false} PassCleans(rules: Rules, cs: seq<Item>, now: real)
    requires forall c :: c in cs ==> Sane(c) && Kept(rules, c, now)
    ensures |Pass(rules, cs, now)| == |cs|
    ensures forall i :: 0 <= i < |cs| ==> Pass(rules, cs, now)[i] == Clean(cs[i])
    decreases |cs|
  {
    if cs != [] {
      var front, last := cs[..|cs| - 1], cs[|cs| - 1];
      PassCleans(rules, front, now);
      CleanAgain(rules, last, now);
      assert Pass(rules, cs, now) == Pass(rules, front, now) + [Clean(last)];
    }
  }

  /** In terms of a raw cookie: cleaning leaves an empty field exactly when some text of it is
      non-empty and all NULs. */
  lemma EmptyFieldIff(item: Item)
    ensures HasEmptyField(Clean(item)) <==> HasNulField(item)
  {
    forall f | f in item ensures AllNuls(item[f]) <==> f in Clean(item) && Clean(item)[f] == Text("") {
      if item[f].Text? { DropNulsEmptyIff(item[f].text); }
    }
  }

  predicate AllNuls(x: Scalar) { x.Text? && x.text != "" && forall i :: 0 <= i < |x.text| ==> x.text[i] == '\0' }

  lemma DropNulsEmptyIff(s: string)
    ensures DropNuls(s) == "" <==> forall i :: 0 <= i < |s| ==> s[i] == '\0'
  {
    if s != "" { DropNulsEmptyIff(s[1..]); }
  }

  // The normal form of a single cookie.
  lemma NormalizeOne(rules: Rules, item: Item, now: real)
    ensures Normalize(rules, [Some(item)], now)
         == if Kept(rules, Clean(item), now) then [Clean(item)] else []
  {
    var rows := Cleaned(rules, [Some(item)], now);
    assert rows == [NormalizedCookie(rules, Some(item), now)];
    DedupOne(Keyer(rules), NormalizedCookie(rules, Some(item), now));
  }

  /** A path that is one NUL is kept empty at first and is gone the second time. */
  lemma NulFieldGoesLater(rules: Rules, now: real)
    requires !rules.challenge(Text("n"), Text("v"))
    ensures var raw: Item := map[FName := Text("n"), FValue := Text("v"), FPath := Text("\0")];
      var once := Normalize(rules, [Some(raw)], now);
      && once == [map[FName := Text("n"), FValue := Text("v"), FPath := Text("")]]
      && Normalize(rules, Entries(once), now) == [map[FName := Text("n"), FValue := Text("v")]]
  {
    var raw: Item := map[FName := Text("n"), FValue := Text("v"), FPath := Text("\0")];
    var kept: Item := map[FName := Text("n"), FValue := Text("v"), FPath := Text("")];
    assert DropNuls("n") == "n" && DropNuls("v") == "v" && DropNuls("\0") == "";
    assert Clean(raw) == kept && Clean(kept) == map[FName := Text("n"), FValue := Text("v")];
    NormalizeOne(rules, raw, now);
    NormalizeOne(rules, kept, now);
    assert Entries([kept]) == [Some(kept)];
  }
}
