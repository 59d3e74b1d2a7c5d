/**
 Which stored cookies go into an HTTP request, and with which value: eligibility by domain,
 path and scheme, then one value per name.
 */
module CookieSelection {
  import opened Wrappers
  import opened Text

  // ---- text ----

  function Lower(s: string): string
    ensures |Lower(s)| == |s|
  {
    seq(|s|, i requires 0 <= i < |s| => if 'A' <= s[i] <= 'Z' then s[i] - 'A' + 'a' else s[i])
  }

  predicate IsUpper(c: char) { 'A' <= c <= 'Z' }

  /** Lower-casing keeps every character but capital letters, whose small letters it puts. */
  lemma LowerIs(s: string, i: nat)
    requires i < |s|
    ensures !IsUpper(Lower(s)[i])
    ensures if IsUpper(s[i]) then 'a' <= Lower(s)[i] <= 'z' && Lower(s)[i] - 'a' == s[i] - 'A' else Lower(s)[i] == s[i]
  {
  }

  function DropDots(s: string): string {
    if s != "" && s[0] == '.' then DropDots(s[1..]) else s
  }

  // ---- paths ----

  function PathOf(p: string): string { if Strip(p) == "" then "/" else Strip(p) }

  lemma PathOfIsStable(p: string)
    ensures PathOf(PathOf(p)) == PathOf(p) && PathOf(p) != ""
  {
    StripTrims(p);
    TrimmedIsStable(PathOf(p));
  }

  // _cookie_path_matches
  predicate PathMatches(requestPath: string, cookiePath: string) {
    var r, c := PathOf(requestPath), PathOf(cookiePath);
    if r == c then true
    else if !(c <= r) then false
    else
      var suffix := r[|c|..if |c| + 1 < |r| then |c| + 1 else |r|];
      (c != "" && c[|c| - 1] == '/') || suffix == "/"
  }

  // Path-match as section 5.1.4 of RFC 6265 words it, clause by clause.
  ghost predicate Rfc6265PathMatch(requestPath: string, cookiePath: string) {
    || requestPath == cookiePath
    || (exists rest :: requestPath == cookiePath + rest && EndsWithSlash(cookiePath))
    || (exists rest :: requestPath == cookiePath + rest && StartsWithSlash(rest))
  }

  predicate EndsWithSlash(s: string) { s != "" && s[|s| - 1] == '/' }
  predicate StartsWithSlash(s: string) { s != "" && s[0] == '/' }

  // The same in one line, for the proofs below.
  predicate Under(x: string, y: string) {
    y <= x && (|x| == |y| || EndsWithSlash(y) || x[|y|] == '/')
  }

  lemma PathMatchIsUnder(r: string, c: string)
    ensures PathMatches(r, c) <==> Under(PathOf(r), PathOf(c))
  {
    var x, y := PathOf(r), PathOf(c);
    if y <= x && |x| > |y| { assert x[|y|..|y| + 1] == [x[|y|]]; }
  }

  /** The code's path match is that of RFC 6265, on the trimmed paths. */
  lemma PathMatchIsRfc6265(r: string, c: string)
    ensures PathMatches(r, c) <==> Rfc6265PathMatch(PathOf(r), PathOf(c))
  {
    PathMatchIsUnder(r, c);
    UnderIsRfc6265(PathOf(r), PathOf(c));
  }

  lemma UnderIsRfc6265(x: string, y: string)
    ensures Under(x, y) <==> Rfc6265PathMatch(x, y)
  {
    if Under(x, y) {
      var rest := x[|y|..];
      assert x == y + rest;
    }
    if rest :| x == y + rest {
      assert x[|y|..] == rest;
    }
  }

  /** Path match is a partial order on paths, whatever the strings. */
  lemma PathMatchIsAnOrder(a: string, b: string, c: string)
    ensures PathMatches(a, a)
    ensures PathMatches(a, b) && PathMatches(b, c) ==> PathMatches(a, c)
    ensures PathMatches(a, b) && PathMatches(b, a) ==> PathOf(a) == PathOf(b)
  {
    PathMatchIsUnder(a, b); PathMatchIsUnder(b, c); PathMatchIsUnder(a, c); PathMatchIsUnder(b, a);
    var x, y, z := PathOf(a), PathOf(b), PathOf(c);
    if Under(x, y) && Under(y, z) && |z| < |y| { assert x[|z|] == y[|z|]; }
  }

  // ---- domains ----

  // _cookie_domain_matches
  predicate DomainMatches(host: string, domain: string) {
    var d := DropDots(domain);
    host == d || (|host| >= |d| + 1 && host[|host| - |d| - 1..] == "." + d)
  }

  predicate EndsWith(s: string, t: string) { |t| <= |s| && s[|s| - |t|..] == t }

  // Domain match as section 5.1.3 of RFC 6265 words it, for a cookie domain without leading dots:
  // the strings are identical, or the domain is a suffix of the host, the last character of the
  // host before it is a dot, and the host is no IP address.
  predicate Rfc6265DomainMatch(host: string, domain: string, hostIsAddress: bool) {
    || host == domain
    || (EndsWith(host, domain) && |host| > |domain| && host[|host| - |domain| - 1] == '.' && !hostIsAddress)
  }

  /** The code's domain match is that of RFC 6265 but for its last clause: it differs exactly for an
      IP address that properly ends in the domain after a dot. */
  lemma DomainMatchIsRfc6265(host: string, domain: string, hostIsAddress: bool)
    ensures DomainMatches(host, domain) <==> Rfc6265DomainMatch(host, DropDots(domain), false)
    ensures DomainMatches(host, domain) != Rfc6265DomainMatch(host, DropDots(domain), hostIsAddress) <==>
      hostIsAddress && EndsWith(host, "." + DropDots(domain))
  {
    var d := DropDots(domain);
    DotBefore(host, d);
    if host == d { assert !EndsWith(host, "." + d); }
  }

  lemma DotBefore(host: string, d: string)
    ensures EndsWith(host, "." + d) <==> EndsWith(host, d) && |host| > |d| && host[|host| - |d| - 1] == '.'
  {
    if |host| > |d| {
      var n := |host| - |d| - 1;
      assert host[n..] == [host[n]] + host[n + 1..];
    }
  }

  // From place n on the text is d, which starts with no dot, and before that it is all dots.
  predicate DotsBefore(s: string, d: string, n: nat) {
    n <= |s| && d == s[n..] && (d != "" ==> d[0] != '.') && forall i :: 0 <= i < n ==> s[i] == '.'
  }

  /** Leading dots make no difference, and nothing else is dropped. */
  lemma {:induction false} DropDotsIs(s: string) returns (n: nat)
    ensures DotsBefore(s, DropDots(s), n)
  {
    n := 0;
    if s != "" && s[0] == '.' {
      var m := DropDotsIs(s[1..]);
      n := m + 1;
      assert s[1..][m..] == s[n..];
      assert forall i :: 1 <= i < n ==> s[i] == s[1..][i - 1];
    }
  }

  /** A cookie of example.com, with or without a leading dot, reaches www.example.com; and one of
      the domain 4 reaches the address 1.2.3.4. */
  lemma DomainMatchInstances()
    ensures DomainMatches("www.example.com", ".example.com") && DomainMatches("www.example.com", "example.com")
    ensures DomainMatches("1.2.3.4", "4") && !Rfc6265DomainMatch("1.2.3.4", "4", true)
  {
    var h, d := "www.example.com", "example.com";
    assert ".example.com"[1..] == d && DropDots(".example.com") == d && DropDots(d) == d;
    assert h[|h| - |d| - 1..] == "." + d;
    var a := "1.2.3.4";
    assert a[5..] == ".4" == "." + "4";
  }

  /** Two domains that match one host are nested: the host of the longer matches the shorter,
      and equally long ones are the same. */
  lemma MatchingDomainsAreNested(host: string, d: string, e: string)
    requires DomainMatches(host, d) && DomainMatches(host, e) && |DropDots(d)| >= |DropDots(e)|
    ensures DomainMatches(DropDots(d), e)
    ensures |DropDots(d)| == |DropDots(e)| ==> DropDots(d) == DropDots(e)
  {
    var n, x, y := |host|, DropDots(d), DropDots(e);
    assert host[n - |x|..] == x by { if host != x { assert host[n - |x|..] == host[n - |x| - 1..][1..]; } }
    assert host[n - |y|..] == y by { if host != y { assert host[n - |y|..] == host[n - |y| - 1..][1..]; } }
    if |x| > |y| {
      assert x[|x| - |y| - 1..] == host[n - |y| - 1..];
    }
  }

  /** Two paths that match one request path are nested in the same way. */
  lemma MatchingPathsAreNested(request: string, p: string, q: string)
    requires PathMatches(request, p) && PathMatches(request, q) && |PathOf(p)| >= |PathOf(q)|
    ensures PathMatches(p, q)
    ensures |PathOf(p)| == |PathOf(q)| ==> PathOf(p) == PathOf(q)
  {
    PathMatchIsUnder(request, p); PathMatchIsUnder(request, q); PathMatchIsUnder(p, q);
    var r, x, y := PathOf(request), PathOf(p), PathOf(q);
    assert x == r[..|x|] && y == r[..|y|];
  }

  // ---- candidates ----

  datatype Cookie = Cookie(name: string, value: string, domain: string, path: string, secure: bool)

  datatype Target = Target(scheme: string, host: string, path: string)

  datatype Candidate = Candidate(domainScore: nat, pathScore: nat, name: string, value: string)

  // _http_cookie_candidate. An entry that is not a mapping is None.
  function CandidateOf(entry: Option<Cookie>, t: Target): Option<Candidate> {
    match entry
    case None => None
    case Some(cookie) =>
      var name, value := Strip(cookie.name), Strip(cookie.value);
      if name == "" || value == "" then None
      else if cookie.secure && t.scheme != "https" then None
      else
        var domain, path := Lower(Strip(cookie.domain)), PathOf(cookie.path);
        if t.host != "" && domain != "" && !DomainMatches(t.host, domain) then None
        else if t.path != "" && !PathMatches(t.path, path) then None
        else Some(Candidate(|DropDots(domain)|, |path|, name, value))
  }

  // The candidates of a jar, in its order.
  function Candidates(jar: seq<Option<Cookie>>, t: Target): seq<Candidate> {
    if jar == [] then []
    else
      var rest, last := Candidates(jar[..|jar| - 1], t), CandidateOf(jar[|jar| - 1], t);
      if last.Some? then rest + [last.value] else rest
  }

  // ---- one value per name ----

  // The comparison of score pairs.
  predicate AtLeast(a: Candidate, b: Candidate) {
    a.domainScore > b.domainScore || (a.domainScore == b.domainScore && a.pathScore >= b.pathScore)
  }

  // Candidate k decides the value of its name: none has a greater score, none that comes
  // later an equal one.
  ghost predicate Decides(cs: seq<Candidate>, k: nat) {
    && k < |cs|
    && (forall j :: 0 <= j < |cs| && cs[j].name == cs[k].name ==> AtLeast(cs[k], cs[j]))
    && (forall j :: k < j < |cs| && cs[j].name == cs[k].name ==> !AtLeast(cs[j], cs[k]))
  }

  // Candidate k is the first of its name.
  predicate Opens(cs: seq<Candidate>, k: nat) {
    k < |cs| && forall j :: 0 <= j < k ==> cs[j].name != cs[k].name
  }

  ghost predicate Opened(cs: seq<Candidate>, name: string, k: nat) { Opens(cs, k) && cs[k].name == name }

  ghost predicate Decided(cs: seq<Candidate>, name: string, k: nat) { Decides(cs, k) && cs[k].name == name }

  // Names in the order of their first candidates, each once.
  ghost predicate InFirstOrder(cs: seq<Candidate>, names: seq<string>) {
    && (forall n :: n in names <==> exists k: nat :: Opened(cs, n, k))
    && (forall i, j, a: nat, b: nat ::
          0 <= i < j < |names| && Opened(cs, names[i], a) && Opened(cs, names[j], b) ==> a < b)
    && (forall i, j :: 0 <= i < j < |names| ==> names[i] != names[j])
  }

  ghost predicate ValuesDecided(cs: seq<Candidate>, names: seq<string>, selected: map<string, Candidate>) {
    && (forall n :: n in names <==> n in selected)
    && (forall n :: n in selected ==> exists k: nat :: Decided(cs, n, k) && selected[n] == cs[k])
  }

  // What the selected pairs must be.
  ghost predicate Selection(cs: seq<Candidate>, pairs: seq<(string, string)>) {
    && InFirstOrder(cs, Names(pairs))
    && (forall i :: 0 <= i < |pairs| ==> exists k: nat :: Decided(cs, pairs[i].0, k) && pairs[i].1 == cs[k].value)
  }

  function Names(pairs: seq<(string, string)>): seq<string> {
    seq(|pairs|, i requires 0 <= i < |pairs| => pairs[i].0)
  }

  // _select_http_cookie_pairs. The dictionary keeps the order in which keys were added.
  method SelectHttpCookiePairs(candidates: seq<Candidate>) returns (pairs: seq<(string, string)>)
    ensures Selection(candidates, pairs)
  {
    var names: seq<string>, selected: map<string, Candidate> := [], map[];
    for i := 0 to |candidates|
      invariant InFirstOrder(candidates[..i], names)
      invariant ValuesDecided(candidates[..i], names, selected)
    {
      var c := candidates[i];
      ghost var seen := candidates[..i];
      assert candidates[..i + 1] == seen + [c];
      NamesGrow(seen, c, names);
      ValuesGrow(seen, c, names, selected);
      if c.name !in selected {
        names, selected := names + [c.name], selected[c.name := c];
      } else if AtLeast(c, selected[c.name]) {
        selected := selected[c.name := c];
      }
    }
    assert candidates[..|candidates|] == candidates;
    pairs := seq(|names|, i requires 0 <= i < |names| => (names[i], selected[names[i]].value));
    assert Names(pairs) == names;
  }

  lemma NamesGrow(seen: seq<Candidate>, c: Candidate, names: seq<string>)
    requires InFirstOrder(seen, names)
    ensures InFirstOrder(seen + [c], if c.name in names then names else names + [c.name])
  {
    var cs, after := seen + [c], if c.name in names then names else names + [c.name];
    forall n, k: nat | Opened(seen, n, k) ensures Opened(cs, n, k) {}
    forall n | n in names ensures exists j :: 0 <= j < |seen| && cs[j].name == n {
      var j: nat :| Opened(seen, n, j);
      assert cs[j].name == n;
    }
    forall n, k: nat | Opened(cs, n, k)
      ensures if n in names then Opened(seen, n, k) else k == |seen| && n == c.name
    {
      forall j | 0 <= j < k && k < |seen| ensures seen[j].name != seen[k].name { assert cs[j].name != cs[k].name; }
      assert k < |seen| ==> Opened(seen, n, k);
    }
    if c.name !in names {
      forall j | 0 <= j < |seen| ensures seen[j].name != c.name {
        if seen[j].name == c.name { FirstExists(seen, j); }
      }
      assert Opened(cs, c.name, |seen|);
    }
  }

  lemma FirstExists(cs: seq<Candidate>, j: nat)
    requires j < |cs|
    ensures exists k: nat :: Opened(cs, cs[j].name, k)
  {
    if i :| 0 <= i < j && cs[i].name == cs[j].name { FirstExists(cs, i); } else { assert Opened(cs, cs[j].name, j); }
  }

  lemma DecisionMoves(seen: seq<Candidate>, c: Candidate, name: string, k: nat)
    requires Decided(seen, name, k)
    ensures Decided(seen + [c], name, if name == c.name && AtLeast(c, seen[k]) then |seen| else k)
  {
  }

  lemma ValuesGrow(seen: seq<Candidate>, c: Candidate, names: seq<string>, selected: map<string, Candidate>)
    requires InFirstOrder(seen, names) && ValuesDecided(seen, names, selected)
    ensures ValuesDecided(seen + [c], if c.name in selected then names else names + [c.name],
                          if c.name in selected && !AtLeast(c, selected[c.name]) then selected
                          else selected[c.name := c])
  {
    var cs := seen + [c];
    var after := if c.name in selected && !AtLeast(c, selected[c.name]) then selected else selected[c.name := c];
    forall n | n in after ensures exists k: nat :: Decided(cs, n, k) && after[n] == cs[k] {
      if n in selected {
        var k: nat :| Decided(seen, n, k) && selected[n] == seen[k];
        DecisionMoves(seen, c, n, k);
      } else {
        forall j | 0 <= j < |seen| ensures seen[j].name != n {
          if seen[j].name == n { FirstExists(seen, j); }
        }
        assert Decided(cs, n, |seen|);
      }
    }
  }

  /** The description of the selection admits one answer only. */
  lemma SelectionIsUnique(cs: seq<Candidate>, p: seq<(string, string)>, q: seq<(string, string)>)
    requires Selection(cs, p) && Selection(cs, q)
    ensures p == q
  {
    OrderIsUnique(cs, Names(p), Names(q), 0);
    assert |p| == |Names(p)| == |Names(q)| == |q|;
    forall i | 0 <= i < |p| ensures p[i] == q[i] {
      assert Names(p)[i] == Names(q)[i];
      var a: nat :| Decided(cs, p[i].0, a) && p[i].1 == cs[a].value;
      var b: nat :| Decided(cs, q[i].0, b) && q[i].1 == cs[b].value;
      assert a == b;
    }
  }

  lemma OrderIsUnique(cs: seq<Candidate>, p: seq<string>, q: seq<string>, i: nat)
    requires InFirstOrder(cs, p) && InFirstOrder(cs, q) && i <= |p| && i <= |q| && p[..i] == q[..i]
    ensures p == q
    decreases |p| - i
  {
    if i < |p| && i < |q| {
      SameNext(cs, p, q, i);
      OrderIsUnique(cs, p, q, i + 1);
    } else if i < |p| {
      var j := WhereElse(cs, p, q, i);
      assert false;
    } else if i < |q| {
      var j := WhereElse(cs, q, p, i);
      assert false;
    }
  }

  // A name of one selection is in the other, behind the part they share.
  lemma WhereElse(cs: seq<Candidate>, p: seq<string>, q: seq<string>, i: nat) returns (j: nat)
    requires InFirstOrder(cs, p) && InFirstOrder(cs, q) && i < |p| && i <= |q| && p[..i] == q[..i]
    ensures i <= j < |q| && q[j] == p[i]
  {
    assert p[i] in p;
    var k: nat :| Opened(cs, p[i], k);
    assert p[i] in q;
    forall m | 0 <= m < i ensures q[m] != p[i] { assert q[..i][m] == p[..i][m]; }
    j :| 0 <= j < |q| && q[j] == p[i];
  }

  lemma SameNext(cs: seq<Candidate>, p: seq<string>, q: seq<string>, i: nat)
    requires InFirstOrder(cs, p) && InFirstOrder(cs, q) && i < |p| && i < |q| && p[..i] == q[..i]
    ensures p[i] == q[i]
  {
    var j := WhereElse(cs, p, q, i);
    var k := WhereElse(cs, q, p, i);
    assert p[i] in p && q[i] in q;
    var a: nat :| Opened(cs, p[i], a);
    var b: nat :| Opened(cs, q[i], b);
  }

  // http_cookie_pairs_for_url, with the parts of the URL given.
  method HttpCookiePairsForUrl(t: Target, jar: seq<Option<Cookie>>) returns (pairs: seq<(string, string)>)
    ensures Selection(Candidates(jar, t), pairs)
  {
    var candidates: seq<Candidate> := [];
    for i := 0 to |jar|
      invariant candidates == Candidates(jar[..i], t)
    {
      var candidate := CandidateOf(jar[i], t);
      assert jar[..i + 1][..i] == jar[..i];
      if candidate.Some? { candidates := candidates + [candidate.value]; }
    }
    assert jar[..|jar|] == jar;
    pairs := SelectHttpCookiePairs(candidates);
  }

  // ---- the winner is the most specific cookie ----

  // One scope lies inside another: its domain belongs to the other's, and its path to the other's.
  ghost predicate InDomain(d: Cookie, e: Cookie) {
    DomainMatches(DropDots(Lower(Strip(d.domain))), Lower(Strip(e.domain)))
  }

  /** For one request, the score order is the order of scopes. Of two eligible cookies that
      carry domains, the one that wins has a domain inside the loser's, and on equal domains
      a path inside the loser's; a tie means the same domain and the same path. */
  lemma ScoreIsSpecificity(x: Cookie, y: Cookie, t: Target)
    requires t.host != "" && t.path != "" && Strip(x.domain) != "" && Strip(y.domain) != ""
    requires CandidateOf(Some(x), t).Some? && CandidateOf(Some(y), t).Some?
    requires AtLeast(CandidateOf(Some(x), t).value, CandidateOf(Some(y), t).value)
    ensures InDomain(x, y)
    ensures var dx, dy := DropDots(Lower(Strip(x.domain))), DropDots(Lower(Strip(y.domain)));
      dx == dy ==> PathMatches(x.path, y.path)
    ensures AtLeast(CandidateOf(Some(y), t).value, CandidateOf(Some(x), t).value) ==>
      DropDots(Lower(Strip(x.domain))) == DropDots(Lower(Strip(y.domain))) && PathOf(x.path) == PathOf(y.path)
  {
    MatchingDomainsAreNested(t.host, Lower(Strip(x.domain)), Lower(Strip(y.domain)));
    PathOfIsStable(x.path); PathOfIsStable(y.path);
    if |PathOf(x.path)| >= |PathOf(y.path)| { MatchingPathsAreNested(t.path, PathOf(x.path), PathOf(y.path)); }
    PathMatchIsUnder(x.path, y.path); PathMatchIsUnder(PathOf(x.path), PathOf(y.path));
  }

  /** Who is eligible. A cookie without a domain is eligible for every host, and a secure
      cookie only for https. */
  lemma EligibleIff(cookie: Cookie, t: Target)
    requires t.host != "" && t.path != ""
    ensures CandidateOf(Some(cookie), t).Some? <==>
      && Strip(cookie.name) != "" && Strip(cookie.value) != ""
      && (cookie.secure ==> t.scheme == "https")
      && (Strip(cookie.domain) == "" || DomainMatches(t.host, Lower(Strip(cookie.domain))))
      && Rfc6265PathMatch(PathOf(t.path), PathOf(cookie.path))
    ensures CandidateOf(Some(cookie), t).Some? ==>
      CandidateOf(Some(cookie), t).value.name == Strip(cookie.name) &&
        CandidateOf(Some(cookie), t).value.value == Strip(cookie.value)
  {
    PathOfIsStable(cookie.path);
    PathMatchIsRfc6265(t.path, PathOf(cookie.path));
  }
}
