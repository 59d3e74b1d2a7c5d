/**
 The retry loop of the repair: shorter and shorter prefixes of the text, each completed
 and offered to a JSON parser, until one parses. The parser is arbitrary.
 */
module JsonPrefix {
  import opened Wrappers
  import opened Text
  import opened JsonRepair

  predicate IsSeparator(c: char) { c == ',' || c == ':' }

  // candidate.rstrip().rstrip(",:")
  function Trim(s: string): (r: string)
    ensures r <= s
  {
    StripRight(StripRight(s, IsSpace), IsSeparator)
  }

  // The last comma, if any.
  function LastComma(s: string): (r: Option<nat>)
    ensures r.Some? ==> r.value < |s| && s[r.value] == ',' && forall j :: r.value < j < |s| ==> s[j] != ','
    ensures r.None? ==> ',' !in s
  {
    if s == "" then None
    else if s[|s| - 1] == ',' then Some(|s| - 1)
    else LastComma(s[..|s| - 1])
  }

  const ATTEMPTS := 24

  // The candidates the loop would try in turn, at most `n` of them.
  function Candidates(s: string, n: nat): seq<string>
    decreases n
  {
    var c := Trim(s);
    if n == 0 || c == "" then []
    else match LastComma(c) {
      case None => [c]
      case Some(k) => [c] + Candidates(c[..k], n - 1)
    }
  }

  // What one candidate yields.
  function Parse<V>(c: string, loads: string -> Option<V>): Option<V> {
    match Completion(c)
    case None => None
    case Some(text) => loads(text)
  }

  function FirstParse<V>(cs: seq<string>, loads: string -> Option<V>): Option<V> {
    if cs == [] then None
    else if Parse(cs[0], loads).Some? then Parse(cs[0], loads)
    else FirstParse(cs[1..], loads)
  }

  // The text after cutting an open string off its end.
  ghost predicate CutOf(s: string, cut: string) {
    && (LexOf(s).Outside? ==> cut == s)
    && (LexOf(s).InString? ==> OpenStringStart(s, |cut|) && cut == s[..|cut|])
  }

  // ---- what the candidates are ----

  // The text is r, then separators only, then white space only; no white space stands before that.
  predicate Trimmed(s: string, r: string, seps: string, spaces: string) {
    && s == r + seps + spaces && AllOf(seps, IsSeparator) && AllOf(spaces, IsSpace)
    && (r + seps != "" ==> !IsSpace((r + seps)[|r + seps| - 1]))
  }

  /** Trimming removes white space from the end and then separators, and nothing else. */
  lemma TrimIs(s: string)
    ensures exists seps, spaces :: Trimmed(s, Trim(s), seps, spaces)
    ensures Trim(s) != "" ==> !IsSeparator(Trim(s)[|Trim(s)| - 1])
  {
    var a, r := StripRight(s, IsSpace), Trim(s);
    var seps, spaces := a[|r|..], s[|a|..];
    assert a == r + seps && s == a + spaces && s == r + seps + spaces;
    forall i | 0 <= i < |seps| ensures IsSeparator(seps[i]) { assert seps[i] == a[|r| + i]; }
    forall i | 0 <= i < |spaces| ensures IsSpace(spaces[i]) { assert spaces[i] == s[|a| + i]; }
    assert Trimmed(s, r, seps, spaces);
  }

  // The text before the last comma.
  predicate BeforeLastComma(s: string, t: string) {
    |t| < |s| && t == s[..|t|] && s[|t|] == ',' && forall j :: |t| < j < |s| ==> s[j] != ','
  }

  // Each candidate is what trimming leaves of the text before the last comma of the one before.
  ghost predicate Follows(c: string, d: string) { exists t :: BeforeLastComma(c, t) && d == Trim(t) }

  lemma LastCommaIs(c: string)
    ensures LastComma(c).Some? ==> BeforeLastComma(c, c[..LastComma(c).value])
    ensures LastComma(c).None? <==> ',' !in c
  {
  }

  // A list of candidates for a text and n attempts, from above and below: the first is the trimmed
  // text; each next one is the trimmed text before the last comma; and they end only after n
  // attempts, at a candidate without a comma, or where nothing is left.
  ghost predicate Chain(cs: seq<string>, s: string, n: nat) {
    && (cs == [] <==> n == 0 || Trim(s) == "")
    && (cs != [] ==> cs[0] == Trim(s))
    && (forall i :: 0 < i < |cs| ==> Follows(cs[i - 1], cs[i]))
    && (0 < |cs| < n ==> Ends(cs[|cs| - 1]))
  }

  ghost predicate Ends(c: string) { ',' !in c || exists t :: BeforeLastComma(c, t) && Trim(t) == "" }

  lemma ChainCons(c: string, t: string, rest: seq<string>, s: string, n: nat)
    requires n > 0 && c == Trim(s) && c != "" && BeforeLastComma(c, t) && Chain(rest, t, n - 1)
    ensures Chain([c] + rest, s, n)
  {
    var cs := [c] + rest;
    if rest != [] { assert Follows(c, rest[0]); }
    forall i | 0 < i < |cs| ensures Follows(cs[i - 1], cs[i]) {
      if i > 1 { assert Follows(rest[i - 2], rest[i - 1]); }
    }
  }

  /** The candidates are such a chain. */
  lemma {:induction false} CandidatesAre(s: string, n: nat)
    ensures Chain(Candidates(s, n), s, n)
    decreases n
  {
    var c := Trim(s);
    if n > 0 && c != "" {
      LastCommaIs(c);
      if LastComma(c).Some? {
        var t := c[..LastComma(c).value];
        CandidatesAre(t, n - 1);
        ChainCons(c, t, Candidates(t, n - 1), s, n);
      }
    }
  }

  /** If completing the trimmed text parses, that parse is what the repair of it gives; and it
      gives nothing exactly when no candidate parses. */
  lemma FirstCandidateWins<V>(cut: string, n: nat, loads: string -> Option<V>)
    requires n > 0 && Trim(cut) != ""
    ensures Completion(Trim(cut)).Some? && loads(Completion(Trim(cut)).value).Some? ==>
      FirstParse(Candidates(cut, n), loads) == loads(Completion(Trim(cut)).value)
    ensures FirstParse(Candidates(cut, n), loads).None? <==>
      forall c :: c in Candidates(cut, n) ==> Parse(c, loads).None?
  {
    FirstParseStep(cut, n, loads);
    FirstParseIsLongest(Candidates(cut, n), loads);
  }

  lemma ListScans()
    ensures LexOf("[1,2").Outside? && Completion("[1,2") == Some("[1,2]")
  {
    var s, open := "[1,2", Scan(Outside, "[");
    assert s[1..] == "1,2" && "1,2"[1..] == ",2" && ",2"[1..] == "2" && "2"[1..] == "";
    assert "" + ['['] == "[" && "["[..0] == "";
    assert ScanFrom(open, "") == open;
    assert ScanFrom(open, "2") == open;
    assert ScanFrom(open, ",2") == open;
    assert ScanFrom(open, "1,2") == open;
    assert ScanStep(START, '[') == open && ScanOf(s) == open;
    assert LexFrom(Outside, "2") == Outside && LexFrom(Outside, ",2") == Outside && LexFrom(Outside, "1,2") == Outside;
    assert Closers("") == "" && Closers("[") == "]";
    assert s + "]" == "[1,2]";
  }

  /** A list that breaks off keeps the items it has. */
  lemma BrokenListKeepsItems<V>(loads: string -> Option<V>, n: nat)
    requires n > 0 && loads("[1,2]").Some?
    ensures CutOf("[1,2", "[1,2") && FirstParse(Candidates("[1,2", n), loads) == loads("[1,2]")
  {
    var s := "[1,2";
    TrimIs(s);
    ListScans();
    assert Trim(s) == s;
    FirstCandidateWins(s, n, loads);
  }

  // Some prefix of the text, followed by closers only, is balanced and parses to v.
  ghost predicate ParsedPrefix<V>(s: string, loads: string -> Option<V>, v: V) {
    exists p, w :: p <= s && AllClosers(w) && IsBalanced(p + w) && loads(p + w) == Some(v)
  }

  // _repair_truncated_json_prefix
  method RepairTruncatedJsonPrefix<V>(text: string, loads: string -> Option<V>) returns (r: Option<V>)
    ensures r.Some? ==> Strip(text) != "" && IsOpener(Strip(text)[0]) && ParsedPrefix(Strip(text), loads, r.value)
    ensures Strip(text) != "" && IsOpener(Strip(text)[0]) ==>
              exists cut, cs :: CutOf(Strip(text), cut) && Chain(cs, cut, 24) && r == FirstParse(cs, loads)
  {
    var candidate := Strip(text);
    if candidate == "" || !IsOpener(candidate[0]) {
      return None;
    }
    var cut := TruncateOpenJsonString(candidate);
    r := TryPrefixes(cut, ATTEMPTS, loads);
    CandidatesAre(cut, ATTEMPTS);
    if r.Some? { RepairedValueIsAPrefix(text, cut, loads, r.value); }
  }

  // The loop, for any number of attempts.
  method TryPrefixes<V>(text: string, attempts: nat, loads: string -> Option<V>) returns (r: Option<V>)
    ensures r == FirstParse(Candidates(text, attempts), loads)
  {
    var candidate := text;
    for attempt := 0 to attempts
      invariant FirstParse(Candidates(text, attempts), loads) ==
        FirstParse(Candidates(candidate, attempts - attempt), loads)
    {
      FirstParseStep(candidate, attempts - attempt, loads);
      candidate := Trim(candidate);
      if candidate == "" {
        return None;
      }
      var value := TryCandidate(candidate, loads);
      if value.Some? {
        return value;
      }
      var comma := LastComma(candidate);
      if comma.None? {
        return None;
      }
      candidate := candidate[..comma.value];
    }
    return None;
  }

  method TryCandidate<V>(candidate: string, loads: string -> Option<V>) returns (r: Option<V>)
    ensures r == Parse(candidate, loads)
  {
    var repaired := BalancedJsonCandidate(candidate);
    if repaired.None? { return None; }
    r := loads(repaired.value);
  }

  // One attempt of the loop.
  lemma FirstParseStep<V>(s: string, n: nat, loads: string -> Option<V>)
    requires n > 0
    ensures var c := Trim(s);
      FirstParse(Candidates(s, n), loads)
      == if c == "" then None
         else if Parse(c, loads).Some? then Parse(c, loads)
         else if LastComma(c).None? then None
         else FirstParse(Candidates(c[..LastComma(c).value], n - 1), loads)
  {
    var c := Trim(s);
    if c != "" {
      var rest := if LastComma(c).Some? then Candidates(c[..LastComma(c).value], n - 1) else [];
      var cs := [c] + rest;
      assert Candidates(s, n) == cs;
      assert cs[0] == c && cs[1..] == rest;
    }
  }

  ghost predicate Shrinks(cs: seq<string>, s: string) {
    && (forall c :: c in cs ==> c != "" && c <= s)
    && (forall i, j :: 0 <= i < j < |cs| ==> |cs[j]| < |cs[i]|)
  }

  lemma ShrinksCons(c: string, shorter: string, rest: seq<string>, s: string)
    requires Shrinks(rest, shorter) && c != "" && c <= s && shorter <= c && |shorter| < |c|
    ensures Shrinks([c] + rest, s)
  {
    forall x | x in rest ensures x <= s && |x| < |c| {
      assert x == shorter[..|x|] == c[..|x|] == s[..|x|];
    }
    forall j | 0 <= j < |rest| ensures |rest[j]| < |c| { assert rest[j] in rest; }
  }

  /** The candidates are at most `n` prefixes of the text, none empty, each strictly shorter
      than the one before. */
  lemma {:induction false} CandidatesShrink(s: string, n: nat)
    ensures |Candidates(s, n)| <= n && Shrinks(Candidates(s, n), s)
    decreases n
  {
    var c := Trim(s);
    if n > 0 && c != "" && LastComma(c).Some? {
      var shorter := c[..LastComma(c).value];
      CandidatesShrink(shorter, n - 1);
      ShrinksCons(c, shorter, Candidates(shorter, n - 1), s);
    }
  }

  lemma {:induction false} FirstParseIsLongest<V>(cs: seq<string>, loads: string -> Option<V>)
    ensures FirstParse(cs, loads).Some? <==> exists i :: 0 <= i < |cs| && Parse(cs[i], loads).Some?
    ensures FirstParse(cs, loads).Some? ==>
      exists i :: (0 <= i < |cs| && FirstParse(cs, loads) == Parse(cs[i], loads)
                   && forall j :: 0 <= j < i ==> Parse(cs[j], loads).None?)
  {
    if cs != [] && Parse(cs[0], loads).None? {
      FirstParseIsLongest(cs[1..], loads);
      forall i | 0 <= i < |cs| && Parse(cs[i], loads).Some?
        ensures 0 <= i - 1 < |cs[1..]| && Parse(cs[1..][i - 1], loads).Some?
      {
      }
      if FirstParse(cs[1..], loads).Some? {
        var i :| 0 <= i < |cs[1..]| && FirstParse(cs[1..], loads) == Parse(cs[1..][i], loads)
                 && forall j :: 0 <= j < i ==> Parse(cs[1..][j], loads).None?;
        assert cs[i + 1] == cs[1..][i];
        forall j | 0 <= j < i + 1 ensures Parse(cs[j], loads).None? {
          if j > 0 { assert cs[j] == cs[1..][j - 1]; }
        }
      }
    }
  }

  /** A value that the repair returns is the parse of a prefix of the stripped text followed
      by closing brackets only, and that text is balanced. */
  lemma RepairedValueIsAPrefix<V>(text: string, cut: string, loads: string -> Option<V>, v: V)
    requires CutOf(Strip(text), cut) && FirstParse(Candidates(cut, ATTEMPTS), loads) == Some(v)
    ensures ParsedPrefix(Strip(text), loads, v)
  {
    var cs := Candidates(cut, ATTEMPTS);
    FirstParseIsLongest(cs, loads);
    CandidatesShrink(cut, ATTEMPTS);
    var i :| 0 <= i < |cs| && FirstParse(cs, loads) == Parse(cs[i], loads);
    var p, t := cs[i], Completion(cs[i]).value;
    CompletionIsBalanced(p);
    var w := t[|p|..];
    assert t == p + w;
    assert p in cs && p <= Strip(text);
    assert loads(p + w) == Some(v);
  }
}
