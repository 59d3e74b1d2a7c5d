/**
 Repair of a truncated JSON text: cut an open string, close the open brackets, and retry
 on ever shorter prefixes. The scanners are loops over characters; their specification is
 an automaton with a bracket stack, and the automaton is matched against a grammar of
 balanced texts that knows nothing of scanning.
 */
module JsonRepair {
  import opened Wrappers

  // ---- the automaton ----

  datatype Lex = Outside | InString(escaped: bool)

  datatype Scan = Scan(lex: Lex, stack: string) | Mismatch

  predicate IsOpener(c: char) { c == '[' || c == '{' }

  predicate IsCloser(c: char) { c == ']' || c == '}' }

  function OpenerOf(closer: char): char { if closer == ']' then '[' else '{' }

  function CloserOf(opener: char): char { if opener == '[' then ']' else '}' }

  function LexStep(l: Lex, c: char): Lex {
    match l
    case Outside => if c == '"' then InString(false) else Outside
    case InString(true) => InString(false)
    case InString(false) => if c == '\\' then InString(true) else if c == '"' then Outside else l
  }

  function ScanStep(st: Scan, c: char): Scan {
    match st
    case Mismatch => Mismatch
    case Scan(lex, stack) =>
      if lex.InString? then Scan(LexStep(lex, c), stack)
      else if IsOpener(c) then Scan(Outside, stack + [c])
      else if IsCloser(c) then
        if stack == "" || stack[|stack| - 1] != OpenerOf(c) then Mismatch else Scan(Outside, stack[..|stack| - 1])
      else Scan(LexStep(lex, c), stack)
  }

  function ScanFrom(st: Scan, s: string): Scan
    decreases |s|
  {
    if s == "" then st else ScanFrom(ScanStep(st, s[0]), s[1..])
  }

  function LexFrom(l: Lex, s: string): Lex
    decreases |s|
  {
    if s == "" then l else LexFrom(LexStep(l, s[0]), s[1..])
  }

  const START := Scan(Outside, "")

  function ScanOf(s: string): Scan { ScanFrom(START, s) }

  function LexOf(s: string): Lex { LexFrom(Outside, s) }

  // One closer per open bracket, the innermost first.
  function Closers(stack: string): string {
    if stack == "" then "" else [CloserOf(stack[|stack| - 1])] + Closers(stack[..|stack| - 1])
  }

  // The completed text, if there is one.
  function Completion(s: string): Option<string> {
    match ScanOf(s)
    case Scan(Outside, stack) => Some(s + Closers(stack))
    case _ => None
  }

  predicate IsBalanced(s: string) { ScanOf(s) == START }

  lemma {:induction false} ScanAppend(st: Scan, a: string, b: string)
    ensures ScanFrom(st, a + b) == ScanFrom(ScanFrom(st, a), b)
    decreases |a|
  {
    if a == "" {
      assert a + b == b;
    } else {
      assert (a + b)[1..] == a[1..] + b;
      ScanAppend(ScanStep(st, a[0]), a[1..], b);
    }
  }

  lemma {:induction false} LexAppend(l: Lex, a: string, b: string)
    ensures LexFrom(l, a + b) == LexFrom(LexFrom(l, a), b)
    decreases |a|
  {
    if a == "" {
      assert a + b == b;
    } else {
      assert (a + b)[1..] == a[1..] + b;
      LexAppend(LexStep(l, a[0]), a[1..], b);
    }
  }

  lemma {:induction false} MismatchStays(s: string)
    ensures ScanFrom(Mismatch, s) == Mismatch
    decreases |s|
  {
    if s != "" { MismatchStays(s[1..]); }
  }

  // Unless brackets mismatch, the scan's string state is the plain one.
  lemma {:induction false} ScanLex(st: Scan, s: string)
    requires st.Scan? && ScanFrom(st, s).Scan?
    ensures ScanFrom(st, s).lex == LexFrom(st.lex, s)
    decreases |s|
  {
    if s != "" {
      if ScanStep(st, s[0]).Mismatch? { MismatchStays(s[1..]); }
      ScanLex(ScanStep(st, s[0]), s[1..]);
    }
  }

  // ---- the scanners ----

  // _balanced_json_candidate
  method BalancedJsonCandidate(candidate: string) returns (r: Option<string>)
    ensures r == Completion(candidate)
  {
    var stack, inString, escaped := "", false, false;
    for i := 0 to |candidate|
      invariant escaped ==> inString
      invariant ScanFrom(Scan(if inString then InString(escaped) else Outside, stack), candidate[i..]) ==
        ScanOf(candidate)
    {
      var c := candidate[i];
      assert candidate[i..][1..] == candidate[i + 1..];
      if inString {
        if escaped {
          escaped := false;
        } else if c == '\\' {
          escaped := true;
        } else if c == '"' {
          inString := false;
        }
        continue;
      }
      if c == '"' {
        inString := true;
      } else if IsOpener(c) {
        stack := stack + [c];
      } else if IsCloser(c) {
        if stack == "" || stack[|stack| - 1] != OpenerOf(c) {
          MismatchStays(candidate[i + 1..]);
          return None;
        }
        stack := stack[..|stack| - 1];
      }
    }
    if inString { return None; }
    return Some(candidate + Closers(stack));
  }

  // `k` is where the string that is still open at the end of `s` starts.
  predicate OpenStringStart(s: string, k: nat) {
    && k < |s| && s[k] == '"' && LexOf(s[..k]).Outside?
    && forall j :: k < j <= |s| ==> LexOf(s[..j]).InString?
  }

  // _truncate_open_json_string
  method TruncateOpenJsonString(candidate: string) returns (r: string)
    ensures LexOf(candidate).Outside? ==> r == candidate
    ensures LexOf(candidate).InString? ==> OpenStringStart(candidate, |r|) && r == candidate[..|r|]
  {
    var inString, escaped, stringStart := false, false, -1;
    for i := 0 to |candidate|
      invariant escaped ==> inString
      invariant LexOf(candidate[..i]) == if inString then InString(escaped) else Outside
      invariant inString ==> 0 <= stringStart < i && OpenStringStart(candidate[..i], stringStart)
    {
      var c := candidate[i];
      assert candidate[..i + 1] == candidate[..i] + [c];
      LexAppend(Outside, candidate[..i], [c]);
      if inString {
        if escaped {
          escaped := false;
        } else if c == '\\' {
          escaped := true;
        } else if c == '"' {
          inString := false;
        }
        if inString { StillOpen(candidate, i, stringStart); }
        continue;
      }
      if c == '"' {
        inString := true;
        stringStart := i;
        NowOpen(candidate, i);
      }
    }
    assert candidate[..|candidate|] == candidate;
    if inString && stringStart >= 0 {
      return candidate[..stringStart];
    }
    return candidate;
  }

  // One more character keeps an open string open.
  lemma StillOpen(s: string, i: nat, k: nat)
    requires i < |s| && OpenStringStart(s[..i], k) && LexOf(s[..i + 1]).InString?
    ensures OpenStringStart(s[..i + 1], k)
  {
    var t := s[..i + 1];
    assert t[..k] == s[..i][..k];
    forall j | k < j <= |t| ensures LexOf(t[..j]).InString? {
      if j <= i { assert t[..j] == s[..i][..j]; } else { assert t[..j] == t; }
    }
  }

  lemma NowOpen(s: string, i: nat)
    requires i < |s| && LexOf(s[..i]).Outside? && s[i] == '"' && LexOf(s[..i + 1]).InString?
    ensures OpenStringStart(s[..i + 1], i)
  {
    var t := s[..i + 1];
    assert t[..i] == s[..i];
    forall j | i < j <= |t| ensures LexOf(t[..j]).InString? { assert t[..j] == t; }
  }

  // ---- what completion yields ----

  predicate AllClosers(w: string) { forall c :: c in w ==> IsCloser(c) }

  // Scanning closers: the stack empties exactly when they answer it from the top.
  lemma {:induction false} CloseAll(stack: string, w: string)
    requires AllClosers(w) && forall c :: c in stack ==> IsOpener(c)
    ensures ScanFrom(Scan(Outside, stack), w) == START <==> w == Closers(stack)
    decreases |w|
  {
    if w == "" {
      return;
    }
    assert w[0] in w;
    assert stack != "" ==> stack[|stack| - 1] in stack;
    if stack == "" || stack[|stack| - 1] != OpenerOf(w[0]) {
      MismatchStays(w[1..]);
    } else {
      assert w == [w[0]] + w[1..];
      CloseAll(stack[..|stack| - 1], w[1..]);
    }
  }

  lemma {:induction false} ClosersAreClosers(stack: string)
    ensures AllClosers(Closers(stack)) && |Closers(stack)| == |stack|
  {
    if stack != "" { ClosersAreClosers(stack[..|stack| - 1]); }
  }

  lemma {:induction false} StackIsOpeners(st: Scan, s: string)
    requires st.Scan? && forall c :: c in st.stack ==> IsOpener(c)
    ensures var v := ScanFrom(st, s); v.Scan? ==> forall c :: c in v.stack ==> IsOpener(c)
    decreases |s|
  {
    if s != "" {
      if ScanStep(st, s[0]).Mismatch? { MismatchStays(s[1..]); } else { StackIsOpeners(ScanStep(st, s[0]), s[1..]); }
    }
  }

  /** Appending closers to a text balances it exactly when they are the ones completion
      appends; and completion gives nothing exactly when no text of closers would do. */
  lemma CompletionIsTheOnlyOne(s: string, w: string)
    requires AllClosers(w)
    ensures IsBalanced(s + w) <==> Completion(s) == Some(s + w)
  {
    ScanAppend(START, s, w);
    match ScanOf(s)
    case Mismatch => MismatchStays(w);
    case Scan(InString(escaped), stack) => ClosersNeverEndString(escaped, stack, w);
    case Scan(Outside, stack) =>
      StackIsOpeners(START, s);
      ClosersAreClosers(stack);
      CloseAll(stack, w);
      assert s + w == s + Closers(stack) ==> w == (s + w)[|s|..] == (s + Closers(stack))[|s|..] == Closers(stack);
  }

  lemma {:induction false} ClosersNeverEndString(escaped: bool, stack: string, w: string)
    requires AllClosers(w)
    ensures var v := ScanFrom(Scan(InString(escaped), stack), w); v.Scan? && v.lex.InString?
    decreases |w|
  {
    if w != "" { assert w[0] in w; ClosersNeverEndString(false, stack, w[1..]); }
  }

  /** A completed text is balanced, and completing it again changes nothing. */
  lemma CompletionIsBalanced(s: string)
    requires Completion(s).Some?
    ensures IsBalanced(Completion(s).value) && Completion(Completion(s).value) == Completion(s)
    ensures s <= Completion(s).value && AllClosers(Completion(s).value[|s|..])
  {
    var w := Closers(ScanOf(s).stack);
    ClosersAreClosers(ScanOf(s).stack);
    CompletionIsTheOnlyOne(s, w);
    assert Completion(s).value + "" == Completion(s).value;
  }

  /** Completion fails exactly inside a string or after a closer that answers no bracket. */
  lemma CompletionFails(s: string)
    ensures Completion(s).None? <==> ScanOf(s).Mismatch? || LexOf(s).InString?
    ensures ScanOf(s).Mismatch? <==> exists i :: BadCloser(s, i)
  {
    if ScanOf(s).Scan? { ScanLex(START, s); }
    MismatchHasCause(s);
    forall i | BadCloser(s, i) ensures ScanOf(s).Mismatch? {
      assert s == s[..i] + ([s[i]] + s[i + 1..]);
      ScanAppend(START, s[..i], [s[i]] + s[i + 1..]);
      assert ([s[i]] + s[i + 1..])[1..] == s[i + 1..];
      MismatchStays(s[i + 1..]);
    }
  }

  // At `i`, outside strings, stands a closer and the innermost open bracket is not its own.
  predicate BadCloser(s: string, i: int) {
    && 0 <= i < |s| && IsCloser(s[i])
    && var before := ScanOf(s[..i]);
    && before.Scan? && before.lex.Outside?
    && (before.stack == "" || before.stack[|before.stack| - 1] != OpenerOf(s[i]))
  }

  lemma {:induction false} MismatchHasCause(s: string)
    ensures ScanOf(s).Mismatch? ==> exists i :: BadCloser(s, i)
    decreases |s|
  {
    if s != "" && ScanOf(s).Mismatch? {
      var n := |s| - 1;
      assert s == s[..n] + [s[n]] && [s[n]][1..] == "";
      ScanAppend(START, s[..n], [s[n]]);
      if ScanOf(s[..n]).Mismatch? {
        MismatchHasCause(s[..n]);
        var i :| BadCloser(s[..n], i);
        assert s[..n][..i] == s[..i];
        assert BadCloser(s, i);
      } else {
        assert BadCloser(s, n);
      }
    }
  }

  /** Cutting the open string and then completing works on a text exactly when its brackets
      never mismatch; so it works on every prefix of a balanced text. */
  lemma TruncationCompletes(s: string, cut: string)
    requires LexOf(s).Outside? ==> cut == s
    requires LexOf(s).InString? ==> OpenStringStart(s, |cut|) && cut == s[..|cut|]
    ensures Completion(cut).Some? <==> ScanOf(s).Scan?
  {
    var rest := s[|cut|..];
    assert s == cut + rest;
    ScanAppend(START, cut, rest);
    if ScanOf(cut).Mismatch? {
      MismatchStays(rest);
    } else {
      ScanLex(START, cut);
      if LexOf(s).InString? { OpenStringScans(s, |cut|, |s|); assert s[..|s|] == s; }
    }
  }

  // Inside the string that opens at `k` the scan keeps the stack it had before.
  lemma {:induction false} OpenStringScans(s: string, k: nat, j: nat)
    requires OpenStringStart(s, k) && k < j <= |s| && ScanOf(s[..k]).Scan?
    ensures ScanOf(s[..j]).Scan? && ScanOf(s[..j]).lex.InString? && ScanOf(s[..j]).stack == ScanOf(s[..k]).stack
  {
    ScanLex(START, s[..k]);
    var p := s[..j - 1];
    assert s[..j] == p + [s[j - 1]] && [s[j - 1]][1..] == "";
    ScanAppend(START, p, [s[j - 1]]);
    if j - 1 > k { OpenStringScans(s, k, j - 1); }
    ScanLex(START, s[..j]);
  }

  lemma PrefixOfBalancedCompletes(t: string, s: string, cut: string)
    requires IsBalanced(t) && s <= t
    requires LexOf(s).Outside? ==> cut == s
    requires LexOf(s).InString? ==> OpenStringStart(s, |cut|) && cut == s[..|cut|]
    ensures Completion(cut).Some?
  {
    assert t == s + t[|s|..];
    ScanAppend(START, s, t[|s|..]);
    if ScanOf(s).Mismatch? { MismatchStays(t[|s|..]); }
    TruncationCompletes(s, cut);
  }
}
