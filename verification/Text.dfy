// Trimming of text.
module Text {
  // What str.strip() removes.
  predicate IsSpace(c: char) {
    var n := c as int;
    9 <= n <= 13 || 28 <= n <= 32 || n == 0x85 || n == 0xA0 || n == 0x1680 || 0x2000 <= n <= 0x200A
    || n == 0x2028 || n == 0x2029 || n == 0x202F || n == 0x205F || n == 0x3000
  }

  function StripRight(s: string, drop: char -> bool): (r: string)
    ensures r <= s && (r != "" ==> !drop(r[|r| - 1])) && forall i :: |r| <= i < |s| ==> drop(s[i])
  {
    if s == "" || !drop(s[|s| - 1]) then s else StripRight(s[..|s| - 1], drop)
  }

  function StripLeft(s: string): (r: string)
    ensures r != "" ==> !IsSpace(r[0])
  {
    if s == "" || !IsSpace(s[0]) then s else StripLeft(s[1..])
  }

  function Strip(s: string): string { StripRight(StripLeft(s), IsSpace) }

  predicate AllOf(s: string, p: char -> bool) { forall i :: 0 <= i < |s| ==> p(s[i]) }

  // The text from place n on is r, and all that is around it is white space.
  predicate Framed(s: string, r: string, n: nat) {
    && n + |r| <= |s| && r == s[n..n + |r|]
    && forall i :: 0 <= i < |s| && (i < n || n + |r| <= i) ==> IsSpace(s[i])
  }

  lemma {:induction false} StripLeftIs(s: string)
    ensures var l := StripLeft(s); |l| <= |s| && l == s[|s| - |l|..] && AllOf(s[..|s| - |l|], IsSpace)
  {
    if s != "" && IsSpace(s[0]) { StripLeftIs(s[1..]); }
  }

  /** Stripping removes white space at both ends and nothing else. */
  lemma StripIs(s: string) returns (n: nat)
    ensures Framed(s, Strip(s), n)
  {
    StripLeftIs(s);
    n := |s| - |StripLeft(s)|;
    Frames(s, StripLeft(s), Strip(s), n);
  }

  lemma Frames(s: string, l: string, r: string, n: nat)
    requires n <= |s| && l == s[n..] && AllOf(s[..n], IsSpace) && r == StripRight(l, IsSpace)
    ensures Framed(s, r, n)
  {
    forall i | 0 <= i < |s| && (i < n || n + |r| <= i) ensures IsSpace(s[i]) {
      if i < n { assert s[..n][i] == s[i]; } else { assert l[i - n] == s[i]; }
    }
  }

  // Nothing is left to strip.
  lemma StripTrims(s: string)
    ensures var t := Strip(s); t != "" ==> !IsSpace(t[0]) && !IsSpace(t[|t| - 1])
  {
    var t := Strip(s);
    if t != "" { assert t[0] == StripLeft(s)[0]; }
  }

  lemma TrimmedIsStable(s: string)
    requires s != "" && !IsSpace(s[0]) && !IsSpace(s[|s| - 1])
    ensures Strip(s) == s
  {
  }
}
