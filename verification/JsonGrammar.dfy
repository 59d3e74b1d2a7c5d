/**
 Balanced texts as trees: plain characters, quoted strings, and bracketed groups. The
 automaton of the scanners accepts exactly the texts these trees write.
 */
module JsonGrammar {
  import opened Wrappers
  import opened JsonRepair

  datatype Item = Plain(c: char) | Quoted(body: string) | Group(opener: char, items: Items)

  datatype Items = Nil | Cons(head: Item, tail: Items)

  // Between quotes: a backslash takes the next character with it, and no bare quote.
  predicate QuotedBody(s: string)
    decreases |s|
  {
    if s == "" then true
    else if s[0] == '\\' then |s| >= 2 && QuotedBody(s[2..])
    else s[0] != '"' && QuotedBody(s[1..])
  }

  predicate WellFormed(items: Items) {
    items.Cons? ==> WellFormedItem(items.head) && WellFormed(items.tail)
  }

  predicate WellFormedItem(item: Item) {
    match item
    case Plain(c) => c != '"' && !IsOpener(c) && !IsCloser(c)
    case Quoted(body) => QuotedBody(body)
    case Group(opener, items) => IsOpener(opener) && WellFormed(items)
  }

  function Write(items: Items): string {
    match items
    case Nil => ""
    case Cons(item, tail) => WriteItem(item) + Write(tail)
  }

  function WriteItem(item: Item): string {
    match item
    case Plain(c) => [c]
    case Quoted(body) => "\"" + (body + "\"")
    case Group(opener, items) => [opener] + (Write(items) + [CloserOf(opener)])
  }

  lemma ScanCons(st: Scan, c: char, s: string)
    ensures ScanFrom(st, [c] + s) == ScanFrom(ScanStep(st, c), s)
  {
    assert ([c] + s)[1..] == s;
  }

  // ---- trees are accepted ----

  lemma {:induction false} BodyScans(body: string, stack: string)
    requires QuotedBody(body)
    ensures ScanFrom(Scan(InString(false), stack), body + "\"") == Scan(Outside, stack)
    decreases |body|
  {
    var open := Scan(InString(false), stack);
    if body == "" {
      ScanCons(open, '"', "");
      assert body + "\"" == ['"'] + "";
    } else if body[0] == '\\' {
      var rest := body[2..] + "\"";
      assert body + "\"" == [body[0]] + ([body[1]] + rest);
      ScanCons(open, body[0], [body[1]] + rest);
      ScanCons(Scan(InString(true), stack), body[1], rest);
      BodyScans(body[2..], stack);
    } else {
      assert body + "\"" == [body[0]] + (body[1..] + "\"");
      ScanCons(open, body[0], body[1..] + "\"");
      BodyScans(body[1..], stack);
    }
  }

  lemma {:induction false} TreeScans(items: Items, stack: string)
    requires WellFormed(items)
    ensures ScanFrom(Scan(Outside, stack), Write(items)) == Scan(Outside, stack)
  {
    match items
    case Nil =>
    case Cons(item, tail) =>
      ItemScans(item, stack);
      ScanAppend(Scan(Outside, stack), WriteItem(item), Write(tail));
      TreeScans(tail, stack);
  }

  lemma {:induction false} ItemScans(item: Item, stack: string)
    requires WellFormedItem(item)
    ensures ScanFrom(Scan(Outside, stack), WriteItem(item)) == Scan(Outside, stack)
  {
    var st := Scan(Outside, stack);
    match item
    case Plain(c) => ScanCons(st, c, ""); assert [c] + "" == [c];
    case Quoted(body) =>
      ScanCons(st, '"', body + "\"");
      BodyScans(body, stack);
    case Group(opener, inner) =>
      var closer := [CloserOf(opener)];
      ScanCons(st, opener, Write(inner) + closer);
      ScanAppend(Scan(Outside, stack + [opener]), Write(inner), closer);
      TreeScans(inner, stack + [opener]);
      assert closer[1..] == "" && (stack + [opener])[..|stack|] == stack;
  }

  // ---- accepted texts are trees ----

  // The text that closes `stack` from the top, with a tree before and after each closer.
  function Weave(parts: seq<Items>, stack: string): string
    requires |parts| == |stack| + 1
    decreases |stack|
  {
    if stack == "" then Write(parts[0])
    else Write(parts[0]) + [CloserOf(stack[|stack| - 1])] + Weave(parts[1..], stack[..|stack| - 1])
  }

  predicate Openers(stack: string) { forall c :: c in stack ==> IsOpener(c) }

  lemma Reassociate(a: string, b: string, c: string, d: string)
    ensures (a + b) + c + d == a + (b + c + d)
  {
  }

  lemma WeaveCons(item: Item, parts: seq<Items>, stack: string)
    requires |parts| == |stack| + 1
    ensures Weave([Cons(item, parts[0])] + parts[1..], stack) == WriteItem(item) + Weave(parts, stack)
  {
    var head, rest := Cons(item, parts[0]), parts[1..];
    WeaveOf(head, rest, stack);
    WeaveOf(parts[0], rest, stack);
    assert [parts[0]] + rest == parts;
    if stack != "" {
      var n := |stack| - 1;
      Reassociate(WriteItem(item), Write(parts[0]), [CloserOf(stack[n])], Weave(rest, stack[..n]));
    }
  }

  lemma WeaveOf(head: Items, rest: seq<Items>, stack: string)
    requires |rest| == |stack|
    ensures Weave([head] + rest, stack)
         == if stack == "" then Write(head)
            else Write(head) + [CloserOf(stack[|stack| - 1])] + Weave(rest, stack[..|stack| - 1])
  {
    assert ([head] + rest)[1..] == rest;
  }

  // Where the string that is open at the start of `s` ends.
  lemma {:induction false} StringEnd(s: string, stack: string) returns (k: nat)
    requires ScanFrom(Scan(InString(false), stack), s) == START
    ensures k < |s| && s[k] == '"' && QuotedBody(s[..k])
    ensures ScanFrom(Scan(Outside, stack), s[k + 1..]) == START
    decreases |s|
  {
    if s[0] == '"' {
      k := 0;
    } else if s[0] == '\\' {
      assert s[1..] != "";
      assert s[1..][1..] == s[2..];
      k := StringEnd(s[2..], stack);
      assert s[..k + 2][2..] == s[2..][..k] && s[2..][k + 1..] == s[k + 3..];
      k := k + 2;
    } else {
      k := StringEnd(s[1..], stack);
      assert s[..k + 1][1..] == s[1..][..k] && s[1..][k + 1..] == s[k + 2..];
      k := k + 1;
    }
  }

  lemma ReassociateGroup(o: string, a: string, c: string, d: string)
    ensures (o + (a + c)) + d == o + (a + c + d)
  {
  }

  lemma WeaveGroup(opener: char, inner: seq<Items>, stack: string)
    requires |inner| == |stack| + 2
    ensures Weave([Cons(Group(opener, inner[0]), inner[1])] + inner[2..], stack) ==
      [opener] + Weave(inner, stack + [opener])
  {
    var deeper, after := stack + [opener], inner[1..];
    assert deeper[..|stack|] == stack && after[1..] == inner[2..] && [inner[0]] + after == inner;
    WeaveCons(Group(opener, inner[0]), after, stack);
    WeaveOf(inner[0], after, deeper);
    ReassociateGroup([opener], Write(inner[0]), [CloserOf(opener)], Weave(after, stack));
  }

  lemma WeaveCloser(c: char, after: seq<Items>, stack: string)
    requires IsCloser(c) && stack != "" && stack[|stack| - 1] == OpenerOf(c) && |after| == |stack|
    ensures Weave([Nil] + after, stack) == [c] + Weave(after, stack[..|stack| - 1])
  {
    assert ([Nil] + after)[1..] == after;
    assert "" + [c] == [c];
  }

  // Trees for a text that scans to the end with every bracket of `stack` closed.
  predicate Splits(parts: seq<Items>, stack: string, s: string) {
    |parts| == |stack| + 1 && Weave(parts, stack) == s && forall p :: p in parts ==> WellFormed(p)
  }

  lemma SplitsCons(item: Item, parts: seq<Items>, stack: string, s: string)
    requires Splits(parts, stack, s) && WellFormedItem(item)
    ensures Splits([Cons(item, parts[0])] + parts[1..], stack, WriteItem(item) + s)
  {
    WeaveCons(item, parts, stack);
    assert parts[0] in parts;
  }

  lemma SplitsGroup(opener: char, inner: seq<Items>, stack: string, s: string)
    requires Splits(inner, stack + [opener], s) && IsOpener(opener)
    ensures Splits([Cons(Group(opener, inner[0]), inner[1])] + inner[2..], stack, [opener] + s)
  {
    WeaveGroup(opener, inner, stack);
    assert inner[0] in inner && inner[1] in inner;
  }

  lemma SplitsCloser(c: char, after: seq<Items>, stack: string, s: string)
    requires IsCloser(c) && stack != "" && stack[|stack| - 1] == OpenerOf(c)
    requires Splits(after, stack[..|stack| - 1], s)
    ensures Splits([Nil] + after, stack, [c] + s)
  {
    WeaveCloser(c, after, stack);
  }

  lemma {:induction false} Decompose(s: string, stack: string) returns (parts: seq<Items>)
    requires ScanFrom(Scan(Outside, stack), s) == START && Openers(stack)
    ensures Splits(parts, stack, s)
    decreases |s|
  {
    if s == "" {
      return [Nil];
    }
    var c, rest := s[0], s[1..];
    assert s == [c] + rest;
    if c == '"' {
      var k := StringEnd(rest, stack);
      var after := Decompose(rest[k + 1..], stack);
      SplitsCons(Quoted(rest[..k]), after, stack, rest[k + 1..]);
      assert s == WriteItem(Quoted(rest[..k])) + rest[k + 1..];
      parts := [Cons(Quoted(rest[..k]), after[0])] + after[1..];
    } else if IsOpener(c) {
      var inner := Decompose(rest, stack + [c]);
      SplitsGroup(c, inner, stack, rest);
      parts := [Cons(Group(c, inner[0]), inner[1])] + inner[2..];
    } else if IsCloser(c) {
      if stack == "" || stack[|stack| - 1] != OpenerOf(c) { MismatchStays(rest); }
      var after := Decompose(rest, stack[..|stack| - 1]);
      SplitsCloser(c, after, stack, rest);
      parts := [Nil] + after;
    } else {
      var after := Decompose(rest, stack);
      SplitsCons(Plain(c), after, stack, rest);
      parts := [Cons(Plain(c), after[0])] + after[1..];
    }
  }

  /** A text is balanced exactly when some tree writes it. */
  lemma BalancedIsTree(s: string)
    ensures IsBalanced(s) <==> exists items :: WellFormed(items) && Write(items) == s
  {
    if IsBalanced(s) {
      var parts := Decompose(s, "");
      assert parts[0] in parts && Write(parts[0]) == s;
    }
    forall items | WellFormed(items) && Write(items) == s ensures IsBalanced(s) {
      TreeScans(items, "");
    }
  }

  /** Completion succeeds exactly on the texts that closers can turn into a tree, and it
      returns the only such text. */
  lemma CompletionWritesATree(s: string, t: string)
    ensures Completion(s) == Some(t) <==>
      s <= t && AllClosers(t[|s|..]) && exists items :: WellFormed(items) && Write(items) == t
  {
    BalancedIsTree(t);
    if Completion(s) == Some(t) {
      CompletionIsBalanced(s);
    } else if s <= t && AllClosers(t[|s|..]) {
      assert t == s + t[|s|..];
      CompletionIsTheOnlyOne(s, t[|s|..]);
    }
  }
}
