/** The two scanners of the completer: the backward paren scan of enclosingCall
    and the quote automaton of stringStart (query/repl/complete.go:173-229). */
module Scanners {
  // ------------------------------------------------------------- parentheses

  /** The open parens a forward scan is left with: it pushes every opener and
      pops on every closer, ignoring closers that match nothing */
  function Stack(s: string): seq<nat> {
    if s == "" then []
    else
      var init, c := s[..|s| - 1], s[|s| - 1];
      if c == '(' then Stack(init) + [|s| - 1]
      else if c == ')' then Pop(Stack(init), 1)
      else Stack(init)
  }

  function Pop(stack: seq<nat>, n: nat): seq<nat> {
    if n <= |stack| then stack[..|stack| - n] else []
  }

  function Top(stack: seq<nat>): int {
    if stack == [] then -1 else stack[|stack| - 1]
  }

  /** The backward scan with a depth counter finds the top of the stack that a
      forward scan would leave. */
  method OpenParen(s: string) returns (open: int)
    ensures open == Top(Stack(s))
  {
    var depth := 0;
    var i := |s|;
    assert s[..|s|] == s;
    while i > 0
      invariant 0 <= i <= |s| && depth >= 0
      invariant Stack(s) == Pop(Stack(s[..i]), depth)
    {
      i := i - 1;
      assert s[..i + 1][..i] == s[..i];
      if s[i] == ')' {
        depth := depth + 1;
      } else if s[i] == '(' {
        if depth == 0 { return i; }
        depth := depth - 1;
      }
    }
    return -1;
  }

  /** How many openers w has more than closers */
  function Height(w: string): int {
    if w == "" then 0
    else
      var h, c := Height(w[..|w| - 1]), w[|w| - 1];
      if c == '(' then h + 1 else if c == ')' then h - 1 else h
  }

  /** The height after i characters */
  function HeightAt(w: string, i: nat): int
    requires i <= |w|
  {
    Height(w[..i])
  }

  /** No closer in w is without its opener */
  ghost predicate NeverBelow(w: string) {
    forall i :: 0 <= i <= |w| ==> HeightAt(w, i) >= 0
  }

  /** The balanced words */
  ghost predicate Balanced(w: string) {
    NeverBelow(w) && Height(w) == 0
  }

  lemma NeverBelowGrows(w: string, c: char)
    requires NeverBelow(w) && Height(w + [c]) >= 0
    ensures NeverBelow(w + [c])
  {
    var longer := w + [c];
    forall i | 0 <= i <= |longer| ensures HeightAt(longer, i) >= 0 {
      if i <= |w| { assert longer[..i] == w[..i] && HeightAt(w, i) >= 0; } else { assert longer[..i] == longer; }
    }
  }

  lemma HeightGrows(w: string, c: char)
    ensures Height(w + [c]) == Height(w) + if c == '(' then 1 else if c == ')' then -1 else 0
  {
    assert (w + [c])[..|w|] == w;
  }

  /** o is an opener, and what follows it closes everything but above others */
  ghost predicate OpenWith(s: string, o: int, above: int) {
    0 <= o < |s| && s[o] == '(' && NeverBelow(s[o + 1..]) && Height(s[o + 1..]) == above
  }

  lemma OpenWithMore(s: string, c: char, o: int, above: int)
    requires OpenWith(s, o, above) && (c == ')' ==> above > 0)
    ensures OpenWith(s + [c], o, if c == '(' then above + 1 else if c == ')' then above - 1 else above)
  {
    var w := s[o + 1..];
    assert w[..|w|] == w && HeightAt(w, |w|) >= 0;
    assert (s + [c])[o + 1..] == w + [c];
    HeightGrows(w, c);
    NeverBelowGrows(w, c);
  }

  lemma OpenLast(s: string)
    ensures OpenWith(s + ['('], |s|, 0)
  {
    assert (s + ['('])[|s| + 1..] == "";
  }

  lemma StackStep(s: string, c: char)
    ensures Stack(s + [c]) ==
            if c == '(' then Stack(s) + [|s|] else if c == ')' then Pop(Stack(s), 1) else Stack(s)
  {
    assert (s + [c])[..|s|] == s;
  }

  /** Entry m of the stack is an opener, and what follows it closes everything
      but the entries above. */
  lemma {:induction false} StackHeights(s: string, m: nat)
    requires m < |Stack(s)|
    ensures OpenWith(s, Stack(s)[m], |Stack(s)| - 1 - m)
  {
    var init, c := s[..|s| - 1], s[|s| - 1];
    assert s == init + [c];
    StackStep(init, c);
    if c == '(' && m == |Stack(init)| {
      OpenLast(init);
    } else {
      StackHeights(init, m);
      OpenWithMore(init, c, Stack(init)[m], |Stack(init)| - 1 - m);
    }
  }

  /** A word that never goes below leaves the stack under it alone. */
  lemma {:induction false} StackKept(p: string, w: string)
    requires NeverBelow(w)
    ensures Stack(p) <= Stack(p + w) && |Stack(p + w)| == |Stack(p)| + Height(w)
  {
    if w == "" {
      assert p + w == p;
    } else {
      var init, c := w[..|w| - 1], w[|w| - 1];
      assert NeverBelow(init) by {
        forall i | 0 <= i <= |init| ensures HeightAt(init, i) >= 0 {
          assert init[..i] == w[..i] && HeightAt(w, i) >= 0;
        }
      }
      StackKept(p, init);
      assert (p + w)[..|p + w| - 1] == p + init;
      assert w[..|w|] == w && HeightAt(w, |w|) >= 0;
    }
  }

  lemma OpenIsBalanced(s: string, o: int)
    requires OpenWith(s, o, 0)
    ensures 0 <= o < |s| && s[o] == '(' && Balanced(s[o + 1..])
  {
  }

  lemma TopIsOpen(s: string)
    requires Stack(s) != []
    ensures OpenWith(s, Top(Stack(s)), 0)
  {
    StackHeights(s, |Stack(s)| - 1);
  }

  lemma BalancedAfterTop(s: string, o: nat)
    requires Stack(s) != [] && o == Top(Stack(s))
    ensures o < |s| && s[o] == '(' && Balanced(s[o + 1..])
  {
    TopIsOpen(s);
    OpenIsBalanced(s, o);
  }

  lemma TopBeforeBalanced(s: string, o: nat)
    requires o < |s| && s[o] == '(' && Balanced(s[o + 1..])
    ensures Top(Stack(s)) == o
  {
    var p, w := s[..o + 1], s[o + 1..];
    StackKept(p, w);
    assert s == p + w;
    assert p[|p| - 1] == '(' && p[..|p| - 1] == s[..o];
    assert Stack(p) == Stack(s[..o]) + [o];
  }

  /** The paren found is the one, and the only one, with a balanced word after
      it; none is found exactly if there is none. */
  lemma EnclosingParen(s: string, o: int)
    ensures 0 <= o < |s| && s[o] == '(' && Balanced(s[o + 1..]) <==> o == Top(Stack(s)) && o >= 0
  {
    if o == Top(Stack(s)) && o >= 0 { BalancedAfterTop(s, o); }
    if 0 <= o < |s| && s[o] == '(' && Balanced(s[o + 1..]) { TopBeforeBalanced(s, o); }
  }

  // ------------------------------------------------------------- quotes

  /** The automaton of stringStart: where the open literal starts, or -1, and
      whether the next character is escaped */
  function Scan(s: string): (r: (int, bool))
    ensures -1 <= r.0 < |s|
  {
    if s == "" then (-1, false)
    else
      var (start, escaped) := Scan(s[..|s| - 1]);
      var c := s[|s| - 1];
      if escaped then (start, false)
      else if c == '\\' then (start, true)
      else if c == '"' then (if start < 0 then |s| - 1 else -1, false)
      else (start, false)
  }

  method StringStart(s: string) returns (start: int, inside: bool)
    ensures start == Scan(s).0 && inside == (start >= 0)
  {
    start := -1;
    var escaped := false;
    for i := 0 to |s|
      invariant (start, escaped) == Scan(s[..i])
    {
      assert s[..i + 1][..i] == s[..i];
      if escaped {
        escaped := false;
      } else if s[i] == '\\' {
        escaped := true;
      } else if s[i] == '"' {
        if start < 0 { start := i; } else { start := -1; }
      }
    }
    assert s[..|s|] == s;
    return start, start >= 0;
  }

  /** How many backslashes s ends in */
  function Backslashes(s: string): nat {
    if s != "" && s[|s| - 1] == '\\' then 1 + Backslashes(s[..|s| - 1]) else 0
  }

  /** A quote that an even number of backslashes precedes */
  predicate LiveQuote(s: string, i: int) {
    0 <= i < |s| && s[i] == '"' && Backslashes(s[..i]) % 2 == 0
  }

  function LiveQuotes(s: string): nat {
    if s == "" then 0 else LiveQuotes(s[..|s| - 1]) + if LiveQuote(s, |s| - 1) then 1 else 0
  }

  lemma {:induction false} EscapedMeansOdd(s: string)
    ensures Scan(s).1 <==> Backslashes(s) % 2 == 1
  {
    if s != "" { EscapedMeansOdd(s[..|s| - 1]); }
  }

  lemma LiveQuoteKept(s: string, c: char, i: int)
    requires i < |s|
    ensures LiveQuote(s + [c], i) <==> LiveQuote(s, i)
  {
    if 0 <= i { assert (s + [c])[..i] == s[..i]; }
  }

  /** The cursor is inside a literal exactly if an odd number of unescaped quotes
      precedes it, and the literal starts at the last of them. */
  lemma {:induction false} StringStartMeaning(s: string)
    ensures Scan(s).0 >= 0 <==> LiveQuotes(s) % 2 == 1
    ensures Scan(s).0 >= 0 ==> LiveQuote(s, Scan(s).0) && forall i :: Scan(s).0 < i < |s| ==> !LiveQuote(s, i)
  {
    if s != "" {
      var init, c := s[..|s| - 1], s[|s| - 1];
      assert s == init + [c];
      StringStartMeaning(init);
      EscapedMeansOdd(init);
      forall i | i < |init| ensures LiveQuote(s, i) <==> LiveQuote(init, i) { LiveQuoteKept(init, c, i); }
    }
  }

  /** No quote and no backslash */
  predicate Plain(w: string) {
    forall i :: 0 <= i < |w| ==> w[i] != '"' && w[i] != '\\'
  }

  /** Typing plain text does not leave or enter a literal. */
  lemma {:induction false} PlainKeepsStart(s: string, w: string)
    requires Plain(w)
    ensures Scan(s + w).0 == Scan(s).0
  {
    if w == "" {
      assert s + w == s;
    } else {
      PlainKeepsStart(s, w[..|w| - 1]);
      assert (s + w)[..|s + w| - 1] == s + w[..|w| - 1];
    }
  }
}
