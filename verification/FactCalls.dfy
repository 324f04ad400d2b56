/** Fact calls as they are written in a query, and what the completer makes of
    them: it splits the text of a call at blanks, where the evaluator reads
    literals (query/repl/complete.go:117-127, 195-229, query/functions.go:98-131). */
module FactCalls {
  import opened Text
  import opened Facts
  import opened Scanners
  import opened Completion

  // ------------------------------------------------------------- written calls

  function Literal(a: string): string { "\"" + a + "\"" }

  /** The literals of args, each after a blank */
  function Written(args: seq<string>): string {
    if args == [] then "" else Written(args[..|args| - 1]) + " " + Literal(args[|args| - 1])
  }

  /** A call that can take more arguments */
  function Call(args: seq<string>): string { "(" + FACT + Written(args) }

  /** What can stand in a literal as it is: no quote, no backslash */
  predicate AllPlain(args: seq<string>) {
    forall i :: 0 <= i < |args| ==> Plain(args[i])
  }

  predicate Solid(s: string) {
    forall i :: 0 <= i < |s| ==> !Blank(s[i])
  }

  predicate AllSolid(args: seq<string>) {
    forall i :: 0 <= i < |args| ==> Solid(args[i])
  }

  function Literals(args: seq<string>): seq<string> {
    seq(|args|, i requires 0 <= i < |args| => Literal(args[i]))
  }

  // ------------------------------------------------------------- fields

  /** The fields after one more character */
  function Grown(fields: seq<string>, c: char): seq<string>
    requires fields != []
  {
    fields[..|fields| - 1] + [fields[|fields| - 1] + [c]]
  }

  lemma FieldsStep(s: string, c: char)
    ensures !Blank(c) && s != "" && !EndsBlank(s) ==> Fields(s) != []
    ensures Fields(s + [c]) ==
            if Blank(c) then Fields(s) else if s == "" || EndsBlank(s) then Fields(s) + [[c]] else Grown(Fields(s), c)
  {
    assert (s + [c])[..|s|] == s;
  }

  lemma GrownAfter(a: seq<string>, b: seq<string>, c: char)
    requires b != []
    ensures Grown(a + b, c) == a + Grown(b, c)
  {
  }

  lemma ApartStep(a: seq<string>, left: string, right: string, c: char)
    requires Fields(left) == a + Fields(right) && left != "" && (right == "" || EndsBlank(right) <==> EndsBlank(left))
    ensures Fields(left + [c]) == a + Fields(right + [c])
  {
    FieldsStep(left, c);
    FieldsStep(right, c);
    if !Blank(c) && !EndsBlank(left) { GrownAfter(a, Fields(right), c); }
  }

  lemma ApartText(a: string, b: char, c: string)
    requires Blank(b) && c != ""
    ensures var init := c[..|c| - 1];
            && a + [b] + c == a + [b] + init + [c[|c| - 1]] && c == init + [c[|c| - 1]]
            && (init == "" || EndsBlank(init) <==> EndsBlank(a + [b] + init))
  {
  }

  /** A blank keeps what is on its two sides apart. */
  lemma {:induction false} FieldsApart(a: string, b: char, c: string)
    requires Blank(b)
    ensures Fields(a + [b] + c) == Fields(a) + Fields(c)
  {
    if c == "" {
      FieldsStep(a, b);
      assert a + [b] + c == a + [b];
    } else {
      FieldsApart(a, b, c[..|c| - 1]);
      ApartText(a, b, c);
      ApartStep(Fields(a), a + [b] + c[..|c| - 1], c[..|c| - 1], c[|c| - 1]);
    }
  }

  /** A word after a blank is a field of its own. */
  lemma AppendField(s: string, w: string)
    requires w != "" && Solid(w)
    ensures Fields(s + " " + w) == Fields(s) + [w]
  {
    FieldsApart(s, ' ', w);
    FieldsOfSolid(w);
    assert s + " " + w == s + [' '] + w;
  }

  lemma LiteralIsSolid(a: string)
    requires Solid(a)
    ensures Literal(a) != "" && Solid(Literal(a)) && Literal(a)[|Literal(a)| - 1] == '"'
  {
  }

  lemma {:induction false} FieldsOfSolid(s: string)
    requires s != "" && Solid(s)
    ensures Fields(s) == [s]
  {
    var init, c := s[..|s| - 1], s[|s| - 1];
    FieldsStep(init, c);
    assert s == init + [c];
    if init != "" { FieldsOfSolid(init); }
  }

  lemma {:induction false} FieldsAreSolid(s: string)
    ensures AllSolid(Fields(s))
  {
    if s != "" { FieldsAreSolid(s[..|s| - 1]); }
  }

  lemma WrittenStep(head: string, written: string, fields: seq<string>, w: string)
    requires w != "" && Solid(w) && Fields(head + written) == Fields(head) + fields
    ensures Fields(head + (written + " " + w)) == Fields(head) + (fields + [w])
  {
    AppendField(head + written, w);
    WordBehind(head, written, w);
  }

  lemma WordBehind(head: string, written: string, w: string)
    ensures head + (written + " " + w) == head + written + " " + w
  {
  }

  lemma LiteralsStep(args: seq<string>)
    requires args != []
    ensures Literals(args) == Literals(args[..|args| - 1]) + [Literal(args[|args| - 1])]
  {
  }

  /** Literals without blanks are fields of their own. */
  lemma {:induction false} FieldsOfWritten(head: string, args: seq<string>)
    requires AllSolid(args)
    ensures Fields(head + Written(args)) == Fields(head) + Literals(args)
  {
    if args == [] {
      assert head + Written(args) == head;
    } else {
      var init, last := args[..|args| - 1], args[|args| - 1];
      FieldsOfWritten(head, init);
      LiteralIsSolid(last);
      WrittenStep(head, Written(init), Literals(init), Literal(last));
      LiteralsStep(args);
    }
  }

  lemma TrailingBlank(s: string)
    ensures Fields(s + " ") == Fields(s)
  {
    FieldsStep(s, ' ');
  }

  /** Quotes are trimmed off either end. */
  lemma TrimOpening(a: string)
    requires Plain(a)
    ensures TrimQuotesLeft("\"" + a) == a
  {
    assert ("\"" + a)[1..] == a;
  }

  lemma TrimClosing(a: string)
    requires Plain(a)
    ensures TrimQuotesRight(a + "\"") == a && TrimQuotesRight(a) == a
  {
    assert (a + "\"")[..|a|] == a;
  }

  lemma Unquote(a: string)
    requires Plain(a)
    ensures TrimQuotesRight(TrimQuotesLeft(Literal(a))) == a
  {
    var l, rest := Literal(a), a + "\"";
    assert l[1..] == rest && l[0] == '"';
    if a == "" {
      assert rest[1..] == "";
      assert TrimQuotesLeft(rest) == "";
    } else {
      assert rest[0] == a[0];
      assert TrimQuotesLeft(rest) == rest;
      TrimClosing(a);
    }
  }

  lemma UnquotedLiterals(args: seq<string>)
    requires AllPlain(args)
    ensures Unquoted(Literals(args)) == args
  {
    forall i | 0 <= i < |args| ensures Unquoted(Literals(args))[i] == args[i] { Unquote(args[i]); }
  }

  lemma {:induction false} TrimLeftSolid(s: string)
    requires Solid(s)
    ensures Solid(TrimQuotesLeft(s))
  {
    if s != "" && s[0] == '"' { TrimLeftSolid(s[1..]); }
  }

  lemma {:induction false} TrimRightSolid(s: string)
    requires Solid(s)
    ensures Solid(TrimQuotesRight(s))
  {
    if s != "" && s[|s| - 1] == '"' { TrimRightSolid(s[..|s| - 1]); }
  }

  // ------------------------------------------------------------- the right paren

  lemma {:induction false} HeightSum(a: string, b: string)
    ensures Height(a + b) == Height(a) + Height(b)
  {
    if b == "" {
      assert a + b == a;
    } else {
      HeightSum(a, b[..|b| - 1]);
      assert (a + b)[..|a + b| - 1] == a + b[..|b| - 1];
    }
  }

  lemma NameIsFlat(i: nat)
    requires i <= |FACT|
    ensures Height(FACT[..i]) == 0
  {
    assert FACT[..0] == "" && FACT[..1] == "f" && FACT[..2] == "fa" && FACT[..3] == "fac" && FACT[..4] == "fact";
    HeightGrows("", 'f');
    HeightGrows("f", 'a');
    HeightGrows("fa", 'c');
    HeightGrows("fac", 't');
    assert "" + ['f'] == "f" && "f" + ['a'] == "fa" && "fa" + ['c'] == "fac" && "fac" + ['t'] == "fact";
  }

  lemma HeightInCall(w: string, i: nat)
    requires i <= |w|
    ensures Height((FACT + w + " ")[..|FACT| + i]) == Height(w[..i])
  {
    NameIsFlat(|FACT|);
    HeightSum(FACT, w[..i]);
    assert (FACT + w + " ")[..|FACT| + i] == FACT + w[..i] && FACT[..|FACT|] == FACT;
  }

  lemma HeightOfCall(w: string)
    ensures Height(FACT + w + " ") == Height(w)
  {
    HeightInCall(w, |w|);
    HeightGrows(FACT + w, ' ');
    assert w[..|w|] == w && (FACT + w + " ")[..|FACT| + |w|] == FACT + w && FACT + w + " " == FACT + w + [' '];
  }

  /** The name and the blank behind the arguments make no difference. */
  lemma BalancedCall(w: string)
    ensures Balanced(FACT + w + " ") <==> Balanced(w)
  {
    var all := FACT + w + " ";
    HeightOfCall(w);
    if NeverBelow(w) {
      forall i | 0 <= i <= |all| ensures HeightAt(all, i) >= 0 {
        if i <= |FACT| {
          NameIsFlat(i);
          assert all[..i] == FACT[..i];
        } else if i < |all| {
          HeightInCall(w, i - |FACT|);
          assert HeightAt(w, i - |FACT|) >= 0;
        } else {
          assert all[..i] == all && w[..|w|] == w && HeightAt(w, |w|) >= 0;
        }
      }
    }
    if NeverBelow(all) {
      forall i | 0 <= i <= |w| ensures HeightAt(w, i) >= 0 {
        HeightInCall(w, i);
        assert HeightAt(all, |FACT| + i) >= 0;
      }
    }
  }

  /** Whatever is cut off the front, the first field ends in a quote. */
  lemma {:induction false} CutWritten(args: seq<string>, q: nat)
    requires AllSolid(args) && q <= |Written(args)|
    ensures FirstEndsInQuote(Fields(Written(args)[q..]))
  {
    if args != [] {
      var init, last := Written(args[..|args| - 1]), Literal(args[|args| - 1]);
      LiteralIsSolid(args[|args| - 1]);
      if q <= |init| { CutWritten(args[..|args| - 1], q); }
      CutStep(init, last, q);
    }
  }

  lemma CutText(init: string, last: string, q: nat)
    requires q <= |init| + 1 + |last|
    ensures q <= |init| ==> (init + " " + last)[q..] == init[q..] + " " + last
    ensures q > |init| ==> (init + " " + last)[q..] == last[q - |init| - 1..]
  {
  }

  lemma QuoteBehind(head: string, last: string, text: string)
    requires last != "" && Solid(last) && last[|last| - 1] == '"' && text == head + " " + last
    requires FirstEndsInQuote(Fields(head))
    ensures FirstEndsInQuote(Fields(text))
  {
    AppendField(head, last);
  }

  lemma CutStep(init: string, last: string, q: nat)
    requires last != "" && Solid(last) && last[|last| - 1] == '"' && q <= |init| + 1 + |last|
    requires q <= |init| ==> FirstEndsInQuote(Fields(init[q..]))
    ensures FirstEndsInQuote(Fields((init + " " + last)[q..]))
  {
    CutText(init, last, q);
    if q <= |init| {
      QuoteBehind(init[q..], last, (init + " " + last)[q..]);
    } else {
      CutLiteral(last, q - |init| - 1);
    }
  }

  predicate FirstEndsInQuote(fields: seq<string>) {
    fields == [] || (fields[0] != "" && fields[0][|fields[0]| - 1] == '"')
  }

  lemma CutLiteral(l: string, q: nat)
    requires q <= |l| && Solid(l) && l != "" && l[|l| - 1] == '"'
    ensures FirstEndsInQuote(Fields(l[q..]))
  {
    if l[q..] != "" { FieldsOfSolid(l[q..]); }
  }

  /** What ends in a paren and the name has a last field that is not the name. */
  lemma NoNameAfterText(x: string)
    ensures var fields := Fields(x + "(" + FACT); fields != [] && fields[|fields| - 1] != FACT
  {
    var head := x + "(" + FACT;
    LastFieldIsSuffix(head);
    assert head[|head| - |FACT| - 1] == '(';
  }

  lemma EarlierText(before: string, w: string, o: nat)
    requires o < |before|
    ensures (before + ("(" + FACT + w) + " ")[o + 1..] == before[o + 1..] + "(" + FACT + w + " "
  {
  }

  lemma LaterText(before: string, w: string, o: nat)
    requires |before| + |FACT| < o <= |before| + |FACT| + |w|
    ensures (before + ("(" + FACT + w) + " ")[o + 1..] == w[o - |before| - |FACT|..] + " "
  {
  }

  /** Read from any paren but its own, a call is another call. */
  lemma ReadElsewhere(before: string, args: seq<string>, o: nat)
    requires AllSolid(args) && o != |before|
    requires o < |before + Call(args) + " "| && (before + Call(args) + " ")[o] == '('
    ensures var fields := Fields((before + Call(args) + " ")[o + 1..]);
            fields == [] || fields[0] != FACT || |fields| > |args| + 1
  {
    if o < |before| {
      EarlierText(before, Written(args), o);
      CallBefore(before[o + 1..], args);
    } else {
      NotInName(before, args, o);
      LaterText(before, Written(args), o);
      CallInside(args, o - |before| - |FACT|);
    }
  }

  lemma CallAt(before: string, args: seq<string>, o: nat)
    requires AllSolid(args) && o == Top(Stack(before + Call(args) + " "))
    requires EnclosingCall(before + Call(args) + " ").0 == FACT
        && |EnclosingCall(before + Call(args) + " ").1| == |args|
    ensures o == |before|
  {
    EnclosingParen(before + Call(args) + " ", o);
    if o != |before| { ReadElsewhere(before, args, o); }
  }

  lemma FieldsBehind(head: string, args: seq<string>)
    requires AllSolid(args)
    ensures Fields(head + Written(args) + " ") == Fields(head) + Literals(args)
  {
    TrailingBlank(head + Written(args));
    FieldsOfWritten(head, args);
  }

  /** Read from an earlier paren it has another name or more arguments. */
  lemma CallBefore(x: string, args: seq<string>)
    requires AllSolid(args)
    ensures var fields := Fields(x + "(" + FACT + Written(args) + " ");
            fields != [] && (fields[0] == FACT ==> |fields| > |args| + 1)
  {
    FieldsBehind(x + "(" + FACT, args);
    NoNameAfterText(x);
  }

  /** Read from a later paren it has another name, or none. */
  lemma CallInside(args: seq<string>, q: nat)
    requires AllSolid(args) && q <= |Written(args)|
    ensures var fields := Fields(Written(args)[q..] + " "); fields == [] || fields[0] != FACT
  {
    TrailingBlank(Written(args)[q..]);
    CutWritten(args, q);
    assert FACT[|FACT| - 1] == 't';
  }

  lemma NotInName(before: string, args: seq<string>, o: nat)
    requires var s := before + Call(args) + " "; |before| < o < |s| && s[o] == '('
    ensures |before| + |FACT| < o <= |before| + |FACT| + |Written(args)|
  {
    var s := before + Call(args) + " ";
    assert s[|before| + 1] == 'f' && s[|before| + 2] == 'a' && s[|before| + 3] == 'c' && s[|before| + 4] == 't';
    assert s[|s| - 1] == ' ';
  }

  /** The completer reads a written call the way it was written exactly if no
      argument has a blank in it and the parens in them match: it neither keeps
      literals together nor skips them. */
  lemma CallParsesBack(before: string, args: seq<string>)
    requires AllPlain(args)
    ensures EnclosingCall(before + Call(args) + " ") == (FACT, args) <==> AllSolid(args) && Balanced(Written(args))
  {
    var s := before + Call(args) + " ";
    if AllSolid(args) && Balanced(Written(args)) {
      CallIsRead(before, args);
    }
    if EnclosingCall(s) == (FACT, args) {
      ParsedIsSolid(s);
      CallAt(before, args, Top(Stack(s)));
      CallParen(before, args);
    }
  }

  lemma ParenAt(s: string, o: nat, w: string)
    requires o < |s| && s[o] == '(' && s[o + 1..] == FACT + w + " "
    ensures Top(Stack(s)) == o <==> Balanced(w)
  {
    BalancedCall(w);
    EnclosingParen(s, o);
  }

  lemma CallText(before: string, w: string)
    ensures var s := before + ("(" + FACT + w) + " "; s[|before|] == '(' && s[|before| + 1..] == FACT + w + " "
  {
  }

  lemma ParenOf(before: string, w: string)
    ensures Top(Stack(before + ("(" + FACT + w) + " ")) == |before| <==> Balanced(w)
  {
    CallText(before, w);
    ParenAt(before + ("(" + FACT + w) + " ", |before|, w);
  }

  /** The call's own paren encloses the cursor exactly if the parens match. */
  lemma CallParen(before: string, args: seq<string>)
    ensures Top(Stack(before + Call(args) + " ")) == |before| <==> Balanced(Written(args))
    ensures (before + Call(args) + " ")[|before| + 1..] == FACT + Written(args) + " "
  {
    ParenOf(before, Written(args));
    CallText(before, Written(args));
  }

  lemma FieldsAsCall(fields: seq<string>, args: seq<string>)
    requires fields == [FACT] + Literals(args) && AllPlain(args)
    ensures |fields| > 0 && fields[0] == FACT && Unquoted(fields[1..]) == args
  {
    UnquotedLiterals(args);
    assert fields[1..] == Literals(args);
  }

  lemma ReadFrom(s: string, o: nat, text: string, args: seq<string>)
    requires Top(Stack(s)) == o < |s| && s[o + 1..] == text && Fields(text) == [FACT] + Literals(args)
    requires AllPlain(args)
    ensures EnclosingCall(s) == (FACT, args)
  {
    FieldsAsCall(Fields(text), args);
  }

  lemma FieldsOfCall(args: seq<string>)
    requires AllSolid(args)
    ensures Fields(FACT + Written(args) + " ") == [FACT] + Literals(args)
  {
    FieldsBehind(FACT, args);
    FieldsOfSolid(FACT);
  }

  lemma ReadCall(before: string, w: string, args: seq<string>)
    requires Balanced(w) && AllPlain(args) && Fields(FACT + w + " ") == [FACT] + Literals(args)
    ensures EnclosingCall(before + ("(" + FACT + w) + " ") == (FACT, args)
  {
    ParenOf(before, w);
    CallText(before, w);
    ReadFrom(before + ("(" + FACT + w) + " ", |before|, FACT + w + " ", args);
  }

  lemma CallIsRead(before: string, args: seq<string>)
    requires AllPlain(args) && AllSolid(args) && Balanced(Written(args))
    ensures EnclosingCall(before + Call(args) + " ") == (FACT, args)
  {
    FieldsOfCall(args);
    ReadCall(before, Written(args), args);
  }

  lemma ParsedIsSolid(s: string)
    ensures AllSolid(EnclosingCall(s).1)
  {
    var args := EnclosingCall(s).1;
    if args != [] {
      var fields := Fields(s[Top(Stack(s)) + 1..]);
      FieldsAreSolid(s[Top(Stack(s)) + 1..]);
      forall i | 0 <= i < |args| ensures Solid(args[i]) {
        assert args[i] == TrimQuotesRight(TrimQuotesLeft(fields[i + 1]));
        TrimLeftSolid(fields[i + 1]);
        TrimRightSolid(TrimQuotesLeft(fields[i + 1]));
      }
    }
  }

  predicate Flat(w: string) {
    forall i :: 0 <= i < |w| ==> w[i] != '(' && w[i] != ')'
  }

  lemma Regroup(name: string, open: string, close: string)
    ensures name + (" " + open + " " + close) + " " == name + " " + open + " " + close + " "
  {
  }

  lemma TwoMore(name: string, mid: string, open: string, all: string, close: string)
    requires name != "" && open != "" && close != "" && Solid(name) && Solid(open) && Solid(close)
    requires mid == name + " " + open && all == mid + " " + close
    ensures Fields(all + " ") == [name, open, close]
  {
    FieldsOfSolid(name);
    AppendField(name, open);
    AppendField(mid, close);
    TrailingBlank(all);
  }

  lemma ThreeFields(name: string, open: string, close: string)
    requires name != "" && open != "" && close != "" && Solid(name) && Solid(open) && Solid(close)
    ensures Fields(name + (" " + open + " " + close) + " ") == [name, open, close]
  {
    Regroup(name, open, close);
    TwoMore(name, name + " " + open, open, name + " " + open + " " + close, close);
  }

  lemma UnquoteHalves(x: string, y: string)
    requires y != "" && Plain(x) && Plain(y)
    ensures Unquoted(["\"" + x, y + "\""]) == [x, y]
  {
    TrimOpening(x);
    TrimClosing(x);
    TrimClosing(y);
    assert (y + "\"")[0] == y[0];
    assert TrimQuotesLeft(y + "\"") == y + "\"";
  }

  lemma TwoWords(x: string, y: string)
    ensures Written([x + " " + y]) == " " + ("\"" + x) + " " + (y + "\"")
  {
    var args := [x + " " + y];
    assert args[..0] == [];
    assert Written(args) == Written(args[..0]) + " " + Literal(x + " " + y);
  }

  /** An argument of two words reads as two arguments, so completion goes on below
      another path: after (fact "my fact" below my, fact. */
  lemma BlankMisleads(before: string, x: string, y: string)
    requires x != "" && y != "" && Solid(x) && Solid(y) && Plain(x) && Plain(y) && Flat(x) && Flat(y)
    ensures EnclosingCall(before + Call([x + " " + y]) + " ") == (FACT, [x, y])
  {
    var args, open, close := [x + " " + y], "\"" + x, y + "\"";
    TwoWords(x, y);
    FlatIsBalanced(Written(args));
    CallParen(before, args);
    ThreeFields(FACT, open, close);
    UnquoteHalves(x, y);
    assert [FACT, open, close][1..] == [open, close];
  }

  lemma {:induction false} FlatHeight(w: string)
    requires Flat(w)
    ensures Height(w) == 0
  {
    if w != "" { FlatHeight(w[..|w| - 1]); }
  }

  lemma FlatIsBalanced(w: string)
    requires Flat(w)
    ensures Balanced(w)
  {
    forall i | 0 <= i <= |w| ensures HeightAt(w, i) >= 0 { FlatHeight(w[..i]); }
    FlatHeight(w);
  }

  // ------------------------------------------------------------- the cursor

  lemma {:induction false} ScanPlain(s: string, w: string)
    requires Plain(w) && !Scan(s).1
    ensures Scan(s + w) == (Scan(s).0, false)
  {
    if w == "" {
      assert s + w == s;
    } else {
      ScanPlain(s, w[..|w| - 1]);
      assert (s + w)[..|s + w| - 1] == s + w[..|w| - 1];
    }
  }

  lemma ScanQuote(s: string)
    requires !Scan(s).1
    ensures Scan(s + "\"") == (if Scan(s).0 < 0 then |s| else -1, false)
  {
    assert (s + "\"")[..|s|] == s;
  }

  lemma ScanLiteral(s: string, a: string)
    requires Plain(a) && Scan(s) == (-1, false)
    ensures Scan(s + " " + "\"" + a + "\"") == (-1, false)
  {
    ScanPlain(s, " ");
    ScanQuote(s + " ");
    ScanPlain(s + " " + "\"", a);
    ScanQuote(s + " " + "\"" + a);
  }

  lemma LiteralBehind(s: string, w: string, a: string)
    ensures s + (w + " " + Literal(a)) == s + w + " " + "\"" + a + "\""
  {
  }

  lemma {:induction false} ScanWritten(s: string, args: seq<string>)
    requires AllPlain(args) && Scan(s) == (-1, false)
    ensures Scan(s + Written(args)) == (-1, false)
  {
    if args == [] {
      assert s + Written(args) == s;
    } else {
      var init, last := args[..|args| - 1], args[|args| - 1];
      ScanWritten(s, init);
      ScanLiteral(s + Written(init), last);
      LiteralBehind(s, Written(init), last);
    }
  }

  /** A query, a call in it and the next argument begun */
  function Typing(before: string, args: seq<string>, partial: string): string {
    before + Call(args) + " " + "\"" + partial
  }

  /** The quote behind a call opens a literal. */
  lemma OpensLiteral(before: string, args: seq<string>)
    requires AllPlain(args) && Scan(before) == (-1, false)
    ensures Scan(before + Call(args) + " " + "\"") == (|before + Call(args) + " "|, false)
  {
    ScanPlain(before, "(" + FACT);
    ScanWritten(before + ("(" + FACT), args);
    assert before + ("(" + FACT) + Written(args) == before + Call(args);
    ScanPlain(before + Call(args), " ");
    ScanQuote(before + Call(args) + " ");
  }

  lemma CursorInLiteral(before: string, args: seq<string>, partial: string)
    requires AllPlain(args) && Plain(partial) && Scan(before) == (-1, false)
    ensures Scan(Typing(before, args, partial)).0 == |before + Call(args) + " "|
  {
    OpensLiteral(before, args);
    ScanPlain(before + Call(args) + " " + "\"", partial);
  }

  lemma {:induction false} NotMeta(before: string, rest: string)
    requires !IsMeta(before) && rest != "" && rest[0] == '('
    ensures !IsMeta(before + rest)
  {
    if before == "" {
      assert before + rest == rest;
    } else if Blank(before[0]) {
      NotMeta(before[1..], rest);
      assert (before + rest)[1..] == before[1..] + rest;
    }
  }

  // ------------------------------------------------------------- completion

  /** What the completer offers on such a line */
  ghost function NamesOffered(st: CompletionState, before: string, args: seq<string>, partial: string): Offer {
    Offer(before + Call(args) + " " + "\"", Closed(Prefixed(Children(st.facts, args), partial), '"'), false)
  }

  lemma TypingText(before: string, args: seq<string>, partial: string)
    ensures var line, start := Typing(before, args, partial), |before + Call(args) + " "|;
            && start < |line| && line[..start] == before + Call(args) + " "
            && line[..start + 1] == before + Call(args) + " " + "\"" && line[start + 1..] == partial
            && line == before + (Call(args) + " " + "\"" + partial)
  {
  }

  lemma OffersNames(st: CompletionState, before: string, args: seq<string>, partial: string)
    requires Scan(before) == (-1, false) && !IsMeta(before)
    requires AllPlain(args) && AllSolid(args) && Balanced(Written(args)) && Plain(partial)
    ensures OfferFor(st, Typing(before, args, partial)) == NamesOffered(st, before, args, partial)
  {
    TypingText(before, args, partial);
    CursorInLiteral(before, args, partial);
    NotMeta(before, Call(args) + " " + "\"" + partial);
    CallIsRead(before, args);
  }

  /** Nothing in the name ends the literal it stands in, and nothing in it keeps
      the quote after it from doing so */
  predicate SelfContained(name: string) {
    (forall i :: 0 <= i < |name| ==> !LiveQuote(name, i)) && Backslashes(name) % 2 == 0
  }

  /** Accepting name below args writes the call with it as the next argument, the
      new argument ends where the name does exactly if the name is self-contained,
      and both walkers resolve the path that is meant */
  ghost predicate CompletesTo(st: CompletionState, before: string, args: seq<string>, name: string, line: string) {
    && line == before + Call(args + [name])
    && (IsLiteral(before + Call(args) + " " + "\"", name) <==> SelfContained(name))
    && Resolves(st.facts, args + [name])
  }

  /** Below a path of plain arguments without blanks and with matching parens the
      completer offers exactly the names below that path that go on from what was
      typed, and accepting one completes the call as said above. A name with a
      quote or a backslash in it is offered as it is, so the evaluator reads
      another literal where the name is not self-contained, or is unescaped. */
  lemma FactCompletionResolves(st: CompletionState, before: string, args: seq<string>, partial: string,
                               candidate: string)
    requires ListsFit(Object(st.facts)) && Scan(before) == (-1, false) && !IsMeta(before)
    requires AllPlain(args) && AllSolid(args) && Balanced(Written(args)) && Plain(partial)
    ensures var line := Typing(before, args, partial);
            var offer := OfferFor(st, line);
            && Complete(st, line, |line|).0 == offer && offer.Offer?
            && (candidate in offer.candidates <==>
                  exists name :: name in Children(st.facts, args) && partial <= name && candidate == name + "\"")
            && (candidate in offer.candidates ==>
                  exists name :: candidate == name + "\""
                      && CompletesTo(st, before, args, name, offer.head + candidate))
  {
    var line := Typing(before, args, partial);
    assert line[..|line|] == line;
    OffersNames(st, before, args, partial);
    ClosedMeaning(Children(st.facts, args), partial, '"', candidate);
    if candidate in OfferFor(st, line).candidates {
      var name :| name in Children(st.facts, args) && partial <= name && candidate == name + "\"";
      NameCompletes(st, before, args, name);
    }
  }

  lemma NameCompletes(st: CompletionState, before: string, args: seq<string>, name: string)
    requires ListsFit(Object(st.facts)) && Scan(before) == (-1, false) && AllPlain(args)
    requires name in Children(st.facts, args)
    ensures CompletesTo(st, before, args, name, before + Call(args) + " " + "\"" + (name + "\""))
  {
    ChildrenResolve(st.facts, args, name);
    NextArgument(before, args, name);
    OpensLiteral(before, args);
    ClosedIsLiteral(before + Call(args) + " " + "\"", name);
  }

  lemma ClosedMeaning(names: seq<string>, partial: string, with: char, candidate: string)
    ensures candidate in Closed(Prefixed(names, partial), with) <==>
              exists name :: name in names && partial <= name && candidate == name + [with]
  {
    var kept := Prefixed(names, partial);
    if candidate in Closed(kept, with) {
      var i :| 0 <= i < |kept| && Closed(kept, with)[i] == candidate;
      PrefixedMeaning(names, partial, kept[i]);
    }
    if name :| name in names && partial <= name && candidate == name + [with] {
      PrefixedMeaning(names, partial, name);
      var i :| 0 <= i < |kept| && kept[i] == name;
      assert Closed(kept, with)[i] == candidate;
    }
  }

  lemma NextArgument(before: string, args: seq<string>, name: string)
    ensures before + Call(args) + " " + "\"" + (name + "\"") == before + Call(args + [name])
  {
    assert (args + [name])[..|args|] == args;
    assert Call(args + [name]) == Call(args) + " " + Literal(name);
  }

  // ------------------------------------------------------------- closing

  lemma {:induction false} BackslashesAfter(head: string, name: string)
    requires head != "" && head[|head| - 1] == '"'
    ensures Backslashes(head + name) == Backslashes(name)
  {
    if name == "" {
      assert head + name == head;
    } else {
      BackslashesAfter(head, name[..|name| - 1]);
      assert (head + name)[..|head + name| - 1] == head + name[..|name| - 1];
    }
  }

  /** Without a live quote in it, name leaves the literal open. */
  lemma {:induction false} StaysOpen(head: string, name: string)
    requires head != "" && head[|head| - 1] == '"' && Scan(head) == (|head| - 1, false)
    requires forall i :: 0 <= i < |name| ==> !LiveQuote(name, i)
    ensures Scan(head + name) == (|head| - 1, Backslashes(name) % 2 == 1)
  {
    EscapedMeansOdd(head + name);
    BackslashesAfter(head, name);
    if name == "" {
      assert head + name == head;
    } else {
      var init, c := name[..|name| - 1], name[|name| - 1];
      assert name == init + [c];
      forall i | 0 <= i < |init| ensures !LiveQuote(init, i) { LiveQuoteKept(init, c, i); }
      StaysOpen(head, init);
      assert (head + name)[..|head + name| - 1] == head + init;
      assert !LiveQuote(name, |init|);
    }
  }

  /** name is all of the literal that head opens, and the quote after it closes
      it */
  ghost predicate IsLiteral(head: string, name: string) {
    && (forall i :: 0 <= i <= |name| ==> Scan(head + name[..i]).0 == |head| - 1)
    && Scan(head + name + "\"").0 == -1
  }

  lemma NoLiveIsLiteral(head: string, name: string)
    requires head != "" && head[|head| - 1] == '"' && Scan(head) == (|head| - 1, false)
    requires forall i :: 0 <= i < |name| ==> !LiveQuote(name, i)
    ensures IsLiteral(head, name) <==> Backslashes(name) % 2 == 0
  {
    forall i | 0 <= i <= |name| ensures Scan(head + name[..i]).0 == |head| - 1 {
      LiveCut(name, i);
      StaysOpen(head, name[..i]);
    }
    StaysOpen(head, name);
    assert (head + name + "\"")[..|head + name|] == head + name;
  }

  lemma LiveCut(name: string, i: nat)
    requires i <= |name| && forall j :: 0 <= j < i ==> !LiveQuote(name, j)
    ensures forall j :: 0 <= j < |name[..i]| ==> !LiveQuote(name[..i], j)
  {
    forall j | 0 <= j < i ensures !LiveQuote(name[..i], j) {
      assert name[..i][..j] == name[..j] && name[..i][j] == name[j];
      assert !LiveQuote(name, j);
    }
  }

  lemma LiveIsNoLiteral(head: string, name: string, i: nat)
    requires head != "" && head[|head| - 1] == '"' && Scan(head) == (|head| - 1, false)
    requires i < |name| && LiveQuote(name, i) && forall j :: 0 <= j < i ==> !LiveQuote(name, j)
    ensures Scan(head + name[..i + 1]).0 == -1
  {
    LiveCut(name, i);
    StaysOpen(head, name[..i]);
    ScanQuote(head + name[..i]);
    CutNext(head, name, i);
  }

  lemma CutNext(head: string, name: string, i: nat)
    requires i < |name| && name[i] == '"'
    ensures head + name[..i + 1] == head + name[..i] + "\""
  {
  }

  /** The quote a completed name is closed with ends the literal right there
      exactly if the name has no unescaped quote and does not end in an escape. */
  lemma ClosedIsLiteral(head: string, name: string)
    requires head != "" && head[|head| - 1] == '"' && Scan(head) == (|head| - 1, false)
    ensures IsLiteral(head, name) <==> SelfContained(name)
  {
    if forall i :: 0 <= i < |name| ==> !LiveQuote(name, i) {
      NoLiveIsLiteral(head, name);
    } else {
      var i := FirstLive(name);
      LiveIsNoLiteral(head, name, i);
    }
  }

  lemma FirstLive(name: string) returns (i: nat)
    requires exists j :: 0 <= j < |name| && LiveQuote(name, j)
    ensures i < |name| && LiveQuote(name, i) && forall j :: 0 <= j < i ==> !LiveQuote(name, j)
  {
    i := 0;
    while !LiveQuote(name, i)
      invariant i < |name| && forall j :: 0 <= j < i ==> !LiveQuote(name, j)
      invariant exists j :: i <= j < |name| && LiveQuote(name, j)
      decreases |name| - i
    {
      i := i + 1;
    }
  }
}
