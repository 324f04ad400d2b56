/** String helpers the Go code takes from `strings`, `strconv` and `sort`.
    Strings are sequences of code points; the blanks are space and tab. */
module Text {

  datatype Option<+T> = None | Some(value: T)

  // ---------------------------------------------------------------- splitting

  /** strings.Split(s, sep) for a one character separator */
  function Split(s: string, sep: char): (parts: seq<string>)
    ensures |parts| >= 1
  {
    if s == "" then [""]
    else
      var parts := Split(s[..|s| - 1], sep);
      var c := s[|s| - 1];
      if c == sep then parts + [""]
      else parts[..|parts| - 1] + [parts[|parts| - 1] + [c]]
  }

  function Join(parts: seq<string>, sep: char): string
    requires |parts| >= 1
  {
    if |parts| == 1 then parts[0]
    else Join(parts[..|parts| - 1], sep) + [sep] + parts[|parts| - 1]
  }

  /** Split cuts at every separator and nowhere else: no piece holds one, and
      joining the pieces gives the text back. */
  lemma {:induction false} SplitJoin(s: string, sep: char)
    ensures Join(Split(s, sep), sep) == s
  {
    if s != "" {
      var init, c := s[..|s| - 1], s[|s| - 1];
      SplitJoin(init, sep);
      var parts := Split(init, sep);
      var n := |parts|;
      if c == sep {
        assert (parts + [""])[..n] == parts;
      } else {
        JoinGrows(parts, c, sep);
      }
      assert s == init + [c];
    }
  }

  lemma JoinGrows(parts: seq<string>, c: char, sep: char)
    requires |parts| >= 1
    ensures Join(parts[..|parts| - 1] + [parts[|parts| - 1] + [c]], sep) == Join(parts, sep) + [c]
  {
    var n := |parts|;
    var longer := parts[..n - 1] + [parts[n - 1] + [c]];
    assert longer[..n - 1] == parts[..n - 1];
  }

  lemma {:induction false} SplitPieces(s: string, sep: char)
    ensures forall i :: 0 <= i < |Split(s, sep)| ==> sep !in Split(s, sep)[i]
  {
    if s != "" {
      SplitPieces(s[..|s| - 1], sep);
    }
  }

  /** parts with one more character at the end of the last */
  function LastGrown(parts: seq<string>, c: char): seq<string>
    requires |parts| >= 1
  {
    parts[..|parts| - 1] + [parts[|parts| - 1] + [c]]
  }

  lemma SplitStep(s: string, c: char, sep: char)
    ensures Split(s + [c], sep) == if c == sep then Split(s, sep) + [""] else LastGrown(Split(s, sep), c)
  {
    assert (s + [c])[..|s|] == s;
  }

  lemma LastGrownAfter(parts: seq<string>, last: string, c: char)
    ensures LastGrown(parts + [last], c) == parts + [last + [c]]
  {
  }

  lemma TailText(a: string, sep: char, b: string)
    requires b != ""
    ensures a + [sep] + b == a + [sep] + b[..|b| - 1] + [b[|b| - 1]] && b == b[..|b| - 1] + [b[|b| - 1]]
  {
  }

  /** A last segment free of separators is split off unchanged. */
  lemma {:induction false} SplitLast(a: string, b: string, sep: char)
    requires sep !in b
    ensures Split(a + [sep] + b, sep) == Split(a, sep) + [b]
  {
    if b == "" {
      SplitStep(a, sep, sep);
      assert a + [sep] + b == a + [sep];
    } else {
      var init, c := b[..|b| - 1], b[|b| - 1];
      SplitLast(a, init, sep);
      SplitStep(a + [sep] + init, c, sep);
      LastGrownAfter(Split(a, sep), init, c);
      TailText(a, sep, b);
    }
  }

  // ---------------------------------------------------------------- searching

  /** strings.Index: the first occurrence of pat, or -1 */
  function Index(s: string, pat: string): (i: int)
    ensures -1 <= i <= |s|
    ensures i >= 0 ==> pat <= s[i..] && i + |pat| <= |s|
    ensures forall j :: 0 <= j <= |s| && (i < 0 || j < i) ==> !(pat <= s[j..])
  {
    if pat <= s then
      assert s[0..] == s;
      0
    else if s == "" then -1
    else
      var rest := Index(s[1..], pat);
      assert forall j :: 1 <= j <= |s| ==> s[j..] == s[1..][j - 1..];
      assert s[0..] == s;
      if rest < 0 then -1 else rest + 1
  }

  predicate Contains(s: string, pat: string) {
    Index(s, pat) >= 0
  }

  // ---------------------------------------------------------------- blanks

  predicate Blank(c: char) { c == ' ' || c == '\t' }

  predicate AllBlank(s: string) { forall i :: 0 <= i < |s| ==> Blank(s[i]) }

  predicate EndsBlank(s: string) { |s| > 0 && Blank(s[|s| - 1]) }

  function TrimBlanksLeft(s: string): string {
    if s != "" && Blank(s[0]) then TrimBlanksLeft(s[1..]) else s
  }

  /** strings.Fields: the maximal runs of non-blank characters */
  function Fields(s: string): (fields: seq<string>)
    ensures s != "" && !EndsBlank(s) ==> |fields| > 0
  {
    if s == "" then []
    else
      var init, c := s[..|s| - 1], s[|s| - 1];
      var fields := Fields(init);
      if Blank(c) then fields
      else if init == "" || EndsBlank(init) then fields + [[c]]
      else fields[..|fields| - 1] + [fields[|fields| - 1] + [c]]
  }

  lemma {:induction false} FieldsEmpty(s: string)
    ensures Fields(s) == [] <==> AllBlank(s)
  {
    if s != "" {
      FieldsEmpty(s[..|s| - 1]);
      var init := s[..|s| - 1];
      assert s == init + [s[|s| - 1]];
      if AllBlank(s) {
        assert forall i :: 0 <= i < |init| ==> init[i] == s[i];
      }
      if AllBlank(init) && Blank(s[|s| - 1]) {
        assert forall i :: 0 <= i < |init| ==> s[i] == init[i];
      }
    }
  }

  /** w is the word s ends in: blank-free and cut off from what precedes it */
  ghost predicate LastWord(s: string, w: string) {
    && 0 < |w| <= |s| && w == s[|s| - |w|..]
    && (|w| < |s| ==> Blank(s[|s| - |w| - 1]))
    && forall i :: 0 <= i < |w| ==> !Blank(w[i])
  }

  lemma LastWordGrows(s: string, w: string, c: char)
    requires LastWord(s, w) && !Blank(c)
    ensures LastWord(s + [c], w + [c])
  {
  }

  /** The last field is the word under the cursor. */
  lemma {:induction false} LastFieldIsSuffix(s: string)
    requires s != "" && !EndsBlank(s)
    ensures LastWord(s, Fields(s)[|Fields(s)| - 1])
  {
    var init, c := s[..|s| - 1], s[|s| - 1];
    var fields := Fields(init);
    assert s == init + [c];
    if init != "" && !EndsBlank(init) {
      LastFieldIsSuffix(init);
      LastWordGrows(init, fields[|fields| - 1], c);
      assert Fields(s) == fields[..|fields| - 1] + [fields[|fields| - 1] + [c]];
    } else {
      assert Fields(s) == fields + [[c]];
    }
  }

  // ---------------------------------------------------------------- decimals

  const MAX_INT64: int := 0x7fff_ffff_ffff_ffff

  function Digit(d: nat): char
    requires d < 10
  {
    ('0' as int + d) as char
  }

  predicate IsDigit(c: char) { '0' <= c <= '9' }

  /** strconv.Itoa on a non-negative number */
  function Itoa(n: nat): string {
    if n < 10 then [Digit(n)] else Itoa(n / 10) + [Digit(n % 10)]
  }

  function ParseDigits(s: string): Option<int> {
    if s == "" then Some(0)
    else if !IsDigit(s[|s| - 1]) then None
    else
      match ParseDigits(s[..|s| - 1])
      case None => None
      case Some(n) => Some(10 * n + (s[|s| - 1] as int - '0' as int))
  }

  /** strconv.Atoi: an optional sign, at least one digit, and a value that fits
      64 bits */
  function Atoi(s: string): Option<int> {
    var negative := s != "" && s[0] == '-';
    var digits := if s != "" && (s[0] == '-' || s[0] == '+') then s[1..] else s;
    if digits == "" then None
    else
      match ParseDigits(digits)
      case None => None
      case Some(n) =>
        var value: int := if negative then -n else n;
        if -MAX_INT64 - 1 <= value <= MAX_INT64 then Some(value) else None
  }

  lemma {:induction false} ItoaDigits(n: nat)
    ensures |Itoa(n)| > 0 && IsDigit(Itoa(n)[0])
    ensures ParseDigits(Itoa(n)) == Some(n)
  {
    if n >= 10 {
      ItoaDigits(n / 10);
      assert Itoa(n)[..|Itoa(n)| - 1] == Itoa(n / 10);
    } else {
      assert Itoa(n)[..0] == "";
    }
  }

  lemma AtoiOf(sign: string, digits: string, n: int)
    requires (sign == "+" || sign == "-") && digits != ""
    requires ParseDigits(digits) == Some(if sign == "-" then -n else n)
    ensures Atoi(sign + digits) == if -0x8000_0000_0000_0000 <= n <= 0x7fff_ffff_ffff_ffff then Some(n) else None
  {
    assert (sign + digits)[1..] == digits;
  }

  /** A sign in front counts, and what does not fit 64 bits is not read. */
  lemma AtoiSigned(n: int)
    requires n >= 0
    ensures Atoi("+" + Itoa(n)) == if n <= 0x7fff_ffff_ffff_ffff then Some(n) else None
    ensures Atoi("-" + Itoa(n)) == if n <= 0x8000_0000_0000_0000 then Some(-n) else None
    ensures Atoi("") == None && Atoi("+") == None && Atoi("-") == None
  {
    ItoaDigits(n);
    AtoiOf("+", Itoa(n), n);
    AtoiOf("-", Itoa(n), -n);
    assert "+"[1..] == "" && "-"[1..] == "";
  }

  /** Printing an index and reading it back is the identity. */
  lemma AtoiItoa(n: nat)
    requires n <= MAX_INT64
    ensures Atoi(Itoa(n)) == Some(n)
  {
    ItoaDigits(n);
  }

  // ---------------------------------------------------------------- ordering

  /** The order sort.Strings sorts by */
  predicate Leq(a: string, b: string) {
    a == "" || (b != "" && (a[0] < b[0] || (a[0] == b[0] && Leq(a[1..], b[1..]))))
  }

  /** a is a prefix of b, or has the smaller character where they first differ */
  ghost predicate Before(a: string, b: string) {
    a <= b || exists i :: DiffersUp(a, b, i)
  }

  predicate DiffersUp(a: string, b: string, i: int) {
    0 <= i < |a| && i < |b| && a[..i] == b[..i] && a[i] < b[i]
  }

  lemma DiffersLater(a: string, b: string, i: int)
    requires a != "" && b != "" && a[0] == b[0] && i >= 0
    ensures DiffersUp(a, b, i + 1) <==> DiffersUp(a[1..], b[1..], i)
  {
    if 0 <= i < |a| - 1 && i < |b| - 1 {
      assert a[..i + 1] == [a[0]] + a[1..][..i] && b[..i + 1] == [b[0]] + b[1..][..i];
      assert a[..i + 1][1..] == a[1..][..i] && b[..i + 1][1..] == b[1..][..i];
    }
  }

  /** The order of strings, said without recursion. */
  lemma {:induction false} LeqMeaning(a: string, b: string)
    ensures Leq(a, b) <==> Before(a, b)
  {
    if a != "" && b != "" {
      if a[0] == b[0] {
        LeqMeaning(a[1..], b[1..]);
        BeforeTail(a, b);
      } else if a[0] < b[0] {
        assert DiffersUp(a, b, 0);
      }
    }
  }

  lemma BeforeTail(a: string, b: string)
    requires a != "" && b != "" && a[0] == b[0]
    ensures Before(a, b) <==> Before(a[1..], b[1..])
  {
    assert a == [a[0]] + a[1..] && b == [b[0]] + b[1..];
    if i :| DiffersUp(a[1..], b[1..], i) {
      DiffersLater(a, b, i);
      assert DiffersUp(a, b, i + 1);
    }
    if i :| DiffersUp(a, b, i) {
      assert i > 0;
      DiffersLater(a, b, i - 1);
      assert DiffersUp(a[1..], b[1..], i - 1);
    }
  }

  lemma {:induction false} LeqTotal(a: string, b: string)
    ensures Leq(a, b) || Leq(b, a)
  {
    if a != "" && b != "" { LeqTotal(a[1..], b[1..]); }
  }

  lemma {:induction false} LeqAntisymmetric(a: string, b: string)
    requires Leq(a, b) && Leq(b, a)
    ensures a == b
  {
    if a != "" && b != "" {
      LeqAntisymmetric(a[1..], b[1..]);
      assert a == [a[0]] + a[1..] && b == [b[0]] + b[1..];
    }
  }

  lemma {:induction false} LeqTransitive(a: string, b: string, c: string)
    requires Leq(a, b) && Leq(b, c)
    ensures Leq(a, c)
  {
    if a != "" && a[0] == b[0] == c[0] { LeqTransitive(a[1..], b[1..], c[1..]); }
  }

  ghost predicate Sorted(ss: seq<string>) {
    forall i, j :: 0 <= i < j < |ss| ==> Leq(ss[i], ss[j])
  }

  ghost predicate Distinct(ss: seq<string>) {
    forall i, j :: 0 <= i < j < |ss| ==> ss[i] != ss[j]
  }

  function Elements(ss: seq<string>): set<string> {
    set s | s in ss
  }

  function Insert(x: string, ss: seq<string>): seq<string> {
    if ss == [] || Leq(x, ss[0]) then [x] + ss else [ss[0]] + Insert(x, ss[1..])
  }

  /** sort.Strings */
  function SortStrings(ss: seq<string>): seq<string> {
    if ss == [] then [] else Insert(ss[0], SortStrings(ss[1..]))
  }

  lemma {:induction false} InsertKeeps(x: string, ss: seq<string>)
    ensures multiset(Insert(x, ss)) == multiset(ss) + multiset{x}
  {
    if ss != [] && !Leq(x, ss[0]) {
      InsertKeeps(x, ss[1..]);
      assert ss == [ss[0]] + ss[1..];
    }
  }

  ghost predicate LeqAll(x: string, ss: seq<string>) {
    forall j :: 0 <= j < |ss| ==> Leq(x, ss[j])
  }

  lemma FirstInOrder(x: string, ss: seq<string>)
    requires Sorted(ss) && LeqAll(x, ss)
    ensures Sorted([x] + ss)
  {
  }

  lemma LeqInserted(x: string, ss: seq<string>)
    requires Sorted(ss) && ss != [] && !Leq(x, ss[0])
    ensures LeqAll(ss[0], Insert(x, ss[1..]))
  {
    var rest := Insert(x, ss[1..]);
    InsertKeeps(x, ss[1..]);
    LeqTotal(x, ss[0]);
    forall j | 0 <= j < |rest| ensures Leq(ss[0], rest[j]) {
      assert rest[j] in multiset(rest);
      if rest[j] != x {
        assert rest[j] in multiset(ss[1..]);
        var i :| 0 <= i < |ss[1..]| && ss[1..][i] == rest[j];
        assert ss[i + 1] == rest[j];
      }
    }
  }

  lemma {:induction false} InsertSorts(x: string, ss: seq<string>)
    requires Sorted(ss)
    ensures Sorted(Insert(x, ss))
    ensures multiset(Insert(x, ss)) == multiset(ss) + multiset{x}
  {
    InsertKeeps(x, ss);
    if ss != [] && Leq(x, ss[0]) {
      forall j | 0 < j < |ss| ensures Leq(x, ss[j]) { LeqTransitive(x, ss[0], ss[j]); }
      FirstInOrder(x, ss);
    } else if ss != [] {
      InsertSorts(x, ss[1..]);
      LeqInserted(x, ss);
      FirstInOrder(ss[0], Insert(x, ss[1..]));
    }
  }

  /** SortStrings sorts, and neither loses nor invents anything. */
  lemma {:induction false} SortStringsCorrect(ss: seq<string>)
    ensures Sorted(SortStrings(ss))
    ensures multiset(SortStrings(ss)) == multiset(ss)
  {
    if ss != [] {
      SortStringsCorrect(ss[1..]);
      InsertSorts(ss[0], SortStrings(ss[1..]));
      assert ss == [ss[0]] + ss[1..];
    }
  }

  lemma SameElements(a: seq<string>, b: seq<string>)
    requires multiset(a) == multiset(b)
    ensures |a| == |b| && Elements(a) == Elements(b)
  {
    assert |multiset(a)| == |a| && |multiset(b)| == |b|;
    forall x ensures x in a <==> x in b {
      assert x in a <==> x in multiset(a);
      assert x in b <==> x in multiset(b);
    }
  }

  lemma SubsetCount<T>(a: set<T>, b: set<T>)
    requires a <= b
    ensures |a| <= |b|
  {
    assert b == a + (b - a);
  }

  /** A duplicate-free list has as many entries as the set it lists. */
  lemma {:induction false} DistinctCount(ss: seq<string>)
    requires Distinct(ss)
    ensures |Elements(ss)| == |ss|
  {
    if ss != [] {
      var rest := ss[1..];
      DistinctCount(rest);
      assert Elements(ss) == Elements(rest) + {ss[0]};
    }
  }

  lemma {:induction false} DistinctByCount(ss: seq<string>)
    ensures |Elements(ss)| <= |ss|
    ensures |Elements(ss)| == |ss| ==> Distinct(ss)
  {
    if ss != [] {
      var rest := ss[1..];
      DistinctByCount(rest);
      assert Elements(ss) == Elements(rest) + {ss[0]};
      if ss[0] in rest {
        assert Elements(ss) == Elements(rest);
      } else if |Elements(ss)| == |ss| {
        forall i, j | 0 <= i < j < |ss| ensures ss[i] != ss[j] {
          assert ss[j] == rest[j - 1];
          if i > 0 { assert ss[i] == rest[i - 1]; }
        }
      }
    }
  }

  lemma InsertNew(x: string, ss: seq<string>)
    requires Sorted(ss) && Distinct(ss) && x !in ss
    ensures Sorted(Insert(x, ss)) && Distinct(Insert(x, ss))
    ensures Elements(Insert(x, ss)) == Elements(ss) + {x}
  {
    InsertSorts(x, ss);
    assert multiset(Insert(x, ss)) == multiset([x] + ss);
    SameElements(Insert(x, ss), [x] + ss);
    assert Elements([x] + ss) == Elements(ss) + {x};
    DistinctCount([x] + ss);
    DistinctByCount(Insert(x, ss));
  }

  /** Sorting keeps duplicates away. */
  lemma SortKeepsDistinct(ss: seq<string>)
    requires Distinct(ss)
    ensures Distinct(SortStrings(ss)) && Elements(SortStrings(ss)) == Elements(ss)
  {
    SortStringsCorrect(ss);
    SameElements(SortStrings(ss), ss);
    DistinctCount(ss);
    DistinctByCount(SortStrings(ss));
  }

  /** There is one sorted duplicate-free listing of a set: iteration order over
      a Go map does not show through a sort. */
  lemma {:induction false} SortedListingUnique(a: seq<string>, b: seq<string>)
    requires Sorted(a) && Distinct(a) && Sorted(b) && Distinct(b)
    requires Elements(a) == Elements(b)
    ensures a == b
  {
    DistinctCount(a);
    DistinctCount(b);
    if a != [] {
      assert a[0] in Elements(b) && b[0] in Elements(a);
      var i :| 0 <= i < |b| && b[i] == a[0];
      var j :| 0 <= j < |a| && a[j] == b[0];
      assert Leq(b[0], b[i]) || i == 0;
      assert Leq(a[0], a[j]) || j == 0;
      if i != 0 && j != 0 { LeqAntisymmetric(a[0], b[0]); }
      assert a[0] == b[0];
      assert a[0] !in a[1..] && b[0] !in b[1..];
      assert Elements(a[1..]) == Elements(a) - {a[0]};
      assert Elements(b[1..]) == Elements(b) - {b[0]};
      SortedListingUnique(a[1..], b[1..]);
      assert a == [a[0]] + a[1..] && b == [b[0]] + b[1..];
    }
  }
}
