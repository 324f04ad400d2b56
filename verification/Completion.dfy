/** Tab completion: query/repl/complete.go, query/repl/term.go. */
module Completion {
  import opened Text
  import opened Facts
  import opened Scanners

  /** The meta commands with arguments that complete (query/repl/meta.go) */
  datatype MetaKind = MetaSnapshot | MetaLocal | MetaOut | MetaFact | MetaClass | MetaOther

  /** Everything the completer knows; lookup resolves a command's name */
  datatype CompletionState = CompletionState(
    lookup: string -> Option<MetaKind>,
    meta: seq<string>,
    funcs: seq<string>,
    facts: map<string, Value>,
    classes: seq<string>,
    nodes: seq<string>,
    nodeMeta: map<string, Value>,
    formats: seq<string>,
    files: Option<string -> seq<string>>)

  /** What completing gives: the line becomes head + candidate + tail. fromFiles
      marks candidates that come from the filesystem. Panics is the index out of
      range of a colon followed by nothing but blanks. */
  datatype Offer =
    | Panics
    | Offer(head: string, candidates: seq<string>, fromFiles: bool)

  // ------------------------------------------------------------- helpers

  function Prefixed(candidates: seq<string>, prefix: string): seq<string> {
    if candidates == [] then []
    else
      var init, c := candidates[..|candidates| - 1], candidates[|candidates| - 1];
      Prefixed(init, prefix) + if prefix <= c then [c] else []
  }

  method WithPrefix(candidates: seq<string>, prefix: string) returns (out: seq<string>)
    ensures out == Prefixed(candidates, prefix)
  {
    out := [];
    for i := 0 to |candidates|
      invariant out == Prefixed(candidates[..i], prefix)
    {
      assert candidates[..i + 1][..i] == candidates[..i];
      if prefix <= candidates[i] { out := out + [candidates[i]]; }
    }
    assert candidates[..|candidates|] == candidates;
  }

  /** Exactly the candidates with the prefix are kept. */
  lemma {:induction false} PrefixedMeaning(candidates: seq<string>, prefix: string, c: string)
    ensures c in Prefixed(candidates, prefix) <==> c in candidates && prefix <= c
  {
    if candidates != [] {
      var init, last := candidates[..|candidates| - 1], candidates[|candidates| - 1];
      PrefixedMeaning(init, prefix, c);
      assert candidates == init + [last];
    }
  }

  /** quoteAll and spaceAll */
  function Closed(candidates: seq<string>, with: char): seq<string> {
    seq(|candidates|, i requires 0 <= i < |candidates| => candidates[i] + [with])
  }

  /** Every candidate continues what was typed */
  predicate Extend(candidates: seq<string>, partial: string) {
    forall i :: 0 <= i < |candidates| ==> partial <= candidates[i]
  }

  lemma ClosedPrefixedExtend(candidates: seq<string>, partial: string, with: char)
    ensures Extend(Closed(Prefixed(candidates, partial), with), partial)
  {
    var kept := Prefixed(candidates, partial);
    forall i | 0 <= i < |kept| ensures partial <= kept[i] + [with] {
      PrefixedMeaning(candidates, partial, kept[i]);
    }
  }

  // ------------------------------------------------------------- classes

  /** The class up to and including the next ::, or all of it and the quote */
  function Candidate(class_: string, partial: string): string
    requires partial <= class_
  {
    var idx := Index(class_[|partial|..], "::");
    if idx >= 0 then class_[..|partial| + idx + 2] else class_ + "\""
  }

  ghost function ClassCandidates(classes: seq<string>, partial: string): seq<string> {
    SortedKeys(set c | c in classes && partial <= c :: Candidate(c, partial))
  }

  method CompleteClass(classes: seq<string>, partial: string) returns (out: seq<string>)
    ensures out == ClassCandidates(classes, partial)
    ensures Sorted(out) && Distinct(out)
  {
    var seen: set<string> := {};
    out := [];
    for i := 0 to |classes|
      invariant Distinct(out) && Elements(out) == seen
      invariant seen == set c | c in classes[..i] && partial <= c :: Candidate(c, partial)
    {
      var class_ := classes[i];
      CandidatesGrow(classes, partial, i);
      if !(partial <= class_) { continue; }
      var candidate := Candidate(class_, partial);
      if candidate !in seen {
        seen := seen + {candidate};
        assert Elements(out + [candidate]) == Elements(out) + {candidate};
        out := out + [candidate];
      }
    }
    assert classes[..|classes|] == classes;
    SortGivesKeys(out);
    out := SortStrings(out);
  }

  lemma CandidatesGrow(classes: seq<string>, partial: string, i: nat)
    requires i < |classes|
    ensures (set c | c in classes[..i + 1] && partial <= c :: Candidate(c, partial)) ==
            (set c | c in classes[..i] && partial <= c :: Candidate(c, partial)) +
            (if partial <= classes[i] then {Candidate(classes[i], partial)} else {})
  {
    assert classes[..i + 1] == classes[..i] + [classes[i]];
  }

  /** A candidate is the class closed with a quote, or a longer part of it. */
  lemma CandidateAdvances(class_: string, partial: string)
    requires partial <= class_
    ensures var c := Candidate(class_, partial);
            partial <= c && |c| > |partial| && (c == class_ + "\"" || c <= class_)
  {
  }

  predicate ColonsAt(s: string, i: int) {
    0 <= i && i + 2 <= |s| && s[i] == ':' && s[i + 1] == ':'
  }

  /** The first :: after what was typed stands at i */
  predicate Cuts(class_: string, partial: string, i: int) {
    |partial| <= i && ColonsAt(class_, i) && forall j :: |partial| <= j < i ==> !ColonsAt(class_, j)
  }

  lemma ColonsMeaning(s: string, n: nat, j: nat)
    requires n + j <= |s|
    ensures "::" <= s[n..][j..] <==> ColonsAt(s, n + j)
  {
    assert s[n..][j..] == s[n + j..];
    if ColonsAt(s, n + j) {
      assert s[n + j..][..2] == "::";
    }
  }

  /** The index found is that of the first ::. */
  lemma IndexCuts(class_: string, partial: string)
    requires |partial| <= |class_|
    ensures var idx := Index(class_[|partial|..], "::");
            if idx >= 0 then Cuts(class_, partial, |partial| + idx)
            else forall i :: |partial| <= i ==> !ColonsAt(class_, i)
  {
    var rest := class_[|partial|..];
    var idx := Index(rest, "::");
    if idx >= 0 { ColonsMeaning(class_, |partial|, idx); }
    forall i | |partial| <= i <= |class_| && (idx < 0 || i < |partial| + idx) ensures !ColonsAt(class_, i) {
      ColonsMeaning(class_, |partial|, i - |partial|);
      assert !("::" <= rest[i - |partial|..]);
    }
  }

  /** A next segment goes up to and including the first :: after what was typed;
      without one it is the whole class and a quote. */
  lemma CandidateMeaning(class_: string, partial: string)
    requires partial <= class_
    ensures forall i :: Cuts(class_, partial, i) ==> Candidate(class_, partial) == class_[..i + 2]
    ensures (forall i :: !Cuts(class_, partial, i)) ==> Candidate(class_, partial) == class_ + "\""
  {
    IndexCuts(class_, partial);
    var idx := Index(class_[|partial|..], "::");
    forall i | Cuts(class_, partial, i) ensures Candidate(class_, partial) == class_[..i + 2] {
      assert ColonsAt(class_, i);
      if idx >= 0 { OneCut(class_, partial, i, |partial| + idx); }
    }
  }

  lemma OneCut(class_: string, partial: string, i: int, j: int)
    requires Cuts(class_, partial, i) && Cuts(class_, partial, j)
    ensures i == j
  {
  }

  lemma ClassCandidatesMeaning(classes: seq<string>, partial: string, out: string)
    ensures out in ClassCandidates(classes, partial) <==>
              exists c :: c in classes && partial <= c && out == Candidate(c, partial)
  {
    var all := set c | c in classes && partial <= c :: Candidate(c, partial);
    assert out in ClassCandidates(classes, partial) <==> out in Elements(ClassCandidates(classes, partial));
    assert out in all <==> exists c :: c in classes && partial <= c && out == Candidate(c, partial);
  }

  lemma ClassCandidatesExtend(classes: seq<string>, partial: string)
    ensures Extend(ClassCandidates(classes, partial), partial)
  {
    var out := ClassCandidates(classes, partial);
    forall i | 0 <= i < |out| ensures partial <= out[i] {
      ClassCandidatesMeaning(classes, partial, out[i]);
      var c :| c in classes && partial <= c && out[i] == Candidate(c, partial);
      CandidateAdvances(c, partial);
    }
  }

  /** Each text is a candidate for the one before, and longer */
  ghost predicate Segments(classes: seq<string>, texts: seq<string>) {
    forall i :: 0 < i < |texts| ==> texts[i] in ClassCandidates(classes, texts[i - 1]) && |texts[i - 1]| < |texts[i]|
  }

  lemma SegmentsGrow(classes: seq<string>, partial: string, rest: seq<string>)
    requires rest != [] && Segments(classes, rest) && rest[0] in ClassCandidates(classes, partial)
        && |partial| < |rest[0]|
    ensures Segments(classes, [partial] + rest)
  {
    var texts := [partial] + rest;
    forall i | 0 < i < |texts|
      ensures texts[i] in ClassCandidates(classes, texts[i - 1]) && |texts[i - 1]| < |texts[i]|
    {
      assert texts[i] == rest[i - 1];
      if i > 1 { assert texts[i - 1] == rest[i - 2]; }
    }
  }

  /** From any prefix of any class, taking the candidate that belongs to it again
      and again ends, and ends with the class and its quote. */
  lemma {:induction false} SegmentsReachClass(classes: seq<string>, partial: string, class_: string)
    returns (texts: seq<string>)
    requires class_ in classes && partial <= class_
    ensures Segments(classes, texts) && |texts| >= 2
    ensures texts[0] == partial && texts[|texts| - 1] == class_ + "\""
    decreases |class_| - |partial|
  {
    var c := Candidate(class_, partial);
    CandidateAdvances(class_, partial);
    ClassCandidatesMeaning(classes, partial, c);
    var rest := [c];
    if c != class_ + "\"" {
      rest := SegmentsReachClass(classes, c, class_);
    }
    SegmentsGrow(classes, partial, rest);
    texts := [partial] + rest;
  }

  // ------------------------------------------------------------- calls

  function TrimQuotesLeft(s: string): string {
    if s != "" && s[0] == '"' then TrimQuotesLeft(s[1..]) else s
  }

  function TrimQuotesRight(s: string): string {
    if s != "" && s[|s| - 1] == '"' then TrimQuotesRight(s[..|s| - 1]) else s
  }

  function Unquoted(fields: seq<string>): seq<string> {
    seq(|fields|, i requires 0 <= i < |fields| => TrimQuotesRight(TrimQuotesLeft(fields[i])))
  }

  /** The function the cursor is inside of, and the arguments it already has */
  function EnclosingCall(s: string): (string, seq<string>) {
    var open := Top(Stack(s));
    if open < 0 || open >= |s| then ("", [])
    else
      var fields := Fields(s[open + 1..]);
      if |fields| == 0 then ("", []) else (fields[0], Unquoted(fields[1..]))
  }

  method FindCall(s: string) returns (fn: string, args: seq<string>)
    ensures (fn, args) == EnclosingCall(s)
  {
    var open := OpenParen(s);
    EnclosingParen(s, open);
    if open < 0 { return "", []; }
    var fields := Fields(s[open + 1..]);
    if |fields| == 0 { return "", []; }
    args := [];
    for i := 1 to |fields|
      invariant args == Unquoted(fields[1..])[..i - 1]
    {
      args := args + [TrimQuotesRight(TrimQuotesLeft(fields[i]))];
    }
    assert Unquoted(fields[1..])[..|fields| - 1] == Unquoted(fields[1..]);
    return fields[0], args;
  }

  // ------------------------------------------------------------- queries

  predicate TokenBreak(c: char) { c == ' ' || c == '\t' || c == '(' || c == ')' || c == '"' || c == '\'' }

  /** Where the symbol under the cursor starts */
  function TokenStart(left: string): (start: nat)
    ensures start <= |left|
  {
    if left == "" || TokenBreak(left[|left| - 1]) then |left| else TokenStart(left[..|left| - 1])
  }

  method FindToken(left: string) returns (start: nat)
    ensures start == TokenStart(left)
  {
    start := |left|;
    assert left[..|left|] == left;
    while start > 0 && !TokenBreak(left[start - 1])
      invariant start <= |left| && TokenStart(left) == TokenStart(left[..start])
    {
      assert left[..start][..start - 1] == left[..start - 1];
      start := start - 1;
    }
  }

  lemma {:induction false} TokenStartMeaning(left: string)
    ensures forall i :: TokenStart(left) <= i < |left| ==> !TokenBreak(left[i])
    ensures TokenStart(left) > 0 ==> TokenBreak(left[TokenStart(left) - 1])
  {
    if left != "" && !TokenBreak(left[|left| - 1]) {
      TokenStartMeaning(left[..|left| - 1]);
    }
  }

  const FACT: string := "fact"
  const CLASS: string := "class"

  ghost function CompleteString(st: CompletionState, head: string, partial: string, fn: string,
      args: seq<string>): Offer {
    if fn == FACT then Offer(head, Closed(Prefixed(Children(st.facts, args), partial), '"'), false)
    else if fn == CLASS then Offer(head, ClassCandidates(st.classes, partial), false)
    else Offer(head, [], false)
  }

  /** The node meta keys as they are written in a query */
  function Percent(names: set<string>): set<string> { set n | n in names :: "%" + n }

  ghost function CompleteSymbol(st: CompletionState, head: string, partial: string): Offer {
    if "%" <= partial then
      Offer(head, Closed(Prefixed(SortedKeys(Percent(st.nodeMeta.Keys)), partial), ' '), false)
    else Offer(head, Closed(Prefixed(st.funcs, partial), ' '), false)
  }

  ghost function CompleteQuery(st: CompletionState, left: string): Offer {
    var start := Scan(left).0;
    if start >= 0 then
      var call := EnclosingCall(left[..start]);
      CompleteString(st, left[..start + 1], left[start + 1..], call.0, call.1)
    else
      var token := TokenStart(left);
      CompleteSymbol(st, left[..token], left[token..])
  }

  // ------------------------------------------------------------- meta commands

  const SAVE: string := "save"
  const LOAD: string := "load"

  function Paths(st: CompletionState, head: string, partial: string): Offer {
    match st.files
    case None => Offer(head, [], true)
    case Some(f) => Offer(head, f(partial), true)
  }

  /** The arguments of a known command; partial is the word under the cursor */
  ghost function CompleteArgs(st: CompletionState, kind: MetaKind, left: string, fields: seq<string>,
      partial: string): Offer
    requires |partial| <= |left| && |fields| >= 1
  {
    var head := left[..|left| - |partial|];
    match kind
    case MetaSnapshot =>
      if |fields| > 1 && (fields[1] == SAVE || fields[1] == LOAD) && (|fields| > 2 || EndsBlank(left))
      then Paths(st, head, partial)
      else Offer(head, Closed(Prefixed([SAVE, LOAD] + st.nodes, partial), ' '), false)
    case MetaLocal => Paths(st, head, partial)
    case MetaOut => Offer(head, Closed(Prefixed(st.formats, partial), ' '), false)
    case MetaFact => Offer(head, Closed(Prefixed(Children(st.facts, []), partial), ' '), false)
    case MetaClass => Offer(head, Closed(Prefixed(st.classes, partial), ' '), false)
    case MetaOther => Offer(head, [], false)
  }

  predicate HasBlank(s: string) { exists i :: 0 <= i < |s| && Blank(s[i]) }

  /** The word under the cursor, empty while the command itself is the last one */
  function Partial(left: string, fields: seq<string>): string {
    if !EndsBlank(left) && |fields| > 1 then fields[|fields| - 1] else ""
  }

  lemma PartialIsSuffix(left: string, rest: string)
    requires |rest| <= |left| && rest == left[|left| - |rest|..] && rest != ""
    ensures var p := Partial(left, Fields(rest)); |p| <= |left| && p == left[|left| - |p|..]
  {
    if !EndsBlank(left) {
      assert left[|left| - 1] == rest[|rest| - 1];
      LastFieldIsSuffix(rest);
    }
  }

  /** completeMeta with rest the text after the colon */
  ghost function MetaOffer(st: CompletionState, left: string, rest: string): Offer
    requires |rest| <= |left| && rest == left[|left| - |rest|..]
  {
    if !HasBlank(rest) then Offer(left[..|left| - |rest|], Closed(Prefixed(st.meta, rest), ' '), false)
    else
      var fields := Fields(rest);
      if |fields| == 0 then Panics
      else
        match st.lookup(fields[0])
        case None => Offer(left, [], false)
        case Some(kind) =>
          PartialIsSuffix(left, rest);
          CompleteArgs(st, kind, left, fields, Partial(left, fields))
  }

  ghost function CompleteMeta(st: CompletionState, left: string): Offer
    requires Index(left, ":") >= 0
  {
    MetaOffer(st, left, left[Index(left, ":") + 1..])
  }

  // ------------------------------------------------------------- Complete

  function Clamp(pos: int, n: nat): nat {
    if pos < 0 then 0 else if pos > n then n else pos
  }

  predicate IsMeta(left: string) {
    var t := TrimBlanksLeft(left);
    t != "" && t[0] == ':'
  }

  lemma {:induction false} MetaHasColon(left: string)
    requires IsMeta(left)
    ensures Index(left, ":") >= 0
    ensures AllBlank(left[..Index(left, ":")])
  {
    if Blank(left[0]) {
      MetaHasColon(left[1..]);
      var n := Index(left[1..], ":");
      assert !(":" <= left);
      assert Index(left, ":") == n + 1;
      BlankFirst(left, n);
    } else {
      assert ":" <= left;
    }
  }

  lemma BlankFirst(s: string, n: nat)
    requires n < |s| && Blank(s[0]) && AllBlank(s[1..][..n])
    ensures AllBlank(s[..n + 1])
  {
    assert s[..n + 1] == [s[0]] + s[1..][..n];
  }

  /** The dispatch on what is left of the cursor */
  ghost function OfferFor(st: CompletionState, left: string): Offer {
    if IsMeta(left) then MetaHasColon(left); CompleteMeta(st, left) else CompleteQuery(st, left)
  }

  ghost function Complete(st: CompletionState, line: string, pos: int): (Offer, string) {
    var p := Clamp(pos, |line|);
    (OfferFor(st, line[..p]), line[p..])
  }

  // ------------------------------------------------------------- the loops

  /** quoteAll or spaceAll of withPrefix */
  method Offered(candidates: seq<string>, partial: string, with: char) returns (out: seq<string>)
    ensures out == Closed(Prefixed(candidates, partial), with)
  {
    var kept := WithPrefix(candidates, partial);
    out := [];
    for i := 0 to |kept|
      invariant out == Closed(kept, with)[..i]
    {
      out := out + [kept[i] + [with]];
    }
  }

  method PercentKeys(nodeMeta: map<string, Value>) returns (keys: seq<string>)
    ensures keys == SortedKeys(Percent(nodeMeta.Keys))
  {
    keys := [];
    var left := nodeMeta.Keys;
    ghost var done: set<string> := {};
    while left != {}
      invariant done !! left && done + left == nodeMeta.Keys
      invariant Distinct(keys) && Elements(keys) == Percent(done)
      decreases |left|
    {
      var k :| k in left;
      PercentGrows(done, k);
      NewElement(keys, "%" + k);
      keys := keys + ["%" + k];
      left, done := left - {k}, done + {k};
    }
    assert done == nodeMeta.Keys;
    SortGivesKeys(keys);
    keys := SortStrings(keys);
  }

  lemma PercentGrows(names: set<string>, k: string)
    requires k !in names
    ensures "%" + k !in Percent(names) && Percent(names + {k}) == Percent(names) + {"%" + k}
  {
    forall n | n in names ensures "%" + n != "%" + k {
      assert ("%" + n)[1..] == n && ("%" + k)[1..] == k;
    }
  }

  lemma NewElement(ss: seq<string>, x: string)
    requires Distinct(ss) && x !in Elements(ss)
    ensures Distinct(ss + [x]) && Elements(ss + [x]) == Elements(ss) + {x}
  {
  }

  method StringCandidates(st: CompletionState, head: string, partial: string, fn: string, args: seq<string>)
    returns (offer: Offer)
    ensures offer == CompleteString(st, head, partial, fn, args)
  {
    var out := [];
    if fn == FACT {
      var children := FactChildren(st.facts, args);
      out := Offered(children, partial, '"');
    } else if fn == CLASS {
      out := CompleteClass(st.classes, partial);
    }
    return Offer(head, out, false);
  }

  method SymbolCandidates(st: CompletionState, head: string, partial: string) returns (offer: Offer)
    ensures offer == CompleteSymbol(st, head, partial)
  {
    var names := st.funcs;
    if "%" <= partial { names := PercentKeys(st.nodeMeta); }
    var out := Offered(names, partial, ' ');
    return Offer(head, out, false);
  }

  lemma QuerySplits(st: CompletionState, left: string, call: (string, seq<string>))
    ensures Scan(left).0 >= 0 && call == EnclosingCall(left[..Scan(left).0]) ==>
              CompleteQuery(st, left) ==
              CompleteString(st, left[..Scan(left).0 + 1], left[Scan(left).0 + 1..], call.0, call.1)
    ensures Scan(left).0 < 0 ==>
              CompleteQuery(st, left) == CompleteSymbol(st, left[..TokenStart(left)], left[TokenStart(left)..])
  {
  }

  method QueryCandidates(st: CompletionState, left: string) returns (offer: Offer)
    ensures offer == CompleteQuery(st, left)
  {
    var start, inside := StringStart(left);
    if inside {
      var fn, args := FindCall(left[..start]);
      QuerySplits(st, left, (fn, args));
      offer := StringCandidates(st, left[..start + 1], left[start + 1..], fn, args);
    } else {
      var token := FindToken(left);
      QuerySplits(st, left, ("", []));
      offer := SymbolCandidates(st, left[..token], left[token..]);
    }
  }

  method ArgCandidates(st: CompletionState, kind: MetaKind, left: string, fields: seq<string>, partial: string)
    returns (offer: Offer)
    requires |partial| <= |left| && |fields| >= 1
    ensures offer == CompleteArgs(st, kind, left, fields, partial)
  {
    var head := left[..|left| - |partial|];
    var out := [];
    match kind {
      case MetaSnapshot =>
        if |fields| > 1 && (fields[1] == SAVE || fields[1] == LOAD) {
          if |fields| > 2 || EndsBlank(left) { return Paths(st, head, partial); }
        }
        out := Offered([SAVE, LOAD] + st.nodes, partial, ' ');
      case MetaLocal => return Paths(st, head, partial);
      case MetaOut => out := Offered(st.formats, partial, ' ');
      case MetaFact =>
        var children := FactChildren(st.facts, []);
        out := Offered(children, partial, ' ');
      case MetaClass => out := Offered(st.classes, partial, ' ');
      case MetaOther =>
    }
    return Offer(head, out, false);
  }

  method MetaCandidates(st: CompletionState, left: string) returns (offer: Offer)
    requires Index(left, ":") >= 0
    ensures offer == CompleteMeta(st, left)
  {
    var colon := Index(left, ":");
    var rest := left[colon + 1..];
    if !HasBlank(rest) {
      var out := Offered(st.meta, rest, ' ');
      return Offer(left[..colon + 1], out, false);
    }
    var fields := Fields(rest);
    if |fields| == 0 { return Panics; }
    var cmd := st.lookup(fields[0]);
    if cmd.None? { return Offer(left, [], false); }
    PartialIsSuffix(left, rest);
    offer := ArgCandidates(st, cmd.value, left, fields, Partial(left, fields));
  }

  /** The whole completer, loops and all */
  method CompleteLine(st: CompletionState, line: string, pos: int) returns (offer: Offer, tail: string)
    ensures (offer, tail) == Complete(st, line, pos)
  {
    var p := Clamp(pos, |line|);
    var left := line[..p];
    tail := line[p..];
    if IsMeta(left) {
      MetaHasColon(left);
      offer := MetaCandidates(st, left);
    } else {
      offer := QueryCandidates(st, left);
    }
  }

  /** The head is part of the typed text, and every candidate continues what is
      left of it */
  ghost predicate Continues(offer: Offer, left: string) {
    offer.Offer? && offer.head <= left &&
    (!offer.fromFiles ==> forall i :: 0 <= i < |offer.candidates| ==> left <= offer.head + offer.candidates[i])
  }

  lemma ContinuesAfter(offer: Offer, head: string, partial: string)
    requires offer.Offer? && offer.head == head && (!offer.fromFiles ==> Extend(offer.candidates, partial))
    ensures Continues(offer, head + partial)
  {
  }

  lemma StringContinues(st: CompletionState, head: string, partial: string, fn: string, args: seq<string>)
    ensures Continues(CompleteString(st, head, partial, fn, args), head + partial)
  {
    ClosedPrefixedExtend(Children(st.facts, args), partial, '"');
    ClassCandidatesExtend(st.classes, partial);
    ContinuesAfter(CompleteString(st, head, partial, fn, args), head, partial);
  }

  lemma SymbolContinues(st: CompletionState, head: string, partial: string)
    ensures Continues(CompleteSymbol(st, head, partial), head + partial)
  {
    ClosedPrefixedExtend(SortedKeys(Percent(st.nodeMeta.Keys)), partial, ' ');
    ClosedPrefixedExtend(st.funcs, partial, ' ');
    ContinuesAfter(CompleteSymbol(st, head, partial), head, partial);
  }

  lemma QueryContinues(st: CompletionState, left: string)
    ensures Continues(CompleteQuery(st, left), left)
  {
    var start, token := Scan(left).0, TokenStart(left);
    if start >= 0 {
      var call := EnclosingCall(left[..start]);
      LiteralContinues(st, left, start, call.0, call.1);
    } else {
      SymbolContinues(st, left[..token], left[token..]);
      assert left == left[..token] + left[token..];
    }
  }

  lemma LiteralContinues(st: CompletionState, left: string, start: nat, fn: string, args: seq<string>)
    requires start < |left|
    ensures Continues(CompleteString(st, left[..start + 1], left[start + 1..], fn, args), left)
  {
    StringContinues(st, left[..start + 1], left[start + 1..], fn, args);
    assert left == left[..start + 1] + left[start + 1..];
  }

  lemma ArgsContinue(st: CompletionState, kind: MetaKind, left: string, fields: seq<string>, partial: string)
    requires |partial| <= |left| && partial == left[|left| - |partial|..] && |fields| >= 1
    ensures Continues(CompleteArgs(st, kind, left, fields, partial), left)
  {
    var offer, head := CompleteArgs(st, kind, left, fields, partial), left[..|left| - |partial|];
    ClosedPrefixedExtend([SAVE, LOAD] + st.nodes, partial, ' ');
    ClosedPrefixedExtend(st.formats, partial, ' ');
    ClosedPrefixedExtend(Children(st.facts, []), partial, ' ');
    ClosedPrefixedExtend(st.classes, partial, ' ');
    ContinuesAfter(offer, head, partial);
    assert left == head + partial;
  }

  lemma NameContinues(st: CompletionState, head: string, rest: string)
    ensures Continues(Offer(head, Closed(Prefixed(st.meta, rest), ' '), false), head + rest)
  {
    ClosedPrefixedExtend(st.meta, rest, ' ');
    ContinuesAfter(Offer(head, Closed(Prefixed(st.meta, rest), ' '), false), head, rest);
  }

  lemma MetaContinues(st: CompletionState, left: string, rest: string)
    requires |rest| <= |left| && rest == left[|left| - |rest|..]
    ensures MetaOffer(st, left, rest).Panics? || Continues(MetaOffer(st, left, rest), left)
  {
    var head := left[..|left| - |rest|];
    if !HasBlank(rest) {
      NameContinues(st, head, rest);
      assert left == head + rest;
    } else {
      var fields := Fields(rest);
      if |fields| > 0 && st.lookup(fields[0]).Some? {
        PartialIsSuffix(left, rest);
        ArgsContinue(st, st.lookup(fields[0]).value, left, fields, Partial(left, fields));
      }
    }
  }

  lemma OfferContinues(st: CompletionState, left: string)
    ensures OfferFor(st, left).Panics? || Continues(OfferFor(st, left), left)
  {
    if IsMeta(left) {
      MetaHasColon(left);
      MetaContinues(st, left, left[Index(left, ":") + 1..]);
    } else {
      QueryContinues(st, left);
    }
  }

  /** Completing never alters typed text: head, typed rest and tail make up the
      line, and every candidate not from the filesystem keeps what was typed. */
  lemma CompleteKeepsText(st: CompletionState, line: string, pos: int)
    ensures line[..Clamp(pos, |line|)] + Complete(st, line, pos).1 == line
    ensures Complete(st, line, pos).1 == if pos <= 0 then line else if pos >= |line| then "" else line[pos..]
    ensures Complete(st, line, pos).0.Panics? || Continues(Complete(st, line, pos).0, line[..Clamp(pos, |line|)])
  {
    OfferContinues(st, line[..Clamp(pos, |line|)]);
  }

  /** Blanks, a colon, more blanks, and nothing else */
  predicate BareColon(left: string, colon: int) {
    0 <= colon < |left| - 1 && left[colon] == ':' && AllBlank(left[..colon]) && AllBlank(left[colon + 1..])
  }

  lemma OneColon(left: string, c: nat, colon: nat)
    requires c < |left| && colon < |left| && left[c] == ':' && left[colon] == ':'
    requires AllBlank(left[..c]) && AllBlank(left[..colon])
    ensures c == colon
  {
    assert forall i :: 0 <= i < c ==> left[i] == left[..c][i];
    assert forall i :: 0 <= i < colon ==> left[i] == left[..colon][i];
  }

  lemma MetaPanics(st: CompletionState, left: string, colon: nat)
    requires colon < |left| && left[colon] == ':' && AllBlank(left[..colon])
    ensures MetaOffer(st, left, left[colon + 1..]).Panics? <==> exists c :: BareColon(left, c)
  {
    var rest := left[colon + 1..];
    FieldsEmpty(rest);
    MetaContinues(st, left, rest);
    if MetaOffer(st, left, rest).Panics? {
      assert HasBlank(rest) && AllBlank(rest) && BareColon(left, colon);
    }
    if c :| BareColon(left, c) {
      OneColon(left, c, colon);
      assert Blank(rest[0]);
    }
  }

  /** It fails on exactly the lines with a colon, then blanks, and nothing else
      left of the cursor. */
  lemma PanicsOnBareColon(st: CompletionState, line: string, pos: int)
    ensures Complete(st, line, pos).0.Panics? <==> exists colon :: BareColon(line[..Clamp(pos, |line|)], colon)
  {
    OfferPanics(st, line[..Clamp(pos, |line|)]);
  }

  lemma OfferPanics(st: CompletionState, left: string)
    ensures OfferFor(st, left).Panics? <==> exists colon :: BareColon(left, colon)
  {
    if IsMeta(left) {
      MetaHasColon(left);
      var colon := Index(left, ":");
      assert left[colon] == left[colon..][0] == ':';
      MetaPanics(st, left, colon);
    } else {
      QueryContinues(st, left);
      forall c ensures !BareColon(left, c) {
        if BareColon(left, c) { BlankThenColon(left, c); }
      }
    }
  }

  lemma {:induction false} BlankThenColon(left: string, c: nat)
    requires c < |left| && left[c] == ':' && AllBlank(left[..c])
    ensures IsMeta(left)
  {
    if c > 0 {
      assert Blank(left[..c][0]);
      assert left[1..][..c - 1] == left[..c][1..];
      BlankThenColon(left[1..], c - 1);
    }
  }

  // ------------------------------------------------------------- completeRunes

  /** What the line editor gets: every candidate without its first typed
      characters, shorter ones dropped */
  function Suffixes(candidates: seq<string>, typed: nat): seq<string> {
    if candidates == [] then []
    else
      var init, c := candidates[..|candidates| - 1], candidates[|candidates| - 1];
      Suffixes(init, typed) + if |c| < typed then [] else [c[typed..]]
  }

  method CompleteRunes(st: CompletionState, line: string, pos: int) returns (out: seq<string>, typed: int, panics: bool)
    ensures var offer := Complete(st, line, pos).0;
            && (panics <==> offer.Panics?)
            && (!panics && pos < |offer.head| ==> out == [] && typed == 0)
            && (!panics && pos >= |offer.head| ==>
                typed == pos - |offer.head| && out == Suffixes(offer.candidates, typed))
  {
    var offer, _ := CompleteLine(st, line, pos);
    out, typed := [], 0;
    if offer.Panics? { return [], 0, true; }
    typed := pos - |offer.head|;
    if typed < 0 { return [], 0, false; }
    for i := 0 to |offer.candidates|
      invariant out == Suffixes(offer.candidates[..i], typed)
    {
      assert offer.candidates[..i + 1][..i] == offer.candidates[..i];
      var candidate := offer.candidates[i];
      if |candidate| < typed { continue; }
      out := out + [candidate[typed..]];
    }
    assert offer.candidates[..|offer.candidates|] == offer.candidates;
    return out, typed, false;
  }

  lemma {:induction false} NoneDropped(candidates: seq<string>, typed: nat)
    requires forall i :: 0 <= i < |candidates| ==> |candidates[i]| >= typed
    ensures |Suffixes(candidates, typed)| == |candidates|
    ensures forall i :: 0 <= i < |candidates| ==> Suffixes(candidates, typed)[i] == candidates[i][typed..]
  {
    if candidates != [] {
      NoneDropped(candidates[..|candidates| - 1], typed);
    }
  }

  /** No candidate is dropped, and each suffix typed after left gives the line
      that was offered */
  ghost predicate Rebuilds(offer: Offer, left: string) {
    offer.Offer? && |offer.head| <= |left| &&
    var out := Suffixes(offer.candidates, |left| - |offer.head|);
    |out| == |offer.candidates| && forall i :: 0 <= i < |out| ==> left + out[i] == offer.head + offer.candidates[i]
  }

  lemma SuffixesRebuild(offer: Offer, left: string)
    requires Continues(offer, left) && !offer.fromFiles
    ensures Rebuilds(offer, left)
  {
    forall i | 0 <= i < |offer.candidates|
      ensures |offer.candidates[i]| >= |left| - |offer.head|
      ensures left + offer.candidates[i][|left| - |offer.head|..] == offer.head + offer.candidates[i]
    {
      SuffixCompletes(left, offer.head, offer.candidates[i]);
    }
    NoneDropped(offer.candidates, |left| - |offer.head|);
  }

  /** For every line and every position on it, filesystem candidates aside. */
  lemma SuffixesRebuildLine(st: CompletionState, line: string, pos: nat)
    requires pos <= |line|
    ensures var offer := Complete(st, line, pos).0;
            offer.Panics? || offer.fromFiles || Rebuilds(offer, line[..pos])
  {
    var offer := Complete(st, line, pos).0;
    OfferContinues(st, line[..pos]);
    if offer.Offer? && !offer.fromFiles { SuffixesRebuild(offer, line[..pos]); }
  }

  lemma SuffixCompletes(left: string, head: string, candidate: string)
    requires head <= left && left <= head + candidate
    ensures |candidate| >= |left| - |head| && left + candidate[|left| - |head|..] == head + candidate
  {
    var typed := |left| - |head|;
    assert left == (head + candidate)[..|left|];
    assert candidate == candidate[..typed] + candidate[typed..];
    assert left == head + candidate[..typed];
  }

  // ------------------------------------------------------------- meaning

  /** Both walkers find something at path */
  ghost predicate Resolves(facts: map<string, Value>, path: seq<string>) {
    Walk(Object(facts), path).Some? && !WalkOverruns(Object(facts), path)
  }

  /** One accepted completion at the end of the line */
  ghost predicate Accepts(st: CompletionState, before: string, after: string) {
    var offer := Complete(st, before, |before|).0;
    offer.Offer? && exists i :: 0 <= i < |offer.candidates| && after == offer.head + offer.candidates[i]
  }

  /** A line that is typing a class name, and which */
  ghost predicate TypingClass(line: string, start: nat, partial: string) {
    && start < |line| && line == line[..start + 1] + partial && Plain(partial)
    && !IsMeta(line) && Scan(line).0 == start && EnclosingCall(line[..start]).0 == "class"
  }

  lemma {:induction false} MetaIsDecidedEarly(head: string, a: string, b: string)
    requires !AllBlank(head)
    ensures IsMeta(head + a) <==> IsMeta(head + b)
  {
    if head != "" && Blank(head[0]) {
      var h := head[1..];
      assert !AllBlank(h);
      MetaIsDecidedEarly(h, a, b);
      assert (head + a)[1..] == h + a && (head + b)[1..] == h + b;
    }
  }

  lemma StillTyping(line: string, start: nat, partial: string, more: string)
    requires TypingClass(line, start, partial) && Plain(more)
    ensures TypingClass(line[..start + 1] + more, start, more)
  {
    StringStartMeaning(line);
    var head := line[..start + 1];
    var next := head + more;
    PlainKeepsStart(head, partial);
    PlainKeepsStart(head, more);
    assert head[start] == '"';
    MetaIsDecidedEarly(head, partial, more);
    assert next[..start] == line[..start] && next[..start + 1] == head;
  }

  lemma ClassOffered(st: CompletionState, line: string, start: nat, partial: string, class_: string)
    requires TypingClass(line, start, partial) && class_ in st.classes && partial <= class_
    ensures Accepts(st, line, line[..start + 1] + Candidate(class_, partial))
  {
    assert line[..|line|] == line;
    var offer := Complete(st, line, |line|).0;
    assert line[start + 1..] == partial;
    assert offer == Offer(line[..start + 1], ClassCandidates(st.classes, partial), false);
    ClassCandidatesMeaning(st.classes, partial, Candidate(class_, partial));
    var i :| 0 <= i < |offer.candidates| && offer.candidates[i] == Candidate(class_, partial);
  }

  /** Every line is the one before with a completion accepted, and longer */
  ghost predicate Chain(st: CompletionState, lines: seq<string>) {
    forall i :: 0 < i < |lines| ==> Accepts(st, lines[i - 1], lines[i]) && |lines[i - 1]| < |lines[i]|
  }

  lemma ChainGrows(st: CompletionState, line: string, rest: seq<string>)
    requires rest != [] && Chain(st, rest) && Accepts(st, line, rest[0]) && |line| < |rest[0]|
    ensures Chain(st, [line] + rest)
  {
    var lines := [line] + rest;
    forall i | 0 < i < |lines| ensures Accepts(st, lines[i - 1], lines[i]) && |lines[i - 1]| < |lines[i]| {
      assert lines[i] == rest[i - 1];
      if i > 1 { assert lines[i - 1] == rest[i - 2]; }
    }
  }

  /** One more segment: the line grows, and the class is done or still being
      typed. */
  lemma ClassStep(st: CompletionState, line: string, start: nat, partial: string, class_: string)
    requires TypingClass(line, start, partial)
    requires class_ in st.classes && partial <= class_ && Plain(class_)
    ensures var head, c := line[..start + 1], Candidate(class_, partial);
            && Accepts(st, line, head + c) && |line| < |head + c| && |partial| < |c|
            && (c != class_ + "\"" ==>
                c <= class_ && TypingClass(head + c, start, c) && (head + c)[..start + 1] == head)
  {
    var head, c := line[..start + 1], Candidate(class_, partial);
    CandidateAdvances(class_, partial);
    ClassOffered(st, line, start, partial, class_);
    assert |line| == |head| + |partial|;
    if c != class_ + "\"" {
      assert c == class_[..|c|];
      StillTyping(line, start, partial, c);
    }
  }

  /** Completing segment by segment reaches every class: from any typed prefix of
      a class there is a sequence of accepted completions that ends with the whole
      class and its closing quote. */
  lemma {:induction false} EveryClassIsReachable(st: CompletionState, line: string, start: nat, partial: string,
      class_: string)
    returns (lines: seq<string>)
    requires TypingClass(line, start, partial)
    requires class_ in st.classes && partial <= class_ && Plain(class_)
    ensures Chain(st, lines) && |lines| >= 2
    ensures lines[0] == line && lines[|lines| - 1] == line[..start + 1] + (class_ + "\"")
    decreases |class_| - |partial|
  {
    var head, c := line[..start + 1], Candidate(class_, partial);
    ClassStep(st, line, start, partial, class_);
    var rest := [head + c];
    if c != class_ + "\"" {
      rest := EveryClassIsReachable(st, head + c, start, c, class_);
    }
    ChainGrows(st, line, rest);
    lines := [line] + rest;
  }
}
