/** What is offered on a line that is not inside a literal, said over the line: meta
    commands, their arguments, and the symbols of a query
    (query/repl/complete.go:74-114, 130-145). */
module MetaLines {
  import opened Text
  import opened Facts
  import opened Scanners
  import opened Completion
  import opened FactCalls

  // ------------------------------------------------------------- the line

  /** The first colon is the one behind the blanks. */
  lemma MetaLine(before: string, rest: string)
    requires AllBlank(before)
    ensures var line := before + ":" + rest;
            IsMeta(line) && Index(line, ":") == |before| && line[|before| + 1..] == rest
  {
    var line := before + ":" + rest;
    assert line[..|before|] == before && line[|before|] == ':';
    BlankThenColon(line, |before|);
    MetaHasColon(line);
    var n := Index(line, ":");
    assert line[n..][0] == ':';
    OneColon(line, n, |before|);
  }

  /** The word under the cursor as a field, if there is one */
  function Word(partial: string): seq<string> {
    if partial == "" then [] else [partial]
  }

  lemma WordFields(partial: string)
    requires Solid(partial)
    ensures Fields(partial) == Word(partial)
  {
    if partial != "" { FieldsOfSolid(partial); }
  }

  /** A gap of the line: nothing, or text that ends in a blank */
  predicate Gap(mid: string) { mid == "" || EndsBlank(mid) }

  lemma GapFields(mid: string, partial: string)
    requires Gap(mid) && Solid(partial)
    ensures Fields(mid + partial) == Fields(mid) + Word(partial)
  {
    WordFields(partial);
    if mid == "" {
      assert mid + partial == partial;
    } else {
      var m, b := mid[..|mid| - 1], mid[|mid| - 1];
      LastOff(mid);
      FieldsApart(m, b, partial);
      FieldsStep(m, b);
    }
  }

  lemma LastOff(s: string)
    requires s != ""
    ensures s == s[..|s| - 1] + [s[|s| - 1]]
  {
  }

  /** A command, what stands behind it so far, and the word under the cursor */
  function Behind(cmd: string, b: char, mid: string, partial: string): string {
    cmd + [b] + (mid + partial)
  }

  lemma BehindFields(cmd: string, b: char, mid: string, partial: string)
    requires cmd != "" && Solid(cmd) && Blank(b) && Gap(mid) && Solid(partial)
    ensures Fields(Behind(cmd, b, mid, partial)) == [cmd] + Fields(mid) + Word(partial)
  {
    FieldsApart(cmd, b, mid + partial);
    FieldsOfSolid(cmd);
    GapFields(mid, partial);
  }

  lemma BehindEnds(before: string, cmd: string, b: char, mid: string, partial: string)
    requires Blank(b) && Gap(mid) && Solid(partial)
    ensures var rest := Behind(cmd, b, mid, partial);
            var line := before + ":" + rest;
            && HasBlank(rest) && |partial| < |rest| && (EndsBlank(line) <==> partial == "")
            && line[|line| - |partial|..] == partial
            && line[..|line| - |partial|] == before + ":" + cmd + [b] + mid
  {
    var rest := Behind(cmd, b, mid, partial);
    assert rest[|cmd|] == b;
    var line := before + ":" + rest;
    assert line == before + ":" + cmd + [b] + mid + partial;
  }

  // ------------------------------------------------------------- what is offered

  /** The names a command takes as arguments */
  ghost predicate Takes(st: CompletionState, kind: MetaKind, name: string) {
    match kind
    case MetaSnapshot => name == "save" || name == "load" || name in st.nodes
    case MetaLocal => false
    case MetaOut => name in st.formats
    case MetaFact => name in st.facts
    case MetaClass => name in st.classes
    case MetaOther => false
  }

  /** Where a path is completed instead */
  predicate TakesPath(kind: MetaKind, mid: string) {
    || kind.MetaLocal?
    || (kind.MetaSnapshot? && Fields(mid) != [] && (Fields(mid)[0] == "save" || Fields(mid)[0] == "load"))
  }

  lemma NamesMeaning(st: CompletionState, kind: MetaKind, partial: string, names: seq<string>, candidate: string)
    requires forall n :: n in names <==> Takes(st, kind, n)
    ensures candidate in Closed(Prefixed(names, partial), ' ') <==>
              exists n :: Takes(st, kind, n) && partial <= n && candidate == n + " "
  {
    ClosedMeaning(names, partial, ' ', candidate);
  }

  lemma ArgsMeaning(st: CompletionState, kind: MetaKind, left: string, cmd: string, mid: string, partial: string,
      candidate: string)
    requires |partial| <= |left| && (EndsBlank(left) <==> partial == "") && Solid(partial)
    ensures var offer := CompleteArgs(st, kind, left, [cmd] + Fields(mid) + Word(partial), partial);
            && offer.Offer? && offer.head == left[..|left| - |partial|]
            && if TakesPath(kind, mid) then
                 offer.fromFiles && offer.candidates == if st.files.Some? then st.files.value(partial) else []
               else
                 && !offer.fromFiles
                 && (candidate in offer.candidates <==>
                       exists n :: Takes(st, kind, n) && partial <= n && candidate == n + " ")
  {
    match kind
    case MetaSnapshot =>
      SnapshotPath(left, cmd, mid, partial);
      NamesMeaning(st, kind, partial, [SAVE, LOAD] + st.nodes, candidate);
    case MetaLocal =>
    case MetaOut => NamesMeaning(st, kind, partial, st.formats, candidate);
    case MetaFact =>
      FactNames(st.facts);
      NamesMeaning(st, kind, partial, Children(st.facts, []), candidate);
    case MetaClass => NamesMeaning(st, kind, partial, st.classes, candidate);
    case MetaOther =>
  }

  /** save or load is behind the cursor's word exactly if the gap begins with it. */
  lemma SnapshotPath(left: string, cmd: string, mid: string, partial: string)
    requires EndsBlank(left) <==> partial == ""
    ensures var fields := [cmd] + Fields(mid) + Word(partial);
            (|fields| > 1 && (fields[1] == SAVE || fields[1] == LOAD) && (|fields| > 2 || EndsBlank(left))) <==>
              TakesPath(MetaSnapshot, mid)
  {
    var fields := [cmd] + Fields(mid) + Word(partial);
    if Fields(mid) != [] { assert fields[1] == Fields(mid)[0]; }
  }

  lemma FactNames(facts: map<string, Value>)
    ensures forall n :: n in Children(facts, []) <==> n in facts
  {
    forall n ensures n in Children(facts, []) <==> n in facts {
      assert n in Elements(SortedKeys(facts.Keys)) <==> n in facts.Keys;
    }
  }

  /** Behind a command the completer offers exactly the names it takes that go on
      from the word under the cursor, with a blank: facts for :fact, classes for
      :class, formats for :out, save, load and the nodes for :snapshot, nothing
      for the others; and paths for :local and behind save and load. */
  lemma ArgumentOffers(st: CompletionState, before: string, cmd: string, b: char, mid: string, partial: string,
      kind: MetaKind, candidate: string)
    requires AllBlank(before) && cmd != "" && Solid(cmd) && Blank(b) && Gap(mid) && Solid(partial)
    requires st.lookup(cmd) == Some(kind)
    ensures var line := before + ":" + Behind(cmd, b, mid, partial);
            var offer := Complete(st, line, |line|).0;
            && offer.Offer? && offer.head == before + ":" + cmd + [b] + mid
            && if TakesPath(kind, mid) then
                 offer.fromFiles && offer.candidates == if st.files.Some? then st.files.value(partial) else []
               else
                 && !offer.fromFiles
                 && (candidate in offer.candidates <==>
                       exists n :: Takes(st, kind, n) && partial <= n && candidate == n + " ")
  {
    var line := before + ":" + Behind(cmd, b, mid, partial);
    assert line[..|line|] == line;
    BehindEnds(before, cmd, b, mid, partial);
    CommandLine(st, before, cmd, b, mid, partial, kind);
    ArgsMeaning(st, kind, line, cmd, mid, partial, candidate);
  }

  lemma CommandLine(st: CompletionState, before: string, cmd: string, b: char, mid: string, partial: string,
      kind: MetaKind)
    requires AllBlank(before) && cmd != "" && Solid(cmd) && Blank(b) && Gap(mid) && Solid(partial)
    requires st.lookup(cmd) == Some(kind)
    ensures var line := before + ":" + Behind(cmd, b, mid, partial);
            && |partial| <= |line|
            && OfferFor(st, line) == CompleteArgs(st, kind, line, [cmd] + Fields(mid) + Word(partial), partial)
  {
    var rest := Behind(cmd, b, mid, partial);
    MetaLine(before, rest);
    BehindFields(cmd, b, mid, partial);
    BehindEnds(before, cmd, b, mid, partial);
    CommandOffer(st, before + ":" + rest, rest, kind, [cmd] + Fields(mid) + Word(partial), partial);
  }

  /** The completer goes by the fields, and takes the last for the word. */
  lemma CommandOffer(st: CompletionState, line: string, rest: string, kind: MetaKind, fields: seq<string>,
      partial: string)
    requires IsMeta(line) && Index(line, ":") >= 0 && line[Index(line, ":") + 1..] == rest
    requires HasBlank(rest) && Fields(rest) == fields && |fields| >= 1 && st.lookup(fields[0]) == Some(kind)
    requires |partial| <= |line| && (EndsBlank(line) <==> partial == "")
    requires partial != "" ==> |fields| > 1 && fields[|fields| - 1] == partial
    ensures OfferFor(st, line) == CompleteArgs(st, kind, line, fields, partial)
  {
    assert Partial(line, fields) == partial;
  }

  /** While the command itself is typed, exactly the commands that go on from it. */
  lemma CommandOffers(st: CompletionState, before: string, partial: string, candidate: string)
    requires AllBlank(before) && Solid(partial)
    ensures var line := before + ":" + partial;
            var offer := Complete(st, line, |line|).0;
            && offer.Offer? && !offer.fromFiles && offer.head == before + ":"
            && (candidate in offer.candidates <==>
                  exists n :: n in st.meta && partial <= n && candidate == n + " ")
  {
    var line := before + ":" + partial;
    assert line[..|line|] == line;
    MetaLine(before, partial);
    ClosedMeaning(st.meta, partial, ' ', candidate);
    assert !HasBlank(partial);
    assert line[..|line| - |partial|] == before + ":";
  }

  /** A command it does not know is left alone. */
  lemma UnknownOffersNothing(st: CompletionState, before: string, cmd: string, b: char, mid: string, partial: string)
    requires AllBlank(before) && cmd != "" && Solid(cmd) && Blank(b) && Gap(mid) && Solid(partial)
    requires st.lookup(cmd) == None
    ensures var line := before + ":" + Behind(cmd, b, mid, partial);
            Complete(st, line, |line|).0 == Offer(line, [], false)
  {
    var rest := Behind(cmd, b, mid, partial);
    var line := before + ":" + rest;
    assert line[..|line|] == line;
    MetaLine(before, rest);
    BehindFields(cmd, b, mid, partial);
    BehindEnds(before, cmd, b, mid, partial);
  }

  // ------------------------------------------------------------- symbols

  /** The characters a symbol ends at */
  predicate Ends(c: char) { c in " \t()\"'" }

  predicate NoEnd(s: string) {
    forall i :: 0 <= i < |s| ==> !Ends(s[i])
  }

  lemma {:induction false} TokenAt(head: string, partial: string)
    requires NoEnd(partial) && (head == "" || Ends(head[|head| - 1]))
    ensures TokenStart(head + partial) == |head|
  {
    if partial == "" {
      assert head + partial == head;
    } else {
      var left := head + partial;
      TokenAt(head, partial[..|partial| - 1]);
      assert left[..|left| - 1] == head + partial[..|partial| - 1];
      assert left[|left| - 1] == partial[|partial| - 1] && !Ends(partial[|partial| - 1]);
    }
  }

  /** Outside a literal exactly the query functions that go on from the symbol under
      the cursor are offered, with a blank, and after a % the keys of the node
      meta. */
  lemma SymbolOffers(st: CompletionState, head: string, partial: string, candidate: string)
    requires !IsMeta(head + partial) && Scan(head + partial).0 < 0
    requires NoEnd(partial) && (head == "" || Ends(head[|head| - 1]))
    ensures var line := head + partial;
            var offer := Complete(st, line, |line|).0;
            && offer.Offer? && !offer.fromFiles && offer.head == head
            && (candidate in offer.candidates <==>
                  if "%" <= partial
                  then exists k :: k in st.nodeMeta && partial <= "%" + k && candidate == "%" + k + " "
                  else exists n :: n in st.funcs && partial <= n && candidate == n + " ")
  {
    var line := head + partial;
    assert line[..|line|] == line;
    TokenAt(head, partial);
    assert line[..|head|] == head && line[|head|..] == partial;
    ClosedMeaning(st.funcs, partial, ' ', candidate);
    PercentOffers(st.nodeMeta, partial, candidate);
  }

  lemma PercentOffers(nodeMeta: map<string, Value>, partial: string, candidate: string)
    ensures candidate in Closed(Prefixed(SortedKeys(Percent(nodeMeta.Keys)), partial), ' ') <==>
              exists k :: k in nodeMeta && partial <= "%" + k && candidate == "%" + k + " "
  {
    var names := SortedKeys(Percent(nodeMeta.Keys));
    ClosedMeaning(names, partial, ' ', candidate);
    forall n ensures n in names <==> n in Percent(nodeMeta.Keys) {
      assert n in names <==> n in Elements(names);
    }
    if candidate in Closed(Prefixed(names, partial), ' ') {
      var n :| n in names && partial <= n && candidate == n + " ";
      var k :| k in nodeMeta.Keys && "%" + k == n;
    }
    if k :| k in nodeMeta && partial <= "%" + k && candidate == "%" + k + " " {
      assert "%" + k in Percent(nodeMeta.Keys);
    }
  }

  // ------------------------------------------------------------- class names

  /** Inside (class "... exactly the next segments of the classes that go on from
      what was typed are offered, and inside any other call but fact nothing. */
  lemma ClassOffers(st: CompletionState, line: string, start: nat, partial: string, candidate: string)
    requires TypingClass(line, start, partial)
    ensures var offer := Complete(st, line, |line|).0;
            && offer.Offer? && !offer.fromFiles && offer.head == line[..start + 1]
            && (candidate in offer.candidates <==>
                  exists c :: c in st.classes && partial <= c && candidate == Candidate(c, partial))
  {
    assert line[..|line|] == line;
    assert line[start + 1..] == partial;
    ClassCandidatesMeaning(st.classes, partial, candidate);
  }

  lemma OtherCallOffersNothing(st: CompletionState, line: string)
    requires !IsMeta(line) && Scan(line).0 >= 0
    requires var fn := EnclosingCall(line[..Scan(line).0]).0; fn != "fact" && fn != "class"
    ensures Complete(st, line, |line|).0 == Offer(line[..Scan(line).0 + 1], [], false)
  {
    assert line[..|line|] == line;
  }
}
