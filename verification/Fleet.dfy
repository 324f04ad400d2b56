/** The whole protocol: concurrent calls, the router, a fleet of daemons and the
    folds of client/query.go put together, and the two evaluation strategies of
    query/repl/eval_cluster.go compared. */
module Fleet {
  import opened Text
  import opened Wire
  import opened Daemon
  import opened Outcomes
  import opened Multiplexer
  import CallIds
  import Engine

  // ------------------------------------------------------------- verdicts

  /** What FilterMatch makes of a node's answer */
  function FilterVerdict(node: Node, expr: string): Verdict {
    if expr == "" then Matches
    else match Engine.ParseBool(node.interp, expr)
      case Value(true) => Matches
      case Value(false) => Differs
      case Error(t) => Breaks(MessageText(FilterError(t)))
  }

  /** What Query makes of a node's answer */
  function QueryVerdict(node: Node, expr: string): Verdict {
    if expr == "" then Breaks("empty query")
    else match Engine.Parse(node.interp, expr)
      case Error(t) => if t == "" then Differs else Breaks(t)
      case Value(res) =>
        if !res.boolish then Breaks("query returned " + res.kind + ", not a boolean")
        else if res.isTrue then Matches else Differs
  }

  /** ev is the node's reply to req. A daemon that knows nothing about sessions
      does not copy the correlation id. */
  ghost predicate Answers(node: Node, req: Request, root: string, ev: Event) {
    exists status ::
      var reply := HandleEvent(node, req, root, status);
      reply.Some? && (ev == reply.value || ev == reply.value.(correlation := None))
  }

  predicate AsksFilter(req: Request, expr: string) {
    req.cmd.Some? && req.cmd.value.verb == Status && req.cmd.value.filter == expr && req.cmd.value.answerAlways
  }

  predicate AsksQuery(req: Request, expr: string) {
    req.cmd.Some? && req.cmd.value.verb == Query && req.cmd.value.filter == expr
  }

  /** Through the daemon and back, a status request with a filter comes out as
      the node's verdict. */
  lemma FilterAnswer(codec: Codec, node: Node, req: Request, root: string, ev: Event, expr: string)
    requires codec.Faithful() && AsksFilter(req, expr) && Answers(node, req, root, ev)
    ensures FilterSighting(NewReply(codec, ev)) == Sighting(node.fqdn, FilterVerdict(node, expr), "")
  {
    if ev.body.MsgBody? {
      assert codec.asMsg(ev.body) == Decoded(MessageText(ev.body.msg));
      assert |MessageText(ev.body.msg)| > 0;
    }
  }

  /** The same for a query, which brings the display of what is no boolean along. */
  lemma QueryAnswer(codec: Codec, node: Node, req: Request, root: string, ev: Event, expr: string)
    requires codec.Faithful() && AsksQuery(req, expr) && Answers(node, req, root, ev)
    ensures QuerySighting(codec, NewReply(codec, ev)) ==
            Sighting(node.fqdn, QueryVerdict(node, expr), DisplayOf(node, expr))
  {
    assert ev.body.QueryBody? && ev.replyType == Some(PuppetQuery);
    assert codec.asQuery(ev.body) == Decoded(ev.body.reply);
  }

  /** What an expression shows on a node where it is neither true nor false */
  function DisplayOf(node: Node, expr: string): string {
    if expr == "" then ""
    else match node.interp(expr)
      case Fails(_) => ""
      case Yields(value, display) => if Engine.Filterable(value) then "" else display
  }

  /** Neither request leaves a node silent. */
  lemma EveryNodeAnswers(node: Node, req: Request, root: string, expr: string, status: RunStatus)
    requires AsksFilter(req, expr) || AsksQuery(req, expr)
    requires req.replyTo != "" && |Split(req.routingKey, '/')| >= 2
    ensures HandleEvent(node, req, root, status).Some?
  {
  }

  // ------------------------------------------------------------- equivalence

  /** Same kind of verdict, the texts aside */
  predicate SameKind(a: Verdict, b: Verdict) {
    a == b || (a.Breaks? && b.Breaks?)
  }

  /** The one difference: an error with no text at all reads as "did not match"
      in a query reply, and an empty expression is an error only there. */
  lemma VerdictsAgree(node: Node, expr: string)
    ensures SameKind(FilterVerdict(node, expr), QueryVerdict(node, expr)) <==>
              expr != "" && Engine.Parse(node.interp, expr) != Engine.Error("")
  {
  }

  /** No error text is empty but a node meta error that says nothing. */
  lemma SilentErrors(interp: Engine.Interpreter, expr: string)
    ensures Engine.Parse(interp, expr) == Engine.Error("") <==> interp(expr) == Engine.Fails(Engine.BadNodeMeta(""))
  {
    match interp(expr)
    case Fails(f) => assert !f.BadNodeMeta? ==> |Engine.ErrorText(expr, f)| > 0;
    case _ =>
  }

  /** What the verdicts mean for the evaluated value, coercions and error texts
      worked out. */
  lemma VerdictMeaning(node: Node, expr: string)
    requires expr != ""
    ensures var out := node.interp(expr);
            var truthy := out.Yields? && Engine.Truthy(out.expr);
            var falsy := out.Yields? && Engine.Filterable(out.expr) && !Engine.Truthy(out.expr);
            && (FilterVerdict(node, expr).Matches? <==> truthy)
            && (FilterVerdict(node, expr).Differs? <==> falsy)
            && (QueryVerdict(node, expr).Matches? <==> truthy)
            && (QueryVerdict(node, expr).Differs? <==> falsy || out == Engine.Fails(Engine.BadNodeMeta("")))
  {
    Engine.ParseBoolMeaning(node.interp, expr);
    SilentErrors(node.interp, expr);
    if node.interp(expr).Yields? {
      var r := Engine.NewResult(node.interp(expr).expr, node.interp(expr).display);
      assert r.boolish <==> Engine.Filterable(node.interp(expr).expr);
    }
  }

  /** The case that does come up: with nothing to evaluate everybody matches for
      FilterMatch and everybody fails for Query. */
  lemma EmptyExpressionDiffers(node: Node)
    ensures FilterVerdict(node, "") == Matches && QueryVerdict(node, "") == Breaks("empty query")
  {
  }

  /** A node that fails without a word on any expression. Whether converting the
      node meta can fail with an empty text is up to the interpreter. */
  function Mute(): Node {
    Node("mute", "mute", _ => Engine.Fails(Engine.BadNodeMeta("")), map[], [], Summary(""))
  }

  lemma MuteNodeDiffers(expr: string)
    requires expr != ""
    ensures FilterVerdict(Mute(), expr) == Breaks("filter error: ") && QueryVerdict(Mute(), expr) == Differs
  {
    assert MessageText(FilterError("")) == "filter error: ";
  }

  ghost predicate WellNamed(fleet: seq<Node>) {
    && (forall i :: 0 <= i < |fleet| ==> fleet[i].fqdn != "")
    && forall i, j :: 0 <= i < j < |fleet| ==> fleet[i].fqdn != fleet[j].fqdn
  }

  function Fqdns(fleet: seq<Node>): seq<string> {
    seq(|fleet|, n requires 0 <= n < |fleet| => fleet[n].fqdn)
  }

  /** Every node is heard at least once, nobody else is, and always with its own
      verdict: any order, any duplication, no loss */
  ghost predicate Reports(ss: seq<Sighting>, fleet: seq<Node>, verdicts: seq<Verdict>) {
    && |verdicts| == |fleet|
    && Spoke(ss) == Elements(Fqdns(fleet))
    && forall i, n :: 0 <= i < |ss| && 0 <= n < |fleet| && ss[i].fqdn == fleet[n].fqdn ==> ss[i].verdict == verdicts[n]
  }

  lemma FirstOf(ss: seq<Sighting>, i: nat) returns (j: nat)
    requires i < |ss| && ss[i].fqdn != ""
    ensures First(ss, j) && ss[j].fqdn == ss[i].fqdn
  {
    j := 0;
    while ss[j].fqdn != ss[i].fqdn
      invariant j <= i && forall k :: 0 <= k < j ==> ss[k].fqdn != ss[i].fqdn
      decreases i - j
    {
      j := j + 1;
    }
  }

  lemma ReportedVerdict(ss: seq<Sighting>, fleet: seq<Node>, verdicts: seq<Verdict>, n: nat, v: Verdict)
    requires WellNamed(fleet) && Reports(ss, fleet, verdicts) && n < |fleet|
    ensures InClass(Tallied(ss), fleet[n].fqdn, v) <==> verdicts[n] == v
  {
    TallyIsFirstWord(ss, fleet[n].fqdn, v);
    assert Fqdns(fleet)[n] in Spoke(ss);
    var i :| 0 <= i < |ss| && ss[i].fqdn != "" && ss[i].fqdn == fleet[n].fqdn;
    var j := FirstOf(ss, i);
  }

  predicate SameClasses(a: Tally, b: Tally) {
    && Elements(a.matched) == Elements(b.matched)
    && Elements(a.unmatched) == Elements(b.unmatched)
    && a.errors.Keys == b.errors.Keys
  }

  /** Two fully reported tallies agree on a node exactly if its verdicts are of
      the same kind. */
  lemma NodeAgrees(a: seq<Sighting>, b: seq<Sighting>, fleet: seq<Node>, va: seq<Verdict>, vb: seq<Verdict>, n: nat)
    requires WellNamed(fleet) && Reports(a, fleet, va) && Reports(b, fleet, vb) && n < |fleet|
    ensures SameKind(va[n], vb[n]) <==> SameClassesOf(Tallied(a), Tallied(b), fleet[n].fqdn)
  {
    KindOf(a, fleet, va, n);
    KindOf(b, fleet, vb, n);
  }

  lemma KindOf(ss: seq<Sighting>, fleet: seq<Node>, verdicts: seq<Verdict>, n: nat)
    requires WellNamed(fleet) && Reports(ss, fleet, verdicts) && n < |fleet|
    ensures fleet[n].fqdn in Tallied(ss).matched <==> verdicts[n].Matches?
    ensures fleet[n].fqdn in Tallied(ss).unmatched <==> verdicts[n].Differs?
    ensures fleet[n].fqdn in Tallied(ss).errors <==> verdicts[n].Breaks?
  {
    ReportedVerdict(ss, fleet, verdicts, n, Matches);
    ReportedVerdict(ss, fleet, verdicts, n, Differs);
    ReportedVerdict(ss, fleet, verdicts, n, verdicts[n]);
    var f := fleet[n].fqdn;
    if f in Tallied(ss).errors {
      ReportedVerdict(ss, fleet, verdicts, n, Breaks(Tallied(ss).errors[f]));
    }
  }

  lemma TalliesAgree(a: seq<Sighting>, b: seq<Sighting>, fleet: seq<Node>, va: seq<Verdict>, vb: seq<Verdict>)
    requires WellNamed(fleet) && Reports(a, fleet, va) && Reports(b, fleet, vb)
    ensures SameClasses(Tallied(a), Tallied(b)) <==> forall n :: 0 <= n < |fleet| ==> SameKind(va[n], vb[n])
  {
    var ta, tb := Tallied(a), Tallied(b);
    forall n | 0 <= n < |fleet|
      ensures SameKind(va[n], vb[n]) <==> SameClassesOf(ta, tb, fleet[n].fqdn)
    {
      NodeAgrees(a, b, fleet, va, vb, n);
    }
    ClassesPointwise(ta, tb);
    if forall n :: 0 <= n < |fleet| ==> SameKind(va[n], vb[n]) {
      forall f ensures SameClassesOf(ta, tb, f) {
        TallyPartition(a);
        TallyPartition(b);
        if f in Spoke(a) {
          var n :| 0 <= n < |Fqdns(fleet)| && Fqdns(fleet)[n] == f;
          assert fleet[n].fqdn == f;
        }
      }
    }
    if SameClasses(ta, tb) {
      forall n | 0 <= n < |fleet| ensures SameKind(va[n], vb[n]) {
        assert SameClassesOf(ta, tb, fleet[n].fqdn);
      }
    }
  }

  predicate SameClassesOf(a: Tally, b: Tally, f: string) {
    && (f in a.matched <==> f in b.matched)
    && (f in a.unmatched <==> f in b.unmatched)
    && (f in a.errors <==> f in b.errors)
  }

  lemma ClassesPointwise(a: Tally, b: Tally)
    ensures SameClasses(a, b) <==> forall f :: SameClassesOf(a, b, f)
  {
    if SameClasses(a, b) {
      forall f ensures SameClassesOf(a, b, f) {
        assert f in a.matched <==> f in Elements(a.matched);
        assert f in b.matched <==> f in Elements(b.matched);
        assert f in a.unmatched <==> f in Elements(a.unmatched);
        assert f in b.unmatched <==> f in Elements(b.unmatched);
        assert f in a.errors <==> f in a.errors.Keys;
      }
    }
    if forall f :: SameClassesOf(a, b, f) {
      forall f ensures f in Elements(a.matched) <==> f in Elements(b.matched) { assert SameClassesOf(a, b, f); }
      forall f ensures f in Elements(a.unmatched) <==> f in Elements(b.unmatched) { assert SameClassesOf(a, b, f); }
      forall f ensures f in a.errors.Keys <==> f in b.errors.Keys { assert SameClassesOf(a, b, f); }
    }
  }

  function FilterVerdicts(fleet: seq<Node>, expr: string): seq<Verdict> {
    seq(|fleet|, n requires 0 <= n < |fleet| => FilterVerdict(fleet[n], expr))
  }

  function QueryVerdicts(fleet: seq<Node>, expr: string): seq<Verdict> {
    seq(|fleet|, n requires 0 <= n < |fleet| => QueryVerdict(fleet[n], expr))
  }

  ghost predicate SomeNodes(fleet: seq<Node>, req: Request, root: string, ev: Event) {
    exists n :: 0 <= n < |fleet| && Answers(fleet[n], req, root, ev)
  }

  ghost predicate Heard(node: Node, req: Request, root: string, events: seq<Event>) {
    exists i :: 0 <= i < |events| && Answers(node, req, root, events[i])
  }

  /** The events a call got are the fleet's answers to its request, each node's
      at least once */
  ghost predicate FullyAnswered(events: seq<Event>, fleet: seq<Node>, req: Request, root: string) {
    && (forall ev :: ev in events ==> SomeNodes(fleet, req, root, ev))
    && forall node :: node in fleet ==> Heard(node, req, root, events)
  }

  function Replies(codec: Codec, events: seq<Event>): seq<Reply> {
    seq(|events|, i requires 0 <= i < |events| => NewReply(codec, events[i]))
  }

  lemma SpokeIsFleet(ss: seq<Sighting>, fleet: seq<Node>)
    requires forall i :: 0 <= i < |ss| ==> ss[i].fqdn in Fqdns(fleet)
    requires forall n :: 0 <= n < |fleet| ==> fleet[n].fqdn in Spoke(ss)
    ensures Spoke(ss) == Elements(Fqdns(fleet))
  {
    forall f | f in Elements(Fqdns(fleet)) ensures f in Spoke(ss) {
      var n :| 0 <= n < |Fqdns(fleet)| && Fqdns(fleet)[n] == f;
      assert fleet[n].fqdn == f;
    }
  }

  /** Sighting i is what node n has to say */
  predicate SpeaksFor(ss: seq<Sighting>, i: int, fleet: seq<Node>, verdicts: seq<Verdict>, n: int) {
    && 0 <= i < |ss| && 0 <= n < |fleet| && |verdicts| == |fleet|
    && ss[i].fqdn == fleet[n].fqdn && ss[i].verdict == verdicts[n]
  }

  ghost predicate FromSome(ss: seq<Sighting>, i: int, fleet: seq<Node>, verdicts: seq<Verdict>) {
    exists n :: SpeaksFor(ss, i, fleet, verdicts, n)
  }

  ghost predicate Quoted(ss: seq<Sighting>, fleet: seq<Node>, verdicts: seq<Verdict>, n: int) {
    exists i :: SpeaksFor(ss, i, fleet, verdicts, n)
  }

  /** Every sighting speaks for a node, and every node has one. */
  lemma ReportsFrom(ss: seq<Sighting>, fleet: seq<Node>, verdicts: seq<Verdict>)
    requires WellNamed(fleet) && |verdicts| == |fleet|
    requires forall i :: 0 <= i < |ss| ==> FromSome(ss, i, fleet, verdicts)
    requires forall n :: 0 <= n < |fleet| ==> Quoted(ss, fleet, verdicts, n)
    ensures Reports(ss, fleet, verdicts)
  {
    forall i | 0 <= i < |ss|
      ensures ss[i].fqdn in Fqdns(fleet)
      ensures forall n :: 0 <= n < |fleet| && ss[i].fqdn == fleet[n].fqdn ==> ss[i].verdict == verdicts[n]
    {
      assert FromSome(ss, i, fleet, verdicts);
      var m :| SpeaksFor(ss, i, fleet, verdicts, m);
      assert Fqdns(fleet)[m] == ss[i].fqdn;
    }
    forall n | 0 <= n < |fleet| ensures fleet[n].fqdn in Spoke(ss) {
      assert Quoted(ss, fleet, verdicts, n);
      var i :| SpeaksFor(ss, i, fleet, verdicts, n);
    }
    SpokeIsFleet(ss, fleet);
  }

  lemma FilterReports(codec: Codec, events: seq<Event>, fleet: seq<Node>, req: Request, root: string, expr: string)
    requires codec.Faithful() && WellNamed(fleet) && AsksFilter(req, expr) && FullyAnswered(events, fleet, req, root)
    ensures Reports(FilterSightings(Replies(codec, events)), fleet, FilterVerdicts(fleet, expr))
  {
    var ss, vs := FilterSightings(Replies(codec, events)), FilterVerdicts(fleet, expr);
    forall i | 0 <= i < |ss| ensures FromSome(ss, i, fleet, vs) {
      assert events[i] in events;
      var m :| 0 <= m < |fleet| && Answers(fleet[m], req, root, events[i]);
      FilterAnswer(codec, fleet[m], req, root, events[i], expr);
      assert SpeaksFor(ss, i, fleet, vs, m);
    }
    forall n | 0 <= n < |fleet| ensures Quoted(ss, fleet, vs, n) {
      assert fleet[n] in fleet;
      var i :| 0 <= i < |events| && Answers(fleet[n], req, root, events[i]);
      FilterAnswer(codec, fleet[n], req, root, events[i], expr);
      assert SpeaksFor(ss, i, fleet, vs, n);
    }
    ReportsFrom(ss, fleet, vs);
  }

  lemma QueryReports(codec: Codec, events: seq<Event>, fleet: seq<Node>, req: Request, root: string, expr: string)
    requires codec.Faithful() && WellNamed(fleet) && AsksQuery(req, expr) && FullyAnswered(events, fleet, req, root)
    ensures Reports(QuerySightings(codec, Replies(codec, events)), fleet, QueryVerdicts(fleet, expr))
  {
    var ss, vs := QuerySightings(codec, Replies(codec, events)), QueryVerdicts(fleet, expr);
    forall i | 0 <= i < |ss| ensures FromSome(ss, i, fleet, vs) {
      assert events[i] in events;
      var m :| 0 <= m < |fleet| && Answers(fleet[m], req, root, events[i]);
      QueryAnswer(codec, fleet[m], req, root, events[i], expr);
      assert SpeaksFor(ss, i, fleet, vs, m);
    }
    forall n | 0 <= n < |fleet| ensures Quoted(ss, fleet, vs, n) {
      assert fleet[n] in fleet;
      var i :| 0 <= i < |events| && Answers(fleet[n], req, root, events[i]);
      QueryAnswer(codec, fleet[n], req, root, events[i], expr);
      assert SpeaksFor(ss, i, fleet, vs, n);
    }
    ReportsFrom(ss, fleet, vs);
  }

  /** There is an expression to run, and if the node fails it says something */
  predicate Comparable(node: Node, expr: string) {
    expr != "" && node.interp(expr) != Engine.Fails(Engine.BadNodeMeta(""))
  }

  /** The two strategies mean the same. With every node's reply delivered, in
      whatever order and however often, Query and FilterMatch sort the fleet into
      the same three sets, exactly if the expression is not empty and no node
      fails without an error text. */
  lemma StrategiesAgree(codec: Codec, fleet: seq<Node>, expr: string, root: string,
                        filterReq: Request, filterEvents: seq<Event>, queryReq: Request, queryEvents: seq<Event>)
    requires codec.Faithful() && WellNamed(fleet)
    requires AsksFilter(filterReq, expr) && FullyAnswered(filterEvents, fleet, filterReq, root)
    requires AsksQuery(queryReq, expr) && FullyAnswered(queryEvents, fleet, queryReq, root)
    ensures SameClasses(Tallied(FilterSightings(Replies(codec, filterEvents))),
                        Tallied(QuerySightings(codec, Replies(codec, queryEvents)))) <==>
            forall n :: 0 <= n < |fleet| ==> Comparable(fleet[n], expr)
  {
    FilterReports(codec, filterEvents, fleet, filterReq, root, expr);
    QueryReports(codec, queryEvents, fleet, queryReq, root, expr);
    var a, b := FilterSightings(Replies(codec, filterEvents)), QuerySightings(codec, Replies(codec, queryEvents));
    var va, vb := FilterVerdicts(fleet, expr), QueryVerdicts(fleet, expr);
    TalliesAgree(a, b, fleet, va, vb);
    forall n | 0 <= n < |fleet|
      ensures SameKind(va[n], vb[n]) <==> Comparable(fleet[n], expr)
    {
      VerdictsAgree(fleet[n], expr);
      SilentErrors(fleet[n].interp, expr);
    }
  }

  // ------------------------------------------------------------- eval_cluster

  /** The counts of a Summary that come from the replies */
  datatype Counts = Counts(matched: nat, responded: nat, errors: nat)

  function EvalQuery(codec: Codec, replies: seq<Reply>): Counts {
    var out := Tallied(QuerySightings(codec, replies));
    Counts(|out.matched|, |out.matched| + |out.unmatched| + |out.errors|, |out.errors|)
  }

  function EvalFilter(replies: seq<Reply>): Counts {
    var out := Tallied(FilterSightings(replies));
    Counts(|out.matched|, out.Answered(), |out.errors|)
  }

  /** So it does not show in the counts which strategy Eval picked, and everybody
      responded. */
  lemma SummariesAgree(codec: Codec, fleet: seq<Node>, expr: string, root: string,
                       filterReq: Request, filterEvents: seq<Event>, queryReq: Request, queryEvents: seq<Event>)
    requires codec.Faithful() && WellNamed(fleet)
    requires forall n :: 0 <= n < |fleet| ==> Comparable(fleet[n], expr)
    requires AsksFilter(filterReq, expr) && FullyAnswered(filterEvents, fleet, filterReq, root)
    requires AsksQuery(queryReq, expr) && FullyAnswered(queryEvents, fleet, queryReq, root)
    ensures EvalFilter(Replies(codec, filterEvents)) == EvalQuery(codec, Replies(codec, queryEvents))
    ensures EvalFilter(Replies(codec, filterEvents)).responded == |fleet|
  {
    StrategiesAgree(codec, fleet, expr, root, filterReq, filterEvents, queryReq, queryEvents);
    FilterReports(codec, filterEvents, fleet, filterReq, root, expr);
    var a, b := FilterSightings(Replies(codec, filterEvents)), QuerySightings(codec, Replies(codec, queryEvents));
    SameSizes(a, b);
    AnsweredCountsNodes(a);
    EverybodySpoke(a, fleet, FilterVerdicts(fleet, expr));
  }

  lemma SameSizes(a: seq<Sighting>, b: seq<Sighting>)
    requires SameClasses(Tallied(a), Tallied(b))
    ensures var ta, tb := Tallied(a), Tallied(b);
            |ta.matched| == |tb.matched| && |ta.unmatched| == |tb.unmatched| && |ta.errors| == |tb.errors|
  {
    TallyPartition(a);
    TallyPartition(b);
    DistinctCount(Tallied(a).matched);
    DistinctCount(Tallied(b).matched);
    DistinctCount(Tallied(a).unmatched);
    DistinctCount(Tallied(b).unmatched);
  }

  lemma EverybodySpoke(ss: seq<Sighting>, fleet: seq<Node>, verdicts: seq<Verdict>)
    requires WellNamed(fleet) && Reports(ss, fleet, verdicts)
    ensures |Spoke(ss)| == |fleet|
  {
    DistinctCount(Fqdns(fleet));
  }

  // ------------------------------------------------------------- what is counted

  /** The expression is true of the node: it yields true, a non-empty string or a
      positive number */
  predicate TrueOn(node: Node, expr: string) {
    node.interp(expr).Yields? && Engine.Truthy(node.interp(expr).expr)
  }

  /** It can not be run there, or yields something that is neither true nor false */
  predicate BrokenOn(node: Node, expr: string) {
    node.interp(expr).Fails? || !Engine.Filterable(node.interp(expr).expr)
  }

  predicate MuteOn(node: Node, expr: string) {
    node.interp(expr) == Engine.Fails(Engine.BadNodeMeta(""))
  }

  function TrueNodes(fleet: seq<Node>, expr: string): set<int> {
    set n | 0 <= n < |fleet| && TrueOn(fleet[n], expr)
  }

  function BrokenNodes(fleet: seq<Node>, expr: string): set<int> {
    set n | 0 <= n < |fleet| && BrokenOn(fleet[n], expr)
  }

  function MuteNodes(fleet: seq<Node>, expr: string): set<int> {
    set n | 0 <= n < |fleet| && MuteOn(fleet[n], expr)
  }

  function WithVerdict(verdicts: seq<Verdict>, v: Verdict): set<int> {
    set n | 0 <= n < |verdicts| && SameKind(verdicts[n], v)
  }

  /** As many names as places: no two nodes share one. */
  lemma {:induction false} NamesCount(fleet: seq<Node>, bound: nat, places: set<int>, names: set<string>)
    requires WellNamed(fleet) && bound <= |fleet| && forall n :: n in places ==> 0 <= n < bound
    requires names == set n | n in places :: fleet[n].fqdn
    ensures |names| == |places|
  {
    if bound == 0 {
      assert places == {};
    } else {
      var n := bound - 1;
      var rest := set m | m in places - {n} :: fleet[m].fqdn;
      NamesCount(fleet, n, places - {n}, rest);
      if n in places {
        NameApart(fleet, places, n);
        assert names == rest + {fleet[n].fqdn};
      } else {
        assert places - {n} == places;
      }
    }
  }

  lemma NameApart(fleet: seq<Node>, places: set<int>, n: int)
    requires WellNamed(fleet) && n in places && forall m :: m in places ==> 0 <= m < |fleet|
    ensures fleet[n].fqdn !in set m | m in places - {n} :: fleet[m].fqdn
  {
    forall m | m in places - {n} ensures fleet[m].fqdn != fleet[n].fqdn {
      if m < n { assert fleet[m].fqdn != fleet[n].fqdn; } else { assert fleet[n].fqdn != fleet[m].fqdn; }
    }
  }

  /** names are those of the nodes at places */
  lemma NamesAt(fleet: seq<Node>, places: set<int>, names: set<string>)
    requires WellNamed(fleet) && forall n :: n in places ==> 0 <= n < |fleet|
    requires forall f :: f in names ==> f in Fqdns(fleet)
    requires forall n :: 0 <= n < |fleet| ==> (fleet[n].fqdn in names <==> n in places)
    ensures |names| == |places|
  {
    var at := set n | n in places :: fleet[n].fqdn;
    forall f | f in names ensures f in at {
      var n :| 0 <= n < |Fqdns(fleet)| && Fqdns(fleet)[n] == f;
      assert fleet[n].fqdn == f && n in places;
    }
    assert names == at;
    NamesCount(fleet, |fleet|, places, at);
  }

  /** With everybody heard, each class has as many nodes as got its verdict. */
  lemma ClassSizes(ss: seq<Sighting>, fleet: seq<Node>, verdicts: seq<Verdict>)
    requires WellNamed(fleet) && Reports(ss, fleet, verdicts)
    ensures |Tallied(ss).matched| == |WithVerdict(verdicts, Matches)|
    ensures |Tallied(ss).unmatched| == |WithVerdict(verdicts, Differs)|
    ensures |Tallied(ss).errors| == |WithVerdict(verdicts, Breaks(""))|
  {
    var t := Tallied(ss);
    TallyPartition(ss);
    DistinctCount(t.matched);
    DistinctCount(t.unmatched);
    forall n | 0 <= n < |fleet|
      ensures fleet[n].fqdn in Elements(t.matched) <==> n in WithVerdict(verdicts, Matches)
      ensures fleet[n].fqdn in Elements(t.unmatched) <==> n in WithVerdict(verdicts, Differs)
      ensures fleet[n].fqdn in t.errors.Keys <==> n in WithVerdict(verdicts, Breaks(""))
    {
      KindOf(ss, fleet, verdicts, n);
    }
    ClassesSpoke(ss);
    NamesAt(fleet, WithVerdict(verdicts, Matches), Elements(t.matched));
    NamesAt(fleet, WithVerdict(verdicts, Differs), Elements(t.unmatched));
    NamesAt(fleet, WithVerdict(verdicts, Breaks("")), t.errors.Keys);
  }

  lemma ClassesSpoke(ss: seq<Sighting>)
    ensures var t := Tallied(ss); Elements(t.matched) + Elements(t.unmatched) + t.errors.Keys == Spoke(ss)
  {
    TallyPartition(ss);
    PartitionSets(Tallied(ss), Spoke(ss));
  }

  /** What FilterMatch counts, said over the nodes' evaluations: as matched those
      the expression is true of, as errors those it is broken on. */
  lemma FilterCounts(codec: Codec, fleet: seq<Node>, expr: string, root: string, req: Request, events: seq<Event>)
    requires codec.Faithful() && WellNamed(fleet) && expr != ""
    requires AsksFilter(req, expr) && FullyAnswered(events, fleet, req, root)
    ensures EvalFilter(Replies(codec, events)) ==
            Counts(|TrueNodes(fleet, expr)|, |fleet|, |BrokenNodes(fleet, expr)|)
  {
    var ss, vs := FilterSightings(Replies(codec, events)), FilterVerdicts(fleet, expr);
    FilterReports(codec, events, fleet, req, root, expr);
    ClassSizes(ss, fleet, vs);
    AnsweredCountsNodes(ss);
    EverybodySpoke(ss, fleet, vs);
    FilterVerdictNodes(fleet, expr);
  }

  lemma FilterVerdictNodes(fleet: seq<Node>, expr: string)
    requires expr != ""
    ensures WithVerdict(FilterVerdicts(fleet, expr), Matches) == TrueNodes(fleet, expr)
    ensures WithVerdict(FilterVerdicts(fleet, expr), Breaks("")) == BrokenNodes(fleet, expr)
  {
    var vs := FilterVerdicts(fleet, expr);
    forall n | 0 <= n < |fleet|
      ensures vs[n].Matches? <==> TrueOn(fleet[n], expr)
      ensures vs[n].Breaks? <==> BrokenOn(fleet[n], expr)
    {
      VerdictMeaning(fleet[n], expr);
    }
  }

  /** Summary.Silent: nobody said "not me" */
  function Silent(replies: seq<Reply>): bool {
    |Tallied(FilterSightings(replies)).unmatched| == 0
  }

  /** It is reported exactly if the expression is not false anywhere. */
  lemma SilentMeaning(codec: Codec, fleet: seq<Node>, expr: string, root: string, req: Request, events: seq<Event>)
    requires codec.Faithful() && WellNamed(fleet) && expr != ""
    requires AsksFilter(req, expr) && FullyAnswered(events, fleet, req, root)
    ensures Silent(Replies(codec, events)) <==>
              forall n :: 0 <= n < |fleet| ==> TrueOn(fleet[n], expr) || BrokenOn(fleet[n], expr)
  {
    var vs := FilterVerdicts(fleet, expr);
    FilterReports(codec, events, fleet, req, root, expr);
    ClassSizes(FilterSightings(Replies(codec, events)), fleet, vs);
    forall n | 0 <= n < |fleet|
      ensures n in WithVerdict(vs, Differs) <==> !TrueOn(fleet[n], expr) && !BrokenOn(fleet[n], expr)
    {
      VerdictMeaning(fleet[n], expr);
    }
    if forall n :: 0 <= n < |fleet| ==> TrueOn(fleet[n], expr) || BrokenOn(fleet[n], expr) {
      assert WithVerdict(vs, Differs) == {};
    }
  }

  /** And Query, which takes a node that fails without a word for one that does not
      match. */
  lemma QueryCounts(codec: Codec, fleet: seq<Node>, expr: string, root: string, req: Request, events: seq<Event>)
    requires codec.Faithful() && WellNamed(fleet) && expr != ""
    requires AsksQuery(req, expr) && FullyAnswered(events, fleet, req, root)
    ensures EvalQuery(codec, Replies(codec, events)) ==
            Counts(|TrueNodes(fleet, expr)|, |fleet|, |BrokenNodes(fleet, expr) - MuteNodes(fleet, expr)|)
  {
    var ss, vs := QuerySightings(codec, Replies(codec, events)), QueryVerdicts(fleet, expr);
    QueryReports(codec, events, fleet, req, root, expr);
    ClassSizes(ss, fleet, vs);
    AnsweredCountsNodes(ss);
    EverybodySpoke(ss, fleet, vs);
    QueryVerdictNodes(fleet, expr);
  }

  lemma QueryVerdictNodes(fleet: seq<Node>, expr: string)
    requires expr != ""
    ensures WithVerdict(QueryVerdicts(fleet, expr), Matches) == TrueNodes(fleet, expr)
    ensures WithVerdict(QueryVerdicts(fleet, expr), Breaks("")) == BrokenNodes(fleet, expr) - MuteNodes(fleet, expr)
  {
    var vs := QueryVerdicts(fleet, expr);
    forall n | 0 <= n < |fleet|
      ensures vs[n].Matches? <==> TrueOn(fleet[n], expr)
      ensures vs[n].Breaks? <==> BrokenOn(fleet[n], expr) && !MuteOn(fleet[n], expr)
    {
      VerdictMeaning(fleet[n], expr);
    }
  }

  /** With no expression everybody matches for the one and fails for the other. */
  lemma EmptyCounts(codec: Codec, fleet: seq<Node>, root: string,
                    filterReq: Request, filterEvents: seq<Event>, queryReq: Request, queryEvents: seq<Event>)
    requires codec.Faithful() && WellNamed(fleet)
    requires AsksFilter(filterReq, "") && FullyAnswered(filterEvents, fleet, filterReq, root)
    requires AsksQuery(queryReq, "") && FullyAnswered(queryEvents, fleet, queryReq, root)
    ensures EvalFilter(Replies(codec, filterEvents)) == Counts(|fleet|, |fleet|, 0)
    ensures EvalQuery(codec, Replies(codec, queryEvents)) == Counts(0, |fleet|, |fleet|)
  {
    FilterReports(codec, filterEvents, fleet, filterReq, root, "");
    QueryReports(codec, queryEvents, fleet, queryReq, root, "");
    AllAlike(FilterSightings(Replies(codec, filterEvents)), fleet, FilterVerdicts(fleet, ""), Matches);
    var ss := QuerySightings(codec, Replies(codec, queryEvents));
    AllAlike(ss, fleet, QueryVerdicts(fleet, ""), Breaks("empty query"));
  }

  lemma AllAlike(ss: seq<Sighting>, fleet: seq<Node>, verdicts: seq<Verdict>, v: Verdict)
    requires WellNamed(fleet) && Reports(ss, fleet, verdicts)
    requires forall n :: 0 <= n < |fleet| ==> verdicts[n] == v
    ensures var t := Tallied(ss);
            && |t.matched| == (if v.Matches? then |fleet| else 0)
            && |t.unmatched| == (if v.Differs? then |fleet| else 0)
            && |t.errors| == (if v.Breaks? then |fleet| else 0)
  {
    ClassSizes(ss, fleet, verdicts);
    AllOrNone(verdicts, v, Matches);
    AllOrNone(verdicts, v, Differs);
    AllOrNone(verdicts, v, Breaks(""));
  }

  lemma {:induction false} AllOrNone(verdicts: seq<Verdict>, v: Verdict, kind: Verdict)
    requires forall n :: 0 <= n < |verdicts| ==> verdicts[n] == v
    ensures |WithVerdict(verdicts, kind)| == if SameKind(v, kind) then |verdicts| else 0
  {
    if verdicts != [] {
      var n := |verdicts| - 1;
      AllOrNone(verdicts[..n], v, kind);
      assert WithVerdict(verdicts, kind) == WithVerdict(verdicts[..n], kind) + if SameKind(v, kind) then {n} else {};
    }
  }

  // ------------------------------------------------------------- whole runs

  /** A fleet node's reply to a request some call has sent */
  ghost predicate FromFleet(fleet: seq<Node>, root: string, s: State, ev: Event) {
    exists k, n :: 0 <= k < |s.log| && 0 <= n < |fleet| && s.log[k].request.Some?
        && Answers(fleet[n], s.log[k].request.value, root, ev)
  }

  /** Whatever arrives was sent by the fleet: replies may be lost, repeated and
      overtake each other, and requests reach any node at any time */
  ghost predicate Honest(fleet: seq<Node>, root: string, path: string, steps: seq<Step>) {
    steps == [] ||
    var init, step := steps[..|steps| - 1], steps[|steps| - 1];
    && Honest(fleet, root, path, init)
    && (step.Arrive? ==>
          Exec(Init(path), init).Some? && FromFleet(fleet, root, Exec(Init(path), init).value, step.event))
  }

  /** Requests carry their call's id in both places */
  ghost predicate Addressed(s: State) {
    forall k :: 0 <= k < |s.log| && s.log[k].request.Some? ==>
      s.log[k].request.value.replyTo == ReplyTo(s.replyPath, s.log[k].id)
          && s.log[k].request.value.correlation == Some(s.log[k].id)
  }

  lemma AddressedStep(s: State, step: Step)
    requires Addressed(s) && Enabled(s, step)
    ensures Addressed(Next(s, step)) && Next(s, step).replyPath == s.replyPath
  {
    var t := Next(s, step);
    forall k | 0 <= k < |s.log|
      ensures t.log[k].id == s.log[k].id
      ensures t.log[k].request == s.log[k].request || (step.Send? && step.call == k)
    {
    }
  }

  lemma {:induction false} AddressedHolds(path: string, steps: seq<Step>)
    requires Exec(Init(path), steps).Some?
    ensures Addressed(Exec(Init(path), steps).value)
  {
    if steps != [] {
      AddressedHolds(path, steps[..|steps| - 1]);
      AddressedStep(Exec(Init(path), steps[..|steps| - 1]).value, steps[|steps| - 1]);
    }
  }

  /** A daemon's reply names the call it is for, with the header or without. */
  lemma AnswerNamesCall(s: State, k: nat, blob: seq<CallIds.Byte>, node: Node, root: string, ev: Event)
    requires Addressed(s) && k < |s.log| && s.log[k].request.Some?
    requires |blob| == 8 && s.log[k].id == CallIds.MapBytesToTopicTitle(blob)
    requires Answers(node, s.log[k].request.value, root, ev)
    ensures CallID(ev) == s.log[k].id
  {
    CallIDRoundTrip(ev, root, s.replyPath, blob);
  }

  lemma {:induction false} HonestIsOrderly(fleet: seq<Node>, root: string, path: string, steps: seq<Step>)
    requires Exec(Init(path), steps).Some? && Honest(fleet, root, path, steps)
    ensures Orderly(path, steps)
  {
    if steps != [] {
      var init, step := steps[..|steps| - 1], steps[|steps| - 1];
      HonestIsOrderly(fleet, root, path, init);
      if step.Arrive? {
        var s := Exec(Init(path), init).value;
        AddressedHolds(path, init);
        IdsAreTitles(path, init);
        var k, n :| 0 <= k < |s.log| && 0 <= n < |fleet| && s.log[k].request.Some?
            && Answers(fleet[n], s.log[k].request.value, root, step.event);
        AnswerNamesCall(s, k, Blobs(init)[k], fleet[n], root, step.event);
        assert Solicited(s, step.event);
      }
    }
  }

  /** A request is sent once. */
  lemma RequestKept(s: State, step: Step, k: nat)
    requires Enabled(s, step) && k < |s.log| && s.log[k].phase != Opening
    ensures k < |Next(s, step).log| && Next(s, step).log[k].request == s.log[k].request
  {
  }

  lemma FromFleetKept(fleet: seq<Node>, root: string, s: State, step: Step, ev: Event)
    requires Enabled(s, step) && FromFleet(fleet, root, s, ev)
    requires forall k :: 0 <= k < |s.log| && s.log[k].phase == Opening ==> s.log[k].request == None
    ensures FromFleet(fleet, root, Next(s, step), ev)
  {
    var k, n :| 0 <= k < |s.log| && 0 <= n < |fleet| && s.log[k].request.Some?
        && Answers(fleet[n], s.log[k].request.value, root, ev);
    RequestKept(s, step, k);
  }

  ghost predicate AllFromFleet(fleet: seq<Node>, root: string, s: State) {
    && (forall k :: 0 <= k < |s.log| && s.log[k].phase == Opening ==> s.log[k].request == None)
    && forall i :: 0 <= i < |s.arrivals| ==> FromFleet(fleet, root, s, s.arrivals[i])
  }

  lemma AllFromFleetStep(fleet: seq<Node>, root: string, s: State, step: Step)
    requires AllFromFleet(fleet, root, s) && Enabled(s, step)
    requires step.Arrive? ==> FromFleet(fleet, root, s, step.event)
    ensures AllFromFleet(fleet, root, Next(s, step))
  {
    var t := Next(s, step);
    forall i | 0 <= i < |t.arrivals| ensures FromFleet(fleet, root, t, t.arrivals[i]) {
      FromFleetKept(fleet, root, s, step, t.arrivals[i]);
    }
    forall k | 0 <= k < |t.log| && t.log[k].phase == Opening ensures t.log[k].request == None {
      if k < |s.log| { assert s.log[k].phase == Opening && t.log[k].request == s.log[k].request; }
    }
  }

  lemma {:induction false} AllFromFleetHolds(fleet: seq<Node>, root: string, path: string, steps: seq<Step>)
    requires Exec(Init(path), steps).Some? && Honest(fleet, root, path, steps)
    ensures AllFromFleet(fleet, root, Exec(Init(path), steps).value)
  {
    if steps != [] {
      AllFromFleetHolds(fleet, root, path, steps[..|steps| - 1]);
      AllFromFleetStep(fleet, root, Exec(Init(path), steps[..|steps| - 1]).value, steps[|steps| - 1]);
    }
  }

  /** In every interleaving of any number of calls a call only ever gets fleet
      answers to its own request. */
  lemma OwnAnswersOnly(fleet: seq<Node>, root: string, path: string, steps: seq<Step>, k: nat, e: nat)
    requires Exec(Init(path), steps).Some? && Honest(fleet, root, path, steps) && Fresh(steps)
    requires var s := Exec(Init(path), steps).value;
             k < |s.log| && (e in Traffic(s.log[k]) || s.hand == Holds(e, k))
    ensures var s := Exec(Init(path), steps).value;
            && e < |s.arrivals| && s.log[k].request.Some?
            && SomeNodes(fleet, s.log[k].request.value, root, s.arrivals[e])
  {
    var s := Exec(Init(path), steps).value;
    RoutingHolds(path, steps);
    if e in Traffic(s.log[k]) { SinkIsOwners(s, k, e); }
    AllFromFleetHolds(fleet, root, path, steps);
    assert FromFleet(fleet, root, s, s.arrivals[e]);
    var j, n :| 0 <= j < |s.log| && 0 <= n < |fleet| && s.log[j].request.Some?
        && Answers(fleet[n], s.log[j].request.value, root, s.arrivals[e]);
    AddressedHolds(path, steps);
    IdsAreTitles(path, steps);
    AnswerNamesCall(s, j, Blobs(steps)[j], fleet[n], root, s.arrivals[e]);
    FreshIds(path, steps);
    assert j == k;
  }

  /** Everything call k was handed is an arrival */
  ghost predicate Landed(s: State, k: nat) {
    k < |s.log| && forall i :: 0 <= i < |s.log[k].seen| ==> s.log[k].seen[i] < |s.arrivals|
  }

  /** The events call k's onReply got, in order */
  ghost function Delivered(s: State, k: nat): seq<Event>
    requires Landed(s, k)
  {
    seq(|s.log[k].seen|, i requires 0 <= i < |s.log[k].seen| => s.arrivals[s.log[k].seen[i]])
  }

  /** What FilterMatch has made of them, and returns once the call is over */
  ghost function FilterOutcome(codec: Codec, s: State, k: nat): Tally
    requires Landed(s, k)
  {
    Tallied(FilterSightings(Replies(codec, Delivered(s, k))))
  }

  /** And Query */
  ghost function QueryOutcome(codec: Codec, s: State, k: nat): Tally
    requires Landed(s, k)
  {
    Tallied(QuerySightings(codec, Replies(codec, Delivered(s, k))))
  }

  lemma DeliveredArrived(path: string, steps: seq<Step>, k: nat)
    requires Exec(Init(path), steps).Some? && k < |Exec(Init(path), steps).value.log|
    ensures var s := Exec(Init(path), steps).value;
            Landed(s, k) && forall i :: 0 <= i < |s.log[k].seen| ==> s.log[k].seen[i] in Traffic(s.log[k])
  {
    var s := Exec(Init(path), steps).value;
    RoutingHolds(path, steps);
    forall i | 0 <= i < |s.log[k].seen|
      ensures s.log[k].seen[i] in Traffic(s.log[k]) && s.log[k].seen[i] < |s.arrivals|
    {
      assert Traffic(s.log[k])[i] == s.log[k].seen[i];
      SinkIsOwners(s, k, s.log[k].seen[i]);
    }
  }

  /** FilterMatch tells the truth in every run: whoever it lists in a class is a
      node of the fleet that evaluated its expression that way, errors word for
      word, however many other calls share the session. */
  lemma FilterMatchIsTruthful(codec: Codec, fleet: seq<Node>, root: string, path: string, steps: seq<Step>,
                              k: nat, expr: string, f: string, v: Verdict)
    requires codec.Faithful()
    requires Exec(Init(path), steps).Some? && Honest(fleet, root, path, steps) && Fresh(steps)
    requires var s := Exec(Init(path), steps).value;
             k < |s.log| && (s.log[k].request.Some? ==> AsksFilter(s.log[k].request.value, expr))
    ensures var s := Exec(Init(path), steps).value;
            && Landed(s, k)
            && (InClass(FilterOutcome(codec, s, k), f, v) ==>
                  exists n :: 0 <= n < |fleet| && fleet[n].fqdn == f && FilterVerdict(fleet[n], expr) == v)
  {
    var s := Exec(Init(path), steps).value;
    DeliveredArrived(path, steps, k);
    var events := Delivered(s, k);
    var ss := FilterSightings(Replies(codec, events));
    TallyIsFirstWord(ss, f, v);
    if Says(ss, f, v) {
      var i :| First(ss, i) && ss[i].fqdn == f && ss[i].verdict == v;
      OwnAnswersOnly(fleet, root, path, steps, k, s.log[k].seen[i]);
      var n :| 0 <= n < |fleet| && Answers(fleet[n], s.log[k].request.value, root, events[i]);
      FilterAnswer(codec, fleet[n], s.log[k].request.value, root, events[i], expr);
      assert fleet[n].fqdn == f && FilterVerdict(fleet[n], expr) == v;
    }
  }

  /** And so does Query. */
  lemma QueryIsTruthful(codec: Codec, fleet: seq<Node>, root: string, path: string, steps: seq<Step>,
                        k: nat, expr: string, f: string, v: Verdict)
    requires codec.Faithful()
    requires Exec(Init(path), steps).Some? && Honest(fleet, root, path, steps) && Fresh(steps)
    requires var s := Exec(Init(path), steps).value;
             k < |s.log| && (s.log[k].request.Some? ==> AsksQuery(s.log[k].request.value, expr))
    ensures var s := Exec(Init(path), steps).value;
            && Landed(s, k)
            && (InClass(QueryOutcome(codec, s, k), f, v) ==>
                  exists n :: 0 <= n < |fleet| && fleet[n].fqdn == f && QueryVerdict(fleet[n], expr) == v)
  {
    var s := Exec(Init(path), steps).value;
    DeliveredArrived(path, steps, k);
    var events := Delivered(s, k);
    var ss := QuerySightings(codec, Replies(codec, events));
    TallyIsFirstWord(ss, f, v);
    if Says(ss, f, v) {
      var i :| First(ss, i) && ss[i].fqdn == f && ss[i].verdict == v;
      OwnAnswersOnly(fleet, root, path, steps, k, s.log[k].seen[i]);
      var n :| 0 <= n < |fleet| && Answers(fleet[n], s.log[k].request.value, root, events[i]);
      QueryAnswer(codec, fleet[n], s.log[k].request.value, root, events[i], expr);
      assert fleet[n].fqdn == f && QueryVerdict(fleet[n], expr) == v;
    }
  }

  // ------------------------------------------------------------- settled calls

  /** An answer of the node has arrived for call k, was taken off the channel, not
      dropped, and waits neither in the router's hand nor in the buffer */
  ghost predicate GotThrough(node: Node, root: string, s: State, k: nat)
    requires k < |s.log| && s.log[k].request.Some?
  {
    exists e :: 0 <= e < |s.arrivals| && Answers(node, s.log[k].request.value, root, s.arrivals[e]) && Through(s, k, e)
  }

  ghost predicate Through(s: State, k: nat, e: nat)
    requires k < |s.log|
  {
    e < s.next && InHand(s.hand, e) == 0 && e !in s.overflow && e !in s.log[k].buffer
  }

  /** On an open session call k waits, and an answer of every node got through; it
      and other calls may have more in flight */
  ghost predicate Settled(fleet: seq<Node>, root: string, s: State, k: nat) {
    && !s.closed && k < |s.log| && s.log[k].phase == Waiting && s.log[k].request.Some?
    && forall node :: node in fleet ==> GotThrough(node, root, s, k)
  }

  lemma ThroughIsSeen(fleet: seq<Node>, root: string, path: string, steps: seq<Step>, k: nat, node: Node, e: nat)
    requires Exec(Init(path), steps).Some? && Honest(fleet, root, path, steps) && Fresh(steps)
    requires Settled(fleet, root, Exec(Init(path), steps).value, k)
    requires var s := Exec(Init(path), steps).value;
             e < |s.arrivals| && Answers(node, s.log[k].request.value, root, s.arrivals[e]) && Through(s, k, e)
    ensures e in Exec(Init(path), steps).value.log[k].seen
  {
    var s := Exec(Init(path), steps).value;
    AddressedHolds(path, steps);
    IdsAreTitles(path, steps);
    AnswerNamesCall(s, k, Blobs(steps)[k], node, root, s.arrivals[e]);
    HonestIsOrderly(fleet, root, path, steps);
    assert Expects(s, k, e);
    NothingLost(path, steps, k, e);
  }

  /** Call k has consumed an answer of the node */
  ghost predicate Consumed(node: Node, root: string, s: State, k: nat)
    requires Landed(s, k) && s.log[k].request.Some?
  {
    exists i :: 0 <= i < |s.log[k].seen| &&
      Answers(node, s.log[k].request.value, root, s.arrivals[s.log[k].seen[i]])
  }

  /** Nothing else is lost on the way, so a settled call has an answer of every
      node. */
  lemma SettledHasAll(fleet: seq<Node>, root: string, path: string, steps: seq<Step>, k: nat)
    requires Exec(Init(path), steps).Some? && Honest(fleet, root, path, steps) && Fresh(steps)
    requires Settled(fleet, root, Exec(Init(path), steps).value, k)
    ensures var s := Exec(Init(path), steps).value;
            Landed(s, k) && forall node :: node in fleet ==> Consumed(node, root, s, k)
  {
    var s := Exec(Init(path), steps).value;
    DeliveredArrived(path, steps, k);
    forall node | node in fleet ensures Consumed(node, root, s, k) {
      assert GotThrough(node, root, s, k);
      var e :| 0 <= e < |s.arrivals| && Answers(node, s.log[k].request.value, root, s.arrivals[e]) && Through(s, k, e);
      ThroughIsSeen(fleet, root, path, steps, k, node, e);
      var i :| 0 <= i < |s.log[k].seen| && s.log[k].seen[i] == e;
    }
  }

  /** A call that has consumed an answer of every node has a full answer: it got
      nothing but the fleet's answers to its own request. */
  lemma ConsumedIsFullyAnswered(fleet: seq<Node>, root: string, path: string, steps: seq<Step>, k: nat)
    requires Exec(Init(path), steps).Some? && Honest(fleet, root, path, steps) && Fresh(steps)
    requires var s := Exec(Init(path), steps).value;
             Landed(s, k) && s.log[k].request.Some? && forall node :: node in fleet ==> Consumed(node, root, s, k)
    ensures var s := Exec(Init(path), steps).value;
            FullyAnswered(Delivered(s, k), fleet, s.log[k].request.value, root)
  {
    var s := Exec(Init(path), steps).value;
    var req := s.log[k].request.value;
    DeliveredArrived(path, steps, k);
    var events := Delivered(s, k);
    forall ev | ev in events ensures SomeNodes(fleet, req, root, ev) {
      var i :| 0 <= i < |events| && events[i] == ev;
      OwnAnswersOnly(fleet, root, path, steps, k, s.log[k].seen[i]);
    }
    forall node | node in fleet ensures Heard(node, req, root, events) {
      assert Consumed(node, root, s, k);
      var i :| 0 <= i < |s.log[k].seen| && Answers(node, req, root, s.arrivals[s.log[k].seen[i]]);
      assert events[i] == s.arrivals[s.log[k].seen[i]];
    }
  }

  lemma SettledIsFullyAnswered(fleet: seq<Node>, root: string, path: string, steps: seq<Step>, k: nat)
    requires Exec(Init(path), steps).Some? && Honest(fleet, root, path, steps) && Fresh(steps)
    requires Settled(fleet, root, Exec(Init(path), steps).value, k)
    ensures var s := Exec(Init(path), steps).value;
            Landed(s, k) && FullyAnswered(Delivered(s, k), fleet, s.log[k].request.value, root)
  {
    SettledHasAll(fleet, root, path, steps, k);
    ConsumedIsFullyAnswered(fleet, root, path, steps, k);
  }

  // ------------------------------------------------------------- returned calls

  /** Call k is on its way out or gone */
  ghost predicate Over(s: State, k: nat) {
    k < |s.log| && (s.log[k].phase == Leaving || s.log[k].phase == Gone)
  }

  /** t has what s has of call k's outcome, and call k is over */
  ghost predicate OutcomeKept(s: State, t: State, k: nat) {
    && k < |s.log| && Over(t, k) && s.arrivals <= t.arrivals
    && t.log[k].seen == s.log[k].seen && t.log[k].request == s.log[k].request
  }

  lemma OutcomeKeptStep(s: State, t: State, step: Step, k: nat)
    requires OutcomeKept(s, t, k) && Enabled(t, step)
    ensures OutcomeKept(s, Next(t, step), k)
  {
  }

  lemma {:induction false} ExecPrefix(s: State, steps: seq<Step>, p: nat)
    requires p <= |steps| && Exec(s, steps).Some?
    ensures Exec(s, steps[..p]).Some?
  {
    if p < |steps| {
      assert steps[..|steps| - 1][..p] == steps[..p];
      ExecPrefix(s, steps[..|steps| - 1], p);
    } else {
      assert steps[..p] == steps;
    }
  }

  /** From its deadline on, whatever else goes on and until after its return,
      nothing changes what a call has been handed. */
  lemma {:induction false} ExpiredIsOver(path: string, steps: seq<Step>, k: nat, p: nat)
    requires Exec(Init(path), steps).Some? && p < |steps| && steps[p] == Expire(k)
    ensures Exec(Init(path), steps[..p]).Some?
    ensures OutcomeKept(Exec(Init(path), steps[..p]).value, Exec(Init(path), steps).value, k)
  {
    ExecPrefix(Init(path), steps, p);
    var init := steps[..|steps| - 1];
    if p < |steps| - 1 {
      assert init[..p] == steps[..p];
      ExpiredIsOver(path, init, k, p);
      OutcomeKeptStep(Exec(Init(path), steps[..p]).value, Exec(Init(path), init).value, steps[|steps| - 1], k);
    } else {
      assert init == steps[..p];
    }
  }

  lemma {:induction false} HonestPrefix(fleet: seq<Node>, root: string, path: string, steps: seq<Step>, p: nat)
    requires p <= |steps| && Honest(fleet, root, path, steps) && Fresh(steps)
    ensures Honest(fleet, root, path, steps[..p]) && Fresh(steps[..p])
  {
    if p < |steps| {
      assert steps[..|steps| - 1][..p] == steps[..p];
      FreshPrefix(steps);
      HonestPrefix(fleet, root, path, steps[..|steps| - 1], p);
    } else {
      assert steps[..p] == steps;
    }
  }

  /** t comes after s, and has all of call k that s has */
  ghost predicate GoneOn(s: State, t: State, k: nat) {
    && k < |s.log| <= |t.log| && s.log[k].phase != Opening && t.log[k].phase != Opening
    && s.log[k].seen <= t.log[k].seen && t.log[k].request == s.log[k].request && s.arrivals <= t.arrivals
  }

  lemma GoneOnStep(s: State, t: State, step: Step, k: nat)
    requires GoneOn(s, t, k) && Enabled(t, step)
    ensures GoneOn(s, Next(t, step), k)
  {
    RequestKept(t, step, k);
  }

  /** What a call was handed stays handed to it. */
  lemma {:induction false} RunGoesOn(path: string, steps: seq<Step>, k: nat, p: nat)
    requires Exec(Init(path), steps).Some? && p <= |steps| && Exec(Init(path), steps[..p]).Some?
    requires var s := Exec(Init(path), steps[..p]).value; k < |s.log| && s.log[k].phase != Opening
    ensures GoneOn(Exec(Init(path), steps[..p]).value, Exec(Init(path), steps).value, k)
  {
    if p < |steps| {
      var init := steps[..|steps| - 1];
      assert init[..p] == steps[..p];
      RunGoesOn(path, init, k, p);
      GoneOnStep(Exec(Init(path), steps[..p]).value, Exec(Init(path), init).value, steps[|steps| - 1], k);
    } else {
      assert steps[..p] == steps;
    }
  }

  /** Call k has returned by the end of the run, and at some point p of it, at its
      deadline or earlier, it had been settled; what came after, repeats in flight
      and a close included, is left open */
  ghost predicate Returned(fleet: seq<Node>, root: string, path: string, steps: seq<Step>, k: nat, p: nat) {
    && p <= |steps| && Exec(Init(path), steps).Some? && Exec(Init(path), steps[..p]).Some?
    && Settled(fleet, root, Exec(Init(path), steps[..p]).value, k)
    && k < |Exec(Init(path), steps).value.log| && Exec(Init(path), steps).value.log[k].phase == Gone
  }

  lemma ConsumedStays(root: string, s: State, t: State, k: nat, node: Node)
    requires GoneOn(s, t, k) && Landed(s, k) && Landed(t, k) && s.log[k].request.Some? && Consumed(node, root, s, k)
    ensures Consumed(node, root, t, k)
  {
    var i :| 0 <= i < |s.log[k].seen| && Answers(node, s.log[k].request.value, root, s.arrivals[s.log[k].seen[i]]);
    assert t.log[k].seen[i] == s.log[k].seen[i] && t.arrivals[t.log[k].seen[i]] == s.arrivals[s.log[k].seen[i]];
  }

  /** What such a call returns rests on a full answer to its request. */
  lemma ReturnedIsFullyAnswered(fleet: seq<Node>, root: string, path: string, steps: seq<Step>, k: nat, p: nat)
    requires Honest(fleet, root, path, steps) && Fresh(steps) && Returned(fleet, root, path, steps, k, p)
    ensures var s := Exec(Init(path), steps).value;
            && Landed(s, k) && s.log[k].request.Some?
            && FullyAnswered(Delivered(s, k), fleet, s.log[k].request.value, root)
  {
    var s, t := Exec(Init(path), steps[..p]).value, Exec(Init(path), steps).value;
    HonestPrefix(fleet, root, path, steps, p);
    SettledHasAll(fleet, root, path, steps[..p], k);
    RunGoesOn(path, steps, k, p);
    DeliveredArrived(path, steps, k);
    forall node | node in fleet ensures Consumed(node, root, t, k) { ConsumedStays(root, s, t, k, node); }
    ConsumedIsFullyAnswered(fleet, root, path, steps, k);
  }

  /** From the wire to the returned outcome. A FilterMatch and a Query of the same
      expression, one after the other or at the same time, over one session with
      any number of other calls or over two, each with an answer of every node
      through by the time it left off: what they return sorts the fleet the same way exactly if
      the expression is not empty and no node fails without a word. Then the
      counts Eval reports are the same too. */
  lemma ReturnedOutcomesAgree(codec: Codec, fleet: seq<Node>, root: string, expr: string,
                              path: string, steps: seq<Step>, j: nat, p: nat,
                              path': string, steps': seq<Step>, k: nat, q: nat)
    requires codec.Faithful() && WellNamed(fleet)
    requires Honest(fleet, root, path, steps) && Fresh(steps) && Returned(fleet, root, path, steps, j, p)
    requires Honest(fleet, root, path', steps') && Fresh(steps') && Returned(fleet, root, path', steps', k, q)
    requires var s := Exec(Init(path), steps).value; s.log[j].request.Some? ==> AsksFilter(s.log[j].request.value, expr)
    requires var s' := Exec(Init(path'), steps').value;
             s'.log[k].request.Some? ==> AsksQuery(s'.log[k].request.value, expr)
    ensures var s, s' := Exec(Init(path), steps).value, Exec(Init(path'), steps').value;
            var comparable := forall n :: 0 <= n < |fleet| ==> Comparable(fleet[n], expr);
            && Landed(s, j) && Landed(s', k)
            && (SameClasses(FilterOutcome(codec, s, j), QueryOutcome(codec, s', k)) <==> comparable)
            && (comparable ==>
                  && EvalFilter(Replies(codec, Delivered(s, j))) == EvalQuery(codec, Replies(codec, Delivered(s', k)))
                  && EvalFilter(Replies(codec, Delivered(s, j))).responded == |fleet|)
            && (expr != "" ==>
                  var yes, broken, mute := TrueNodes(fleet, expr), BrokenNodes(fleet, expr), MuteNodes(fleet, expr);
                  && EvalFilter(Replies(codec, Delivered(s, j))) == Counts(|yes|, |fleet|, |broken|)
                  && EvalQuery(codec, Replies(codec, Delivered(s', k))) == Counts(|yes|, |fleet|, |broken - mute|))
  {
    var s, s' := Exec(Init(path), steps).value, Exec(Init(path'), steps').value;
    ReturnedIsFullyAnswered(fleet, root, path, steps, j, p);
    ReturnedIsFullyAnswered(fleet, root, path', steps', k, q);
    var filterReq, queryReq := s.log[j].request.value, s'.log[k].request.value;
    StrategiesAgree(codec, fleet, expr, root, filterReq, Delivered(s, j), queryReq, Delivered(s', k));
    if forall n :: 0 <= n < |fleet| ==> Comparable(fleet[n], expr) {
      SummariesAgree(codec, fleet, expr, root, filterReq, Delivered(s, j), queryReq, Delivered(s', k));
    }
    if expr != "" {
      FilterCounts(codec, fleet, expr, root, filterReq, Delivered(s, j));
      QueryCounts(codec, fleet, expr, root, queryReq, Delivered(s', k));
    }
  }
}
