/** Folding a stream of replies into an outcome: client/query.go. */
module Outcomes {
  import opened Text
  import opened Wire

  // ------------------------------------------------------------- sightings

  datatype Verdict = Matches | Differs | Breaks(text: string)

  /** What one reply says about the node it is from */
  datatype Sighting = Sighting(fqdn: string, verdict: Verdict, value: string)

  function FilterSighting(reply: Reply): Sighting {
    var verdict :=
      if reply.nodeErr.Some? then Breaks(reply.nodeErr.value)
      else if reply.noMatch then Differs
      else Matches;
    Sighting(reply.fqdn, verdict, "")
  }

  /** The query reply Query works with, whatever arrived */
  function Effective(codec: Codec, reply: Reply): QueryReply {
    var qr :=
      if reply.nodeErr.Some? then QueryReply(reply.fqdn, false, reply.nodeErr.value, "", "")
      else match codec.asQuery(reply.body)
        case Decoded(q) => q
        case Undecodable(why) => QueryReply(reply.fqdn, false, "undecodable reply: " + why, "", "");
    if |qr.fqdn| == 0 then qr.(fqdn := reply.fqdn) else qr
  }

  function QuerySighting(codec: Codec, reply: Reply): Sighting {
    SightingOf(Effective(codec, reply))
  }

  function SightingOf(qr: QueryReply): Sighting {
    var verdict := if |qr.error| > 0 then Breaks(qr.error) else if qr.matched then Matches else Differs;
    Sighting(qr.fqdn, verdict, qr.value)
  }

  /** What FilterMatch makes of a reply. */
  lemma FilterSightingMeaning(codec: Codec, ev: Event)
    ensures var s := FilterSighting(NewReply(codec, ev));
            && s.fqdn == NewReply(codec, ev).fqdn && s.value == ""
            && (s.verdict == Differs <==> ev.replyType == Some(PuppetNoMatch))
            && (s.verdict.Breaks? <==> ev.replyType == Some(ReplyType.Error))
            && (s.verdict.Breaks? ==> Some(s.verdict.text) == NewReply(codec, ev).nodeErr)
  {
  }

  /** What Query makes of a reply: an error for the node that sent it if the reply
      is one or does not decode, and otherwise what the decoded answer says about
      the node it names, or the sender if it names none. */
  lemma QuerySightingMeaning(codec: Codec, ev: Event)
    ensures var reply := NewReply(codec, ev);
            var s := QuerySighting(codec, reply);
            var qr := codec.asQuery(ev.body);
            if ev.replyType == Some(ReplyType.Error) then
              reply.nodeErr.Some? && s == Sighting(reply.fqdn, Breaks(reply.nodeErr.value), "")
            else if qr.Undecodable? then
              s == Sighting(reply.fqdn, Breaks("undecodable reply: " + qr.why), "")
            else
              && s.fqdn == (if qr.value.fqdn != "" then qr.value.fqdn else reply.fqdn)
              && s.value == qr.value.value
              && s.verdict == if qr.value.error != "" then Breaks(qr.value.error)
                              else if qr.value.matched then Matches else Differs
  {
    NewReplyMeaning(codec, ev);
    if codec.asQuery(ev.body).Undecodable? {
      assert |"undecodable reply: " + codec.asQuery(ev.body).why| > 0;
    }
  }

  // ------------------------------------------------------------- reference

  /** Sighting i is the first of a named node */
  ghost predicate First(ss: seq<Sighting>, i: int) {
    0 <= i < |ss| && ss[i].fqdn != "" && forall j :: 0 <= j < i ==> ss[j].fqdn != ss[i].fqdn
  }

  /** The first word on fqdn is v */
  ghost predicate Says(ss: seq<Sighting>, fqdn: string, v: Verdict) {
    exists i :: First(ss, i) && ss[i].fqdn == fqdn && ss[i].verdict == v
  }

  /** Every named node seen so far */
  function Spoke(ss: seq<Sighting>): set<string> {
    set i | 0 <= i < |ss| && ss[i].fqdn != "" :: ss[i].fqdn
  }

  // ------------------------------------------------------------- the fold

  datatype Tally = Tally(
    matched: seq<string>,
    unmatched: seq<string>,
    errors: map<string, string>,
    values: map<string, string>,
    order: seq<string>)
  {
    /** FilterOutcome.Answered */
    function Answered(): nat { |matched| + |unmatched| + |errors| }
  }

  function Count(t: Tally, s: Sighting): Tally {
    var t' := match s.verdict
      case Matches => t.(matched := t.matched + [s.fqdn])
      case Differs => t.(unmatched := t.unmatched + [s.fqdn])
      case Breaks(text) => t.(errors := t.errors[s.fqdn := text]);
    var t'' := if |s.value| > 0 then t'.(values := t'.values[s.fqdn := s.value]) else t';
    t''.(order := t''.order + [s.fqdn])
  }

  function Tallied(ss: seq<Sighting>): Tally {
    if ss == [] then Tally([], [], map[], map[], [])
    else
      var init, s := ss[..|ss| - 1], ss[|ss| - 1];
      var t := Tallied(init);
      if s.fqdn == "" || s.fqdn in Spoke(init) then t else Count(t, s)
  }

  lemma TallyGrows(ss: seq<Sighting>, s: Sighting)
    ensures Tallied(ss + [s]) == if s.fqdn == "" || s.fqdn in Spoke(ss) then Tallied(ss) else Count(Tallied(ss), s)
  {
    assert (ss + [s])[..|ss|] == ss;
  }

  // ------------------------------------------------------------- what it means

  lemma SpokeGrows(ss: seq<Sighting>, s: Sighting)
    ensures Spoke(ss + [s]) == if s.fqdn == "" then Spoke(ss) else Spoke(ss) + {s.fqdn}
  {
    var longer := ss + [s];
    forall f | f in Spoke(ss) ensures f in Spoke(longer) {
      var i :| 0 <= i < |ss| && ss[i].fqdn != "" && ss[i].fqdn == f;
      assert longer[i] == ss[i];
    }
    if s.fqdn != "" { assert longer[|ss|] == s; }
    forall f | f in Spoke(longer) ensures f in Spoke(ss) || (f == s.fqdn && s.fqdn != "") {
      var i :| 0 <= i < |longer| && longer[i].fqdn != "" && longer[i].fqdn == f;
      if i < |ss| { assert ss[i] == longer[i]; }
    }
  }

  lemma SaysGrows(ss: seq<Sighting>, s: Sighting, f: string, v: Verdict)
    ensures Says(ss + [s], f, v) <==>
              Says(ss, f, v) || (f == s.fqdn && s.fqdn != "" && s.fqdn !in Spoke(ss) && v == s.verdict)
  {
    var longer := ss + [s];
    if Says(ss, f, v) {
      var i :| First(ss, i) && ss[i].fqdn == f && ss[i].verdict == v;
      assert First(longer, i);
    }
    if f == s.fqdn && s.fqdn != "" && s.fqdn !in Spoke(ss) && v == s.verdict {
      assert forall j :: 0 <= j < |ss| ==> longer[j] == ss[j];
      assert First(longer, |ss|);
    }
    if Says(longer, f, v) {
      var i :| First(longer, i) && longer[i].fqdn == f && longer[i].verdict == v;
      if i < |ss| {
        assert First(ss, i) by { assert forall j :: 0 <= j <= i ==> longer[j] == ss[j]; }
      } else {
        assert forall j :: 0 <= j < |ss| ==> longer[j] == ss[j];
      }
    }
  }

  /** The class of a verdict holds fqdn, an error with that very text */
  predicate InClass(t: Tally, fqdn: string, v: Verdict) {
    match v
    case Matches => fqdn in t.matched
    case Differs => fqdn in t.unmatched
    case Breaks(text) => fqdn in t.errors && t.errors[fqdn] == text
  }

  /** Under any arrival order, duplication or loss each class holds exactly the
      nodes whose first word it is. */
  lemma {:induction false} TallyIsFirstWord(ss: seq<Sighting>, f: string, v: Verdict)
    ensures InClass(Tallied(ss), f, v) <==> Says(ss, f, v)
  {
    if ss != [] {
      var init, s := ss[..|ss| - 1], ss[|ss| - 1];
      assert ss == init + [s];
      TallyIsFirstWord(init, f, v);
      SaysGrows(init, s, f, v);
      if s.fqdn != "" && s.fqdn !in Spoke(init) {
        TallyPartition(init);
        CountClasses(Tallied(init), s, f, v);
      }
    }
  }

  lemma CountClasses(t: Tally, s: Sighting, f: string, v: Verdict)
    requires s.fqdn !in t.errors
    ensures InClass(Count(t, s), f, v) <==> InClass(t, f, v) || (f == s.fqdn && v == s.verdict)
  {
  }

  /** A first reply of a named node brings that value */
  ghost predicate Brings(ss: seq<Sighting>, fqdn: string, value: string) {
    exists i :: First(ss, i) && ss[i].fqdn == fqdn && ss[i].value == value
  }

  lemma BringsGrows(ss: seq<Sighting>, s: Sighting, f: string, v: string)
    ensures Brings(ss + [s], f, v) <==>
              Brings(ss, f, v) || (f == s.fqdn && s.fqdn != "" && s.fqdn !in Spoke(ss) && v == s.value)
  {
    var longer := ss + [s];
    forall i ensures First(longer, i) <==> First(ss, i) || (i == |ss| && s.fqdn != "" && s.fqdn !in Spoke(ss)) {
      FirstGrows(ss, s, i);
    }
    if Brings(ss, f, v) {
      var i :| First(ss, i) && ss[i].fqdn == f && ss[i].value == v;
      assert First(longer, i) && longer[i] == ss[i];
    }
    if f == s.fqdn && s.fqdn != "" && s.fqdn !in Spoke(ss) && v == s.value {
      assert First(longer, |ss|) && longer[|ss|] == s;
    }
    if Brings(longer, f, v) {
      var i :| First(longer, i) && longer[i].fqdn == f && longer[i].value == v;
      if i < |ss| { assert First(ss, i) && longer[i] == ss[i]; }
    }
  }

  lemma CountValue(t: Tally, s: Sighting, f: string, v: string)
    requires s.fqdn !in t.values
    ensures HasValue(Count(t, s), f, v) <==> HasValue(t, f, v) || (f == s.fqdn && v == s.value && v != "")
  {
  }

  lemma ValueOneMore(ss: seq<Sighting>, s: Sighting, f: string, v: string)
    requires HasValue(Tallied(ss), f, v) <==> v != "" && Brings(ss, f, v)
    ensures HasValue(Tallied(ss + [s]), f, v) <==> v != "" && Brings(ss + [s], f, v)
  {
    TallyGrows(ss, s);
    BringsGrows(ss, s, f, v);
    if s.fqdn != "" && s.fqdn !in Spoke(ss) {
      NoValueYet(ss, s.fqdn);
      CountValue(Tallied(ss), s, f, v);
    }
  }

  lemma NoValueYet(ss: seq<Sighting>, f: string)
    requires f !in Spoke(ss)
    ensures f !in Tallied(ss).values
  {
    TallyPartition(ss);
  }

  predicate HasValue(t: Tally, f: string, v: string) { f in t.values && t.values[f] == v }

  /** A node's value is the one its first reply brought, if that is not empty, and
      there is none otherwise. */
  lemma {:induction false} ValueIsFirst(ss: seq<Sighting>, f: string, v: string)
    ensures HasValue(Tallied(ss), f, v) <==> v != "" && Brings(ss, f, v)
  {
    if ss != [] {
      var init, s := ss[..|ss| - 1], ss[|ss| - 1];
      ValueIsFirst(init, f, v);
      ValueOneMore(init, s, f, v);
      assert ss == init + [s];
    }
  }

  /** The three classes share no node, hold none twice, and together hold names */
  ghost predicate Partition(t: Tally, names: set<string>) {
    && Distinct(t.matched) && Distinct(t.unmatched)
    && (forall f :: f in t.matched ==> f !in t.unmatched && f !in t.errors)
    && (forall f :: f in t.unmatched ==> f !in t.errors)
    && (forall f :: f in names <==> f in t.matched || f in t.unmatched || f in t.errors)
  }

  ghost predicate Ordered(t: Tally, names: set<string>) {
    Distinct(t.order) && Elements(t.order) == names && t.values.Keys <= names
  }

  lemma CountKeepsPartition(t: Tally, s: Sighting, names: set<string>)
    requires Partition(t, names) && s.fqdn !in names
    ensures Partition(Count(t, s), names + {s.fqdn})
  {
    match s.verdict
    case Matches => assert Count(t, s).matched == t.matched + [s.fqdn];
    case Differs => assert Count(t, s).unmatched == t.unmatched + [s.fqdn];
    case Breaks(text) =>
  }

  lemma CountKeepsOrder(t: Tally, s: Sighting, names: set<string>)
    requires Ordered(t, names) && s.fqdn !in names
    ensures Ordered(Count(t, s), names + {s.fqdn})
  {
    assert s.fqdn !in Elements(t.order);
    assert Elements(t.order + [s.fqdn]) == Elements(t.order) + {s.fqdn};
  }

  /** No node is in two classes or twice in one, and every node that spoke is in
      one of them. */
  lemma {:induction false} TallyPartition(ss: seq<Sighting>)
    ensures Partition(Tallied(ss), Spoke(ss)) && Ordered(Tallied(ss), Spoke(ss))
  {
    if ss != [] {
      var init, s := ss[..|ss| - 1], ss[|ss| - 1];
      assert ss == init + [s];
      TallyPartition(init);
      SpokeGrows(init, s);
      if s.fqdn != "" && s.fqdn !in Spoke(init) {
        CountKeepsPartition(Tallied(init), s, Spoke(init));
        CountKeepsOrder(Tallied(init), s, Spoke(init));
      }
    }
  }

  /** Answered() is the number of nodes that spoke. */
  lemma AnsweredCountsNodes(ss: seq<Sighting>)
    ensures Tallied(ss).Answered() == |Spoke(ss)|
    ensures |Tallied(ss).order| == |Spoke(ss)|
  {
    TallyPartition(ss);
    var t := Tallied(ss);
    DistinctCount(t.order);
    PartitionCount(t, Spoke(ss));
  }

  lemma PartitionCount(t: Tally, names: set<string>)
    requires Partition(t, names)
    ensures t.Answered() == |names|
  {
    DistinctCount(t.matched);
    DistinctCount(t.unmatched);
    PartitionSets(t, names);
    var a, b, c := Elements(t.matched), Elements(t.unmatched), t.errors.Keys;
    UnionCount(a, b);
    UnionCount(a + b, c);
  }

  lemma PartitionSets(t: Tally, names: set<string>)
    requires Partition(t, names)
    ensures var a, b, c := Elements(t.matched), Elements(t.unmatched), t.errors.Keys;
            a !! b && (a + b) !! c && a + b + c == names
  {
    forall f ensures f in Elements(t.matched) <==> f in t.matched {}
    forall f ensures f in Elements(t.unmatched) <==> f in t.unmatched {}
  }

  lemma UnionCount(a: set<string>, b: set<string>)
    requires a !! b
    ensures |a + b| == |a| + |b|
  {
  }

  // ------------------------------------------------------------- FilterMatch

  /** The state FilterMatch's callback closes over */
  class FilterCollector {
    var matched: seq<string>
    var noMatch: seq<string>
    var errors: map<string, string>
    var seen: set<string>
    var notified: seq<string>
    ghost var heard: seq<Sighting>

    ghost predicate Valid()
      reads this
    {
      var t := Tallied(heard);
      && matched == t.matched && noMatch == t.unmatched && errors == t.errors
      && seen == Spoke(heard) && notified == matched
    }

    constructor ()
      ensures Valid() && heard == []
    {
      matched, noMatch, errors, seen, notified, heard := [], [], map[], {}, [], [];
    }

    method OnReply(reply: Reply) returns (more: bool)
      requires Valid()
      modifies this
      ensures Valid() && more && heard == old(heard) + [FilterSighting(reply)]
    {
      ghost var s := FilterSighting(reply);
      SpokeGrows(heard, s);
      TallyGrows(heard, s);
      heard := heard + [s];
      if |reply.fqdn| == 0 || reply.fqdn in seen {
        return true;
      }
      seen := seen + {reply.fqdn};
      if reply.nodeErr.Some? {
        errors := errors[reply.fqdn := reply.nodeErr.value];
      } else if reply.noMatch {
        noMatch := noMatch + [reply.fqdn];
      } else {
        matched := matched + [reply.fqdn];
        notified := notified + [reply.fqdn];
      }
      return true;
    }
  }

  function FilterSightings(replies: seq<Reply>): seq<Sighting> {
    seq(|replies|, i requires 0 <= i < |replies| => FilterSighting(replies[i]))
  }

  /** FilterMatch over the replies its call delivered; notified is the sequence
      of onNode calls. */
  method FilterMatch(replies: seq<Reply>)
    returns (matched: seq<string>, noMatch: seq<string>, errors: map<string, string>, notified: seq<string>)
    ensures var t := Tallied(FilterSightings(replies));
            matched == t.matched && noMatch == t.unmatched && errors == t.errors && notified == t.matched
  {
    var c := new FilterCollector();
    for i := 0 to |replies|
      invariant c.Valid() && c.heard == FilterSightings(replies)[..i]
    {
      var _ := c.OnReply(replies[i]);
    }
    assert FilterSightings(replies)[..|replies|] == FilterSightings(replies);
    return c.matched, c.noMatch, c.errors, c.notified;
  }

  // ------------------------------------------------------------- Query

  /** The state Query's callback closes over */
  class QueryCollector {
    const codec: Codec
    var matched: seq<string>
    var notMatched: seq<string>
    var errors: map<string, string>
    var values: map<string, string>
    var seen: set<string>
    var notified: seq<QueryReply>
    ghost var told: seq<QueryReply>

    ghost predicate Valid()
      reads this
    {
      && Tallies() == Tallied(SightingsOf(told))
      && seen == Spoke(SightingsOf(told)) && notified == FirstReplies(told)
    }

    ghost function Tallies(): Tally
      reads this
    {
      Tally(matched, notMatched, errors, values, NodesOf(notified))
    }

    constructor (codec: Codec)
      ensures Valid() && told == [] && this.codec == codec
    {
      this.codec := codec;
      matched, notMatched, errors, values, seen, notified, told := [], [], map[], map[], {}, [], [];
    }

    method OnReply(reply: Reply) returns (more: bool)
      requires Valid()
      modifies this
      ensures Valid() && more && told == old(told) + [Effective(codec, reply)]
    {
      var qr := Effective(codec, reply);
      SightingsGrow(told, qr);
      SpokeGrows(SightingsOf(told), SightingOf(qr));
      FirstRepliesGrow(told, qr);
      TallyGrows(SightingsOf(told), SightingOf(qr));
      told := told + [qr];
      if |qr.fqdn| == 0 || qr.fqdn in seen {
        return true;
      }
      seen := seen + {qr.fqdn};
      Record(qr);
      return true;
    }

    /** Into its class, with its value, and on to onNode */
    method Record(qr: QueryReply)
      modifies this`matched, this`notMatched, this`errors, this`values, this`notified
      ensures Tallies() == Count(old(Tallies()), SightingOf(qr)) && notified == old(notified) + [qr]
    {
      NodesOfGrows(notified, qr);
      if |qr.error| > 0 {
        errors := errors[qr.fqdn := qr.error];
      } else if qr.matched {
        matched := matched + [qr.fqdn];
      } else {
        notMatched := notMatched + [qr.fqdn];
      }
      if |qr.value| > 0 {
        values := values[qr.fqdn := qr.value];
      }
      notified := notified + [qr];
    }
  }

  function NodesOf(qrs: seq<QueryReply>): seq<string> {
    seq(|qrs|, i requires 0 <= i < |qrs| => qrs[i].fqdn)
  }

  lemma NodesOfGrows(qrs: seq<QueryReply>, qr: QueryReply)
    ensures NodesOf(qrs + [qr]) == NodesOf(qrs) + [qr.fqdn]
  {
  }

  function SightingsOf(qrs: seq<QueryReply>): seq<Sighting> {
    seq(|qrs|, i requires 0 <= i < |qrs| => SightingOf(qrs[i]))
  }

  lemma SightingsGrow(qrs: seq<QueryReply>, qr: QueryReply)
    ensures SightingsOf(qrs + [qr]) == SightingsOf(qrs) + [SightingOf(qr)]
  {
  }

  /** The replies that are the first about their node */
  function FirstReplies(qrs: seq<QueryReply>): seq<QueryReply> {
    if qrs == [] then []
    else
      var init, qr := qrs[..|qrs| - 1], qrs[|qrs| - 1];
      if qr.fqdn == "" || qr.fqdn in Spoke(SightingsOf(init)) then FirstReplies(init) else FirstReplies(init) + [qr]
  }

  lemma FirstRepliesGrow(qrs: seq<QueryReply>, qr: QueryReply)
    ensures FirstReplies(qrs + [qr]) ==
            if qr.fqdn == "" || qr.fqdn in Spoke(SightingsOf(qrs)) then FirstReplies(qrs) else FirstReplies(qrs) + [qr]
  {
    assert (qrs + [qr])[..|qrs|] == qrs;
  }

  /** qr is the first reply about its node */
  ghost predicate IsFirstReply(qrs: seq<QueryReply>, qr: QueryReply) {
    exists i :: First(SightingsOf(qrs), i) && qrs[i] == qr
  }

  lemma FirstGrows(ss: seq<Sighting>, s: Sighting, i: int)
    ensures First(ss + [s], i) <==> First(ss, i) || (i == |ss| && s.fqdn != "" && s.fqdn !in Spoke(ss))
  {
    var longer := ss + [s];
    assert forall j :: 0 <= j < |ss| ==> longer[j] == ss[j];
    if i == |ss| && s.fqdn in Spoke(ss) {
      var j :| 0 <= j < |ss| && ss[j].fqdn == s.fqdn;
      assert longer[j].fqdn == longer[i].fqdn;
    }
  }

  lemma FirstReplyGrows(qrs: seq<QueryReply>, last: QueryReply, qr: QueryReply)
    ensures IsFirstReply(qrs + [last], qr) <==>
              || IsFirstReply(qrs, qr)
              || (last == qr && last.fqdn != "" && last.fqdn !in Spoke(SightingsOf(qrs)))
  {
    var longer, ss := qrs + [last], SightingsOf(qrs);
    SightingsGrow(qrs, last);
    forall i ensures First(SightingsOf(longer), i) <==>
                       First(ss, i) || (i == |ss| && last.fqdn != "" && last.fqdn !in Spoke(ss))
    {
      FirstGrows(ss, SightingOf(last), i);
    }
    if IsFirstReply(qrs, qr) {
      var i :| First(ss, i) && qrs[i] == qr;
      assert First(SightingsOf(longer), i) && longer[i] == qr;
    }
    if last == qr && last.fqdn != "" && last.fqdn !in Spoke(ss) {
      assert First(SightingsOf(longer), |qrs|) && longer[|qrs|] == qr;
    }
  }

  lemma ToldOneMore(qrs: seq<QueryReply>, init: seq<QueryReply>, last: QueryReply, qr: QueryReply)
    requires qrs == init + [last] && (qr in FirstReplies(init) <==> IsFirstReply(init, qr))
    ensures qr in FirstReplies(qrs) <==> IsFirstReply(qrs, qr)
  {
    FirstRepliesGrow(init, last);
    FirstReplyGrows(init, last, qr);
  }

  /** onNode is told exactly the first reply about each node, matched or not, with
      its error and value. */
  lemma {:induction false} ToldFirstReplies(qrs: seq<QueryReply>, qr: QueryReply)
    ensures qr in FirstReplies(qrs) <==> IsFirstReply(qrs, qr)
  {
    if qrs != [] {
      var init, last := qrs[..|qrs| - 1], qrs[|qrs| - 1];
      ToldFirstReplies(init, qr);
      ToldOneMore(qrs, init, last, qr);
    }
  }

  function Effectives(codec: Codec, replies: seq<Reply>): seq<QueryReply> {
    seq(|replies|, i requires 0 <= i < |replies| => Effective(codec, replies[i]))
  }

  function QuerySightings(codec: Codec, replies: seq<Reply>): seq<Sighting> {
    seq(|replies|, i requires 0 <= i < |replies| => QuerySighting(codec, replies[i]))
  }

  /** Query over the replies its call delivered: onNode is called once for every
      node, in the order the nodes first answered, with that first answer. */
  method QueryFleet(codec: Codec, replies: seq<Reply>)
    returns (matched: seq<string>, notMatched: seq<string>, errors: map<string, string>,
             values: map<string, string>, notified: seq<QueryReply>)
    ensures var t := Tallied(QuerySightings(codec, replies));
            && matched == t.matched && notMatched == t.unmatched && errors == t.errors
            && values == t.values && NodesOf(notified) == t.order
            && notified == FirstReplies(Effectives(codec, replies))
  {
    var c := new QueryCollector(codec);
    for i := 0 to |replies|
      invariant c.Valid() && c.codec == codec && c.told == Effectives(codec, replies)[..i]
    {
      var _ := c.OnReply(replies[i]);
    }
    assert Effectives(codec, replies)[..|replies|] == Effectives(codec, replies);
    assert QuerySightings(codec, replies) == SightingsOf(Effectives(codec, replies));
    return c.matched, c.notMatched, c.errors, c.values, c.notified;
  }

  // ------------------------------------------------------------- status stream

  datatype Coverage = Coverage(matched: nat, noMatch: nat, errors: nat) {
    function Answered(): nat { matched + noMatch + errors }
  }

  datatype Class = CountedNoMatch | CountedError | CountedMatch(summary: Summary) | Uncounted

  function Classify(codec: Codec, reply: Reply): Class {
    if reply.noMatch then CountedNoMatch
    else if reply.nodeErr.Some? then CountedError
    else match codec.asSummary(reply.body)
      case Decoded(s) => CountedMatch(s)
      case Undecodable(_) => Uncounted
  }

  /** The fqdns of the counted replies, one for each reply */
  function Speakers(codec: Codec, replies: seq<Reply>): seq<string> {
    if replies == [] then []
    else
      var init, r := replies[..|replies| - 1], replies[|replies| - 1];
      if Classify(codec, r).Uncounted? then Speakers(codec, init) else Speakers(codec, init) + [r.fqdn]
  }

  datatype Stream = Stream(status: map<string, Summary>, coverage: Coverage)

  function Streamed(codec: Codec, st: Stream, r: Reply): Stream {
    var c := st.coverage;
    match Classify(codec, r)
    case CountedNoMatch => st.(coverage := c.(noMatch := c.noMatch + 1))
    case CountedError => st.(coverage := c.(errors := c.errors + 1))
    case CountedMatch(s) => Stream(st.status[r.fqdn := s], c.(matched := c.matched + 1))
    case Uncounted => st
  }

  function StreamOf(codec: Codec, replies: seq<Reply>): Stream {
    if replies == [] then Stream(map[], Coverage(0, 0, 0))
    else Streamed(codec, StreamOf(codec, replies[..|replies| - 1]), replies[|replies| - 1])
  }

  /** PuppetStatusStream over the replies its call delivered */
  method StatusStream(codec: Codec, replies: seq<Reply>) returns (status: map<string, Summary>, coverage: Coverage)
    ensures Stream(status, coverage) == StreamOf(codec, replies)
  {
    status := map[];
    coverage := Coverage(0, 0, 0);
    for i := 0 to |replies|
      invariant Stream(status, coverage) == StreamOf(codec, replies[..i])
    {
      assert replies[..i + 1][..i] == replies[..i];
      var reply := replies[i];
      if reply.noMatch {
        coverage := coverage.(noMatch := coverage.noMatch + 1);
      } else if reply.nodeErr.Some? {
        coverage := coverage.(errors := coverage.errors + 1);
      } else {
        var decoded := codec.asSummary(reply.body);
        if decoded.Decoded? {
          status := status[reply.fqdn := decoded.value];
          coverage := coverage.(matched := coverage.matched + 1);
        }
      }
    }
    assert replies[..|replies|] == replies;
  }

  /** Every node that replied at all */
  function Repliers(replies: seq<Reply>): set<string> {
    set i | 0 <= i < |replies| :: replies[i].fqdn
  }

  /** The nodes none of whose replies counts: what they sent does not decode */
  function Unheard(codec: Codec, replies: seq<Reply>): set<string> {
    Repliers(replies) - Elements(Speakers(codec, replies))
  }

  /** How many of the names came up before */
  function Repeats(names: seq<string>): nat {
    if names == [] then 0
    else
      var init, last := names[..|names| - 1], names[|names| - 1];
      Repeats(init) + if last in init then 1 else 0
  }

  lemma {:induction false} RepeatsAreSurplus(names: seq<string>)
    ensures |names| == |Elements(names)| + Repeats(names)
    ensures Repeats(names) == 0 <==> Distinct(names)
  {
    if names != [] {
      var init, last := names[..|names| - 1], names[|names| - 1];
      RepeatsAreSurplus(init);
      assert names == init + [last];
      assert Elements(names) == Elements(init) + {last};
      if last in init {
        var i :| 0 <= i < |init| && init[i] == last;
        assert names[i] == names[|names| - 1];
        assert Elements(names) == Elements(init);
      } else {
        assert last !in Elements(init);
      }
      assert Distinct(names) ==> Distinct(init);
    }
  }

  /** Only repliers speak. */
  lemma {:induction false} SpeakersReplied(codec: Codec, replies: seq<Reply>)
    ensures Elements(Speakers(codec, replies)) <= Repliers(replies)
  {
    if replies != [] {
      var init, r := replies[..|replies| - 1], replies[|replies| - 1];
      SpeakersReplied(codec, init);
      assert r.fqdn in Repliers(replies);
      forall f | f in Repliers(init) ensures f in Repliers(replies) {
        var i :| 0 <= i < |init| && init[i].fqdn == f;
        assert replies[i] == init[i];
      }
    }
  }

  /** The stream keeps no seen set and skips what it can not decode, so its
      coverage counts decoded replies. It is the number of nodes that replied at
      all exactly when as many counted replies are repeats as nodes went
      unheard; so with every reply decoded, exactly when nobody answered twice. */
  lemma CoverageCountsReplies(codec: Codec, replies: seq<Reply>)
    ensures var answered, speakers := StreamOf(codec, replies).coverage.Answered(), Speakers(codec, replies);
            && answered == |speakers|
            && (answered == |Repliers(replies)| <==> Repeats(speakers) == |Unheard(codec, replies)|)
            && (Unheard(codec, replies) == {} ==> (answered == |Repliers(replies)| <==> Distinct(speakers)))
            && (Distinct(speakers) ==> (answered == |Repliers(replies)| <==> Unheard(codec, replies) == {}))
  {
    var speakers := Speakers(codec, replies);
    CoverageLength(codec, replies);
    RepeatsAreSurplus(speakers);
    SpeakersReplied(codec, replies);
    UnionCount(Elements(speakers), Unheard(codec, replies));
    assert Elements(speakers) + Unheard(codec, replies) == Repliers(replies);
  }

  ghost predicate NoneDecodes(codec: Codec, replies: seq<Reply>) {
    forall i :: 0 <= i < |replies| ==> Classify(codec, replies[i]).Uncounted?
  }

  lemma {:induction false} NoSpeakers(codec: Codec, replies: seq<Reply>)
    requires NoneDecodes(codec, replies)
    ensures Speakers(codec, replies) == []
  {
    if replies != [] {
      NoSpeakers(codec, replies[..|replies| - 1]);
    }
  }

  lemma NobodyHeard(codec: Codec, replies: seq<Reply>)
    requires Speakers(codec, replies) == []
    ensures StreamOf(codec, replies).coverage.Answered() == 0 && Unheard(codec, replies) == Repliers(replies)
  {
    CoverageLength(codec, replies);
    assert Elements([]) == {};
  }

  /** Replies that do not decode count for nobody, however many nodes sent them. */
  lemma UndecodableIsNobody(codec: Codec, replies: seq<Reply>)
    requires NoneDecodes(codec, replies)
    ensures StreamOf(codec, replies).coverage.Answered() == 0 && Unheard(codec, replies) == Repliers(replies)
  {
    NoSpeakers(codec, replies);
    NobodyHeard(codec, replies);
  }

  lemma CoverageStep(codec: Codec, st: Stream, r: Reply)
    ensures Streamed(codec, st, r).coverage.Answered() ==
            st.coverage.Answered() + if Classify(codec, r).Uncounted? then 0 else 1
  {
  }

  lemma {:induction false} CoverageLength(codec: Codec, replies: seq<Reply>)
    ensures StreamOf(codec, replies).coverage.Answered() == |Speakers(codec, replies)|
  {
    if replies != [] {
      var init, r := replies[..|replies| - 1], replies[|replies| - 1];
      CoverageLength(codec, init);
      CoverageStep(codec, StreamOf(codec, init), r);
    }
  }

  /** Reply i is the last of its node that decodes as a summary, and it holds s */
  ghost predicate LastSummary(codec: Codec, replies: seq<Reply>, i: int, s: Summary) {
    && 0 <= i < |replies| && Classify(codec, replies[i]) == CountedMatch(s)
    && forall j :: i < j < |replies| && replies[j].fqdn == replies[i].fqdn ==>
        !Classify(codec, replies[j]).CountedMatch?
  }

  ghost predicate Summarised(codec: Codec, replies: seq<Reply>, f: string, s: Summary) {
    exists i :: LastSummary(codec, replies, i, s) && replies[i].fqdn == f
  }

  lemma SummarisedGrows(codec: Codec, replies: seq<Reply>, r: Reply, f: string, s: Summary)
    ensures Summarised(codec, replies + [r], f, s) <==>
              if r.fqdn == f && Classify(codec, r).CountedMatch? then Classify(codec, r) == CountedMatch(s)
              else Summarised(codec, replies, f, s)
  {
    var longer := replies + [r];
    assert longer[|replies|] == r && forall j :: 0 <= j < |replies| ==> longer[j] == replies[j];
    if Summarised(codec, longer, f, s) {
      var i :| LastSummary(codec, longer, i, s) && longer[i].fqdn == f;
      if i < |replies| { assert LastSummary(codec, replies, i, s); }
    }
    if r.fqdn == f && Classify(codec, r) == CountedMatch(s) {
      assert LastSummary(codec, longer, |replies|, s);
    }
    if Summarised(codec, replies, f, s) && !(r.fqdn == f && Classify(codec, r).CountedMatch?) {
      var i :| LastSummary(codec, replies, i, s) && replies[i].fqdn == f;
      assert LastSummary(codec, longer, i, s);
    }
  }

  /** The status map holds, for every node, the last summary it sent: unlike the
      other folds, the last word wins here. */
  lemma {:induction false} SummaryIsLastWord(codec: Codec, replies: seq<Reply>, f: string, s: Summary)
    ensures f in StreamOf(codec, replies).status && StreamOf(codec, replies).status[f] == s <==>
        Summarised(codec, replies, f, s)
  {
    if replies != [] {
      var init, r := replies[..|replies| - 1], replies[|replies| - 1];
      assert replies == init + [r];
      SummaryIsLastWord(codec, init, f, s);
      SummarisedGrows(codec, init, r, f, s);
    }
  }

  /** The replies of a kind */
  datatype Kind = NoMatchKind | ErrorKind | SummaryKind

  predicate OfKind(codec: Codec, r: Reply, kind: Kind) {
    match kind
    case NoMatchKind => r.noMatch
    case ErrorKind => !r.noMatch && r.nodeErr.Some?
    case SummaryKind => !r.noMatch && r.nodeErr.None? && codec.asSummary(r.body).Decoded?
  }

  function KindsOf(codec: Codec, replies: seq<Reply>, kind: Kind): set<int> {
    set i | 0 <= i < |replies| && OfKind(codec, replies[i], kind)
  }

  lemma KindsGrow(codec: Codec, replies: seq<Reply>, r: Reply, kind: Kind)
    ensures |KindsOf(codec, replies + [r], kind)| ==
            |KindsOf(codec, replies, kind)| + if OfKind(codec, r, kind) then 1 else 0
  {
    var before, after := KindsOf(codec, replies, kind), KindsOf(codec, replies + [r], kind);
    if OfKind(codec, r, kind) {
      assert after == before + {|replies|};
    } else {
      assert after == before;
    }
  }

  lemma StreamGrows(codec: Codec, replies: seq<Reply>, r: Reply)
    ensures StreamOf(codec, replies + [r]) == Streamed(codec, StreamOf(codec, replies), r)
  {
    assert (replies + [r])[..|replies|] == replies;
  }

  /** Each counter is the number of replies of its kind. */
  lemma {:induction false} CoverageByKind(codec: Codec, replies: seq<Reply>)
    ensures var c := StreamOf(codec, replies).coverage;
            && c.noMatch == |KindsOf(codec, replies, NoMatchKind)|
            && c.errors == |KindsOf(codec, replies, ErrorKind)|
            && c.matched == |KindsOf(codec, replies, SummaryKind)|
  {
    if replies != [] {
      var init, r := replies[..|replies| - 1], replies[|replies| - 1];
      CoverageByKind(codec, init);
      CoverageOneMore(codec, init, r);
      assert replies == init + [r];
    }
  }

  lemma CoverageOneMore(codec: Codec, replies: seq<Reply>, r: Reply)
    requires var c := StreamOf(codec, replies).coverage;
             && c.noMatch == |KindsOf(codec, replies, NoMatchKind)|
             && c.errors == |KindsOf(codec, replies, ErrorKind)|
             && c.matched == |KindsOf(codec, replies, SummaryKind)|
    ensures var c := StreamOf(codec, replies + [r]).coverage;
            && c.noMatch == |KindsOf(codec, replies + [r], NoMatchKind)|
            && c.errors == |KindsOf(codec, replies + [r], ErrorKind)|
            && c.matched == |KindsOf(codec, replies + [r], SummaryKind)|
  {
    StreamGrows(codec, replies, r);
    KindsGrow(codec, replies, r, NoMatchKind);
    KindsGrow(codec, replies, r, ErrorKind);
    KindsGrow(codec, replies, r, SummaryKind);
  }

  /** A repeated answer replaces the summary and still counts, so a summary map
      never outgrows the matches. */
  lemma {:induction false} SummariesAreMatches(codec: Codec, replies: seq<Reply>)
    ensures |StreamOf(codec, replies).status| <= StreamOf(codec, replies).coverage.matched
  {
    if replies != [] {
      SummariesAreMatches(codec, replies[..|replies| - 1]);
    }
  }
}
