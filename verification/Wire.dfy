/** What travels over the broker: requests, replies, and how the client reads a
    reply. client/session.go (callID, newReply), common/rpc.go,
    plugin/puppet/puppet.go. */
module Wire {
  import opened Text
  import opened Facts
  import CallIds

  /** The reply types of common/rpc.go; Named is any other text */
  datatype ReplyType =
    | Error
    | PuppetRunStatus
    | PuppetRunSummary
    | PuppetFact
    | PuppetFacts
    | PuppetClasses
    | PuppetQuery
    | PuppetNoMatch
    | Named(text: string)

  /** The commands of plugin/puppet/puppet.go; Unknown is any other text */
  datatype Verb = Status | Run | Fact | Query | FactList | ClassList | Unknown(text: string)

  /** Durations are nanoseconds */
  datatype RunOptions = RunOptions(delay: int, randomizeDelay: bool, noop: bool)

  datatype RunStatus = RunStatus(scheduled: bool, busy: bool, downtime: bool, started: bool, applying: bool)

  datatype Summary = Summary(yaml: string)

  datatype QueryReply = QueryReply(fqdn: string, matched: bool, error: string, kind: string, value: string)

  /** The texts a daemon answers with instead of a result */
  datatype Message =
    | FilterError(text: string)
    | UnknownCommand(verb: Verb)
    | NeedsTarget(verb: Verb)

  function MessageText(m: Message): string {
    match m
    case FilterError(text) => "filter error: " + text
    case UnknownCommand(verb) => "unknown command " + VerbText(verb)
    case NeedsTarget(verb) => 
      VerbText(verb) + " needs to be addressed at a node (send it to puppet/<fqdn>) or narrowed down with a filter"
  }

  function VerbText(verb: Verb): string {
    match verb
    case Status => "status"
    case Run => "run"
    case Fact => "fact"
    case Query => "query"
    case FactList => "facts"
    case ClassList => "classes"
    case Unknown(text) => text
  }

  /** The refusals a client gets to read. */
  lemma RefusalTexts(text: string)
    ensures MessageText(FilterError(text)) == "filter error: " + text
    ensures MessageText(UnknownCommand(Unknown(text))) == "unknown command " + text
    ensures MessageText(NeedsTarget(FactList)) ==
            "facts" + " needs to be addressed at a node (send it to puppet/<fqdn>) or narrowed down with a filter"
    ensures MessageText(NeedsTarget(ClassList)) ==
            "classes" + " needs to be addressed at a node (send it to puppet/<fqdn>) or narrowed down with a filter"
  {
  }

  /** A reply body, before it is encoded */
  datatype Body =
    | SummaryBody(summary: Summary)
    | RunStatusBody(status: RunStatus)
    | FactBody(fact: map<string, Value>)
    | FactsBody(fqdn: string, facts: map<string, Value>)
    | ClassesBody(fqdn: string, classes: seq<string>)
    | QueryBody(reply: QueryReply)
    | MsgBody(msg: Message)
    | Foreign(bytes: string)

  /** What decoding the request parameters as each command's options gives */
  datatype Params = Params(empty: bool, run: Option<RunOptions>, fact: Option<string>, factList: Option<seq<string>>)

  datatype Command = Command(verb: Verb, filter: string, answerAlways: bool, params: Params)

  /** A request as a daemon receives it; cmd is None when it can not be decoded */
  datatype Request = Request(routingKey: string, replyTo: string, correlation: Option<string>, cmd: Option<Command>)

  /** A reply as the client receives it; None is a header that is missing or not
      a string */
  datatype Event = Event(
    routingKey: string,
    nodeName: string,
    correlation: Option<string>,
    fqdn: Option<string>,
    replyType: Option<ReplyType>,
    body: Body)

  /** The decoders: arbitrary, but right about the bodies encoded for them */
  datatype Codec = Codec(
    asQuery: Body -> Decoding<QueryReply>,
    asMsg: Body -> Decoding<string>,
    asSummary: Body -> Decoding<Summary>,
    raw: Body -> string)
  {
    ghost predicate Faithful() {
      && (forall r :: asQuery(QueryBody(r)) == Decoded(r))
      && (forall m :: asMsg(MsgBody(m)) == Decoded(MessageText(m)))
      && (forall s :: asSummary(SummaryBody(s)) == Decoded(s))
    }
  }

  datatype Decoding<T> = Decoded(value: T) | Undecodable(why: string)

  datatype Reply = Reply(fqdn: string, replyType: ReplyType, body: Body, nodeErr: Option<string>, noMatch: bool)

  function CallID(ev: Event): string {
    match ev.correlation
    case Some(id) => if |id| > 0 then id else LastSegment(ev.routingKey)
    case None => LastSegment(ev.routingKey)
  }

  function LastSegment(topic: string): string {
    var path := Split(topic, '/');
    path[|path| - 1]
  }

  function NewReply(codec: Codec, ev: Event): Reply {
    var fqdn := match ev.fqdn case Some(f) => f case None => ev.nodeName;
    var replyType := match ev.replyType case Some(t) => t case None => Named("");
    var nodeErr :=
      if replyType != Error then None
      else match codec.asMsg(ev.body)
        case Decoded(m) => if |m| > 0 then Some(m) else Some("node reported an error: " + codec.raw(ev.body))
        case Undecodable(_) => Some("node reported an error: " + codec.raw(ev.body));
    Reply(fqdn, replyType, ev.body, nodeErr, replyType == PuppetNoMatch)
  }

  /** What a reply says, by what arrived. The text of an error is never empty. */
  lemma NewReplyMeaning(codec: Codec, ev: Event)
    ensures var r := NewReply(codec, ev);
            && r.body == ev.body
            && r.fqdn == (if ev.fqdn.Some? then ev.fqdn.value else ev.nodeName)
            && (r.noMatch <==> ev.replyType == Some(PuppetNoMatch))
            && (r.nodeErr.Some? <==> ev.replyType == Some(ReplyType.Error))
            && (r.nodeErr.Some? ==>
                  var msg := codec.asMsg(ev.body);
                  && r.nodeErr.value != ""
                  && if msg.Decoded? && msg.value != "" then r.nodeErr.value == msg.value
                     else r.nodeErr.value == "node reported an error: " + codec.raw(ev.body))
  {
    assert |"node reported an error: " + codec.raw(ev.body)| > 0;
  }

  /** The two places a call puts its id (client/session.go:141-142) */
  function ReplyTo(replyPath: string, id: string): string {
    replyPath + "/" + id
  }

  lemma LastOfReplyTo(root: string, replyPath: string, id: string)
    requires '/' !in id
    ensures LastSegment(root + ReplyTo(replyPath, id)) == id
  {
    SplitLast(root + replyPath, id, '/');
    assert root + ReplyTo(replyPath, id) == root + replyPath + ['/'] + id;
  }

  /** Either place alone is enough to find the call again: a reply that kept the
      header, and one that only arrived on the right topic, whatever the event
      root in front of it. */
  lemma CallIDRoundTrip(ev: Event, root: string, replyPath: string, blob: seq<CallIds.Byte>)
    requires |blob| > 0
    requires var id := CallIds.MapBytesToTopicTitle(blob);
             || ev.correlation == Some(id)
             || ((ev.correlation == None || ev.correlation == Some(""))
                 && ev.routingKey == root + ReplyTo(replyPath, id))
    ensures CallIds.TitleToBytes(CallID(ev)) == Some(blob)
    ensures CallID(ev) == CallIds.MapBytesToTopicTitle(blob)
  {
    var id := CallIds.MapBytesToTopicTitle(blob);
    CallIds.TitleRoundTrip(blob);
    CallIds.TitleIsTopicFriendly(blob);
    LastOfReplyTo(root, replyPath, id);
  }
}
