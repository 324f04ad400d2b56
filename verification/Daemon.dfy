/** The daemon's decision procedure: plugin/puppet/server.go. */
module Daemon {
  import opened Text
  import opened Facts
  import opened Wire
  import Engine

  /** The read-only part of a Puppet plugin instance */
  datatype Node = Node(
    fqdn: string,
    name: string,
    interp: Engine.Interpreter,
    facts: map<string, Value>,
    classes: seq<string>,
    summary: Summary)

  /** What a command decided: the reply if any, whether it logs an error, and whether it
      called Run */
  datatype Handled = Handled(reply: Option<(Body, ReplyType)>, failed: bool, run: Option<RunOptions>)

  function Silent(): Handled { Handled(None, false, None) }

  function Answer(body: Body, replyType: ReplyType): Handled { Handled(Some((body, replyType)), false, None) }

  function Fail(): Handled { Handled(None, true, None) }

  const PUPPET: string := "puppet"

  /** A path that ends in puppet/<target> */
  predicate NamesTarget(path: seq<string>, target: string) {
    |path| >= 2 && path[|path| - 1] == target && path[|path| - 2] == PUPPET
  }

  predicate UnicastToMe(node: Node, path: seq<string>) {
    NamesTarget(path, node.fqdn)
  }

  predicate UnicastToOther(path: seq<string>) {
    |path| >= 2 && path[|path| - 2] == PUPPET && path[|path| - 1] != PUPPET
  }

  predicate AddressedToMe(node: Node, path: seq<string>) {
    |path| >= 2 &&
    var last, previous := path[|path| - 1], path[|path| - 2];
    || (last == node.fqdn && previous == PUPPET)
    || (last == PUPPET && |path| == 2)
    || (last == PUPPET && previous != PUPPET)
  }

  datatype DumpDecision = DumpAnswer | DumpIgnore | DumpRefuse

  function DecideDump(node: Node, cmd: Command, path: seq<string>): DumpDecision {
    if UnicastToMe(node, path) then DumpAnswer
    else if UnicastToOther(path) then DumpIgnore
    else if |cmd.filter| > 0 then DumpAnswer
    else DumpRefuse
  }

  function DumpRefused(verb: Verb): Handled {
    Answer(MsgBody(NeedsTarget(verb)), ReplyType.Error)
  }

  /** factSubset: the requested keys that exist, or everything */
  function Subset(facts: map<string, Value>, keys: seq<string>): map<string, Value> {
    if |keys| == 0 then facts else map k | k in keys && k in facts :: facts[k]
  }

  method FactSubset(facts: map<string, Value>, keys: seq<string>) returns (out: map<string, Value>)
    ensures out == Subset(facts, keys)
  {
    if |keys| == 0 { return facts; }
    out := map[];
    for i := 0 to |keys|
      invariant out == map k | k in keys[..i] && k in facts :: facts[k]
    {
      if keys[i] in facts { out := out[keys[i] := facts[keys[i]]]; }
    }
    assert keys[..|keys|] == keys;
  }

  /** Exactly the requested entries that exist, or all of them if none are named,
      each with its value */
  ghost predicate Holds(out: map<string, Value>, facts: map<string, Value>, keys: seq<string>) {
    && (forall k :: k in out <==> k in facts && (keys == [] || k in keys))
    && forall k :: k in out ==> out[k] == facts[k]
  }

  lemma SubsetMeaning(facts: map<string, Value>, keys: seq<string>, out: map<string, Value>)
    ensures out == Subset(facts, keys) <==> Holds(out, facts, keys)
  {
    if Holds(out, facts, keys) {
      forall k ensures k in out <==> k in Subset(facts, keys) {}
      assert out.Keys == Subset(facts, keys).Keys;
    }
  }

  function HandleQuery(node: Node, cmd: Command): Handled {
    if |cmd.filter| == 0 then Answer(QueryBody(QueryReply(node.fqdn, false, "empty query", "", "")), PuppetQuery)
    else
      var reply := match Engine.Parse(node.interp, cmd.filter)
        case Error(t) => QueryReply(node.fqdn, false, t, "", "")
        case Value(res) =>
          if !res.boolish then
            QueryReply(node.fqdn, false, "query returned " + res.kind + ", not a boolean", res.kind, res.display)
          else QueryReply(node.fqdn, res.isTrue, "", res.kind, "");
      Answer(QueryBody(reply), PuppetQuery)
  }

  function HandleFactList(node: Node, cmd: Command, path: seq<string>): Handled {
    match DecideDump(node, cmd, path)
    case DumpIgnore => Silent()
    case DumpRefuse => DumpRefused(FactList)
    case DumpAnswer =>
      if cmd.params.empty then Answer(FactsBody(node.fqdn, Subset(node.facts, [])), PuppetFacts)
      else match cmd.params.factList
        case None => Fail()
        case Some(keys) => Answer(FactsBody(node.fqdn, Subset(node.facts, keys)), PuppetFacts)
  }

  function HandleClassList(node: Node, cmd: Command, path: seq<string>): Handled {
    match DecideDump(node, cmd, path)
    case DumpIgnore => Silent()
    case DumpRefuse => DumpRefused(ClassList)
    case DumpAnswer => Answer(ClassesBody(node.fqdn, SortStrings(node.classes)), PuppetClasses)
  }

  /** The command itself, past the filter gate. status is what Run returns. */
  function Perform(node: Node, cmd: Command, path: seq<string>, status: RunStatus): Handled {
    if cmd.verb == Status then Answer(SummaryBody(node.summary), PuppetRunSummary)
    else if cmd.verb == Verb.Run then
      (match cmd.params.run
       case None => Fail()
       case Some(opts) =>
         if !AddressedToMe(node, path) then Silent()
         else Handled(Some((RunStatusBody(status), PuppetRunStatus)), false, Some(opts)))
    else if cmd.verb == Fact then
      (match cmd.params.fact
       case None => Fail()
       case Some(key) =>
         Answer(FactBody(map[key := if key in node.facts then node.facts[key] else Nil]), PuppetFact))
    else if cmd.verb == FactList then HandleFactList(node, cmd, path)
    else if cmd.verb == ClassList then HandleClassList(node, cmd, path)
    else Answer(MsgBody(UnknownCommand(cmd.verb)), ReplyType.Error)
  }

  function HandleCommand(node: Node, cmd: Command, path: seq<string>, status: RunStatus): Handled {
    if cmd.verb == Query then HandleQuery(node, cmd)
    else if |cmd.filter| == 0 then Perform(node, cmd, path, status)
    else
      match Engine.ParseBool(node.interp, cmd.filter)
      case Error(t) => Handled(Some((MsgBody(FilterError(t)), ReplyType.Error)), true, None)
      case Value(false) =>
        if cmd.answerAlways
        then Answer(QueryBody(QueryReply(node.fqdn, false, "", "", "")), PuppetNoMatch)
        else Silent()
      case Value(true) => Perform(node, cmd, path, status)
  }

  /** The whole of HandleEvent: the reply event as it arrives at the client, on
      the reply topic under the event root */
  function HandleEvent(node: Node, req: Request, root: string, status: RunStatus): Option<Event> {
    var path := Split(req.routingKey, '/');
    if req.cmd.None? || |req.replyTo| == 0 || |path| < 2 then None
    else
      match HandleCommand(node, req.cmd.value, path, status).reply
      case None => None
      case Some((body, replyType)) =>
        Some(Event(root + req.replyTo, node.name, req.correlation, Some(node.fqdn), Some(replyType), body))
  }

  // ------------------------------------------------------------- addressing

  /** Sending to puppet/<target>, under whatever event root, gives such a path. */
  lemma UnicastPath(prefix: string, target: string)
    requires prefix == "" || prefix[|prefix| - 1] == '/'
    requires '/' !in target
    ensures NamesTarget(Split(prefix + "puppet/" + target, '/'), target)
  {
    assert prefix + "puppet/" + target == prefix + PUPPET + ['/'] + target;
    SplitLast(prefix + PUPPET, target, '/');
    SplitTail(prefix, PUPPET);
  }

  lemma SplitTail(prefix: string, name: string)
    requires prefix == "" || prefix[|prefix| - 1] == '/'
    requires '/' !in name
    ensures LastSegment(prefix + name) == name
  {
    if prefix == "" {
      assert prefix + name == name;
      SplitAtom(name, '/');
    } else {
      var init := prefix[..|prefix| - 1];
      SplitLast(init, name, '/');
      assert prefix + name == init + ['/'] + name;
    }
  }

  lemma AtomGrows(s: string, init: string, c: char, sep: char)
    requires s == init + [c] && c != sep && Split(init, sep) == [init]
    ensures Split(s, sep) == [s]
  {
    SplitStep(init, c, sep);
    OneGrown(init, c);
  }

  lemma OneGrown(init: string, c: char)
    ensures LastGrown([init], c) == [init + [c]]
  {
  }

  lemma LastOff(s: string)
    requires s != ""
    ensures s == s[..|s| - 1] + [s[|s| - 1]]
  {
  }

  lemma {:induction false} SplitAtom(s: string, sep: char)
    requires sep !in s
    ensures Split(s, sep) == [s]
  {
    if s != "" {
      LastOff(s);
      SplitAtom(s[..|s| - 1], sep);
      AtomGrows(s, s[..|s| - 1], s[|s| - 1], sep);
    }
  }

  /** A root under which a broadcast is taken for one: it does not end in puppet,
      or is nothing but that */
  predicate Heeded(root: string) {
    LastSegment(root) != PUPPET || |Split(root, '/')| == 1
  }

  /** A broadcast under a longer root that ends in puppet looks like a request to a
      node of that name, and is meant for nobody else. */
  lemma BroadcastAddressed(node: Node, root: string)
    ensures AddressedToMe(node, Split(root + "/" + PUPPET, '/')) <==> Heeded(root) || node.fqdn == PUPPET
  {
    BroadcastPath(root);
  }

  lemma BroadcastPath(root: string)
    ensures var path := Split(root + "/" + PUPPET, '/');
            && |path| == |Split(root, '/')| + 1 && path[|path| - 1] == PUPPET && path[|path| - 2] == LastSegment(root)
  {
    SplitLast(root, PUPPET, '/');
  }

  /** The node sends its dump or starts a run */
  predicate Acts(h: Handled) {
    h.run.Some? || (h.reply.Some? && (h.reply.value.0.FactsBody? || h.reply.value.0.ClassesBody?))
  }

  /** The request's filter, if any, lets the node through */
  predicate Passes(node: Node, cmd: Command) {
    cmd.filter == "" || Engine.ParseBool(node.interp, cmd.filter) == Engine.Value(true)
  }

  predicate Unicastable(cmd: Command) {
    || (cmd.verb == Verb.Run && cmd.params.run.Some?)
    || (cmd.verb == FactList && (cmd.params.empty || cmd.params.factList.Some?))
    || cmd.verb == ClassList
  }

  /** Every daemon gets a unicast, and an unfiltered one is acted on and answered
      by the named node and by nobody else. */
  lemma UnicastReachesOne(node: Node, cmd: Command, path: seq<string>, target: string, status: RunStatus)
    requires NamesTarget(path, target) && target != PUPPET
    requires Unicastable(cmd) && cmd.filter == ""
    ensures var h := HandleCommand(node, cmd, path, status);
            && (node.fqdn == target <==> h.reply.Some?)
            && (node.fqdn == target <==> Acts(h))
            && (node.fqdn != target ==> h == Silent())
  {
  }

  /** A filter does not widen it: another node may report on the filter, but it
      neither dumps nor runs. And the named node acts exactly if it matches. */
  lemma FilteredUnicast(node: Node, cmd: Command, path: seq<string>, target: string, status: RunStatus)
    requires NamesTarget(path, target) && target != PUPPET
    requires Unicastable(cmd)
    ensures Acts(HandleCommand(node, cmd, path, status)) <==> node.fqdn == target && Passes(node, cmd)
  {
  }

  /** Over a fleet of distinct names at most one node acts, and one does exactly
      if the target is part of the fleet and matches the filter, if there is one. */
  lemma UnicastActors(fleet: seq<Node>, cmd: Command, path: seq<string>, target: string, status: RunStatus)
    requires NamesTarget(path, target) && target != PUPPET
    requires Unicastable(cmd)
    requires forall i, j :: 0 <= i < j < |fleet| ==> fleet[i].fqdn != fleet[j].fqdn
    ensures var actors := set i | 0 <= i < |fleet| && Acts(HandleCommand(fleet[i], cmd, path, status));
            && |actors| <= 1
            && (|actors| == 1 <==> exists i :: 0 <= i < |fleet| && fleet[i].fqdn == target && Passes(fleet[i], cmd))
            && forall i :: i in actors ==> fleet[i].fqdn == target
  {
    var actors := set i | 0 <= i < |fleet| && Acts(HandleCommand(fleet[i], cmd, path, status));
    forall i | 0 <= i < |fleet|
      ensures i in actors <==> fleet[i].fqdn == target && Passes(fleet[i], cmd)
    {
      FilteredUnicast(fleet[i], cmd, path, target, status);
    }
    if i :| i in actors {
      forall j | j in actors ensures j == i {
        assert fleet[i].fqdn == fleet[j].fqdn;
      }
      assert actors == {i};
    }
  }

  lemma RunDecision(node: Node, cmd: Command, path: seq<string>, status: RunStatus)
    requires cmd.verb == Verb.Run && cmd.params.run.Some? && Passes(node, cmd)
    ensures var h := HandleCommand(node, cmd, path, status);
            if AddressedToMe(node, path) then h.run == cmd.params.run else h == Silent()
  {
  }

  lemma DumpDecided(node: Node, cmd: Command, path: seq<string>, status: RunStatus)
    requires Unicastable(cmd) && cmd.verb != Verb.Run && Passes(node, cmd)
    ensures var h := HandleCommand(node, cmd, path, status);
            match DecideDump(node, cmd, path)
            case DumpAnswer => Acts(h)
            case DumpIgnore => h == Silent()
            case DumpRefuse => h == DumpRefused(cmd.verb)
  {
  }

  lemma BroadcastDump(node: Node, cmd: Command, path: seq<string>)
    requires |path| >= 2 && path[|path| - 1] == PUPPET
    ensures DecideDump(node, cmd, path) ==
            if cmd.filter != "" || (node.fqdn == PUPPET && path[|path| - 2] == PUPPET) then DumpAnswer else DumpRefuse
  {
  }

  /** What a broadcast comes to, under every root, on a node its filter lets
      through. A run is started exactly where the broadcast is heeded, and met
      with silence elsewhere; a dump is sent if there was a filter and refused
      without one, short of a node that goes by the name of puppet itself. */
  lemma BroadcastDecision(node: Node, cmd: Command, root: string, status: RunStatus)
    requires Unicastable(cmd) && Passes(node, cmd)
    ensures var h := HandleCommand(node, cmd, Split(root + "/" + PUPPET, '/'), status);
            if cmd.verb == Verb.Run then
              if Heeded(root) || node.fqdn == PUPPET then h.run == cmd.params.run else h == Silent()
            else if cmd.filter != "" || (node.fqdn == PUPPET && LastSegment(root) == PUPPET) then Acts(h)
            else h == DumpRefused(cmd.verb)
  {
    var path := Split(root + "/" + PUPPET, '/');
    if cmd.verb == Verb.Run {
      BroadcastAddressed(node, root);
      RunDecision(node, cmd, path, status);
    } else {
      BroadcastPath(root);
      BroadcastDump(node, cmd, path);
      DumpDecided(node, cmd, path, status);
    }
  }

  /** The roots that fail: a fleet-wide run under site/puppet is started by no node
      of any fleet, however it is filtered, unless one is named puppet. */
  lemma UnheededRun(fleet: seq<Node>, cmd: Command, root: string, status: RunStatus)
    requires cmd.verb == Verb.Run && !Heeded(root)
    requires forall i :: 0 <= i < |fleet| ==> fleet[i].fqdn != PUPPET
    ensures forall i :: 0 <= i < |fleet| ==>
              HandleCommand(fleet[i], cmd, Split(root + "/" + PUPPET, '/'), status).run == None
  {
    forall i | 0 <= i < |fleet|
      ensures HandleCommand(fleet[i], cmd, Split(root + "/" + PUPPET, '/'), status).run == None
    {
      BroadcastAddressed(fleet[i], root);
    }
  }

  lemma SitePuppetIsUnheeded()
    ensures !Heeded("site/puppet")
  {
    assert "site/puppet" == "site" + "/" + PUPPET;
    SplitLast("site", PUPPET, '/');
    SplitAtom("site", '/');
  }

  // ------------------------------------------------------------- answers

  /** Asked by name, or by a filter that names nobody else */
  predicate DumpsFor(node: Node, cmd: Command, path: seq<string>) {
    || NamesTarget(path, node.fqdn)
    || (cmd.filter != "" && !(|path| >= 2 && path[|path| - 2] == "puppet" && path[|path| - 1] != "puppet"))
  }

  /** The keys a fact dump is narrowed to */
  function RequestedKeys(params: Params): seq<string> {
    if params.empty || params.factList.None? then [] else params.factList.value
  }

  /** A fact dump carries exactly the requested facts of the node that sends it. */
  lemma FactDump(node: Node, cmd: Command, path: seq<string>, status: RunStatus)
    requires cmd.verb == FactList && (cmd.params.empty || cmd.params.factList.Some?)
    requires Passes(node, cmd) && DumpsFor(node, cmd, path)
    ensures var h := HandleCommand(node, cmd, path, status);
            && !h.failed && h.run == None && h.reply.Some?
            && exists m :: Holds(m, node.facts, RequestedKeys(cmd.params)) &&
                 h.reply.value == (FactsBody(node.fqdn, m), PuppetFacts)
  {
    SubsetMeaning(node.facts, RequestedKeys(cmd.params), Subset(node.facts, RequestedKeys(cmd.params)));
  }

  /** A class dump carries the node's classes, each once for every time it has it,
      in order. */
  lemma ClassDump(node: Node, cmd: Command, path: seq<string>, status: RunStatus)
    requires cmd.verb == ClassList && Passes(node, cmd) && DumpsFor(node, cmd, path)
    ensures var h := HandleCommand(node, cmd, path, status);
            && !h.failed && h.run == None && h.reply.Some?
            && exists classes :: Sorted(classes) && multiset(classes) == multiset(node.classes) &&
                 h.reply.value == (ClassesBody(node.fqdn, classes), PuppetClasses)
  {
    SortStringsCorrect(node.classes);
  }

  /** The other answers of a node the filter lets through, whoever was addressed:
      its summary, one fact or the lack of it, and a refusal of what it does not
      know. Parameters that do not decode are an error and no answer. */
  lemma OtherAnswers(node: Node, cmd: Command, path: seq<string>, status: RunStatus)
    requires Passes(node, cmd)
    ensures var h := HandleCommand(node, cmd, path, status);
            && (cmd.verb == Status ==> h == Handled(Some((SummaryBody(node.summary), PuppetRunSummary)), false, None))
            && (cmd.verb == Fact && cmd.params.fact.Some? ==>
                  var key := cmd.params.fact.value;
                  && !h.failed && h.run == None && h.reply.Some? && h.reply.value.1 == PuppetFact
                  && h.reply.value.0 == FactBody(map[key := if key in node.facts then node.facts[key] else Nil]))
            && (cmd.verb.Unknown? ==>
                  h == Handled(Some((MsgBody(UnknownCommand(cmd.verb)), ReplyType.Error)), false, None))
            && (cmd.verb == Verb.Run && cmd.params.run.None? ==> h == Handled(None, true, None))
            && (cmd.verb == Fact && cmd.params.fact.None? ==> h == Handled(None, true, None))
  {
  }

  /** A run that is started is answered with what the run lock said. */
  lemma RunAnswer(node: Node, cmd: Command, path: seq<string>, status: RunStatus)
    requires cmd.verb == Verb.Run && HandleCommand(node, cmd, path, status).run.Some?
    ensures HandleCommand(node, cmd, path, status) ==
            Handled(Some((RunStatusBody(status), PuppetRunStatus)), false, cmd.params.run)
  {
  }

  /** The error text of a query that failed, by the place it failed at */
  predicate SaysWhy(text: string, q: string, f: Engine.Failure) {
    && (f.BadNodeMeta? ==> text == f.text)
    && (f.SyntaxError? ==> text == "error parsing query [" + q + "]: " + f.text)
    && (f.IterationLimit? ==> text == "query [" + q + "]: iterations limit exceeded: " + Itoa(f.iters))
    && (f.RunError? ==> text == "error running query [" + q + "]: " + f.text)
  }

  /** The answer to a query in full, by what the query evaluates to: the display
      and nothing else goes into the value, and only if it is no boolean. */
  lemma QueryReplyCarries(node: Node, cmd: Command, path: seq<string>, status: RunStatus)
    requires cmd.verb == Query
    ensures var h := HandleCommand(node, cmd, path, status);
            && !h.failed && h.run == None && h.reply.Some? && h.reply.value.1 == PuppetQuery
            && h.reply.value.0.QueryBody?
            && var qr := h.reply.value.0.reply;
               && qr.fqdn == node.fqdn
               && (cmd.filter == "" ==> qr == QueryReply(node.fqdn, false, "empty query", "", ""))
               && (cmd.filter != "" ==>
                     var out := node.interp(cmd.filter);
                     && (out.Fails? ==>
                           && qr == QueryReply(node.fqdn, false, qr.error, "", "")
                           && SaysWhy(qr.error, cmd.filter, out.failure))
                     && (out.Yields? && Engine.Filterable(out.expr) ==>
                           qr == QueryReply(node.fqdn, Engine.Truthy(out.expr), "", Engine.KindText(out.expr), ""))
                     && (out.Yields? && !Engine.Filterable(out.expr) ==>
                           var kind := Engine.KindText(out.expr);
                           qr == QueryReply(node.fqdn, false, "query returned " + kind + ", not a boolean", kind,
                                            out.display)))
  {
    if cmd.filter != "" && node.interp(cmd.filter).Yields? {
      var out := node.interp(cmd.filter);
      Engine.ResultMeaning(out.expr, out.display);
    }
  }

  /** What the filter gate does to every other command. */
  lemma FilterGate(node: Node, cmd: Command, path: seq<string>, status: RunStatus)
    requires cmd.verb != Query && cmd.filter != "" && !Passes(node, cmd)
    ensures var h := HandleCommand(node, cmd, path, status);
            match Engine.ParseBool(node.interp, cmd.filter)
            case Error(t) => h == Handled(Some((MsgBody(FilterError(t)), ReplyType.Error)), true, None)
            case Value(_) =>
              if cmd.answerAlways
              then h == Handled(Some((QueryBody(QueryReply(node.fqdn, false, "", "", "")), PuppetNoMatch)), false, None)
              else h == Handled(None, false, None)
  {
  }

  /** Nothing is sent exactly for a request that does not decode, has nowhere to
      reply to or no second level to its topic, and where the command has nothing
      to say; what is sent goes to the reply topic under the root, with the
      request's id and the node's settled name. */
  lemma EventAnswered(node: Node, req: Request, root: string, status: RunStatus)
    ensures var path := Split(req.routingKey, '/');
            var sent := HandleEvent(node, req, root, status);
            && (sent.Some? <==>
                  && req.cmd.Some? && req.replyTo != "" && |path| >= 2
                  && HandleCommand(node, req.cmd.value, path, status).reply.Some?)
            && (sent.Some? ==>
                  var ev := sent.value;
                  && ev.routingKey == root + req.replyTo && ev.correlation == req.correlation
                  && ev.fqdn == Some(node.fqdn) && ev.nodeName == node.name
                  && ev.replyType.Some?
                  && Some((ev.body, ev.replyType.value)) == HandleCommand(node, req.cmd.value, path, status).reply)
  {
  }
}
