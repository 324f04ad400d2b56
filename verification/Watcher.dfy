/** The live view of the fleet: client/watch.go and client/discovery.go, and its
    agreement with the cleanup. */
module Watcher {
  import opened Text
  import opened Facts
  import opened Presence

  datatype Node = Node(fqdn: string, version: string, features: seq<string>, services: seq<string>, lastUpdate: int,
      staleAge: int)

  const RODREV: string := "rodrev"

  const STALE_AFTER: int := 3

  /** 15 minutes */
  const MIN_STALE_AGE: int := 900_000_000_000

  /** Three heartbeat intervals, in Go's wrapping Duration arithmetic */
  function StaleAge(interval: int): int {
    var age := WrapInt64(interval * STALE_AFTER);
    if age < MIN_STALE_AGE then MIN_STALE_AGE else age
  }

  ghost function ParseHeartbeat(json: Json, msg: Message): Option<Node> {
    if |msg.payload| == 0 then None
    else match json(msg.payload)
      case None => None
      case Some(info) =>
        if RODREV !in info.services then None
        else match info.services[RODREV].rodrev
          case None => None
          case Some(r) =>
            if |r.fqdn| == 0 then None
            else Some(Node(r.fqdn, r.version, r.features, SortedKeys(info.services.Keys), info.ts,
                StaleAge(r.interval)))
  }

  /** The service names of a heartbeat, sorted */
  ghost predicate NamesServices(names: seq<string>, info: NodeInfo) {
    Sorted(names) && Distinct(names) && Elements(names) == info.services.Keys
  }

  /** The usable rodrev entry of a heartbeat, if it has one */
  ghost predicate Announces(json: Json, msg: Message, info: NodeInfo, r: Rodrev) {
    && msg.payload != "" && json(msg.payload) == Some(info)
    && "rodrev" in info.services && info.services["rodrev"].rodrev == Some(r) && r.fqdn != ""
  }

  /** A message is a node's heartbeat exactly if it has a usable rodrev entry, and
      the node is then what that entry and the message say. */
  lemma HeartbeatMeaning(json: Json, msg: Message, node: Node)
    ensures ParseHeartbeat(json, msg) == Some(node) <==>
              exists info, r :: Announces(json, msg, info, r)
                && node.fqdn == r.fqdn && node.version == r.version && node.features == r.features
                && node.lastUpdate == info.ts && node.staleAge == StaleAge(r.interval)
                && NamesServices(node.services, info)
  {
    if info, r :| Announces(json, msg, info, r) && NamesServices(node.services, info) {
      SortedListingUnique(node.services, SortedKeys(info.services.Keys));
    }
    if ParseHeartbeat(json, msg) == Some(node) {
      var info := json(msg.payload).value;
      assert Announces(json, msg, info, info.services["rodrev"].rodrev.value);
    }
  }

  /** The split Discovery makes */
  predicate IsStale(node: Node, now: int) {
    Sub(now, node.lastUpdate) > node.staleAge
  }

  // ------------------------------------------------------------- following

  ghost function Observe(json: Json, nodes: map<string, Node>, msg: Message): map<string, Node> {
    if |msg.payload| == 0 then nodes - {msg.topic}
    else match ParseHeartbeat(json, msg)
      case None => nodes
      case Some(node) => nodes[msg.topic := node]
  }

  ghost function Watched(json: Json, msgs: seq<Message>): map<string, Node> {
    if msgs == [] then map[] else Observe(json, Watched(json, msgs[..|msgs| - 1]), msgs[|msgs| - 1])
  }

  /** Message i is the last usable heartbeat on its topic, and nothing cleared
      the topic since */
  ghost predicate Current(json: Json, msgs: seq<Message>, i: int) {
    && 0 <= i < |msgs| && ParseHeartbeat(json, msgs[i]).Some?
    && forall j :: i < j < |msgs| && msgs[j].topic == msgs[i].topic ==>
         |msgs[j].payload| > 0 && ParseHeartbeat(json, msgs[j]).None?
  }

  ghost predicate LastHeartbeat(json: Json, msgs: seq<Message>, topic: string, node: Node) {
    exists i :: Current(json, msgs, i) && msgs[i].topic == topic && ParseHeartbeat(json, msgs[i]) == Some(node)
  }

  lemma LastHeartbeatGrows(json: Json, msgs: seq<Message>, m: Message, topic: string, node: Node)
    ensures LastHeartbeat(json, msgs + [m], topic, node) <==>
              if m.topic != topic || (|m.payload| > 0 && ParseHeartbeat(json, m).None?)
                  then LastHeartbeat(json, msgs, topic, node)
              else ParseHeartbeat(json, m) == Some(node)
  {
    var longer := msgs + [m];
    if LastHeartbeat(json, longer, topic, node) {
      var i :| Current(json, longer, i) && longer[i].topic == topic && ParseHeartbeat(json, longer[i]) == Some(node);
      if i < |msgs| {
        assert longer[|msgs|] == m;
        assert Current(json, msgs, i) by {
          forall j | i < j < |msgs| && msgs[j].topic == msgs[i].topic
            ensures |msgs[j].payload| > 0 && ParseHeartbeat(json, msgs[j]).None?
          {
            assert longer[j] == msgs[j];
          }
        }
      }
    }
    if ParseHeartbeat(json, m) == Some(node) && m.topic == topic {
      assert Current(json, longer, |msgs|);
    }
    if LastHeartbeat(json, msgs, topic, node)
        && (m.topic != topic || (|m.payload| > 0 && ParseHeartbeat(json, m).None?)) {
      var i :| Current(json, msgs, i) && msgs[i].topic == topic && ParseHeartbeat(json, msgs[i]) == Some(node);
      assert Current(json, longer, i) by {
        forall j | i < j < |longer| && longer[j].topic == longer[i].topic
          ensures |longer[j].payload| > 0 && ParseHeartbeat(json, longer[j]).None?
        {
          if j < |msgs| { assert longer[j] == msgs[j]; }
        }
      }
    }
  }

  /** The view is exactly the history's last words: each topic maps to its last
      usable heartbeat since the topic was last cleared, and to nothing else. */
  lemma {:induction false} ViewRefinesHistory(json: Json, msgs: seq<Message>, topic: string, node: Node)
    ensures topic in Watched(json, msgs) && Watched(json, msgs)[topic] == node <==>
        LastHeartbeat(json, msgs, topic, node)
  {
    if msgs != [] {
      var init, m := msgs[..|msgs| - 1], msgs[|msgs| - 1];
      assert msgs == init + [m];
      ViewRefinesHistory(json, init, topic, node);
      LastHeartbeatGrows(json, init, m, topic, node);
    }
  }

  // ------------------------------------------------------------- the watcher

  /** The decoded heartbeat, with its service names collected and sorted */
  method ReadHeartbeat(json: Json, msg: Message) returns (node: Option<Node>)
    ensures node == ParseHeartbeat(json, msg)
  {
    if |msg.payload| == 0 { return None; }
    var info := json(msg.payload);
    if info.None? || RODREV !in info.value.services { return None; }
    var r := info.value.services[RODREV].rodrev;
    if r.None? || |r.value.fqdn| == 0 { return None; }
    var services := SortedNames(info.value.services);
    return Some(Node(r.value.fqdn, r.value.version, r.value.features, services, info.value.ts,
        StaleAge(r.value.interval)));
  }

  class NodeWatcher {
    const json: Json
    var nodes: map<string, Node>
    ghost var history: seq<Message>

    ghost predicate Valid()
      reads this
    {
      nodes == Watched(json, history)
    }

    constructor (json: Json)
      ensures Valid() && history == [] && this.json == json
    {
      this.json := json;
      nodes, history := map[], [];
    }

    method Run(msgs: seq<Message>)
      requires Valid()
      modifies this
      ensures Valid() && history == old(history) + msgs
    {
      for i := 0 to |msgs|
        invariant Valid() && history == old(history) + msgs[..i]
      {
        var msg := msgs[i];
        ghost var longer := history + [msg];
        assert longer[..|history|] == history;
        assert longer == old(history) + msgs[..i + 1];
        history := longer;
        if |msg.payload| == 0 {
          nodes := nodes - {msg.topic};
          continue;
        }
        var node := ReadHeartbeat(json, msg);
        if node.None? { continue; }
        nodes := nodes[msg.topic := node.value];
      }
      assert msgs[..|msgs|] == msgs;
    }

    /** Goes over the topics in whatever order; when two topics share an fqdn the
        later one stands. Every service lists the nodes of all its topics, by
        fqdn. */
    method Discovery(now: int)
      returns (active: map<string, Node>, stale: map<string, Node>, services: map<string, seq<Node>>)
      requires Valid()
      ensures Splits(nodes, now, active, stale)
      ensures Serves(nodes, services) && forall svc :: svc in services ==> ByFqdn(services[svc])
    {
      active, stale := SplitByAge(nodes, now);
      ServicesDistinct(json, history);
      var unsorted := CollectServices(nodes);
      services := SortServices(unsorted);
      SortedServe(nodes, unsorted, services);
    }

    /** Whether the whole fleet can answer the query command */
    method Capable(now: int) returns (capable: bool)
      requires Valid()
      ensures AllAnnounce(json, history, now, "query") ==> capable
      ensures OfOneMind(json, history, now, "query") ==> (capable <==> AllAnnounce(json, history, now, "query"))
    {
      var active, stale, _ := Discovery(now);
      CapableOverHistory(json, history, now, active, stale, "query");
      capable := QueryCapable(active);
    }
  }

  method SplitByAge(nodes: map<string, Node>, now: int) returns (active: map<string, Node>, stale: map<string, Node>)
    ensures Splits(nodes, now, active, stale)
  {
    active, stale := map[], map[];
    var left := nodes.Keys;
    ghost var done: map<string, Node> := map[];
    while left != {}
      invariant left <= nodes.Keys && done == map t | t in nodes && t !in left :: nodes[t]
      invariant Splits(done, now, active, stale)
      decreases |left|
    {
      var t :| t in left;
      var node := nodes[t];
      SplitsGrows(done, now, active, stale, t, node);
      if Sub(now, node.lastUpdate) > node.staleAge {
        stale := stale[node.fqdn := node];
      } else {
        active := active[node.fqdn := node];
      }
      left := left - {t};
      done := done[t := node];
    }
    assert done == nodes;
  }

  // ------------------------------------------------------------- services

  function InsertNode(n: Node, ns: seq<Node>): seq<Node> {
    if ns == [] || Leq(n.fqdn, ns[0].fqdn) then [n] + ns else [ns[0]] + InsertNode(n, ns[1..])
  }

  /** sort.Slice by fqdn; nodes of one fqdn may end up in either order */
  function SortNodes(ns: seq<Node>): seq<Node> {
    if ns == [] then [] else InsertNode(ns[0], SortNodes(ns[1..]))
  }

  ghost predicate ByFqdn(ns: seq<Node>) {
    forall i, j :: 0 <= i < j < |ns| ==> Leq(ns[i].fqdn, ns[j].fqdn)
  }

  ghost predicate AtMost(n: Node, ns: seq<Node>) {
    forall j :: 0 <= j < |ns| ==> Leq(n.fqdn, ns[j].fqdn)
  }

  lemma {:induction false} InsertNodeKeeps(n: Node, ns: seq<Node>)
    ensures multiset(InsertNode(n, ns)) == multiset(ns) + multiset{n}
  {
    if ns != [] && !Leq(n.fqdn, ns[0].fqdn) {
      InsertNodeKeeps(n, ns[1..]);
      assert ns == [ns[0]] + ns[1..];
    }
  }

  lemma {:induction false} InsertNodeSorts(n: Node, ns: seq<Node>)
    requires ByFqdn(ns)
    ensures ByFqdn(InsertNode(n, ns))
  {
    if ns != [] && Leq(n.fqdn, ns[0].fqdn) {
      forall j | 0 < j < |ns| ensures Leq(n.fqdn, ns[j].fqdn) { LeqTransitive(n.fqdn, ns[0].fqdn, ns[j].fqdn); }
      FirstInOrder(n, ns);
    } else if ns != [] {
      InsertNodeSorts(n, ns[1..]);
      AtLeastFirst(n, ns);
      FirstInOrder(ns[0], InsertNode(n, ns[1..]));
    }
  }

  lemma FirstInOrder(n: Node, ns: seq<Node>)
    requires ByFqdn(ns) && AtMost(n, ns)
    ensures ByFqdn([n] + ns)
  {
  }

  lemma AtLeastFirst(n: Node, ns: seq<Node>)
    requires ByFqdn(ns) && ns != [] && !Leq(n.fqdn, ns[0].fqdn)
    ensures AtMost(ns[0], InsertNode(n, ns[1..]))
  {
    var rest := InsertNode(n, ns[1..]);
    InsertNodeKeeps(n, ns[1..]);
    LeqTotal(n.fqdn, ns[0].fqdn);
    forall j | 0 <= j < |rest| ensures Leq(ns[0].fqdn, rest[j].fqdn) {
      assert rest[j] in multiset(rest);
      if rest[j] != n {
        assert rest[j] in multiset(ns[1..]);
        var i :| 0 <= i < |ns[1..]| && ns[1..][i] == rest[j];
        assert ns[i + 1] == rest[j];
      }
    }
  }

  lemma {:induction false} SortNodesCorrect(ns: seq<Node>)
    ensures ByFqdn(SortNodes(ns)) && multiset(SortNodes(ns)) == multiset(ns)
  {
    if ns != [] {
      SortNodesCorrect(ns[1..]);
      InsertNodeSorts(ns[0], SortNodes(ns[1..]));
      InsertNodeKeeps(ns[0], SortNodes(ns[1..]));
      assert ns == [ns[0]] + ns[1..];
    }
  }

  function Listed(services: map<string, seq<Node>>, svc: string): seq<Node> {
    if svc in services then services[svc] else []
  }

  /** The topics that hold a node */
  ghost function Topics(nodes: map<string, Node>, node: Node): set<string> {
    set t | t in nodes && nodes[t] == node
  }

  ghost predicate Provided(nodes: map<string, Node>, svc: string) {
    exists t :: t in nodes && svc in nodes[t].services
  }

  /** How often a service lists a node: once for every topic that holds it */
  ghost function Times(nodes: map<string, Node>, svc: string, node: Node): nat {
    if svc in node.services then |Topics(nodes, node)| else 0
  }

  ghost predicate ListedRight(nodes: map<string, Node>, svc: string, list: seq<Node>) {
    forall node :: multiset(list)[node] == Times(nodes, svc, node)
  }

  /** A service is listed exactly if some topic's node provides it, and lists each
      such node once for every topic that holds it */
  ghost predicate Serves(nodes: map<string, Node>, services: map<string, seq<Node>>) {
    forall svc :: (svc in services <==> Provided(nodes, svc)) && ListedRight(nodes, svc, Listed(services, svc))
  }

  /** node is appended where it belongs */
  ghost predicate Appended(before: map<string, seq<Node>>, after: map<string, seq<Node>>, node: Node, to: seq<string>) {
    forall svc ::
      && (svc in after <==> svc in before || svc in to)
      && Listed(after, svc) == if svc in to then Listed(before, svc) + [node] else Listed(before, svc)
  }

  method AddServices(services: map<string, seq<Node>>, node: Node) returns (out: map<string, seq<Node>>)
    requires Distinct(node.services)
    ensures Appended(services, out, node, node.services)
  {
    out := services;
    for i := 0 to |node.services|
      invariant Appended(services, out, node, node.services[..i])
    {
      var svc := node.services[i];
      assert svc !in node.services[..i];
      assert node.services[..i + 1] == node.services[..i] + [svc];
      out := out[svc := (if svc in out then out[svc] else []) + [node]];
    }
    assert node.services[..|node.services|] == node.services;
  }

  lemma TopicsGrow(nodes: map<string, Node>, t: string, node: Node, other: Node)
    requires t !in nodes
    ensures |Topics(nodes[t := node], other)| == |Topics(nodes, other)| + if other == node then 1 else 0
  {
    var before, after := Topics(nodes, other), Topics(nodes[t := node], other);
    if other == node {
      assert after == before + {t} && t !in before;
    } else {
      assert after == before;
    }
  }

  lemma ListedGrows(nodes: map<string, Node>, t: string, node: Node, svc: string, list: seq<Node>)
    requires t !in nodes && ListedRight(nodes, svc, list)
    ensures ListedRight(nodes[t := node], svc, if svc in node.services then list + [node] else list)
  {
    var more := if svc in node.services then list + [node] else list;
    forall other ensures multiset(more)[other] == Times(nodes[t := node], svc, other) {
      TopicsGrow(nodes, t, node, other);
      assert multiset(list)[other] == Times(nodes, svc, other);
    }
  }

  lemma ProvidedGrows(nodes: map<string, Node>, t: string, node: Node, svc: string)
    requires t !in nodes
    ensures Provided(nodes[t := node], svc) <==> svc in node.services || Provided(nodes, svc)
  {
    var longer := nodes[t := node];
    if Provided(nodes, svc) {
      var u :| u in nodes && svc in nodes[u].services;
      assert u in longer && longer[u] == nodes[u];
    }
    if svc in node.services { assert t in longer && longer[t] == node; }
  }

  lemma ServesGrows(nodes: map<string, Node>, before: map<string, seq<Node>>, after: map<string, seq<Node>>,
      t: string, node: Node)
    requires Serves(nodes, before) && t !in nodes && Appended(before, after, node, node.services)
    ensures Serves(nodes[t := node], after)
  {
    forall svc
      ensures (svc in after <==> Provided(nodes[t := node], svc))
          && ListedRight(nodes[t := node], svc, Listed(after, svc))
    {
      ProvidedGrows(nodes, t, node, svc);
      ListedGrows(nodes, t, node, svc, Listed(before, svc));
    }
  }

  method CollectServices(nodes: map<string, Node>) returns (services: map<string, seq<Node>>)
    requires forall t :: t in nodes ==> Distinct(nodes[t].services)
    ensures Serves(nodes, services)
  {
    services := map[];
    var left := nodes.Keys;
    ghost var done: map<string, Node> := map[];
    while left != {}
      invariant left <= nodes.Keys && done == map t | t in nodes && t !in left :: nodes[t]
      invariant Serves(done, services)
      decreases |left|
    {
      var t :| t in left;
      var more := AddServices(services, nodes[t]);
      ServesGrows(done, services, more, t, nodes[t]);
      services := more;
      left := left - {t};
      done := done[t := nodes[t]];
    }
    assert done == nodes;
  }

  method SortServices(services: map<string, seq<Node>>) returns (out: map<string, seq<Node>>)
    ensures out.Keys == services.Keys && forall svc :: svc in services ==> out[svc] == SortNodes(services[svc])
  {
    out := services;
    var left := services.Keys;
    while left != {}
      invariant left <= services.Keys && out.Keys == services.Keys
      invariant forall svc :: svc in services ==>
          out[svc] == if svc in left then services[svc] else SortNodes(services[svc])
      decreases |left|
    {
      var svc :| svc in left;
      out := out[svc := SortNodes(out[svc])];
      left := left - {svc};
    }
  }

  /** Each list is sorted in place, nothing is added or lost. */
  lemma SortedServe(nodes: map<string, Node>, a: map<string, seq<Node>>, b: map<string, seq<Node>>)
    requires Serves(nodes, a) && b.Keys == a.Keys && forall svc :: svc in a ==> b[svc] == SortNodes(a[svc])
    ensures Serves(nodes, b) && forall svc :: svc in b ==> ByFqdn(b[svc])
  {
    forall svc ensures (svc in b <==> Provided(nodes, svc)) && ListedRight(nodes, svc, Listed(b, svc)) {
      assert svc in b <==> svc in b.Keys;
      assert svc in a <==> svc in a.Keys;
      SortNodesCorrect(Listed(a, svc));
      SameListed(nodes, svc, Listed(a, svc), Listed(b, svc));
    }
    forall svc | svc in b ensures ByFqdn(b[svc]) { SortNodesCorrect(a[svc]); }
  }

  lemma SameListed(nodes: map<string, Node>, svc: string, a: seq<Node>, b: seq<Node>)
    requires ListedRight(nodes, svc, a) && multiset(a) == multiset(b)
    ensures ListedRight(nodes, svc, b)
  {
    forall node ensures multiset(b)[node] == Times(nodes, svc, node) {
      assert multiset(a)[node] == Times(nodes, svc, node);
    }
  }

  lemma {:induction false} ServicesDistinct(json: Json, msgs: seq<Message>)
    ensures forall t :: t in Watched(json, msgs) ==> Distinct(Watched(json, msgs)[t].services)
  {
    if msgs != [] {
      ServicesDistinct(json, msgs[..|msgs| - 1]);
      HeartbeatServices(json, msgs[|msgs| - 1]);
    }
  }

  lemma HeartbeatServices(json: Json, msg: Message)
    ensures ParseHeartbeat(json, msg).Some? ==> Distinct(ParseHeartbeat(json, msg).value.services)
  {
  }

  // ------------------------------------------------------------- discovery

  /** Some topic holds this node */
  ghost predicate Holds(nodes: map<string, Node>, node: Node) {
    exists t :: t in nodes && nodes[t] == node
  }

  /** The fqdns known to be active, and to be stale */
  ghost function Fqdns(nodes: map<string, Node>, now: int, stale: bool): set<string> {
    set t | t in nodes && IsStale(nodes[t], now) == stale :: nodes[t].fqdn
  }

  /** side lists the fqdns that are stale, or those that are not, each with a
      node of that kind */
  ghost predicate Lists(nodes: map<string, Node>, now: int, stale: bool, side: map<string, Node>) {
    && side.Keys == Fqdns(nodes, now, stale)
    && forall f :: f in side ==> side[f].fqdn == f && IsStale(side[f], now) == stale && Holds(nodes, side[f])
  }

  ghost predicate Splits(nodes: map<string, Node>, now: int, active: map<string, Node>, stale: map<string, Node>) {
    Lists(nodes, now, false, active) && Lists(nodes, now, true, stale)
  }

  lemma HoldsGrows(nodes: map<string, Node>, t: string, node: Node, held: Node)
    requires t !in nodes
    ensures Holds(nodes[t := node], held) <==> Holds(nodes, held) || held == node
  {
    var longer := nodes[t := node];
    if Holds(nodes, held) {
      var u :| u in nodes && nodes[u] == held;
      assert u in longer && longer[u] == held;
    }
    if held == node { assert t in longer && longer[t] == node; }
  }

  lemma FqdnsGrows(nodes: map<string, Node>, t: string, node: Node, now: int, stale: bool)
    requires t !in nodes
    ensures Fqdns(nodes[t := node], now, stale) ==
            Fqdns(nodes, now, stale) + if IsStale(node, now) == stale then {node.fqdn} else {}
  {
    var longer := nodes[t := node];
    forall f | f in Fqdns(nodes, now, stale) ensures f in Fqdns(longer, now, stale) {
      var u :| u in nodes && IsStale(nodes[u], now) == stale && nodes[u].fqdn == f;
      assert u in longer && longer[u] == nodes[u];
    }
    if IsStale(node, now) == stale {
      assert t in longer && longer[t] == node;
    }
    forall f | f in Fqdns(longer, now, stale)
      ensures f in Fqdns(nodes, now, stale) || (f == node.fqdn && IsStale(node, now) == stale)
    {
      var u :| u in longer && IsStale(longer[u], now) == stale && longer[u].fqdn == f;
      if u != t { assert u in nodes && nodes[u] == longer[u]; }
    }
  }

  lemma ListsGrows(nodes: map<string, Node>, now: int, stale: bool, side: map<string, Node>, t: string, node: Node)
    requires Lists(nodes, now, stale, side) && t !in nodes
    ensures Lists(nodes[t := node], now, stale, if IsStale(node, now) == stale then side[node.fqdn := node] else side)
  {
    FqdnsGrows(nodes, t, node, now, stale);
    HoldsGrows(nodes, t, node, node);
    forall f | f in side ensures Holds(nodes[t := node], side[f]) { HoldsGrows(nodes, t, node, side[f]); }
  }

  lemma SplitsGrows(nodes: map<string, Node>, now: int, active: map<string, Node>, stale: map<string, Node>,
      t: string, node: Node)
    requires Splits(nodes, now, active, stale) && t !in nodes
    ensures IsStale(node, now) ==> Splits(nodes[t := node], now, active, stale[node.fqdn := node])
    ensures !IsStale(node, now) ==> Splits(nodes[t := node], now, active[node.fqdn := node], stale)
  {
    ListsGrows(nodes, now, false, active, t, node);
    ListsGrows(nodes, now, true, stale, t, node);
  }

  /** Active and stale together are the known fqdns, and an fqdn is in both
      exactly if one of its topics is checking in and another went quiet. */
  lemma DiscoveryCovers(nodes: map<string, Node>, now: int, active: map<string, Node>, stale: map<string, Node>)
    requires Splits(nodes, now, active, stale)
    ensures active.Keys + stale.Keys == set t | t in nodes :: nodes[t].fqdn
    ensures active.Keys !! stale.Keys <==>
              forall t, u :: t in nodes && u in nodes && nodes[t].fqdn == nodes[u].fqdn ==>
                  IsStale(nodes[t], now) == IsStale(nodes[u], now)
  {
    var all := set t | t in nodes :: nodes[t].fqdn;
    forall f ensures f in all <==> f in active.Keys + stale.Keys {
      if f in all {
        var t :| t in nodes && nodes[t].fqdn == f;
        assert f in Fqdns(nodes, now, IsStale(nodes[t], now));
      }
      if f in active.Keys { assert f in Fqdns(nodes, now, false); }
      if f in stale.Keys { assert f in Fqdns(nodes, now, true); }
    }
    if active.Keys !! stale.Keys {
      forall t, u | t in nodes && u in nodes && nodes[t].fqdn == nodes[u].fqdn
        ensures IsStale(nodes[t], now) == IsStale(nodes[u], now)
      {
        assert nodes[t].fqdn in Fqdns(nodes, now, IsStale(nodes[t], now));
        assert nodes[u].fqdn in Fqdns(nodes, now, IsStale(nodes[u], now));
      }
    } else {
      var f :| f in active.Keys && f in stale.Keys;
      var t :| t in nodes && IsStale(nodes[t], now) == false && nodes[t].fqdn == f;
      var u :| u in nodes && IsStale(nodes[u], now) == true && nodes[u].fqdn == f;
    }
  }

  /** Discovery.WithFeature: the active nodes announcing a feature, sorted */
  method WithFeature(active: map<string, Node>, feature: string) returns (out: seq<string>)
    ensures Sorted(out) && Distinct(out)
    ensures Elements(out) == set f | f in active && feature in active[f].features
  {
    out := [];
    var left := active.Keys;
    while left != {}
      invariant left <= active.Keys && Distinct(out)
      invariant Elements(out) == set f | f in active && f !in left && feature in active[f].features
      decreases |left|
    {
      var f :| f in left;
      var has := HasFeature(active[f].features, feature);
      assert f !in Elements(out);
      assert Elements(out + [f]) == Elements(out) + {f};
      if has { out := out + [f]; }
      left := left - {f};
    }
    SortStringsCorrect(out);
    SortKeepsDistinct(out);
    out := SortStrings(out);
  }

  method HasFeature(features: seq<string>, feature: string) returns (has: bool)
    ensures has <==> feature in features
  {
    for i := 0 to |features|
      invariant feature !in features[..i]
    {
      if features[i] == feature { return true; }
    }
    assert features[..|features|] == features;
    return false;
  }

  const QUERY: string := "query"

  /** QueryCapable compares two lengths; it holds exactly if somebody is active
      and every active node announces the query command. */
  method QueryCapable(active: map<string, Node>) returns (capable: bool)
    ensures capable <==> active != map[] && forall f :: f in active ==> "query" in active[f].features
  {
    var with := WithFeature(active, QUERY);
    DistinctCount(with);
    capable := |active| > 0 && |with| == |active|;
    FullSubset(Elements(with), active.Keys);
  }

  /** The heartbeat a topic stands on announces the feature */
  ghost predicate TopicAnnounces(json: Json, msgs: seq<Message>, t: string, feature: string) {
    exists i, info, r :: Current(json, msgs, i) && msgs[i].topic == t && Announces(json, msgs[i], info, r) &&
      feature in r.features
  }

  lemma FeatureOfTopic(json: Json, msgs: seq<Message>, t: string, feature: string)
    requires t in Watched(json, msgs)
    ensures feature in Watched(json, msgs)[t].features <==> TopicAnnounces(json, msgs, t, feature)
  {
    var node := Watched(json, msgs)[t];
    ViewRefinesHistory(json, msgs, t, node);
    var i :| Current(json, msgs, i) && msgs[i].topic == t && ParseHeartbeat(json, msgs[i]) == Some(node);
    HeartbeatMeaning(json, msgs[i], node);
    var info, r :| Announces(json, msgs[i], info, r) && node.features == r.features;
    if TopicAnnounces(json, msgs, t, feature) {
      var j, info', r' :| Current(json, msgs, j) && msgs[j].topic == t && Announces(json, msgs[j], info', r') &&
        feature in r'.features;
      OneCurrent(json, msgs, i, j);
    }
  }

  /** A topic stands on one heartbeat. */
  lemma OneCurrent(json: Json, msgs: seq<Message>, i: int, j: int)
    requires Current(json, msgs, i) && Current(json, msgs, j) && msgs[i].topic == msgs[j].topic
    ensures i == j
  {
  }

  /** The topics of a history whose heartbeat has not gone quiet */
  ghost function ActiveTopics(json: Json, msgs: seq<Message>, now: int): set<string> {
    set t | t in Watched(json, msgs) && !IsStale(Watched(json, msgs)[t], now)
  }

  /** No two active topics of one node differ in what they announce of a feature */
  ghost predicate OfOneMind(json: Json, msgs: seq<Message>, now: int, feature: string) {
    var topics, view := ActiveTopics(json, msgs, now), Watched(json, msgs);
    forall t, u :: t in topics && u in topics && view[t].fqdn == view[u].fqdn ==>
      (TopicAnnounces(json, msgs, t, feature) <==> TopicAnnounces(json, msgs, u, feature))
  }

  ghost predicate AllAnnounce(json: Json, msgs: seq<Message>, now: int, feature: string) {
    && ActiveTopics(json, msgs, now) != {}
    && forall t :: t in ActiveTopics(json, msgs, now) ==> TopicAnnounces(json, msgs, t, feature)
  }

  /** From the payloads to the decision: all active nodes have the feature if all
      active topics announce it, and exactly then where the topics of one node are
      of one mind. */
  lemma CapableOverHistory(json: Json, msgs: seq<Message>, now: int, active: map<string, Node>,
      stale: map<string, Node>, feature: string)
    requires Splits(Watched(json, msgs), now, active, stale)
    ensures var capable := active != map[] && forall f :: f in active ==> feature in active[f].features;
            && (AllAnnounce(json, msgs, now, feature) ==> capable)
            && (OfOneMind(json, msgs, now, feature) ==> (capable <==> AllAnnounce(json, msgs, now, feature)))
  {
    var view := Watched(json, msgs);
    ActiveHasTopics(json, msgs, now, active, stale);
    if AllAnnounce(json, msgs, now, feature) {
      forall f | f in active ensures feature in active[f].features {
        var t :| t in ActiveTopics(json, msgs, now) && view[t] == active[f];
        FeatureOfTopic(json, msgs, t, feature);
      }
    }
    if active != map[] && (forall f :: f in active ==> feature in active[f].features) &&
       OfOneMind(json, msgs, now, feature)
    {
      forall t | t in ActiveTopics(json, msgs, now) ensures TopicAnnounces(json, msgs, t, feature) {
        var f := view[t].fqdn;
        var u :| u in ActiveTopics(json, msgs, now) && view[u] == active[f];
        FeatureOfTopic(json, msgs, u, feature);
      }
    }
  }

  /** The active nodes are those of the active topics. */
  lemma ActiveHasTopics(json: Json, msgs: seq<Message>, now: int, active: map<string, Node>, stale: map<string, Node>)
    requires Splits(Watched(json, msgs), now, active, stale)
    ensures active == map[] <==> ActiveTopics(json, msgs, now) == {}
    ensures forall f :: f in active ==>
              && active[f].fqdn == f
              && exists t :: t in ActiveTopics(json, msgs, now) && Watched(json, msgs)[t] == active[f]
    ensures forall t :: t in ActiveTopics(json, msgs, now) ==> Watched(json, msgs)[t].fqdn in active
  {
    var view := Watched(json, msgs);
    forall f | f in active
      ensures exists t :: t in ActiveTopics(json, msgs, now) && view[t] == active[f]
    {
      assert Holds(view, active[f]);
      var t :| t in view && view[t] == active[f];
      assert t in ActiveTopics(json, msgs, now);
    }
    forall t | t in ActiveTopics(json, msgs, now) ensures view[t].fqdn in active {
      assert view[t].fqdn in Fqdns(view, now, false);
    }
  }

  lemma FullSubset(a: set<string>, b: set<string>)
    requires a <= b
    ensures |a| == |b| <==> a == b
  {
    if a != b {
      var x :| x in b && x !in a;
      SubsetCount(a, b - {x});
    }
  }

  // ------------------------------------------------------------- consistency

  /** Cleanup would remove the message and discovery would show its node as
      active, at the same instant */
  ghost predicate Conflict(json: Json, msg: Message, now: int, maxAge: int) {
    && StaleHeartbeat(json, msg.topic, msg.payload, now, maxAge).Some?
    && ParseHeartbeat(json, msg).Some?
    && !IsStale(ParseHeartbeat(json, msg).value, now)
  }

  /** On discovery topics the two rules never clash as long as the cleanup age is
      at least the node's stale age (and the clock is past the zero time by more
      than the cleanup age, for messages without a timestamp). */
  lemma CleanupSparesActive(json: Json, msg: Message, now: int, maxAge: int)
    requires !Contains(msg.topic, LEGACY) && Sub(now, 0) > maxAge
    requires ParseHeartbeat(json, msg).Some? ==> ParseHeartbeat(json, msg).value.staleAge <= maxAge
    ensures !Conflict(json, msg, now, maxAge)
  {
  }

  /** And the condition is exact: below the stale age there is a heartbeat both
      rules claim, for every interval and every cleanup age. */
  lemma ShortAgeClashes(json: Json, msg: Message, info: NodeInfo, r: Rodrev, now: int, maxAge: int)
    requires !Contains(msg.topic, LEGACY) && msg.payload != "" && json(msg.payload) == Some(info)
    requires RODREV in info.services && info.services[RODREV].rodrev == Some(r) && r.fqdn != ""
    requires 0 <= maxAge < StaleAge(r.interval) && info.ts == now - StaleAge(r.interval) && info.ts != 0
    ensures Conflict(json, msg, now, maxAge)
  {
  }

  /** 30 days */
  const DEFAULT_MAX_AGE: int := 2_592_000_000_000_000

  predicate IsInt64(n: int) { -MAX_INT64 - 1 <= n <= MAX_INT64 }

  /** Three intervals make at most age, counting what wraps around at either end */
  predicate TripleAtMost(interval: int, age: int) {
    var triple := STALE_AFTER * interval;
    if triple > MAX_INT64 then triple - TWO_64 <= age
    else if triple < -MAX_INT64 - 1 then triple + TWO_64 <= age
    else triple <= age
  }

  const TWO_64: int := 0x1_0000_0000_0000_0000

  /** The stale age of every interval a duration can hold, bounded from above. */
  lemma StaleAgeAtMost(interval: int, age: int)
    requires IsInt64(interval) && age >= MIN_STALE_AGE
    ensures StaleAge(interval) <= age <==> TripleAtMost(interval, age)
  {
  }

  /** A node may miss its heartbeats for three intervals before it counts as
      stale exactly if three of them fit a duration; otherwise not even for one. */
  lemma StaleAgeCoversInterval(interval: int)
    requires IsInt64(interval)
    ensures StaleAge(interval) >= 3 * interval <==> interval <= 0x7fff_ffff_ffff_ffff / 3
    ensures StaleAge(interval) < interval <==> interval > 0x7fff_ffff_ffff_ffff / 3
  {
  }

  /** Exactly the intervals that fall to the minimum: up to five minutes, and
      those whose triple wraps around to something as short. */
  lemma MinimumStaleAge(interval: int)
    requires IsInt64(interval)
    ensures StaleAge(interval) == MIN_STALE_AGE <==>
              || -((MAX_INT64 + 1) / STALE_AFTER) <= interval <= MIN_STALE_AGE / STALE_AFTER
              || MAX_INT64 / STALE_AFTER < interval <= (TWO_64 + MIN_STALE_AGE) / STALE_AFTER
              || interval <= (MIN_STALE_AGE - TWO_64) / STALE_AFTER
  {
    StaleAgeAtMost(interval, MIN_STALE_AGE);
  }

  /** With the default cleanup age the rules agree on a node exactly if its
      interval is at most ten days, or so long or so far below zero that its
      triple wraps around to at most thirty. */
  lemma DefaultAgeCovers(interval: int)
    requires IsInt64(interval)
    ensures StaleAge(interval) <= DEFAULT_MAX_AGE <==>
              || -((MAX_INT64 + 1) / STALE_AFTER) <= interval <= 864_000_000_000_000
              || MAX_INT64 / STALE_AFTER < interval <= (TWO_64 + DEFAULT_MAX_AGE) / STALE_AFTER
              || interval <= (DEFAULT_MAX_AGE - TWO_64) / STALE_AFTER
  {
    StaleAgeAtMost(interval, DEFAULT_MAX_AGE);
  }

  /** The first interval that is too long: a node that checks in next to never
      counts as stale after 15 minutes. */
  lemma HugeIntervalWraps()
    ensures StaleAge(0x7fff_ffff_ffff_ffff / 3 + 1) == 900_000_000_000
  {
  }
}
