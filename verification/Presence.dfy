/** Retained presence messages and their cleanup: daemon/heartbeat-cleanup.go. */
module Presence {
  import opened Text

  type Payload = string

  datatype Message = Message(topic: string, payload: Payload)

  /** What rvd says about itself in its service entry (common/mq.go) */
  datatype Rodrev = Rodrev(fqdn: string, version: string, features: seq<string>, interval: int)

  /** rodrev is what decoding the entry's data gives, if it can be decoded */
  datatype Service = Service(rodrev: Option<Rodrev>)

  /** Times are nanoseconds since the zero time */
  datatype NodeInfo = NodeInfo(ts: int, services: map<string, Service>)

  /** JSON decoding, shared by cleanup and discovery */
  type Json = Payload -> Option<NodeInfo>

  /** time.Time.Sub, which stops at the ends of Duration */
  function Sub(t: int, u: int): int {
    if t - u > MAX_INT64 then MAX_INT64
    else if t - u < -MAX_INT64 - 1 then -MAX_INT64 - 1
    else t - u
  }

  datatype Reason = LegacyTopic | Unparsable | NoTimestamp | LastSeen(age: int)

  const LEGACY: string := "/heartbeat/"

  function StaleHeartbeat(json: Json, topic: string, payload: Payload, now: int, maxAge: int): Option<Reason> {
    if |payload| == 0 then None
    else if Contains(topic, LEGACY) then Some(LegacyTopic)
    else match json(payload)
      case None => Some(Unparsable)
      case Some(info) =>
        if info.ts == 0 then Some(NoTimestamp)
        else if Sub(now, info.ts) > maxAge then Some(LastSeen(Sub(now, info.ts)))
        else None
  }

  /** The topic has /heartbeat/ in it */
  ghost predicate OnLegacyTree(topic: string) {
    exists i :: 0 <= i <= |topic| && "/heartbeat/" <= topic[i..]
  }

  /** Presence worth removing: there is some, and it was left on the old tree, can
      not be read, has no timestamp or has one too old. Ages are counted up to the
      largest duration. */
  ghost predicate Abandoned(json: Json, topic: string, payload: Payload, now: int, maxAge: int) {
    payload != "" &&
    (|| OnLegacyTree(topic)
     || json(payload) == None
     || json(payload).value.ts == 0
     || (now - json(payload).value.ts > maxAge && maxAge < 0x7fff_ffff_ffff_ffff))
  }

  predicate IsDuration(n: int) { -0x8000_0000_0000_0000 <= n <= 0x7fff_ffff_ffff_ffff }

  lemma StaleMeaning(json: Json, topic: string, payload: Payload, now: int, maxAge: int)
    requires IsDuration(maxAge)
    ensures StaleHeartbeat(json, topic, payload, now, maxAge).Some? <==> Abandoned(json, topic, payload, now, maxAge)
  {
    LegacyMeaning(topic);
  }

  lemma LegacyMeaning(topic: string)
    ensures Contains(topic, LEGACY) <==> OnLegacyTree(topic)
  {
    var i := Index(topic, LEGACY);
    if i >= 0 { assert "/heartbeat/" <= topic[i..]; }
  }

  /** What goes back to the node, which puts the event root in front of it */
  function RelativeTopic(topic: string, root: string): string {
    if |root| == 0 then topic
    else if root + "/" <= topic then topic[|root| + 1..]
    else topic
  }

  /** The node restores the topic exactly if it was under the root. */
  lemma RelativeTopicRoundTrip(topic: string, root: string)
    requires root != ""
    ensures root + "/" + RelativeTopic(topic, root) == topic <==> root + "/" <= topic
  {
    var full := root + "/" + RelativeTopic(topic, root);
    assert root + "/" <= full;
  }

  // ------------------------------------------------------------- the cache

  /** One retained message arriving: an empty one removes */
  function Retain(entries: map<string, Payload>, msg: Message): map<string, Payload> {
    if |msg.payload| == 0 then entries - {msg.topic} else entries[msg.topic := msg.payload]
  }

  /** Last write wins */
  function RetainAll(entries: map<string, Payload>, msgs: seq<Message>): map<string, Payload> {
    if msgs == [] then entries else Retain(RetainAll(entries, msgs[..|msgs| - 1]), msgs[|msgs| - 1])
  }

  datatype CleanupOpts = CleanupOpts(maxAge: int, dryRun: bool, eventRoot: string, keep: string)

  /** What a pass is after */
  function Removable(json: Json, opts: CleanupOpts, entries: map<string, Payload>, now: int): set<string> {
    set t | t in entries && t != opts.keep && StaleHeartbeat(json, t, entries[t], now, opts.maxAge).Some?
  }

  /** What it gets, given which publishes go through */
  function Removed(json: Json, opts: CleanupOpts, entries: map<string, Payload>, now: int,
      publishes: string -> bool): set<string> {
    set t | t in Removable(json, opts, entries, now) && publishes(RelativeTopic(t, opts.eventRoot))
  }

  class HeartbeatCache {
    var entries: map<string, Payload>

    constructor ()
      ensures entries == map[]
    {
      entries := map[];
    }

    method Follow(msgs: seq<Message>)
      modifies this
      ensures entries == RetainAll(old(entries), msgs)
    {
      for i := 0 to |msgs|
        invariant entries == RetainAll(old(entries), msgs[..i])
      {
        var msg := msgs[i];
        assert msgs[..i + 1][..i] == msgs[..i];
        if |msg.payload| == 0 {
          entries := entries - {msg.topic};
        } else {
          entries := entries[msg.topic := msg.payload];
        }
      }
      assert msgs[..|msgs|] == msgs;
    }

    method Snapshot() returns (out: map<string, Payload>)
      ensures out == entries
    {
      out := map[];
      var left := entries.Keys;
      while left != {}
        invariant left <= entries.Keys && out == map t | t in entries && t !in left :: entries[t]
        decreases |left|
      {
        var t :| t in left;
        out := out[t := entries[t]];
        left := left - {t};
      }
    }

    method Forget(topic: string)
      modifies this
      ensures entries == old(entries) - {topic}
    {
      entries := entries - {topic};
    }
  }

  /** The outcome of a pass that is through with the topics in done */
  ghost predicate Swept(snapshot: map<string, Payload>, goal: set<string>, opts: CleanupOpts, done: set<string>,
                        entries: map<string, Payload>, cleared: nat, paths: set<string>)
  {
    && cleared == |goal * done|
    && entries == (if opts.dryRun then snapshot else snapshot - (goal * done))
    && paths == (if opts.dryRun then {} else set t | t in goal * done :: RelativeTopic(t, opts.eventRoot))
  }

  lemma SweptPast(snapshot: map<string, Payload>, goal: set<string>, opts: CleanupOpts, done: set<string>,
                  entries: map<string, Payload>, cleared: nat, paths: set<string>, topic: string)
    requires Swept(snapshot, goal, opts, done, entries, cleared, paths) && topic !in done && topic !in goal
    ensures Swept(snapshot, goal, opts, done + {topic}, entries, cleared, paths)
  {
    assert goal * (done + {topic}) == goal * done;
  }

  lemma SweptUp(snapshot: map<string, Payload>, goal: set<string>, opts: CleanupOpts, done: set<string>,
                entries: map<string, Payload>, cleared: nat, paths: set<string>, topic: string)
    requires Swept(snapshot, goal, opts, done, entries, cleared, paths) && topic !in done && topic in goal
    ensures Swept(snapshot, goal, opts, done + {topic},
                  if opts.dryRun then entries else entries - {topic}, cleared + 1,
                  if opts.dryRun then paths else paths + {RelativeTopic(topic, opts.eventRoot)})
  {
    var before, after := goal * done, goal * (done + {topic});
    assert after == before + {topic} && topic !in before;
    assert snapshot - after == (snapshot - before) - {topic};
  }

  /** One more topic done, whether it is one the pass is after or not */
  lemma SweptOn(snapshot: map<string, Payload>, goal: set<string>, opts: CleanupOpts, done: set<string>,
                entries: map<string, Payload>, cleared: nat, paths: set<string>, topic: string)
    requires Swept(snapshot, goal, opts, done, entries, cleared, paths) && topic !in done
    ensures var hit := topic in goal;
            Swept(snapshot, goal, opts, done + {topic},
                  if hit && !opts.dryRun then entries - {topic} else entries, if hit then cleared + 1 else cleared,
                  if hit && !opts.dryRun then paths + {RelativeTopic(topic, opts.eventRoot)} else paths)
  {
    if topic in goal {
      SweptUp(snapshot, goal, opts, done, entries, cleared, paths, topic);
    } else {
      SweptPast(snapshot, goal, opts, done, entries, cleared, paths, topic);
    }
  }

  lemma SweptAll(snapshot: map<string, Payload>, goal: set<string>, opts: CleanupOpts, done: set<string>,
                 entries: map<string, Payload>, cleared: nat, paths: set<string>)
    requires Swept(snapshot, goal, opts, done, entries, cleared, paths) && goal <= done
    ensures cleared == |goal|
    ensures if opts.dryRun then entries == snapshot && paths == {}
            else entries == snapshot - goal && paths == set t | t in goal :: RelativeTopic(t, opts.eventRoot)
  {
    assert goal * done == goal;
  }

  lemma MovedOver(done: set<string>, left: set<string>, topic: string)
    requires done !! left && topic in left
    ensures (done + {topic}) !! (left - {topic}) && (done + {topic}) + (left - {topic}) == done + left
  {
  }

  /** What the pass is after: everything removable for a dry run, what gets
      published otherwise */
  function Goal(json: Json, opts: CleanupOpts, entries: map<string, Payload>, now: int,
      publishes: string -> bool): set<string> {
    if opts.dryRun then Removable(json, opts, entries, now) else Removed(json, opts, entries, now, publishes)
  }

  /** One pass with nobody else at work. publishes says which cleanup messages
      go through; paths are the ones that were sent. */
  method RunHeartbeatCleanup(cache: HeartbeatCache, json: Json, opts: CleanupOpts, now: int, publishes: string -> bool)
    returns (cleared: nat, seen: nat, paths: set<string>)
    modifies cache
    ensures seen == |old(cache.entries)|
    ensures cleared == |Goal(json, opts, old(cache.entries), now, publishes)|
    ensures opts.dryRun ==> cache.entries == old(cache.entries) && paths == {}
    ensures !opts.dryRun ==>
              var removed := Removed(json, opts, old(cache.entries), now, publishes);
              && cache.entries == old(cache.entries) - removed
              && paths == set t | t in removed :: RelativeTopic(t, opts.eventRoot)
  {
    cleared, seen, paths := 0, 0, {};
    var snapshot := cache.Snapshot();
    ghost var goal := Goal(json, opts, snapshot, now, publishes);
    var left := snapshot.Keys;
    ghost var done: set<string> := {};
    while left != {}
      invariant done !! left && done + left == snapshot.Keys && seen + |left| == |snapshot|
      invariant Swept(snapshot, goal, opts, done, cache.entries, cleared, paths)
      decreases |left|
    {
      var topic :| topic in left;
      MovedOver(done, left, topic);
      left := left - {topic};
      seen := seen + 1;
      ghost var was := cache.entries;
      var hit := CleanTopic(cache, snapshot, topic, json, opts, now, publishes);
      SweptOn(snapshot, goal, opts, done, was, cleared, paths, topic);
      if hit {
        cleared := cleared + 1;
        if !opts.dryRun { paths := paths + {RelativeTopic(topic, opts.eventRoot)}; }
      }
      done := done + {topic};
    }
    SweptAll(snapshot, goal, opts, done, cache.entries, cleared, paths);
  }

  /** The body of the loop: one topic of the snapshot */
  method CleanTopic(cache: HeartbeatCache, snapshot: map<string, Payload>, topic: string,
                    json: Json, opts: CleanupOpts, now: int, publishes: string -> bool) returns (hit: bool)
    requires topic in snapshot
    modifies cache
    ensures hit <==> topic in Goal(json, opts, snapshot, now, publishes)
    ensures cache.entries == if hit && !opts.dryRun then old(cache.entries) - {topic} else old(cache.entries)
  {
    if topic == opts.keep { return false; }
    var reason := StaleHeartbeat(json, topic, snapshot[topic], now, opts.maxAge);
    if reason.None? { return false; }
    if opts.dryRun { return true; }
    if !publishes(RelativeTopic(topic, opts.eventRoot)) { return false; }
    cache.Forget(topic);
    return true;
  }

  /** What a pass removes, said over the entries: everything abandoned but the kept
      topic whose cleanup message went through. */
  lemma PassRemoves(json: Json, opts: CleanupOpts, entries: map<string, Payload>, now: int,
      publishes: string -> bool, t: string)
    requires IsDuration(opts.maxAge)
    ensures t in Removable(json, opts, entries, now) <==>
              t in entries && t != opts.keep && Abandoned(json, t, entries[t], now, opts.maxAge)
    ensures t in Removed(json, opts, entries, now, publishes) <==>
              && t in entries && t != opts.keep && Abandoned(json, t, entries[t], now, opts.maxAge)
              && publishes(RelativeTopic(t, opts.eventRoot))
  {
    if t in entries { StaleMeaning(json, t, entries[t], now, opts.maxAge); }
  }

  /** The name a topic of presence gives for whoever sent it */
  function HeartbeatSource(topic: string): string {
    var path := Split(topic, '/');
    if |path| >= 2 then path[|path| - 2] else if |topic| > 0 then topic else "unknown"
  }

  /** A daemon's own presence topic names it, under every root. */
  lemma SourceOfPresence(root: string, name: string, uuid: string)
    requires '/' !in name && '/' !in uuid
    ensures HeartbeatSource(PresenceTopic(root, name, uuid)) == name
    ensures PresenceTopic(root, name, uuid) == root + "/discovery/" + (name + "/" + uuid)
  {
    SplitLast(root + "/discovery", name, '/');
    SplitLast(root + "/discovery" + "/" + name, uuid, '/');
    assert PresenceTopic(root, name, uuid) == root + "/discovery" + "/" + name + ['/'] + uuid;
    assert root + "/discovery" + "/" + name == root + "/discovery" + ['/'] + name;
  }

  /** A dry run predicts what a pass clears when every publish goes through. */
  lemma DryRunPredicts(json: Json, opts: CleanupOpts, entries: map<string, Payload>, now: int,
      publishes: string -> bool)
    requires forall p :: publishes(p)
    ensures Removed(json, opts, entries, now, publishes) == Removable(json, opts, entries, now)
  {
  }

  /** A second pass at the same instant, with the same publishes going through,
      clears nothing; what it is still after is what could not be published. */
  lemma SecondPassIsIdle(json: Json, opts: CleanupOpts, entries: map<string, Payload>, now: int,
      publishes: string -> bool)
    ensures var rest := entries - Removed(json, opts, entries, now, publishes);
            && Removed(json, opts, rest, now, publishes) == {}
            && Removable(json, opts, rest, now) ==
               Removable(json, opts, entries, now) - Removed(json, opts, entries, now, publishes)
  {
  }

  /** The daemon's own presence: strings.Join of root, "discovery", name, uuid */
  function PresenceTopic(root: string, name: string, uuid: string): string {
    root + "/discovery/" + name + "/" + uuid
  }

  /** No pass removes it, however old it looks and whoever publishes. */
  lemma KeepIsKept(json: Json, opts: CleanupOpts, entries: map<string, Payload>, now: int, publishes: string -> bool)
    requires opts.keep in entries
    ensures var rest := entries - Removed(json, opts, entries, now, publishes);
            opts.keep in rest && rest[opts.keep] == entries[opts.keep]
  {
  }
}
