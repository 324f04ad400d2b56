/** The heartbeat cache at work (daemon/heartbeat-cleanup.go:52-143): a broker
    with retained messages, two followers with a channel each, and a cleanup pass
    that works from a snapshot while all of it goes on. */
module PresenceRuns {
  import opened Text
  import opened Presence

  /** A daemon's settings; its cleanup strips the root its node publishes under */
  datatype Config = Config(root: string, json: Json, maxAge: int, dryRun: bool, keep: string) {
    function Opts(): CleanupOpts { CleanupOpts(maxAge, dryRun, root, keep) }

    /** The topic a cleanup message for t goes out on */
    function Cleared(t: string): string { root + "/" + RelativeTopic(t, root) }
  }

  /** What happened to the cache */
  datatype Entry = Delivered(msg: Message) | Forgot(topic: string)

  /** The cleanup goroutine: asleep, going through a snapshot, or between a
      publish and the forget that follows it */
  datatype Pass =
    | Asleep
    | Sweeping(snapshot: map<string, Payload>, now: int, todo: set<string>)
    | Published(snapshot: map<string, Payload>, now: int, todo: set<string>, topic: string)

  datatype State = State(
    retained: map<string, Payload>,
    discovery: seq<Message>,
    legacy: seq<Message>,
    entries: map<string, Payload>,
    log: seq<Entry>,
    pass: Pass)

  datatype Step =
    | Announce(msg: Message)
    | DeliverDiscovery
    | DeliverLegacy
    | Begin(now: int)
    | Skip(topic: string)
    | Publish(topic: string)
    | Forget
    | End

  predicate OnDiscovery(cfg: Config, topic: string) { cfg.root + "/discovery/" <= topic }

  predicate OnLegacy(cfg: Config, topic: string) { cfg.root + "/heartbeat/" <= topic }

  predicate Followed(cfg: Config, topic: string) { OnDiscovery(cfg, topic) || OnLegacy(cfg, topic) }

  /** The two subscriptions share no topic. */
  lemma FiltersDisjoint(cfg: Config, topic: string)
    ensures !(OnDiscovery(cfg, topic) && OnLegacy(cfg, topic))
  {
    var n := |cfg.root| + 1;
    assert (cfg.root + "/discovery/")[n] != (cfg.root + "/heartbeat/")[n];
  }

  function Init(): State { State(map[], [], [], map[], [], Asleep) }

  predicate Condemned(cfg: Config, snapshot: map<string, Payload>, now: int, topic: string) {
    topic in Removable(cfg.json, cfg.Opts(), snapshot, now)
  }

  predicate Enabled(cfg: Config, s: State, step: Step) {
    match step
    case Announce(m) => Followed(cfg, m.topic)
    case DeliverDiscovery => s.discovery != []
    case DeliverLegacy => s.legacy != []
    case Begin(_) => s.pass.Asleep?
    case Skip(t) => s.pass.Sweeping? && t in s.pass.todo
    case Publish(t) => s.pass.Sweeping? && t in s.pass.todo && !cfg.dryRun
        && Condemned(cfg, s.pass.snapshot, s.pass.now, t)
    case Forget => s.pass.Published?
    case End => s.pass.Sweeping? && s.pass.todo == {}
  }

  /** A retained message reaching the broker, and the channel of the follower it
      concerns, if any */
  function Broadcast(cfg: Config, s: State, m: Message): State {
    var s' := s.(retained := Retain(s.retained, m));
    if OnDiscovery(cfg, m.topic) then s'.(discovery := s.discovery + [m])
    else if OnLegacy(cfg, m.topic) then s'.(legacy := s.legacy + [m])
    else s'
  }

  function Deliver(s: State, m: Message): State {
    s.(entries := Retain(s.entries, m), log := s.log + [Delivered(m)])
  }

  function Next(cfg: Config, s: State, step: Step): State
    requires Enabled(cfg, s, step)
  {
    match step
    case Announce(m) => Broadcast(cfg, s, m)
    case DeliverDiscovery => Deliver(s, s.discovery[0]).(discovery := s.discovery[1..])
    case DeliverLegacy => Deliver(s, s.legacy[0]).(legacy := s.legacy[1..])
    case Begin(now) => s.(pass := Sweeping(s.entries, now, s.entries.Keys))
    case Skip(t) => s.(pass := Sweeping(s.pass.snapshot, s.pass.now, s.pass.todo - {t}))
    case Publish(t) =>
      var pass := Published(s.pass.snapshot, s.pass.now, s.pass.todo - {t}, t);
      Broadcast(cfg, s, Message(cfg.Cleared(t), "")).(pass := pass)
    case Forget =>
      s.(entries := s.entries - {s.pass.topic}, log := s.log + [Forgot(s.pass.topic)],
         pass := Sweeping(s.pass.snapshot, s.pass.now, s.pass.todo))
    case End => s.(pass := Asleep)
  }

  function Exec(cfg: Config, s: State, steps: seq<Step>): Option<State> {
    if steps == [] then Some(s)
    else
      match Exec(cfg, s, steps[..|steps| - 1])
      case None => None
      case Some(t) =>
        if Enabled(cfg, t, steps[|steps| - 1]) then Some(Next(cfg, t, steps[|steps| - 1])) else None
  }

  // ------------------------------------------------------------- cache and log

  /** The messages delivered so far */
  function Deliveries(log: seq<Entry>): seq<Message> {
    if log == [] then []
    else
      var init, e := log[..|log| - 1], log[|log| - 1];
      Deliveries(init) + if e.Delivered? then [e.msg] else []
  }

  /** Forgotten, and not delivered since */
  ghost predicate ForgottenSince(log: seq<Entry>, topic: string) {
    exists i :: 0 <= i < |log| && log[i] == Forgot(topic) &&
      forall j :: i < j < |log| ==> !(log[j].Delivered? && log[j].msg.topic == topic)
  }

  /** What a cache that never forgets would hold */
  function LastWrites(log: seq<Entry>): map<string, Payload> { RetainAll(map[], Deliveries(log)) }

  lemma LogGrows(log: seq<Entry>, e: Entry)
    ensures LastWrites(log + [e]) == if e.Delivered? then Retain(LastWrites(log), e.msg) else LastWrites(log)
  {
    assert (log + [e])[..|log|] == log;
    if e.Delivered? {
      var ds := Deliveries(log);
      assert (ds + [e.msg])[..|ds|] == ds;
    } else {
      assert Deliveries(log) + [] == Deliveries(log);
    }
  }

  lemma ForgottenGrows(log: seq<Entry>, e: Entry, topic: string)
    ensures ForgottenSince(log + [e], topic) <==>
              match e
              case Forgot(t) => t == topic || ForgottenSince(log, topic)
              case Delivered(m) => m.topic != topic && ForgottenSince(log, topic)
  {
    var longer := log + [e];
    if ForgottenSince(log, topic) && !(e.Delivered? && e.msg.topic == topic) {
      var i :| 0 <= i < |log| && log[i] == Forgot(topic) &&
        forall j :: i < j < |log| ==> !(log[j].Delivered? && log[j].msg.topic == topic);
      assert longer[i] == log[i];
      assert forall j :: i < j < |longer| ==> !(longer[j].Delivered? && longer[j].msg.topic == topic);
    }
    if e == Forgot(topic) { assert longer[|log|] == e; }
    if ForgottenSince(longer, topic) {
      var i :| 0 <= i < |longer| && longer[i] == Forgot(topic) &&
        forall j :: i < j < |longer| ==> !(longer[j].Delivered? && longer[j].msg.topic == topic);
      if i < |log| {
        assert log[i] == longer[i] && longer[|log|] == e;
        assert forall j :: i < j < |log| ==> log[j] == longer[j];
      }
    }
  }

  ghost predicate CachedAt(entries: map<string, Payload>, log: seq<Entry>, t: string) {
    && (t in entries <==> t in LastWrites(log) && !ForgottenSince(log, t))
    && (t in entries ==> entries[t] == LastWrites(log)[t])
  }

  /** The cache is the last-write-wins view of what was delivered, short of
      exactly the topics forgotten after their latest delivery */
  ghost predicate Cached(s: State) {
    forall t :: CachedAt(s.entries, s.log, t)
  }

  /** What an entry of the log did to the cache */
  function Applied(entries: map<string, Payload>, e: Entry): map<string, Payload> {
    match e
    case Delivered(m) => Retain(entries, m)
    case Forgot(t) => entries - {t}
  }

  lemma CachedGrows(entries: map<string, Payload>, log: seq<Entry>, e: Entry, t: string)
    requires CachedAt(entries, log, t)
    ensures CachedAt(Applied(entries, e), log + [e], t)
  {
    LogGrows(log, e);
    ForgottenGrows(log, e, t);
  }

  /** Every step leaves cache and log alone, or adds to both. */
  lemma StepApplies(cfg: Config, s: State, step: Step)
    requires Enabled(cfg, s, step)
    ensures var s' := Next(cfg, s, step);
            || (s'.entries == s.entries && s'.log == s.log)
            || exists e :: s'.entries == Applied(s.entries, e) && s'.log == s.log + [e]
  {
    var s' := Next(cfg, s, step);
    match step
    case DeliverDiscovery => assert s'.entries == Applied(s.entries, Delivered(s.discovery[0]));
    case DeliverLegacy => assert s'.entries == Applied(s.entries, Delivered(s.legacy[0]));
    case Forget => assert s'.entries == Applied(s.entries, Forgot(s.pass.topic));
    case _ =>
  }

  lemma CachedStep(cfg: Config, s: State, step: Step)
    requires Cached(s) && Enabled(cfg, s, step)
    ensures Cached(Next(cfg, s, step))
  {
    var s' := Next(cfg, s, step);
    StepApplies(cfg, s, step);
    if !(s'.entries == s.entries && s'.log == s.log) {
      var e :| s'.entries == Applied(s.entries, e) && s'.log == s.log + [e];
      forall t ensures CachedAt(s'.entries, s'.log, t) { CachedGrows(s.entries, s.log, e, t); }
    }
  }

  // ------------------------------------------------------------- broker

  /** Messages on other topics do not get in each other's way. */
  lemma {:induction false} Swap(entries: map<string, Payload>, m: Message, msgs: seq<Message>)
    requires forall i :: 0 <= i < |msgs| ==> msgs[i].topic != m.topic
    ensures RetainAll(Retain(entries, m), msgs) == Retain(RetainAll(entries, msgs), m)
  {
    if msgs != [] {
      var init, last := msgs[..|msgs| - 1], msgs[|msgs| - 1];
      Swap(entries, m, init);
      SwapTwo(RetainAll(entries, init), m, last);
    }
  }

  lemma SwapTwo(entries: map<string, Payload>, a: Message, b: Message)
    requires a.topic != b.topic
    ensures Retain(Retain(entries, a), b) == Retain(Retain(entries, b), a)
  {
  }

  lemma {:induction false} RetainFirst(entries: map<string, Payload>, m: Message, rest: seq<Message>)
    ensures RetainAll(entries, [m] + rest) == RetainAll(Retain(entries, m), rest)
  {
    var all := [m] + rest;
    if rest == [] {
      assert all[..0] == [];
    } else {
      RetainFirst(entries, m, rest[..|rest| - 1]);
      assert all[..|all| - 1] == [m] + rest[..|rest| - 1];
    }
  }

  /** The two followers' streams commute: it does not matter which goroutine gets
      to the lock first. */
  lemma {:induction false} FollowersCommute(entries: map<string, Payload>, a: seq<Message>, b: seq<Message>)
    requires forall i, j :: 0 <= i < |a| && 0 <= j < |b| ==> a[i].topic != b[j].topic
    ensures RetainAll(RetainAll(entries, a), b) == RetainAll(RetainAll(entries, b), a)
  {
    if a != [] {
      var init, m := a[..|a| - 1], a[|a| - 1];
      FollowersCommute(entries, init, b);
      Swap(RetainAll(entries, init), m, b);
    }
  }

  /** Each follower gets its own topics, and broker, cache and pass know no
      others */
  ghost predicate Filed(cfg: Config, s: State) {
    && (forall i :: 0 <= i < |s.discovery| ==> OnDiscovery(cfg, s.discovery[i].topic))
    && (forall i :: 0 <= i < |s.legacy| ==> OnLegacy(cfg, s.legacy[i].topic))
    && (forall t :: t in s.retained ==> Followed(cfg, t))
    && (forall t :: t in s.entries ==> Followed(cfg, t))
    && (!s.pass.Asleep? ==> forall t :: t in s.pass.todo ==> Followed(cfg, t))
  }

  /** A cleanup message goes to the very topic it is meant for exactly if there
      is a root; without one, to a topic nobody follows. */
  lemma ClearsItself(cfg: Config, t: string)
    requires Followed(cfg, t)
    ensures cfg.root != "" ==> cfg.Cleared(t) == t
    ensures cfg.root == "" ==> !Followed(cfg, cfg.Cleared(t))
  {
    if cfg.root != "" {
      assert cfg.root + "/" <= t by {
        assert cfg.root + "/" <= cfg.root + "/discovery/" && cfg.root + "/" <= cfg.root + "/heartbeat/";
      }
      RelativeTopicRoundTrip(t, cfg.root);
    } else {
      assert t[0] == '/' && cfg.Cleared(t) == "/" + t;
      assert cfg.Cleared(t)[1] == '/';
      assert (cfg.root + "/discovery/")[1] == 'd' && (cfg.root + "/heartbeat/")[1] == 'h';
    }
  }

  lemma FiledStep(cfg: Config, s: State, step: Step)
    requires Filed(cfg, s) && Enabled(cfg, s, step)
    ensures Filed(cfg, Next(cfg, s, step))
  {
  }

  /** Once both channels are worked off, a cache that never forgets holds what
      the broker retains */
  ghost predicate InStep(s: State) {
    s.retained == RetainAll(RetainAll(LastWrites(s.log), s.discovery), s.legacy)
  }

  lemma RetainOneMore(entries: map<string, Payload>, msgs: seq<Message>, m: Message)
    ensures RetainAll(entries, msgs + [m]) == Retain(RetainAll(entries, msgs), m)
  {
    assert (msgs + [m])[..|msgs|] == msgs;
  }

  lemma BroadcastInStep(cfg: Config, s: State, m: Message)
    requires InStep(s) && Filed(cfg, s) && (m.payload == "" || Followed(cfg, m.topic))
    ensures InStep(Broadcast(cfg, s, m))
  {
    if OnDiscovery(cfg, m.topic) {
      RetainOneMore(LastWrites(s.log), s.discovery, m);
      forall i | 0 <= i < |s.legacy| ensures s.legacy[i].topic != m.topic { FiltersDisjoint(cfg, m.topic); }
      Swap(RetainAll(LastWrites(s.log), s.discovery), m, s.legacy);
    } else if OnLegacy(cfg, m.topic) {
      RetainOneMore(RetainAll(LastWrites(s.log), s.discovery), s.legacy, m);
    } else {
      assert Retain(s.retained, m) == s.retained;
    }
  }

  lemma DiscoveryInStep(cfg: Config, s: State)
    requires InStep(s) && Enabled(cfg, s, DeliverDiscovery)
    ensures InStep(Next(cfg, s, DeliverDiscovery))
  {
    var m, rest := s.discovery[0], s.discovery[1..];
    LogGrows(s.log, Delivered(m));
    assert s.discovery == [m] + rest;
    RetainFirst(LastWrites(s.log), m, rest);
  }

  /** What the first legacy message does can be done before the discovery ones. */
  lemma LegacyFirst(writes: map<string, Payload>, discovery: seq<Message>, m: Message, rest: seq<Message>)
    requires forall i :: 0 <= i < |discovery| ==> discovery[i].topic != m.topic
    ensures RetainAll(RetainAll(writes, discovery), [m] + rest) ==
        RetainAll(RetainAll(Retain(writes, m), discovery), rest)
  {
    Swap(writes, m, discovery);
    RetainFirst(RetainAll(writes, discovery), m, rest);
  }

  lemma LegacyIsElsewhere(cfg: Config, s: State)
    requires Filed(cfg, s) && s.legacy != []
    ensures forall i :: 0 <= i < |s.discovery| ==> s.discovery[i].topic != s.legacy[0].topic
  {
    FiltersDisjoint(cfg, s.legacy[0].topic);
  }

  lemma LegacyInStep(cfg: Config, s: State)
    requires InStep(s) && Filed(cfg, s) && Enabled(cfg, s, DeliverLegacy)
    ensures InStep(Next(cfg, s, DeliverLegacy))
  {
    var m, rest := s.legacy[0], s.legacy[1..];
    LogGrows(s.log, Delivered(m));
    assert s.legacy == [m] + rest;
    LegacyIsElsewhere(cfg, s);
    LegacyFirst(LastWrites(s.log), s.discovery, m, rest);
  }

  lemma InStepStep(cfg: Config, s: State, step: Step)
    requires InStep(s) && Filed(cfg, s) && Enabled(cfg, s, step)
    ensures InStep(Next(cfg, s, step))
  {
    match step
    case Announce(m) => BroadcastInStep(cfg, s, m);
    case Publish(t) => BroadcastInStep(cfg, s, Message(cfg.Cleared(t), ""));
    case DeliverDiscovery => DiscoveryInStep(cfg, s);
    case DeliverLegacy => LegacyInStep(cfg, s);
    case Forget => LogGrows(s.log, Forgot(s.pass.topic));
    case _ =>
  }

  /** In every reachable state, whatever the interleaving. */
  lemma {:induction false} CacheHolds(cfg: Config, steps: seq<Step>)
    requires Exec(cfg, Init(), steps).Some?
    ensures var s := Exec(cfg, Init(), steps).value; Cached(s) && Filed(cfg, s) && InStep(s)
  {
    if steps != [] {
      var init, step := steps[..|steps| - 1], steps[|steps| - 1];
      CacheHolds(cfg, init);
      var s := Exec(cfg, Init(), init).value;
      CachedStep(cfg, s, step);
      FiledStep(cfg, s, step);
      InStepStep(cfg, s, step);
    }
  }

  /** With both channels worked off the cache is the broker's retained presence,
      short of exactly the topics a pass forgot after their latest delivery. */
  lemma QuietCache(cfg: Config, steps: seq<Step>, t: string)
    requires Exec(cfg, Init(), steps).Some?
    requires var s := Exec(cfg, Init(), steps).value; s.discovery == [] && s.legacy == []
    ensures var s := Exec(cfg, Init(), steps).value;
            && (t in s.entries <==> t in s.retained && !ForgottenSince(s.log, t))
            && (t in s.entries ==> s.entries[t] == s.retained[t])
  {
    CacheHolds(cfg, steps);
    var s := Exec(cfg, Init(), steps).value;
    assert CachedAt(s.entries, s.log, t);
    assert s.retained == LastWrites(s.log);
  }

  // ------------------------------------------------------------- own presence

  /** Where the daemon announces itself is one of the topics it follows. */
  lemma OwnPresenceIsFollowed(cfg: Config, name: string, uuid: string)
    ensures OnDiscovery(cfg, PresenceTopic(cfg.root, name, uuid))
  {
    assert PresenceTopic(cfg.root, name, uuid) == cfg.root + "/discovery/" + (name + "/" + uuid);
  }

  /** However old it looks, and in whatever interleaving: only an announcement on
      the kept topic itself changes what the broker retains there. */
  lemma {:induction false} OwnPresenceStays(cfg: Config, s: State, steps: seq<Step>)
    requires Filed(cfg, s) && Exec(cfg, s, steps).Some? && (cfg.root != "" || Followed(cfg, cfg.keep))
    requires forall i :: 0 <= i < |steps| ==> !(steps[i].Announce? && steps[i].msg.topic == cfg.keep)
    ensures var t := Exec(cfg, s, steps).value;
            && Filed(cfg, t)
            && (cfg.keep in t.retained <==> cfg.keep in s.retained)
            && (cfg.keep in s.retained ==> t.retained[cfg.keep] == s.retained[cfg.keep])
  {
    if steps != [] {
      var init, step := steps[..|steps| - 1], steps[|steps| - 1];
      OwnPresenceStays(cfg, s, init);
      FiledStep(cfg, Exec(cfg, s, init).value, step);
      if step.Publish? { ClearsItself(cfg, step.topic); }
    }
  }

  // ------------------------------------------------------------- the race

  /** What a map holds on a topic */
  function Slot(entries: map<string, Payload>, t: string): Option<Payload> {
    if t in entries then Some(entries[t]) else None
  }

  /** The payloads sent on a topic, in order */
  function Sent(msgs: seq<Message>, t: string): seq<Payload> {
    if msgs == [] then []
    else
      var init, m := msgs[..|msgs| - 1], msgs[|msgs| - 1];
      Sent(init, t) + if m.topic == t then [m.payload] else []
  }

  /** What a topic holds after them */
  function Latest(before: Option<Payload>, sent: seq<Payload>): Option<Payload> {
    if sent == [] then before
    else if sent[|sent| - 1] == "" then None
    else Some(sent[|sent| - 1])
  }

  lemma {:induction false} SlotAfter(entries: map<string, Payload>, msgs: seq<Message>, t: string)
    ensures Slot(RetainAll(entries, msgs), t) == Latest(Slot(entries, t), Sent(msgs, t))
  {
    if msgs != [] {
      SlotAfter(entries, msgs[..|msgs| - 1], t);
    }
  }

  /** What is on its way to the cache on a topic */
  function Pending(s: State, t: string): seq<Payload> {
    Sent(s.discovery, t) + Sent(s.legacy, t)
  }

  lemma PendingDecides(s: State, entries: map<string, Payload>, t: string)
    ensures Slot(RetainAll(RetainAll(entries, s.discovery), s.legacy), t) == Latest(Slot(entries, t), Pending(s, t))
  {
    SlotAfter(entries, s.discovery, t);
    SlotAfter(RetainAll(entries, s.discovery), s.legacy, t);
  }

  /** What steps announce on a topic */
  function Announced(steps: seq<Step>, t: string): seq<Payload> {
    if steps == [] then []
    else
      var init, step := steps[..|steps| - 1], steps[|steps| - 1];
      Announced(init, t) + if step.Announce? && step.msg.topic == t then [step.msg.payload] else []
  }

  ghost predicate NoEnd(steps: seq<Step>) {
    forall i :: 0 <= i < |steps| ==> !steps[i].End?
  }

  /** s is in the pass that began at begun, and on a topic it still has to do the
      broker holds what it held then, or what was announced since */
  ghost predicate SamePass(cfg: Config, begun: State, now: int, steps: seq<Step>, s: State, t: string) {
    && Filed(cfg, s) && !s.pass.Asleep? && s.pass.snapshot == begun.entries && s.pass.now == now
    && (t in s.pass.todo ==> Slot(s.retained, t) == Latest(Slot(begun.retained, t), Announced(steps, t)))
  }

  lemma SamePassStep(cfg: Config, begun: State, now: int, init: seq<Step>, step: Step, s: State, t: string)
    requires SamePass(cfg, begun, now, init, s, t) && Enabled(cfg, s, step) && !step.End?
    ensures SamePass(cfg, begun, now, init + [step], Next(cfg, s, step), t)
  {
    FiledStep(cfg, s, step);
    AnnouncedGrows(init, step, t);
    PassStep(cfg, s, step);
    if t in Next(cfg, s, step).pass.todo { SlotStep(cfg, s, step, t); }
  }

  lemma AnnouncedGrows(init: seq<Step>, step: Step, t: string)
    ensures Announced(init + [step], t) ==
            Announced(init, t) + if step.Announce? && step.msg.topic == t then [step.msg.payload] else []
  {
    assert (init + [step])[..|init|] == init;
  }

  /** A step of a pass goes on with it, and takes no topic back into it. */
  lemma PassStep(cfg: Config, s: State, step: Step)
    requires Enabled(cfg, s, step) && !s.pass.Asleep? && !step.End?
    ensures var p := Next(cfg, s, step).pass;
            !p.Asleep? && p.snapshot == s.pass.snapshot && p.now == s.pass.now && p.todo <= s.pass.todo
  {
  }

  /** On a topic the pass still has to do, only an announcement changes what the
      broker holds. */
  lemma SlotStep(cfg: Config, s: State, step: Step, t: string)
    requires Filed(cfg, s) && Enabled(cfg, s, step) && !s.pass.Asleep? && !step.End? && Followed(cfg, t)
    requires !Next(cfg, s, step).pass.Asleep? && t in Next(cfg, s, step).pass.todo
    ensures Slot(Next(cfg, s, step).retained, t) ==
            if step.Announce? && step.msg.topic == t then Latest(None, [step.msg.payload]) else Slot(s.retained, t)
  {
    if step.Publish? { ClearsItself(cfg, step.topic); }
  }

  lemma {:induction false} SamePassHolds(cfg: Config, begun: State, now: int, steps: seq<Step>, t: string)
    requires Filed(cfg, begun) && Enabled(cfg, begun, Begin(now)) && NoEnd(steps)
    requires Exec(cfg, Next(cfg, begun, Begin(now)), steps).Some?
    ensures SamePass(cfg, begun, now, steps, Exec(cfg, Next(cfg, begun, Begin(now)), steps).value, t)
  {
    if steps != [] {
      var init, step := steps[..|steps| - 1], steps[|steps| - 1];
      SamePassHolds(cfg, begun, now, init, t);
      SamePassStep(cfg, begun, now, init, step, Exec(cfg, Next(cfg, begun, Begin(now)), init).value, t);
      assert steps == init + [step];
    }
  }

  /** Over whole runs: a pass judges its snapshot and removes what the broker
      retains by the time it publishes. What it removes is what it judged exactly
      if nothing was on its way to the cache on that topic when the pass began
      and nothing was announced on it since, or the last of it was the same
      payload again. */
  lemma RemovesWhatItJudged(cfg: Config, before: seq<Step>, now: int, since: seq<Step>, t: string)
    requires Exec(cfg, Init(), before).Some? && Enabled(cfg, Exec(cfg, Init(), before).value, Begin(now))
        && NoEnd(since)
    requires var begun := Exec(cfg, Init(), before).value;
             var s := Exec(cfg, Next(cfg, begun, Begin(now)), since);
             s.Some? && Enabled(cfg, s.value, Publish(t))
    ensures var begun := Exec(cfg, Init(), before).value;
            var s := Exec(cfg, Next(cfg, begun, Begin(now)), since).value;
            var sent := Pending(begun, t) + Announced(since, t);
            && t in s.pass.snapshot && s.pass.snapshot == begun.entries
            && (Slot(s.retained, t) == Some(s.pass.snapshot[t]) <==>
                sent == [] || sent[|sent| - 1] == s.pass.snapshot[t])
  {
    var begun := Exec(cfg, Init(), before).value;
    CacheHolds(cfg, before);
    SamePassHolds(cfg, begun, now, since, t);
    PendingDecides(begun, LastWrites(begun.log), t);
    assert CachedAt(begun.entries, begun.log, t);
  }

  /** Under a root the publish removes it, whatever it is by then, and nothing
      else. */
  lemma PublishRemovesCurrent(cfg: Config, s: State, t: string)
    requires Filed(cfg, s) && Enabled(cfg, s, Publish(t))
    ensures var after := Next(cfg, s, Publish(t)).retained;
            if cfg.root == "" then after == s.retained else after == s.retained - {t}
    ensures StaleHeartbeat(cfg.json, t, s.pass.snapshot[t], s.pass.now, cfg.maxAge).Some? && t != cfg.keep
  {
    ClearsItself(cfg, t);
  }

  /** With an empty root no pass of any run removes anything from the broker. */
  lemma EmptyRootRemovesNothing(cfg: Config, steps: seq<Step>, t: string)
    requires cfg.root == "" && Exec(cfg, Init(), steps).Some?
        && Enabled(cfg, Exec(cfg, Init(), steps).value, Publish(t))
    ensures Next(cfg, Exec(cfg, Init(), steps).value, Publish(t)).retained == Exec(cfg, Init(), steps).value.retained
  {
    CacheHolds(cfg, steps);
    PublishRemovesCurrent(cfg, Exec(cfg, Init(), steps).value, t);
  }

  /** What the cache comes to once both channels are worked off */
  function WorkedOff(s: State): map<string, Payload> {
    RetainAll(RetainAll(s.entries, s.discovery), s.legacy)
  }

  /** In every reachable state a forget leaves the cache right about its topic
      exactly if the broker has nothing on it, or a message on it is still on its
      way; otherwise a retained heartbeat is missing until the node checks in
      again. */
  lemma ForgetIsHarmless(cfg: Config, steps: seq<Step>)
    requires Exec(cfg, Init(), steps).Some? && Exec(cfg, Init(), steps).value.pass.Published?
    ensures var s := Exec(cfg, Init(), steps).value;
            var t, after := s.pass.topic, Next(cfg, s, Forget);
            Slot(WorkedOff(after), t) == Slot(after.retained, t) <==> t !in s.retained || Pending(s, t) != []
  {
    var s := Exec(cfg, Init(), steps).value;
    var t, after := s.pass.topic, Next(cfg, s, Forget);
    CacheHolds(cfg, steps);
    PendingDecides(after, after.entries, t);
    PendingDecides(s, LastWrites(s.log), t);
    assert Pending(after, t) == Pending(s, t);
  }

  // ------------------------------------------------------------- the race, run

  lemma Then(cfg: Config, steps: seq<Step>, s: State, step: Step)
    requires Exec(cfg, Init(), steps) == Some(s) && Enabled(cfg, s, step)
    ensures Exec(cfg, Init(), steps + [step]) == Some(Next(cfg, s, step))
  {
    assert (steps + [step])[..|steps|] == steps;
  }

  /** A topic cleanup can get at, with a payload it objects to */
  predicate Doomed(cfg: Config, t: string, old_: Payload, now: int) {
    && cfg.root != "" && !cfg.dryRun && OnDiscovery(cfg, t) && t != cfg.keep
    && StaleHeartbeat(cfg.json, t, old_, now, cfg.maxAge).Some?
  }

  /** A stale heartbeat is announced and followed, and a pass begins. */
  lemma PassBegins(cfg: Config, t: string, old_: Payload, now: int) returns (steps: seq<Step>)
    requires Doomed(cfg, t, old_, now)
    ensures Exec(cfg, Init(), steps) ==
            Some(State(map[t := old_], [], [], map[t := old_], [Delivered(Message(t, old_))],
                Sweeping(map[t := old_], now, {t})))
  {
    var m := Message(t, old_);
    Then(cfg, [], Init(), Announce(m));
    var s1 := Next(cfg, Init(), Announce(m));
    assert s1 == State(map[t := old_], [m], [], map[], [], Asleep);
    Then(cfg, [] + [Announce(m)], s1, DeliverDiscovery);
    var s2 := Next(cfg, s1, DeliverDiscovery);
    assert s2 == State(map[t := old_], [], [], map[t := old_], [Delivered(m)], Asleep);
    Then(cfg, [] + [Announce(m)] + [DeliverDiscovery], s2, Begin(now));
    steps := [] + [Announce(m)] + [DeliverDiscovery] + [Begin(now)];
    assert s2.entries.Keys == {t};
  }

  /** The race, from the start: the node checks in after the snapshot, and its
      heartbeat is removed although the pass itself would have let it be. */
  lemma LateHeartbeatIsWiped(cfg: Config, t: string, old_: Payload, beat: Payload, now: int) returns (steps: seq<Step>)
    requires Doomed(cfg, t, old_, now)
    requires beat != "" && StaleHeartbeat(cfg.json, t, beat, now, cfg.maxAge).None?
    ensures Exec(cfg, Init(), steps).Some? && Slot(Exec(cfg, Init(), steps).value.retained, t) == Some(beat)
    ensures Enabled(cfg, Exec(cfg, Init(), steps).value, Publish(t))
    ensures Slot(Next(cfg, Exec(cfg, Init(), steps).value, Publish(t)).retained, t) == None
  {
    steps := PassBegins(cfg, t, old_, now);
    var s := Exec(cfg, Init(), steps).value;
    Then(cfg, steps, s, Announce(Message(t, beat)));
    steps := steps + [Announce(Message(t, beat))];
    ClearsItself(cfg, t);
  }

  /** The other one: the node checks in between publish and forget, and its
      heartbeat drops out of the cache although the broker has it. */
  lemma LateForgetDropsHeartbeat(cfg: Config, t: string, old_: Payload, beat: Payload, now: int)
    returns (steps: seq<Step>)
    requires Doomed(cfg, t, old_, now) && beat != ""
    ensures Exec(cfg, Init(), steps).Some?
    ensures var s := Exec(cfg, Init(), steps).value;
            && s.discovery == [] && s.legacy == []
            && Slot(s.retained, t) == Some(beat) && Slot(s.entries, t) == None
  {
    steps := PassBegins(cfg, t, old_, now);
    ClearsItself(cfg, t);
    var gone, back := Message(t, ""), Message(t, beat);
    var s := Exec(cfg, Init(), steps).value;
    Then(cfg, steps, s, Publish(t));
    steps, s := steps + [Publish(t)], Next(cfg, s, Publish(t));
    assert s.retained == map[] && s.discovery == [gone];
    Then(cfg, steps, s, Announce(back));
    steps, s := steps + [Announce(back)], Next(cfg, s, Announce(back));
    assert s.discovery == [gone, back];
    Then(cfg, steps, s, DeliverDiscovery);
    steps, s := steps + [DeliverDiscovery], Next(cfg, s, DeliverDiscovery);
    assert s.discovery == [back];
    Then(cfg, steps, s, DeliverDiscovery);
    steps, s := steps + [DeliverDiscovery], Next(cfg, s, DeliverDiscovery);
    assert s.discovery == [];
    Then(cfg, steps, s, Forget);
    steps := steps + [Forget];
  }
}
