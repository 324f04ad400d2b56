/** The Session object of client/session.go: the channel the transport fills, the
    sinks, the map from call ids to sinks, the closed flag and what the router has
    in its hands. The machine it runs on is a ghost; Valid says that it is
    reachable and how the two are tied. */
module Sessions {
  import opened Text
  import opened Wire
  import opened Multiplexer
  import CallIds

  /** queue holds the arrivals es */
  ghost predicate Queues(queue: seq<Event>, es: seq<nat>, arrivals: seq<Event>) {
    |queue| == |es| && forall i :: 0 <= i < |es| ==> es[i] < |arrivals| && queue[i] == arrivals[es[i]]
  }

  lemma QueuesOneMore(queue: seq<Event>, es: seq<nat>, arrivals: seq<Event>, e: nat)
    requires Queues(queue, es, arrivals) && e < |arrivals|
    ensures Queues(queue + [arrivals[e]], es + [e], arrivals)
  {
  }

  /** ev comes back with the request's correlation id, or with none and on its
      reply topic under some event root */
  predicate Replies(ev: Event, root: string, req: Request) {
    ev.correlation == req.correlation || (ev.correlation == None && ev.routingKey == root + req.replyTo)
  }

  /** The events among evs that carry an id */
  function For(id: string, evs: seq<Event>): seq<Event> {
    if evs == [] then []
    else
      var init, ev := evs[..|evs| - 1], evs[|evs| - 1];
      For(id, init) + if CallID(ev) == id then [ev] else []
  }

  /** A queue after evs, as far as there is room */
  function Filled(queue: seq<Event>, evs: seq<Event>): seq<Event> {
    if |queue| + |evs| <= REPLY_BUFFER || |queue| > REPLY_BUFFER then queue + evs else (queue + evs)[..REPLY_BUFFER]
  }

  /** What an undisturbed router makes of the queue of a call when ev comes */
  function Offered(queue: seq<Event>, id: string, ev: Event): seq<Event> {
    if CallID(ev) == id && |queue| < REPLY_BUFFER then queue + [ev] else queue
  }

  lemma OfferedFills(queue: seq<Event>, id: string, evs: seq<Event>, n: nat)
    requires |queue| <= REPLY_BUFFER && n < |evs|
    ensures Offered(Filled(queue, For(id, evs[..n])), id, evs[n]) == Filled(queue, For(id, evs[..n + 1]))
  {
    var before := For(id, evs[..n]);
    assert evs[..n + 1][..n] == evs[..n];
    assert queue + (before + [evs[n]]) == queue + before + [evs[n]];
    assert before + [] == before;
  }

  // ------------------------------------------------------------- the tie

  /** What a session holds. A sink is a channel of capacity REPLY_BUFFER, known by
      the order it was made in; sinks are what the channels hold. */
  datatype Content = Content(
    ch: seq<Event>,
    sinks: seq<seq<Event>>,
    calls: map<string, nat>,
    closed: bool,
    taken: Option<Event>,
    target: Option<nat>)

  /** c is m without its history */
  ghost predicate Tied(m: State, c: Content) {
    && m.next <= |m.arrivals| && c.ch == m.arrivals[m.next..]
    && c.closed == m.closed && c.calls == m.calls
    && SinksTied(m, c.sinks) && RouterTied(m, c.taken, c.target)
  }

  ghost predicate SinksTied(m: State, sinks: seq<seq<Event>>) {
    |sinks| == |m.log| && forall k :: 0 <= k < |sinks| ==> Queues(sinks[k], m.log[k].buffer, m.arrivals)
  }

  ghost predicate RouterTied(m: State, taken: Option<Event>, target: Option<nat>) {
    match m.hand
    case Free => taken == None && target == None
    case Took(e) => e < |m.arrivals| && taken == Some(m.arrivals[e]) && target == None
    case Holds(e, k) => e < |m.arrivals| && taken == Some(m.arrivals[e]) && k < |m.log| && target == Some(k)
  }

  lemma ArriveTied(m: State, c: Content, ev: Event)
    requires Tied(m, c)
    ensures Tied(Next(m, Arrive(ev)), c.(ch := c.ch + [ev]))
  {
  }

  lemma RegisterTied(m: State, c: Content, blob: seq<CallIds.Byte>)
    requires Tied(m, c) && Enabled(m, Register(blob))
    ensures Tied(Next(m, Register(blob)),
                 c.(calls := c.calls[CallIds.MapBytesToTopicTitle(blob) := |c.sinks|], sinks := c.sinks + [[]]))
  {
  }

  /** Steps of a call that touch no queue */
  lemma CallTied(m: State, c: Content, step: Step)
    requires Tied(m, c) && Enabled(m, step) && (step.Send? || step.Abort? || step.Expire?)
    ensures Tied(Next(m, step), c)
  {
  }

  lemma ConsumeTied(m: State, c: Content, k: nat, more: bool)
    requires Tied(m, c) && Enabled(m, Consume(k, more))
    ensures Tied(Next(m, Consume(k, more)), c.(sinks := c.sinks[k := c.sinks[k][1..]]))
  {
    var t := Next(m, Consume(k, more));
    assert Queues(c.sinks[k][1..], t.log[k].buffer, t.arrivals);
  }

  lemma TakeTied(m: State, c: Content)
    requires Tied(m, c) && Enabled(m, Take)
    ensures Tied(Next(m, Take), c.(taken := Some(c.ch[0]), ch := c.ch[1..]))
  {
  }

  lemma EnqueueTied(m: State, c: Content)
    requires Tied(m, c) && Enabled(m, Enqueue)
    ensures var k, ev := c.target.value, c.taken.value;
            var queue := if |c.sinks[k]| < REPLY_BUFFER then c.sinks[k] + [ev] else c.sinks[k];
            Tied(Next(m, Enqueue), c.(taken := None, target := None, sinks := c.sinks[k := queue]))
  {
    var k := m.hand.sink;
    QueuesOneMore(c.sinks[k], m.log[k].buffer, m.arrivals, m.hand.ev);
  }

  // ------------------------------------------------------------- the object

  class Session {
    const replyPath: string
    var ch: seq<Event>
    var sinks: seq<seq<Event>>
    var calls: map<string, nat>
    var closed: bool
    var taken: Option<Event>
    var target: Option<nat>
    ghost var machine: State

    ghost function Holds(): Content
      reads this
    {
      Content(ch, sinks, calls, closed, taken, target)
    }

    ghost predicate Valid()
      reads this
    {
      Leads(Init(replyPath), machine) && machine.replyPath == replyPath && Tied(machine, Holds())
    }

    /** Sink k is that of the call that goes by id, which stands at phase */
    ghost predicate Owns(k: nat, id: string, phase: Phase)
      reads this
    {
      k < |sinks| && k < |machine.log| && machine.log[k].id == id && machine.log[k].phase == phase
    }

    constructor (replyPath: string)
      ensures Valid() && machine == Init(replyPath)
      ensures !closed && calls == map[] && ch == [] && sinks == []
    {
      this.replyPath := replyPath;
      ch, sinks, calls, closed, taken, target := [], [], map[], false, None, None;
      machine := Init(replyPath);
      LeadsNowhere(Init(replyPath));
    }

    /** The transport puts a reply into the channel. */
    method Arrived(ev: Event)
      requires Valid()
      modifies this
      ensures Valid() && Holds() == old(Holds()).(ch := old(ch) + [ev])
      ensures machine == Next(old(machine), Arrive(ev))
    {
      ArriveTied(machine, Holds(), ev);
      LeadsOn(Init(replyPath), machine, Arrive(ev));
      ch := ch + [ev];
      machine := Next(machine, Arrive(ev));
    }

    // ---------------------------------------------------------------- Call

    /** A closed session turns the call away; an open one makes it a sink of its
        own, empty and found under its id from now on. */
    method Register(blob: seq<CallIds.Byte>) returns (id: string, sink: Option<nat>)
      requires Valid() && |blob| == 8
      modifies this
      ensures Valid() && CallIds.TitleToBytes(id) == Some(blob)
      ensures sink.None? <==> old(closed)
      ensures sink.None? ==> Holds() == old(Holds()) && machine == old(machine)
      ensures sink.Some? ==>
                && Owns(sink.value, id, Opening) && sinks == old(sinks) + [[]] && sink.value == |old(sinks)|
                && calls == old(calls)[id := sink.value] && ch == old(ch)
                && machine == Next(old(machine), Multiplexer.Register(blob))
    {
      CallIds.TitleRoundTrip(blob);
      id := CallIds.MapBytesToTopicTitle(blob);
      if closed { return id, None; }
      RegisterTied(machine, Holds(), blob);
      LeadsOn(Init(replyPath), machine, Multiplexer.Register(blob));
      sink := Some(|sinks|);
      sinks := sinks + [[]];
      calls := calls[id := sink.value];
      machine := Next(machine, Multiplexer.Register(blob));
    }

    /** The request carries the id in both places, so that a reply that has
        either, under whatever event root, finds the way back to the call. ok says
        whether marshalling and sending went through. */
    method Dispatch(k: nat, id: string, topic: string, cmd: Command, ok: bool) returns (req: Request)
      requires Valid() && Owns(k, id, Opening)
      modifies this
      ensures Valid() && Holds() == old(Holds())
      ensures forall ev, root :: Replies(ev, root, req) ==> CallID(ev) == id
      ensures Owns(k, id, if ok then Waiting else Leaving) && (ok ==> machine.log[k].request == Some(req))
      ensures machine == Next(old(machine), if ok then Send(k, topic, cmd) else Abort(k))
    {
      req := Request(topic, replyPath + "/" + id, Some(id), Some(cmd));
      IdIsTitle(replyPath, machine, k);
      forall ev, root | Replies(ev, root, req) ensures CallID(ev) == id { LastOfReplyTo(root, replyPath, id); }
      ghost var step := if ok then Send(k, topic, cmd) else Abort(k);
      CallTied(machine, Holds(), step);
      LeadsOn(Init(replyPath), machine, step);
      machine := Next(machine, step);
    }

    /** What onReply is given is the oldest reply queued, and it carries the id of
        this very call. more is what onReply answers. */
    method Await(k: nat, id: string, more: bool) returns (reply: Event)
      requires Valid() && Owns(k, id, Waiting) && sinks[k] != []
      modifies this
      ensures Valid() && CallID(reply) == id && |sinks| == |old(sinks)| && [reply] + sinks[k] == old(sinks)[k]
      ensures Holds() == old(Holds()).(sinks := old(sinks)[k := sinks[k]])
      ensures Owns(k, id, if more then Waiting else Leaving) && machine == Next(old(machine), Consume(k, more))
    {
      OwnReply(machine, Holds(), replyPath, k);
      ConsumeTied(machine, Holds(), k, more);
      LeadsOn(Init(replyPath), machine, Consume(k, more));
      HeadAndTail(sinks[k]);
      reply := sinks[k][0];
      sinks := sinks[k := sinks[k][1..]];
      machine := Next(machine, Consume(k, more));
    }

    /** The deadline */
    method TimeOut(k: nat, id: string)
      requires Valid() && Owns(k, id, Waiting)
      modifies this
      ensures Valid() && Holds() == old(Holds()) && Owns(k, id, Leaving) && machine == Next(old(machine), Expire(k))
    {
      CallTied(machine, Holds(), Expire(k));
      LeadsOn(Init(replyPath), machine, Expire(k));
      machine := Next(machine, Expire(k));
    }

    /** The deferred delete: the id is free again, and nothing else changes. */
    method Deregister(k: nat, id: string)
      requires Valid() && Owns(k, id, Leaving)
      modifies this
      ensures Valid() && Holds() == old(Holds()).(calls := old(calls) - {id})
      ensures Owns(k, id, Gone) && machine == Next(old(machine), Leave(k))
    {
      LeadsOn(Init(replyPath), machine, Leave(k));
      calls := calls - {id};
      machine := Next(machine, Leave(k));
    }

    // ---------------------------------------------------------------- route

    method Receive()
      requires Valid() && taken.None? && ch != []
      modifies this
      ensures Valid() && Holds() == old(Holds()).(taken := Some(old(ch)[0]), ch := old(ch)[1..])
      ensures machine == Next(old(machine), Take)
    {
      TakeTied(machine, Holds());
      LeadsOn(Init(replyPath), machine, Take);
      taken, ch := Some(ch[0]), ch[1..];
      machine := Next(machine, Take);
    }

    /** Under the lock: the sink registered under the reply's id, or none and the
        reply is dropped. */
    method LookUp()
      requires Valid() && taken.Some? && target.None?
      modifies this
      ensures var id := CallID(old(taken).value);
              Holds() == if id in old(calls) then old(Holds()).(target := Some(old(calls)[id]))
                  else old(Holds()).(taken := None)
      ensures Valid() && machine == Next(old(machine), Lookup)
    {
      ReachableIsRouted(replyPath, machine);
      LeadsOn(Init(replyPath), machine, Lookup);
      var id := CallID(taken.value);
      if id in calls {
        target := Some(calls[id]);
      } else {
        taken := None;
      }
      machine := Next(machine, Lookup);
    }

    /** With the lock released: whatever has become of the call meanwhile, it is
        the one the reply is for, and its sink gets the reply if there is room;
        the router does not wait. */
    method HandOver()
      requires Valid() && taken.Some? && target.Some?
      modifies this
      ensures var k := old(target).value;
              && k < |old(sinks)|
              && var queue := old(sinks)[k];
                 Holds() == old(Holds()).(taken := None, target := None,
                   sinks := old(sinks)[k := if |queue| < REPLY_BUFFER then queue + [old(taken).value] else queue])
      ensures old(target).value < |machine.log| && machine.log[old(target).value].id == CallID(old(taken).value)
      ensures Valid() && machine == Next(old(machine), Enqueue)
    {
      ReachableIsRouted(replyPath, machine);
      EnqueueTied(machine, Holds());
      LeadsOn(Init(replyPath), machine, Enqueue);
      var k := target.value;
      if |sinks[k]| < REPLY_BUFFER {
        sinks := sinks[k := sinks[k] + [taken.value]];
      }
      taken, target := None, None;
      machine := Next(machine, Enqueue);
    }

    /** The body of the loop, undisturbed: the reply reaches the call it is for,
        if there is one with room, and no other. */
    method RouteOne()
      requires Valid() && taken.None? && ch != []
      modifies this
      ensures Valid() && Holds() == Forwarded(old(Holds()))
    {
      CallsApart(machine, Holds(), replyPath);
      Receive();
      LookUp();
      if target.Some? { HandOver(); }
    }

    /** The router alone with the replies that have arrived: it gets through all of
        them without ever waiting for a call, and every registered call has, after
        what it had, the replies with its id in the order they came, as far as
        its buffer goes. */
    method Route()
      requires Valid() && taken.None?
      modifies this
      ensures Valid() && taken.None? && ch == [] && calls == old(calls) && closed == old(closed)
      ensures |sinks| == |old(sinks)| && Registered(old(calls), |sinks|)
      ensures forall id :: id in calls ==> sinks[calls[id]] == Filled(old(sinks)[calls[id]], For(id, old(ch)))
    {
      ghost var n, evs, before := 0, ch, Holds();
      CallsApart(machine, before, replyPath);
      assert evs[..0] == [];
      while ch != []
        invariant Valid() && taken.None? && n <= |evs| && ch == evs[n..] && calls == before.calls
            && closed == before.closed
        invariant Handed(before, sinks, evs[..n])
        decreases |ch|
      {
        HandedOn(before, sinks, evs, n);
        RouteOne();
        n := n + 1;
      }
      assert evs[..n] == evs;
    }

    // ---------------------------------------------------------------- Close

    /** Closing empties the map and leaves sinks and channel alone; closing again
        changes nothing. */
    method Shut()
      requires Valid()
      modifies this
      ensures Valid() && Holds() == old(Holds()).(closed := true, calls := map[])
      ensures machine == Next(old(machine), Close) && (old(closed) ==> Holds() == old(Holds()))
    {
      ReachableIsRouted(replyPath, machine);
      if closed { return; }
      LeadsOn(Init(replyPath), machine, Close);
      closed := true;
      calls := map[];
      machine := Next(machine, Close);
    }

    /** Draining empties the channel, and no call sees any of it. */
    method DrainAll()
      requires Valid() && closed
      modifies this
      ensures Valid() && Holds() == old(Holds()).(ch := []) && machine.log == old(machine.log)
    {
      while ch != []
        invariant Valid() && closed && Holds() == old(Holds()).(ch := ch) && machine.log == old(machine.log)
        decreases |ch|
      {
        LeadsOn(Init(replyPath), machine, Drain);
        ch := ch[1..];
        machine := Next(machine, Drain);
      }
    }
  }

  // ------------------------------------------------------------- undisturbed

  predicate Registered(calls: map<string, nat>, n: nat) {
    forall id :: id in calls ==> calls[id] < n
  }

  /** Every id has a sink of its own, with no more in it than it can hold */
  ghost predicate Apart(c: Content) {
    && Registered(c.calls, |c.sinks|)
    && (forall id, other :: id in c.calls && other in c.calls && id != other ==> c.calls[id] != c.calls[other])
    && forall k :: 0 <= k < |c.sinks| ==> |c.sinks[k]| <= REPLY_BUFFER
  }

  lemma CallsApart(m: State, c: Content, path: string)
    requires Leads(Init(path), m) && Tied(m, c)
    ensures Apart(c)
  {
    ReachableIsRouted(path, m);
    forall k | 0 <= k < |c.sinks| ensures |c.sinks[k]| <= REPLY_BUFFER { assert SinkOk(m, m.log[k]); }
  }

  /** sinks is what before had, and the replies evs handed out */
  ghost predicate Handed(before: Content, sinks: seq<seq<Event>>, evs: seq<Event>) {
    && Apart(before) && |sinks| == |before.sinks|
    && forall id :: id in before.calls ==>
         sinks[before.calls[id]] == Filled(before.sinks[before.calls[id]], For(id, evs))
  }

  /** The sinks after ev found its way */
  function Given(calls: map<string, nat>, sinks: seq<seq<Event>>, ev: Event): seq<seq<Event>> {
    var id := CallID(ev);
    if id in calls && calls[id] < |sinks| then sinks[calls[id] := Offered(sinks[calls[id]], id, ev)] else sinks
  }

  /** One event taken off the channel and found its way */
  function Forwarded(c: Content): Content
    requires c.ch != []
  {
    c.(ch := c.ch[1..], sinks := Given(c.calls, c.sinks, c.ch[0]))
  }

  lemma HandedOn(before: Content, sinks: seq<seq<Event>>, evs: seq<Event>, n: nat)
    requires n < |evs| && Handed(before, sinks, evs[..n])
    ensures Handed(before, Given(before.calls, sinks, evs[n]), evs[..n + 1])
  {
    var given := Given(before.calls, sinks, evs[n]);
    forall id | id in before.calls
      ensures given[before.calls[id]] == Filled(before.sinks[before.calls[id]], For(id, evs[..n + 1]))
    {
      OfferedFills(before.sinks[before.calls[id]], id, evs, n);
    }
  }

  lemma HeadAndTail(queue: seq<Event>)
    requires queue != []
    ensures [queue[0]] + queue[1..] == queue
  {
  }

  /** What waits for call k carries its id. */
  lemma OwnReply(m: State, c: Content, path: string, k: nat)
    requires Leads(Init(path), m) && Tied(m, c) && k < |c.sinks| && c.sinks[k] != []
    ensures CallID(c.sinks[k][0]) == m.log[k].id
  {
    ReachableIsRouted(path, m);
    var call := m.log[k];
    assert SinkOk(m, call) && Traffic(call)[|call.seen|] == call.buffer[0];
  }

  // ------------------------------------------------------------- runs

  /** Some run of the machine goes from s to t */
  ghost predicate Leads(s: State, t: State) {
    exists steps :: Exec(s, steps) == Some(t)
  }

  lemma LeadsNowhere(s: State)
    ensures Leads(s, s)
  {
    assert Exec(s, []) == Some(s);
  }

  lemma LeadsOn(s: State, t: State, step: Step)
    requires Leads(s, t) && Enabled(t, step)
    ensures Leads(s, Next(t, step))
  {
    var steps :| Exec(s, steps) == Some(t);
    assert (steps + [step])[..|steps|] == steps;
    assert Exec(s, steps + [step]) == Some(Next(t, step));
  }

  /** A call's id is one topic level. */
  lemma IdIsTitle(path: string, s: State, k: nat)
    requires Leads(Init(path), s) && k < |s.log|
    ensures s.log[k].id != "" && '/' !in s.log[k].id
  {
    var steps :| Exec(Init(path), steps) == Some(s);
    IdsAreTitles(path, steps);
    CallIds.TitleIsTopicFriendly(Blobs(steps)[k]);
  }

  lemma ReachableIsRouted(path: string, s: State)
    requires Leads(Init(path), s)
    ensures Routed(s)
  {
    var steps :| Exec(Init(path), steps) == Some(s);
    RoutingHolds(path, steps);
  }
}
