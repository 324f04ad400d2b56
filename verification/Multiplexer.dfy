/** The RPC multiplexer of client/session.go as a state machine: any number of
    calls, one router that takes an event, looks its call up and hands it over in
    separate steps, and a close that can come at any point in between.

    An arrived event is known by its position in arrivals, so that the places it
    can be in are lists of positions. */
module Multiplexer {
  import opened Text
  import opened Wire
  import CallIds

  const REPLY_BUFFER: nat := 512

  /** Where a registered Call stands: about to send, waiting for replies, on its
      way out with the deferred delete still to come, returned */
  datatype Phase = Opening | Waiting | Leaving | Gone

  /** One Call and its sink: buffer is the channel, seen went to onReply */
  datatype Call = Call(id: string, phase: Phase, request: Option<Request>, buffer: seq<nat>, seen: seq<nat>)

  /** What the router goroutine holds between its steps */
  datatype Hand = Free | Took(ev: nat) | Holds(ev: nat, sink: nat)

  datatype State = State(
    replyPath: string,
    closed: bool,
    calls: map<string, nat>,
    log: seq<Call>,
    arrivals: seq<Event>,
    next: nat,
    hand: Hand,
    unknown: seq<nat>,
    overflow: seq<nat>,
    drained: seq<nat>)

  datatype Step =
    | Register(blob: seq<CallIds.Byte>)
    | Refuse
    | Send(call: nat, topic: string, cmd: Command)
    | Abort(call: nat)
    | Consume(call: nat, more: bool)
    | Expire(call: nat)
    | Leave(call: nat)
    | Arrive(event: Event)
    | Take
    | Lookup
    | Enqueue
    | Close
    | Drain

  function Init(replyPath: string): State {
    State(replyPath, false, map[], [], [], 0, Free, [], [], [])
  }

  predicate Enabled(s: State, step: Step) {
    match step
    case Register(blob) => !s.closed && |blob| == 8
    case Refuse => s.closed
    case Send(k, _, _) => k < |s.log| && s.log[k].phase == Opening
    case Abort(k) => k < |s.log| && s.log[k].phase == Opening
    case Consume(k, _) => k < |s.log| && s.log[k].phase == Waiting && s.log[k].buffer != []
    case Expire(k) => k < |s.log| && s.log[k].phase == Waiting
    case Leave(k) => k < |s.log| && s.log[k].phase == Leaving
    case Arrive(_) => true
    case Take => s.hand.Free? && s.next < |s.arrivals|
    case Lookup => s.hand.Took? && s.hand.ev < |s.arrivals|
    case Enqueue => s.hand.Holds? && s.hand.sink < |s.log|
    case Close => true
    case Drain => s.closed && s.next < |s.arrivals|
  }

  function WithCall(s: State, k: nat, c: Call): State
    requires k < |s.log|
  {
    s.(log := s.log[k := c])
  }

  function Next(s: State, step: Step): State
    requires Enabled(s, step)
  {
    match step
    case Register(blob) =>
      var id := CallIds.MapBytesToTopicTitle(blob);
      s.(calls := s.calls[id := |s.log|], log := s.log + [Call(id, Opening, None, [], [])])
    case Refuse => s
    case Send(k, topic, cmd) =>
      var c := s.log[k];
      var req := Request(topic, ReplyTo(s.replyPath, c.id), Some(c.id), Some(cmd));
      WithCall(s, k, c.(phase := Waiting, request := Some(req)))
    case Abort(k) => WithCall(s, k, s.log[k].(phase := Leaving))
    case Consume(k, more) =>
      var c := s.log[k];
      var phase := if more then Waiting else Leaving;
      WithCall(s, k, c.(seen := c.seen + [c.buffer[0]], buffer := c.buffer[1..], phase := phase))
    case Expire(k) => WithCall(s, k, s.log[k].(phase := Leaving))
    case Leave(k) =>
      WithCall(s, k, s.log[k].(phase := Gone)).(calls := s.calls - {s.log[k].id})
    case Arrive(ev) => s.(arrivals := s.arrivals + [ev])
    case Take => s.(hand := Took(s.next), next := s.next + 1)
    case Lookup =>
      var id := CallID(s.arrivals[s.hand.ev]);
      if id in s.calls then s.(hand := Holds(s.hand.ev, s.calls[id]))
      else s.(hand := Free, unknown := s.unknown + [s.hand.ev])
    case Enqueue =>
      var c := s.log[s.hand.sink];
      if |c.buffer| < REPLY_BUFFER
      then WithCall(s, s.hand.sink, c.(buffer := c.buffer + [s.hand.ev])).(hand := Free)
      else s.(hand := Free, overflow := s.overflow + [s.hand.ev])
    case Close => if s.closed then s else s.(closed := true, calls := map[])
    case Drain => s.(drained := s.drained + [s.next], next := s.next + 1)
  }

  /** The state a run from s ends in, None if some step was not possible */
  function Exec(s: State, steps: seq<Step>): Option<State> {
    if steps == [] then Some(s)
    else
      match Exec(s, steps[..|steps| - 1])
      case None => None
      case Some(t) =>
        if Enabled(t, steps[|steps| - 1]) then Some(Next(t, steps[|steps| - 1])) else None
  }

  // ------------------------------------------------------------- conservation

  /** Everything that reached a call's sink, in order */
  function Traffic(c: Call): seq<nat> { c.seen + c.buffer }

  function Occurs(es: seq<nat>, e: nat): nat { multiset(es)[e] }

  function Held(cs: seq<Call>, e: nat): nat {
    if cs == [] then 0 else Held(cs[..|cs| - 1], e) + Occurs(Traffic(cs[|cs| - 1]), e)
  }

  function InHand(h: Hand, e: nat): nat {
    if !h.Free? && h.ev == e then 1 else 0
  }

  /** In how many places an event is, the channel aside: with some call, in the
      router's hand, dropped as unknown or as full, or drained */
  function Places(s: State, e: nat): nat {
    Held(s.log, e) + InHand(s.hand, e) + Occurs(s.unknown, e) + Occurs(s.overflow, e) + Occurs(s.drained, e)
  }

  /** An event that left the channel is in exactly one place, one that is still
      in it in none. */
  ghost predicate Conserved(s: State) {
    s.next <= |s.arrivals| && forall e: nat :: Places(s, e) == if e < s.next then 1 else 0
  }

  lemma {:induction false} HeldUpdate(cs: seq<Call>, k: nat, c: Call, e: nat)
    requires k < |cs|
    ensures Held(cs[k := c], e) == Held(cs, e) - Occurs(Traffic(cs[k]), e) + Occurs(Traffic(c), e)
  {
    var n := |cs| - 1;
    var cs' := cs[k := c];
    if k == n {
      assert cs'[..n] == cs[..n];
    } else {
      HeldUpdate(cs[..n], k, c, e);
      assert cs'[..n] == cs[..n][k := c];
    }
  }

  lemma HeldAppend(cs: seq<Call>, c: Call, e: nat)
    ensures Held(cs + [c], e) == Held(cs, e) + Occurs(Traffic(c), e)
  {
    assert (cs + [c])[..|cs|] == cs;
  }

  lemma OccursAppend(es: seq<nat>, x: nat, e: nat)
    ensures Occurs(es + [x], e) == Occurs(es, e) + if x == e then 1 else 0
  {
  }

  lemma ConsumeKeepsTraffic(c: Call, phase: Phase)
    requires c.buffer != []
    ensures Traffic(c.(seen := c.seen + [c.buffer[0]], buffer := c.buffer[1..], phase := phase)) == Traffic(c)
  {
    assert c.buffer == [c.buffer[0]] + c.buffer[1..];
  }

  /** Steps inside a call move nothing. */
  lemma CallStepKeepsPlaces(s: State, step: Step, e: nat)
    requires Enabled(s, step)
    requires step.Send? || step.Abort? || step.Consume? || step.Expire? || step.Leave?
    ensures Places(Next(s, step), e) == Places(s, e)
  {
    var k, s' := step.call, Next(s, step);
    if step.Consume? { ConsumeKeepsTraffic(s.log[k], s'.log[k].phase); }
    assert Traffic(s'.log[k]) == Traffic(s.log[k]);
    assert s'.log == s.log[k := s'.log[k]];
    HeldUpdate(s.log, k, s'.log[k], e);
  }

  lemma SinkTakesOne(cs: seq<Call>, k: nat, x: nat, e: nat)
    requires k < |cs|
    ensures Held(cs[k := cs[k].(buffer := cs[k].buffer + [x])], e) == Held(cs, e) + if x == e then 1 else 0
  {
    var c := cs[k].(buffer := cs[k].buffer + [x]);
    assert Traffic(c) == Traffic(cs[k]) + [x];
    OccursAppend(Traffic(cs[k]), x, e);
    HeldUpdate(cs, k, c, e);
  }

  lemma QueuedKeepsPlaces(s: State, t: State, e: nat)
    requires s.hand.Holds? && s.hand.sink < |s.log|
    requires var k := s.hand.sink;
             t == s.(hand := Free, log := s.log[k := s.log[k].(buffer := s.log[k].buffer + [s.hand.ev])])
    ensures Places(t, e) == Places(s, e)
  {
    SinkTakesOne(s.log, s.hand.sink, s.hand.ev, e);
  }

  lemma OverflowKeepsPlaces(s: State, e: nat)
    requires s.hand.Holds?
    ensures Places(s.(hand := Free, overflow := s.overflow + [s.hand.ev]), e) == Places(s, e)
  {
    OccursAppend(s.overflow, s.hand.ev, e);
  }

  lemma EnqueueKeepsPlaces(s: State, e: nat)
    requires Enabled(s, Enqueue)
    ensures Places(Next(s, Enqueue), e) == Places(s, e)
  {
    if |s.log[s.hand.sink].buffer| < REPLY_BUFFER {
      QueuedKeepsPlaces(s, Next(s, Enqueue), e);
    } else {
      OverflowKeepsPlaces(s, e);
    }
  }

  /** Only taking an event off the channel puts one anywhere. */
  lemma PlacesStep(s: State, step: Step, e: nat)
    requires Enabled(s, step)
    ensures Places(Next(s, step), e) == Places(s, e) + if (step.Take? || step.Drain?) && e == s.next then 1 else 0
  {
    match step
    case Register(blob) => HeldAppend(s.log, Next(s, step).log[|s.log|], e);
    case Enqueue => EnqueueKeepsPlaces(s, e);
    case Lookup => OccursAppend(s.unknown, s.hand.ev, e);
    case Drain => OccursAppend(s.drained, s.next, e);
    case Take =>
    case Refuse =>
    case Close =>
    case Arrive(_) =>
    case _ => CallStepKeepsPlaces(s, step, e);
  }

  lemma ConservedStep(s: State, step: Step)
    requires Conserved(s) && Enabled(s, step)
    ensures Conserved(Next(s, step))
  {
    forall e: nat
      ensures Places(Next(s, step), e) == if e < Next(s, step).next then 1 else 0
    {
      PlacesStep(s, step, e);
    }
  }

  /** In every reachable state every arrived event is in exactly one place. */
  lemma {:induction false} ConservationHolds(path: string, steps: seq<Step>)
    requires Exec(Init(path), steps).Some?
    ensures Conserved(Exec(Init(path), steps).value)
  {
    if steps != [] {
      ConservationHolds(path, steps[..|steps| - 1]);
      ConservedStep(Exec(Init(path), steps[..|steps| - 1]).value, steps[|steps| - 1]);
    }
  }

  // ------------------------------------------------------------- routing

  ghost predicate Increasing(es: seq<nat>) {
    forall i, j :: 0 <= i < j < |es| ==> es[i] < es[j]
  }

  /** What is in a sink arrived before what the router holds, or before the next
      event it will take */
  function Frontier(s: State): nat { if s.hand.Free? then s.next else s.hand.ev }

  /** The sink of c holds answers to c, in arrival order, each once, and at most
      REPLY_BUFFER of them are waiting */
  ghost predicate SinkOk(s: State, c: Call) {
    && |c.buffer| <= REPLY_BUFFER
    && Increasing(Traffic(c))
    && forall i :: 0 <= i < |Traffic(c)| ==>
         Traffic(c)[i] < Frontier(s) <= |s.arrivals| && CallID(s.arrivals[Traffic(c)[i]]) == c.id
  }

  ghost predicate Routed(s: State) {
    && s.next <= |s.arrivals|
    && (!s.hand.Free? ==> s.hand.ev < s.next)
    && (s.hand.Holds? ==> s.hand.sink < |s.log| && CallID(s.arrivals[s.hand.ev]) == s.log[s.hand.sink].id)
    && (forall id :: id in s.calls ==> s.calls[id] < |s.log| && s.log[s.calls[id]].id == id)
    && (s.closed ==> s.calls == map[])
    && (s.drained != [] ==> s.closed)
    && forall k :: 0 <= k < |s.log| ==> SinkOk(s, s.log[k])
  }

  /** A sink stays right when others work around it. */
  lemma SinkKept(s: State, t: State, c: Call, c': Call)
    requires SinkOk(s, c) && s.arrivals <= t.arrivals && Frontier(s) <= Frontier(t) <= |t.arrivals|
    requires Traffic(c') == Traffic(c) && |c'.buffer| <= |c.buffer| && c'.id == c.id
    ensures SinkOk(t, c')
  {
  }

  lemma SinkGrows(s: State, t: State, c: Call)
    requires SinkOk(s, c) && s.hand.Holds? && t.arrivals == s.arrivals && s.hand.ev < Frontier(t) <= |t.arrivals|
    requires |c.buffer| < REPLY_BUFFER && CallID(s.arrivals[s.hand.ev]) == c.id
    ensures SinkOk(t, c.(buffer := c.buffer + [s.hand.ev]))
  {
    var c' := c.(buffer := c.buffer + [s.hand.ev]);
    assert Traffic(c') == Traffic(c) + [s.hand.ev];
  }

  lemma CallStepRouted(s: State, step: Step)
    requires Routed(s) && Enabled(s, step)
    requires step.Send? || step.Abort? || step.Consume? || step.Expire? || step.Leave?
    ensures Routed(Next(s, step))
  {
    var t, n := Next(s, step), step.call;
    if step.Consume? { ConsumeKeepsTraffic(s.log[n], t.log[n].phase); }
    forall k | 0 <= k < |t.log| ensures SinkOk(t, t.log[k]) {
      SinkKept(s, t, s.log[k], t.log[k]);
    }
  }

  lemma EnqueueRouted(s: State)
    requires Routed(s) && Enabled(s, Enqueue)
    ensures Routed(Next(s, Enqueue))
  {
    var t, n := Next(s, Enqueue), s.hand.sink;
    forall k | 0 <= k < |t.log| ensures SinkOk(t, t.log[k]) {
      if k == n && |s.log[n].buffer| < REPLY_BUFFER {
        SinkGrows(s, t, s.log[n]);
      } else {
        SinkKept(s, t, s.log[k], t.log[k]);
      }
    }
  }

  lemma RoutedStep(s: State, step: Step)
    requires Routed(s) && Enabled(s, step)
    ensures Routed(Next(s, step))
  {
    var t := Next(s, step);
    if step.Enqueue? {
      EnqueueRouted(s);
    } else if step.Send? || step.Abort? || step.Consume? || step.Expire? || step.Leave? {
      CallStepRouted(s, step);
    } else {
      forall k | 0 <= k < |t.log| ensures SinkOk(t, t.log[k]) {
        if k < |s.log| { SinkKept(s, t, s.log[k], t.log[k]); }
      }
    }
  }

  /** In every interleaving, fresh ids or not: no buffer outgrows its bound, and
      each call sees answers carrying its own id only, in the order they arrived
      and none twice, the one in the router's hand included. */
  lemma {:induction false} RoutingHolds(path: string, steps: seq<Step>)
    requires Exec(Init(path), steps).Some?
    ensures Routed(Exec(Init(path), steps).value)
  {
    if steps != [] {
      RoutingHolds(path, steps[..|steps| - 1]);
      RoutedStep(Exec(Init(path), steps[..|steps| - 1]).value, steps[|steps| - 1]);
    }
  }

  // ------------------------------------------------------------- overflow

  /** The arrivals that carry an id */
  function Carrying(arrivals: seq<Event>, id: string): set<nat> {
    set i: nat | i < |arrivals| && CallID(arrivals[i]) == id
  }

  ghost predicate OverflowJustified(s: State) {
    forall i :: 0 <= i < |s.overflow| ==>
      s.overflow[i] < |s.arrivals| && |Carrying(s.arrivals, CallID(s.arrivals[s.overflow[i]]))| > REPLY_BUFFER
  }

  lemma {:induction false} IncreasingFits(es: seq<nat>, room: set<nat>)
    requires Increasing(es) && forall i :: 0 <= i < |es| ==> es[i] in room
    ensures |es| <= |room|
  {
    if es != [] {
      var n := |es| - 1;
      IncreasingFits(es[..n], room - {es[n]});
    }
  }

  lemma FullMeansMany(s: State)
    requires Routed(s) && s.hand.Holds? && |s.log[s.hand.sink].buffer| >= REPLY_BUFFER
    ensures |Carrying(s.arrivals, CallID(s.arrivals[s.hand.ev]))| > REPLY_BUFFER
  {
    var c := s.log[s.hand.sink];
    assert SinkOk(s, c);
    var es := Traffic(c) + [s.hand.ev];
    IncreasingFits(es, Carrying(s.arrivals, c.id));
  }

  lemma CarryingGrows(arrivals: seq<Event>, ev: Event, id: string)
    ensures |Carrying(arrivals, id)| <= |Carrying(arrivals + [ev], id)|
  {
    var a, b := Carrying(arrivals, id), Carrying(arrivals + [ev], id);
    assert a <= b;
    SubsetCount(a, b);
  }

  lemma OverflowStep(s: State, step: Step)
    requires Routed(s) && OverflowJustified(s) && Enabled(s, step)
    ensures OverflowJustified(Next(s, step))
  {
    var t := Next(s, step);
    if step.Enqueue? && |s.log[s.hand.sink].buffer| >= REPLY_BUFFER {
      FullMeansMany(s);
    } else if step.Arrive? {
      forall i | 0 <= i < |t.overflow|
        ensures t.overflow[i] < |t.arrivals| && |Carrying(t.arrivals, CallID(t.arrivals[t.overflow[i]]))| > REPLY_BUFFER
      {
        CarryingGrows(s.arrivals, step.event, CallID(s.arrivals[s.overflow[i]]));
      }
    }
  }

  /** A reply is dropped for a full buffer only if more than REPLY_BUFFER replies
      carried its id. */
  lemma {:induction false} OverflowHolds(path: string, steps: seq<Step>)
    requires Exec(Init(path), steps).Some?
    ensures OverflowJustified(Exec(Init(path), steps).value)
  {
    if steps != [] {
      var init := steps[..|steps| - 1];
      OverflowHolds(path, init);
      RoutingHolds(path, init);
      OverflowStep(Exec(Init(path), init).value, steps[|steps| - 1]);
    }
  }

  // ------------------------------------------------------------- lifecycle

  /** The random blobs the registered calls drew, in order */
  function Blobs(steps: seq<Step>): seq<seq<CallIds.Byte>> {
    if steps == [] then []
    else
      var init, step := steps[..|steps| - 1], steps[|steps| - 1];
      Blobs(init) + if step.Register? then [step.blob] else []
  }

  /** The random generator never repeats itself */
  ghost predicate Fresh(steps: seq<Step>) {
    forall i, j :: 0 <= i < j < |Blobs(steps)| ==> Blobs(steps)[i] != Blobs(steps)[j]
  }

  ghost predicate DistinctIds(s: State) {
    forall i, j :: 0 <= i < j < |s.log| ==> s.log[i].id != s.log[j].id
  }

  ghost predicate TitledBy(s: State, blobs: seq<seq<CallIds.Byte>>) {
    && |s.log| == |blobs|
    && forall k :: 0 <= k < |s.log| ==> |blobs[k]| == 8 && s.log[k].id == CallIds.MapBytesToTopicTitle(blobs[k])
  }

  lemma TitledStep(s: State, step: Step, blobs: seq<seq<CallIds.Byte>>)
    requires TitledBy(s, blobs) && Enabled(s, step)
    ensures TitledBy(Next(s, step), blobs + if step.Register? then [step.blob] else [])
  {
    if !step.Register? {
      StepKeepsCalls(s, step);
      assert blobs + [] == blobs;
    }
  }

  lemma {:induction false} IdsAreTitles(path: string, steps: seq<Step>)
    requires Exec(Init(path), steps).Some?
    ensures TitledBy(Exec(Init(path), steps).value, Blobs(steps))
  {
    if steps != [] {
      var init := steps[..|steps| - 1];
      IdsAreTitles(path, init);
      TitledStep(Exec(Init(path), init).value, steps[|steps| - 1], Blobs(init));
    }
  }

  /** Blobs that differ make ids that differ. */
  lemma FreshIds(path: string, steps: seq<Step>)
    requires Exec(Init(path), steps).Some? && Fresh(steps)
    ensures DistinctIds(Exec(Init(path), steps).value)
  {
    IdsAreTitles(path, steps);
    var s := Exec(Init(path), steps).value;
    forall i, j | 0 <= i < j < |s.log| ensures s.log[i].id != s.log[j].id {
      CallIds.TitleInjective(Blobs(steps)[i], Blobs(steps)[j]);
    }
  }

  lemma FreshPrefix(steps: seq<Step>)
    requires steps != [] && Fresh(steps)
    ensures Fresh(steps[..|steps| - 1])
  {
    var init := steps[..|steps| - 1];
    forall i, j | 0 <= i < j < |Blobs(init)| ensures Blobs(init)[i] != Blobs(init)[j] {
      assert Blobs(steps)[i] == Blobs(init)[i] && Blobs(steps)[j] == Blobs(init)[j];
    }
  }

  /** While the session is open its calls are exactly the calls in progress, each
      under its own sink; once closed there are none. */
  ghost predicate Lifecycle(s: State) {
    if s.closed then s.calls == map[]
    else
      && (forall k :: 0 <= k < |s.log| && s.log[k].phase != Gone ==>
          s.log[k].id in s.calls && s.calls[s.log[k].id] == k)
      && forall id :: id in s.calls ==>
           0 <= s.calls[id] < |s.log| && s.log[s.calls[id]].phase != Gone && s.log[s.calls[id]].id == id
  }

  /** A registration keeps this exactly when no call in progress has its id: a
      repeated id would put the older call's sink out of reach. */
  lemma RegisterLifecycle(s: State, blob: seq<CallIds.Byte>)
    requires Lifecycle(s) && Enabled(s, Register(blob))
    ensures Lifecycle(Next(s, Register(blob))) <==> CallIds.MapBytesToTopicTitle(blob) !in s.calls
  {
    var t, n := Next(s, Register(blob)), |s.log|;
    var id := CallIds.MapBytesToTopicTitle(blob);
    if id in s.calls {
      var k := s.calls[id];
      assert t.log[k] == s.log[k] && t.calls[id] == n;
    } else {
      forall k | 0 <= k < |t.log| && t.log[k].phase != Gone
        ensures t.log[k].id in t.calls && t.calls[t.log[k].id] == k
      {
        if k < n { assert t.log[k] == s.log[k]; }
      }
      forall i | i in t.calls
        ensures 0 <= t.calls[i] < |t.log| && t.log[t.calls[i]].phase != Gone && t.log[t.calls[i]].id == i
      {
        if i != id { assert t.log[s.calls[i]] == s.log[s.calls[i]]; }
      }
    }
  }

  lemma LeaveLifecycle(s: State, n: nat)
    requires Lifecycle(s) && Enabled(s, Leave(n)) && DistinctIds(s)
    ensures Lifecycle(Next(s, Leave(n)))
  {
    var t := Next(s, Leave(n));
    if !s.closed {
      forall k | 0 <= k < |t.log| && t.log[k].phase != Gone
        ensures t.log[k].id in t.calls && t.calls[t.log[k].id] == k
      {
        assert k != n && t.log[k] == s.log[k] && s.log[k].id != s.log[n].id;
      }
    }
  }

  /** The registrations, the ids and the returns are left alone */
  ghost predicate SameStanding(s: State, t: State) {
    && t.calls == s.calls && t.closed == s.closed && |t.log| == |s.log|
    && forall k :: 0 <= k < |s.log| ==>
        t.log[k].id == s.log[k].id && (t.log[k].phase == Gone <==> s.log[k].phase == Gone)
  }

  lemma LifecycleKept(s: State, t: State)
    requires Lifecycle(s) && SameStanding(s, t)
    ensures Lifecycle(t)
  {
  }

  /** One call goes on, under its id and not to its return */
  lemma GoesOn(s: State, t: State, k: nat)
    requires t.calls == s.calls && t.closed == s.closed && k < |s.log| == |t.log| && t.log == s.log[k := t.log[k]]
    requires t.log[k].id == s.log[k].id && (t.log[k].phase == Gone <==> s.log[k].phase == Gone)
    ensures SameStanding(s, t)
  {
  }

  lemma StepKeepsStanding(s: State, step: Step)
    requires Enabled(s, step) && !step.Register? && !step.Leave? && !step.Close?
    ensures SameStanding(s, Next(s, step))
  {
    if step.Send? || step.Abort? || step.Consume? || step.Expire? {
      GoesOn(s, Next(s, step), step.call);
    } else if step.Enqueue? {
      GoesOn(s, Next(s, step), s.hand.sink);
    }
  }

  lemma FreshRegistration(s: State, blob: seq<CallIds.Byte>)
    requires Lifecycle(s) && Enabled(s, Register(blob)) && DistinctIds(Next(s, Register(blob)))
    ensures Lifecycle(Next(s, Register(blob)))
  {
    var t := Next(s, Register(blob));
    forall id | id in s.calls ensures id != t.log[|s.log|].id {
      assert t.log[s.calls[id]] == s.log[s.calls[id]];
    }
    RegisterLifecycle(s, blob);
  }

  lemma LifecycleStep(s: State, step: Step)
    requires Lifecycle(s) && Enabled(s, step) && DistinctIds(s) && DistinctIds(Next(s, step))
    ensures Lifecycle(Next(s, step))
  {
    if step.Register? {
      FreshRegistration(s, step.blob);
    } else if step.Leave? {
      LeaveLifecycle(s, step.call);
    } else if !step.Close? {
      StepKeepsStanding(s, step);
      LifecycleKept(s, Next(s, step));
    }
  }

  /** In every run with fresh ids, on all four ways out of a call. */
  lemma {:induction false} LifecycleHolds(path: string, steps: seq<Step>)
    requires Exec(Init(path), steps).Some? && Fresh(steps)
    ensures Lifecycle(Exec(Init(path), steps).value)
  {
    if steps != [] {
      FreshPrefix(steps);
      LifecycleHolds(path, steps[..|steps| - 1]);
      FreshIds(path, steps);
      FreshIds(path, steps[..|steps| - 1]);
      LifecycleStep(Exec(Init(path), steps[..|steps| - 1]).value, steps[|steps| - 1]);
    }
  }

  // ------------------------------------------------------------- close

  /** t follows s, both closed: nothing but the reply the router had already
      looked up has reached a sink since. */
  ghost predicate OnlyTheHeldOne(s: State, t: State) {
    && t.closed && t.calls == map[] && |t.log| == |s.log|
    && (t.hand.Holds? ==> t.hand == s.hand)
    && forall k :: 0 <= k < |s.log| ==>
         || Traffic(t.log[k]) == Traffic(s.log[k])
         || (!t.hand.Holds? && s.hand.Holds? && s.hand.sink == k
             && Traffic(t.log[k]) == Traffic(s.log[k]) + [s.hand.ev])
  }

  lemma HeldOneStep(s: State, t: State, step: Step)
    requires OnlyTheHeldOne(s, t) && Enabled(t, step)
    ensures OnlyTheHeldOne(s, Next(t, step))
  {
    var u := Next(t, step);
    if step.Consume? { ConsumeKeepsTraffic(t.log[step.call], u.log[step.call].phase); }
    if step.Enqueue? && |t.log[t.hand.sink].buffer| < REPLY_BUFFER {
      assert Traffic(u.log[t.hand.sink]) == Traffic(t.log[t.hand.sink]) + [t.hand.ev];
    }
    forall k | 0 <= k < |s.log|
      ensures || Traffic(u.log[k]) == Traffic(t.log[k])
              || (step.Enqueue? && k == t.hand.sink && Traffic(u.log[k]) == Traffic(t.log[k]) + [t.hand.ev])
    {
    }
  }

  /** After Close, whatever follows, the session stays closed and empty, no call
      is added, and at most one reply, the one already looked up, reaches any
      sink. */
  lemma {:induction false} CloseIsFinal(s: State, steps: seq<Step>)
    requires s.closed && s.calls == map[] && Exec(s, steps).Some?
    ensures OnlyTheHeldOne(s, Exec(s, steps).value)
  {
    if steps != [] {
      CloseIsFinal(s, steps[..|steps| - 1]);
      HeldOneStep(s, Exec(s, steps[..|steps| - 1]).value, steps[|steps| - 1]);
    }
  }

  // ------------------------------------------------------------- nothing lost

  /** A reply to a request some call has sent */
  ghost predicate Solicited(s: State, ev: Event) {
    exists k :: 0 <= k < |s.log| && s.log[k].request.Some? && CallID(ev) == s.log[k].id
  }

  /** Only solicited replies arrive */
  ghost predicate Orderly(path: string, steps: seq<Step>) {
    steps == [] ||
    var init, step := steps[..|steps| - 1], steps[|steps| - 1];
    && Orderly(path, init)
    && (step.Arrive? ==> Exec(Init(path), init).Some? && Solicited(Exec(Init(path), init).value, step.event))
  }

  ghost predicate AllSolicited(s: State) {
    forall i :: 0 <= i < |s.arrivals| ==> Solicited(s, s.arrivals[i])
  }

  /** No reply was turned away while its call was there to take it */
  ghost predicate NoneTurnedAway(s: State) {
    !s.closed ==>
      forall i, k :: 0 <= i < |s.unknown| && 0 <= k < |s.log| && s.log[k].phase != Gone ==>
        s.unknown[i] < |s.arrivals| && CallID(s.arrivals[s.unknown[i]]) != s.log[k].id
  }

  lemma SolicitedKept(s: State, step: Step, ev: Event)
    requires Enabled(s, step) && Solicited(s, ev)
    ensures Solicited(Next(s, step), ev)
  {
    var k :| 0 <= k < |s.log| && s.log[k].request.Some? && CallID(ev) == s.log[k].id;
    var t := Next(s, step);
    assert t.log[k].request.Some? && t.log[k].id == s.log[k].id;
  }

  lemma SolicitedStep(s: State, step: Step)
    requires AllSolicited(s) && Enabled(s, step) && (step.Arrive? ==> Solicited(s, step.event))
    ensures AllSolicited(Next(s, step))
  {
    var t := Next(s, step);
    forall i | 0 <= i < |t.arrivals| ensures Solicited(t, t.arrivals[i]) {
      SolicitedKept(s, step, t.arrivals[i]);
    }
  }

  /** Nobody is turned away on behalf of a call that does not exist yet. */
  lemma TurnedAwayRegister(s: State, blob: seq<CallIds.Byte>)
    requires NoneTurnedAway(s) && AllSolicited(s) && Enabled(s, Register(blob)) && DistinctIds(Next(s, Register(blob)))
    requires forall i :: 0 <= i < |s.unknown| ==> s.unknown[i] < |s.arrivals|
    ensures NoneTurnedAway(Next(s, Register(blob)))
  {
    var t, n := Next(s, Register(blob)), |s.log|;
    forall i | 0 <= i < |s.unknown| ensures CallID(s.arrivals[s.unknown[i]]) != t.log[n].id {
      assert Solicited(s, s.arrivals[s.unknown[i]]);
      var j :| 0 <= j < |s.log| && CallID(s.arrivals[s.unknown[i]]) == s.log[j].id;
      assert t.log[j].id == s.log[j].id && t.log[j].id != t.log[n].id;
    }
  }

  lemma TurnedAwayLookup(s: State)
    requires NoneTurnedAway(s) && Lifecycle(s) && Enabled(s, Lookup)
    ensures NoneTurnedAway(Next(s, Lookup))
  {
  }

  /** t has the calls of s, some of them gone since, and turned nobody else away */
  lemma TurnedAwayKept(s: State, t: State)
    requires NoneTurnedAway(s) && (s.closed ==> t.closed) && t.unknown == s.unknown && s.arrivals <= t.arrivals
    requires CallsKept(s, t)
    ensures NoneTurnedAway(t)
  {
  }

  ghost predicate CallsKept(s: State, t: State) {
    && |t.log| == |s.log|
    && forall k :: 0 <= k < |s.log| ==>
        t.log[k].id == s.log[k].id && (s.log[k].phase == Gone ==> t.log[k].phase == Gone)
  }

  lemma StepKeepsCalls(s: State, step: Step)
    requires Enabled(s, step) && !step.Register?
    ensures CallsKept(s, Next(s, step))
  {
  }

  lemma TurnedAwayStep(s: State, step: Step)
    requires NoneTurnedAway(s) && AllSolicited(s) && Lifecycle(s) && Enabled(s, step) && DistinctIds(Next(s, step))
    requires forall i :: 0 <= i < |s.unknown| ==> s.unknown[i] < |s.arrivals|
    ensures NoneTurnedAway(Next(s, step))
  {
    if step.Register? {
      TurnedAwayRegister(s, step.blob);
    } else if step.Lookup? {
      TurnedAwayLookup(s);
    } else {
      StepKeepsCalls(s, step);
      TurnedAwayKept(s, Next(s, step));
    }
  }

  lemma UnknownArrived(s: State)
    requires Conserved(s)
    ensures forall i :: 0 <= i < |s.unknown| ==> s.unknown[i] < s.next <= |s.arrivals|
  {
    forall i | 0 <= i < |s.unknown| ensures s.unknown[i] < s.next {
      assert s.unknown[i] in multiset(s.unknown);
      assert Places(s, s.unknown[i]) >= 1;
    }
  }

  lemma {:induction false} OrderlyHolds(path: string, steps: seq<Step>)
    requires Exec(Init(path), steps).Some? && Fresh(steps) && Orderly(path, steps)
    ensures AllSolicited(Exec(Init(path), steps).value) && NoneTurnedAway(Exec(Init(path), steps).value)
  {
    if steps != [] {
      var init, step := steps[..|steps| - 1], steps[|steps| - 1];
      var s := Exec(Init(path), init).value;
      FreshPrefix(steps);
      OrderlyHolds(path, init);
      LifecycleHolds(path, init);
      FreshIds(path, steps);
      ConservationHolds(path, init);
      UnknownArrived(s);
      SolicitedStep(s, step);
      TurnedAwayStep(s, step);
    }
  }

  lemma {:induction false} HeldBySome(cs: seq<Call>, e: nat)
    requires Held(cs, e) > 0
    ensures exists k :: 0 <= k < |cs| && e in Traffic(cs[k])
  {
    var n := |cs| - 1;
    if Occurs(Traffic(cs[n]), e) > 0 {
      assert e in multiset(Traffic(cs[n]));
      assert e in Traffic(cs[n]);
    } else {
      HeldBySome(cs[..n], e);
      var k :| 0 <= k < n && e in Traffic(cs[..n][k]);
      assert cs[..n][k] == cs[k];
    }
  }

  /** End to end: in any run with fresh ids where only solicited replies arrive,
      as long as the session is open and the call in progress, every reply to it
      is with the call, in the router's hand on its way there, still in the
      channel, or was dropped for a full buffer. */
  lemma NothingLost(path: string, steps: seq<Step>, k: nat, e: nat)
    requires Exec(Init(path), steps).Some? && Fresh(steps) && Orderly(path, steps)
    requires Expects(Exec(Init(path), steps).value, k, e)
    ensures var s := Exec(Init(path), steps).value;
            e in Traffic(s.log[k]) || InHand(s.hand, e) == 1 || s.next <= e || e in s.overflow
  {
    ConservationHolds(path, steps);
    RoutingHolds(path, steps);
    OrderlyHolds(path, steps);
    FreshIds(path, steps);
    FindReply(Exec(Init(path), steps).value, k, e);
  }

  /** And as long as no more than 512 replies carry its id, none of them is
      dropped. */
  lemma NothingDropped(path: string, steps: seq<Step>, k: nat, e: nat)
    requires Exec(Init(path), steps).Some? && Fresh(steps) && Orderly(path, steps)
    requires Expects(Exec(Init(path), steps).value, k, e)
    requires var s := Exec(Init(path), steps).value; |Carrying(s.arrivals, s.log[k].id)| <= 512
    ensures var s := Exec(Init(path), steps).value;
            e in Traffic(s.log[k]) || InHand(s.hand, e) == 1 || s.next <= e
  {
    NothingLost(path, steps, k, e);
    OverflowHolds(path, steps);
    var s := Exec(Init(path), steps).value;
    forall i | 0 <= i < |s.overflow| ensures s.overflow[i] != e {}
  }

  /** Call k is there to take arrival e */
  ghost predicate Expects(s: State, k: nat, e: nat) {
    && !s.closed && k < |s.log| && s.log[k].phase != Gone
    && e < |s.arrivals| && CallID(s.arrivals[e]) == s.log[k].id
  }

  lemma FindReply(s: State, k: nat, e: nat)
    requires Conserved(s) && Routed(s) && NoneTurnedAway(s) && DistinctIds(s)
    requires Expects(s, k, e)
    ensures e in Traffic(s.log[k]) || InHand(s.hand, e) == 1 || s.next <= e || e in s.overflow
  {
    if e < s.next && InHand(s.hand, e) == 0 && e !in s.overflow {
      assert Places(s, e) == 1;
      NotTurnedAway(s, k, e);
      assert e !in multiset(s.overflow);
      HeldBySome(s.log, e);
      var j :| 0 <= j < |s.log| && e in Traffic(s.log[j]);
      SinkIsOwners(s, j, e);
      assert j == k;
    }
  }

  lemma SinkIsOwners(s: State, j: nat, e: nat)
    requires Routed(s) && j < |s.log| && e in Traffic(s.log[j])
    ensures e < |s.arrivals| && CallID(s.arrivals[e]) == s.log[j].id
  {
    assert SinkOk(s, s.log[j]);
    var i :| 0 <= i < |Traffic(s.log[j])| && Traffic(s.log[j])[i] == e;
  }

  lemma NotTurnedAway(s: State, k: nat, e: nat)
    requires Routed(s) && NoneTurnedAway(s) && Expects(s, k, e)
    ensures Occurs(s.unknown, e) == 0 && Occurs(s.drained, e) == 0
  {
    forall i | 0 <= i < |s.unknown| ensures s.unknown[i] != e {}
    assert e !in s.unknown && e !in multiset(s.unknown);
    assert s.drained == [];
  }
}
