/** Runs in which calls get their full answer and return: what the theorems about
    returned calls ask for can happen, on any open session with nothing in
    flight, for every fleet. */
module Settling {
  import opened Text
  import opened Wire
  import opened Daemon
  import opened Multiplexer
  import opened Fleet
  import CallIds

  /** Who is asked, over what, and the blobs the calls so far drew */
  datatype Setting = Setting(fleet: seq<Node>, root: string, path: string, blobs: seq<seq<CallIds.Byte>>)

  /** steps is a run of daemon replies and fresh ids that ends in s */
  ghost predicate Reaches(w: Setting, steps: seq<Step>, s: State) {
    && Exec(Init(w.path), steps) == Some(s) && Honest(w.fleet, w.root, w.path, steps)
    && Blobs(steps) == w.blobs && Fresh(steps)
  }

  // ------------------------------------------------------------- one more step

  lemma Move(w: Setting, steps: seq<Step>, s: State, step: Step) returns (more: seq<Step>)
    requires Reaches(w, steps, s) && Enabled(s, step) && !step.Register?
    requires step.Arrive? ==> FromFleet(w.fleet, w.root, s, step.event)
    ensures Reaches(w, more, Next(s, step)) && more == steps + [step]
  {
    more := steps + [step];
    assert more[..|steps|] == steps;
  }

  lemma MoveRegister(w: Setting, steps: seq<Step>, s: State, blob: seq<CallIds.Byte>) returns (more: seq<Step>)
    requires Reaches(w, steps, s) && Enabled(s, Register(blob)) && blob !in w.blobs
    ensures Reaches(w.(blobs := w.blobs + [blob]), more, Next(s, Register(blob))) && more == steps + [Register(blob)]
  {
    more := steps + [Register(blob)];
    assert more[..|steps|] == steps;
    assert Blobs(more) == w.blobs + [blob];
  }

  // ------------------------------------------------------------- serving

  /** Open, with nothing in flight */
  ghost predicate Idle(s: State) {
    !s.closed && s.hand.Free? && s.next == |s.arrivals|
  }

  /** Idle, and call k is registered and waits with nothing queued */
  ghost predicate Ready(s: State, k: nat) {
    && Idle(s) && k < |s.log| && s.log[k].phase == Waiting && s.log[k].buffer == [] && s.log[k].request.Some?
    && s.log[k].id in s.calls && s.calls[s.log[k].id] == k
  }

  /** Call k has seen one event more */
  function Fed(s: State, k: nat, ev: Event): State
    requires k < |s.log|
  {
    s.(arrivals := s.arrivals + [ev], next := s.next + 1,
        log := s.log[k := s.log[k].(seen := s.log[k].seen + [s.next])])
  }

  lemma RouteOne(s: State, k: nat, ev: Event)
    requires Ready(s, k) && CallID(ev) == s.log[k].id
    ensures var s1 := Next(s, Arrive(ev));
            && Enabled(s1, Take)
            && var s2 := Next(s1, Take);
               && Enabled(s2, Lookup)
               && Next(s2, Lookup) == s.(arrivals := s.arrivals + [ev], next := s.next + 1, hand := Holds(s.next, k))
  {
    assert (s.arrivals + [ev])[s.next] == ev;
  }

  lemma ConsumeOne(s: State, k: nat, ev: Event)
    requires Ready(s, k)
    ensures var s3 := s.(arrivals := s.arrivals + [ev], next := s.next + 1, hand := Holds(s.next, k));
            && Enabled(s3, Enqueue)
            && var s4 := Next(s3, Enqueue);
               Enabled(s4, Consume(k, true)) && Next(s4, Consume(k, true)) == Fed(s, k, ev)
  {
    var c := s.log[k];
    var queued := c.(buffer := c.buffer + [s.next]);
    assert queued.buffer == [s.next] && queued.buffer[1..] == [];
    var fed := c.(seen := c.seen + [s.next]);
    assert s.log[k := queued][k := fed] == s.log[k := fed];
  }

  /** From any point where call k has everything so far, whatever other calls the
      session has, one more answer goes all the way: it arrives, is taken, looked
      up, queued and consumed. */
  lemma ServeOne(w: Setting, steps: seq<Step>, s: State, k: nat, n: nat, ev: Event) returns (more: seq<Step>)
    requires Reaches(w, steps, s) && Ready(s, k) && n < |w.fleet|
    requires Answers(w.fleet[n], s.log[k].request.value, w.root, ev) && CallID(ev) == s.log[k].id
    ensures Reaches(w, more, Fed(s, k, ev)) && Ready(Fed(s, k, ev), k) && steps <= more
  {
    RouteOne(s, k, ev);
    ConsumeOne(s, k, ev);
    more := Move(w, steps, s, Arrive(ev));
    var t := Next(s, Arrive(ev));
    more := Move(w, more, t, Take);
    t := Next(t, Take);
    more := Move(w, more, t, Lookup);
    t := Next(t, Lookup);
    more := Move(w, more, t, Enqueue);
    t := Next(t, Enqueue);
    more := Move(w, more, t, Consume(k, true));
  }

  /** A command no node leaves unanswered */
  predicate Insists(cmd: Command) {
    cmd.verb == Query || (cmd.verb == Status && cmd.answerAlways)
  }

  /** The request a call made with blob sends for such a command */
  ghost predicate Poses(req: Request, path: string, id: string) {
    && (exists blob: seq<CallIds.Byte> :: |blob| == 8 && id == CallIds.MapBytesToTopicTitle(blob))
    && |Split(req.routingKey, '/')| >= 2
    && req.replyTo == ReplyTo(path, id) && req.correlation == Some(id)
    && req.cmd.Some? && Insists(req.cmd.value)
  }

  lemma AnswerOf(node: Node, req: Request, root: string, path: string, id: string, status: RunStatus)
    returns (ev: Event)
    requires Poses(req, path, id)
    ensures Answers(node, req, root, ev) && CallID(ev) == id
  {
    EveryNodeAnswers(node, req, root, req.cmd.value.filter, status);
    ev := HandleEvent(node, req, root, status).value;
    var blob: seq<CallIds.Byte> :| |blob| == 8 && id == CallIds.MapBytesToTopicTitle(blob);
    CallIDRoundTrip(ev, root, path, blob);
  }

  /** What the fleet answers, one node after the other */
  ghost predicate InTurn(fleet: seq<Node>, n: nat, req: Request, root: string, evs: seq<Event>) {
    |evs| == n <= |fleet| && forall i :: 0 <= i < n ==> Answers(fleet[i], req, root, evs[i])
  }

  /** t is s after the first n nodes answered call k */
  ghost predicate Served(w: Setting, s: State, t: State, k: nat, n: nat, evs: seq<Event>) {
    && Ready(s, k) && Ready(t, k) && InTurn(w.fleet, n, s.log[k].request.value, w.root, evs)
    && t.arrivals == s.arrivals + evs && t.overflow == s.overflow && |t.log| == |s.log|
    && t.log[k].id == s.log[k].id && t.log[k].request == s.log[k].request
    && forall j :: 0 <= j < |s.log| && j != k ==> t.log[j] == s.log[j]
  }

  lemma ServedGrows(w: Setting, s: State, t: State, k: nat, n: nat, evs: seq<Event>, ev: Event)
    requires Served(w, s, t, k, n, evs) && n < |w.fleet| && Answers(w.fleet[n], s.log[k].request.value, w.root, ev)
    requires Ready(Fed(t, k, ev), k)
    ensures Served(w, s, Fed(t, k, ev), k, n + 1, evs + [ev])
  {
    var longer := evs + [ev];
    forall i | 0 <= i < n + 1 ensures Answers(w.fleet[i], s.log[k].request.value, w.root, longer[i]) {
      if i < n { assert longer[i] == evs[i]; }
    }
    assert s.arrivals + longer == s.arrivals + evs + [ev];
  }

  lemma {:induction false} ServeFleet(w: Setting, steps: seq<Step>, s: State, k: nat, n: nat, status: RunStatus)
    returns (more: seq<Step>, t: State, evs: seq<Event>)
    requires Reaches(w, steps, s) && Ready(s, k) && n <= |w.fleet| && Poses(s.log[k].request.value, w.path, s.log[k].id)
    ensures Reaches(w, more, t) && steps <= more && Served(w, s, t, k, n, evs)
  {
    if n == 0 {
      more, t, evs := steps, s, [];
    } else {
      more, t, evs := ServeFleet(w, steps, s, k, n - 1, status);
      var ev := AnswerOf(w.fleet[n - 1], s.log[k].request.value, w.root, w.path, s.log[k].id, status);
      more := ServeOne(w, more, t, k, n - 1, ev);
      ServedGrows(w, s, t, k, n - 1, evs, ev);
      t, evs := Fed(t, k, ev), evs + [ev];
    }
  }

  // ------------------------------------------------------------- settling

  lemma ServedIsSettled(w: Setting, s: State, t: State, k: nat, evs: seq<Event>)
    requires Served(w, s, t, k, |w.fleet|, evs) && OverflowJustified(s)
    ensures Settled(w.fleet, w.root, t, k)
  {
    var req := s.log[k].request.value;
    forall node | node in w.fleet ensures GotThrough(node, w.root, t, k) {
      var i :| 0 <= i < |w.fleet| && w.fleet[i] == node;
      assert t.arrivals[|s.arrivals| + i] == evs[i];
      assert Answers(node, req, w.root, t.arrivals[|s.arrivals| + i]) && Through(t, k, |s.arrivals| + i);
    }
  }

  /** A new call, registered and sent */
  lemma Ask(w: Setting, steps: seq<Step>, s: State, blob: seq<CallIds.Byte>, topic: string, cmd: Command)
    returns (more: seq<Step>, t: State)
    requires Reaches(w, steps, s) && Idle(s) && |blob| == 8 && blob !in w.blobs
    requires |Split(topic, '/')| >= 2 && Insists(cmd)
    ensures Reaches(w.(blobs := w.blobs + [blob]), more, t) && steps <= more
    ensures var k := |s.log|;
            && Ready(t, k) && |t.log| == k + 1 && t.log[..k] == s.log && t.arrivals == s.arrivals
            && t.log[k].id == CallIds.MapBytesToTopicTitle(blob)
            && t.log[k].request.value.cmd == Some(cmd) && Poses(t.log[k].request.value, w.path, t.log[k].id)
  {
    more := MoveRegister(w, steps, s, blob);
    t := Next(s, Register(blob));
    PathKept(w.path, steps);
    more := Move(w.(blobs := w.blobs + [blob]), more, t, Send(|s.log|, topic, cmd));
    t := Next(t, Send(|s.log|, topic, cmd));
  }

  lemma PathStep(s: State, step: Step)
    requires Enabled(s, step)
    ensures Next(s, step).replyPath == s.replyPath
  {
  }

  lemma {:induction false} PathKept(path: string, steps: seq<Step>)
    requires Exec(Init(path), steps).Some?
    ensures Exec(Init(path), steps).value.replyPath == path
  {
    if steps != [] {
      PathKept(path, steps[..|steps| - 1]);
      PathStep(Exec(Init(path), steps[..|steps| - 1]).value, steps[|steps| - 1]);
    }
  }

  /** On any idle session a call can be made, answered by every node of the fleet,
      run into its deadline and return, leaving the session idle again. */
  lemma AskAndReturn(w: Setting, steps: seq<Step>, s: State, blob: seq<CallIds.Byte>, topic: string, cmd: Command,
      status: RunStatus)
    returns (more: seq<Step>, t: State, p: nat)
    requires Reaches(w, steps, s) && Idle(s) && |blob| == 8 && blob !in w.blobs
    requires |Split(topic, '/')| >= 2 && Insists(cmd)
    ensures Reaches(w.(blobs := w.blobs + [blob]), more, t) && Idle(t) && steps <= more
    ensures |t.log| == |s.log| + 1 && t.log[..|s.log|] == s.log
    ensures Returned(w.fleet, w.root, w.path, more, |s.log|, p)
    ensures t.log[|s.log|].request.Some? && t.log[|s.log|].request.value.cmd == Some(cmd)
  {
    var k, w' := |s.log|, w.(blobs := w.blobs + [blob]);
    var asked, asking := Ask(w, steps, s, blob, topic, cmd);
    var served, serving, evs := ServeFleet(w', asked, asking, k, |w.fleet|, status);
    OverflowHolds(w.path, asked);
    ServedIsSettled(w', asking, serving, k, evs);
    p := |served|;
    more := Move(w', served, serving, Expire(k));
    t := Next(serving, Expire(k));
    more := Move(w', more, t, Leave(k));
    t := Next(t, Leave(k));
    assert more[..p] == served;
  }

  /** Later calls take nothing from an outcome that was returned. */
  lemma ReturnedStays(w: Setting, steps: seq<Step>, more: seq<Step>, k: nat, p: nat)
    requires Returned(w.fleet, w.root, w.path, steps, k, p) && steps <= more && Exec(Init(w.path), more).Some?
    requires var t := Exec(Init(w.path), more).value; k < |t.log| && t.log[k].phase == Gone
    ensures Returned(w.fleet, w.root, w.path, more, k, p)
  {
    assert more[..p] == steps[..p];
  }

  /** steps is a run in which call k returned with everybody's answer to cmd */
  ghost predicate ReturnedWith(w: Setting, steps: seq<Step>, k: nat, p: nat, cmd: Command) {
    && Returned(w.fleet, w.root, w.path, steps, k, p)
    && var s := Exec(Init(w.path), steps).value;
       s.log[k].request.Some? && s.log[k].request.value.cmd == Some(cmd)
  }

  /** A further call on a session where one has returned */
  lemma AskAgain(w: Setting, steps: seq<Step>, s: State, p: nat, first: Command, blob: seq<CallIds.Byte>,
                 topic: string, cmd: Command, status: RunStatus)
    returns (more: seq<Step>, q: nat)
    requires Reaches(w, steps, s) && Idle(s) && |s.log| == 1 && ReturnedWith(w, steps, 0, p, first)
    requires |blob| == 8 && blob !in w.blobs && |Split(topic, '/')| >= 2 && Insists(cmd)
    ensures Honest(w.fleet, w.root, w.path, more) && Fresh(more)
    ensures ReturnedWith(w, more, 0, p, first) && ReturnedWith(w, more, 1, q, cmd)
  {
    var t;
    more, t, q := AskAndReturn(w, steps, s, blob, topic, cmd, status);
    assert t.log[..1][0] == s.log[0];
    ReturnedStays(w, steps, more, 0, p);
  }

  /** Two evaluations one after the other, as the REPL makes them: for every fleet,
      of whatever size, and every expression there is a run of one session in
      which a FilterMatch and then a Query return with everybody's answer. */
  lemma BothCanReturn(fleet: seq<Node>, root: string, path: string, blob: seq<CallIds.Byte>, blob': seq<CallIds.Byte>,
                      topic: string, expr: string, params: Params, status: RunStatus)
    returns (steps: seq<Step>, p: nat, q: nat)
    requires |blob| == 8 && |blob'| == 8 && blob != blob' && |Split(topic, '/')| >= 2
    ensures Honest(fleet, root, path, steps) && Fresh(steps)
    ensures Returned(fleet, root, path, steps, 0, p) && Returned(fleet, root, path, steps, 1, q)
    ensures var s := Exec(Init(path), steps).value;
            && s.log[0].request.Some? && AsksFilter(s.log[0].request.value, expr)
            && s.log[1].request.Some? && AsksQuery(s.log[1].request.value, expr)
  {
    var filter, query := Command(Status, expr, true, params), Command(Query, expr, false, params);
    var w := Setting(fleet, root, path, []);
    var once, s;
    once, s, p := AskAndReturn(w, [], Init(path), blob, topic, filter, status);
    steps, q := AskAgain(w.(blobs := [] + [blob]), once, s, p, filter, blob', topic, query, status);
  }
}
