/** One puppet run at a time: plugin/puppet/run.go. Run can be called from any
    number of event handlers; a run lives in a goroutine of its own. */
module PuppetRun {
  import opened Text
  import opened Wire

  /** 24 hours in nanoseconds */
  const DAY: int := 86_400_000_000_000

  const APPLYING: string := "Info: Applying configuration version"

  /** Where a run stands, from the moment its Run call got the lock */
  datatype Pc =
    | Claimed(opt: RunOptions)
    | Spawned(opt: RunOptions)
    | Sleeping(opt: RunOptions, delay: int)
    | Preparing(opt: RunOptions)
    | Wired
    | Executing
    | Cleared
    | Failed
    | Done

  datatype State = State(permits: nat, status: RunStatus, runs: seq<Pc>, failedLast: bool)

  datatype Step =
    | TryRun(opt: RunOptions)
    | MarkScheduled(run: nat)
    | Delay(run: nat, draw: int)
    | Wake(run: nat)
    | PipeError(run: nat)
    | Attach(run: nat)
    | StartError(run: nat)
    | Start(run: nat)
    | Line(run: nat, text: string)
    | Finish(run: nat)
    | Release(run: nat)

  const CLEAR: RunStatus := RunStatus(false, false, false, false, false)

  function Init(): State { State(1, CLEAR, [], false) }

  function Capped(delay: int): int { if delay > DAY then DAY else delay }

  predicate Enabled(s: State, step: Step) {
    if step.TryRun? then true
    else
      step.run < |s.runs| &&
      var pc := s.runs[step.run];
      match step
      case MarkScheduled(_) => pc.Claimed?
      case Delay(_, draw) =>
        pc.Spawned? && (Capped(pc.opt.delay) > 0 && pc.opt.randomizeDelay ==> 0 <= draw < Capped(pc.opt.delay))
      case Wake(_) => pc.Sleeping?
      case PipeError(_) => pc.Preparing?
      case Attach(_) => pc.Preparing?
      case StartError(_) => pc.Wired?
      case Start(_) => pc.Wired?
      case Line(_, _) => pc.Wired? || pc.Executing?
      case Finish(_) => pc.Executing?
      case Release(_) => pc.Cleared? || pc.Failed?
  }

  function At(s: State, i: nat, pc: Pc): State
    requires i < |s.runs|
  {
    s.(runs := s.runs[i := pc])
  }

  function Next(s: State, step: Step): State
    requires Enabled(s, step)
  {
    match step
    case TryRun(opt) =>
      if s.permits < 1 then s else s.(permits := s.permits - 1, runs := s.runs + [Claimed(opt)])
    case MarkScheduled(i) =>
      At(s, i, Spawned(s.runs[i].opt)).(status := s.status.(scheduled := true))
    case Delay(i, draw) =>
      var opt := s.runs[i].opt;
      var delay := Capped(opt.delay);
      if delay <= 0 then At(s, i, Preparing(opt))
      else At(s, i, Sleeping(opt, if opt.randomizeDelay then draw else delay)).(status := s.status.(busy := true))
    case Wake(i) => At(s, i, Preparing(s.runs[i].opt))
    case PipeError(i) => At(s, i, Failed)
    case Attach(i) => At(s, i, Wired).(status := s.status.(started := true, busy := true))
    case StartError(i) => At(s, i, Failed)
    case Start(i) => At(s, i, Executing)
    case Line(i, text) => if APPLYING <= text then s.(status := s.status.(applying := true)) else s
    case Finish(i) => At(s, i, Cleared).(status := CLEAR)
    case Release(i) => At(s, i, Done).(permits := s.permits + 1, failedLast := s.runs[i].Failed?)
  }

  function Exec(steps: seq<Step>): Option<State> {
    if steps == [] then Some(Init())
    else
      match Exec(steps[..|steps| - 1])
      case None => None
      case Some(s) => if Enabled(s, steps[|steps| - 1]) then Some(Next(s, steps[|steps| - 1])) else None
  }

  // ------------------------------------------------------------- invariants

  /** The lock is held exactly while a run is in progress, and one run at most
      is */
  ghost predicate Exclusive(s: State) {
    && s.permits <= 1
    && (s.permits == 1 ==> forall i :: 0 <= i < |s.runs| ==> s.runs[i].Done?)
    && (s.permits == 0 ==> exists i :: 0 <= i < |s.runs| && !s.runs[i].Done?)
    && forall i, j :: 0 <= i < j < |s.runs| ==> s.runs[i].Done? || s.runs[j].Done?
  }

  /** Applying implies started implies busy implies scheduled */
  predicate Chain(st: RunStatus) {
    (st.applying ==> st.started) && (st.started ==> st.busy) && (st.busy ==> st.scheduled) && !st.downtime
  }

  /** What the flags say about a run in progress, and what it slept */
  predicate Flags(pc: Pc, st: RunStatus, failedLast: bool) {
    match pc
    case Claimed(_) => st == CLEAR <==> !failedLast
    case Spawned(_) => st.scheduled
    case Sleeping(opt, d) =>
      && st.busy && opt.delay > 0 && 0 <= d <= DAY && d <= opt.delay
      && (opt.randomizeDelay ==> d < Capped(opt.delay))
      && (!opt.randomizeDelay ==> d == Capped(opt.delay))
    case Preparing(_) => st.scheduled
    case Wired => st.started
    case Executing => st.started
    case Cleared => st == CLEAR
    case Failed => st.scheduled
    case Done => true
  }

  ghost predicate Inv(s: State) {
    && Exclusive(s)
    && Chain(s.status)
    && (forall i :: 0 <= i < |s.runs| ==> Flags(s.runs[i], s.status, s.failedLast))
    && (s.permits == 1 ==> (s.status == CLEAR <==> !s.failedLast))
  }

  /** A step of the run in progress leaves the finished ones alone. */
  lemma OthersDone(s: State, i: nat)
    requires Exclusive(s) && i < |s.runs| && !s.runs[i].Done?
    ensures s.permits == 0
    ensures forall j :: 0 <= j < |s.runs| && j != i ==> s.runs[j].Done?
  {
  }

  lemma TryRunKeeps(s: State, opt: RunOptions)
    requires Inv(s)
    ensures Inv(Next(s, TryRun(opt)))
  {
    if s.permits == 1 {
      var t := Next(s, TryRun(opt));
      assert t.runs[|s.runs|] == Claimed(opt);
      forall i | 0 <= i < |s.runs| ensures t.runs[i].Done? { assert t.runs[i] == s.runs[i]; }
    }
  }

  /** Moving the run in progress on keeps the invariant if the new flags suit
      its new place. */
  lemma AdvanceKeeps(s: State, i: nat, pc: Pc, st: RunStatus)
    requires Inv(s) && i < |s.runs| && !s.runs[i].Done? && !pc.Done?
    requires Chain(st) && Flags(pc, st, s.failedLast)
    ensures Inv(At(s, i, pc).(status := st))
  {
    OthersDone(s, i);
    var t := At(s, i, pc).(status := st);
    forall j | 0 <= j < |t.runs| && j != i ensures t.runs[j].Done? { assert t.runs[j] == s.runs[j]; }
    assert t.runs[i] == pc;
  }

  lemma ReleaseKeeps(s: State, i: nat)
    requires Inv(s) && Enabled(s, Release(i))
    ensures Inv(Next(s, Release(i)))
  {
    OthersDone(s, i);
    var t := Next(s, Release(i));
    assert Flags(s.runs[i], s.status, s.failedLast);
    forall j | 0 <= j < |t.runs| ensures t.runs[j].Done? { assert j != i ==> t.runs[j] == s.runs[j]; }
  }

  /** Every other step moves one run on, or sets a flag while it stands. */
  lemma StepAdvances(s: State, step: Step)
    requires Inv(s) && Enabled(s, step) && !step.TryRun? && !step.Release?
    ensures !s.runs[step.run].Done?
    ensures var t := Next(s, step);
            && |t.runs| == |s.runs|
            && t == At(s, step.run, t.runs[step.run]).(status := t.status)
            && !t.runs[step.run].Done?
            && Chain(t.status) && Flags(t.runs[step.run], t.status, s.failedLast)
  {
    assert Flags(s.runs[step.run], s.status, s.failedLast);
  }

  lemma InvStep(s: State, step: Step)
    requires Inv(s) && Enabled(s, step)
    ensures Inv(Next(s, step))
  {
    if step.TryRun? {
      TryRunKeeps(s, step.opt);
    } else if step.Release? {
      ReleaseKeeps(s, step.run);
    } else {
      var t := Next(s, step);
      StepAdvances(s, step);
      AdvanceKeeps(s, step.run, t.runs[step.run], t.status);
    }
  }

  /** In every reachable state. */
  lemma {:induction false} InvHolds(steps: seq<Step>)
    requires Exec(steps).Some?
    ensures Inv(Exec(steps).value)
  {
    if steps != [] {
      InvHolds(steps[..|steps| - 1]);
      InvStep(Exec(steps[..|steps| - 1]).value, steps[|steps| - 1]);
    }
  }

  /** At most one run is in progress, whoever asked for it. */
  lemma OneRunAtATime(steps: seq<Step>, i: nat, j: nat)
    requires Exec(steps).Some?
    requires var s := Exec(steps).value; i < |s.runs| && j < |s.runs| && !s.runs[i].Done? && !s.runs[j].Done?
    ensures i == j && Exec(steps).value.permits == 0
  {
    InvHolds(steps);
    OthersDone(Exec(steps).value, i);
  }

  /** A Run call is turned down exactly while a run is in progress, and then
      changes nothing. */
  lemma BusyIsRefused(steps: seq<Step>, opt: RunOptions)
    requires Exec(steps).Some?
    ensures var s := Exec(steps).value;
            Next(s, TryRun(opt)) == s <==> exists i :: 0 <= i < |s.runs| && !s.runs[i].Done?
  {
    InvHolds(steps);
    var s := Exec(steps).value;
    if s.permits == 1 { assert |Next(s, TryRun(opt)).runs| == |s.runs| + 1; }
  }

  /** What a refused caller is told: a run is scheduled, unless the one in
      progress has the lock and not the flag yet, or the lock and no flag any
      more. */
  lemma RefusedStatus(steps: seq<Step>, i: nat)
    requires Exec(steps).Some?
    requires var s := Exec(steps).value; i < |s.runs| && !s.runs[i].Done?
    ensures var s := Exec(steps).value;
            s.status.scheduled <==> !s.runs[i].Cleared? && (s.runs[i].Claimed? ==> s.failedLast)
  {
    InvHolds(steps);
    var s := Exec(steps).value;
    assert Flags(s.runs[i], s.status, s.failedLast);
  }

  /** With no run in progress the flags are clear exactly if the last run got as
      far as finishing: the error returns leave them set for good. */
  lemma IdleFlags(steps: seq<Step>)
    requires Exec(steps).Some?
    requires var s := Exec(steps).value; forall i :: 0 <= i < |s.runs| ==> s.runs[i].Done?
    ensures var s := Exec(steps).value;
            && (s.status == CLEAR <==> !s.failedLast)
            && (s.failedLast ==> s.status.scheduled)
  {
    InvHolds(steps);
  }

  /** The way into that state: any run whose pipe can not be opened. */
  lemma PipeErrorLeavesFlags(steps: seq<Step>, i: nat)
    requires Exec(steps).Some? && Enabled(Exec(steps).value, PipeError(i))
    ensures var after := steps + [PipeError(i)] + [Release(i)];
            && Exec(after).Some?
            && (forall j :: 0 <= j < |Exec(after).value.runs| ==> Exec(after).value.runs[j].Done?)
            && Exec(after).value.failedLast && Exec(after).value.status != CLEAR
  {
    var mid := steps + [PipeError(i)];
    var after := mid + [Release(i)];
    assert mid[..|steps|] == steps && after[..|mid|] == mid;
    InvHolds(steps);
    OthersDone(Exec(steps).value, i);
    InvHolds(after);
  }

  // ------------------------------------------------------------- the object

  /** Some run of the machine ends in s */
  ghost predicate Reachable(s: State) {
    exists steps :: Exec(steps) == Some(s)
  }

  lemma ReachOn(s: State, step: Step)
    requires Reachable(s) && Enabled(s, step)
    ensures Reachable(Next(s, step))
  {
    var steps :| Exec(steps) == Some(s);
    assert (steps + [step])[..|steps|] == steps;
    assert Exec(steps + [step]) == Some(Next(s, step));
  }

  lemma ReachableInv(s: State)
    requires Reachable(s)
    ensures Inv(s)
  {
    var steps :| Exec(steps) == Some(s);
    InvHolds(steps);
  }

  /** Some line has the prefix */
  predicate SaysApplying(lines: seq<string>) {
    exists n :: 0 <= n < |lines| && "Info: Applying configuration version" <= lines[n]
  }

  ghost predicate AllDone(s: State) {
    forall i :: 0 <= i < |s.runs| ==> s.runs[i].Done?
  }

  /** The plugin's run state: the semaphore and the status record. Where the runs
      stand is a ghost. */
  class Agent {
    var permits: nat
    var status: RunStatus
    ghost var machine: State

    ghost predicate Valid()
      reads this
    {
      Reachable(machine) && machine.permits == permits && machine.status == status
    }

    /** Run i is the one in progress, and stands at pc */
    ghost predicate Stands(i: nat, pc: Pc)
      reads this
    {
      Valid() && i < |machine.runs| && machine.runs[i] == pc
    }

    constructor ()
      ensures Valid() && permits == 1 && status == CLEAR && machine.runs == []
    {
      permits, status, machine := 1, CLEAR, Init();
      assert Exec([]) == Some(Init());
    }

    /** A ghost step of the machine; what it does to the lock and the flags has to
        be done to the fields as well. */
    ghost method Take(step: Step)
      requires Reachable(machine) && Enabled(machine, step)
      modifies this`machine
      ensures Reachable(machine) && machine == Next(old(machine), step)
    {
      ReachOn(machine, step);
      machine := Next(machine, step);
    }

    /** A call is turned down exactly while a run is in progress, changes nothing
        then and gets the flags as they are; otherwise it starts the one run, with
        the flag already set for whoever asks next. */
    method Run(opt: RunOptions) returns (accepted: bool, reply: RunStatus, ghost i: nat)
      requires Valid()
      modifies this
      ensures Valid() && reply == status && (accepted <==> AllDone(old(machine)))
      ensures !accepted ==> machine == old(machine)
      ensures accepted ==> i == |old(machine).runs| && Stands(i, Spawned(opt)) && permits == 0
      ensures accepted ==> status == old(status).(scheduled := true)
    {
      ReachableInv(machine);
      i := |machine.runs|;
      if permits < 1 {
        return false, status, i;
      }
      permits := permits - 1;
      Take(TryRun(opt));
      status := status.(scheduled := true);
      Take(MarkScheduled(i));
      return true, status, i;
    }

    /** The head of run: caps, draws and sleeps. draw is what the generator gives. */
    method Postpone(ghost i: nat, opt: RunOptions, draw: int) returns (slept: int)
      requires Stands(i, Spawned(opt))
      requires Capped(opt.delay) > 0 && opt.randomizeDelay ==> 0 <= draw < Capped(opt.delay)
      modifies this
      ensures Stands(i, Preparing(opt)) && permits == old(permits)
      ensures opt.delay <= 0 ==> slept == 0 && status == old(status)
      ensures opt.delay > 0 ==> 0 <= slept <= 86_400_000_000_000 && slept <= opt.delay
      ensures opt.delay > 0 ==> status == old(status).(busy := true)
      ensures opt.delay > 0 && opt.randomizeDelay ==> slept < opt.delay && slept < 86_400_000_000_000
      ensures opt.delay > 0 && !opt.randomizeDelay ==>
                slept == if opt.delay > 86_400_000_000_000 then 86_400_000_000_000 else opt.delay
    {
      var delay := opt.delay;
      slept := 0;
      if delay > DAY { delay := DAY; }
      Take(Delay(i, draw));
      if delay > 0 {
        if opt.randomizeDelay { delay := draw; }
        status := status.(busy := true);
        slept := delay;
        Take(Wake(i));
      }
    }

    /** The stdout reader, over all the lines it gets: applying is set exactly if
        it was or some line says so. */
    method ReadOutput(ghost i: nat, lines: seq<string>)
      requires Stands(i, Executing)
      modifies this
      ensures Stands(i, Executing) && permits == old(permits)
      ensures status == old(status).(applying := old(status).applying || SaysApplying(lines))
    {
      for n := 0 to |lines|
        invariant Stands(i, Executing) && permits == old(permits)
        invariant status == old(status).(applying := old(status).applying || SaysApplying(lines[..n]))
      {
        assert lines[..n + 1] == lines[..n] + [lines[n]];
        ReadLine(i, lines[n]);
      }
      assert lines[..|lines|] == lines;
    }

    method ReadLine(ghost i: nat, text: string)
      requires Stands(i, Executing)
      modifies this
      ensures Stands(i, Executing) && permits == old(permits)
      ensures status == old(status).(applying := old(status).applying || APPLYING <= text)
    {
      Take(Line(i, text));
      if APPLYING <= text {
        status := status.(applying := true);
      }
    }

    /** Pipes and start: the command runs, or the run has failed with the flags as
        they were set so far. */
    method Launch(ghost i: nat, opt: RunOptions, pipesOk: bool, startOk: bool)
      requires Stands(i, Preparing(opt))
      modifies this
      ensures Stands(i, if pipesOk && startOk then Executing else Failed) && permits == old(permits)
      ensures status == if pipesOk then old(status).(started := true, busy := true) else old(status)
    {
      if !pipesOk {
        Take(PipeError(i));
        return;
      }
      status := status.(started := true);
      status := status.(busy := true);
      Take(Attach(i));
      if startOk {
        Take(Start(i));
      } else {
        Take(StartError(i));
      }
    }

    /** run from the goroutine's start to its end, with what the system makes of
        it as parameters. Whichever way it ends the lock is free again and nothing
        is in progress; the flags are clear exactly if the command was started and
        came to its end. */
    method Execute(ghost i: nat, opt: RunOptions, draw: int, pipesOk: bool, startOk: bool, lines: seq<string>)
      returns (slept: int)
      requires Stands(i, Spawned(opt))
      requires Capped(opt.delay) > 0 && opt.randomizeDelay ==> 0 <= draw < Capped(opt.delay)
      modifies this
      ensures Valid() && permits == 1 && AllDone(machine)
      ensures 0 <= slept <= DAY && (opt.delay <= 0 ==> slept == 0)
      ensures opt.delay > 0 && opt.randomizeDelay ==> slept < opt.delay
      ensures opt.delay > 0 && !opt.randomizeDelay ==> slept == opt.delay || slept == DAY < opt.delay
      ensures status == CLEAR <==> pipesOk && startOk
      ensures !(pipesOk && startOk) ==> status.scheduled && (pipesOk ==> status.started)
    {
      slept := Postpone(i, opt, draw);
      Launch(i, opt, pipesOk, startOk);
      if pipesOk && startOk {
        ReadOutput(i, lines);
        status := CLEAR;
        Take(Finish(i));
      }
      Finished(i);
    }

    /** The deferred release */
    method Finished(ghost i: nat)
      requires Valid() && i < |machine.runs| && (machine.runs[i].Cleared? || machine.runs[i].Failed?)
      modifies this
      ensures Valid() && permits == 1 && AllDone(machine) && status == old(status)
      ensures if old(machine).runs[i].Cleared? then status == CLEAR else status.scheduled
    {
      ReachableInv(machine);
      OthersDone(machine, i);
      permits := permits + 1;
      Take(Release(i));
      ReachableInv(machine);
    }
  }
}
