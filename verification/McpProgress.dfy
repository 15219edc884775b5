/** What can always still happen in an MCP session: its loop can be stopped, a closed
    worker ends, a request can be answered; and what every call, timer and cancellation
    leads to. */
module McpProgress {
  import opened McpSession
  import opened McpCallers

  // ----- Which steps are possible -----

  /** What a worker can do next, state by state. */
  lemma WorkerSteps(s: State, step: Step)
    requires s.running && (step.Connect? || step.FailToConnect? || step.Check? || step.Take? || step.PollTimeout?
                           || step.Finish? || step.CancelWorker? || step.Restart?)
    ensures Enabled(s, step) <==>
            match s.worker
            case Connecting => step in {Connect, FailToConnect, CancelWorker}
            case AtTop(_) => step == Check
            case Waiting(_) => step == PollTimeout || step == CancelWorker || (step == Take && |s.queue| > 0)
            case Busy(_, _) => step in {Finish(Value), Finish(Failure), CancelWorker}
            case Gone => step == Restart
  {
  }

  /** What the caller of a request can do next. */
  lemma CallerSteps(s: State, id: nat)
    requires s.running && id < |s.callers|
    ensures var timer, goesOn, isTold := Enabled(s, Expire(id)), Enabled(s, Resume(id)), Enabled(s, Tell(id));
            match s.callers[id]
            case Waits => timer && !goesOn && !isTold
            case Woken(pass, _) => timer && (goesOn <==> pass < s.pass) && !isTold
            case Ended(pass, _) => !timer && !goesOn && (isTold <==> pass < s.pass)
            case Told(_, _) => !timer && !goesOn && !isTold
  {
  }

  lemma {:induction false} ReachesThen(s: State, a: seq<Step>, mid: State, b: seq<Step>, end: State)
    requires Reaches(s, a, mid) && Reaches(mid, b, end)
    ensures Reaches(s, a + b, end)
    decreases |a|
  {
    hide Next, Enabled, IdsKnown;
    if a == [] {
      assert a + b == b;
    } else {
      ReachesThen(Next(s, a[0]), a[1..], mid, b, end);
      assert (a + b)[1..] == a[1..] + b;
    }
  }

  lemma ReachesOne(s: State, step: Step)
    requires IdsKnown(s) && Enabled(s, step)
    ensures Reaches(s, [step], Next(s, step))
  {
    hide Next, Enabled, IdsKnown;
    assert [step][1..] == [];
  }

  lemma ReachesTwo(s: State, one: Step, two: Step)
    requires IdsKnown(s) && Enabled(s, one) && IdsKnown(Next(s, one)) && Enabled(Next(s, one), two)
    ensures Reaches(s, [one, two], Next(Next(s, one), two))
  {
    hide Next, Enabled, IdsKnown;
    ReachesOne(s, one);
    ReachesOne(Next(s, one), two);
    hide Reaches;
    ReachesThen(s, [one], Next(s, one), [two], Next(Next(s, one), two));
    assert [one] + [two] == [one, two];
  }

  // ----- The loop can always be stopped -----

  function DueAmong(callers: seq<Caller>, pass: nat): nat {
    if callers == [] then 0
    else DueAmong(callers[..|callers| - 1], pass) + if Due(callers[|callers| - 1], pass) then 1 else 0
  }

  lemma {:induction false} OneLess(callers: seq<Caller>, i: nat, now: Caller, pass: nat)
    requires i < |callers| && Due(callers[i], pass) && !Due(now, pass)
    ensures DueAmong(callers[i := now], pass) == DueAmong(callers, pass) - 1
  {
    hide Due;
    var last := |callers| - 1;
    if i == last {
      assert callers[i := now][..last] == callers[..last];
    } else {
      OneLess(callers[..last], i, now, pass);
      assert callers[i := now][..last] == callers[..last][i := now];
    }
  }

  /** The steps that the loop takes of itself. */
  predicate IsOfLoop(step: Step) {
    step.Resume? || step.Tell? || step.TellRefused? || step == EndPass
  }

  ghost predicate RefusedHaveEnded(s: State) {
    forall i :: 0 <= i < |s.refused| ==> s.refused[i].Ended? || s.refused[i].Told?
  }

  /** If somebody is due, then a step makes one caller less due. */
  lemma DueCanRun(s: State) returns (step: Step)
    requires Inv(s) && IdsKnown(s) && RefusedHaveEnded(s) && s.running && !Enabled(s, EndPass)
    ensures Enabled(s, step) && IsOfLoop(step) && step != EndPass
    ensures var t := Next(s, step);
            && DueAmong(t.callers, s.pass) + DueAmong(t.refused, s.pass)
               == DueAmong(s.callers, s.pass) + DueAmong(s.refused, s.pass) - 1
            && t.running && t.pass == s.pass && t.closed == s.closed && t.closedIn == s.closedIn && RefusedHaveEnded(t)
  {
    hide DueAmong, Inv;
    if c :| c in s.callers && Due(c, s.pass) {
      var i :| 0 <= i < |s.callers| && s.callers[i] == c;
      step := if c.Woken? then Resume(i) else Tell(i);
      OneLess(s.callers, i, Next(s, step).callers[i], s.pass);
    } else {
      var c :| c in s.refused && Due(c, s.pass);
      var i :| 0 <= i < |s.refused| && s.refused[i] == c;
      step := TellRefused(i);
      OneLess(s.refused, i, Next(s, step).refused[i], s.pass);
    }
  }

  lemma {:induction false} PassCanEnd(s: State) returns (steps: seq<Step>, t: State)
    requires Inv(s) && IdsKnown(s) && RefusedHaveEnded(s) && s.running && s.closed
    ensures Reaches(s, steps, t) && Inv(t) && IdsKnown(t) && RefusedHaveEnded(t)
    ensures forall step :: step in steps ==> IsOfLoop(step)
    ensures if s.closedIn < s.pass then !t.running
            else t.running && t.closed && t.closedIn == s.closedIn && t.pass == s.pass + 1
    decreases DueAmong(s.callers, s.pass) + DueAmong(s.refused, s.pass)
  {
    if Enabled(s, EndPass) {
      steps, t := [EndPass], Next(s, EndPass);
      StepKeepsInv(s, EndPass);
      ReachesOne(s, EndPass);
    } else {
      var step := DueCanRun(s);
      hide Inv, IdsKnown, RefusedHaveEnded, Next, Enabled, DueAmong, IsOfLoop;
      StepKeepsInv(s, step);
      var rest;
      rest, t := PassCanEnd(Next(s, step));
      steps := [step] + rest;
      ReachesFirst(s, step, rest, t);
    }
  }

  /** In every interleaving: wherever the loop has got to, a close stops it, whoever
      still waits, with no step of the worker and no timer needed. */
  lemma LoopCanStop(before: seq<Step>, s: State) returns (steps: seq<Step>, t: State)
    requires Reaches(INITIAL, before, s) && s.running
    ensures Reaches(s, [Close] + steps, t) && !t.running && forall step :: step in steps ==> IsOfLoop(step)
  {
    Reached(before, s);
    var c := Next(s, Close);
    StepKeepsInv(s, Close);
    assert c.running && c.closed && c.closedIn <= c.pass <= c.closedIn + 1;
    assert RefusedHaveEnded(c) by {
      assert forall i :: 0 <= i < |s.refused| ==> RefusedOk(s, s.refused[i]);
    }
    hide Inv, IdsKnown, CallersInv, RefusedHaveEnded, IsOfLoop;
    assert Enabled(s, Close) && c == Next(s, Close);
    hide Next, Enabled;
    steps, t := PassCanEnd(c);
    if t.running {
      var more, end := PassCanEnd(t);
      ReachesThen(c, steps, t, more, end);
      steps, t := steps + more, end;
    }
    ReachesFirst(s, Close, steps, t);
  }

  // ----- A worker notices the close -----

  /** In every interleaving: a worker of a closed session can always come to its end
      without being cancelled, and without taking another request. */
  lemma WorkerNoticesClose(before: seq<Step>, s: State) returns (steps: seq<Step>, t: State)
    requires Reaches(INITIAL, before, s) && s.running && s.closed
    ensures Reaches(s, steps, t) && t.worker == Gone && t.taken == s.taken
    ensures forall step :: step in steps ==> step in {Connect, PollTimeout, Finish(Value), Check}
  {
    Reached(before, s);
    hide CallersInv;
    match s.worker
    case Gone => steps, t := [], s;
    case AtTop(_) =>
      ReachesOne(s, Check);
      steps, t := [Check], Next(s, Check);
    case _ =>
      var step := if s.worker.Connecting? then Connect else if s.worker.Waiting? then PollTimeout else Finish(Value);
      StepKeepsInv(s, step);
      ReachesTwo(s, step, Check);
      steps, t := [step, Check], Next(Next(s, step), Check);
  }

  // ----- A request can be answered -----

  /** The reply that a request gets from a worker. */
  function Expected(task: Task, live: bool): Reply {
    if live && (task == ListTools || task == ToolCall) then Value else Failure
  }

  /** A worker that has not failed, or may still connect. */
  predicate IsLive(worker: Worker) {
    worker.Connecting? || (!worker.Gone? && !worker.failing)
  }

  lemma OneServed(s: State)
    requires Inv(s) && IdsKnown(s) && s.running && !s.closed && s.worker.AtTop? && s.queue != []
    ensures Enabled(s, Check) && Enabled(Next(s, Check), Take)
    ensures IdsKnown(Next(s, Check)) && IdsKnown(Next(Next(s, Check), Take))
    ensures Enabled(Next(Next(s, Check), Take), Finish(Value))
    ensures var t := Next(Next(Next(s, Check), Take), Finish(Value));
            && Inv(t) && IdsKnown(t) && t.running && !t.closed && t.worker == s.worker && t.queue == s.queue[1..]
            && t.taken == s.taken + 1 && s.taken < |s.results| == |t.results|
            && t.results[s.taken] == [Expected(s.queue[0].task, !s.worker.failing)]
            && Reaches(s, [Check, Take, Finish(Value)], t)
  {
    hide Reaches, Drain, WakeAll;
    var a := Next(s, Check);
    var b := Next(a, Take);
    var t := Next(b, Finish(Value));
    StepKeepsInv(s, Check);
    StepKeepsInv(a, Take);
    StepKeepsInv(b, Finish(Value));
    assert Settled(s, s.taken);
    ReachesTwo(s, Check, Take);
    ReachesOne(b, Finish(Value));
    ReachesThen(s, [Check, Take], b, [Finish(Value)], t);
    assert [Check, Take] + [Finish(Value)] == [Check, Take, Finish(Value)];
  }

  /** The request at place `n` of the queue is answered after those before it. */
  lemma {:induction false} QueuedIsServed(s: State, n: nat) returns (steps: seq<Step>, t: State)
    requires Inv(s) && IdsKnown(s) && s.running && !s.closed && s.worker.AtTop? && n < |s.queue|
    ensures Reaches(s, steps, t) && IdsKnown(t) && s.taken + n < |t.results|
    ensures t.results[s.taken + n] == [Expected(s.queue[n].task, !s.worker.failing)]
    ensures CancelWorker !in steps
    decreases n
  {
    hide Inv, IdsKnown, Next, Enabled, Reaches;
    OneServed(s);
    var next := Next(Next(Next(s, Check), Take), Finish(Value));
    steps, t := [Check, Take, Finish(Value)], next;
    if n > 0 {
      var more;
      more, t := QueuedIsServed(next, n - 1);
      ReachesThen(s, steps, next, more, t);
      steps := steps + more;
    }
  }

  /** A worker can get to the top of its loop, whatever it does. */
  lemma ComesToTop(s: State) returns (steps: seq<Step>, t: State)
    requires Inv(s) && IdsKnown(s) && s.running && !s.closed
    ensures Reaches(s, steps, t) && Inv(t) && IdsKnown(t)
    ensures t.worker == AtTop(!IsLive(s.worker)) && CancelWorker !in steps
    ensures t.running && !t.closed && t.queue == s.queue && t.taken == s.taken && |t.results| == |s.results|
    ensures s.worker.Busy? ==>
              t.results[s.worker.request.id] == [Expected(s.worker.request.task, !s.worker.failing)]
  {
    if s.worker.AtTop? {
      steps, t := [], s;
    } else {
      var step := match s.worker
                  case Connecting => Connect
                  case Waiting(_) => PollTimeout
                  case Busy(_, _) => Finish(Value)
                  case _ => Restart;
      StepKeepsInv(s, step);
      ReachesOne(s, step);
      steps, t := [step], Next(s, step);
      if s.worker.Busy? {
        assert Settled(s, s.worker.request.id);
      }
    }
  }

  /** In every interleaving: a request of an open session that waits in the queue can still
      be answered without a cancellation, by the server if the worker is live and the task
      is known, whatever the worker does now and however many requests come first. */
  lemma RequestCanBeAnswered(before: seq<Step>, s: State, n: nat) returns (steps: seq<Step>, t: State)
    requires Reaches(INITIAL, before, s) && s.running && !s.closed && n < |s.queue|
    ensures Reaches(s, steps, t) && s.queue[n].id < |t.results| && CancelWorker !in steps
    ensures t.results[s.queue[n].id] == [Expected(s.queue[n].task, IsLive(s.worker))]
  {
    Reached(before, s);
    var ready, top := ComesToTop(s);
    assert s.queue[n].id == s.taken + n;
    hide Inv, IdsKnown, CallersInv, Next, Enabled, Reaches, IsLive;
    steps, t := QueuedIsServed(top, n);
    ReachesThen(s, ready, top, steps, t);
    steps := ready + steps;
  }

  // ----- Timers, calls and cancellations -----

  /** The timer of this caller has fired. */
  predicate TimerFired(s: State, id: nat) {
    id < |s.callers| &&
      match s.callers[id]
      case Waits => false
      case Woken(_, expired) => expired
      case Ended(_, outcome) => outcome == TimedOut
      case Told(_, outcome) => outcome == TimedOut
  }

  lemma TimerStep(s: State, step: Step, id: nat)
    requires Inv(s) && IdsKnown(s) && Enabled(s, step) && (TimerFired(s, id) || step == Expire(id))
    ensures TimerFired(Next(s, step), id)
  {
    if step.Close? && !s.closed {
      WokenAll(s.queue, s.callers, s.taken, s.pass, |s.queue|);
      assert s.queue[..|s.queue|] == s.queue;
    }
  }

  lemma {:induction false} TimerStays(start: State, steps: seq<Step>, end: State, id: nat)
    requires Inv(start) && IdsKnown(start) && Reaches(start, steps, end)
    requires TimerFired(start, id) || Expire(id) in steps
    ensures TimerFired(end, id)
    decreases |steps|
  {
    hide Inv, IdsKnown, Next, Enabled, TimerFired;
    if steps != [] {
      StepKeepsInv(start, steps[0]);
      assert steps == [steps[0]] + steps[1..];
      if TimerFired(start, id) || steps[0] == Expire(id) {
        TimerStep(start, steps[0], id);
      }
      TimerStays(Next(start, steps[0]), steps[1..], end, id);
    }
  }

  /** In every interleaving the coroutine of an accepted call ends with its timeout if and
      only if its timer fired before it ended, an answer already put in or not. */
  lemma TimesOutIff(steps: seq<Step>, s: State, id: nat)
    requires Reaches(INITIAL, steps, s) && id < |s.callers| && (s.callers[id].Ended? || s.callers[id].Told?)
    ensures s.callers[id].outcome == TimedOut <==> Expire(id) in steps
  {
    Reached(steps, s);
    InitialInv();
    hide Inv, IdsKnown, CallersInv;
    if Expire(id) in steps {
      TimerStays(INITIAL, steps, s, id);
    } else {
      assert CallersInv(INITIAL) by { Reached([], INITIAL); }
      Unexpired(INITIAL, steps, s, id);
    }
  }

  /** The tasks of all calls, and of those before the first close. */
  function Calls(steps: seq<Step>): seq<Task> {
    if steps == [] then [] else (if steps[0].Call? then [steps[0].task] else []) + Calls(steps[1..])
  }

  function CallsBeforeClose(steps: seq<Step>): seq<Task> {
    if steps == [] || steps[0] == Close then []
    else (if steps[0].Call? then [steps[0].task] else []) + CallsBeforeClose(steps[1..])
  }

  /** The requests carry these tasks, each under its number. */
  ghost predicate Carries(s: State, tasks: seq<Task>) {
    && |tasks| == |s.results|
    && (forall i :: 0 <= i < |s.queue| ==> s.queue[i].id < |tasks| && s.queue[i].task == tasks[s.queue[i].id])
    && (s.worker.Busy? ==> s.worker.request.id < |tasks| && s.worker.request.task == tasks[s.worker.request.id])
  }

  lemma {:induction false} CallsCarried(start: State, steps: seq<Step>, end: State, tasks: seq<Task>)
    requires Reaches(start, steps, end) && Carries(start, tasks)
    ensures var now := if start.closed then [] else CallsBeforeClose(steps);
            && Carries(end, tasks + now)
            && |end.refused| == |start.refused| + |Calls(steps)| - |now|
    decreases |steps|
  {
    hide Next, Enabled, IdsKnown, Carries;
    if steps == [] {
      assert tasks + [] == tasks;
    } else {
      var next := Next(start, steps[0]);
      var more := if steps[0].Call? && !start.closed then [steps[0].task] else [];
      StepCarries(start, steps[0], tasks);
      CallsCarried(next, steps[1..], end, tasks + more);
      var behind := if next.closed then [] else CallsBeforeClose(steps[1..]);
      assert tasks + more + behind == tasks + (more + behind);
      assert more + behind == if start.closed then [] else CallsBeforeClose(steps);
    }
  }

  lemma StepCarries(s: State, step: Step, tasks: seq<Task>)
    requires IdsKnown(s) && Enabled(s, step) && Carries(s, tasks)
    ensures Carries(Next(s, step), tasks + if step.Call? && !s.closed then [step.task] else [])
    ensures |Next(s, step).refused| == |s.refused| + if step.Call? && s.closed then 1 else 0
    ensures Next(s, step).closed <==> s.closed || step == Close
  {
    hide Drain, WakeAll, Wake, Due, Expired, OutcomeOf, ReplyTo;
    assert tasks + [] == tasks;
  }

  /** In every interleaving the calls before the close, in order, are the requests, each
      with its task, and every call after it is refused: none is lost or made up. */
  lemma CallsAreKept(steps: seq<Step>, s: State)
    requires Reaches(INITIAL, steps, s)
    ensures Carries(s, CallsBeforeClose(steps))
    ensures |s.refused| == |Calls(steps)| - |CallsBeforeClose(steps)|
  {
    CallsCarried(INITIAL, steps, s, []);
    assert [] + CallsBeforeClose(steps) == CallsBeforeClose(steps);
  }

  /** A request whose worker is cancelled at work is never answered, and that worker does
      nothing more until it is restarted. */
  lemma {:induction false} GoneIsGone(start: State, steps: seq<Step>, end: State)
    requires Inv(start) && IdsKnown(start) && Reaches(start, steps, end)
    ensures forall id :: id in start.abandoned ==> id in end.abandoned
    ensures start.worker == Gone && Restart !in steps ==> end.worker == Gone && end.taken == start.taken
    decreases |steps|
  {
    if steps != [] {
      StepKeepsInv(start, steps[0]);
      hide Inv, Drain, WakeAll, Put, Wake, Due, Expired, OutcomeOf, ReplyTo;
      assert steps == [steps[0]] + steps[1..];
      GoneIsGone(Next(start, steps[0]), steps[1..], end);
    }
  }

  lemma CancelledAtWork(before: seq<Step>, s: State, steps: seq<Step>, t: State)
    requires Reaches(INITIAL, before, s) && IdsKnown(s) && Enabled(s, CancelWorker)
    requires Reaches(Next(s, CancelWorker), steps, t)
    ensures s.worker.Busy? ==> s.worker.request.id < |t.results| && t.results[s.worker.request.id] == []
    ensures Restart !in steps ==> t.worker == Gone && t.taken == s.taken
  {
    Reached(before, s);
    StepKeepsInv(s, CancelWorker);
    GoneIsGone(Next(s, CancelWorker), steps, t);
    RunKeepsInv(Next(s, CancelWorker), steps, t);
    if s.worker.Busy? {
      var id := s.worker.request.id;
      assert Next(s, CancelWorker).abandoned[|s.abandoned|] == id;
      assert id in t.abandoned && id < t.taken && Settled(t, id);
    }
  }
}
