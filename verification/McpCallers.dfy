/** What the callers of an MCP session get, which depends on the pass of the loop in
    which they are woken: the loop stops one pass after a close, and the thread of a
    caller hears of its coroutine one pass after that one's end. */
module McpCallers {
  import opened McpSession

  // ----- The invariant of the callers -----

  /** A close stops the loop at the end of the next pass, with nothing left to run. */
  ghost predicate Clock(s: State) {
    && (s.closed ==> s.closedIn <= s.pass <= s.closedIn + 1)
    && (!s.running ==> s.closed && s.pass == s.closedIn + 1)
    && (!s.running ==> forall c :: c in s.callers || c in s.refused ==> !Due(c, s.pass))
  }

  /** Where the outcome of a coroutine comes from.  A cancellation was read in the pass
      after the close. */
  ghost predicate Heard(s: State, id: nat, pass: nat, outcome: Outcome)
    requires id < |s.results|
  {
    || outcome.TimedOut?
    || (s.results[id] != [] && outcome == ReadResult(s.results[id][0])
        && (outcome.MissingAttribute? ==> s.closed && pass == s.closedIn + 1))
  }

  ghost predicate CallerOk(s: State, id: nat)
    requires id < |s.results| == |s.callers|
  {
    match s.callers[id]
    case Waits => s.results[id] == []
    case Woken(woken, expired) =>
      && woken <= s.pass <= woken + 1
      && (!expired ==> s.results[id] != [] && (s.results[id][0].Cancellation? ==> s.closed && woken == s.closedIn))
    case Ended(ended, outcome) => ended <= s.pass <= ended + 1 && Heard(s, id, ended, outcome)
    case Told(ended, outcome) => ended < s.pass && Heard(s, id, ended, outcome)
  }

  ghost predicate RefusedOk(s: State, caller: Caller) {
    && s.closed
    && (caller.Ended? || caller.Told?)
    && caller.outcome == Refusal
    && s.closedIn <= caller.pass
    && (if caller.Ended? then caller.pass <= s.pass <= caller.pass + 1 else caller.pass < s.pass)
  }

  ghost predicate CallersInv(s: State) {
    && |s.callers| == |s.results|
    && Clock(s)
    && (forall id :: 0 <= id < |s.results| ==> CallerOk(s, id))
    && (forall i :: 0 <= i < |s.refused| ==> RefusedOk(s, s.refused[i]))
  }

  lemma {:induction false} WokenAll(queue: seq<Request>, callers: seq<Caller>, from: nat, pass: nat, n: nat)
    requires from + |queue| == |callers| && n <= |queue|
    requires forall i :: 0 <= i < |queue| ==> queue[i].id == from + i
    ensures forall id :: 0 <= id < |callers| ==>
              WakeAll(queue[..n], callers, pass)[id] ==
              if from <= id < from + n && callers[id].Waits? then Woken(pass, false) else callers[id]
  {
    if n > 0 {
      WokenAll(queue, callers, from, pass, n - 1);
      assert queue[..n][..n - 1] == queue[..n - 1];
    }
  }

  lemma FinishKeepsCallers(s: State, answer: Reply)
    requires Inv(s) && IdsKnown(s) && CallersInv(s) && Enabled(s, Finish(answer))
    ensures CallersInv(Next(s, Finish(answer)))
  {
    var t := Next(s, Finish(answer));
    assert Settled(s, s.worker.request.id);
    forall id | 0 <= id < |t.results| ensures CallerOk(t, id) {
      assert CallerOk(s, id);
    }
  }

  lemma CloseKeepsCallers(s: State)
    requires Inv(s) && IdsKnown(s) && CallersInv(s) && Enabled(s, Close)
    ensures CallersInv(Next(s, Close))
  {
    var t := Next(s, Close);
    if !s.closed {
      Drained(s.queue, s.results, s.taken);
      WokenAll(s.queue, s.callers, s.taken, s.pass, |s.queue|);
      assert s.queue[..|s.queue|] == s.queue;
      forall id | 0 <= id < |t.results| ensures CallerOk(t, id) {
        assert CallerOk(s, id) && Settled(s, id);
      }
    }
  }

  lemma EndPassKeepsCallers(s: State)
    requires IdsKnown(s) && CallersInv(s) && Enabled(s, EndPass)
    ensures CallersInv(Next(s, EndPass))
  {
    var t := Next(s, EndPass);
    forall id | 0 <= id < |t.results| ensures CallerOk(t, id) {
      assert CallerOk(s, id) && s.callers[id] in s.callers;
    }
    forall i | 0 <= i < |t.refused| ensures RefusedOk(t, t.refused[i]) {
      assert RefusedOk(s, s.refused[i]) && s.refused[i] in s.refused;
    }
  }

  predicate IsOwnStep(step: Step) {
    step.Expire? || step.Resume? || step.Tell? || step.TellRefused?
  }

  lemma OwnStepKeepsCallers(s: State, step: Step)
    requires Inv(s) && IdsKnown(s) && CallersInv(s) && Enabled(s, step) && IsOwnStep(step)
    ensures CallersInv(Next(s, step))
  {
    var t := Next(s, step);
    forall id | 0 <= id < |t.results| ensures CallerOk(t, id) {
      assert CallerOk(s, id) && Settled(s, id);
    }
    forall i | 0 <= i < |t.refused| ensures RefusedOk(t, t.refused[i]) {
      assert RefusedOk(s, s.refused[i]);
    }
  }

  /** Steps that leave every caller as it is, or bring a new one. */
  lemma OtherStepKeepsCallers(s: State, step: Step)
    requires Inv(s) && IdsKnown(s) && CallersInv(s) && Enabled(s, step)
    requires !IsOwnStep(step) && !step.Finish? && !step.Close? && !step.EndPass?
    ensures CallersInv(Next(s, step))
  {
    var t := Next(s, step);
    assert s.running;
    forall id | 0 <= id < |t.results| ensures CallerOk(t, id) {
      assert id < |s.results| ==> CallerOk(s, id);
    }
    forall i | 0 <= i < |t.refused| ensures RefusedOk(t, t.refused[i]) {
      assert i < |s.refused| ==> RefusedOk(s, s.refused[i]);
    }
  }

  lemma StepKeepsCallers(s: State, step: Step)
    requires Inv(s) && IdsKnown(s) && CallersInv(s) && Enabled(s, step)
    ensures CallersInv(Next(s, step))
  {
    hide Inv, IdsKnown, CallersInv, Next, Enabled;
    match step
    case Finish(answer) => FinishKeepsCallers(s, answer);
    case Close => CloseKeepsCallers(s);
    case EndPass => EndPassKeepsCallers(s);
    case _ =>
      if IsOwnStep(step) {
        OwnStepKeepsCallers(s, step);
      } else {
        OtherStepKeepsCallers(s, step);
      }
  }

  lemma {:induction false} RunKeepsCallers(start: State, steps: seq<Step>, end: State)
    requires Inv(start) && IdsKnown(start) && CallersInv(start) && Reaches(start, steps, end)
    ensures Inv(end) && IdsKnown(end) && CallersInv(end)
    decreases |steps|
  {
    hide Inv, IdsKnown, CallersInv, Next, Enabled;
    if steps != [] {
      StepKeepsInv(start, steps[0]);
      StepKeepsCallers(start, steps[0]);
      RunKeepsCallers(Next(start, steps[0]), steps[1..], end);
    }
  }

  lemma Reached(steps: seq<Step>, s: State)
    requires Reaches(INITIAL, steps, s)
    ensures Inv(s) && IdsKnown(s) && CallersInv(s)
  {
    InitialInv();
    RunKeepsCallers(INITIAL, steps, s);
  }

  // ----- What the threads of the callers answer -----

  /** `tool_call` answers with a text in every case.  `get_tools` raises what its
      coroutine raised, or that it timed out. */
  datatype Answer = ToolText | ErrorText | TimeoutText | Tools | Raised(outcome: Outcome) | RaisedTimeout

  /** A thread that is not told of its coroutine in time gives up. */
  function ToolCallAnswer(caller: Caller): Answer {
    match caller
    case Told(_, outcome) => if outcome.ServerResult? then ToolText else ErrorText
    case _ => TimeoutText
  }

  function GetToolsAnswer(caller: Caller): Answer {
    match caller
    case Told(_, outcome) => if outcome.ServerResult? then Tools else Raised(outcome)
    case _ => RaisedTimeout
  }

  /** In every interleaving, of a request that a close cancelled: its coroutine may fail
      on the missing attribute, but no thread is ever told.  Unless its own timer fired
      before, the thread waits until it gives up. */
  lemma CancelledNeverTold(steps: seq<Step>, s: State, id: nat)
    requires Reaches(INITIAL, steps, s) && id < |s.results| == |s.callers| && s.results[id] == [Cancellation]
    ensures ToolCallAnswer(s.callers[id]) == TimeoutText || s.callers[id] == Told(s.callers[id].pass, TimedOut)
    ensures GetToolsAnswer(s.callers[id]) in {RaisedTimeout, Raised(TimedOut)}
    ensures Expire(id) !in steps ==>
              ToolCallAnswer(s.callers[id]) == TimeoutText && GetToolsAnswer(s.callers[id]) == RaisedTimeout
  {
    Reached(steps, s);
    assert CallerOk(s, id);
    if Expire(id) !in steps {
      Unexpired(INITIAL, steps, s, id);
    }
  }

  /** No thread hears of a missing attribute at all, and one hears of a result only if
      the worker answered its request with one. */
  lemma ToldIsTrue(steps: seq<Step>, s: State, id: nat)
    requires Reaches(INITIAL, steps, s) && id < |s.results| == |s.callers| && s.callers[id].Told?
    ensures s.callers[id].outcome in {ServerResult, ReportedError, TimedOut}
    ensures s.callers[id].outcome.ServerResult? ==> id in s.served && s.results[id] == [Value]
    ensures s.callers[id].outcome.ReportedError? ==> id in s.served && s.results[id] == [Failure]
  {
    Reached(steps, s);
    assert CallerOk(s, id) && Settled(s, id);
  }

  /** No timer of this caller has fired. */
  predicate Patient(s: State, id: nat) {
    id < |s.callers| ==>
      match s.callers[id]
      case Waits => true
      case Woken(_, expired) => !expired
      case Ended(_, outcome) => !outcome.TimedOut?
      case Told(_, outcome) => !outcome.TimedOut?
  }

  lemma PatientStep(s: State, step: Step, id: nat)
    requires Inv(s) && IdsKnown(s) && CallersInv(s) && Enabled(s, step) && Patient(s, id) && step != Expire(id)
    ensures Patient(Next(s, step), id)
  {
    if step.Close? && !s.closed {
      WokenAll(s.queue, s.callers, s.taken, s.pass, |s.queue|);
      assert s.queue[..|s.queue|] == s.queue;
    } else if id < |s.callers| {
      assert CallerOk(s, id);
    }
  }

  lemma {:induction false} Unexpired(start: State, steps: seq<Step>, end: State, id: nat)
    requires Inv(start) && IdsKnown(start) && CallersInv(start) && Reaches(start, steps, end)
    requires Patient(start, id) && Expire(id) !in steps
    ensures Patient(end, id)
    decreases |steps|
  {
    hide Inv, IdsKnown, CallersInv, Next, Enabled, Patient;
    if steps != [] {
      StepKeepsInv(start, steps[0]);
      StepKeepsCallers(start, steps[0]);
      PatientStep(start, steps[0], id);
      Unexpired(Next(start, steps[0]), steps[1..], end, id);
    }
  }

  // ----- Which answers arrive -----

  /** A caller woken in pass `woken`, wherever it has got to. */
  predicate OnTrack(s: State, id: nat, woken: nat) {
    && id < |s.callers|
    && match s.callers[id]
       case Waits => false
       case Woken(pass, _) => pass == woken
       case Ended(pass, _) => pass == woken + 1
       case Told(pass, _) => pass == woken + 1
  }

  lemma TrackStep(s: State, step: Step, id: nat, woken: nat)
    requires Inv(s) && IdsKnown(s) && CallersInv(s) && Enabled(s, step) && OnTrack(s, id, woken)
    ensures OnTrack(Next(s, step), id, woken)
  {
    assert CallerOk(s, id);
    if step.Close? && !s.closed {
      WokenAll(s.queue, s.callers, s.taken, s.pass, |s.queue|);
      assert s.queue[..|s.queue|] == s.queue;
    }
  }

  /** An answer is never replaced or added to. */
  lemma AnswerStays(s: State, step: Step, id: nat)
    requires Inv(s) && IdsKnown(s) && Enabled(s, step) && id < |s.results| && s.results[id] != []
    ensures id < |Next(s, step).results| && Next(s, step).results[id] == s.results[id]
  {
    assert Settled(s, id);
    if step.Close? && !s.closed {
      Drained(s.queue, s.results, s.taken);
    }
  }

  lemma {:induction false} TrackRun(start: State, steps: seq<Step>, end: State, id: nat, woken: nat)
    requires Inv(start) && IdsKnown(start) && CallersInv(start) && Reaches(start, steps, end)
    requires OnTrack(start, id, woken) && id < |start.results| && start.results[id] != []
    ensures OnTrack(end, id, woken) && id < |end.results| && end.results[id] == start.results[id]
    decreases |steps|
  {
    hide Inv, IdsKnown, CallersInv, Next, Enabled, OnTrack;
    if steps != [] {
      StepKeepsInv(start, steps[0]);
      StepKeepsCallers(start, steps[0]);
      TrackStep(start, steps[0], id, woken);
      AnswerStays(start, steps[0], id);
      TrackRun(Next(start, steps[0]), steps[1..], end, id, woken);
    }
  }

  predicate PassEndsBeforeClose(steps: seq<Step>) {
    steps != [] && (steps[0].EndPass? || (!steps[0].Close? && PassEndsBeforeClose(steps[1..])))
  }

  lemma PassStep(s: State, step: Step)
    requires IdsKnown(s) && CallersInv(s) && Enabled(s, step)
    ensures var t := Next(s, step);
            && (s.closed ==> t.closed && t.closedIn == s.closedIn)
            && (!s.closed && step.Close? ==> t.closed && t.closedIn == s.pass)
            && (!s.closed && step.EndPass? ==> !t.closed && t.pass == s.pass + 1)
            && (!s.closed && !step.Close? && !step.EndPass? ==> !t.closed && t.pass == s.pass)
  {
  }

  /** The pass of the close is the present one unless a pass ends first. */
  lemma {:induction false} PassOfClose(start: State, steps: seq<Step>, end: State)
    requires Inv(start) && IdsKnown(start) && CallersInv(start) && Reaches(start, steps, end) && end.closed
    ensures start.closed ==> end.closedIn == start.closedIn
    ensures !start.closed ==> start.pass <= end.closedIn
    ensures !start.closed ==> (start.pass < end.closedIn <==> PassEndsBeforeClose(steps))
    decreases |steps|
  {
    hide Inv, IdsKnown, CallersInv, Next, Enabled;
    if steps != [] {
      StepKeepsInv(start, steps[0]);
      StepKeepsCallers(start, steps[0]);
      PassStep(start, steps[0]);
      PassOfClose(Next(start, steps[0]), steps[1..], end);
    }
  }

  /** A stopped loop has told exactly the callers it woke before the pass of the close. */
  lemma ToldWhenStopped(s: State, id: nat, woken: nat)
    requires IdsKnown(s) && CallersInv(s) && OnTrack(s, id, woken) && !s.running
    ensures s.callers[id].Told? <==> woken < s.closedIn
  {
    assert CallerOk(s, id) && s.callers[id] in s.callers;
  }

  lemma FinishWakes(s: State, answer: Reply)
    requires Inv(s) && IdsKnown(s) && CallersInv(s) && Enabled(s, Finish(answer))
    requires s.callers[s.worker.request.id].Waits?
    ensures var id, t := s.worker.request.id, Next(s, Finish(answer));
            && t.callers[id] == Woken(s.pass, false) && t.pass == s.pass && t.closed == s.closed
            && t.closedIn == s.closedIn
            && t.results[id] == [ReplyTo(s.worker.request.task, s.worker.failing, answer)]
  {
    assert Settled(s, s.worker.request.id);
  }

  /** In every interleaving, of an answer put in while its caller waits: by the time the
      loop has stopped, the caller's thread was told if and only if the session was open
      and the pass ended before the close; and then of this answer, unless the caller's
      timer fired after all. */
  lemma AnswerArrivesIff(before: seq<Step>, s: State, answer: Reply, after: seq<Step>, t: State)
    requires Reaches(INITIAL, before, s) && IdsKnown(s) && Enabled(s, Finish(answer))
    requires s.callers[s.worker.request.id].Waits?
    requires Reaches(Next(s, Finish(answer)), after, t) && !t.running
    ensures var id := s.worker.request.id;
            && id < |t.callers|
            && (t.callers[id].Told? <==> !s.closed && PassEndsBeforeClose(after))
            && (t.callers[id].Told? && Expire(id) !in after ==>
                  t.callers[id].outcome ==
                  if answer == Value && !s.worker.failing && s.worker.request.task in {ListTools, ToolCall}
                  then ServerResult else ReportedError)
  {
    Reached(before, s);
    var id, next := s.worker.request.id, Next(s, Finish(answer));
    StepKeepsInv(s, Finish(answer));
    StepKeepsCallers(s, Finish(answer));
    FinishWakes(s, answer);
    hide Next, Enabled, Inv, Reaches;
    TrackRun(next, after, t, id, s.pass);
    RunKeepsCallers(next, after, t);
    ToldWhenStopped(t, id, s.pass);
    PassOfClose(next, after, t);
    assert CallerOk(t, id);
    if Expire(id) !in after {
      Unexpired(next, after, t, id);
    }
  }

  predicate Failing(worker: Worker) {
    match worker
    case AtTop(failing) => failing
    case Waiting(failing) => failing
    case Busy(_, failing) => failing
    case _ => false
  }

  predicate IsAtWork(worker: Worker) {
    worker.AtTop? || worker.Waiting? || worker.Busy?
  }

  lemma FailStep(s: State, step: Step)
    requires IdsKnown(s) && Enabled(s, step)
    ensures var was, now := s.worker, Next(s, step).worker;
            && (step == Connect || step == FailToConnect ==> was == Connecting && now == AtTop(step == FailToConnect))
            && (step == Restart ==> was == Gone && now == AtTop(true))
            && (was == Connecting && step != Connect && step != FailToConnect ==> now == Connecting || now == Gone)
            && (was == Gone && step != Restart ==> now == Gone)
            && (IsAtWork(was) ==> now == Gone || (IsAtWork(now) && Failing(now) == Failing(was)))
  {
    hide Drain, WakeAll, Put, Wake, Due;
  }

  /** In every interleaving a worker fails exactly when it could not connect, or was
      restarted after the transport had reported an error. */
  lemma {:induction false} FailsIff(start: State, steps: seq<Step>, end: State)
    requires Reaches(start, steps, end) && IsAtWork(end.worker)
    ensures start.worker == Connecting ==>
              (Failing(end.worker) <==> FailToConnect in steps || Restart in steps)
    ensures start.worker == Gone ==> Failing(end.worker) && Restart in steps
    ensures start.worker != Connecting && start.worker != Gone ==>
              (Failing(end.worker) <==> Failing(start.worker) || Restart in steps)
    ensures start.worker != Connecting ==> FailToConnect !in steps
    decreases |steps|
  {
    hide Next, Enabled, IdsKnown, Failing;
    if steps != [] {
      FailStep(start, steps[0]);
      FailsIff(Next(start, steps[0]), steps[1..], end);
      assert steps == [steps[0]] + steps[1..];
      assert Failing(AtTop(true)) && !Failing(AtTop(false)) by { FailingIs(); }
    }
  }

  lemma FailingIs()
    ensures Failing(AtTop(true)) && !Failing(AtTop(false))
  {
  }

  /** A caller that a closed session refuses is told so exactly if it was refused in the
      very pass of the close. */
  lemma RefusalArrivesIff(steps: seq<Step>, s: State, i: nat)
    requires Reaches(INITIAL, steps, s) && !s.running && i < |s.refused|
    ensures s.refused[i].Told? <==> s.refused[i] == Told(s.closedIn, Refusal)
    ensures !s.refused[i].Told? <==> s.refused[i] == Ended(s.closedIn + 1, Refusal)
  {
    Reached(steps, s);
    assert RefusedOk(s, s.refused[i]) && s.refused[i] in s.refused;
  }

  lemma ReachesFirst(s: State, step: Step, rest: seq<Step>, end: State)
    requires IdsKnown(s) && Enabled(s, step) && Reaches(Next(s, step), rest, end)
    ensures Reaches(s, [step] + rest, end)
  {
    assert ([step] + rest)[1..] == rest;
  }

  const ANSWERED := State([], false, true, 0, 0, AtTop(false), [[Value]], [Woken(0, false)], [], 1, [0], [])
  const LOST := State([], true, false, 1, 0, AtTop(false), [[Value]], [Ended(1, ServerResult)], [], 1, [0], [])

  lemma AnsweredReached()
    ensures Reaches(INITIAL, [Connect, Check, Call(ToolCall), Take, Finish(Value)], ANSWERED)
  {
    var ready := INITIAL.(worker := Waiting(false));
    var busy := ready.(worker := Busy(Request(0, ToolCall), false), results := [[]], callers := [Waits], taken := 1);
    assert Next(Next(ready, Call(ToolCall)), Take) == busy;
    assert busy.results[0] + [Value] == [Value];
    assert Next(busy, Finish(Value)) == ANSWERED;
    assert Reaches(ANSWERED, [], ANSWERED);
    hide Reaches;
    ReachesFirst(busy, Finish(Value), [], ANSWERED);
    ReachesFirst(Next(ready, Call(ToolCall)), Take, [Finish(Value)], ANSWERED);
    ReachesFirst(ready, Call(ToolCall), [Take, Finish(Value)], ANSWERED);
    ReachesFirst(Next(INITIAL, Connect), Check, [Call(ToolCall), Take, Finish(Value)], ANSWERED);
    ReachesFirst(INITIAL, Connect, [Check, Call(ToolCall), Take, Finish(Value)], ANSWERED);
  }

  lemma LostReached()
    ensures Reaches(ANSWERED, [Close, EndPass, Resume(0), EndPass], LOST)
  {
    var closed := ANSWERED.(closed := true);
    var resumed := closed.(pass := 1, callers := [Ended(1, ServerResult)]);
    assert Next(ANSWERED, Close) == closed;
    assert Enabled(closed, EndPass) && Next(closed, EndPass) == closed.(pass := 1);
    assert Next(closed.(pass := 1), Resume(0)) == resumed;
    assert Enabled(resumed, EndPass) && Next(resumed, EndPass) == LOST;
    assert Reaches(LOST, [], LOST);
    hide Reaches, Next;
    ReachesFirst(resumed, EndPass, [], LOST);
    ReachesFirst(closed.(pass := 1), Resume(0), [EndPass], LOST);
    ReachesFirst(closed, EndPass, [Resume(0), EndPass], LOST);
    ReachesFirst(ANSWERED, Close, [EndPass, Resume(0), EndPass], LOST);
  }

  /** An answer put in just before a close, in the same pass, is lost: the caller's
      coroutine has the server's result, and its thread times out. */
  lemma AnswerBeforeCloseIsLost()
    ensures Reaches(INITIAL, [Connect, Check, Call(ToolCall), Take, Finish(Value)], ANSWERED)
    ensures Reaches(ANSWERED, [Close, EndPass, Resume(0), EndPass], LOST)
    ensures LOST.results[0] == [Value] && LOST.callers[0].outcome == ServerResult
    ensures ToolCallAnswer(LOST.callers[0]) == TimeoutText && GetToolsAnswer(LOST.callers[0]) == RaisedTimeout
  {
    hide Reaches;
    AnsweredReached();
    LostReached();
  }
}
