/** One MCP session: a request queue, its worker, many callers and a close,
    interleaved step by step on one event loop.

    The loop works in passes: what a step schedules runs in the next pass, and a loop
    told to stop ends with the pass in which it is told.  A close tells it in the pass
    after its own. */
module McpSession {
  import opened Text

  datatype Task = ListTools | ToolCall | UnknownTask

  /** What is put into the result queue of a request. */
  datatype Reply = Value | Failure | Cancellation

  datatype Request = Request(id: nat, task: Task)

  /** The worker: connecting, at the top of its loop, waiting for the queue, busy
      with a request, or gone.  A failing worker has no session to call. */
  datatype Worker =
    | Connecting
    | AtTop(failing: bool)
    | Waiting(failing: bool)
    | Busy(request: Request, failing: bool)
    | Gone

  /** What the coroutine of a call ends with: the server's result, an error the worker
      reported, its own timeout, the refusal of a closed session, or a missing attribute. */
  datatype Outcome = ServerResult | ReportedError | TimedOut | Refusal | MissingAttribute

  /** A call: waiting at its result queue, woken up, its coroutine ended, or its thread
      told of it.  `pass` is the pass of the waking, then that of the ending. */
  datatype Caller =
    | Waits
    | Woken(pass: nat, expired: bool)
    | Ended(pass: nat, outcome: Outcome)
    | Told(pass: nat, outcome: Outcome)

  /** `results` and `callers` hold the result queue and the caller of each accepted
      request, in order of acceptance; `refused` holds the other callers.  `closedIn` is
      the pass of the close.  The last three only record: how many requests the worker
      took, and which of them it answered and abandoned. */
  datatype State = State(
    queue: seq<Request>,
    closed: bool,
    running: bool,
    pass: nat,
    closedIn: nat,
    worker: Worker,
    results: seq<seq<Reply>>,
    callers: seq<Caller>,
    refused: seq<Caller>,
    taken: nat,
    served: seq<nat>,
    abandoned: seq<nat>)

  datatype Step =
    | Call(task: Task)
    | Connect
    | FailToConnect
    | Check
    | Take
    | PollTimeout
    | Finish(answer: Reply)
    | CancelWorker
    | Restart
    | Close
    | Expire(id: nat)
    | Resume(id: nat)
    | Tell(id: nat)
    | TellRefused(i: nat)
    | EndPass

  const INITIAL := State([], false, true, 0, 0, Connecting, [], [], [], 0, [], [])

  /** A caller that was scheduled in an earlier pass and has not run yet. */
  predicate Due(caller: Caller, pass: nat) {
    (caller.Woken? || caller.Ended?) && caller.pass < pass
  }

  /** The steps that can happen.  A worker restarts, failing, when the transport
      it ran inside reports an error as it is left.  A pass ends when everything that
      was scheduled before it has run. */
  predicate Enabled(s: State, step: Step) {
    && s.running
    && match step
       case Call(_) => true
       case Connect => s.worker.Connecting?
       case FailToConnect => s.worker.Connecting?
       case Check => s.worker.AtTop?
       case Take => s.worker.Waiting? && s.queue != []
       case PollTimeout => s.worker.Waiting?
       case Finish(answer) => s.worker.Busy? && !answer.Cancellation?
       case CancelWorker => s.worker.Connecting? || s.worker.Waiting? || s.worker.Busy?
       case Restart => s.worker.Gone?
       case Close => true
       case Expire(id) => id < |s.callers| && (s.callers[id].Waits? || s.callers[id].Woken?)
       case Resume(id) => id < |s.callers| && s.callers[id].Woken? && Due(s.callers[id], s.pass)
       case Tell(id) => id < |s.callers| && s.callers[id].Ended? && Due(s.callers[id], s.pass)
       case TellRefused(i) => i < |s.refused| && s.refused[i].Ended? && Due(s.refused[i], s.pass)
       case EndPass =>
         (forall c :: c in s.callers ==> !Due(c, s.pass)) && (forall c :: c in s.refused ==> !Due(c, s.pass))
  }

  /** The reply to a request: only a known task of a live session gets the server's. */
  function ReplyTo(task: Task, failing: bool, answer: Reply): Reply {
    if failing || task.UnknownTask? then Failure else answer
  }

  function Put(results: seq<seq<Reply>>, id: nat, reply: Reply): seq<seq<Reply>>
    requires id < |results|
  {
    results[id := results[id] + [reply]]
  }

  /** Putting something into a result queue wakes the caller that waits there. */
  function Wake(callers: seq<Caller>, id: nat, pass: nat): seq<Caller>
    requires id < |callers|
  {
    if callers[id].Waits? then callers[id := Woken(pass, false)] else callers
  }

  /** Empties the queue, putting a cancellation into each result queue. */
  function Drain(queue: seq<Request>, results: seq<seq<Reply>>): (r: seq<seq<Reply>>)
    requires forall i :: 0 <= i < |queue| ==> queue[i].id < |results|
    ensures |r| == |results|
  {
    if queue == [] then results
    else Put(Drain(queue[..|queue| - 1], results), queue[|queue| - 1].id, Cancellation)
  }

  /** The callers that this wakes. */
  function WakeAll(queue: seq<Request>, callers: seq<Caller>, pass: nat): (r: seq<Caller>)
    requires forall i :: 0 <= i < |queue| ==> queue[i].id < |callers|
    ensures |r| == |callers|
  {
    if queue == [] then callers
    else Wake(WakeAll(queue[..|queue| - 1], callers, pass), queue[|queue| - 1].id, pass)
  }

  /** A timer that fires overrules what has woken a caller already. */
  function Expired(caller: Caller, pass: nat): Caller {
    if caller.Woken? then caller.(expired := true) else Woken(pass, true)
  }

  /** `_call_mcp_server` raises what is an `Exception` and returns what is not.  A
      cancellation is not one, and its reader looks up an attribute that it lacks. */
  function ReadResult(reply: Reply): Outcome {
    match reply
    case Value => ServerResult
    case Failure => ReportedError
    case Cancellation => MissingAttribute
  }

  /** A woken caller runs to its end. */
  function OutcomeOf(caller: Caller, results: seq<Reply>): Outcome
    requires caller.Woken?
  {
    if caller.expired || results == [] then TimedOut else ReadResult(results[0])
  }

  ghost predicate IdsKnown(s: State) {
    && |s.callers| == |s.results|
    && (forall i :: 0 <= i < |s.queue| ==> s.queue[i].id < |s.results|)
    && (s.worker.Busy? ==> s.worker.request.id < |s.results|)
  }

  function Next(s: State, step: Step): State
    requires IdsKnown(s) && Enabled(s, step)
  {
    match step
    case Call(task) =>
      if s.closed then s.(refused := s.refused + [Ended(s.pass, Refusal)])
      else s.(queue := s.queue + [Request(|s.results|, task)], results := s.results + [[]],
              callers := s.callers + [Waits])
    case Connect => s.(worker := AtTop(false))
    case FailToConnect => s.(worker := AtTop(true))
    case Check => s.(worker := if s.closed then Gone else Waiting(s.worker.failing))
    case Take => s.(queue := s.queue[1..], worker := Busy(s.queue[0], s.worker.failing), taken := s.taken + 1)
    case PollTimeout => s.(worker := AtTop(s.worker.failing))
    case Finish(answer) =>
      var Busy(request, failing) := s.worker;
      s.(results := Put(s.results, request.id, ReplyTo(request.task, failing, answer)),
         callers := Wake(s.callers, request.id, s.pass), served := s.served + [request.id], worker := AtTop(failing))
    case CancelWorker =>
      s.(abandoned := if s.worker.Busy? then s.abandoned + [s.worker.request.id] else s.abandoned, worker := Gone)
    case Restart => s.(worker := AtTop(true))
    case Close =>
      if s.closed then s
      else s.(closed := true, closedIn := s.pass, queue := [], results := Drain(s.queue, s.results),
              callers := WakeAll(s.queue, s.callers, s.pass))
    case Expire(id) => s.(callers := s.callers[id := Expired(s.callers[id], s.pass)])
    case Resume(id) => s.(callers := s.callers[id := Ended(s.pass, OutcomeOf(s.callers[id], s.results[id]))])
    case Tell(id) => s.(callers := s.callers[id := Told(s.callers[id].pass, s.callers[id].outcome)])
    case TellRefused(i) => s.(refused := s.refused[i := Told(s.refused[i].pass, s.refused[i].outcome)])
    case EndPass => if s.closed && s.closedIn < s.pass then s.(running := false) else s.(pass := s.pass + 1)
  }

  // ----- The invariant -----

  ghost predicate Increasing(ids: seq<nat>) {
    forall i, j :: 0 <= i < j < |ids| ==> ids[i] < ids[j]
  }

  predicate InFlight(s: State, id: nat) {
    s.worker.Busy? && s.worker.request.id == id
  }

  /** The queue holds the requests not taken yet, in order; none once closed. */
  ghost predicate QueueInOrder(s: State) {
    && s.taken <= |s.results|
    && |s.queue| == (if s.closed then 0 else |s.results| - s.taken)
    && (forall i :: 0 <= i < |s.queue| ==> s.queue[i].id == s.taken + i)
    && (s.worker.Busy? ==> 0 < s.taken && s.worker.request.id == s.taken - 1)
  }

  /** A taken request is answered, abandoned or in flight; another one was
      cancelled if the session closed. */
  ghost predicate Settled(s: State, id: nat)
    requires id < |s.results|
  {
    if id < s.taken then
      if InFlight(s, id) then s.results[id] == [] && id !in s.served && id !in s.abandoned
      else if s.results[id] == [] then id in s.abandoned && id !in s.served
      else (s.results[id] == [Value] || s.results[id] == [Failure]) && id in s.served && id !in s.abandoned
    else s.results[id] == (if s.closed then [Cancellation] else [])
  }

  ghost predicate Inv(s: State) {
    && QueueInOrder(s)
    && (forall id :: 0 <= id < |s.results| ==> Settled(s, id))
    && Increasing(s.served) && Increasing(s.abandoned)
    && (forall id :: id in s.served || id in s.abandoned ==> id < s.taken)
  }

  lemma {:induction false} Drained(queue: seq<Request>, results: seq<seq<Reply>>, from: nat)
    requires from + |queue| == |results|
    requires forall i :: 0 <= i < |queue| ==> queue[i].id == from + i
    ensures forall id :: 0 <= id < from ==> Drain(queue, results)[id] == results[id]
    ensures forall id :: from <= id < |results| ==> Drain(queue, results)[id] == results[id] + [Cancellation]
  {
    DrainedUpTo(queue, results, from, |queue|);
    assert queue[..|queue|] == queue;
  }

  lemma {:induction false} DrainedUpTo(queue: seq<Request>, results: seq<seq<Reply>>, from: nat, n: nat)
    requires from + |queue| == |results| && n <= |queue|
    requires forall i :: 0 <= i < |queue| ==> queue[i].id == from + i
    ensures forall id :: 0 <= id < |results| ==>
              Drain(queue[..n], results)[id] ==
              if from <= id < from + n then results[id] + [Cancellation] else results[id]
  {
    if n > 0 {
      DrainedUpTo(queue, results, from, n - 1);
      assert queue[..n][..n - 1] == queue[..n - 1];
    }
  }

  lemma InitialInv()
    ensures Inv(INITIAL) && IdsKnown(INITIAL)
  {
  }

  lemma IncreasingWith(ids: seq<nat>, id: nat)
    requires Increasing(ids) && (forall k :: k in ids ==> k <= id) && id !in ids
    ensures Increasing(ids + [id])
  {
    assert forall i :: 0 <= i < |ids| ==> ids[i] in ids;
  }

  lemma CallKeepsInv(s: State, task: Task)
    requires Inv(s) && IdsKnown(s) && s.running
    ensures Inv(Next(s, Call(task)))
  {
    var t := Next(s, Call(task));
    forall id | 0 <= id < |t.results| ensures Settled(t, id) {
      if id < |s.results| {
        assert Settled(s, id);
      }
    }
  }

  lemma CloseKeepsInv(s: State)
    requires Inv(s) && IdsKnown(s) && s.running
    ensures Inv(Next(s, Close))
  {
    var t := Next(s, Close);
    if !s.closed {
      Drained(s.queue, s.results, s.taken);
      forall id | 0 <= id < |t.results| ensures Settled(t, id) {
        assert Settled(s, id);
      }
    }
  }

  lemma TakeKeepsInv(s: State)
    requires Inv(s) && IdsKnown(s) && Enabled(s, Take)
    ensures Inv(Next(s, Take))
  {
    var t := Next(s, Take);
    forall id | 0 <= id < |t.results| ensures Settled(t, id) {
      assert Settled(s, id);
    }
  }

  lemma FinishKeepsInv(s: State, answer: Reply)
    requires Inv(s) && IdsKnown(s) && Enabled(s, Finish(answer))
    ensures Inv(Next(s, Finish(answer)))
  {
    var t := Next(s, Finish(answer));
    assert Settled(s, s.taken - 1);
    assert t.served == s.served + [s.taken - 1];
    IncreasingWith(s.served, s.taken - 1);
    forall id | 0 <= id < |t.results| ensures Settled(t, id) {
      assert Settled(s, id);
      if id in s.served {
        assert id in t.served;
      }
    }
  }

  lemma CancelKeepsInv(s: State)
    requires Inv(s) && IdsKnown(s) && Enabled(s, CancelWorker)
    ensures Inv(Next(s, CancelWorker))
  {
    var t := Next(s, CancelWorker);
    if s.worker.Busy? {
      assert Settled(s, s.taken - 1);
      IncreasingWith(s.abandoned, s.taken - 1);
    }
    forall id | 0 <= id < |t.results| ensures Settled(t, id) {
      assert Settled(s, id);
      if id in s.abandoned {
        assert id in t.abandoned;
      }
    }
  }

  /** The steps that leave queue, result queues and records as they are. */
  predicate IsQuiet(step: Step) {
    !step.Call? && !step.Close? && !step.Take? && !step.Finish? && !step.CancelWorker?
  }

  lemma QuietKeepsInv(s: State, step: Step)
    requires Inv(s) && IdsKnown(s) && Enabled(s, step) && IsQuiet(step)
    ensures Inv(Next(s, step))
  {
    var t := Next(s, step);
    forall id | 0 <= id < |t.results| ensures Settled(t, id) {
      assert Settled(s, id);
    }
  }

  lemma StepKeepsIds(s: State, step: Step)
    requires Inv(s) && IdsKnown(s) && Enabled(s, step)
    ensures IdsKnown(Next(s, step))
  {
  }

  lemma StepKeepsInv(s: State, step: Step)
    requires Inv(s) && IdsKnown(s) && Enabled(s, step)
    ensures Inv(Next(s, step)) && IdsKnown(Next(s, step))
  {
    StepKeepsIds(s, step);
    hide Inv, IdsKnown, Next;
    match step
    case Call(task) => CallKeepsInv(s, task);
    case Close => CloseKeepsInv(s);
    case Take => TakeKeepsInv(s);
    case Finish(answer) => FinishKeepsInv(s, answer);
    case CancelWorker => CancelKeepsInv(s);
    case _ => QuietKeepsInv(s, step);
  }

  // ----- Whole runs -----

  /** A state that some interleaving leads to: the steps taken, oldest first. */
  ghost predicate Reaches(start: State, steps: seq<Step>, end: State)
    decreases |steps|
  {
    if steps == [] then start == end
    else IdsKnown(start) && Enabled(start, steps[0]) && Reaches(Next(start, steps[0]), steps[1..], end)
  }

  lemma {:induction false} RunKeepsInv(start: State, steps: seq<Step>, end: State)
    requires Inv(start) && IdsKnown(start) && Reaches(start, steps, end)
    ensures Inv(end) && IdsKnown(end)
    decreases |steps|
  {
    hide Inv, IdsKnown, Next, Enabled;
    if steps != [] {
      StepKeepsInv(start, steps[0]);
      RunKeepsInv(Next(start, steps[0]), steps[1..], end);
    }
  }

  /** In every interleaving: a request gets at most one answer; the worker answers
      in order of submission; and once closed, the queue is empty and every accepted
      request is answered, cancelled, abandoned, or the one in flight. */
  lemma AtMostOneAnswerInOrder(steps: seq<Step>, s: State)
    requires Reaches(INITIAL, steps, s)
    ensures forall id :: 0 <= id < |s.results| ==> |s.results[id]| <= 1
    ensures Increasing(s.served)
    ensures forall i :: 0 <= i < |s.served| ==> s.served[i] < |s.results| && |s.results[s.served[i]]| == 1
    ensures s.closed ==> s.queue == []
    ensures s.closed ==> forall id :: 0 <= id < |s.results| ==>
              id in s.served || s.results[id] == [Cancellation] || id in s.abandoned || InFlight(s, id)
  {
    InitialInv();
    RunKeepsInv(INITIAL, steps, s);
    forall id | 0 <= id < |s.results|
      ensures |s.results[id]| <= 1
      ensures s.closed ==> id in s.served || s.results[id] == [Cancellation] || id in s.abandoned || InFlight(s, id)
      ensures id in s.served ==> |s.results[id]| == 1
    {
      assert Settled(s, id);
    }
    forall i | 0 <= i < |s.served| ensures s.served[i] < |s.results| && |s.results[s.served[i]]| == 1 {
      assert s.served[i] in s.served;
    }
  }

  /** What a closed session still does: nothing but settle the request in flight. */
  ghost predicate Frozen(s: State, t: State) {
    && t.closed && t.queue == [] && |t.results| == |s.results| && t.taken == s.taken
    && (t.worker.Busy? ==> t.worker == s.worker)
    && forall id :: 0 <= id < |s.results| && !InFlight(s, id) ==> t.results[id] == s.results[id]
  }

  lemma ClosedStepFreezes(s: State, step: Step)
    requires Inv(s) && IdsKnown(s) && Enabled(s, step) && s.closed
    ensures Frozen(s, Next(s, step))
  {
  }

  /** After a close no request is accepted, taken or cancelled again. */
  lemma {:induction false} ClosedForGood(s: State, steps: seq<Step>, t: State)
    requires Inv(s) && IdsKnown(s) && Reaches(s, steps, t) && s.closed
    ensures Frozen(s, t)
    decreases |steps|
  {
    hide Next, Enabled, IdsKnown;
    if steps == [] {
      assert QueueInOrder(s);
    } else {
      StepKeepsInv(s, steps[0]);
      ClosedStepFreezes(s, steps[0]);
      var next := Next(s, steps[0]);
      ClosedForGood(next, steps[1..], t);
      assert QueueInOrder(s) && QueueInOrder(next);
    }
  }

  /** A close cancels exactly the requests still queued. */
  lemma CloseCancelsQueued(s: State, id: nat)
    requires Inv(s) && IdsKnown(s) && s.running && !s.closed && id < |s.results|
    ensures Next(s, Close).results[id] == (if s.taken <= id then [Cancellation] else s.results[id])
    ensures s.taken <= id <==> exists i :: 0 <= i < |s.queue| && s.queue[i].id == id
  {
    Drained(s.queue, s.results, s.taken);
    assert Settled(s, id);
    if s.taken <= id {
      var i := id - s.taken;
      assert 0 <= i < |s.queue| && s.queue[i].id == id;
    }
  }

  // ----- The session as an object -----

  lemma NothingDrained(queue: seq<Request>, results: seq<seq<Reply>>, callers: seq<Caller>, pass: nat)
    ensures Drain(queue[..0], results) == results && WakeAll(queue[..0], callers, pass) == callers
  {
  }

  lemma DrainNext(queue: seq<Request>, n: nat, results: seq<seq<Reply>>, callers: seq<Caller>, pass: nat)
    requires n < |queue| && |callers| == |results|
    requires forall i :: 0 <= i < |queue| ==> queue[i].id < |results|
    ensures Drain(queue[..n + 1], results) == Put(Drain(queue[..n], results), queue[n].id, Cancellation)
    ensures WakeAll(queue[..n + 1], callers, pass) == Wake(WakeAll(queue[..n], callers, pass), queue[n].id, pass)
  {
    assert queue[..n + 1][..n] == queue[..n];
  }

  class Session {
    var queue: seq<Request>
    var closed: bool
    var running: bool
    var pass: nat
    var closedIn: nat
    var worker: Worker
    var results: seq<seq<Reply>>
    var callers: seq<Caller>
    var refused: seq<Caller>
    ghost var taken: nat
    ghost var served: seq<nat>
    ghost var abandoned: seq<nat>

    ghost function Now(): State
      reads this
    {
      State(queue, closed, running, pass, closedIn, worker, results, callers, refused, taken, served, abandoned)
    }

    constructor ()
      ensures Now() == INITIAL
    {
      queue, closed, running, pass, closedIn := [], false, true, 0, 0;
      worker, results, callers, refused := Connecting, [], [], [];
      taken, served, abandoned := 0, [], [];
    }

    /** The front of `_call_mcp_server`, up to where it waits for its result. */
    method CallMcpServer(task: Task) returns (id: Option<nat>)
      requires Inv(Now()) && IdsKnown(Now()) && running
      modifies this
      ensures Now() == Next(old(Now()), Call(task)) && Inv(Now()) && IdsKnown(Now())
      ensures id == if old(closed) then None else Some(|old(results)|)
      ensures queue == old(queue) + if id.Some? then [Request(id.value, task)] else []
    {
      StepKeepsInv(Now(), Call(task));
      if closed {
        refused := refused + [Ended(pass, Refusal)];
        return None;
      }
      id := Some(|results|);
      queue := queue + [Request(|results|, task)];
      results := results + [[]];
      callers := callers + [Waits];
    }

    /** The worker at the top of its loop. */
    method CheckClosed()
      requires Inv(Now()) && IdsKnown(Now()) && Enabled(Now(), Check)
      modifies this
      ensures Now() == Next(old(Now()), Check) && Inv(Now()) && IdsKnown(Now())
      ensures worker == if closed then Gone else Waiting(old(worker).failing)
    {
      StepKeepsInv(Now(), Check);
      worker := if closed then Gone else Waiting(worker.failing);
    }

    /** The worker takes the request at the front. */
    method TakeTask() returns (request: Request)
      requires Inv(Now()) && IdsKnown(Now()) && Enabled(Now(), Take)
      modifies this
      ensures Now() == Next(old(Now()), Take) && Inv(Now()) && IdsKnown(Now())
      ensures request == old(queue)[0] && request.id == old(taken)
      ensures queue == old(queue)[1..] && worker == Busy(request, old(worker).failing)
    {
      StepKeepsInv(Now(), Take);
      request := queue[0];
      queue := queue[1..];
      worker := Busy(request, worker.failing);
      taken := taken + 1;
    }

    /** The worker answers the request it holds. */
    method FinishTask(answer: Reply)
      requires Inv(Now()) && IdsKnown(Now()) && Enabled(Now(), Finish(answer))
      modifies this
      ensures Now() == Next(old(Now()), Finish(answer)) && Inv(Now()) && IdsKnown(Now())
      ensures var task, live := old(worker).request.task, !old(worker).failing;
              results[old(taken) - 1] == [if live && (task == ListTools || task == ToolCall) then answer else Failure]
    {
      StepKeepsInv(Now(), Finish(answer));
      assert Settled(Now(), taken - 1);
      var request, failing := worker.request, worker.failing;
      var reply := answer;
      if failing {
        reply := Failure;
      } else if request.task.UnknownTask? {
        reply := Failure;
      }
      results := results[request.id := results[request.id] + [reply]];
      if callers[request.id].Waits? {
        callers := callers[request.id := Woken(pass, false)];
      }
      served := served + [request.id];
      worker := AtTop(failing);
    }

    /** The worker is cancelled: it drops what it holds and leaves its loop. */
    method BreakOff()
      requires Inv(Now()) && IdsKnown(Now()) && Enabled(Now(), CancelWorker)
      modifies this
      ensures Now() == Next(old(Now()), CancelWorker) && Inv(Now()) && IdsKnown(Now())
    {
      StepKeepsInv(Now(), CancelWorker);
      if worker.Busy? {
        abandoned := abandoned + [worker.request.id];
      }
      worker := Gone;
    }

    /** The rest of `_call_mcp_server` and its caller's coroutine, once woken. */
    method ResumeCaller(id: nat) returns (outcome: Outcome)
      requires Inv(Now()) && IdsKnown(Now()) && Enabled(Now(), Resume(id))
      modifies this
      ensures Now() == Next(old(Now()), Resume(id)) && Inv(Now()) && IdsKnown(Now())
      ensures callers[id] == Ended(pass, outcome)
      ensures outcome == if old(callers[id]).expired || results[id] == [] then TimedOut
                         else match results[id][0]
                              case Value => ServerResult
                              case Failure => ReportedError
                              case Cancellation => MissingAttribute
    {
      StepKeepsInv(Now(), Resume(id));
      if callers[id].expired || results[id] == [] {
        outcome := TimedOut;
      } else if results[id][0].Failure? {
        outcome := ReportedError;
      } else if results[id][0].Cancellation? {
        outcome := MissingAttribute;
      } else {
        outcome := ServerResult;
      }
      callers := callers[id := Ended(pass, outcome)];
    }

    /** The loop of `close`: drains the queue one request at a time, without giving way. */
    method DrainQueue()
      requires |callers| == |results|
      requires forall i :: 0 <= i < |queue| ==> queue[i].id < |results|
      modifies this`queue, this`results, this`callers
      ensures queue == []
      ensures results == Drain(old(queue), old(results))
      ensures callers == WakeAll(old(queue), old(callers), pass)
    {
      ghost var all, n := queue, 0;
      NothingDrained(queue, results, callers, pass);
      hide Drain, WakeAll;
      while queue != []
        invariant n <= |all| && queue == all[n..] && |old(callers)| == |old(results)|
        invariant forall i :: 0 <= i < |all| ==> all[i].id < |old(results)|
        invariant |results| == |callers| == |old(results)|
        invariant results == Drain(all[..n], old(results))
        invariant callers == WakeAll(all[..n], old(callers), pass)
        decreases |queue|
      {
        var request := queue[0];
        queue := queue[1..];
        DrainNext(all, n, old(results), old(callers), pass);
        results := results[request.id := results[request.id] + [Cancellation]];
        if callers[request.id].Waits? {
          callers := callers[request.id := Woken(pass, false)];
        }
        n := n + 1;
      }
      assert all[..n] == all;
    }

    /** `close` itself. */
    method CloseSession()
      requires Inv(Now()) && IdsKnown(Now()) && running
      modifies this
      ensures Now() == Next(old(Now()), Close) && Inv(Now()) && IdsKnown(Now())
      ensures closed && queue == []
    {
      StepKeepsInv(Now(), Close);
      hide Drain, WakeAll, Settled;
      if closed {
        return;
      }
      closed := true;
      closedIn := pass;
      DrainQueue();
    }
  }
}
