/** One run of a canvas: batches of components, the path they grow, the events
    they emit. */
module CanvasRun {
  import opened Text
  import opened CanvasGraph

  /** What the loop reads of a component after its invocation: its error text,
      whether its content is still an unconsumed stream, the targets a choice
      picked, whether an item says its group has ended, and which components still
      have an unconsumed stream once the message it may be is sent. */
  datatype Reading = Reading(error: string, streamed: bool, next: seq<Id>, ended: bool, streams: set<Id>)

  /** The components' behaviour: a reading for each position and component, and
      whether fill-up inputs are still missing when the batches reach an index. */
  datatype Oracle = Oracle(reading: (nat, Id) -> Reading, unmet: nat -> bool)

  /** A choice picks among its configured targets. */
  ghost predicate Obeys(g: Graph, o: Oracle) {
    forall i, id :: id in g.components && IsChoice(g.components[id].kind) ==>
      forall n :: n in o.reading(i, id).next ==> n in g.components[id].targets
  }

  datatype Event =
    | Started(id: Id)
    | Said(id: Id)
    | MessageEnded(id: Id)
    | Finished(id: Id, late: bool)
    | GroupFinished(id: Id)
    | InputsAsked
    | WorkflowFinished

  /** The state of a run.  `held` and `calls` only record: every component whose
      finish event was ever held back, and every component invoked. */
  datatype State = State(
    path: seq<Id>,
    partials: seq<Id>,
    error: string,
    events: seq<Event>,
    held: seq<Id>,
    calls: seq<Id>)

  // ----- One batch: invocation -----

  /** Everything position `i` refers to stands before it. */
  predicate Fed(g: Graph, path: seq<Id>, i: nat)
    requires i < |path| && Known(g, path)
  {
    var c := g.components[path[i]];
    c.kind.Begin? || c.kind.UserFillUp? || forall r :: r in c.refs && r.name != "" ==> r in path[..i]
  }

  /** Position `i` is invoked: a resumed run does not look at the inputs. */
  predicate Ready(g: Graph, path: seq<Id>, i: nat)
    requires i < |path| && Known(g, path)
  {
    Fed(g, path, i) || NamesFillUp(path[0])
  }

  /** The path once the entries from `i` on whose inputs are missing are dropped. */
  function Prune(g: Graph, path: seq<Id>, i: nat): (r: seq<Id>)
    requires i <= |path| && Known(g, path)
    ensures i <= |r| <= |path| && Known(g, r)
    ensures forall k :: 0 <= k < i ==> r[k] == path[k]
    decreases |path| - i
  {
    if i == |path| then path
    else if Ready(g, path, i) then Prune(g, path, i + 1)
    else Prune(g, path[..i] + path[i + 1..], i)
  }

  /** Nothing new appears: an entry that stays was there. */
  lemma {:induction false} PruneFrom(g: Graph, path: seq<Id>, i: nat, k: nat) returns (p: nat)
    requires i <= |path| && Known(g, path) && i <= k < |Prune(g, path, i)|
    ensures i <= p < |path| && path[p] == Prune(g, path, i)[k]
    decreases |path| - i
  {
    if Ready(g, path, i) {
      if k == i {
        p := i;
      } else {
        p := PruneFrom(g, path, i + 1, k);
      }
    } else {
      p := PruneFrom(g, path[..i] + path[i + 1..], i, k);
      p := p + 1;
    }
  }

  // ----- One batch: post-processing -----

  function Late(ids: seq<Id>): (r: seq<Event>)
    ensures |r| == |ids|
  {
    seq(|ids|, i requires 0 <= i < |ids| => Finished(ids[i], true))
  }

  /** How many of the waiting entries, from the front, have been consumed. */
  function Spent(waiting: seq<Id>, streams: set<Id>): (n: nat)
    ensures n <= |waiting|
  {
    if waiting == [] || waiting[0] in streams then 0 else 1 + Spent(waiting[1..], streams)
  }

  /** A message is sent, and the streams it consumed are reported as finished. */
  function Speak(kind: Kind, st: State, id: Id, r: Reading): State {
    if !kind.Message? then st
    else
      var n := Spent(st.partials, r.streams);
      st.(events := st.events + [Said(id), MessageEnded(id)] + Late(st.partials[..n]),
          partials := st.partials[n..])
  }

  predicate Jumps(c: Component, r: Reading) {
    r.error != "" && c.handler.Some? && c.handler.value.goto != []
  }

  function Fault(c: Component, st: State, id: Id, r: Reading): State {
    if r.error == "" then st
    else if Jumps(c, r) then st.(path := st.path + c.handler.value.goto)
    else if c.handler.Some? && c.handler.value.hasDefault then st.(events := st.events + [Said(id), MessageEnded(id)])
    else st.(error := r.error)
  }

  function Report(kind: Kind, st: State, id: Id, r: Reading): State {
    if IsGroup(kind) then st
    else if r.streamed && st.error == "" then st.(partials := st.partials + [id], held := st.held + [id])
    else st.(events := st.events + [Finished(id, false)])
  }

  /** The components a processed one asks for. */
  function Offers(g: Graph, id: Id, r: Reading): seq<Id>
    requires id in g.components && ProperComponent(g, id)
  {
    var c := g.components[id];
    if IsItem(c.kind) && r.ended then g.components[c.parent.value].downstream
    else if IsChoice(c.kind) then r.next
    else if IsGroup(c.kind) then [Start(g, id).value]
    else if c.kind.ExitLoop? && g.components[c.parent.value].kind.Loop? then g.components[c.parent.value].downstream
    else if c.downstream == [] && c.parent.Some? && Start(g, c.parent.value).Some? then [Start(g, c.parent.value).value]
    else c.downstream
  }

  /** `_extend_path`: skips an id that the path already ends with. */
  function AppendAll(path: seq<Id>, ids: seq<Id>): (r: seq<Id>)
    requires path != []
    ensures path <= r
    ensures forall k :: |path| <= k < |r| ==> r[k] in ids
    decreases |ids|
  {
    if ids == [] then path
    else if path[|path| - 1] == ids[0] then AppendAll(path, ids[1..])
    else AppendAll(path + [ids[0]], ids[1..])
  }

  function Advance(g: Graph, st: State, id: Id, r: Reading, jumped: bool): State
    requires id in g.components && ProperComponent(g, id) && st.path != []
  {
    var c := g.components[id];
    var told := if IsItem(c.kind) && r.ended then [GroupFinished(c.parent.value)] else [];
    st.(events := st.events + told,
        path := if jumped then st.path else AppendAll(st.path, Offers(g, id, r)))
  }

  /** The post-processing of one position. */
  function PostOne(g: Graph, st: State, i: nat, r: Reading): State
    requires Proper(g) && i < |st.path| && st.path[i] in g.components
  {
    var id := st.path[i];
    var c := g.components[id];
    var spoken := Speak(c.kind, st, id, r);
    var reported := Report(c.kind, Fault(c, spoken, id, r), id, r);
    Advance(g, reported, id, r, Jumps(c, r))
  }

  /** What processing one position does to the path. */
  lemma PostOnePath(g: Graph, o: Oracle, st: State, i: nat)
    requires Proper(g) && Obeys(g, o) && Known(g, st.path) && i < |st.path|
    ensures (var next := PostOne(g, st, i, o.reading(i, st.path[i])).path;
             && st.path <= next && Known(g, next)
             && (forall k :: |st.path| <= k < |next| ==> Successor(g, st.path[i], next[k])))
  {
    var id := st.path[i];
    var r := o.reading(i, id);
    var c := g.components[id];
    assert ProperComponent(g, id);
    var next := PostOne(g, st, i, r).path;
    forall k | |st.path| <= k < |next|
      ensures Successor(g, id, next[k]) && next[k] in g.components
    {
      if Jumps(c, r) {
        assert next[k] in c.handler.value.goto;
      } else {
        assert next[k] in Offers(g, id, r);
        OffersAreSuccessors(g, o, i, id, next[k]);
      }
      SuccessorKnown(g, id, next[k]);
    }
  }

  lemma OffersAreSuccessors(g: Graph, o: Oracle, i: nat, id: Id, next: Id)
    requires Proper(g) && Obeys(g, o) && id in g.components && next in Offers(g, id, o.reading(i, id))
    ensures Successor(g, id, next)
  {
    assert ProperComponent(g, id);
  }

  /** The post-processing of the positions from `i` up to `end`. */
  function Post(g: Graph, o: Oracle, st: State, i: nat, end: nat): State
    requires Proper(g) && Obeys(g, o) && Known(g, st.path) && i <= end <= |st.path|
    decreases end - i
  {
    if i == end then st
    else
      PostOnePath(g, o, st, i);
      Post(g, o, PostOne(g, st, i, o.reading(i, st.path[i])), i + 1, end)
  }

  function StartEvents(ids: seq<Id>): (r: seq<Event>)
    ensures |r| == |ids|
  {
    seq(|ids|, i requires 0 <= i < |ids| => Started(ids[i]))
  }

  /** The state after the entries of the batch at `idx` are announced and invoked. */
  function Invoked(g: Graph, st: State, idx: nat): State
    requires Known(g, st.path) && idx <= |st.path|
  {
    var kept := Prune(g, st.path, idx);
    st.(path := kept, events := st.events + StartEvents(st.path[idx..]), calls := st.calls + kept[idx..])
  }

  /** A whole batch. */
  function Batch(g: Graph, o: Oracle, st: State, idx: nat): State
    requires Proper(g) && Obeys(g, o) && Known(g, st.path) && idx <= |st.path|
  {
    Post(g, o, Invoked(g, st, idx), idx, |Prune(g, st.path, idx)|)
  }

  // ----- The loop -----

  datatype Status = Going | Ended | Failed | Suspended

  predicate IsFillUp(g: Graph, id: Id) {
    id in g.components && g.components[id].kind.UserFillUp?
  }

  function FillUps(g: Graph, ids: seq<Id>): seq<Id> {
    if ids == [] then []
    else FillUps(g, ids[..|ids| - 1]) + (if IsFillUp(g, ids[|ids| - 1]) then [ids[|ids| - 1]] else [])
  }

  function Others(g: Graph, ids: seq<Id>): seq<Id> {
    if ids == [] then []
    else
      var last := ids[|ids| - 1];
      Others(g, ids[..|ids| - 1]) + (if last in g.components && !IsFillUp(g, last) then [last] else [])
  }

  /** The path kept while waiting for the user: fill-ups first. */
  function Waiting(g: Graph, pending: seq<Id>): seq<Id> {
    FillUps(g, pending) + Others(g, pending)
  }

  predicate Asks(g: Graph, o: Oracle, path: seq<Id>, idx: nat)
    requires idx <= |path|
  {
    (exists id :: id in path[idx..] && IsFillUp(g, id)) && o.unmet(idx)
  }

  /** One turn of the loop: the state, the new index and whether the run goes on. */
  function Turn(g: Graph, o: Oracle, st: State, idx: nat): (r: (State, nat, Status))
    requires Proper(g) && Obeys(g, o) && Known(g, st.path) && idx < |st.path| && st.error == ""
    ensures r.2.Going? ==> r.1 <= |r.0.path| && Known(g, r.0.path) && r.0.error == ""
    ensures !r.2.Ended?
  {
    var end := |Prune(g, st.path, idx)|;
    hide Batch;
    var done := Batch(g, o, st, idx);
    BatchGrows(g, o, st, idx);
    if done.error != "" then (done.(path := done.path[..idx]), idx, Failed)
    else if Asks(g, o, done.path, end) then
      (done.(path := Waiting(g, done.path[end..]), events := done.events + [InputsAsked]), end, Suspended)
    else (done, end, Going)
  }

  /** Some entry between two positions has a component as successor. */
  predicate Follows(g: Graph, path: seq<Id>, i: nat, end: nat, id: Id)
    requires i <= end <= |path|
  {
    exists j :: i <= j < end && Successor(g, path[j], id)
  }

  /** A batch keeps the executed prefix and adds only successors of its own entries. */
  lemma BatchGrows(g: Graph, o: Oracle, st: State, idx: nat)
    requires Proper(g) && Obeys(g, o) && Known(g, st.path) && idx <= |st.path|
    ensures (var kept, next := Prune(g, st.path, idx), Batch(g, o, st, idx).path;
             && kept <= next && Known(g, next)
             && (forall k :: |kept| <= k < |next| ==> Follows(g, kept, idx, |kept|, next[k])))
  {
    PostGrows(g, o, Invoked(g, st, idx), idx, |Prune(g, st.path, idx)|);
  }

  lemma {:induction false} PostGrows(g: Graph, o: Oracle, st: State, i: nat, end: nat)
    requires Proper(g) && Obeys(g, o) && Known(g, st.path) && i <= end <= |st.path|
    ensures (var next := Post(g, o, st, i, end).path;
             && st.path <= next && Known(g, next)
             && (forall k :: |st.path| <= k < |next| ==> Follows(g, st.path, i, end, next[k])))
    decreases end - i
  {
    hide PostOne, Proper, Obeys, Successor, Follows;
    if i < end {
      var one := PostOne(g, st, i, o.reading(i, st.path[i]));
      PostOnePath(g, o, st, i);
      PostGrows(g, o, one, i + 1, end);
      FollowsJoined(g, st.path, one.path, Post(g, o, st, i, end).path, i, end);
    }
  }

  /** What follows the position itself, or a later one once the path has grown. */
  lemma FollowsJoined(g: Graph, path: seq<Id>, one: seq<Id>, next: seq<Id>, i: nat, end: nat)
    requires i < end <= |path| && path <= one <= next
    requires forall k :: |path| <= k < |one| ==> Successor(g, path[i], one[k])
    requires forall k :: |one| <= k < |next| ==> Follows(g, one, i + 1, end, next[k])
    ensures forall k :: |path| <= k < |next| ==> Follows(g, path, i, end, next[k])
  {
    hide Successor;
    forall k | |path| <= k < |next| ensures Follows(g, path, i, end, next[k]) {
      if k < |one| {
        assert Successor(g, path[i], next[k]);
      } else {
        assert Follows(g, one, i + 1, end, next[k]);
        var j :| i + 1 <= j < end && Successor(g, one[j], next[k]);
        assert path[j] == one[j];
      }
    }
  }

  /** At most `fuel` turns from a state. */
  function Run(g: Graph, o: Oracle, st: State, idx: nat, fuel: nat): (State, nat, Status)
    requires Proper(g) && Obeys(g, o) && Known(g, st.path) && idx <= |st.path| && st.error == ""
    decreases fuel
  {
    if idx == |st.path| then (st.(events := st.events + [WorkflowFinished]), idx, Ended)
    else if fuel == 0 then (st, idx, Going)
    else
      var (next, end, status) := Turn(g, o, st, idx);
      if status.Going? then Run(g, o, next, end, fuel - 1) else (next, end, status)
  }

  predicate Resumes(path: seq<Id>) {
    path != [] && NamesFillUp(path[0])
  }

  /** The state and index a run starts from: a new run appends `begin`. */
  function Initial(path: seq<Id>): (State, nat) {
    if Resumes(path) then (State(path, [], "", [], [], []), 0)
    else (State(path + [BEGIN], [], "", [], [], []), |path|)
  }
}
