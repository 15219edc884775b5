/** The canvas as an object whose path, pending finishes and events its run updates. */
module CanvasObject {
  import opened Text
  import opened CanvasGraph
  import opened CanvasRun
  import opened CanvasTermination
  import opened CanvasOutcome

  lemma {:induction false} AppendAllCons(path: seq<Id>, ids: seq<Id>, k: nat)
    requires path != [] && k < |ids|
    ensures AppendAll(path, ids[k..])
         == AppendAll(if path[|path| - 1] == ids[k] then path else path + [ids[k]], ids[k + 1..])
  {
    assert ids[k..][1..] == ids[k + 1..];
  }

  lemma AppendNone(path: seq<Id>, ids: seq<Id>)
    requires path != [] && ids == []
    ensures AppendAll(path, ids) == path
  {
  }

  lemma AppendOne(path: seq<Id>, id: Id)
    requires path != []
    ensures AppendAll(path, [id]) == if path[|path| - 1] == id then path else path + [id]
  {
    AppendAllCons(path, [id], 0);
    assert [id][0..] == [id] && [id][1..] == [];
  }

  lemma PruneStep(g: Graph, path: seq<Id>, i: nat)
    requires i <= |path| && Known(g, path)
    ensures Prune(g, path, i) ==
            if i == |path| then path
            else if Ready(g, path, i) then Prune(g, path, i + 1)
            else Prune(g, path[..i] + path[i + 1..], i)
  {
  }

  lemma PostStep(g: Graph, o: Oracle, st: State, i: nat, end: nat)
    requires Proper(g) && Obeys(g, o) && Known(g, st.path) && i <= end <= |st.path|
    ensures i == end ==> Post(g, o, st, i, end) == st
    ensures i < end ==>
              var next := PostOne(g, st, i, o.reading(i, st.path[i]));
              st.path <= next.path && Known(g, next.path) && Post(g, o, st, i, end) == Post(g, o, next, i + 1, end)
  {
    hide PostOne;
    if i < end {
      PostOnePath(g, o, st, i);
    }
  }

  lemma RunStep(g: Graph, o: Oracle, st: State, idx: nat, fuel: nat)
    requires Proper(g) && Obeys(g, o) && Known(g, st.path) && idx <= |st.path| && st.error == ""
    requires !Run(g, o, st, idx, fuel).2.Going?
    ensures idx == |st.path| ==>
              Run(g, o, st, idx, fuel) == (st.(events := st.events + [WorkflowFinished]), idx, Ended)
    ensures idx < |st.path| ==>
              && 0 < fuel
              && var t := Turn(g, o, st, idx);
                 Run(g, o, st, idx, fuel) == if t.2.Going? then Run(g, o, t.0, t.1, fuel - 1) else t
  {
    hide Turn;
  }

  class Canvas {
    const graph: Graph
    var path: seq<Id>
    var partials: seq<Id>
    var error: string
    var events: seq<Event>
    ghost var held: seq<Id>
    ghost var calls: seq<Id>

    ghost function Now(): State
      reads this
    {
      State(path, partials, error, events, held, calls)
    }

    constructor (g: Graph, saved: seq<Id>)
      ensures graph == g && Now() == State(saved, [], "", [], [], [])
    {
      graph := g;
      path, partials, error, events := saved, [], "", [];
      held, calls := [], [];
    }

    /** Is position `i` invoked?  Its inputs are looked up one by one. */
    method IsReady(i: nat) returns (ready: bool)
      requires i < |path| && Known(graph, path)
      ensures ready == Ready(graph, path, i)
    {
      var c := graph.components[path[i]];
      if c.kind.Begin? || c.kind.UserFillUp? {
        return true;
      }
      var k := 0;
      while k < |c.refs|
        invariant k <= |c.refs|
        invariant forall j :: 0 <= j < k && c.refs[j].name != "" ==> c.refs[j] in path[..i] || NamesFillUp(path[0])
      {
        if c.refs[k].name != "" && c.refs[k] !in path[..i] && !NamesFillUp(path[0]) {
          assert c.refs[k] in c.refs;
          return false;
        }
        k := k + 1;
      }
      ready := true;
    }

    /** `_run_batch`: pops the entries that are not ready while it walks them. */
    method RunBatch(f: nat, t: nat)
      requires f <= t == |path| && Known(graph, path)
      modifies this`path, this`calls
      ensures path == Prune(graph, old(path), f)
      ensures calls == old(calls) + path[f..]
    {
      hide Prune, Ready;
      var i, end := f, t;
      while i < end
        invariant f <= i <= end == |path| && Known(graph, path)
        invariant Prune(graph, path, i) == Prune(graph, old(path), f)
        invariant calls == old(calls) + path[f..i]
        decreases end - i
      {
        PruneStep(graph, path, i);
        var ready := IsReady(i);
        if ready {
          calls := calls + [path[i]];
          i := i + 1;
          assert path[f..i] == path[f..i - 1] + [path[i - 1]];
        } else {
          ghost var kept := path[f..i];
          path := path[..i] + path[i + 1..];
          assert path[f..i] == kept;
          end := end - 1;
        }
      }
      PruneStep(graph, path, i);
      assert path[f..i] == path[f..];
    }

    /** The branch of a message: it is sent, and the held-back finishes whose
        streams are consumed are reported from the front. */
    method Send(id: Id, r: Reading)
      modifies this`partials, this`events
      ensures Now() == Speak(Message, old(Now()), id, r)
    {
      events := events + [Said(id), MessageEnded(id)];
      ghost var n := 0;
      while partials != [] && partials[0] !in r.streams
        invariant n <= |old(partials)| && partials == old(partials)[n..]
        invariant Spent(old(partials), r.streams) == n + Spent(partials, r.streams)
        invariant events == old(events) + [Said(id), MessageEnded(id)] + Late(old(partials)[..n])
        decreases |partials|
      {
        events := events + [Finished(partials[0], true)];
        assert Spent(partials, r.streams) == 1 + Spent(partials[1..], r.streams);
        partials := partials[1..];
        n := n + 1;
        assert Late(old(partials)[..n]) == Late(old(partials)[..n - 1]) + [Finished(old(partials)[n - 1], true)];
      }
    }

    /** `_append_path`. */
    method AppendPath(id: Id, otherBranch: bool)
      requires path != []
      modifies this`path
      ensures path == if otherBranch then old(path) else AppendAll(old(path), [id])
    {
      hide AppendAll;
      AppendOne(path, id);
      if otherBranch { return; }
      if path[|path| - 1] == id { return; }
      path := path + [id];
    }

    /** `_extend_path`. */
    method ExtendPath(ids: seq<Id>, otherBranch: bool)
      requires path != []
      modifies this`path
      ensures path == if otherBranch then old(path) else AppendAll(old(path), ids)
    {
      if otherBranch { return; }
      hide AppendAll;
      var k := 0;
      assert ids[0..] == ids;
      while k < |ids|
        invariant k <= |ids| && path != []
        invariant AppendAll(path, ids[k..]) == AppendAll(old(path), ids)
      {
        AppendAllCons(path, ids, k);
        AppendOne(path, ids[k]);
        AppendPath(ids[k], otherBranch);
        k := k + 1;
      }
      AppendNone(path, ids[k..]);
    }

    /** The post-processing of position `i` after its invocation. */
    method PostProcess(i: nat, r: Reading)
      requires Proper(graph) && i < |path| && path[i] in graph.components
      modifies this
      ensures Now() == PostOne(graph, old(Now()), i, r)
    {
      var id := path[i];
      var c := graph.components[id];
      assert ProperComponent(graph, id);
      if c.kind.Message? {
        Send(id, r);
      }
      var otherBranch := false;
      if r.error != "" {
        if c.handler.Some? && c.handler.value.goto != [] {
          path := path + c.handler.value.goto;
          otherBranch := true;
        } else if c.handler.Some? && c.handler.value.hasDefault {
          events := events + [Said(id), MessageEnded(id)];
        } else {
          error := r.error;
        }
      }
      if !IsGroup(c.kind) {
        if r.streamed && error == "" {
          partials := partials + [id];
          held := held + [id];
        } else {
          events := events + [Finished(id, false)];
        }
      }
      assert Now() == Report(c.kind, Fault(c, Speak(c.kind, old(Now()), id, r), id, r), id, r);
      Schedule(id, r, otherBranch);
    }

    /** The branches by kind that choose what comes next. */
    method Schedule(id: Id, r: Reading, otherBranch: bool)
      requires id in graph.components && ProperComponent(graph, id) && path != []
      modifies this`path, this`events
      ensures Now() == Advance(graph, old(Now()), id, r, otherBranch)
    {
      hide AppendAll, Start, StartAmong, Known;
      var c := graph.components[id];
      if IsItem(c.kind) && r.ended {
        events := events + [GroupFinished(c.parent.value)];
        ExtendPath(graph.components[c.parent.value].downstream, otherBranch);
      } else if IsChoice(c.kind) {
        ExtendPath(r.next, otherBranch);
      } else if IsGroup(c.kind) {
        AppendPath(Start(graph, id).value, otherBranch);
      } else if c.kind.ExitLoop? && graph.components[c.parent.value].kind.Loop? {
        ExtendPath(graph.components[c.parent.value].downstream, otherBranch);
      } else if c.downstream == [] && c.parent.Some? && Start(graph, c.parent.value).Some? {
        AppendPath(Start(graph, c.parent.value).value, otherBranch);
      } else {
        ExtendPath(c.downstream, otherBranch);
      }
    }

    /** Announces, invokes and post-processes the batch at `idx`. */
    method Step(o: Oracle, idx: nat) returns (end: nat)
      requires Proper(graph) && Obeys(graph, o) && Known(graph, path) && idx <= |path|
      modifies this
      ensures Now() == Batch(graph, o, old(Now()), idx) && Known(graph, path)
      ensures end == |Prune(graph, old(path), idx)| <= |path|
    {
      hide Post, PostOne;
      events := events + StartEvents(path[idx..]);
      RunBatch(idx, |path|);
      end := |path|;
      assert Now() == Invoked(graph, old(Now()), idx);
      var i := idx;
      while i < end
        invariant idx <= i <= end <= |path| && Known(graph, path)
        invariant Post(graph, o, Now(), i, end) == Batch(graph, o, old(Now()), idx)
      {
        PostStep(graph, o, Now(), i, end);
        PostProcess(i, o.reading(i, path[i]));
        i := i + 1;
      }
      PostStep(graph, o, Now(), i, end);
    }

    /** `_run_impl`: batches until the path is used up, an error or a suspension.
        What an earlier run left of errors, waiting entries and events is reset.
        `bound` is any number of turns within which this run stops. */
    method RunImpl(o: Oracle, ghost bound: nat) returns (idx: nat)
      requires Proper(graph) && Obeys(graph, o) && Known(graph, path)
      requires var (st, at) := Initial(path);
               Known(graph, st.path) && !Run(graph, o, st, at, bound).2.Going?
      modifies this
      ensures var (st, at) := Initial(old(path));
              Known(graph, st.path) && Now() == Run(graph, o, st, at, bound).0 && idx == Run(graph, o, st, at, bound).1
    {
      hide Run, Batch;
      ghost var (st, at) := Initial(path);
      if Resumes(path) {
        idx := 0;
      } else {
        path := path + [BEGIN];
        idx := |path| - 1;
      }
      error, partials := "", [];
      events, held, calls := [], [], [];
      ghost var left: nat := bound;
      while idx < |path|
        invariant Known(graph, path) && idx <= |path| && error == "" && left <= bound
        invariant Run(graph, o, Now(), idx, left) == Run(graph, o, st, at, bound)
        invariant !Run(graph, o, st, at, bound).2.Going?
        decreases left
      {
        RunStep(graph, o, Now(), idx, left);
        ghost var before := Now();
        var end := Step(o, idx);
        assert Now() == Batch(graph, o, before, idx);
        if error != "" {
          path := path[..idx];
          return;
        }
        if Asks(graph, o, path, end) {
          path := Waiting(graph, path[end..]);
          events := events + [InputsAsked];
          idx := end;
          return;
        }
        idx := end;
        left := left - 1;
      }
      RunStep(graph, o, Now(), idx, left);
      path := path[..idx];
      events := events + [WorkflowFinished];
    }

    /** On an acyclic graph the run needs no bound: the components are enough turns. */
    method RunAcyclic(o: Oracle) returns (idx: nat)
      requires Proper(graph) && Obeys(graph, o) && Known(graph, path) && Acyclic(graph)
      modifies this
      ensures var (st, at) := Initial(old(path));
              && Known(graph, st.path)
              && var r := Run(graph, o, st, at, |graph.components|);
                 !r.2.Going? && Now() == r.0 && idx == r.1
    {
      hide Run;
      ghost var (st, at) := Initial(path);
      FirstBatchIsWhole(graph, path);
      AcyclicRunStops(graph, o, st, at);
      idx := RunImpl(o, |graph.components|);
    }
  }
}
