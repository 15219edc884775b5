/** How the path of a run grows, and why a run on an acyclic graph stops. */
module CanvasGrowth {
  import opened Text
  import opened CanvasGraph
  import opened CanvasRun

  /** The batches of a run end at the marks, from where it started on: every entry
      of a batch past the first is a legal successor of an entry of the batch before it. */
  ghost predicate Staged(g: Graph, path: seq<Id>, marks: seq<nat>) {
    && marks != [] && (forall i, j :: 0 <= i <= j < |marks| ==> marks[i] <= marks[j] <= |path|)
    && forall b, k :: 1 <= b < |marks| && marks[b] <= k < EndOf(path, marks, b) ==> InStage(g, path, marks, b, k)
  }

  /** Where the batch that starts at a mark ends; the last one is still pending. */
  function EndOf(path: seq<Id>, marks: seq<nat>, b: nat): nat
    requires b < |marks|
  {
    if b + 1 < |marks| then marks[b + 1] else |path|
  }

  ghost predicate InStage(g: Graph, path: seq<Id>, marks: seq<nat>, b: nat, k: nat)
    requires 1 <= b < |marks| && marks[b - 1] <= marks[b] <= |path| && k < |path|
  {
    Follows(g, path, marks[b - 1], marks[b], path[k])
  }

  lemma FollowsInLonger(g: Graph, path: seq<Id>, longer: seq<Id>, i: nat, end: nat, id: Id)
    requires i <= end <= |path| && end <= |longer| && (forall j :: i <= j < end ==> longer[j] == path[j])
    requires Follows(g, path, i, end, id)
    ensures Follows(g, longer, i, end, id)
  {
    var j :| i <= j < end && Successor(g, path[j], id);
    assert Successor(g, longer[j], id);
  }

  function Last(marks: seq<nat>): nat
    requires marks != []
  {
    marks[|marks| - 1]
  }

  /** An entry stands in a path from a position on. */
  ghost predicate StandsFrom(path: seq<Id>, from: nat, id: Id) {
    exists p :: from <= p < |path| && path[p] == id
  }

  /** Dropping entries behind the last mark leaves the stages alone. */
  lemma StagesSurvive(g: Graph, path: seq<Id>, other: seq<Id>, marks: seq<nat>)
    requires Staged(g, path, marks) && Last(marks) <= |other|
    requires forall k :: 0 <= k < Last(marks) ==> other[k] == path[k]
    requires forall k :: Last(marks) <= k < |other| ==> StandsFrom(path, Last(marks), other[k])
    ensures Staged(g, other, marks)
  {
    hide Follows;
    forall b, k | 1 <= b < |marks| && marks[b] <= k < EndOf(other, marks, b)
      ensures InStage(g, other, marks, b, k)
    {
      if k < Last(marks) {
        assert marks[b] <= k < EndOf(path, marks, b);
        assert InStage(g, path, marks, b, k);
        FollowsInLonger(g, path, other, marks[b - 1], marks[b], path[k]);
      } else {
        assert StandsFrom(path, Last(marks), other[k]);
        var p :| Last(marks) <= p < |path| && path[p] == other[k];
        assert InStage(g, path, marks, b, p);
        FollowsInLonger(g, path, other, marks[b - 1], marks[b], path[p]);
      }
    }
  }

  lemma PruneKeepsStages(g: Graph, path: seq<Id>, marks: seq<nat>)
    requires Known(g, path) && Staged(g, path, marks)
    ensures Last(marks) <= |path| && Staged(g, Prune(g, path, Last(marks)), marks)
  {
    hide Staged, Prune, Known;
    MarksFit(g, path, marks);
    var kept := Prune(g, path, Last(marks));
    forall k | Last(marks) <= k < |kept|
      ensures StandsFrom(path, Last(marks), kept[k])
    {
      var p := PruneFrom(g, path, Last(marks), k);
    }
    StagesSurvive(g, path, kept, marks);
  }

  lemma MarksFit(g: Graph, path: seq<Id>, marks: seq<nat>)
    requires Staged(g, path, marks)
    ensures marks != [] && Last(marks) <= |path|
  {
  }

  /** Once a batch is done its end is a mark, and what it appended a stage. */
  lemma GrowthAddsStage(g: Graph, kept: seq<Id>, next: seq<Id>, marks: seq<nat>)
    requires Staged(g, kept, marks) && kept <= next && Last(marks) <= |kept|
    requires forall k :: |kept| <= k < |next| ==> Follows(g, kept, Last(marks), |kept|, next[k])
    ensures Staged(g, next, marks + [|kept|])
  {
    hide Follows;
    var more := marks + [|kept|];
    forall b, k | 1 <= b < |more| && more[b] <= k < EndOf(next, more, b)
      ensures InStage(g, next, more, b, k)
    {
      if b < |marks| {
        assert marks[b] <= k < EndOf(kept, marks, b);
        assert InStage(g, kept, marks, b, k);
        FollowsInLonger(g, kept, next, marks[b - 1], marks[b], kept[k]);
      } else {
        FollowsInLonger(g, kept, next, Last(marks), |kept|, next[k]);
      }
    }
  }

  lemma BatchAddsStage(g: Graph, o: Oracle, st: State, marks: seq<nat>)
    requires Proper(g) && Obeys(g, o) && Known(g, st.path) && Staged(g, st.path, marks)
    ensures Last(marks) <= |st.path|
    ensures Prune(g, st.path, Last(marks)) <= Batch(g, o, st, Last(marks)).path
    ensures Staged(g, Batch(g, o, st, Last(marks)).path, marks + [|Prune(g, st.path, Last(marks))|])
  {
    hide Batch, Prune, Staged, Follows;
    MarksFit(g, st.path, marks);
    BatchGrows(g, o, st, Last(marks));
    PruneKeepsStages(g, st.path, marks);
    GrowthAddsStage(g, Prune(g, st.path, Last(marks)), Batch(g, o, st, Last(marks)).path, marks);
  }

  /** A turn that goes on keeps the executed prefix; a failing one cuts back to it. */
  lemma TurnKeeps(g: Graph, o: Oracle, st: State, idx: nat)
    requires Proper(g) && Obeys(g, o) && Known(g, st.path) && idx < |st.path| && st.error == ""
    ensures var r := Turn(g, o, st, idx);
            !r.2.Suspended? ==> idx <= r.1 <= |r.0.path| && Begins(st.path, r.0.path, idx)
  {
    hide Batch;
    BatchGrows(g, o, st, idx);
    var kept := Prune(g, st.path, idx);
    forall k | 0 <= k < idx
      ensures Batch(g, o, st, idx).path[k] == st.path[k]
    {
      assert Batch(g, o, st, idx).path[k] == kept[k];
    }
  }

  /** The first `n` entries of a path are those of another, in place. */
  ghost predicate Begins(path: seq<Id>, next: seq<Id>, n: nat) {
    n <= |path| && n <= |next| && forall k :: 0 <= k < n ==> next[k] == path[k]
  }

  /** In every run up to suspension, what was executed before a point stays, in
      place, for ever after it. */
  lemma {:induction false} ExecutedStays(g: Graph, o: Oracle, st: State, idx: nat, fuel: nat)
    requires Proper(g) && Obeys(g, o) && Known(g, st.path) && idx <= |st.path| && st.error == ""
    ensures var r := Run(g, o, st, idx, fuel);
            !r.2.Suspended? ==> idx <= r.1 <= |r.0.path| && Begins(st.path, r.0.path, idx)
    decreases fuel
  {
    hide Turn;
    if idx < |st.path| && fuel > 0 {
      TurnKeeps(g, o, st, idx);
      var t := Turn(g, o, st, idx);
      if t.2.Going? {
        ExecutedStays(g, o, t.0, t.1, fuel - 1);
      }
    }
  }

  lemma TurnAddsStage(g: Graph, o: Oracle, st: State, marks: seq<nat>)
    requires Proper(g) && Obeys(g, o) && Known(g, st.path) && st.error == ""
    requires Staged(g, st.path, marks) && Last(marks) < |st.path|
    ensures var r := Turn(g, o, st, Last(marks));
            && (r.2.Going? ==> Staged(g, r.0.path, marks + [r.1]))
            && (r.2.Failed? ==> r.1 == Last(marks) && Staged(g, r.0.path, marks))
  {
    hide Batch, Staged, Prune;
    MarksFit(g, st.path, marks);
    BatchAddsStage(g, o, st, marks);
    TurnKeeps(g, o, st, Last(marks));
    var r := Turn(g, o, st, Last(marks));
    if r.2.Failed? {
      assert r.0.path == st.path[..Last(marks)];
      StagesSurvive(g, st.path, r.0.path, marks);
    }
  }

  /** In every run up to suspension the path comes in batches, each entry past the
      first batch a legal successor of an entry in the batch before it, although
      pending entries are popped. */
  lemma {:induction false} RunStages(g: Graph, o: Oracle, st: State, marks: seq<nat>, fuel: nat)
      returns (more: seq<nat>)
    requires Proper(g) && Obeys(g, o) && Known(g, st.path) && st.error == ""
    requires Staged(g, st.path, marks) && Last(marks) <= |st.path|
    ensures var r := Run(g, o, st, Last(marks), fuel);
            !r.2.Suspended? ==> marks <= more && Staged(g, r.0.path, more) && Last(more) == r.1
    decreases fuel
  {
    hide Turn, Staged;
    MarksFit(g, st.path, marks);
    more := marks;
    if Last(marks) < |st.path| && fuel > 0 {
      TurnAddsStage(g, o, st, marks);
      TurnKeeps(g, o, st, Last(marks));
      var t := Turn(g, o, st, Last(marks));
      if t.2.Going? {
        MarksFit(g, t.0.path, marks + [t.1]);
        more := RunStages(g, o, t.0, marks + [t.1], fuel - 1);
      }
    }
    StagedMarks(g, Run(g, o, st, Last(marks), fuel).0.path, more);
  }

  lemma StagedMarks(g: Graph, path: seq<Id>, marks: seq<nat>)
    ensures Staged(g, path, marks) ==> marks != []
  {
  }
}
