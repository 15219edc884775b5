/** What path a run leaves behind: after an end, an error, a suspension. */
module CanvasOutcome {
  import opened Text
  import opened CanvasGraph
  import opened CanvasRun
  import opened CanvasGrowth
  import opened CanvasLedger
  import opened CanvasReadiness

  // ----- Ends and errors -----

  lemma TurnCalls(g: Graph, o: Oracle, st: State, idx: nat)
    requires Proper(g) && Obeys(g, o) && Known(g, st.path) && idx < |st.path| && st.error == ""
    ensures var r := Turn(g, o, st, idx);
            && (r.2.Going? ==> idx <= r.1 <= |r.0.path| && r.0.calls == st.calls + r.0.path[idx..r.1])
            && (r.2.Failed? ==> r.1 == idx && r.0.path == st.path[..idx] && st.calls <= r.0.calls && r.0.error != "")
  {
    hide Batch, Known;
    BatchGrows(g, o, st, idx);
    BatchCalls(g, o, st, idx);
    var kept, done := Prune(g, st.path, idx), Batch(g, o, st, idx);
    assert done.path[idx..|kept|] == kept[idx..];
  }

  lemma BatchCalls(g: Graph, o: Oracle, st: State, idx: nat)
    requires Proper(g) && Obeys(g, o) && Known(g, st.path) && idx <= |st.path|
    ensures Batch(g, o, st, idx).calls == st.calls + Prune(g, st.path, idx)[idx..]
  {
    hide Post;
    PostMoves(g, o, Invoked(g, st, idx), idx, |Prune(g, st.path, idx)|);
  }

  /** The calls of a run are the entries of its path, from where it started. */
  lemma {:induction false} RunCalls(g: Graph, o: Oracle, st: State, idx: nat, fuel: nat)
    requires Proper(g) && Obeys(g, o) && Known(g, st.path) && idx <= |st.path| && st.error == ""
    ensures var r := Run(g, o, st, idx, fuel);
            && (r.2.Going? || r.2.Ended? ==>
                  idx <= r.1 <= |r.0.path| && r.0.calls == st.calls + r.0.path[idx..r.1])
            && (r.2.Ended? ==> r.1 == |r.0.path| && r.0.error == "")
    decreases fuel
  {
    hide Turn;
    if idx == |st.path| || fuel == 0 {
      assert st.path[idx..idx] == [];
    } else {
      TurnCalls(g, o, st, idx);
      TurnKeeps(g, o, st, idx);
      var t := Turn(g, o, st, idx);
      if t.2.Going? {
        RunCalls(g, o, t.0, t.1, fuel - 1);
        ExecutedStays(g, o, t.0, t.1, fuel - 1);
        var r := Run(g, o, t.0, t.1, fuel - 1);
        if r.2.Going? || r.2.Ended? {
          assert r.0.path[idx..r.1] == t.0.path[idx..t.1] + r.0.path[t.1..r.1];
        }
      }
    }
  }

  /** A clean end leaves what was there before the run and then every component
      it invoked, with nothing pending. */
  lemma CleanEnd(g: Graph, o: Oracle, st: State, idx: nat, fuel: nat)
    requires Proper(g) && Obeys(g, o) && Known(g, st.path) && idx <= |st.path| && st.error == "" && st.calls == []
    requires Run(g, o, st, idx, fuel).2.Ended?
    ensures Run(g, o, st, idx, fuel).0.path == st.path[..idx] + Run(g, o, st, idx, fuel).0.calls
  {
    hide Run;
    RunCalls(g, o, st, idx, fuel);
    ExecutedStays(g, o, st, idx, fuel);
    var last := Run(g, o, st, idx, fuel).0;
    assert last.path == last.path[..idx] + last.path[idx..];
    assert last.path[..idx] == st.path[..idx];
    assert st.calls + last.path[idx..] == last.path[idx..];
  }

  /** An error leaves the path of the batches completed before the failing one:
      it is where some number of turns had got to, cut to what they executed. */
  lemma {:induction false} ErrorEnd(g: Graph, o: Oracle, st: State, idx: nat, fuel: nat) returns (n: nat)
    requires Proper(g) && Obeys(g, o) && Known(g, st.path) && idx <= |st.path| && st.error == ""
    requires Run(g, o, st, idx, fuel).2.Failed?
    ensures n < fuel && Run(g, o, st, idx, n).2.Going?
    ensures var r, before := Run(g, o, st, idx, fuel), Run(g, o, st, idx, n);
            && r.1 == before.1 <= |before.0.path| && r.0.path == before.0.path[..before.1]
            && before.0.calls <= r.0.calls && r.0.error != ""
    decreases fuel
  {
    hide Turn;
    TurnCalls(g, o, st, idx);
    var t := Turn(g, o, st, idx);
    if t.2.Failed? {
      n := 0;
    } else {
      n := ErrorEnd(g, o, t.0, t.1, fuel - 1);
      n := n + 1;
    }
  }

  // ----- Suspension -----

  lemma {:induction false} FillUpsAre(g: Graph, pending: seq<Id>)
    ensures forall k :: 0 <= k < |FillUps(g, pending)| ==> IsFillUp(g, FillUps(g, pending)[k])
    ensures (exists k :: 0 <= k < |pending| && IsFillUp(g, pending[k])) ==> FillUps(g, pending) != []
  {
    hide IsFillUp;
    if pending != [] {
      FillUpsAre(g, pending[..|pending| - 1]);
    }
  }

  lemma {:induction false} OthersAre(g: Graph, pending: seq<Id>)
    ensures forall k :: 0 <= k < |Others(g, pending)| ==>
              Others(g, pending)[k] in g.components && !IsFillUp(g, Others(g, pending)[k])
  {
    hide IsFillUp;
    if pending != [] {
      OthersAre(g, pending[..|pending| - 1]);
    }
  }

  lemma WaitingStep(g: Graph, pending: seq<Id>)
    requires pending != [] && Known(g, pending)
    ensures var rest, last := pending[..|pending| - 1], pending[|pending| - 1];
            if IsFillUp(g, last) then
              FillUps(g, pending) == FillUps(g, rest) + [last] && Others(g, pending) == Others(g, rest)
            else FillUps(g, pending) == FillUps(g, rest) && Others(g, pending) == Others(g, rest) + [last]
  {
    hide IsFillUp;
    var rest := pending[..|pending| - 1];
    assert FillUps(g, rest) + [] == FillUps(g, rest) && Others(g, rest) + [] == Others(g, rest);
  }

  lemma {:induction false} WaitingHasAll(g: Graph, pending: seq<Id>)
    requires Known(g, pending)
    ensures multiset(FillUps(g, pending)) + multiset(Others(g, pending)) == multiset(pending)
  {
    hide IsFillUp;
    if pending == [] {
    } else {
      hide FillUps, Others;
      var rest, last := pending[..|pending| - 1], pending[|pending| - 1];
      WaitingHasAll(g, rest);
      assert pending == rest + [last];
      WaitingStep(g, pending);
    }
  }

  lemma WaitingKnown(g: Graph, pending: seq<Id>)
    requires Known(g, pending)
    ensures Known(g, Waiting(g, pending))
  {
    FillUpsAre(g, pending);
    OthersAre(g, pending);
  }

  lemma {:induction false} AllFillUps(g: Graph, ids: seq<Id>)
    requires forall k :: 0 <= k < |ids| ==> IsFillUp(g, ids[k])
    ensures FillUps(g, ids) == ids && Others(g, ids) == []
  {
    if ids != [] {
      AllFillUps(g, ids[..|ids| - 1]);
    }
  }

  lemma {:induction false} NoFillUps(g: Graph, ids: seq<Id>)
    requires forall k :: 0 <= k < |ids| ==> ids[k] in g.components && !IsFillUp(g, ids[k])
    ensures FillUps(g, ids) == [] && Others(g, ids) == ids
  {
    if ids != [] {
      NoFillUps(g, ids[..|ids| - 1]);
    }
  }

  lemma {:induction false} SplitAppend(g: Graph, a: seq<Id>, b: seq<Id>)
    ensures FillUps(g, a + b) == FillUps(g, a) + FillUps(g, b)
    ensures Others(g, a + b) == Others(g, a) + Others(g, b)
  {
    hide IsFillUp;
    if b == [] {
      assert a + b == a;
    } else {
      SplitAppend(g, a, b[..|b| - 1]);
      assert (a + b)[..|a + b| - 1] == a + b[..|b| - 1];
      assert (a + b)[|a + b| - 1] == b[|b| - 1];
    }
  }

  lemma FillUpsFirst(g: Graph, pending: seq<Id>)
    requires Known(g, pending)
    ensures Known(g, Waiting(g, pending))
    ensures forall i, j :: 0 <= i < j < |Waiting(g, pending)| ==>
              g.components[Waiting(g, pending)[j]].kind == UserFillUp ==>
              g.components[Waiting(g, pending)[i]].kind == UserFillUp
  {
    hide FillUps, Others;
    FillUpsAre(g, pending);
    OthersAre(g, pending);
    WaitingKnown(g, pending);
    var first, second := FillUps(g, pending), Others(g, pending);
    forall k | 0 <= k < |first + second|
      ensures g.components[(first + second)[k]].kind == UserFillUp <==> k < |first|
    {
      assert (first + second)[k] == if k < |first| then first[k] else second[k - |first|];
    }
  }

  /** The saved path is a stable partition of the pending entries: the same
      entries, fill-ups first, each class in its old order. */
  lemma WaitingIsStablePartition(g: Graph, pending: seq<Id>)
    requires Known(g, pending)
    ensures multiset(Waiting(g, pending)) == multiset(pending)
    ensures Known(g, Waiting(g, pending))
    ensures forall i, j :: 0 <= i < j < |Waiting(g, pending)| ==>
              g.components[Waiting(g, pending)[j]].kind == UserFillUp ==>
              g.components[Waiting(g, pending)[i]].kind == UserFillUp
    ensures FillUps(g, Waiting(g, pending)) == FillUps(g, pending)
    ensures Others(g, Waiting(g, pending)) == Others(g, pending)
  {
    hide FillUps, Others, IsFillUp;
    var first, second := FillUps(g, pending), Others(g, pending);
    WaitingHasAll(g, pending);
    FillUpsAre(g, pending);
    OthersAre(g, pending);
    FillUpsFirst(g, pending);
    SplitAppend(g, first, second);
    AllFillUps(g, first);
    NoFillUps(g, second);
  }

  lemma {:induction false} ResumedPopsNone(g: Graph, path: seq<Id>, i: nat)
    requires i <= |path| && Known(g, path) && Resumes(path)
    ensures Prune(g, path, i) == path
    decreases |path| - i
  {
    if i < |path| {
      ResumedPopsNone(g, path, i + 1);
    }
  }

  /** The first batch of a run pops nothing: it is the whole saved path of a
      resumed run, and just the begin of a new one. */
  lemma FirstBatchIsWhole(g: Graph, path: seq<Id>)
    requires Proper(g) && Known(g, path)
    ensures var (st, idx) := Initial(path);
            && Known(g, st.path) && idx < |st.path| && st.error == "" && Prune(g, st.path, idx) == st.path
            && Invoked(g, st, idx).calls == if Resumes(path) then path else [BEGIN]
  {
    if Resumes(path) {
      ResumedPopsNone(g, path, 0);
    } else {
      assert Prune(g, path + [BEGIN], |path| + 1) == path + [BEGIN];
    }
  }

  lemma TurnSuspends(g: Graph, o: Oracle, st: State, idx: nat)
    requires Proper(g) && Obeys(g, o) && Known(g, st.path) && idx < |st.path| && st.error == ""
    requires Turn(g, o, st, idx).2.Suspended?
    ensures var saved, done, end := Turn(g, o, st, idx).0.path, Batch(g, o, st, idx).path, |Prune(g, st.path, idx)|;
            && end <= |done| && Known(g, done[end..]) && saved == Waiting(g, done[end..])
            && saved != [] && IsFillUp(g, saved[0]) && Known(g, saved)
  {
    hide Batch, IsFillUp, FillUps, Others, Prune;
    BatchGrows(g, o, st, idx);
    var done, end := Batch(g, o, st, idx).path, |Prune(g, st.path, idx)|;
    var pending := done[end..];
    forall k | 0 <= k < |pending| ensures pending[k] in g.components {
      assert pending[k] == done[end + k];
    }
    WaitingKnown(g, pending);
    FillUpsAre(g, pending);
    var id :| id in pending && IsFillUp(g, id);
    assert exists k :: 0 <= k < |pending| && IsFillUp(g, pending[k]);
  }

  /** Suspension loses nothing: when the ids of fill-ups carry the type name, the
      next run resumes, and its first batch invokes every saved entry. */
  lemma SuspensionResumes(g: Graph, o: Oracle, st: State, idx: nat)
    requires Proper(g) && Obeys(g, o) && Known(g, st.path) && idx < |st.path| && st.error == ""
    requires Turn(g, o, st, idx).2.Suspended?
    ensures var saved, done, end := Turn(g, o, st, idx).0.path, Batch(g, o, st, idx).path, |Prune(g, st.path, idx)|;
            && end <= |done| && multiset(saved) == multiset(done[end..]) && saved != [] && Known(g, saved)
            && var (again, at) := Initial(saved);
               && Known(g, again.path) && at <= |again.path|
               && (Invoked(g, again, at).calls == saved <==> NamesFillUp(saved[0]))
               && (NamesFillUp(saved[0]) ==> at == 0 && Prune(g, saved, 0) == saved)
  {
    hide Turn, Batch;
    TurnSuspends(g, o, st, idx);
    var saved := Turn(g, o, st, idx).0.path;
    var done, end := Batch(g, o, st, idx).path, |Prune(g, st.path, idx)|;
    WaitingIsStablePartition(g, done[end..]);
    FirstBatchIsWhole(g, saved);
    if !NamesFillUp(saved[0]) {
      assert saved != [BEGIN];
    }
  }

  // ----- A whole run -----

  lemma BeginIsNoFillUp()
    ensures !NamesFillUp(BEGIN)
  {
  }

  /** Any run of any saved path: finish events are conserved; and up to suspension
      what was executed stays, the run's part of the path comes in batches, each entry
      past the first batch a legal successor of an entry in the batch before it, and,
      unless the run is resumed, everything it executed is fed. */
  lemma RunOfPath(g: Graph, o: Oracle, path: seq<Id>, fuel: nat) returns (marks: seq<nat>)
    requires Proper(g) && Obeys(g, o) && Known(g, path)
    ensures var (st, idx) := Initial(path);
            && Known(g, st.path) && idx < |st.path| && st.error == ""
            && var r := Run(g, o, st, idx, fuel);
               && Balanced(g, r.0)
               && (!r.2.Suspended? ==>
                     && idx <= r.1 <= |r.0.path| && Begins(path, r.0.path, idx)
                     && Staged(g, r.0.path, marks) && marks[0] == idx && Last(marks) == r.1
                     && (!Resumes(path) ==> AllFed(g, r.0.path, idx, r.1)))
  {
    hide Run, NamesFillUp, Prune, AllFed, Balanced, Proper, Obeys, InStage, Invoked;
    FirstBatchIsWhole(g, path);
    var (st, idx) := Initial(path);
    StartBalanced(g, path);
    RunBalances(g, o, st, idx, fuel);
    ExecutedStays(g, o, st, idx, fuel);
    marks := RunStages(g, o, st, [idx], fuel);
    if !Resumes(path) {
      StartFed(g, path);
      RunFeeds(g, o, st, idx, idx, fuel);
    }
  }

  lemma StartBalanced(g: Graph, path: seq<Id>)
    ensures Balanced(g, Initial(path).0)
  {
  }

  lemma StartFed(g: Graph, path: seq<Id>)
    requires Proper(g) && Known(g, path) && !Resumes(path)
    ensures var (st, idx) := Initial(path);
            && AllFed(g, st.path, idx, idx) && st.path != [] && !NamesFillUp(st.path[0])
            && (idx == 0 ==> Fed(g, st.path, 0))
  {
    BeginIsNoFillUp();
  }
}
