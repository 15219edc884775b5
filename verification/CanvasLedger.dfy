/** Finish events are conserved: each processed component's event is either out
    or waiting, and the waiting ones leave in the order they came. */
module CanvasLedger {
  import opened Text
  import opened CanvasGraph
  import opened CanvasRun

  /** Own finish events, the reports on behalf of a group left aside. */
  function Told(events: seq<Event>): nat {
    if events == [] then 0
    else Told(events[..|events| - 1]) + (if events[|events| - 1].Finished? then 1 else 0)
  }

  /** The components whose finish event came late, in order. */
  function LateIds(events: seq<Event>): seq<Id> {
    if events == [] then []
    else
      var last := events[|events| - 1];
      var before := LateIds(events[..|events| - 1]);
      if last.Finished? && last.late then before + [last.id] else before
  }

  /** The entries that report their own finish: all but iterations and loops. */
  function Own(g: Graph, ids: seq<Id>): nat {
    if ids == [] then 0
    else
      var last := ids[|ids| - 1];
      Own(g, ids[..|ids| - 1]) + (if last in g.components && !IsGroup(g.components[last].kind) then 1 else 0)
  }

  lemma {:induction false} ToldAppend(a: seq<Event>, b: seq<Event>)
    ensures Told(a + b) == Told(a) + Told(b)
  {
    if b == [] {
      assert a + b == a;
    } else {
      ToldAppend(a, b[..|b| - 1]);
      assert (a + b)[..|a + b| - 1] == a + b[..|b| - 1];
    }
  }

  lemma {:induction false} LateAppend(a: seq<Event>, b: seq<Event>)
    ensures LateIds(a + b) == LateIds(a) + LateIds(b)
  {
    if b == [] {
      assert a + b == a;
    } else {
      LateAppend(a, b[..|b| - 1]);
      assert (a + b)[..|a + b| - 1] == a + b[..|b| - 1];
    }
  }

  lemma {:induction false} OwnAppend(g: Graph, a: seq<Id>, b: seq<Id>)
    ensures Own(g, a + b) == Own(g, a) + Own(g, b)
  {
    if b == [] {
      assert a + b == a;
    } else {
      OwnAppend(g, a, b[..|b| - 1]);
      assert (a + b)[..|a + b| - 1] == a + b[..|b| - 1];
    }
  }

  lemma OwnOne(g: Graph, id: Id)
    requires id in g.components
    ensures Own(g, [id]) == if IsGroup(g.components[id].kind) then 0 else 1
  {
    assert [id][..0] == [];
  }

  lemma {:induction false} LateEvents(ids: seq<Id>)
    ensures Told(Late(ids)) == |ids| && LateIds(Late(ids)) == ids
  {
    if ids != [] {
      var n := |ids| - 1;
      assert Late(ids)[..n] == Late(ids[..n]);
      LateEvents(ids[..n]);
    }
  }

  lemma {:induction false} QuietEvents(events: seq<Event>)
    requires forall k :: 0 <= k < |events| ==> !events[k].Finished?
    ensures Told(events) == 0 && LateIds(events) == []
  {
    if events != [] {
      QuietEvents(events[..|events| - 1]);
    }
  }

  /** How far two states are apart in what they told and what they hold back. */
  ghost predicate Moves(st: State, next: State, own: nat) {
    && Told(next.events) + |next.partials| == Told(st.events) + |st.partials| + own
    && (LateIds(st.events) + st.partials == st.held ==> LateIds(next.events) + next.partials == next.held)
    && next.calls == st.calls
  }

  lemma SpeakMoves(kind: Kind, st: State, id: Id, r: Reading)
    ensures Moves(st, Speak(kind, st, id, r), 0)
  {
    hide Told, LateIds, Late, Spent;
    if kind.Message? {
      var n := Spent(st.partials, r.streams);
      var said := [Said(id), MessageEnded(id)];
      QuietEvents(said);
      LateEvents(st.partials[..n]);
      ToldAppend(st.events + said, Late(st.partials[..n]));
      LateAppend(st.events + said, Late(st.partials[..n]));
      ToldAppend(st.events, said);
      LateAppend(st.events, said);
      assert st.partials[..n] + st.partials[n..] == st.partials;
      var next := Speak(kind, st, id, r);
      assert next.events == st.events + said + Late(st.partials[..n]);
      assert LateIds(next.events) + next.partials == LateIds(st.events) + (st.partials[..n] + st.partials[n..]);
    }
  }

  lemma FaultMoves(c: Component, st: State, id: Id, r: Reading)
    ensures Moves(st, Fault(c, st, id, r), 0)
  {
    var said := [Said(id), MessageEnded(id)];
    QuietEvents(said);
    ToldAppend(st.events, said);
    LateAppend(st.events, said);
  }

  lemma ReportMoves(kind: Kind, st: State, id: Id, r: Reading)
    ensures Moves(st, Report(kind, st, id, r), if IsGroup(kind) then 0 else 1)
  {
    var event := [Finished(id, false)];
    assert Told(event) == 1 && LateIds(event) == [] by {
      assert event[..0] == [];
    }
    ToldAppend(st.events, event);
    LateAppend(st.events, event);
    assert LateIds(st.events) + (st.partials + [id]) == LateIds(st.events) + st.partials + [id];
  }

  lemma AdvanceMoves(g: Graph, st: State, id: Id, r: Reading, jumped: bool)
    requires id in g.components && ProperComponent(g, id) && st.path != []
    ensures Moves(st, Advance(g, st, id, r, jumped), 0)
  {
    hide Told, LateIds, AppendAll, Offers;
    var c := g.components[id];
    var told := if IsItem(c.kind) && r.ended then [GroupFinished(c.parent.value)] else [];
    QuietEvents(told);
    ToldAppend(st.events, told);
    LateAppend(st.events, told);
  }

  /** One position adds one to the balance, unless it is an iteration or a loop. */
  lemma PostOneMoves(g: Graph, st: State, i: nat, r: Reading)
    requires Proper(g) && Known(g, st.path) && i < |st.path|
    ensures Moves(st, PostOne(g, st, i, r), Own(g, [st.path[i]]))
  {
    var id := st.path[i];
    var c := g.components[id];
    assert ProperComponent(g, id);
    var spoken := Speak(c.kind, st, id, r);
    var faulty := Fault(c, spoken, id, r);
    var reported := Report(c.kind, faulty, id, r);
    assert reported.path != [];
    hide Speak, Fault, Report, Advance, LateIds, Own, ProperComponent;
    SpeakMoves(c.kind, st, id, r);
    FaultMoves(c, spoken, id, r);
    ReportMoves(c.kind, faulty, id, r);
    AdvanceMoves(g, reported, id, r, Jumps(c, r));
    OwnOne(g, id);
  }

  lemma {:induction false} PostMoves(g: Graph, o: Oracle, st: State, i: nat, end: nat)
    requires Proper(g) && Obeys(g, o) && Known(g, st.path) && i <= end <= |st.path|
    ensures Moves(st, Post(g, o, st, i, end), Own(g, st.path[i..end]))
    decreases end - i
  {
    hide PostOne;
    if i < end {
      var one := PostOne(g, st, i, o.reading(i, st.path[i]));
      PostOneMoves(g, st, i, o.reading(i, st.path[i]));
      PostOnePath(g, o, st, i);
      PostMoves(g, o, one, i + 1, end);
      assert one.path[i + 1..end] == st.path[i + 1..end];
      assert st.path[i..end] == [st.path[i]] + st.path[i + 1..end];
      OwnAppend(g, [st.path[i]], st.path[i + 1..end]);
    }
  }

  /** At every boundary the events that are out and the entries that wait account
      for every invoked component, and what is out late and what waits are, in
      order, everything that was ever held back. */
  ghost predicate Balanced(g: Graph, st: State) {
    && Told(st.events) + |st.partials| == Own(g, st.calls)
    && LateIds(st.events) + st.partials == st.held
  }

  lemma BatchBalances(g: Graph, o: Oracle, st: State, idx: nat)
    requires Proper(g) && Obeys(g, o) && Known(g, st.path) && idx <= |st.path|
    requires Balanced(g, st)
    ensures Balanced(g, Batch(g, o, st, idx))
    ensures Batch(g, o, st, idx).calls == st.calls + Prune(g, st.path, idx)[idx..]
  {
    hide Post;
    var invoked := Invoked(g, st, idx);
    var kept := Prune(g, st.path, idx);
    QuietEvents(StartEvents(st.path[idx..]));
    ToldAppend(st.events, StartEvents(st.path[idx..]));
    LateAppend(st.events, StartEvents(st.path[idx..]));
    OwnAppend(g, st.calls, kept[idx..]);
    PostMoves(g, o, invoked, idx, |kept|);
    assert kept[idx..|kept|] == kept[idx..];
  }

  lemma TurnBalances(g: Graph, o: Oracle, st: State, idx: nat)
    requires Proper(g) && Obeys(g, o) && Known(g, st.path) && idx < |st.path| && st.error == ""
    requires Balanced(g, st)
    ensures Balanced(g, Turn(g, o, st, idx).0)
  {
    hide Batch;
    BatchBalances(g, o, st, idx);
    var done := Batch(g, o, st, idx);
    QuietEvents([InputsAsked]);
    ToldAppend(done.events, [InputsAsked]);
    LateAppend(done.events, [InputsAsked]);
  }

  /** Finish events are conserved over every run, however it stops. */
  lemma {:induction false} RunBalances(g: Graph, o: Oracle, st: State, idx: nat, fuel: nat)
    requires Proper(g) && Obeys(g, o) && Known(g, st.path) && idx <= |st.path| && st.error == ""
    requires Balanced(g, st)
    ensures Balanced(g, Run(g, o, st, idx, fuel).0)
    decreases fuel
  {
    hide Turn;
    QuietEvents([WorkflowFinished]);
    ToldAppend(st.events, [WorkflowFinished]);
    LateAppend(st.events, [WorkflowFinished]);
    if idx < |st.path| && fuel > 0 {
      TurnBalances(g, o, st, idx);
      var t := Turn(g, o, st, idx);
      if t.2.Going? {
        RunBalances(g, o, t.0, t.1, fuel - 1);
      }
    }
  }
}
