/** Which entries a batch invokes, and that a run feeds whatever it invokes. */
module CanvasReadiness {
  import opened Text
  import opened CanvasGraph
  import opened CanvasRun
  import opened CanvasGrowth

  // ----- What a batch invokes -----

  /** The entries of a list that a mask keeps. */
  function Select(ids: seq<Id>, mask: seq<bool>): seq<Id>
    requires |ids| == |mask|
  {
    if ids == [] then []
    else
      var n := |ids| - 1;
      Select(ids[..n], mask[..n]) + (if mask[n] then [ids[n]] else [])
  }

  /** The entry after some executed and some selected ones is invoked: a begin, a
      fill-up, one whose references stand before it, and any one of a resumed path. */
  predicate Invocable(g: Graph, before: seq<Id>, id: Id)
    requires id in g.components && Known(g, before)
  {
    var c := g.components[id];
    || c.kind == Begin || c.kind == UserFillUp
    || (forall k :: 0 <= k < |c.refs| ==> c.refs[k] == Id("") || c.refs[k] in before)
    || NamesFillUp((before + [id])[0])
  }

  lemma InvocableIsReady(g: Graph, before: seq<Id>, id: Id)
    requires id in g.components && Known(g, before)
    ensures Invocable(g, before, id) == Ready(g, before + [id], |before|)
  {
    hide NamesFillUp;
    var c := g.components[id];
    assert (before + [id])[..|before|] == before;
    assert forall r :: r in c.refs && r.name == "" ==> r == Id("");
    assert forall k :: 0 <= k < |c.refs| ==> c.refs[k] in c.refs;
  }

  /** The mask keeps an entry if and only if its references are executed or kept before it. */
  ghost predicate ChosenAt(g: Graph, executed: seq<Id>, pending: seq<Id>, mask: seq<bool>, k: nat)
    requires Known(g, executed) && Known(g, pending) && |mask| == |pending| && k < |pending|
  {
    var before := executed + Select(pending[..k], mask[..k]);
    Known(g, before) && (mask[k] <==> Invocable(g, before, pending[k]))
  }

  ghost predicate Chosen(g: Graph, executed: seq<Id>, pending: seq<Id>, mask: seq<bool>)
    requires Known(g, executed) && Known(g, pending)
  {
    && |mask| == |pending|
    && forall k :: 0 <= k < |pending| ==> ChosenAt(g, executed, pending, mask, k)
  }

  lemma {:induction false} SelectAppend(a: seq<Id>, m: seq<bool>, b: seq<Id>, n: seq<bool>)
    requires |a| == |m| && |b| == |n|
    ensures Select(a + b, m + n) == Select(a, m) + Select(b, n)
  {
    if b == [] {
      assert a + b == a && m + n == m;
    } else {
      var k := |b| - 1;
      SelectAppend(a, m, b[..k], n[..k]);
      assert (a + b)[..|a + b| - 1] == a + b[..k] && (m + n)[..|a + b| - 1] == m + n[..k];
    }
  }

  lemma ReadyAlike(g: Graph, path: seq<Id>, other: seq<Id>, i: nat)
    requires i < |path| && i < |other| && Known(g, path) && Known(g, other)
    requires path[..i + 1] == other[..i + 1]
    ensures Ready(g, path, i) == Ready(g, other, i)
  {
    assert path[i] == path[..i + 1][i] == other[..i + 1][i] == other[i];
    assert path[0] == path[..i + 1][0] == other[..i + 1][0] == other[0];
    assert path[..i] == path[..i + 1][..i] == other[..i + 1][..i] == other[..i];
  }

  /** A batch invokes a sub-sequence of its entries, each position once: exactly
      those whose references are executed, or invoked before them. */
  lemma {:induction false} PruneSelects(g: Graph, path: seq<Id>, i: nat) returns (mask: seq<bool>)
    requires i <= |path| && Known(g, path)
    ensures Chosen(g, path[..i], path[i..], mask)
    ensures Prune(g, path, i) == path[..i] + Select(path[i..], mask)
    decreases |path| - i
  {
    hide Ready;
    if i == |path| {
      mask := [];
    } else {
      hide Chosen, Select;
      var ready := Ready(g, path, i);
      var next, at := if ready then path else path[..i] + path[i + 1..], if ready then i + 1 else i;
      var tail := PruneSelects(g, next, at);
      assert next[..at] == (if ready then path[..i] + [path[i]] else path[..i]) && next[at..] == path[i + 1..];
      ChosenStep(g, path, i, tail);
      mask := [ready] + tail;
    }
  }

  lemma ChosenStep(g: Graph, path: seq<Id>, i: nat, tail: seq<bool>)
    requires i < |path| && Known(g, path)
    requires Chosen(g, if Ready(g, path, i) then path[..i] + [path[i]] else path[..i], path[i + 1..], tail)
    ensures Chosen(g, path[..i], path[i..], [Ready(g, path, i)] + tail)
    ensures path[..i] + Select(path[i..], [Ready(g, path, i)] + tail)
         == (if Ready(g, path, i) then path[..i] + [path[i]] else path[..i]) + Select(path[i + 1..], tail)
  {
    hide Ready, Select;
    var executed, head, rest := path[..i], path[i], path[i + 1..];
    assert path[i..] == [head] + rest;
    assert path[..i + 1] == executed + [head];
    ReadyAlike(g, path, executed + [head], i);
    InvocableIsReady(g, executed, head);
    SelectCons(head, Ready(g, path, i), rest, tail);
    ChosenCons(g, executed, head, rest, Ready(g, path, i), tail);
  }

  lemma SelectCons(head: Id, keep: bool, rest: seq<Id>, tail: seq<bool>)
    requires |rest| == |tail|
    ensures Select([head] + rest, [keep] + tail) == (if keep then [head] else []) + Select(rest, tail)
  {
    SelectAppend([head], [keep], rest, tail);
    assert [head][..0] == [] && [keep][..0] == [];
  }

  lemma ChosenCons(g: Graph, executed: seq<Id>, head: Id, rest: seq<Id>, keep: bool, tail: seq<bool>)
    requires Known(g, executed) && head in g.components && Known(g, rest)
    requires keep == Invocable(g, executed, head)
    requires Chosen(g, if keep then executed + [head] else executed, rest, tail)
    ensures Chosen(g, executed, [head] + rest, [keep] + tail)
  {
    var grown := if keep then executed + [head] else executed;
    var pending, mask := [head] + rest, [keep] + tail;
    forall k | 0 <= k < |pending|
      ensures ChosenAt(g, executed, pending, mask, k)
    {
      hide Invocable;
      if k == 0 {
        assert executed + Select(pending[..0], mask[..0]) == executed;
      } else {
        ChosenLater(g, executed, head, rest, keep, tail, k - 1);
      }
    }
  }

  lemma ChosenLater(g: Graph, executed: seq<Id>, head: Id, rest: seq<Id>, keep: bool, tail: seq<bool>, k: nat)
    requires Known(g, executed) && head in g.components && Known(g, rest) && |tail| == |rest| && k < |rest|
    requires ChosenAt(g, if keep then executed + [head] else executed, rest, tail, k)
    ensures ChosenAt(g, executed, [head] + rest, [keep] + tail, k + 1)
  {
    hide Invocable, Select;
    var grown := if keep then executed + [head] else executed;
    var pending, mask := [head] + rest, [keep] + tail;
    SelectCons(head, keep, rest[..k], tail[..k]);
    assert pending[..k + 1] == [head] + rest[..k] && mask[..k + 1] == [keep] + tail[..k];
    assert executed + Select(pending[..k + 1], mask[..k + 1]) == grown + Select(rest[..k], tail[..k]);
    assert mask[k + 1] == tail[k] && pending[k + 1] == rest[k];
  }

  // ----- Inputs stay in place -----

  lemma {:induction false} PruneReady(g: Graph, path: seq<Id>, i: nat, k: nat)
    requires i <= |path| && Known(g, path) && i <= k < |Prune(g, path, i)|
    ensures Ready(g, Prune(g, path, i), k)
    decreases |path| - i
  {
    hide Ready;
    if Ready(g, path, i) {
      if k == i {
        var kept := Prune(g, path, i + 1);
        assert kept[..i + 1] == path[..i + 1];
        ReadyAlike(g, path, kept, i);
      } else {
        PruneReady(g, path, i + 1, k);
      }
    } else {
      PruneReady(g, path[..i] + path[i + 1..], i, k);
    }
  }

  /** Every executed position from `start` on has what it refers to before it. */
  ghost predicate AllFed(g: Graph, path: seq<Id>, start: nat, idx: nat) {
    && idx <= |path| && Known(g, path)
    && forall k :: start <= k < idx ==> Fed(g, path, k)
  }

  lemma AllFedIn(g: Graph, path: seq<Id>, next: seq<Id>, start: nat, idx: nat)
    requires AllFed(g, path, start, idx) && idx <= |next| && Known(g, next)
    requires forall k :: 0 <= k < idx ==> next[k] == path[k]
    ensures AllFed(g, next, start, idx)
  {
    forall k | start <= k < idx
      ensures Fed(g, next, k)
    {
      assert Fed(g, path, k);
      assert path[..k] == next[..k];
    }
  }

  lemma TurnFeeds(g: Graph, o: Oracle, st: State, idx: nat, start: nat)
    requires Proper(g) && Obeys(g, o) && Known(g, st.path) && idx < |st.path| && st.error == ""
    requires AllFed(g, st.path, start, idx) && !NamesFillUp(st.path[0])
    requires idx == 0 ==> Fed(g, st.path, 0)
    ensures var r := Turn(g, o, st, idx);
            && (!r.2.Suspended? ==> AllFed(g, r.0.path, start, r.1))
            && (r.2.Going? ==> 0 < r.1 && r.0.path[0] == st.path[0])
  {
    hide Batch, Fed, NamesFillUp;
    BatchGrows(g, o, st, idx);
    TurnKeeps(g, o, st, idx);
    var kept, r := Prune(g, st.path, idx), Turn(g, o, st, idx);
    if idx == 0 {
      assert Ready(g, st.path, 0);
      assert kept[0] == st.path[0];
    }
    AllFedIn(g, st.path, kept, start, idx);
    forall k | idx <= k < |kept|
      ensures Fed(g, kept, k)
    {
      PruneReady(g, st.path, idx, k);
      assert kept[0] == st.path[0];
    }
    if r.2.Going? {
      AllFedIn(g, kept, r.0.path, start, |kept|);
    } else if r.2.Failed? {
      AllFedIn(g, st.path, r.0.path, start, idx);
    }
  }

  /** In a run that is not resumed, every invoked component other than a begin or
      a fill-up has the components it refers to before it in the path, then and
      in every later state up to suspension. */
  lemma {:induction false} RunFeeds(g: Graph, o: Oracle, st: State, idx: nat, start: nat, fuel: nat)
    requires Proper(g) && Obeys(g, o) && Known(g, st.path) && idx <= |st.path| && st.error == ""
    requires AllFed(g, st.path, start, idx) && st.path != [] && !NamesFillUp(st.path[0])
    requires idx == 0 ==> Fed(g, st.path, 0)
    ensures var r := Run(g, o, st, idx, fuel);
            !r.2.Suspended? ==> AllFed(g, r.0.path, start, r.1)
    decreases fuel
  {
    hide Turn, Fed, NamesFillUp, AllFed;
    if idx < |st.path| && fuel > 0 {
      TurnFeeds(g, o, st, idx, start);
      var t := Turn(g, o, st, idx);
      if t.2.Going? {
        RunFeeds(g, o, t.0, t.1, start, fuel - 1);
      }
    }
  }
}
