/** A run takes no more turns than the longest walk through its graph has components. */
module CanvasTermination {
  import opened Text
  import opened CanvasGraph
  import opened CanvasRun

  ghost predicate Walk(g: Graph, w: seq<Id>) {
    forall i, j :: 0 <= i < j < |w| && j == i + 1 ==> Successor(g, w[i], w[j])
  }

  /** No walk of two or more components comes back to where it began. */
  ghost predicate Acyclic(g: Graph) {
    forall w :: Walk(g, w) && |w| > 1 ==> w[0] != w[|w| - 1]
  }

  ghost predicate StartsAmong(w: seq<Id>, path: seq<Id>, idx: nat) {
    w != [] && exists k :: idx <= k < |path| && path[k] == w[0]
  }

  lemma TurnWalks(g: Graph, o: Oracle, st: State, idx: nat, w: seq<Id>) returns (longer: seq<Id>)
    requires Proper(g) && Obeys(g, o) && Known(g, st.path) && idx < |st.path| && st.error == ""
    requires Turn(g, o, st, idx).2.Going?
    requires Walk(g, w) && StartsAmong(w, Turn(g, o, st, idx).0.path, Turn(g, o, st, idx).1)
    ensures Walk(g, longer) && |longer| == |w| + 1 && StartsAmong(longer, st.path, idx)
  {
    hide Batch;
    var kept, next := Prune(g, st.path, idx), Batch(g, o, st, idx).path;
    BatchGrows(g, o, st, idx);
    var k :| |kept| <= k < |next| && next[k] == w[0];
    assert Follows(g, kept, idx, |kept|, next[k]);
    var j :| idx <= j < |kept| && Successor(g, kept[j], w[0]);
    var p := PruneFrom(g, st.path, idx, j);
    longer := [kept[j]] + w;
    assert forall i :: 0 <= i < |w| ==> longer[i + 1] == w[i];
    assert st.path[p] == longer[0];
  }

  /** A run that is still going after some turns has walked that many steps. */
  lemma {:induction false} RunWalks(g: Graph, o: Oracle, st: State, idx: nat, fuel: nat) returns (w: seq<Id>)
    requires Proper(g) && Obeys(g, o) && Known(g, st.path) && idx <= |st.path| && st.error == ""
    requires Run(g, o, st, idx, fuel).2.Going?
    ensures Walk(g, w) && |w| == fuel + 1 && StartsAmong(w, st.path, idx)
    decreases fuel
  {
    hide Turn;
    if fuel == 0 {
      w := [st.path[idx]];
    } else {
      var t := Turn(g, o, st, idx);
      var shorter := RunWalks(g, o, t.0, t.1, fuel - 1);
      w := TurnWalks(g, o, st, idx, shorter);
    }
  }

  /** A run ends or suspends within as many turns as the longest walk from its
      first batch has components, whatever errors and choices occur. */
  lemma RunStops(g: Graph, o: Oracle, st: State, idx: nat, bound: nat)
    requires Proper(g) && Obeys(g, o) && Known(g, st.path) && idx <= |st.path| && st.error == ""
    requires forall w :: Walk(g, w) && StartsAmong(w, st.path, idx) ==> |w| <= bound
    ensures !Run(g, o, st, idx, bound).2.Going?
  {
    if Run(g, o, st, idx, bound).2.Going? {
      var w := RunWalks(g, o, st, idx, bound);
      assert false;
    }
  }

  lemma WalkSlice(g: Graph, w: seq<Id>, i: nat, j: nat)
    requires Walk(g, w) && i <= j <= |w|
    ensures Walk(g, w[i..j])
  {
    forall a, b | 0 <= a < b < |w[i..j]| && b == a + 1
      ensures Successor(g, w[i..j][a], w[i..j][b])
    {
      assert w[i..j][a] == w[i + a] && w[i..j][b] == w[i + b];
    }
  }

  /** On an acyclic graph a walk meets no component twice. */
  lemma {:induction false} WalkIsShort(g: Graph, w: seq<Id>)
    requires Proper(g) && Acyclic(g) && Walk(g, w) && Known(g, w)
    ensures forall i, j :: 0 <= i < j < |w| ==> w[i] != w[j]
    ensures |w| <= |g.components|
  {
    forall i, j | 0 <= i < j < |w|
      ensures w[i] != w[j]
    {
      WalkSlice(g, w, i, j + 1);
      assert w[i..j + 1][0] == w[i] && w[i..j + 1][j - i] == w[j];
    }
    assert forall k :: 0 <= k < |w| ==> w[k] in g.components.Keys;
    DistinctFit(w, g.components.Keys);
  }

  lemma {:induction false} DistinctFit(w: seq<Id>, all: set<Id>)
    requires forall k :: 0 <= k < |w| ==> w[k] in all
    requires forall i, j :: 0 <= i < j < |w| ==> w[i] != w[j]
    ensures |w| <= |all|
  {
    if w != [] {
      var n := |w| - 1;
      DistinctFit(w[..n], all - {w[n]});
    }
  }

  lemma {:induction false} WalkKnown(g: Graph, w: seq<Id>)
    requires Proper(g) && Walk(g, w) && w != [] && w[0] in g.components
    ensures Known(g, w)
  {
    forall k | 0 <= k < |w|
      ensures w[k] in g.components
    {
      if k > 0 {
        var i := k - 1;
        assert Successor(g, w[i], w[k]);
        SuccessorKnown(g, w[i], w[k]);
      }
    }
  }

  /** On an acyclic graph every run ends or suspends within as many turns as
      there are components. */
  lemma AcyclicRunStops(g: Graph, o: Oracle, st: State, idx: nat)
    requires Proper(g) && Obeys(g, o) && Known(g, st.path) && idx <= |st.path| && st.error == ""
    requires Acyclic(g)
    ensures !Run(g, o, st, idx, |g.components|).2.Going?
  {
    forall w | Walk(g, w) && StartsAmong(w, st.path, idx)
      ensures |w| <= |g.components|
    {
      var k :| idx <= k < |st.path| && st.path[k] == w[0];
      WalkKnown(g, w);
      WalkIsShort(g, w);
    }
    RunStops(g, o, st, idx, |g.components|);
  }
}
