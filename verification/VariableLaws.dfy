/** What a write does to every reading, dictionaries shared or not. */
module VariableLaws {
  import opened Text
  import opened VariableNames
  import opened VariableStore

  // ----- Readings that pass a key of a dictionary -----

  /** Two heaps that differ at most at one key of one dictionary, and in new ones. */
  ghost predicate Agree(heap: Heap, after: Heap, c: Ref, k: string) {
    && |heap| <= |after|
    && forall r, key :: 0 <= r < |heap| && (r != c || key != k) ==> Lookup(after[r], key) == Lookup(heap[r], key)
  }

  /** A reading looks up key `k` of dictionary `c` on its way. */
  predicate Passes(env: Env, heap: Heap, v: Val, path: seq<string>, c: Ref, k: string)
    decreases |path|
  {
    && path != []
    && ((v == Shared(c) && path[0] == k) || Passes(env, heap, Below(env, heap, v, path[0]), path[1..], c, k))
  }

  /** The keys left after the first such lookup. */
  function Remainder(env: Env, heap: Heap, v: Val, path: seq<string>, c: Ref, k: string): (rest: seq<string>)
    requires Passes(env, heap, v, path, c, k)
    ensures |rest| < |path|
    decreases |path|
  {
    if v == Shared(c) && path[0] == k then path[1..]
    else Remainder(env, heap, Below(env, heap, v, path[0]), path[1..], c, k)
  }

  lemma BelowSame(env: Env, heap: Heap, after: Heap, v: Val, key: string, c: Ref, k: string)
    requires Sane(env) && Bound(|heap|, v) && Agree(heap, after, c, k) && !(v == Shared(c) && key == k)
    ensures Below(env, after, v, key) == Below(env, heap, v, key)
  {
    if v.Text? && env.json(v.s).Some? {
      assert Bound(0, env.json(v.s).value);
    }
  }

  lemma {:induction false} WalkKept(env: Env, heap: Heap, after: Heap, v: Val, path: seq<string>, c: Ref, k: string)
    requires Sane(env) && PlacedHeap(heap) && Bound(|heap|, v) && Agree(heap, after, c, k)
    requires !Passes(env, heap, v, path, c, k)
    ensures Walk(env, after, v, path) == Walk(env, heap, v, path)
    decreases |path|
  {
    hide Below, Sane, Agree;
    if path != [] {
      BelowSame(env, heap, after, v, path[0], c, k);
      BelowBound(env, heap, v, path[0]);
      WalkKept(env, heap, after, Below(env, heap, v, path[0]), path[1..], c, k);
    }
  }

  lemma {:induction false} WalkThrough(env: Env, heap: Heap, after: Heap, v: Val, path: seq<string>, c: Ref, k: string)
    requires Sane(env) && PlacedHeap(heap) && Bound(|heap|, v) && Agree(heap, after, c, k) && c < |after|
    requires Passes(env, heap, v, path, c, k)
    ensures Walk(env, after, v, path)
         == Walk(env, after, Lookup(after[c], k), Remainder(env, heap, v, path, c, k))
    decreases |path|
  {
    if !(v == Shared(c) && path[0] == k) {
      hide Below, Sane, Agree;
      BelowSame(env, heap, after, v, path[0], c, k);
      BelowBound(env, heap, v, path[0]);
      WalkThrough(env, heap, after, Below(env, heap, v, path[0]), path[1..], c, k);
    }
  }

  lemma {:induction false} NeverPassesNew(env: Env, heap: Heap, v: Val, path: seq<string>, c: Ref, k: string)
    requires Sane(env) && PlacedHeap(heap) && Bound(|heap|, v) && |heap| <= c
    ensures !Passes(env, heap, v, path, c, k)
    decreases |path|
  {
    hide Below, Sane;
    if path != [] {
      BelowBound(env, heap, v, path[0]);
      NeverPassesNew(env, heap, Below(env, heap, v, path[0]), path[1..], c, k);
    }
  }

  /** New dictionaries change no reading of old values. */
  lemma WalkGrown(env: Env, heap: Heap, more: Heap, v: Val, path: seq<string>)
    requires Sane(env) && PlacedHeap(heap) && Bound(|heap|, v)
    ensures Walk(env, heap + more, v, path) == Walk(env, heap, v, path)
  {
    NeverPassesNew(env, heap, v, path, |heap|, "");
    WalkKept(env, heap, heap + more, v, path, |heap|, "");
  }

  // ----- Readings inside what was written -----

  /** What a reading gives that comes upon a write with keys `tail` left, itself with
      keys `rest` left: inside the value, a new dictionary, or nothing. */
  function Inside(env: Env, after: Heap, n: nat, tail: seq<string>, v: Val, rest: seq<string>): Val {
    if tail <= rest then Walk(env, after, v, rest[|tail|..])
    else if rest <= tail then Shared(n + |rest|)
    else Null
  }

  lemma InsideStep(env: Env, after: Heap, n: nat, tail: seq<string>, v: Val, rest: seq<string>)
    requires tail != [] && rest != []
    ensures Inside(env, after, n, tail, v, rest) ==
            if rest[0] != tail[0] then Null
            else if |tail| == 1 then Walk(env, after, v, rest[1..])
            else Inside(env, after, n + 1, tail[1..], v, rest[1..])
  {
    hide Walk;
    assert tail == [tail[0]] + tail[1..] && rest == [rest[0]] + rest[1..];
    if rest[0] == tail[0] {
      HeadsEqual(tail, rest);
      HeadsEqual(rest, tail);
      assert |tail| <= |rest| ==> rest[1..][|tail| - 1..] == rest[|tail|..];
    }
  }

  lemma {:induction false} WalkChain(env: Env, heap: Heap, tail: seq<string>, v: Val, rest: seq<string>)
    requires tail != []
    ensures var after := heap + Chain(|heap|, tail, v);
            Walk(env, after, Shared(|heap|), rest) == Inside(env, after, |heap|, tail, v, rest)
    decreases |tail|
  {
    hide Inside, Walk, Chain, Below;
    var n, after := |heap|, heap + Chain(|heap|, tail, v);
    var first := if |tail| == 1 then v else Shared(n + 1);
    if rest == [] {
      InsideNow(env, after, n, tail, v);
    } else {
      InsideStep(env, after, n, tail, v, rest);
      ChainFirst(env, heap, tail, v, rest[0]);
      WalkOne(env, after, Shared(n), rest);
      if rest[0] != tail[0] {
        WalkNull(env, after, rest[1..]);
      } else if |tail| > 1 {
        WalkChain(env, heap + [map[tail[0] := first]], tail[1..], v, rest[1..]);
      }
    }
  }

  lemma WalkOne(env: Env, heap: Heap, v: Val, path: seq<string>)
    ensures path == [] ==> Walk(env, heap, v, path) == v
    ensures path != [] ==> Walk(env, heap, v, path) == Walk(env, heap, Below(env, heap, v, path[0]), path[1..])
  {
  }

  lemma ChainFirst(env: Env, heap: Heap, tail: seq<string>, v: Val, key: string)
    requires tail != []
    ensures var n, after := |heap|, heap + Chain(|heap|, tail, v);
            var first := if |tail| == 1 then v else Shared(n + 1);
            && after == (heap + [map[tail[0] := first]]) + Chain(n + 1, tail[1..], v)
            && Below(env, after, Shared(n), key) == if key == tail[0] then first else Null
  {
    var n, after := |heap|, heap + Chain(|heap|, tail, v);
    var first := if |tail| == 1 then v else Shared(n + 1);
    assert after[n] == map[tail[0] := first];
  }

  lemma InsideNow(env: Env, after: Heap, n: nat, tail: seq<string>, v: Val)
    requires tail != []
    ensures Inside(env, after, n, tail, v, []) == Walk(env, after, Shared(n), []) == Shared(n)
  {
  }

  lemma HeadsEqual(a: seq<string>, b: seq<string>)
    requires a != [] && b != [] && a[0] == b[0]
    ensures a <= b <==> a[1..] <= b[1..]
  {
    assert a == [a[0]] + a[1..] && b == [b[0]] + b[1..];
  }

  /** Every reading after a write below a dictionary: one that passes the touched
      key goes on inside what was written there, any other one is as before. */
  lemma ReadAfterPut(env: Env, heap: Heap, r: Ref, keys: seq<string>, v: Val, start: Val, path: seq<string>)
    requires Sane(env) && PlacedHeap(heap) && Bound(|heap|, start) && r < |heap| && keys != []
    ensures var after := PutIn(heap, r, keys, v);
            var (c, k, tail) := Touched(heap, r, keys);
            Walk(env, after, start, path) ==
            if Passes(env, heap, start, path, c, k)
            then Inside(env, after, |heap|, tail, v, Remainder(env, heap, start, path, c, k))
            else Walk(env, heap, start, path)
  {
    hide Walk, Passes, Remainder, PutIn, Touched, Inside;
    var after := PutIn(heap, r, keys, v);
    var (c, k, tail) := Touched(heap, r, keys);
    PutIsOneEntry(heap, r, keys, v);
    var entered := Enter(heap, c, k, Content(|heap|, tail, v));
    assert Agree(heap, after, c, k);
    if Passes(env, heap, start, path, c, k) {
      WalkThrough(env, heap, after, start, path, c, k);
      var rest := Remainder(env, heap, start, path, c, k);
      assert Lookup(after[c], k) == Content(|heap|, tail, v);
      InsideContent(env, entered, tail, v, rest);
    } else {
      WalkKept(env, heap, after, start, path, c, k);
    }
  }

  /** The same told on the heap before the write: a reading that passes the touched key
      with more keys left than the write goes on inside the value, where it may pass
      the touched key again. */
  function Sees(env: Env, heap: Heap, cell: (Ref, string, seq<string>), v: Val, start: Val, path: seq<string>): Val
    decreases |path|
  {
    if !Passes(env, heap, start, path, cell.0, cell.1) then Walk(env, heap, start, path)
    else
      var tail, rest := cell.2, Remainder(env, heap, start, path, cell.0, cell.1);
      if tail <= rest then Sees(env, heap, cell, v, v, rest[|tail|..])
      else if rest <= tail then Shared(|heap| + |rest|)
      else Null
  }

  lemma {:induction false} SeenAfterPut(env: Env, heap: Heap, r: Ref, keys: seq<string>, v: Val, start: Val,
                                        path: seq<string>)
    requires Sane(env) && PlacedHeap(heap) && Bound(|heap|, start) && Bound(|heap|, v) && r < |heap| && keys != []
    ensures Walk(env, PutIn(heap, r, keys, v), start, path) == Sees(env, heap, Touched(heap, r, keys), v, start, path)
    decreases |path|
  {
    hide Walk, Passes, Remainder, PutIn, Touched, Sane, PlacedHeap, Bound;
    ReadAfterPut(env, heap, r, keys, v, start, path);
    var (c, k, tail) := Touched(heap, r, keys);
    if Passes(env, heap, start, path, c, k) {
      var rest := Remainder(env, heap, start, path, c, k);
      if tail <= rest {
        SeenAfterPut(env, heap, r, keys, v, v, rest[|tail|..]);
      }
    }
  }

  lemma InsideContent(env: Env, heap: Heap, tail: seq<string>, v: Val, rest: seq<string>)
    ensures var after := heap + Chain(|heap|, tail, v);
            Walk(env, after, Content(|heap|, tail, v), rest) == Inside(env, after, |heap|, tail, v, rest)
  {
    if tail == [] {
      assert rest[0..] == rest;
    } else {
      WalkChain(env, heap, tail, v, rest);
    }
  }

  // ----- The written path itself -----

  /** The path of a write goes through the touched key before it ends there: the
      dictionaries on it lead back to themselves. */
  predicate PassesEarly(heap: Heap, r: Ref, keys: seq<string>, c: Ref, k: string)
    requires r < |heap| && keys != []
    decreases |keys|
  {
    && |keys| > 1 && Link(heap, r, keys[0]).Some?
    && ((r == c && keys[0] == k) || PassesEarly(heap, Link(heap, r, keys[0]).value, keys[1..], c, k))
  }

  predicate Circles(heap: Heap, r: Ref, keys: seq<string>)
    requires r < |heap| && keys != []
  {
    PassesEarly(heap, r, keys, Touched(heap, r, keys).0, Touched(heap, r, keys).1)
  }

  lemma {:induction false} TouchedStops(heap: Heap, r: Ref, keys: seq<string>)
    requires r < |heap| && keys != []
    ensures var (c, k, tail) := Touched(heap, r, keys); tail == [] || Link(heap, c, k).None?
    decreases |keys|
  {
    if |keys| > 1 && Link(heap, r, keys[0]).Some? {
      TouchedStops(heap, Link(heap, r, keys[0]).value, keys[1..]);
    }
  }

  /** Read along the written path, the touched key comes with the written tail left,
      unless the path circles: then it comes too early. */
  lemma {:induction false} OwnPath(env: Env, heap: Heap, r: Ref, keys: seq<string>)
    requires r < |heap| && keys != []
    ensures var (c, k, tail) := Touched(heap, r, keys);
            && Passes(env, heap, Shared(r), keys, c, k)
            && var rest := Remainder(env, heap, Shared(r), keys, c, k);
               if Circles(heap, r, keys) then tail == [] && rest != [] else rest == tail
    decreases |keys|
  {
    var (c, k, tail) := Touched(heap, r, keys);
    TouchedStops(heap, r, keys);
    if |keys| > 1 && Link(heap, r, keys[0]).Some? {
      var next := Link(heap, r, keys[0]).value;
      assert Below(env, heap, Shared(r), keys[0]) == Shared(next);
      OwnPath(env, heap, next, keys[1..]);
    }
  }

  lemma EmptyListHasNothing(env: Env, heap: Heap, keys: seq<string>)
    requires keys != []
    ensures Walk(env, heap, List([]), keys) == Null
  {
    assert Below(env, heap, List([]), keys[0]) == Null;
    WalkNull(env, heap, keys[1..]);
  }

  /** A write below a dictionary is read back along its path, unless the path circles. */
  lemma PutReadBack(env: Env, heap: Heap, r: Ref, keys: seq<string>, v: Val)
    requires Sane(env) && PlacedHeap(heap) && r < |heap| && keys != []
    ensures !Circles(heap, r, keys) ==> Walk(env, PutIn(heap, r, keys, v), Shared(r), keys) == v
    ensures Circles(heap, r, keys) && v == List([]) ==> Walk(env, PutIn(heap, r, keys, v), Shared(r), keys) == Null
  {
    hide PutIn, Passes, Remainder, Circles;
    ReadAfterPut(env, heap, r, keys, v, Shared(r), keys);
    OwnPath(env, heap, r, keys);
    var (c, k, tail) := Touched(heap, r, keys);
    var rest := Remainder(env, heap, Shared(r), keys, c, k);
    if Circles(heap, r, keys) {
      assert rest[0..] == rest;
      EmptyListHasNothing(env, PutIn(heap, r, keys, List([])), rest);
    } else {
      assert rest[|tail|..] == [];
    }
  }

  /** A reading along any path gives back every value written if and only if it comes
      upon the touched key with exactly the written keys left.  Otherwise it misses
      the null value or the empty list. */
  lemma ReadsWrittenIff(env: Env, heap: Heap, r: Ref, keys: seq<string>, start: Val, path: seq<string>, v: Val)
    requires Sane(env) && PlacedHeap(heap) && Bound(|heap|, start) && r < |heap| && keys != []
    ensures var (c, k, tail) := Touched(heap, r, keys);
            if Passes(env, heap, start, path, c, k) && Remainder(env, heap, start, path, c, k) == tail
            then Walk(env, PutIn(heap, r, keys, v), start, path) == v
            else Walk(env, PutIn(heap, r, keys, Null), start, path) != Null
                 || Walk(env, PutIn(heap, r, keys, List([])), start, path) != List([])
  {
    hide PutIn, Passes, Remainder, Touched, Sane, PlacedHeap, Bound, Walk;
    var (c, k, tail) := Touched(heap, r, keys);
    if Passes(env, heap, start, path, c, k) && Remainder(env, heap, start, path, c, k) == tail {
      ReadAfterPut(env, heap, r, keys, v, start, path);
      assert tail[|tail|..] == [];
      WalkOne(env, PutIn(heap, r, keys, v), v, []);
    } else {
      ReadAfterPut(env, heap, r, keys, Null, start, path);
      ReadAfterPut(env, heap, r, keys, List([]), start, path);
      if Passes(env, heap, start, path, c, k) {
        var rest := Remainder(env, heap, start, path, c, k);
        if tail <= rest {
          assert rest == tail + rest[|tail|..];
          EmptyListHasNothing(env, PutIn(heap, r, keys, List([])), rest[|tail|..]);
        }
      }
    }
  }

  // ----- A second write -----

  lemma KeepsLink(heap: Heap, r: Ref, keys: seq<string>, v: Val, d: Ref, key: string)
    requires r < |heap| && keys != [] && d < |heap|
    requires d != Touched(heap, r, keys).0 || key != Touched(heap, r, keys).1
    ensures |heap| <= |PutIn(heap, r, keys, v)|
    ensures Link(heap, d, key).Some? ==> Link(PutIn(heap, r, keys, v), d, key) == Link(heap, d, key)
  {
    PutIsOneEntry(heap, r, keys, v);
  }

  lemma PutGrows(heap: Heap, r: Ref, keys: seq<string>, v: Val)
    requires r < |heap| && keys != []
    ensures |PutIn(heap, r, keys, v)| == |heap| + |Touched(heap, r, keys).2|
  {
    PutIsOneEntry(heap, r, keys, v);
  }

  /** The first write's dictionaries are there for the second, which replaces its value. */
  lemma {:induction false} PutTwice(heap: Heap, r: Ref, keys: seq<string>, v: Val, w: Val)
    requires r < |heap| && keys != [] && !Circles(heap, r, keys)
    ensures |heap| <= |PutIn(heap, r, keys, v)|
    ensures PutIn(PutIn(heap, r, keys, v), r, keys, w) == PutIn(heap, r, keys, w)
    decreases |keys|
  {
    PutGrows(heap, r, keys, v);
    var next := Link(heap, r, keys[0]);
    if |keys| == 1 {
      assert heap[r][keys[0] := v][keys[0] := w] == heap[r][keys[0] := w];
      assert PutIn(PutIn(heap, r, keys, v), r, keys, w) == PutIn(heap, r, keys, w);
    } else if next.Some? {
      PutTwice(heap, next.value, keys[1..], v, w);
      KeepsLink(heap, next.value, keys[1..], v, r, keys[0]);
    } else {
      var grown := Enter(heap + [map[]], r, keys[0], Shared(|heap|));
      PutTwice(grown, |heap|, keys[1..], v, w);
      KeepsLink(grown, |heap|, keys[1..], v, r, keys[0]);
    }
  }

  /** A circling path was cut by the first write, so the second builds dictionaries. */
  lemma {:induction false} PutAcrossCut(heap: Heap, r: Ref, keys: seq<string>, c: Ref, k: string, w: Val)
    requires r < |heap| && keys != [] && c < |heap| && PassesEarly(heap, r, keys, c, k)
    ensures |PutIn(Enter(heap, c, k, List([])), r, keys, w)| > |heap|
    decreases |keys|
  {
    var cut := Enter(heap, c, k, List([]));
    if r == c && keys[0] == k {
      var grown := Enter(cut + [map[]], r, keys[0], Shared(|cut|));
      PutGrows(grown, |cut|, keys[1..], w);
    } else {
      var next := Link(heap, r, keys[0]).value;
      assert Link(cut, r, keys[0]) == Some(next);
      PutAcrossCut(heap, next, keys[1..], c, k, w);
    }
  }
}
