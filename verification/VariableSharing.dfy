/** What setting a variable does to reading that variable and every other one. */
module VariableSharing {
  import opened Text
  import opened VariableNames
  import opened VariableStore
  import opened VariableLaws

  predicate Named(t: Target) {
    t.Output? && t.root != ""
  }

  function Root(vars: Vars, t: Target): Val
    requires t.Output? && t.cpn in vars.outputs
  {
    RootValue(vars.outputs[t.cpn], t.root)
  }

  /** The write replaces the output itself: it has no keys, or the output is falsy. */
  predicate WritesOutput(vars: Vars, t: Target)
    requires t.Output? && t.cpn in vars.outputs
  {
    t.keys == [] || !Truthy(vars.heap, Root(vars, t))
  }

  /** The writes of named outputs that succeed. */
  ghost predicate Writable(vars: Vars, t: Target) {
    && Named(t) && t.cpn in vars.outputs
    && (WritesOutput(vars, t) || Root(vars, t).Shared?)
  }

  lemma SetSucceedsIff(vars: Vars, t: Target, v: Val)
    requires Consistent(vars) && Named(t)
    ensures RefsKnown(vars) && (Set(vars, t, v).Ok? <==> Writable(vars, t))
  {
    if t.cpn in vars.outputs {
      RootBound(vars, t.cpn, t.root);
      assert PlacedDict(|vars.heap|, vars.outputs[t.cpn]);
    } else {
      NoRefs(vars);
    }
  }

  lemma NoRefs(vars: Vars)
    requires Consistent(vars)
    ensures RefsKnown(vars)
  {
    forall c, k | c in vars.outputs && k in vars.outputs[c] && vars.outputs[c][k].Shared?
      ensures vars.outputs[c][k].ref < |vars.heap|
    {
      assert PlacedDict(|vars.heap|, vars.outputs[c]);
    }
  }

  ghost function After(vars: Vars, t: Target, v: Val): Vars
    requires Consistent(vars) && Writable(vars, t)
  {
    SetSucceedsIff(vars, t, v);
    Set(vars, t, v).value
  }

  // ----- One output or one key of one dictionary -----

  /** The keys a write has left when it comes to what it touches. */
  ghost function Tail(vars: Vars, t: Target): seq<string>
    requires Consistent(vars) && Writable(vars, t)
  {
    NoRefs(vars);
    if WritesOutput(vars, t) then t.keys else Touched(vars.heap, Root(vars, t).ref, t.keys).2
  }

  /** Reading `o` comes upon the output, or the key of the dictionary, that writing `t` touches. */
  ghost predicate Reads(env: Env, vars: Vars, t: Target, o: Target)
    requires Consistent(vars) && Writable(vars, t) && o.Output? && o.cpn in vars.outputs
  {
    NoRefs(vars);
    if WritesOutput(vars, t) then o.cpn == t.cpn && o.root == t.root
    else
      var (c, k, _) := Touched(vars.heap, Root(vars, t).ref, t.keys);
      Passes(env, vars.heap, Root(vars, o), o.keys, c, k)
  }

  /** The keys the reading has left there. */
  ghost function Rest(env: Env, vars: Vars, t: Target, o: Target): seq<string>
    requires Consistent(vars) && Writable(vars, t) && o.Output? && o.cpn in vars.outputs && Reads(env, vars, t, o)
  {
    NoRefs(vars);
    if WritesOutput(vars, t) then o.keys
    else
      var (c, k, _) := Touched(vars.heap, Root(vars, t).ref, t.keys);
      Remainder(env, vars.heap, Root(vars, o), o.keys, c, k)
  }

  lemma OutputWritten(vars: Vars, t: Target, v: Val)
    requires Consistent(vars) && Writable(vars, t) && WritesOutput(vars, t)
    ensures After(vars, t, v) == vars.(
              heap := vars.heap + Chain(|vars.heap|, t.keys, v),
              outputs := vars.outputs[t.cpn := vars.outputs[t.cpn][t.root := Content(|vars.heap|, t.keys, v)]])
  {
    SetSucceedsIff(vars, t, v);
    if t.keys == [] {
      assert vars.heap + [] == vars.heap;
    } else {
      PutInNew(vars.heap, t.keys, v);
    }
  }

  lemma DictWritten(vars: Vars, t: Target, v: Val)
    requires Consistent(vars) && Writable(vars, t) && !WritesOutput(vars, t)
    ensures Root(vars, t).ref < |vars.heap|
    ensures After(vars, t, v) == vars.(heap := PutIn(vars.heap, Root(vars, t).ref, t.keys, v))
  {
    SetSucceedsIff(vars, t, v);
    var outputs := vars.outputs[t.cpn];
    assert outputs[t.root := Root(vars, t)] == outputs;
    assert vars.outputs[t.cpn := outputs] == vars.outputs;
  }

  /** Every reading after a write: one that comes upon what was touched goes on
      inside what was written, any other one is as before. */
  lemma ReadAfterSet(env: Env, vars: Vars, t: Target, v: Val, o: Target)
    requires Sane(env) && Consistent(vars) && Writable(vars, t)
    requires Named(o) && o.cpn in vars.outputs
    ensures Get(env, After(vars, t, v), o) ==
            if Reads(env, vars, t, o)
            then Ok(Inside(env, After(vars, t, v).heap, |vars.heap|, Tail(vars, t), v, Rest(env, vars, t, o)))
            else Get(env, vars, o)
  {
    hide Walk, Passes, Remainder, PutIn, Touched, Inside, Consistent, Chain, Set;
    RootBound(vars, o.cpn, o.root);
    PlacedParts(vars);
    if WritesOutput(vars, t) {
      OutputWritten(vars, t, v);
      if Reads(env, vars, t, o) {
        InsideContent(env, vars.heap, t.keys, v, o.keys);
      } else {
        WalkGrown(env, vars.heap, Chain(|vars.heap|, t.keys, v), Root(vars, o), o.keys);
      }
    } else {
      DictWritten(vars, t, v);
      ReadAfterPut(env, vars.heap, Root(vars, t).ref, t.keys, v, Root(vars, o), o.keys);
    }
  }

  lemma PlacedParts(vars: Vars)
    requires Consistent(vars)
    ensures PlacedHeap(vars.heap)
  {
  }

  lemma ReadingIsOld(env: Env, vars: Vars, o: Target)
    requires Sane(env) && Consistent(vars) && Named(o) && o.cpn in vars.outputs
    ensures Get(env, vars, o).Ok? && Bound(|vars.heap|, Get(env, vars, o).value)
  {
    RootBound(vars, o.cpn, o.root);
    WalkBound(env, vars.heap, Root(vars, o), o.keys);
  }

  // ----- Reading back -----

  /** The dictionaries on the path of the write lead back to the key it touches. */
  ghost predicate GoesInCircles(vars: Vars, t: Target)
    requires Consistent(vars) && Writable(vars, t)
  {
    NoRefs(vars);
    !WritesOutput(vars, t) && Circles(vars.heap, Root(vars, t).ref, t.keys)
  }

  lemma ReadBack(env: Env, vars: Vars, t: Target, v: Val)
    requires Sane(env) && Consistent(vars) && Writable(vars, t)
    ensures !GoesInCircles(vars, t) ==> Get(env, After(vars, t, v), t) == Ok(v)
    ensures GoesInCircles(vars, t) && v == List([]) ==> Get(env, After(vars, t, v), t) == Ok(Null)
  {
    PlacedParts(vars);
    if WritesOutput(vars, t) {
      ReadAfterSet(env, vars, t, v, t);
      assert t.keys[|t.keys|..] == [];
    } else {
      DictWritten(vars, t, v);
      PutReadBack(env, vars.heap, Root(vars, t).ref, t.keys, v);
    }
  }

  /** Reading a variable gives back every value written to it if and only if the
      written path does not go in circles. */
  lemma ReadBackIff(env: Env, vars: Vars, t: Target)
    requires Sane(env) && Consistent(vars) && Writable(vars, t)
    ensures !GoesInCircles(vars, t) <==>
            forall v :: Placed(|vars.heap|, v) ==> Get(env, After(vars, t, v), t) == Ok(v)
  {
    hide Get, Consistent, Writable, GoesInCircles, After;
    forall v ensures !GoesInCircles(vars, t) ==> Get(env, After(vars, t, v), t) == Ok(v) {
      ReadBack(env, vars, t, v);
    }
    ReadBack(env, vars, t, List([]));
    assert Placed(|vars.heap|, List([]));
  }

  // ----- The frame -----

  /** What a reading gives that goes on inside the written value, told on the store
      before the write: the value's own reading, unless that passes the touched key. */
  ghost function Foreseen(env: Env, vars: Vars, t: Target, v: Val, path: seq<string>): Val
    requires Consistent(vars) && Writable(vars, t)
  {
    NoRefs(vars);
    if WritesOutput(vars, t) then Walk(env, vars.heap, v, path)
    else Sees(env, vars.heap, Touched(vars.heap, Root(vars, t).ref, t.keys), v, v, path)
  }

  lemma ForeseenIsRead(env: Env, vars: Vars, t: Target, v: Val, path: seq<string>)
    requires Sane(env) && Consistent(vars) && Writable(vars, t) && Placed(|vars.heap|, v)
    ensures Walk(env, After(vars, t, v).heap, v, path) == Foreseen(env, vars, t, v, path)
  {
    hide Walk, PutIn, Touched, Consistent, Chain, Set, Sees;
    PlacedParts(vars);
    if WritesOutput(vars, t) {
      OutputWritten(vars, t, v);
      WalkGrown(env, vars.heap, Chain(|vars.heap|, t.keys, v), v, path);
    } else {
      DictWritten(vars, t, v);
      SeenAfterPut(env, vars.heap, Root(vars, t).ref, t.keys, v, v, path);
    }
  }

  /** What a reading gives that comes upon the write with keys `rest` left. */
  ghost function Found(env: Env, vars: Vars, t: Target, v: Val, rest: seq<string>): Val
    requires Consistent(vars) && Writable(vars, t)
  {
    var tail := Tail(vars, t);
    if tail <= rest then Foreseen(env, vars, t, v, rest[|tail|..])
    else if rest <= tail then Shared(|vars.heap| + |rest|)
    else Null
  }

  /** Every reading after a write, told on the store before it. */
  lemma SeenAfterSet(env: Env, vars: Vars, t: Target, v: Val, o: Target)
    requires Sane(env) && Consistent(vars) && Writable(vars, t) && Placed(|vars.heap|, v)
    requires Named(o) && o.cpn in vars.outputs
    ensures Get(env, After(vars, t, v), o) ==
            if Reads(env, vars, t, o) then Ok(Found(env, vars, t, v, Rest(env, vars, t, o))) else Get(env, vars, o)
  {
    hide Walk, Consistent, Writable, After, Get, Reads, Rest, Tail, Foreseen;
    ReadAfterSet(env, vars, t, v, o);
    if Reads(env, vars, t, o) {
      var tail, rest := Tail(vars, t), Rest(env, vars, t, o);
      if tail <= rest {
        ForeseenIsRead(env, vars, t, v, rest[|tail|..]);
      }
    }
  }

  /** A write leaves another variable as it was if and only if reading that one does
      not come upon what is touched, or comes there upon what it read before: inside
      the value, or nothing where the paths part, but never a new dictionary. */
  lemma FrameIff(env: Env, vars: Vars, t: Target, v: Val, o: Target)
    requires Sane(env) && Consistent(vars) && Writable(vars, t) && Placed(|vars.heap|, v)
    requires Named(o) && o.cpn in vars.outputs
    ensures Get(env, After(vars, t, v), o) == Get(env, vars, o) <==>
            || !Reads(env, vars, t, o)
            || (var tail, rest := Tail(vars, t), Rest(env, vars, t, o);
                if tail <= rest then Get(env, vars, o) == Ok(Foreseen(env, vars, t, v, rest[|tail|..]))
                else !(rest <= tail) && Get(env, vars, o) == Ok(Null))
  {
    hide Walk, Consistent, Writable, After, Get, Reads, Rest, Tail, Foreseen;
    SeenAfterSet(env, vars, t, v, o);
    ReadingIsOld(env, vars, o);
  }

  /** Nothing but the written path leads to the dictionary that is touched. */
  ghost predicate OnlyWay(env: Env, vars: Vars, t: Target)
    requires Consistent(vars) && Writable(vars, t)
  {
    NoRefs(vars);
    !WritesOutput(vars, t) ==>
      var (c, _, tail) := Touched(vars.heap, Root(vars, t).ref, t.keys);
      forall o :: Named(o) && Get(env, vars, o) == Ok(Shared(c)) ==> o == t.(keys := t.keys[..|t.keys| - |tail| - 1])
  }

  /** The keys of the written path up to the touched one, with it. */
  ghost function UpToTouched(vars: Vars, t: Target): (r: seq<string>)
    requires Consistent(vars) && Writable(vars, t)
    ensures r <= t.keys
  {
    NoRefs(vars);
    if WritesOutput(vars, t) then [] else t.keys[..|t.keys| - |Tail(vars, t)|]
  }

  /** A reading passes a key where its first keys lead to the dictionary and the next is it. */
  lemma {:induction false} PassesAt(env: Env, heap: Heap, v: Val, path: seq<string>, c: Ref, k: string)
    ensures Passes(env, heap, v, path, c, k) <==>
            exists i :: 0 <= i < |path| && path[i] == k && Walk(env, heap, v, path[..i]) == Shared(c)
    decreases |path|
  {
    if path != [] {
      var next, rest := Below(env, heap, v, path[0]), path[1..];
      PassesAt(env, heap, next, rest, c, k);
      forall i | 0 <= i < |rest| ensures Walk(env, heap, v, path[..i + 1]) == Walk(env, heap, next, rest[..i]) {
        assert path[..i + 1][0] == path[0] && path[..i + 1][1..] == rest[..i];
      }
      if v == Shared(c) && path[0] == k {
        assert Walk(env, heap, v, path[..0]) == v;
      }
      if i :| 0 <= i < |rest| && rest[i] == k && Walk(env, heap, next, rest[..i]) == Shared(c) {
        assert path[i + 1] == k && Walk(env, heap, v, path[..i + 1]) == Shared(c);
      }
      if i :| 0 <= i < |path| && path[i] == k && Walk(env, heap, v, path[..i]) == Shared(c) {
        if i > 0 {
          var j := i - 1;
          assert rest[j] == k && Walk(env, heap, next, rest[..j]) == Shared(c);
        } else {
          assert path[..0] == [];
        }
      }
    }
  }

  /** The written path leads to the touched dictionary, and its next key is the touched one. */
  lemma {:induction false} TouchedAt(env: Env, heap: Heap, r: Ref, keys: seq<string>)
    requires r < |heap| && keys != []
    ensures var (c, k, tail) := Touched(heap, r, keys);
            var i := |keys| - |tail| - 1;
            && 0 <= i < |keys| && keys[i] == k && tail == keys[i + 1..]
            && Walk(env, heap, Shared(r), keys[..i]) == Shared(c)
    decreases |keys|
  {
    var next := Link(heap, r, keys[0]);
    if |keys| > 1 && next.Some? {
      TouchedAt(env, heap, next.value, keys[1..]);
      var i := |keys| - |Touched(heap, r, keys).2| - 1;
      assert Below(env, heap, Shared(r), keys[0]) == Shared(next.value);
      assert keys[..i][0] == keys[0] && keys[..i][1..] == keys[1..][..i - 1];
    }
  }

  /** If only the written path leads to the touched dictionary, another path reads
      the touched key exactly when it begins like the written one up to it. */
  lemma OnlyWayReads(env: Env, vars: Vars, t: Target, o: Target)
    requires Consistent(vars) && Writable(vars, t) && OnlyWay(env, vars, t)
    requires Named(o) && o.cpn in vars.outputs
    ensures Reads(env, vars, t, o) <==>
            o.cpn == t.cpn && o.root == t.root && UpToTouched(vars, t) <= o.keys
    ensures Reads(env, vars, t, o) ==> Rest(env, vars, t, o) == o.keys[|UpToTouched(vars, t)|..]
  {
    NoRefs(vars);
    if WritesOutput(vars, t) {
      assert o.keys[0..] == o.keys;
    } else {
      hide Consistent, Touched, Walk, Passes, Remainder;
      var heap, r := vars.heap, Root(vars, t).ref;
      DictWritten(vars, t, Null);
      var (c, k, tail) := Touched(heap, r, t.keys);
      var n := |t.keys| - |tail| - 1;
      TouchedAt(env, heap, r, t.keys);
      PassesAt(env, heap, Root(vars, o), o.keys, c, k);
      if i :| 0 <= i < |o.keys| && o.keys[i] == k && Walk(env, heap, Root(vars, o), o.keys[..i]) == Shared(c) {
        OnlyTouchedPlace(env, vars, t, o, i);
      }
      if o.cpn == t.cpn && o.root == t.root && t.keys[..n + 1] <= o.keys {
        assert t.keys[..n + 1][..n] == t.keys[..n] == o.keys[..n];
        assert o.keys[n] == t.keys[..n + 1][n] == k;
      }
      if Reads(env, vars, t, o) {
        forall i | 0 <= i < |o.keys| && o.keys[i] == k && Walk(env, heap, Root(vars, o), o.keys[..i]) == Shared(c)
          ensures i == n
        {
          OnlyTouchedPlace(env, vars, t, o, i);
        }
        RemainderAt(env, heap, Root(vars, o), o.keys, c, k, n);
      }
    }
  }

  lemma OnlyTouchedPlace(env: Env, vars: Vars, t: Target, o: Target, i: nat)
    requires Consistent(vars) && Writable(vars, t) && OnlyWay(env, vars, t) && !WritesOutput(vars, t)
    requires Named(o) && o.cpn in vars.outputs && i < |o.keys|
    requires Root(vars, t).ref < |vars.heap|
    requires var (c, k, _) := Touched(vars.heap, Root(vars, t).ref, t.keys);
             o.keys[i] == k && Walk(env, vars.heap, Root(vars, o), o.keys[..i]) == Shared(c)
    ensures var tail := Touched(vars.heap, Root(vars, t).ref, t.keys).2;
            && i == |t.keys| - |tail| - 1 && o.cpn == t.cpn && o.root == t.root
            && t.keys[..i + 1] <= o.keys
  {
    var (c, k, tail) := Touched(vars.heap, Root(vars, t).ref, t.keys);
    var n := |t.keys| - |tail| - 1;
    TouchedAt(env, vars.heap, Root(vars, t).ref, t.keys);
    var there := o.(keys := o.keys[..i]);
    assert Get(env, vars, there) == Ok(Shared(c));
    assert there == t.(keys := t.keys[..n]);
    assert t.keys[..n + 1] == t.keys[..n] + [k];
    assert o.keys[..i + 1] == o.keys[..i] + [k];
  }

  lemma {:induction false} RemainderAt(env: Env, heap: Heap, v: Val, path: seq<string>, c: Ref, k: string, n: nat)
    requires Passes(env, heap, v, path, c, k) && n < |path|
    requires forall i :: 0 <= i < |path| && path[i] == k && Walk(env, heap, v, path[..i]) == Shared(c) ==> i == n
    ensures Remainder(env, heap, v, path, c, k) == path[n + 1..]
    decreases |path|
  {
    if v == Shared(c) && path[0] == k {
      assert Walk(env, heap, v, path[..0]) == v;
    } else {
      var next, rest := Below(env, heap, v, path[0]), path[1..];
      PassesAt(env, heap, next, rest, c, k);
      forall i | 0 <= i < |rest| && rest[i] == k && Walk(env, heap, next, rest[..i]) == Shared(c)
        ensures i + 1 == n
      {
        assert path[..i + 1][0] == path[0] && path[..i + 1][1..] == rest[..i];
        assert path[i + 1] == k && Walk(env, heap, v, path[..i + 1]) == Shared(c);
      }
      RemainderAt(env, heap, next, rest, c, k, n - 1);
    }
  }

  /** Two paths part at some key of both. */
  predicate Apart(keys: seq<string>, other: seq<string>) {
    !(keys <= other) && !(other <= keys)
  }

  /** Without sharing, a variable whose path parts from the written one reads as
      before if and only if they part no later than at the touched key, or nothing
      was read there before. */
  lemma UnsharedFrameIff(env: Env, vars: Vars, t: Target, v: Val, o: Target)
    requires Sane(env) && Consistent(vars) && Writable(vars, t) && Placed(|vars.heap|, v)
    requires OnlyWay(env, vars, t) && Named(o) && o.cpn in vars.outputs
    requires o.cpn == t.cpn && o.root == t.root ==> Apart(t.keys, o.keys)
    ensures Get(env, After(vars, t, v), o) == Get(env, vars, o) <==>
            || o.cpn != t.cpn || o.root != t.root
            || !(UpToTouched(vars, t) <= o.keys)
            || Get(env, vars, o) == Ok(Null)
  {
    FrameIff(env, vars, t, v, o);
    OnlyWayReads(env, vars, t, o);
    if Reads(env, vars, t, o) {
      SuffixesApart(vars, t, o);
    }
  }

  lemma SuffixesApart(vars: Vars, t: Target, o: Target)
    requires Consistent(vars) && Writable(vars, t) && o.Output?
    requires Apart(t.keys, o.keys) && UpToTouched(vars, t) <= o.keys
    ensures Apart(Tail(vars, t), o.keys[|UpToTouched(vars, t)|..])
  {
    hide Consistent, Touched;
    NoRefs(vars);
    var front, tail := UpToTouched(vars, t), Tail(vars, t);
    if !WritesOutput(vars, t) {
      DictWritten(vars, t, Null);
      TouchedSplits(vars.heap, Root(vars, t).ref, t.keys);
    }
    assert t.keys == front + tail;
    assert o.keys == front + o.keys[|front|..];
    PrefixBehind(front, tail, o.keys[|front|..]);
    PrefixBehind(front, o.keys[|front|..], tail);
  }

  lemma PrefixBehind(front: seq<string>, a: seq<string>, b: seq<string>)
    ensures a <= b ==> front + a <= front + b
  {
    if a <= b {
      assert b == a + b[|a|..];
      assert front + b == (front + a) + b[|a|..];
    }
  }

  lemma {:induction false} TouchedSplits(heap: Heap, r: Ref, keys: seq<string>)
    requires r < |heap| && keys != []
    ensures keys == keys[..|keys| - |Touched(heap, r, keys).2|] + Touched(heap, r, keys).2
    decreases |keys|
  {
    var next := Link(heap, r, keys[0]);
    if |keys| > 1 && next.Some? {
      TouchedSplits(heap, next.value, keys[1..]);
    }
  }

  // ----- A second write -----

  /** Writing leaves a consistent store. */
  lemma SetKeepsConsistent(vars: Vars, t: Target, v: Val)
    requires Consistent(vars) && Writable(vars, t) && Placed(|vars.heap|, v)
    ensures Consistent(After(vars, t, v)) && |vars.heap| <= |After(vars, t, v).heap|
  {
    hide Consistent, Chain, PutIn, Touched, After;
    PlacedParts(vars);
    NoRefs(vars);
    if WritesOutput(vars, t) {
      OutputWritten(vars, t, v);
      ChainPlaced(|vars.heap|, t.keys, v);
      HeapPlaced(vars.heap, Chain(|vars.heap|, t.keys, v));
      var n := |vars.heap| + |t.keys|;
      PlacedMore(|vars.heap|, n, v);
      VarsPlaced(vars, t, After(vars, t, v), Content(|vars.heap|, t.keys, v));
    } else {
      DictWritten(vars, t, v);
      var (c, k, tail) := Touched(vars.heap, Root(vars, t).ref, t.keys);
      PutIsOneEntry(vars.heap, Root(vars, t).ref, t.keys, v);
      ChainPlaced(|vars.heap|, tail, v);
      HeapPlaced(vars.heap, Chain(|vars.heap|, tail, v));
      PlacedMore(|vars.heap|, |vars.heap| + |tail|, v);
      var grown := vars.heap + Chain(|vars.heap|, tail, v);
      EnterPlaced(grown, c, k, Content(|vars.heap|, tail, v));
      assert After(vars, t, v).heap == Enter(grown, c, k, Content(|vars.heap|, tail, v));
      VarsGrown(vars, After(vars, t, v));
    }
  }

  lemma {:induction false} ChainPlaced(n: nat, keys: seq<string>, v: Val)
    requires Placed(n, v)
    ensures forall i :: 0 <= i < |keys| ==> PlacedDict(n + |keys|, Chain(n, keys, v)[i])
    decreases |keys|
  {
    if keys != [] {
      PlacedMore(n, n + 1, v);
      PlacedMore(n, n + |keys|, v);
      ChainPlaced(n + 1, keys[1..], v);
    }
  }

  lemma HeapPlaced(heap: Heap, more: Heap)
    requires PlacedHeap(heap)
    requires forall i :: 0 <= i < |more| ==> PlacedDict(|heap| + |more|, more[i])
    ensures PlacedHeap(heap + more)
  {
    forall r | 0 <= r < |heap + more| ensures PlacedDict(|heap + more|, (heap + more)[r]) {
      if r < |heap| {
        DictPlacedMore(|heap|, |heap + more|, heap[r]);
      }
    }
  }

  lemma DictPlacedMore(n: nat, m: nat, dict: Dict)
    requires n <= m && PlacedDict(n, dict)
    ensures PlacedDict(m, dict)
  {
    forall key | key in dict ensures Placed(m, dict[key]) {
      PlacedMore(n, m, dict[key]);
    }
  }

  lemma EnterPlaced(heap: Heap, c: Ref, k: string, v: Val)
    requires PlacedHeap(heap) && c < |heap| && Placed(|heap|, v)
    ensures PlacedHeap(Enter(heap, c, k, v))
  {
    assert PlacedDict(|heap|, heap[c]);
    assert PlacedDict(|heap|, heap[c][k := v]);
  }

  lemma VarsPlaced(vars: Vars, t: Target, after: Vars, content: Val)
    requires Consistent(vars) && t.Output? && t.cpn in vars.outputs && |vars.heap| <= |after.heap|
    requires PlacedHeap(after.heap) && Placed(|after.heap|, content)
    requires after == vars.(heap := after.heap,
                            outputs := vars.outputs[t.cpn := vars.outputs[t.cpn][t.root := content]])
    ensures Consistent(after)
  {
    var n := |after.heap|;
    DictPlacedMore(|vars.heap|, n, vars.globals);
    forall cpn | cpn in after.outputs ensures PlacedDict(n, after.outputs[cpn]) {
      DictPlacedMore(|vars.heap|, n, vars.outputs[cpn]);
      if cpn == t.cpn {
        assert PlacedDict(n, vars.outputs[cpn][t.root := content]);
      }
    }
  }

  lemma VarsGrown(vars: Vars, after: Vars)
    requires Consistent(vars) && |vars.heap| <= |after.heap| && PlacedHeap(after.heap)
    requires after == vars.(heap := after.heap)
    ensures Consistent(after)
  {
    DictPlacedMore(|vars.heap|, |after.heap|, vars.globals);
    forall cpn | cpn in after.outputs ensures PlacedDict(|after.heap|, after.outputs[cpn]) {
      DictPlacedMore(|vars.heap|, |after.heap|, vars.outputs[cpn]);
    }
  }

  /** The write can be repeated, and is then one below the dictionary it left. */
  lemma WritableAgain(vars: Vars, t: Target, v: Val)
    requires Consistent(vars) && Writable(vars, t) && Placed(|vars.heap|, v)
    ensures Consistent(After(vars, t, v)) && Writable(After(vars, t, v), t)
    ensures t.keys != [] ==> !WritesOutput(After(vars, t, v), t)
  {
    SetKeepsConsistent(vars, t, v);
    hide Consistent, PutIn, Touched, After;
    NoRefs(vars);
    if WritesOutput(vars, t) {
      OutputWritten(vars, t, v);
      if t.keys != [] {
        var after := After(vars, t, v);
        assert Root(after, t) == Shared(|vars.heap|);
        assert t.keys[0] in after.heap[|vars.heap|];
      }
    } else {
      DictWritten(vars, t, v);
      StaysTruthy(vars.heap, Root(vars, t).ref, t.keys, v);
    }
  }

  lemma StaysTruthy(heap: Heap, r: Ref, keys: seq<string>, v: Val)
    requires r < |heap| && keys != [] && heap[r] != map[]
    ensures r < |PutIn(heap, r, keys, v)| && PutIn(heap, r, keys, v)[r] != map[]
  {
    PutIsOneEntry(heap, r, keys, v);
    var (c, k, tail) := Touched(heap, r, keys);
    var entered := Enter(heap, c, k, Content(|heap|, tail, v));
    if r == c {
      assert k in entered[r];
    }
  }

  /** A second write leaves the whole store as if it were the only one, whatever the
      values, a dictionary that the first write made included, if and only if the path
      does not go in circles. */
  lemma SecondSetWinsIff(vars: Vars, t: Target)
    requires Consistent(vars) && Writable(vars, t)
    ensures !GoesInCircles(vars, t) <==>
            forall v, w :: Placed(|vars.heap|, v) ==> OnlySecondIsLeft(vars, t, v, w)
  {
    hide Consistent, Writable, GoesInCircles, OnlySecondIsLeft, After;
    forall v, w | Placed(|vars.heap|, v)
      ensures !GoesInCircles(vars, t) ==> OnlySecondIsLeft(vars, t, v, w)
    {
      SecondSet(vars, t, v, w);
    }
    SecondSetCut(vars, t);
  }

  ghost predicate OnlySecondIsLeft(vars: Vars, t: Target, v: Val, w: Val)
    requires Consistent(vars) && Writable(vars, t)
    requires Placed(|vars.heap|, v)
  {
    WritableAgain(vars, t, v);
    After(After(vars, t, v), t, w) == After(vars, t, w)
  }

  lemma SecondSet(vars: Vars, t: Target, v: Val, w: Val)
    requires Consistent(vars) && Writable(vars, t) && Placed(|vars.heap|, v)
    ensures !GoesInCircles(vars, t) ==> OnlySecondIsLeft(vars, t, v, w)
  {
    hide Consistent, PutIn, Touched, After, Circles;
    WritableAgain(vars, t, v);
    NoRefs(vars);
    var once := After(vars, t, v);
    NoRefs(once);
    if t.keys == [] {
      OutputWritten(vars, t, v);
      OutputWritten(once, t, w);
      OutputWritten(vars, t, w);
      assert vars.heap + [] == vars.heap;
      TwiceInMaps(vars, t, v, w);
    } else if WritesOutput(vars, t) {
      OutputWritten(vars, t, v);
      OutputWritten(vars, t, w);
      DictWritten(once, t, w);
      ChainAgain(vars.heap, t.keys, v, w);
    } else if !GoesInCircles(vars, t) {
      var r := Root(vars, t).ref;
      DictWritten(vars, t, v);
      DictWritten(vars, t, w);
      DictWritten(once, t, w);
      PutTwice(vars.heap, r, t.keys, v, w);
    }
  }

  lemma TwiceInMaps(vars: Vars, t: Target, v: Val, w: Val)
    requires t.Output? && t.cpn in vars.outputs
    ensures var outputs := vars.outputs[t.cpn];
            var once := vars.outputs[t.cpn := outputs[t.root := v]];
            once[t.cpn := once[t.cpn][t.root := w]] == vars.outputs[t.cpn := outputs[t.root := w]]
  {
    var outputs := vars.outputs[t.cpn];
    assert outputs[t.root := v][t.root := w] == outputs[t.root := w];
  }

  lemma ChainAgain(heap: Heap, keys: seq<string>, v: Val, w: Val)
    requires keys != []
    ensures PutIn(heap + Chain(|heap|, keys, v), |heap|, keys, w) == heap + Chain(|heap|, keys, w)
  {
    hide PutIn, Touched;
    var start := heap + [map[]];
    PutInNew(heap, keys, v);
    PutInNew(heap, keys, w);
    NewIsStraight(start, keys);
    PutTwice(start, |heap|, keys, v, w);
  }

  lemma NewIsStraight(heap: Heap, keys: seq<string>)
    requires heap != [] && heap[|heap| - 1] == map[] && keys != []
    ensures !Circles(heap, |heap| - 1, keys)
  {
  }

  lemma SecondSetCut(vars: Vars, t: Target)
    requires Consistent(vars) && Writable(vars, t)
    ensures Placed(|vars.heap|, List([]))
    ensures GoesInCircles(vars, t) ==> !OnlySecondIsLeft(vars, t, List([]), Null)
  {
    hide Consistent, PutIn, Touched, After;
    if GoesInCircles(vars, t) {
      WritableAgain(vars, t, List([]));
      NoRefs(vars);
      var once := After(vars, t, List([]));
      NoRefs(once);
      DictWritten(vars, t, List([]));
      DictWritten(vars, t, Null);
      DictWritten(once, t, Null);
      CircleCut(vars.heap, Root(vars, t).ref, t.keys, Null);
    }
  }

  const STRAIGHT := Vars(map[], map["c" := map["x" := Shared(0)]], [map["k" := Num(1.0)]])
  const CIRCLE := Vars(map[], map["c" := map["x" := Shared(0)]], [map["k" := Shared(0)]])

  lemma CircleMade()
    ensures Consistent(STRAIGHT) && Writable(STRAIGHT, Output("c", "x", ["k"]))
    ensures After(STRAIGHT, Output("c", "x", ["k"]), Shared(0)) == CIRCLE
  {
    var t := Output("c", "x", ["k"]);
    assert "k" in STRAIGHT.heap[0];
    DictWritten(STRAIGHT, t, Shared(0));
    assert STRAIGHT.heap[0]["k" := Shared(0)] == map["k" := Shared(0)];
    assert STRAIGHT.heap[0 := map["k" := Shared(0)]] == CIRCLE.heap;
  }

  lemma CircleCircles()
    ensures Consistent(CIRCLE) && Writable(CIRCLE, Output("c", "x", ["k", "k"]))
    ensures GoesInCircles(CIRCLE, Output("c", "x", ["k", "k"]))
  {
    assert "k" in CIRCLE.heap[0] && ["k", "k"][1..] == ["k"];
    assert Link(CIRCLE.heap, 0, "k") == Some(0);
    assert Touched(CIRCLE.heap, 0, ["k"]) == (0, "k", []) == Touched(CIRCLE.heap, 0, ["k", "k"]);
  }

  /** A dictionary written below itself: the path through it twice goes in circles, and
      an empty list written there is read back as nothing. */
  lemma CircleExists(env: Env)
    requires Sane(env)
    ensures Consistent(STRAIGHT) && Writable(STRAIGHT, Output("c", "x", ["k"]))
    ensures After(STRAIGHT, Output("c", "x", ["k"]), Shared(0)) == CIRCLE
    ensures Consistent(CIRCLE) && Writable(CIRCLE, Output("c", "x", ["k", "k"]))
    ensures GoesInCircles(CIRCLE, Output("c", "x", ["k", "k"]))
    ensures Get(env, After(CIRCLE, Output("c", "x", ["k", "k"]), List([])), Output("c", "x", ["k", "k"])) == Ok(Null)
  {
    hide *;
    CircleMade();
    CircleCircles();
    ReadBack(env, CIRCLE, Output("c", "x", ["k", "k"]), List([]));
  }

  lemma CircleCut(heap: Heap, r: Ref, keys: seq<string>, w: Val)
    requires r < |heap| && keys != [] && Circles(heap, r, keys)
    ensures r < |PutIn(heap, r, keys, List([]))|
    ensures |PutIn(PutIn(heap, r, keys, List([])), r, keys, w)| > |PutIn(heap, r, keys, w)|
  {
    var (c, k, tail) := Touched(heap, r, keys);
    OwnPath(Env(s => None, s => None, (v, key) => Null), heap, r, keys);
    hide PutIn, Touched, PassesEarly;
    PutIsOneEntry(heap, r, keys, List([]));
    PutIsOneEntry(heap, r, keys, w);
    assert Enter(heap, c, k, List([])) + [] == Enter(heap, c, k, List([]));
    PutAcrossCut(heap, r, keys, c, k, w);
  }

  /** Globals and outputs do not meet: a write to one side leaves the other, and a
      global reads back. */
  lemma GlobalsApart(env: Env, vars: Vars, t: Target, v: Val, o: Target)
    requires Consistent(vars) && (t.Global? || Writable(vars, t))
    requires t.Global? || o.Global?
    ensures RefsKnown(vars) && Set(vars, t, v).Ok?
    ensures Get(env, Set(vars, t, v).value, o) == if o == t then Ok(v) else Get(env, vars, o)
  {
    NoRefs(vars);
    if t.Output? {
      SetSucceedsIff(vars, t, v);
    }
  }
}
