/** Dictionaries shared between outputs, and the output with the empty name. */
module VariableAliases {
  import opened Text
  import opened VariableNames
  import opened VariableStore
  import opened VariableLaws
  import opened VariableSharing

  /** The store after one variable is set to what another reads, and a key is then
      written below the first. */
  ghost function Assigned(vars: Vars, target: Target, r: Ref, key: string, v: Val): Vars
    requires Consistent(vars) && Writable(vars, target) && target.keys == [] && r < |vars.heap|
    requires Placed(|vars.heap|, v)
  {
    SetKeepsConsistent(vars, target, Shared(r));
    BelowAssigned(vars, target, r, key);
    After(After(vars, target, Shared(r)), target.(keys := [key]), v)
  }

  lemma BelowAssigned(vars: Vars, target: Target, r: Ref, key: string)
    requires Consistent(vars) && Writable(vars, target) && target.keys == [] && r < |vars.heap|
    ensures var once := After(vars, target, Shared(r));
            && once.heap == vars.heap
            && Consistent(once) && Writable(once, target.(keys := [key]))
            && Root(once, target.(keys := [key])) == Shared(r)
            && (WritesOutput(once, target.(keys := [key])) <==> vars.heap[r] == map[])
  {
    SetKeepsConsistent(vars, target, Shared(r));
    OutputWritten(vars, target, Shared(r));
    assert vars.heap + [] == vars.heap;
  }

  /** After `target := from`, where `from` is an output that holds a dictionary, a key
      written below `target` is read below `from` if and only if that dictionary is not
      empty: an empty one is replaced by a new one. */
  lemma AssignmentShares(env: Env, vars: Vars, from: Target, target: Target, r: Ref, key: string, v: Val)
    requires Sane(env) && Consistent(vars) && Writable(vars, target) && Placed(|vars.heap|, v)
    requires target.keys == [] && Named(from) && from.keys == [] && from.cpn in vars.outputs
    requires from.cpn != target.cpn || from.root != target.root
    requires Get(env, vars, from) == Ok(Shared(r)) && r < |vars.heap|
    ensures Get(env, Assigned(vars, target, r, key, v), from.(keys := [key]))
         == Ok(if vars.heap[r] != map[] then v else Null)
  {
    hide Consistent, Reads, Rest, Tail;
    BelowAssigned(vars, target, r, key);
    var once := After(vars, target, Shared(r));
    OutputWritten(vars, target, Shared(r));
    var t, o := target.(keys := [key]), from.(keys := [key]);
    assert Root(once, o) == Shared(r);
    ReadAfterSet(env, once, t, v, o);
    assert [key][1..] == [] && [key][1..][0..] == [];
    ReadsShared(env, once, t, o, r, key);
  }

  lemma ReadsShared(env: Env, once: Vars, t: Target, o: Target, r: Ref, key: string)
    requires Consistent(once) && Writable(once, t) && t.keys == [key]
    requires Named(o) && o.cpn in once.outputs && o.keys == [key] && r < |once.heap|
    requires Root(once, t) == Shared(r) && Root(once, o) == Shared(r)
    requires o.cpn != t.cpn || o.root != t.root
    ensures Reads(env, once, t, o) <==> !WritesOutput(once, t)
    ensures Reads(env, once, t, o) ==> Rest(env, once, t, o) == [] && Tail(once, t) == []
    ensures Get(env, once, o) == Ok(Lookup(once.heap[r], key))
  {
    assert [key][1..] == [];
    assert Walk(env, once.heap, Shared(r), [key]) == Below(env, once.heap, Shared(r), key);
  }

  // ----- The empty name -----

  /** Below the empty name one reads below the output that the first key names. */
  lemma EmptyNameReads(env: Env, vars: Vars, cpn: string, keys: seq<string>)
    requires cpn in vars.outputs && keys != []
    ensures Get(env, vars, Output(cpn, "", keys))
         == Ok(Walk(env, vars.heap, Lookup(vars.outputs[cpn], keys[0]), keys[1..]))
  {
  }

  /** A write to the empty name itself is never read back. */
  lemma EmptyNameIsNotReadBack(env: Env, vars: Vars, cpn: string, v: Val)
    requires RefsKnown(vars) && cpn in vars.outputs && Placed(|vars.heap|, v)
    ensures Set(vars, Output(cpn, "", []), v).Ok?
    ensures Get(env, Set(vars, Output(cpn, "", []), v).value, Output(cpn, "", [])) != Ok(v)
  {
  }

  /** When the first key is empty too, one reads in the copy that the write left there. */
  lemma EmptyKeyReadsCopy(env: Env, vars: Vars, cpn: string, rest: seq<string>, v: Val)
    requires Consistent(vars) && RefsKnown(vars) && cpn in vars.outputs
    ensures var t := Output(cpn, "", [""] + rest);
            && Set(vars, t, v).Ok?
            && var after := Set(vars, t, v).value;
               Get(env, after, t) == Ok(Walk(env, after.heap, Shared(|vars.heap|), rest))
  {
    hide PutIn, Touched, Set, Walk;
    var keys := [""] + rest;
    EmptyNameWritten(vars, cpn, keys, v);
    EmptyNameReads(env, Set(vars, Output(cpn, "", keys), v).value, cpn, keys);
    assert keys[1..] == rest;
  }

  /** The first key names an output that is a dictionary, so that a write with more
      keys goes into that dictionary. */
  predicate ReachesOutput(vars: Vars, cpn: string, keys: seq<string>)
    requires cpn in vars.outputs && keys != []
  {
    |keys| > 1 && Lookup(vars.outputs[cpn], keys[0]).Shared? && Lookup(vars.outputs[cpn], keys[0]).ref < |vars.heap|
  }

  /** What a write below the empty name does: into the named output's own dictionary
      if there is one, else into a copy of the outputs that no reading by name sees. */
  lemma EmptyNameWritten(vars: Vars, cpn: string, keys: seq<string>, v: Val)
    requires Consistent(vars) && RefsKnown(vars) && cpn in vars.outputs && keys != []
    ensures Set(vars, Output(cpn, "", keys), v).Ok?
    ensures var heap, outputs := vars.heap + [vars.outputs[cpn]], vars.outputs[cpn];
            Set(vars, Output(cpn, "", keys), v).value == vars.(
              heap := PutIn(heap, |vars.heap|, keys, v),
              outputs := vars.outputs[cpn := outputs["" := Shared(|vars.heap|)]])
    ensures var heap, n := vars.heap + [vars.outputs[cpn]], |vars.heap|;
            if ReachesOutput(vars, cpn, keys)
            then PutIn(heap, n, keys, v) == PutIn(heap, Lookup(vars.outputs[cpn], keys[0]).ref, keys[1..], v)
            else Touched(heap, n, keys) == (n, keys[0], keys[1..])
  {
    var outputs := vars.outputs[cpn];
    assert PlacedDict(|vars.heap|, outputs);
    if outputs == map[] {
      assert vars.heap + [map[]] == vars.heap + [outputs];
    }
  }

  /** Below the empty name, unless the first key is empty too: every value written
      is read back if and only if the first key reaches a dictionary output and the
      path from there does not circle.  Without such an output nothing changes in
      what is read there. */
  lemma EmptyNameReadBackIff(env: Env, vars: Vars, cpn: string, keys: seq<string>)
    requires Sane(env) && Consistent(vars) && RefsKnown(vars) && cpn in vars.outputs
    requires keys != [] && keys[0] != ""
    ensures (ReachesOutput(vars, cpn, keys)
             && !Circles(vars.heap, Lookup(vars.outputs[cpn], keys[0]).ref, keys[1..]))
            <==> forall v :: Placed(|vars.heap|, v) ==> ReadsBack(env, vars, cpn, keys, v)
    ensures !ReachesOutput(vars, cpn, keys) ==> forall v :: Placed(|vars.heap|, v) ==>
              && Set(vars, Output(cpn, "", keys), v).Ok?
              && Get(env, Set(vars, Output(cpn, "", keys), v).value, Output(cpn, "", keys))
                 == Get(env, vars, Output(cpn, "", keys))
  {
    hide Consistent, RefsKnown, Circles, Set, Get;
    forall v | Placed(|vars.heap|, v)
      ensures ReachesOutput(vars, cpn, keys)
              && !Circles(vars.heap, Lookup(vars.outputs[cpn], keys[0]).ref, keys[1..])
              ==> ReadsBack(env, vars, cpn, keys, v)
      ensures !ReachesOutput(vars, cpn, keys) ==>
                && Set(vars, Output(cpn, "", keys), v).Ok?
                && Get(env, Set(vars, Output(cpn, "", keys), v).value, Output(cpn, "", keys))
                   == Get(env, vars, Output(cpn, "", keys))
    {
      EmptyNameRead(env, vars, cpn, keys, v);
    }
    EmptyNameLost(env, vars, cpn, keys);
  }

  ghost predicate ReadsBack(env: Env, vars: Vars, cpn: string, keys: seq<string>, v: Val)
    requires RefsKnown(vars)
  {
    var after := Set(vars, Output(cpn, "", keys), v);
    after.Ok? && Get(env, after.value, Output(cpn, "", keys)) == Ok(v)
  }

  /** The reading below the empty name after a write there. */
  lemma EmptyNameRead(env: Env, vars: Vars, cpn: string, keys: seq<string>, v: Val)
    requires Sane(env) && Consistent(vars) && RefsKnown(vars) && cpn in vars.outputs
    requires keys != [] && keys[0] != "" && Placed(|vars.heap|, v)
    ensures Set(vars, Output(cpn, "", keys), v).Ok?
    ensures var now := Get(env, Set(vars, Output(cpn, "", keys), v).value, Output(cpn, "", keys));
            if !ReachesOutput(vars, cpn, keys) then now == Get(env, vars, Output(cpn, "", keys))
            else
              var r := Lookup(vars.outputs[cpn], keys[0]).ref;
              && (!Circles(vars.heap, r, keys[1..]) ==> now == Ok(v))
              && (Circles(vars.heap, r, keys[1..]) && v == List([]) ==> now == Ok(Null))
  {
    hide PutIn, Touched, Set, Walk, Circles;
    EmptyNameWritten(vars, cpn, keys, v);
    var after := Set(vars, Output(cpn, "", keys), v).value;
    var first, heap := Lookup(vars.outputs[cpn], keys[0]), vars.heap + [vars.outputs[cpn]];
    assert Lookup(after.outputs[cpn], keys[0]) == first;
    EmptyNameReads(env, after, cpn, keys);
    EmptyNameReads(env, vars, cpn, keys);
    CopyPlaced(vars, cpn);
    if ReachesOutput(vars, cpn, keys) {
      PutReadBack(env, heap, first.ref, keys[1..], v);
      CopyCircles(vars.heap, vars.outputs[cpn], first.ref, keys[1..]);
    } else {
      ReadAfterPut(env, heap, |vars.heap|, keys, v, first, keys[1..]);
      NotInCopy(env, vars.heap, vars.outputs[cpn], first, keys[1..], keys[0]);
    }
  }

  lemma CopyPlaced(vars: Vars, cpn: string)
    requires Consistent(vars) && cpn in vars.outputs
    ensures PlacedHeap(vars.heap) && PlacedHeap(vars.heap + [vars.outputs[cpn]])
    ensures forall key :: Bound(|vars.heap|, Lookup(vars.outputs[cpn], key))
    ensures forall key :: Bound(|vars.heap| + 1, Lookup(vars.outputs[cpn], key))
  {
    var n := |vars.heap|;
    assert PlacedDict(n, vars.outputs[cpn]);
    DictPlacedMore(n, n + 1, vars.outputs[cpn]);
    HeapPlaced(vars.heap, [vars.outputs[cpn]]);
  }

  /** Old values are read in the same way with the copy, and never through it. */
  lemma NotInCopy(env: Env, heap: Heap, copy: Dict, v: Val, path: seq<string>, k: string)
    requires Sane(env) && PlacedHeap(heap) && Bound(|heap|, v)
    ensures Walk(env, heap + [copy], v, path) == Walk(env, heap, v, path)
    ensures !Passes(env, heap + [copy], v, path, |heap|, k)
  {
    WalkGrown(env, heap, [copy], v, path);
    NeverPassesCopy(env, heap, copy, v, path, k);
  }

  lemma {:induction false} NeverPassesCopy(env: Env, heap: Heap, copy: Dict, v: Val, path: seq<string>, k: string)
    requires Sane(env) && PlacedHeap(heap) && Bound(|heap|, v)
    ensures !Passes(env, heap + [copy], v, path, |heap|, k)
    decreases |path|
  {
    if path != [] {
      hide Below, Sane;
      BelowSame(env, heap, heap + [copy], v, path[0], |heap|, k);
      BelowBound(env, heap, v, path[0]);
      NeverPassesCopy(env, heap, copy, Below(env, heap, v, path[0]), path[1..], k);
    }
  }

  lemma {:induction false} CopyTouched(heap: Heap, copy: Dict, r: Ref, keys: seq<string>)
    requires PlacedHeap(heap) && r < |heap| && keys != []
    ensures Touched(heap + [copy], r, keys) == Touched(heap, r, keys)
    decreases |keys|
  {
    CopyLink(heap, copy, r, keys[0]);
    if |keys| > 1 && Link(heap, r, keys[0]).Some? {
      CopyTouched(heap, copy, Link(heap, r, keys[0]).value, keys[1..]);
    }
  }

  lemma CopyLink(heap: Heap, copy: Dict, r: Ref, key: string)
    requires PlacedHeap(heap) && r < |heap|
    ensures Link(heap + [copy], r, key) == Link(heap, r, key)
  {
    assert PlacedDict(|heap|, heap[r]);
  }

  lemma {:induction false} CopyPassesEarly(heap: Heap, copy: Dict, r: Ref, keys: seq<string>, c: Ref, k: string)
    requires PlacedHeap(heap) && r < |heap| && keys != []
    ensures PassesEarly(heap + [copy], r, keys, c, k) == PassesEarly(heap, r, keys, c, k)
    decreases |keys|
  {
    CopyLink(heap, copy, r, keys[0]);
    if |keys| > 1 && Link(heap, r, keys[0]).Some? {
      CopyPassesEarly(heap, copy, Link(heap, r, keys[0]).value, keys[1..], c, k);
    }
  }

  lemma CopyCircles(heap: Heap, copy: Dict, r: Ref, keys: seq<string>)
    requires PlacedHeap(heap) && r < |heap| && keys != []
    ensures Circles(heap + [copy], r, keys) == Circles(heap, r, keys)
  {
    CopyTouched(heap, copy, r, keys);
    CopyPassesEarly(heap, copy, r, keys, Touched(heap, r, keys).0, Touched(heap, r, keys).1);
  }

  /** When the first key is empty too, the write goes on below the output that an earlier
      such write has left under the empty name.  Every value is read back if and only if
      the reading, which begins in the copy, comes upon the same key with the same keys
      left; never where the empty name holds no dictionary. */
  lemma EmptyKeyReadBackIff(env: Env, vars: Vars, cpn: string, rest: seq<string>)
    requires Sane(env) && Consistent(vars) && RefsKnown(vars) && cpn in vars.outputs
    ensures ComesUpon(env, vars, cpn, rest) <==>
            forall v :: Placed(|vars.heap|, v) ==> ReadsBack(env, vars, cpn, [""] + rest, v)
    ensures ComesUpon(env, vars, cpn, rest) ==> ReachesOutput(vars, cpn, [""] + rest)
  {
    hide Consistent, RefsKnown, Set, Get, PutIn, ComesUpon;
    forall v ensures ComesUpon(env, vars, cpn, rest) ==> ReadsBack(env, vars, cpn, [""] + rest, v)
    {
      EmptyKeyRead(env, vars, cpn, rest, v);
    }
    EmptyKeyRead(env, vars, cpn, rest, Null);
    assert Placed(|vars.heap|, Null) && Placed(|vars.heap|, List([]));
    EmptyKeyNeeds(env, vars, cpn, rest);
  }

  /** The reading passes the key that the write touches, with as many keys left. */
  predicate ComesUpon(env: Env, vars: Vars, cpn: string, rest: seq<string>)
    requires cpn in vars.outputs
  {
    var heap, n := vars.heap + [vars.outputs[cpn]], |vars.heap|;
    var (c, k, tail) := Touched(heap, n, [""] + rest);
    Passes(env, heap, Shared(n), rest, c, k) && Remainder(env, heap, Shared(n), rest, c, k) == tail
  }

  lemma EmptyKeyRead(env: Env, vars: Vars, cpn: string, rest: seq<string>, v: Val)
    requires Sane(env) && Consistent(vars) && RefsKnown(vars) && cpn in vars.outputs
    ensures if ComesUpon(env, vars, cpn, rest) then ReadsBack(env, vars, cpn, [""] + rest, v)
            else !ReadsBack(env, vars, cpn, [""] + rest, Null) || !ReadsBack(env, vars, cpn, [""] + rest, List([]))
  {
    hide PutIn, Touched, Set, Walk, Passes, Remainder, Consistent, RefsKnown, Get;
    var heap, n := vars.heap + [vars.outputs[cpn]], |vars.heap|;
    EmptyKeyReadsCopy(env, vars, cpn, rest, v);
    EmptyKeyReadsCopy(env, vars, cpn, rest, Null);
    EmptyKeyReadsCopy(env, vars, cpn, rest, List([]));
    EmptyNameWritten(vars, cpn, [""] + rest, v);
    EmptyNameWritten(vars, cpn, [""] + rest, Null);
    EmptyNameWritten(vars, cpn, [""] + rest, List([]));
    CopyPlaced(vars, cpn);
    ReadsWrittenIff(env, heap, n, [""] + rest, Shared(n), rest, v);
  }

  /** Without a dictionary under the empty name the write touches the copy itself, which
      the reading can pass at its first key only. */
  lemma EmptyKeyNeeds(env: Env, vars: Vars, cpn: string, rest: seq<string>)
    requires Sane(env) && Consistent(vars) && RefsKnown(vars) && cpn in vars.outputs
    ensures ComesUpon(env, vars, cpn, rest) ==> ReachesOutput(vars, cpn, [""] + rest)
  {
    hide PutIn, Touched, Consistent, RefsKnown;
    var heap, n := vars.heap + [vars.outputs[cpn]], |vars.heap|;
    EmptyNameWritten(vars, cpn, [""] + rest, Null);
    CopyPlaced(vars, cpn);
    if !ReachesOutput(vars, cpn, [""] + rest) {
      assert Touched(heap, n, [""] + rest) == (n, "", rest);
    }
  }

  /** Where the condition fails, some value is not read back. */
  lemma EmptyNameLost(env: Env, vars: Vars, cpn: string, keys: seq<string>)
    requires Sane(env) && Consistent(vars) && RefsKnown(vars) && cpn in vars.outputs
    requires keys != [] && keys[0] != ""
    ensures ReachesOutput(vars, cpn, keys) && Circles(vars.heap, Lookup(vars.outputs[cpn], keys[0]).ref, keys[1..])
            ==> Placed(|vars.heap|, List([])) && !ReadsBack(env, vars, cpn, keys, List([]))
    ensures !ReachesOutput(vars, cpn, keys) ==>
              exists v :: Placed(|vars.heap|, v) && !ReadsBack(env, vars, cpn, keys, v)
  {
    hide Circles, Walk, Set, Get;
    EmptyNameRead(env, vars, cpn, keys, List([]));
    EmptyNameRead(env, vars, cpn, keys, Null);
    if !ReachesOutput(vars, cpn, keys) {
      assert Placed(|vars.heap|, List([])) && Placed(|vars.heap|, Null);
      if Get(env, vars, Output(cpn, "", keys)) == Ok(Null) {
        assert !ReadsBack(env, vars, cpn, keys, List([]));
      } else {
        assert !ReadsBack(env, vars, cpn, keys, Null);
      }
    }
  }
}
