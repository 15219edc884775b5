/** The variables of a canvas: globals, and the outputs of its components, whose
    dictionaries have an identity, so that two outputs can hold the same one. */
module VariableStore {
  import opened Text
  import opened VariableNames

  type Ref = nat

  /** A `Shared` value is a stored dictionary.  A `Fresh` one was just built, from
      JSON text or as a view of all outputs, and nothing else holds it. */
  datatype Val =
    | Null
    | Bool(b: bool)
    | Num(n: real)
    | Text(s: string)
    | List(items: seq<Val>)
    | Shared(ref: Ref)
    | Fresh(entries: Dict)

  type Dict = map<string, Val>

  /** The contents of the stored dictionaries, by identity. */
  type Heap = seq<Dict>

  /** What reading leaves to Python: JSON parsing, the integer a list key spells,
      and the attributes of a value that is neither a dictionary nor a list. */
  datatype Env = Env(json: string -> Option<Val>, index: string -> Option<int>, attr: (Val, string) -> Val)

  datatype Failure = NoGlobal | NoComponent | NotADict

  datatype Vars = Vars(globals: Dict, outputs: map<string, Dict>, heap: Heap)

  // ----- Reading -----

  predicate Truthy(heap: Heap, v: Val) {
    match v
    case Null => false
    case Bool(b) => b
    case Num(n) => n != 0.0
    case Text(s) => s != ""
    case List(items) => items != []
    case Shared(r) => r < |heap| && heap[r] != map[]
    case Fresh(m) => m != map[]
  }

  function Lookup(m: Dict, key: string): Val {
    if key in m then m[key] else Null
  }

  /** One key below a value that is neither null nor text. */
  function Child(env: Env, heap: Heap, v: Val, key: string): Val {
    match v
    case Shared(r) => if r < |heap| then Lookup(heap[r], key) else Null
    case Fresh(m) => Lookup(m, key)
    case List(items) =>
      var i := env.index(key);
      if i.None? then Null
      else
        var at := if i.value < 0 then i.value + |items| else i.value;
        if 0 <= at < |items| then items[at] else Null
    case _ => env.attr(v, key)
  }

  function Below(env: Env, heap: Heap, v: Val, key: string): Val {
    match v
    case Null => Null
    case Text(s) => if env.json(s).None? then Null else Child(env, heap, env.json(s).value, key)
    case _ => Child(env, heap, v, key)
  }

  /** `get_variable_param_value`. */
  function Walk(env: Env, heap: Heap, v: Val, keys: seq<string>): Val
    decreases |keys|
  {
    if keys == [] then v else Walk(env, heap, Below(env, heap, v, keys[0]), keys[1..])
  }

  /** `output`: an empty name asks for all outputs at once. */
  function RootValue(outputs: Dict, root: string): Val {
    if root == "" then Fresh(outputs) else if root in outputs then outputs[root] else Text("")
  }

  function Get(env: Env, vars: Vars, t: Target): Result<Val, Failure> {
    match t
    case Global(name) => if name in vars.globals then Ok(vars.globals[name]) else Err(NoGlobal)
    case Output(cpn, root, keys) =>
      if cpn !in vars.outputs then Err(NoComponent)
      else Ok(Walk(env, vars.heap, RootValue(vars.outputs[cpn], root), keys))
  }

  // ----- Writing -----

  function Enter(heap: Heap, r: Ref, key: string, v: Val): Heap
    requires r < |heap|
  {
    heap[r := heap[r][key := v]]
  }

  /** The dictionary a key of a dictionary leads to. */
  function Link(heap: Heap, r: Ref, key: string): (next: Option<Ref>)
    requires r < |heap|
    ensures next.Some? ==> next.value < |heap|
  {
    if key in heap[r] && heap[r][key].Shared? && heap[r][key].ref < |heap| then Some(heap[r][key].ref) else None
  }

  /** `set_variable_param_value` from a dictionary on: it goes through dictionaries,
      puts a new one wherever there is none, and enters the value under the last key. */
  function PutIn(heap: Heap, r: Ref, keys: seq<string>, v: Val): Heap
    requires r < |heap| && keys != []
    decreases |keys|
  {
    if |keys| == 1 then Enter(heap, r, keys[0], v)
    else
      var next := Link(heap, r, keys[0]);
      if next.Some? then PutIn(heap, next.value, keys[1..], v)
      else PutIn(Enter(heap + [map[]], r, keys[0], Shared(|heap|)), |heap|, keys[1..], v)
  }

  /** The heap and the root value after a write below a root: a falsy root starts
      as a new dictionary, and the view of all outputs is a new dictionary too. */
  function PutBelow(heap: Heap, root: Val, keys: seq<string>, v: Val): Result<(Heap, Val), Failure>
    requires root.Shared? ==> root.ref < |heap|
  {
    if keys == [] then Ok((heap, v))
    else if !Truthy(heap, root) then Ok((PutIn(heap + [map[]], |heap|, keys, v), Shared(|heap|)))
    else if root.Shared? then Ok((PutIn(heap, root.ref, keys, v), root))
    else if root.Fresh? then Ok((PutIn(heap + [root.entries], |heap|, keys, v), Shared(|heap|)))
    else Err(NotADict)
  }

  ghost predicate RefsKnown(vars: Vars) {
    forall cpn, root :: cpn in vars.outputs && root in vars.outputs[cpn] && vars.outputs[cpn][root].Shared? ==>
      vars.outputs[cpn][root].ref < |vars.heap|
  }

  function Set(vars: Vars, t: Target, v: Val): Result<Vars, Failure>
    requires RefsKnown(vars)
  {
    match t
    case Global(name) => Ok(vars.(globals := vars.globals[name := v]))
    case Output(cpn, root, keys) =>
      if cpn !in vars.outputs then Err(NoComponent)
      else
        var put := PutBelow(vars.heap, RootValue(vars.outputs[cpn], root), keys, v);
        if put.Err? then Err(put.error)
        else Ok(vars.(heap := put.value.0,
                      outputs := vars.outputs[cpn := vars.outputs[cpn][root := put.value.1]]))
  }

  // ----- Consistent stores -----

  /** The value holds only dictionaries below `n`. */
  predicate Bound(n: nat, v: Val)
    decreases v
  {
    match v
    case Shared(r) => r < n
    case List(items) => forall i :: 0 <= i < |items| ==> Bound(n, items[i])
    case Fresh(m) => forall key :: key in m ==> Bound(n, m[key])
    case _ => true
  }

  /** A value as it is stored: every dictionary in it has its identity. */
  predicate Placed(n: nat, v: Val)
    ensures Placed(n, v) ==> Bound(n, v)
    decreases v
  {
    match v
    case Shared(r) => r < n
    case List(items) => forall i :: 0 <= i < |items| ==> Placed(n, items[i])
    case Fresh(_) => false
    case _ => true
  }

  ghost predicate PlacedDict(n: nat, m: Dict) {
    forall key :: key in m ==> Placed(n, m[key])
  }

  ghost predicate PlacedHeap(heap: Heap) {
    forall r :: 0 <= r < |heap| ==> PlacedDict(|heap|, heap[r])
  }

  ghost predicate Consistent(vars: Vars) {
    && PlacedHeap(vars.heap) && PlacedDict(|vars.heap|, vars.globals)
    && forall cpn :: cpn in vars.outputs ==> PlacedDict(|vars.heap|, vars.outputs[cpn])
  }

  /** Parsing and attributes make values of their own; empty text is no JSON. */
  ghost predicate Sane(env: Env) {
    && env.json("") == None
    && (forall s :: env.json(s).Some? ==> Bound(0, env.json(s).value))
    && (forall v, key :: Bound(0, env.attr(v, key)))
  }

  lemma {:induction false} BoundMore(n: nat, m: nat, v: Val)
    requires n <= m && Bound(n, v)
    ensures Bound(m, v)
    decreases v
  {
    match v
    case List(items) =>
      forall i | 0 <= i < |items| ensures Bound(m, items[i]) { BoundMore(n, m, items[i]); }
    case Fresh(entries) =>
      forall key | key in entries ensures Bound(m, entries[key]) { BoundMore(n, m, entries[key]); }
    case _ =>
  }

  lemma {:induction false} PlacedMore(n: nat, m: nat, v: Val)
    requires n <= m && Placed(n, v)
    ensures Placed(m, v)
    decreases v
  {
    match v
    case List(items) =>
      forall i | 0 <= i < |items| ensures Placed(m, items[i]) { PlacedMore(n, m, items[i]); }
    case _ =>
  }

  lemma BelowBound(env: Env, heap: Heap, v: Val, key: string)
    requires Sane(env) && PlacedHeap(heap) && Bound(|heap|, v)
    ensures Bound(|heap|, Below(env, heap, v, key))
  {
    match v
    case Text(s) =>
      if env.json(s).Some? {
        var parsed := env.json(s).value;
        ChildBound(env, heap, 0, parsed, key);
      }
    case Null =>
    case _ => ChildBound(env, heap, |heap|, v, key);
  }

  lemma ChildBound(env: Env, heap: Heap, n: nat, v: Val, key: string)
    requires Sane(env) && PlacedHeap(heap) && n <= |heap| && Bound(n, v)
    ensures Bound(|heap|, Child(env, heap, v, key))
  {
    match v
    case Shared(r) => assert PlacedDict(|heap|, heap[r]);
    case Fresh(m) => if key in m { BoundMore(n, |heap|, m[key]); }
    case List(items) =>
      var child := Child(env, heap, v, key);
      if child != Null {
        BoundMore(n, |heap|, child);
      }
    case _ => BoundMore(0, |heap|, env.attr(v, key));
  }

  lemma {:induction false} WalkBound(env: Env, heap: Heap, v: Val, keys: seq<string>)
    requires Sane(env) && PlacedHeap(heap) && Bound(|heap|, v)
    ensures Bound(|heap|, Walk(env, heap, v, keys))
    decreases |keys|
  {
    if keys != [] {
      BelowBound(env, heap, v, keys[0]);
      WalkBound(env, heap, Below(env, heap, v, keys[0]), keys[1..]);
    }
  }

  lemma {:induction false} WalkNull(env: Env, heap: Heap, keys: seq<string>)
    ensures Walk(env, heap, Null, keys) == Null
  {
    if keys != [] {
      WalkNull(env, heap, keys[1..]);
    }
  }

  lemma {:induction false} WalkAppend(env: Env, heap: Heap, v: Val, a: seq<string>, b: seq<string>)
    ensures Walk(env, heap, v, a + b) == Walk(env, heap, Walk(env, heap, v, a), b)
    decreases |a|
  {
    if a == [] {
      assert a + b == b;
    } else {
      assert (a + b)[1..] == a[1..] + b;
      WalkAppend(env, heap, Below(env, heap, v, a[0]), a[1..], b);
    }
  }

  lemma RootBound(vars: Vars, cpn: string, root: string)
    requires Consistent(vars) && cpn in vars.outputs
    ensures Bound(|vars.heap|, RootValue(vars.outputs[cpn], root))
    ensures RefsKnown(vars)
  {
    assert PlacedDict(|vars.heap|, vars.outputs[cpn]);
    forall c, k | c in vars.outputs && k in vars.outputs[c] && vars.outputs[c][k].Shared?
      ensures vars.outputs[c][k].ref < |vars.heap|
    {
      assert PlacedDict(|vars.heap|, vars.outputs[c]);
    }
  }

  // ----- A write below a dictionary touches one key of one dictionary -----

  /** The dictionary and key a write touches, and the keys left after it. */
  function Touched(heap: Heap, r: Ref, keys: seq<string>): (cell: (Ref, string, seq<string>))
    requires r < |heap| && keys != []
    ensures cell.0 < |heap| && |cell.2| < |keys|
    decreases |keys|
  {
    if |keys| == 1 || Link(heap, r, keys[0]).None? then (r, keys[0], keys[1..])
    else Touched(heap, Link(heap, r, keys[0]).value, keys[1..])
  }

  /** New dictionaries, from identity `n` on, that lead along keys to a value. */
  function Chain(n: nat, keys: seq<string>, v: Val): (dicts: Heap)
    ensures |dicts| == |keys|
    decreases |keys|
  {
    if keys == [] then []
    else [map[keys[0] := if |keys| == 1 then v else Shared(n + 1)]] + Chain(n + 1, keys[1..], v)
  }

  /** What a write puts at the touched key. */
  function Content(n: nat, tail: seq<string>, v: Val): Val {
    if tail == [] then v else Shared(n)
  }

  lemma {:induction false} PutInNew(heap: Heap, keys: seq<string>, v: Val)
    requires keys != []
    ensures PutIn(heap + [map[]], |heap|, keys, v) == heap + Chain(|heap|, keys, v)
    decreases |keys|
  {
    var n, start := |heap|, heap + [map[]];
    var first := map[keys[0] := if |keys| == 1 then v else Shared(n + 1)];
    assert map[][keys[0] := first[keys[0]]] == first;
    assert Enter(start, n, keys[0], first[keys[0]]) == heap + [first];
    if |keys| == 1 {
      assert Chain(n, keys, v) == [first];
    } else {
      assert Enter(start + [map[]], n, keys[0], Shared(n + 1)) == heap + [first] + [map[]];
      PutInNew(heap + [first], keys[1..], v);
      assert heap + ([first] + Chain(n + 1, keys[1..], v)) == heap + [first] + Chain(n + 1, keys[1..], v);
    }
  }

  /** The loop of a write is one entry, and a chain of new dictionaries behind it. */
  lemma {:induction false} PutIsOneEntry(heap: Heap, r: Ref, keys: seq<string>, v: Val)
    requires r < |heap| && keys != []
    ensures var (c, k, tail) := Touched(heap, r, keys);
            PutIn(heap, r, keys, v) == Enter(heap, c, k, Content(|heap|, tail, v)) + Chain(|heap|, tail, v)
    decreases |keys|
  {
    var next := Link(heap, r, keys[0]);
    if |keys| == 1 {
      assert keys[1..] == [];
    } else if next.Some? {
      PutIsOneEntry(heap, next.value, keys[1..], v);
    } else {
      var grown := Enter(heap + [map[]], r, keys[0], Shared(|heap|));
      assert grown == Enter(heap, r, keys[0], Shared(|heap|)) + [map[]];
      PutInNew(Enter(heap, r, keys[0], Shared(|heap|)), keys[1..], v);
    }
  }

  // ----- The store as an object -----

  class Store {
    const env: Env
    var globals: Dict
    var outputs: map<string, Dict>
    var heap: Heap

    ghost function Now(): Vars
      reads this
    {
      Vars(globals, outputs, heap)
    }

    constructor (e: Env, vars: Vars)
      ensures env == e && Now() == vars
    {
      env, globals, outputs, heap := e, vars.globals, vars.outputs, vars.heap;
    }

    /** The key by key loop of `get_variable_param_value`. */
    method WalkLoop(v: Val, keys: seq<string>) returns (cur: Val)
      ensures cur == Walk(env, heap, v, keys)
    {
      cur := v;
      var i := 0;
      assert keys[0..] == keys;
      while i < |keys|
        invariant i <= |keys|
        invariant Walk(env, heap, cur, keys[i..]) == Walk(env, heap, v, keys)
      {
        assert keys[i..][1..] == keys[i + 1..];
        if cur.Null? {
          WalkNull(env, heap, keys[i..]);
          return Null;
        }
        cur := Below(env, heap, cur, keys[i]);
        i := i + 1;
      }
    }

    /** The loop of `set_variable_param_value`, in place: it steps from dictionary
        to dictionary, putting an empty one where there is none. */
    method PutLoop(root: Ref, keys: seq<string>, v: Val)
      requires root < |heap| && keys != []
      modifies this`heap
      ensures heap == PutIn(old(heap), root, keys, v)
    {
      var cur: Ref, i := root, 0;
      assert keys[0..] == keys;
      while i < |keys| - 1
        invariant 0 <= i < |keys| && cur < |heap|
        invariant PutIn(heap, cur, keys[i..], v) == PutIn(old(heap), root, keys, v)
      {
        assert keys[i..][0] == keys[i] && keys[i..][1..] == keys[i + 1..];
        if Link(heap, cur, keys[i]).None? {
          heap := heap + [map[]];
          heap := heap[cur := heap[cur][keys[i] := Shared(|heap| - 1)]];
          assert heap[cur][keys[i]] == Shared(|heap| - 1);
        }
        cur := heap[cur][keys[i]].ref;
        i := i + 1;
      }
      assert keys[i..] == [keys[i]];
      heap := heap[cur := heap[cur][keys[i] := v]];
    }

    /** `get_variable_value`. */
    method GetVariable(exp: string) returns (r: Result<Val, Failure>)
      ensures r == Get(env, Now(), Parse(exp))
    {
      match Parse(exp)
      case Global(name) =>
        if name !in globals {
          return Err(NoGlobal);
        }
        return Ok(globals[name]);
      case Output(cpn, root, keys) =>
        if cpn !in outputs {
          return Err(NoComponent);
        }
        var v := WalkLoop(RootValue(outputs[cpn], root), keys);
        return Ok(v);
    }

    /** `set_variable_value`: nothing changes when it fails. */
    method SetVariable(exp: string, v: Val) returns (failure: Option<Failure>)
      requires RefsKnown(Now())
      modifies this
      ensures RefsKnown(old(Now()))
      ensures var after := Set(old(Now()), Parse(exp), v);
              && (after.Ok? ==> failure.None? && Now() == after.value)
              && (after.Err? ==> failure == Some(after.error) && Now() == old(Now()))
    {
      hide PutIn, Parse;
      match Parse(exp)
      case Global(name) =>
        globals := globals[name := v];
        return None;
      case Output(cpn, root, keys) =>
        if cpn !in outputs {
          return Some(NoComponent);
        }
        if keys == [] {
          outputs := outputs[cpn := outputs[cpn][root := v]];
          return None;
        }
        var value := RootValue(outputs[cpn], root);
        if Truthy(heap, value) && !value.Shared? && !value.Fresh? {
          return Some(NotADict);
        }
        if !Truthy(heap, value) {
          heap := heap + [map[]];
          value := Shared(|heap| - 1);
        } else if value.Fresh? {
          heap := heap + [value.entries];
          value := Shared(|heap| - 1);
        }
        PutLoop(value.ref, keys, v);
        outputs := outputs[cpn := outputs[cpn][root := value]];
        return None;
    }
  }
}
