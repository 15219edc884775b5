/** What each further key of an expression reads. */
module VariableReadings {
  import opened Text
  import opened VariableNames
  import opened VariableStore

  /** The item that an integer names: from the front, or from the end if negative. */
  ghost predicate IsItem(items: seq<Val>, i: int, item: Val) {
    || (0 <= i < |items| && item == items[i])
    || (1 <= -i <= |items| && item == items[|items| + i])
    || (i >= |items| && item == Null)
    || (-i > |items| && item == Null)
  }

  ghost predicate IsEntry(m: Dict, key: string, entry: Val) {
    if key in m then entry == m[key] else entry == Null
  }

  /** What a key reads below a value that stands as it is. */
  ghost predicate IsPart(env: Env, heap: Heap, v: Val, key: string, part: Val) {
    match v
    case Shared(r) => if r < |heap| then IsEntry(heap[r], key, part) else part == Null
    case Fresh(m) => IsEntry(m, key, part)
    case List(items) => if env.index(key) == None then part == Null else IsItem(items, env.index(key).value, part)
    case _ => part == env.attr(v, key)
  }

  /** Nothing is below null, and text is read as the JSON it spells. */
  ghost predicate IsBelow(env: Env, heap: Heap, v: Val, key: string, part: Val) {
    || (v.Null? && part == Null)
    || (v.Text? && env.json(v.s) == None && part == Null)
    || (v.Text? && exists parsed :: env.json(v.s) == Some(parsed) && IsPart(env, heap, parsed, key, part))
    || (!v.Null? && !v.Text? && IsPart(env, heap, v, key, part))
  }

  /** One more key reads one step further below what the others read. */
  lemma NextKeyReads(env: Env, vars: Vars, cpn: string, root: string, keys: seq<string>, key: string, part: Val)
    requires cpn in vars.outputs
    ensures var read := Get(env, vars, Output(cpn, root, keys));
            read.Ok? && (Get(env, vars, Output(cpn, root, keys + [key])) == Ok(part)
                         <==> IsBelow(env, vars.heap, read.value, key, part))
  {
    var v := RootValue(vars.outputs[cpn], root);
    WalkAppend(env, vars.heap, v, keys, [key]);
    var read := Walk(env, vars.heap, v, keys);
    assert [key][1..] == [];
    assert Walk(env, vars.heap, read, [key]) == Below(env, vars.heap, read, key);
    hide Walk;
    BelowIs(env, vars.heap, read, key, part);
  }

  lemma BelowIs(env: Env, heap: Heap, v: Val, key: string, part: Val)
    ensures part == Below(env, heap, v, key) <==> IsBelow(env, heap, v, key, part)
  {
    match v
    case Text(s) =>
      if env.json(s).Some? {
        PartIs(env, heap, env.json(s).value, key, part);
      }
    case _ => PartIs(env, heap, v, key, part);
  }

  lemma PartIs(env: Env, heap: Heap, v: Val, key: string, part: Val)
    ensures part == Child(env, heap, v, key) <==> IsPart(env, heap, v, key, part)
  {
  }

  /** The first name reads an output; an unknown one reads as empty text, and the
      empty one as all outputs together. */
  lemma NameReads(env: Env, vars: Vars, cpn: string, root: string)
    ensures var read := Get(env, vars, Output(cpn, root, []));
            && (cpn !in vars.outputs ==> read == Err(NoComponent))
            && (cpn in vars.outputs && root == "" ==> read == Ok(Fresh(vars.outputs[cpn])))
            && (cpn in vars.outputs && root != "" && root !in vars.outputs[cpn] ==> read == Ok(Text("")))
            && (cpn in vars.outputs && root != "" && root in vars.outputs[cpn] ==>
                read == Ok(vars.outputs[cpn][root]))
  {
  }

  /** What is read as false, so that a write replaces it by a dictionary. */
  ghost predicate ReadsFalse(heap: Heap, v: Val) {
    || v == Null || v == Bool(false) || v == Num(0.0) || v == Text("") || v == List([]) || v == Fresh(map[])
    || (v.Shared? && (v.ref >= |heap| || |heap[v.ref]| == 0))
  }

  lemma FalsyIs(heap: Heap, v: Val)
    ensures !Truthy(heap, v) <==> ReadsFalse(heap, v)
  {
    match v
    case Shared(r) => if r < |heap| { assert |heap[r]| == 0 <==> heap[r] == map[]; }
    case _ =>
  }
}
