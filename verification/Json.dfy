/** JSON values as Python holds them: a dictionary remembers the order of its keys. */
module Json {
  import opened Text

  datatype Json =
    | Null
    | Bool(b: bool)
    | Num(n: real)
    | Str(s: string)
    | Arr(items: seq<Json>)
    | Obj(fields: seq<Field>)

  datatype Field = Field(key: string, value: Json)

  /** What a dictionary lookup accepts as a key. */
  predicate Hashable(v: Json) {
    !v.Arr? && !v.Obj?
  }

  function Keys(fields: seq<Field>): (r: seq<string>)
    ensures |r| == |fields| && forall i :: 0 <= i < |r| ==> r[i] == fields[i].key
  {
    seq(|fields|, i requires 0 <= i < |fields| => fields[i].key)
  }

  /** No key occurs twice: what holds of every Python dictionary. */
  ghost predicate Distinct(fields: seq<Field>) {
    forall i, j :: 0 <= i < j < |fields| ==> fields[i].key != fields[j].key
  }

  /** `d.get(key)`. */
  function Find(fields: seq<Field>, key: string): (r: Option<Json>)
    ensures r.None? <==> forall i :: 0 <= i < |fields| ==> fields[i].key != key
    ensures r.Some? ==> exists i :: 0 <= i < |fields| && fields[i].key == key && fields[i].value == r.value
  {
    if fields == [] then None
    else
      var last := fields[|fields| - 1];
      if last.key == key then Some(last.value) else Find(fields[..|fields| - 1], key)
  }

  /** `d[key] = value`: a new key goes to the end. */
  function Store(fields: seq<Field>, key: string, value: Json): (r: seq<Field>)
  {
    if fields == [] then [Field(key, value)]
    else
      var n := |fields| - 1;
      if fields[n].key == key then fields[..n] + [Field(key, value)]
      else if Find(fields, key).None? then fields + [Field(key, value)]
      else Store(fields[..n], key, value) + [fields[n]]
  }

  lemma {:induction false} FindStored(fields: seq<Field>, key: string, value: Json, other: string)
    ensures Find(Store(fields, key, value), other) == if other == key then Some(value) else Find(fields, other)
  {
    if fields != [] {
      var n := |fields| - 1;
      var stored := Store(fields, key, value);
      if fields[n].key == key {
        assert stored[..n] == fields[..n];
      } else if Find(fields, key).None? {
        assert stored[..n + 1] == fields;
      } else {
        FindStored(fields[..n], key, value, other);
        assert stored[..|stored| - 1] == Store(fields[..n], key, value);
      }
    }
  }

  /** Storing what is there changes nothing. */
  lemma {:induction false} StoreSame(fields: seq<Field>, key: string, value: Json)
    requires Find(fields, key) == Some(value)
    ensures Store(fields, key, value) == fields
  {
    if fields != [] {
      var n := |fields| - 1;
      assert fields == fields[..n] + [fields[n]];
      if fields[n].key != key {
        StoreSame(fields[..n], key, value);
      }
    }
  }

  /** A key that is there keeps the keys as they are. */
  lemma {:induction false} StoreKeys(fields: seq<Field>, key: string, value: Json)
    ensures Keys(Store(fields, key, value)) == if key in Keys(fields) then Keys(fields) else Keys(fields) + [key]
  {
    if fields != [] {
      var n := |fields| - 1;
      assert Keys(fields) == Keys(fields[..n]) + [fields[n].key];
      StoreKeys(fields[..n], key, value);
      if Find(fields, key).Some? && fields[n].key != key {
        assert key in Keys(fields[..n]);
      }
    }
  }

  lemma StoreDistinct(fields: seq<Field>, key: string, value: Json)
    requires Distinct(fields)
    ensures Distinct(Store(fields, key, value))
  {
    var stored := Store(fields, key, value);
    StoreKeys(fields, key, value);
    assert forall i :: 0 <= i < |stored| ==> stored[i].key == Keys(stored)[i];
  }

  lemma {:induction false} FindAt(fields: seq<Field>, i: nat)
    requires Distinct(fields) && i < |fields|
    ensures Find(fields, fields[i].key) == Some(fields[i].value)
  {
    var n := |fields| - 1;
    if i < n {
      FindAt(fields[..n], i);
    }
  }
}
