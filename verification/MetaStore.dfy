/** Documents with their metadata, and the inverted index built from them. */
module MetaStore {
  import opened PyValue
  import opened MetaFilter

  /** A metadata field holds the texts of its value: one for a plain value,
      several for a list, none for an empty list. */
  datatype Doc = Doc(id: DocId, kb: string, meta: map<string, seq<string>>)

  function Texts(d: Doc, key: string): seq<string> {
    if key in d.meta then d.meta[key] else []
  }

  ghost predicate Lists(buckets: seq<Bucket>, text: string, id: DocId) {
    exists b :: b in buckets && b.text == text && id in b.docs
  }

  ghost predicate Posted(metas: Index, key: string, text: string, id: DocId) {
    key in metas && Lists(metas[key], text, id)
  }

  ghost predicate Carried(docs: seq<Doc>, key: string, text: string, id: DocId) {
    exists d :: d in docs && d.id == id && text in Texts(d, key)
  }

  /** `metas` lists exactly what the documents carry, in any order. */
  ghost predicate Indexes(metas: Index, docs: seq<Doc>) {
    forall key, text, id :: Posted(metas, key, text, id) <==> Carried(docs, key, text, id)
  }

  ghost predicate UniqueIds(docs: seq<Doc>) {
    forall d, e :: d in docs && e in docs && d.id == e.id ==> d == e
  }

  function InScope(docs: seq<Doc>, kbIds: seq<string>): (r: seq<Doc>)
    ensures forall d :: d in r <==> d in docs && d.kb in kbIds
  {
    if docs == [] then []
    else (if docs[0].kb in kbIds then [docs[0]] else []) + InScope(docs[1..], kbIds)
  }

  // ----- Building the index -----

  /** Adds one posting, to the bucket of its text or to a new last bucket. */
  function AddTo(buckets: seq<Bucket>, text: string, id: DocId): seq<Bucket> {
    if buckets == [] then [Bucket(text, [id])]
    else if buckets[0].text == text then [Bucket(text, buckets[0].docs + [id])] + buckets[1..]
    else [buckets[0]] + AddTo(buckets[1..], text, id)
  }

  lemma ListsCons(b: Bucket, rest: seq<Bucket>, text: string, id: DocId)
    ensures Lists([b] + rest, text, id) <==> (b.text == text && id in b.docs) || Lists(rest, text, id)
  {
    assert forall c :: c in [b] + rest <==> c == b || c in rest;
  }

  lemma {:induction false} AddToLists(buckets: seq<Bucket>, text: string, id: DocId, t: string, i: DocId)
    ensures Lists(AddTo(buckets, text, id), t, i) <==> Lists(buckets, t, i) || (t == text && i == id)
  {
    if buckets == [] {
      assert [Bucket(text, [id])] + [] == [Bucket(text, [id])];
      ListsCons(Bucket(text, [id]), [], t, i);
    } else {
      assert buckets == [buckets[0]] + buckets[1..];
      ListsCons(buckets[0], buckets[1..], t, i);
      if buckets[0].text == text {
        ListsCons(Bucket(text, buckets[0].docs + [id]), buckets[1..], t, i);
      } else {
        AddToLists(buckets[1..], text, id, t, i);
        ListsCons(buckets[0], AddTo(buckets[1..], text, id), t, i);
      }
    }
  }

  function Post(metas: Index, key: string, text: string, id: DocId): Index {
    metas[key := AddTo(if key in metas then metas[key] else [], text, id)]
  }

  lemma PostAdds(metas: Index, key: string, text: string, id: DocId, k: string, t: string, i: DocId)
    ensures Posted(Post(metas, key, text, id), k, t, i)
       <==> Posted(metas, k, t, i) || (k == key && t == text && i == id)
  {
    var buckets := if key in metas then metas[key] else [];
    AddToLists(buckets, text, id, t, i);
  }

  /** A document as it comes from the store: a field holds any value. */
  datatype RawDoc = RawDoc(id: DocId, kb: string, meta: map<string, Py>)

  function Items(v: Py): seq<Py> {
    if v.List? then v.items else [v]
  }

  /** The values that are not null, as text. */
  function Shown(env: PyEnv, items: seq<Py>): seq<string> {
    if items == [] then []
    else
      var last := items[|items| - 1];
      Shown(env, items[..|items| - 1]) + if last.NoneValue? then [] else [Show(env, last)]
  }

  /** The document with its fields as the texts of their values. */
  function Stored(env: PyEnv, raw: RawDoc): Doc {
    Doc(raw.id, raw.kb, map key | key in raw.meta :: Shown(env, Items(raw.meta[key])))
  }

  function StoredAll(env: PyEnv, raws: seq<RawDoc>): (docs: seq<Doc>)
    ensures |docs| == |raws| && forall i :: 0 <= i < |raws| ==> docs[i] == Stored(env, raws[i])
  {
    seq(|raws|, i requires 0 <= i < |raws| => Stored(env, raws[i]))
  }

  /** The postings of one document's field: a list is expanded, and nulls are skipped. */
  method PostField(env: PyEnv, metas0: Index, key: string, value: Py, id: DocId) returns (metas: Index)
    ensures forall k, t, i :: Posted(metas, k, t, i)
                         <==> Posted(metas0, k, t, i) || (k == key && t in Shown(env, Items(value)) && i == id)
  {
    hide Posted, Show;
    metas := metas0;
    if key !in metas {
      metas := metas[key := []];
      NothingPosted(metas0, key);
    }
    var items := Items(value);
    for n := 0 to |items|
      invariant forall k, t, i :: Posted(metas, k, t, i)
                             <==> Posted(metas0, k, t, i) || (k == key && t in Shown(env, items[..n]) && i == id)
    {
      assert items[..n + 1][..n] == items[..n];
      if items[n].NoneValue? {
        continue;
      }
      ghost var before := metas;
      metas := Post(metas, key, Show(env, items[n]), id);
      forall k, t, i
        ensures Posted(metas, k, t, i) <==> Posted(before, k, t, i) || (k == key && t == Show(env, items[n]) && i == id)
      {
        PostAdds(before, key, Show(env, items[n]), id, k, t, i);
      }
    }
    assert items[..|items|] == items;
  }

  lemma NothingPosted(metas: Index, key: string)
    requires key !in metas
    ensures forall k, t, i :: Posted(metas[key := []], k, t, i) <==> Posted(metas, k, t, i)
  {
  }

  lemma OneMoreDoc(env: PyEnv, raws: seq<RawDoc>, n: nat, k: string, t: string, i: DocId)
    requires n < |raws|
    ensures Carried(StoredAll(env, raws[..n + 1]), k, t, i) <==>
            Carried(StoredAll(env, raws[..n]), k, t, i) || (t in Texts(Stored(env, raws[n]), k) && i == raws[n].id)
  {
    var before, after := StoredAll(env, raws[..n]), StoredAll(env, raws[..n + 1]);
    assert after == before + [Stored(env, raws[n])];
    assert Stored(env, raws[n]) in after;
  }

  /** A field holds a text: as one item of a list or as its whole value, never null. */
  ghost predicate HoldsText(env: PyEnv, value: Py, text: string) {
    match value
    case List(items) => exists i :: 0 <= i < |items| && items[i] != NoneValue && text == Show(env, items[i])
    case NoneValue => false
    case _ => text == Show(env, value)
  }

  ghost predicate Flattened(env: PyEnv, raws: seq<RawDoc>, key: string, text: string, id: DocId) {
    exists raw :: raw in raws && raw.id == id && key in raw.meta && HoldsText(env, raw.meta[key], text)
  }

  lemma {:induction false} ShownTexts(env: PyEnv, items: seq<Py>, text: string)
    ensures text in Shown(env, items)
       <==> exists i :: 0 <= i < |items| && items[i] != NoneValue && text == Show(env, items[i])
  {
    if items != [] {
      ShownTexts(env, items[..|items| - 1], text);
    }
  }

  /** The stored texts are the values themselves, list by list and item by item. */
  lemma CarriedIsFlattened(env: PyEnv, raws: seq<RawDoc>, key: string, text: string, id: DocId)
    ensures Carried(StoredAll(env, raws), key, text, id) <==> Flattened(env, raws, key, text, id)
  {
    hide Shown;
    var docs := StoredAll(env, raws);
    forall i | 0 <= i < |raws|
      ensures docs[i].id == raws[i].id
      ensures text in Texts(docs[i], key) <==> key in raws[i].meta && HoldsText(env, raws[i].meta[key], text)
    {
      if key in raws[i].meta {
        ShownTexts(env, Items(raws[i].meta[key]), text);
        OneItem(env, raws[i].meta[key], text);
      }
    }
    if raw :| raw in raws && raw.id == id && key in raw.meta && HoldsText(env, raw.meta[key], text) {
      var i :| 0 <= i < |raws| && raws[i] == raw;
      assert docs[i] in docs;
    }
  }

  lemma OneItem(env: PyEnv, value: Py, text: string)
    ensures HoldsText(env, value, text) <==>
            exists i :: 0 <= i < |Items(value)| && Items(value)[i] != NoneValue && text == Show(env, Items(value)[i])
  {
    hide Show;
    match value
    case List(items) => assert Items(value) == items;
    case NoneValue =>
    case _ => assert Items(value)[0] == value;
  }

  /** Flattening every document's metadata yields an index of the documents. */
  method BuildIndex(env: PyEnv, raws: seq<RawDoc>) returns (metas: Index)
    ensures Indexes(metas, StoredAll(env, raws))
    ensures forall key, text, id :: Posted(metas, key, text, id) <==> Flattened(env, raws, key, text, id)
  {
    hide Posted, Shown, Flattened;
    metas := map[];
    NoPostings();
    for n := 0 to |raws|
      invariant forall k, t, i :: Posted(metas, k, t, i) <==> Carried(StoredAll(env, raws[..n]), k, t, i)
    {
      var raw := raws[n];
      ghost var before := metas;
      var keys := raw.meta.Keys;
      while keys != {}
        invariant keys <= raw.meta.Keys
        invariant forall k, t, i :: Posted(metas, k, t, i)
                               <==> Posted(before, k, t, i)
                                    || (k in raw.meta.Keys - keys && t in Shown(env, Items(raw.meta[k])) && i == raw.id)
        decreases |keys|
      {
        var key :| key in keys;
        metas := PostField(env, metas, key, raw.meta[key], raw.id);
        keys := keys - {key};
      }
      forall k, t, i
        ensures Posted(metas, k, t, i) <==> Carried(StoredAll(env, raws[..n + 1]), k, t, i)
      {
        OneMoreDoc(env, raws, n, k, t, i);
      }
    }
    assert raws[..|raws|] == raws;
    forall key, text, id
      ensures Posted(metas, key, text, id) <==> Flattened(env, raws, key, text, id)
    {
      CarriedIsFlattened(env, raws, key, text, id);
    }
  }

  lemma NoPostings()
    ensures forall k, t, i :: !Posted(map[], k, t, i)
  {
  }
}
