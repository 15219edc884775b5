/** Where the search engine and the in-memory evaluator part, on requests that
    both accept. */
module PushdownLimits {
  import opened Text
  import opened PyValue
  import opened MetaFilter
  import opened MetaStore
  import opened EsFilter
  import opened Pushdown
  import opened Agreement
  import EsQuery

  // ----- Two values under one key -----

  /** A document with a value that satisfies a negated filter and one that does
      not, alone in scope: the in-memory filter returns it, the search does not. */
  lemma MixedDocumentIsLost(env: PyEnv, g: Engine, metas: Index, d: Doc, f: Filter, logic: string)
    requires Setting(env, g, metas, [d], [f], logic, [d.kb])
    requires Mixed(env, d, f)
    ensures PlanOf(env, [f], logic).Ok?
    ensures Accumulate(env, metas, [f], logic, None) == {d.id}
    ensures EsQuery.Search(g, [d], Query(env, [f], logic, [d.kb])) == {}
  {
    hide Mixed, Accumulate;
    var docs := InScope([d], [d.kb]);
    assert forall e :: e in docs <==> e == d;
    FragmentTranslates(env, g, NOWHERE, [f], logic);
    SearchMeans(env, g, [d], [f], logic, [d.kb]);
    MemoryMeans(env, metas, docs, [f], logic);
    assert f in [f];
    FilterExact(env, g, d, f);
    MixedHolds(env, d, f);
    assert Combined([f], logic, h => MemHolds(env, d, h));
    assert !Combined([f], logic, h => EsHolds(env, g, d, h));
  }

  lemma MixedHolds(env: PyEnv, d: Doc, f: Filter)
    requires Mixed(env, d, f)
    ensures MemHolds(env, d, f) && !f.op.Empty?
  {
  }

  /** The routing check lets `not contains` through to the search engine, although a
      two-valued field is answered differently there: one value holds the text,
      the other does not. */
  lemma RoutedNotContainsDiffers(env: PyEnv, g: Engine, metas: Index, d: Doc, key: string, part: string,
                                 withPart: string, without: string, logic: string)
    requires var f := Filter(key, NotContains, Str(part));
             Setting(env, g, metas, [d], [f], logic, [d.kb])
    requires withPart in Texts(d, key) && Occurs(Lower(env.fold, part), Lower(env.fold, withPart))
    requires without in Texts(d, key) && !Occurs(Lower(env.fold, part), Lower(env.fold, without))
    ensures var f := Filter(key, NotContains, Str(part));
            && Routable(f) && PlanOf(env, [f], logic).Ok?
            && Accumulate(env, metas, [f], logic, None) == {d.id}
            && EsQuery.Search(g, [d], Query(env, [f], logic, [d.kb])) == {}
  {
    var f := Filter(key, NotContains, Str(part));
    assert f in [f];
    assert Mixed(env, d, f) by {
      assert Satisfies(env, f, without) && !Satisfies(env, f, withPart);
    }
    MixedDocumentIsLost(env, g, metas, d, f, logic);
  }

  /** A runtime without literals and case, and an engine that shares its fold. */
  const PLAIN := PyEnv(
    (c: char) => c,
    (s: string) => None,
    (v: Py) => "",
    (c: RangeOp, a: Py, b: Py) => None,
    (a: Py, b: Py) => None)

  const ENGINE := EsQuery.Engine((c: char) => c, (t: string, v: Py) => false, (c: RangeOp, b: Py, t: string) => false)

  const TWO_TAGS := Doc("d", "kb", map["tag" := ["a", "b"]])

  const TAG_INDEX: Index := map["tag" := [Bucket("a", ["d"]), Bucket("b", ["d"])]]

  lemma TagsIndexed()
    ensures Indexes(TAG_INDEX, [TWO_TAGS])
  {
    var buckets := TAG_INDEX["tag"];
    assert buckets[0] in buckets && buckets[1] in buckets;
    forall key, text, id
      ensures Posted(TAG_INDEX, key, text, id) <==> Carried([TWO_TAGS], key, text, id)
    {
      assert TWO_TAGS in [TWO_TAGS];
      assert Texts(TWO_TAGS, "tag")[0] == "a" && Texts(TWO_TAGS, "tag")[1] == "b";
      if key == "tag" && id == "d" && text == "a" {
        assert Lists(buckets, "a", "d");
      }
      if key == "tag" && id == "d" && text == "b" {
        assert Lists(buckets, "b", "d");
      }
    }
  }

  lemma TagTexts()
    ensures Lower(PLAIN.fold, "a") == "a" && Lower(PLAIN.fold, "b") == "b" && PlainText(PLAIN, "a")
    ensures "a" in Texts(TWO_TAGS, "tag") && "b" in Texts(TWO_TAGS, "tag")
  {
    assert Texts(TWO_TAGS, "tag")[0] == "a" && Texts(TWO_TAGS, "tag")[1] == "b";
    assert Strip("a") == "a";
  }

  /** For `≠` and `not in` the search result is strictly smaller on some store. */
  lemma ContainmentIsStrict(op: Op)
    requires op.Ne? || op.NotIn?
    ensures var f := Filter("tag", op, if op.Ne? then Str("a") else List([Str("a")]));
            && Setting(PLAIN, ENGINE, TAG_INDEX, [TWO_TAGS], [f], "and", ["kb"])
            && PlanOf(PLAIN, [f], "and").Ok?
            && Accumulate(PLAIN, TAG_INDEX, [f], "and", None) == {"d"}
            && EsQuery.Search(ENGINE, [TWO_TAGS], Query(PLAIN, [f], "and", ["kb"])) == {}
  {
    hide Indexes, PlainText, Strip;
    var f := Filter("tag", op, if op.Ne? then Str("a") else List([Str("a")]));
    TagTexts();
    TagsIndexed();
    assert InScope([TWO_TAGS], ["kb"]) == [TWO_TAGS];
    assert TextFilter(PLAIN, f);
    assert Satisfies(PLAIN, f, "b") && !Satisfies(PLAIN, f, "a") by {
      assert LowerText(PLAIN, Str("a")) == Str("a");
      if op.NotIn? {
        assert f.value.items[0] == Str("a");
        assert Among(PLAIN, f.value, "a");
      }
    }
    MixedDocumentIsLost(PLAIN, ENGINE, TAG_INDEX, TWO_TAGS, f, "and");
  }

  // ----- No filter at all -----

  /** Without filters the in-memory evaluator returns nothing and the search the
      whole scope: they agree if and only if nothing is in scope. */
  lemma NoFiltersAgreeIff(env: PyEnv, g: Engine, metas: Index, docs: seq<Doc>, logic: string, kbIds: seq<string>)
    requires logic == "and" || logic == "or"
    ensures PlanOf(env, [], logic).Ok?
    ensures EsQuery.Search(g, docs, Query(env, [], logic, kbIds)) == (set d | d in InScope(docs, kbIds) :: d.id)
    ensures EsQuery.Search(g, docs, Query(env, [], logic, kbIds)) == Accumulate(env, metas, [], logic, None)
       <==> InScope(docs, kbIds) == []
  {
    var found := EsQuery.Search(g, docs, Query(env, [], logic, kbIds));
    forall d | d in docs
      ensures EsQuery.Selects(g, d, Query(env, [], logic, kbIds)) <==> d in InScope(docs, kbIds)
    {
      QueryMeans(env, g, d, [], logic, kbIds);
    }
    if InScope(docs, kbIds) != [] {
      var d := InScope(docs, kbIds)[0];
      assert d in InScope(docs, kbIds) && d.id in found;
    }
  }
}
