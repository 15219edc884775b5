/** The search engine and the in-memory evaluator select the same documents:
    exactly when, and on which side they part otherwise. */
module Agreement {
  import opened Text
  import opened PyValue
  import opened MetaFilter
  import opened MetaStore
  import opened EsFilter
  import opened Pushdown
  import EsQuery

  // ----- One filter on one document -----

  /** For every text filter and every document, single-valued or not: a push-down
      of anything but `empty` selects the document exactly when the in-memory
      filter does and the document is not mixed; `empty` also selects the
      documents that carry no value. */
  lemma FilterExact(env: PyEnv, g: Engine, d: Doc, f: Filter)
    requires IsFold(env.fold) && g.fold == env.fold && TextFilter(env, f)
    ensures Translate(env, f).Ok?
    ensures EsHolds(env, g, d, f)
       <==> if f.op.Empty? then MemHolds(env, d, f) || Texts(d, f.key) == []
            else MemHolds(env, d, f) && !Mixed(env, d, f)
  {
    if f.op.Empty? {
      EmptyProbe(env, g, d, f);
    } else {
      ProbeMeans(env, g, d, f);
      var t := Translate(env, f).value;
      assert EsQuery.Selects(g, d, EsQuery.Exists(EsQuery.Meta(f.key))) <==> Texts(d, f.key) != [];
      if Negative(f.op) {
        assert t == Translated([EsQuery.Exists(EsQuery.Meta(f.key))], [Probe(env, f).value]);
        AllOfOne(g, d, t.must[0]);
        AllOfOne(g, d, t.mustNot[0]);
        assert Texts(d, f.key) != [] ==> Texts(d, f.key)[0] in Texts(d, f.key);
      } else {
        assert t == Translated([Probe(env, f).value], []);
        AllOfOne(g, d, t.must[0]);
      }
    }
  }

  lemma AllOfOne(g: Engine, d: Doc, c: Clause)
    ensures EsQuery.AllHold(g, d, [c]) <==> EsQuery.Selects(g, d, c)
    ensures EsQuery.AnyHolds(g, d, [c]) <==> EsQuery.Selects(g, d, c)
  {
    assert [c][0] in [c];
  }

  lemma EmptyProbe(env: PyEnv, g: Engine, d: Doc, f: Filter)
    requires f.op.Empty? && f.key != ""
    ensures Translate(env, f).Ok?
    ensures EsHolds(env, g, d, f) <==> Texts(d, f.key) == [] || "" in Texts(d, f.key)
  {
    var present := EsQuery.Exists(EsQuery.Meta(f.key));
    var missing, blank := EsQuery.Must([], [present]), BlankTerm(f.key);
    EsQuery.MustMeans(g, d, [], [present]);
    AllOfOne(g, d, present);
    EsQuery.AnyOfMeans(g, d, [missing, blank]);
    assert [missing, blank][0] in [missing, blank] && [missing, blank][1] in [missing, blank];
    AllOfOne(g, d, Probe(env, f).value);
    assert EsQuery.FieldTexts(d, EsQuery.Keyword(f.key)) == Texts(d, f.key);
  }

  // ----- The in-memory loop -----

  lemma {:induction false} AccumulateFrom(env: PyEnv, metas: Index, filters: seq<Filter>, logic: string,
                                          acc: set<DocId>, id: DocId)
    ensures id in Accumulate(env, metas, filters, logic, Some(acc))
       <==> if logic == "and" then id in acc && forall f :: f in filters ==> id in Hits(env, metas, f)
            else id in acc || exists f :: f in filters && id in Hits(env, metas, f)
  {
    if filters != [] {
      var ids := Hits(env, metas, filters[0]);
      assert forall f :: f in filters <==> f == filters[0] || f in filters[1..];
      AccumulateFrom(env, metas, filters[1..], logic, if logic == "and" then acc * ids else acc + ids, id);
      if logic == "and" && acc * ids == {} {
        assert id !in acc * ids;
      }
    }
  }

  /** The loop with its early exit is a plain intersection or union of the
      filters' hits; no filter at all selects nothing. */
  lemma AccumulateMeans(env: PyEnv, metas: Index, filters: seq<Filter>, logic: string, id: DocId)
    ensures id in Accumulate(env, metas, filters, logic, None)
       <==> filters != [] && if logic == "and" then forall f :: f in filters ==> id in Hits(env, metas, f)
                             else exists f :: f in filters && id in Hits(env, metas, f)
  {
    if filters != [] {
      assert forall f :: f in filters <==> f == filters[0] || f in filters[1..];
      AccumulateFrom(env, metas, filters[1..], logic, Hits(env, metas, filters[0]), id);
    }
  }

  /** Texts stored under a compared key are not themselves Python literals. */
  ghost predicate StoredTexts(env: PyEnv, docs: seq<Doc>, f: Filter) {
    IsComparison(f.op) ==> forall d, t :: d in docs && t in Texts(d, f.key) ==> env.literal(t).None?
  }

  lemma HitsMean(env: PyEnv, metas: Index, docs: seq<Doc>, f: Filter, d: Doc)
    requires IsFold(env.fold) && TextFilter(env, f) && StoredTexts(env, docs, f)
    requires Indexes(metas, docs) && UniqueIds(docs) && d in docs
    ensures d.id in Hits(env, metas, f) <==> MemHolds(env, d, f)
  {
    if f.key in metas {
      var buckets := metas[f.key];
      forall b | b in buckets && b.docs != [] && IsComparison(f.op)
        ensures env.literal(b.text).None?
      {
        assert b.docs[0] in b.docs;
        assert Posted(metas, f.key, b.text, b.docs[0]);
      }
      CollectedMeans(env, f, buckets, d.id);
      if b :| b in buckets && d.id in b.docs && Satisfies(env, f, b.text) {
        assert Lists(buckets, b.text, d.id);
        assert Posted(metas, f.key, b.text, d.id);
        var e :| e in docs && e.id == d.id && b.text in Texts(e, f.key);
        assert e == d;
      }
    }
    if t :| t in Texts(d, f.key) && Satisfies(env, f, t) {
      assert Carried(docs, f.key, t, d.id);
      assert Posted(metas, f.key, t, d.id);
      var b :| b in metas[f.key] && b.text == t && d.id in b.docs;
    }
  }

  /** Every hit is the id of a document. */
  lemma HitsAreDocs(env: PyEnv, metas: Index, docs: seq<Doc>, f: Filter, id: DocId)
    requires Indexes(metas, docs) && id in Hits(env, metas, f)
    ensures exists d :: d in docs && d.id == id
  {
    var buckets := metas[f.key];
    var b := CollectedFromBucket(env, buckets, f.op, f.value, |buckets|, id);
    assert Posted(metas, f.key, b.text, id);
    assert Carried(docs, f.key, b.text, id);
  }

  lemma {:induction false} CollectedFromBucket(env: PyEnv, buckets: seq<Bucket>, op: Op, value: Py, n: nat, id: DocId)
      returns (b: Bucket)
    requires n <= |buckets| && id in After(env, buckets, op, value, n).0
    ensures b in buckets && id in b.docs
  {
    if id in buckets[n - 1].docs {
      b := buckets[n - 1];
    } else {
      b := CollectedFromBucket(env, buckets, op, value, n - 1, id);
    }
  }

  // ----- Whole requests -----

  ghost predicate Comparable(env: PyEnv, docs: seq<Doc>, filters: seq<Filter>) {
    forall f :: f in filters ==> TextFilter(env, f) && StoredTexts(env, docs, f)
  }

  /** What the in-memory filter returns on an index of the documents. */
  lemma MemoryMeans(env: PyEnv, metas: Index, docs: seq<Doc>, filters: seq<Filter>, logic: string)
    requires IsFold(env.fold) && (logic == "and" || logic == "or") && filters != []
    requires Indexes(metas, docs) && UniqueIds(docs) && Comparable(env, docs, filters)
    ensures Accumulate(env, metas, filters, logic, None)
         == set d | d in docs && Combined(filters, logic, f => MemHolds(env, d, f)) :: d.id
  {
    var result := Accumulate(env, metas, filters, logic, None);
    forall d | d in docs
      ensures d.id in result <==> Combined(filters, logic, f => MemHolds(env, d, f))
    {
      AccumulateMeans(env, metas, filters, logic, d.id);
      forall f | f in filters
        ensures d.id in Hits(env, metas, f) <==> MemHolds(env, d, f)
      {
        HitsMean(env, metas, docs, f, d);
      }
    }
    forall id | id in result
      ensures exists d :: d in docs && d.id == id
    {
      AccumulateMeans(env, metas, filters, logic, id);
      var f :| f in filters && id in Hits(env, metas, f) by {
        assert filters[0] in filters;
      }
      HitsAreDocs(env, metas, docs, f, id);
    }
  }

  lemma {:induction false} FragmentTranslates(env: PyEnv, g: Engine, d: Doc, filters: seq<Filter>, logic: string)
    requires IsFold(env.fold) && g.fold == env.fold && (logic == "and" || logic == "or")
    requires forall f :: f in filters ==> TextFilter(env, f)
    ensures PlanOf(env, filters, logic).Ok?
  {
    if filters != [] {
      FilterExact(env, g, d, filters[0]);
      FragmentTranslates(env, g, d, filters[1..], logic);
    }
  }

  function Query(env: PyEnv, filters: seq<Filter>, logic: string, kbIds: seq<string>): Clause
    requires PlanOf(env, filters, logic).Ok?
  {
    ToQuery(PlanOf(env, filters, logic).value, kbIds)
  }

  /** A comparison of a search with the in-memory filter over the documents in scope. */
  ghost predicate Setting(env: PyEnv, g: Engine, metas: Index, docs: seq<Doc>, filters: seq<Filter>,
                          logic: string, kbIds: seq<string>) {
    && IsFold(env.fold) && g.fold == env.fold
    && (logic == "and" || logic == "or") && filters != []
    && UniqueIds(docs) && Indexes(metas, InScope(docs, kbIds))
    && Comparable(env, InScope(docs, kbIds), filters)
  }

  const NOWHERE := Doc("", "", map[])

  /** What the search returns, in the terms the in-memory filter is described in. */
  lemma SearchMeans(env: PyEnv, g: Engine, docs: seq<Doc>, filters: seq<Filter>, logic: string, kbIds: seq<string>)
    requires PlanOf(env, filters, logic).Ok? && filters != []
    ensures EsQuery.Search(g, docs, Query(env, filters, logic, kbIds))
         == set d | d in InScope(docs, kbIds) && Combined(filters, logic, f => EsHolds(env, g, d, f)) :: d.id
  {
    forall d | d in docs
      ensures EsQuery.Selects(g, d, Query(env, filters, logic, kbIds))
         <==> d in InScope(docs, kbIds) && Combined(filters, logic, f => EsHolds(env, g, d, f))
    {
      QueryMeans(env, g, d, filters, logic, kbIds);
    }
  }

  /** No operator but `empty`, any documents: the search never returns a document
      the in-memory filter would not. */
  lemma PushdownWithin(env: PyEnv, g: Engine, metas: Index, docs: seq<Doc>, filters: seq<Filter>,
                       logic: string, kbIds: seq<string>)
    requires Setting(env, g, metas, docs, filters, logic, kbIds)
    requires forall f :: f in filters ==> !f.op.Empty?
    ensures PlanOf(env, filters, logic).Ok?
    ensures EsQuery.Search(g, docs, Query(env, filters, logic, kbIds)) <= Accumulate(env, metas, filters, logic, None)
  {
    FragmentTranslates(env, g, NOWHERE, filters, logic);
    SearchMeans(env, g, docs, filters, logic, kbIds);
    MemoryMeans(env, metas, InScope(docs, kbIds), filters, logic);
    forall d, f | d in InScope(docs, kbIds) && f in filters
      ensures EsHolds(env, g, d, f) ==> MemHolds(env, d, f)
    {
      FilterExact(env, g, d, f);
    }
  }

  // ----- Whole requests, exactly -----

  /** `empty` asks about a key that the document does not have. */
  predicate Missing(d: Doc, f: Filter) {
    f.op.Empty? && Texts(d, f.key) == []
  }

  /** The in-memory filter returns the document and the search does not: a filter
      finds mixed values that, with the request's logic, decide. */
  ghost predicate Lost(env: PyEnv, d: Doc, filters: seq<Filter>, logic: string) {
    if logic == "and" then
      (forall f :: f in filters ==> MemHolds(env, d, f)) && exists f :: f in filters && Mixed(env, d, f)
    else
      && (exists f :: f in filters && MemHolds(env, d, f))
      && forall f :: f in filters ==> !Missing(d, f) && (MemHolds(env, d, f) ==> Mixed(env, d, f))
  }

  /** The search returns the document and the in-memory filter does not: it lacks a
      key that `empty` asks about, and that decides. */
  ghost predicate Gained(env: PyEnv, d: Doc, filters: seq<Filter>, logic: string) {
    && (exists f :: f in filters && Missing(d, f))
    && forall f :: f in filters ==>
         if logic == "and" then Missing(d, f) || (MemHolds(env, d, f) && !Mixed(env, d, f)) else !MemHolds(env, d, f)
  }

  lemma FilterParts(env: PyEnv, g: Engine, d: Doc, f: Filter)
    requires IsFold(env.fold) && g.fold == env.fold && TextFilter(env, f)
    ensures EsHolds(env, g, d, f) <==> Missing(d, f) || (MemHolds(env, d, f) && !Mixed(env, d, f))
    ensures Missing(d, f) ==> !MemHolds(env, d, f)
    ensures Mixed(env, d, f) ==> MemHolds(env, d, f)
  {
    FilterExact(env, g, d, f);
  }

  ghost predicate EsAnswer(env: PyEnv, g: Engine, d: Doc, filters: seq<Filter>, logic: string) {
    Combined(filters, logic, f => EsHolds(env, g, d, f))
  }

  ghost predicate MemAnswer(env: PyEnv, d: Doc, filters: seq<Filter>, logic: string) {
    Combined(filters, logic, f => MemHolds(env, d, f))
  }

  /** On one document the combined answers differ in these two ways, and no other. */
  lemma RequestDiffers(env: PyEnv, g: Engine, d: Doc, filters: seq<Filter>, logic: string)
    requires IsFold(env.fold) && g.fold == env.fold && (logic == "and" || logic == "or") && filters != []
    requires forall f :: f in filters ==> TextFilter(env, f)
    ensures var es, mem := EsAnswer(env, g, d, filters, logic), MemAnswer(env, d, filters, logic);
            && (mem && !es <==> Lost(env, d, filters, logic))
            && (es && !mem <==> Gained(env, d, filters, logic))
  {
    hide MemHolds, EsHolds, Mixed, Missing, TextFilter;
    forall f | f in filters
      ensures EsHolds(env, g, d, f) <==> Missing(d, f) || (MemHolds(env, d, f) && !Mixed(env, d, f))
      ensures Missing(d, f) ==> !MemHolds(env, d, f)
      ensures Mixed(env, d, f) ==> MemHolds(env, d, f)
    {
      FilterParts(env, g, d, f);
    }
    assert filters[0] in filters;
  }

  /** Any list of filters, any documents: the search and the in-memory filter return
      the same if and only if no document in scope is lost or gained. */
  lemma PushdownExactIff(env: PyEnv, g: Engine, metas: Index, docs: seq<Doc>, filters: seq<Filter>,
                         logic: string, kbIds: seq<string>)
    requires Setting(env, g, metas, docs, filters, logic, kbIds)
    ensures PlanOf(env, filters, logic).Ok?
    ensures EsQuery.Search(g, docs, Query(env, filters, logic, kbIds)) == Accumulate(env, metas, filters, logic, None)
       <==> forall d :: d in InScope(docs, kbIds) ==>
              !Lost(env, d, filters, logic) && !Gained(env, d, filters, logic)
  {
    hide EsAnswer, MemAnswer, Lost, Gained, Accumulate, PlanOf, Indexes, Comparable;
    var scope := InScope(docs, kbIds);
    BothAnswers(env, g, metas, docs, filters, logic, kbIds);
    forall d | d in scope
      ensures (EsAnswer(env, g, d, filters, logic) == MemAnswer(env, d, filters, logic))
           == (!Lost(env, d, filters, logic) && !Gained(env, d, filters, logic))
    {
      TextFilters(env, scope, filters);
      RequestDiffers(env, g, d, filters, logic);
    }
    SameAnswersIff(env, g, scope, filters, logic);
  }

  lemma TextFilters(env: PyEnv, docs: seq<Doc>, filters: seq<Filter>)
    requires Comparable(env, docs, filters)
    ensures forall f :: f in filters ==> TextFilter(env, f)
  {
  }

  lemma BothAnswers(env: PyEnv, g: Engine, metas: Index, docs: seq<Doc>, filters: seq<Filter>,
                    logic: string, kbIds: seq<string>)
    requires Setting(env, g, metas, docs, filters, logic, kbIds)
    ensures UniqueIds(InScope(docs, kbIds)) && PlanOf(env, filters, logic).Ok?
    ensures EsQuery.Search(g, docs, Query(env, filters, logic, kbIds))
         == set d | d in InScope(docs, kbIds) && EsAnswer(env, g, d, filters, logic) :: d.id
    ensures Accumulate(env, metas, filters, logic, None)
         == set d | d in InScope(docs, kbIds) && MemAnswer(env, d, filters, logic) :: d.id
  {
    hide Combined, EsHolds, MemHolds;
    FragmentTranslates(env, g, NOWHERE, filters, logic);
    SearchMeans(env, g, docs, filters, logic, kbIds);
    MemoryMeans(env, metas, InScope(docs, kbIds), filters, logic);
  }

  /** With ids that are unique, the two answers give the same ids if and only if they
      agree on every document. */
  lemma SameAnswersIff(env: PyEnv, g: Engine, docs: seq<Doc>, filters: seq<Filter>, logic: string)
    requires UniqueIds(docs)
    ensures (set d | d in docs && EsAnswer(env, g, d, filters, logic) :: d.id)
         == (set d | d in docs && MemAnswer(env, d, filters, logic) :: d.id)
       <==> forall d :: d in docs ==> EsAnswer(env, g, d, filters, logic) == MemAnswer(env, d, filters, logic)
  {
    hide EsAnswer, MemAnswer;
    var found := set d | d in docs && EsAnswer(env, g, d, filters, logic) :: d.id;
    var expected := set d | d in docs && MemAnswer(env, d, filters, logic) :: d.id;
    forall d | d in docs
      ensures d.id in found <==> EsAnswer(env, g, d, filters, logic)
      ensures d.id in expected <==> MemAnswer(env, d, filters, logic)
    {
      assert forall e :: e in docs && e.id == d.id ==> e == d;
    }
  }

  /** With no mixed document in scope, and for `empty` no document without a
      value, the search returns exactly what the in-memory filter returns. */
  lemma PushdownExact(env: PyEnv, g: Engine, metas: Index, docs: seq<Doc>, filters: seq<Filter>,
                      logic: string, kbIds: seq<string>)
    requires Setting(env, g, metas, docs, filters, logic, kbIds)
    requires forall d, f :: d in InScope(docs, kbIds) && f in filters ==> !Mixed(env, d, f) && !Missing(d, f)
    ensures PlanOf(env, filters, logic).Ok?
    ensures EsQuery.Search(g, docs, Query(env, filters, logic, kbIds)) == Accumulate(env, metas, filters, logic, None)
  {
    hide Setting, Mixed, Missing, Accumulate, PlanOf, MemHolds;
    PushdownExactIff(env, g, metas, docs, filters, logic, kbIds);
  }

  /** Single-valued metadata, every operator of the fragment but `empty`. */
  lemma SingleValuedExact(env: PyEnv, g: Engine, metas: Index, docs: seq<Doc>, filters: seq<Filter>,
                          logic: string, kbIds: seq<string>)
    requires Setting(env, g, metas, docs, filters, logic, kbIds)
    requires forall d, key :: d in docs && key in d.meta ==> |d.meta[key]| <= 1
    requires forall f :: f in filters ==> !f.op.Empty?
    ensures PlanOf(env, filters, logic).Ok?
    ensures EsQuery.Search(g, docs, Query(env, filters, logic, kbIds)) == Accumulate(env, metas, filters, logic, None)
  {
    PushdownExact(env, g, metas, docs, filters, logic, kbIds);
  }

  /** Positive operators agree on every store, however many values a field has. */
  lemma PositiveExact(env: PyEnv, g: Engine, metas: Index, docs: seq<Doc>, filters: seq<Filter>,
                      logic: string, kbIds: seq<string>)
    requires Setting(env, g, metas, docs, filters, logic, kbIds)
    requires forall f :: f in filters ==> Positive(f.op)
    ensures PlanOf(env, filters, logic).Ok?
    ensures EsQuery.Search(g, docs, Query(env, filters, logic, kbIds)) == Accumulate(env, metas, filters, logic, None)
  {
    PushdownExact(env, g, metas, docs, filters, logic, kbIds);
  }

  /** For one filter: no document in scope is mixed or, for `empty`, without a value. */
  lemma OneFilterExactIff(env: PyEnv, g: Engine, metas: Index, docs: seq<Doc>, f: Filter,
                          logic: string, kbIds: seq<string>)
    requires Setting(env, g, metas, docs, [f], logic, kbIds)
    ensures PlanOf(env, [f], logic).Ok?
    ensures EsQuery.Search(g, docs, Query(env, [f], logic, kbIds)) == Accumulate(env, metas, [f], logic, None)
       <==> forall d :: d in InScope(docs, kbIds) ==>
              if f.op.Empty? then Texts(d, f.key) != [] else !Mixed(env, d, f)
  {
    hide Setting, Accumulate, PlanOf;
    PushdownExactIff(env, g, metas, docs, [f], logic, kbIds);
    forall d
      ensures !Lost(env, d, [f], logic) && !Gained(env, d, [f], logic)
         <==> if f.op.Empty? then Texts(d, f.key) != [] else !Mixed(env, d, f)
    {
      OneLostOrGained(env, d, f, logic);
    }
  }

  lemma OneLostOrGained(env: PyEnv, d: Doc, f: Filter, logic: string)
    ensures Lost(env, d, [f], logic) <==> Mixed(env, d, f)
    ensures Gained(env, d, [f], logic) <==> Missing(d, f)
    ensures Mixed(env, d, f) ==> !f.op.Empty?
  {
    hide Satisfies;
    assert f in [f];
    assert forall h :: h in [f] <==> h == f;
  }
}
