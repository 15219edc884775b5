/** The pushed-down query and the in-memory evaluator compared. */
module Pushdown {
  import opened Text
  import opened PyValue
  import opened MetaFilter
  import opened MetaStore
  import opened EsFilter
  import EsQuery
  import Glob

  type Engine = EsQuery.Engine

  // ----- One clause per filter -----

  ghost predicate Halves(g: Engine, d: Doc, t: Translated) {
    EsQuery.AllHold(g, d, t.must) && !EsQuery.AnyHolds(g, d, t.mustNot)
  }

  /** A translated filter contributes one clause, and that clause holds only when
      every required clause does and no rejected one does. */
  lemma OneClause(g: Engine, d: Doc, t: Translated)
    requires t.must != [] || t.mustNot != []
    ensures |ToClauses(t)| == 1
    ensures EsQuery.Selects(g, d, ToClauses(t)[0]) <==> Halves(g, d, t)
  {
    if t.mustNot == [] && |t.must| == 1 {
      assert forall c :: c in t.must <==> c == t.must[0];
    } else {
      EsQuery.MustMeans(g, d, t.must, t.mustNot);
    }
  }

  ghost predicate EsHolds(env: PyEnv, g: Engine, d: Doc, f: Filter) {
    Translate(env, f).Ok? && Halves(g, d, Translate(env, f).value)
  }

  /** The filters combined the way the request's logic says. */
  ghost predicate Combined(filters: seq<Filter>, logic: string, holds: Filter -> bool) {
    if logic == "or" then exists f :: f in filters && holds(f) else forall f :: f in filters ==> holds(f)
  }

  lemma {:induction false} FlattenMeans(g: Engine, d: Doc, ts: seq<Translated>)
    requires forall t :: t in ts ==> t.must != []
    ensures |Flatten(ts)| == |ts|
    ensures EsQuery.AllHold(g, d, Flatten(ts)) <==> forall t :: t in ts ==> Halves(g, d, t)
    ensures EsQuery.AnyHolds(g, d, Flatten(ts)) <==> exists t :: t in ts && Halves(g, d, t)
  {
    hide EsQuery.Selects, Halves, ToClauses;
    if ts != [] {
      var rest := Flatten(ts[1..]);
      FlattenMeans(g, d, ts[1..]);
      OneClause(g, d, ts[0]);
      var c := ToClauses(ts[0])[0];
      assert Flatten(ts) == [c] + rest;
      assert forall x :: x in [c] + rest <==> x == c || x in rest;
      assert forall t :: t in ts <==> t == ts[0] || t in ts[1..];
    }
  }

  lemma {:induction false} TranslatedEach(env: PyEnv, filters: seq<Filter>)
    requires TranslateAll(env, filters).Ok?
    ensures var ts := TranslateAll(env, filters).value;
            |ts| == |filters| && forall i :: 0 <= i < |ts| ==> Translate(env, filters[i]) == Ok(ts[i])
  {
    if filters != [] {
      TranslatedEach(env, filters[1..]);
    }
  }

  lemma PlanMeans(env: PyEnv, g: Engine, d: Doc, filters: seq<Filter>)
    requires TranslateAll(env, filters).Ok?
    ensures var cs := Flatten(TranslateAll(env, filters).value);
            && |cs| == |filters|
            && (EsQuery.AllHold(g, d, cs) <==> forall f :: f in filters ==> EsHolds(env, g, d, f))
            && (EsQuery.AnyHolds(g, d, cs) <==> exists f :: f in filters && EsHolds(env, g, d, f))
  {
    hide EsQuery.Selects, Halves, Translate, TranslateAll, Flatten;
    var ts := TranslateAll(env, filters).value;
    TranslatedEach(env, filters);
    assert forall t :: t in ts ==> t.must != [];
    FlattenMeans(g, d, ts);
    assert forall i :: 0 <= i < |ts| ==> filters[i] in filters && ts[i] in ts;
    if forall t :: t in ts ==> Halves(g, d, t) {
      forall f | f in filters ensures EsHolds(env, g, d, f) {
        var i :| 0 <= i < |filters| && filters[i] == f;
      }
    }
    if f :| f in filters && EsHolds(env, g, d, f) {
      var i :| 0 <= i < |filters| && filters[i] == f;
      assert Halves(g, d, ts[i]);
    }
  }

  lemma KbClauseMeans(g: Engine, d: Doc, kbIds: seq<string>)
    ensures EsQuery.Selects(g, d, KbClause(kbIds)) <==> d.kb in kbIds
  {
    var values := KbClause(kbIds).values;
    if d.kb in kbIds {
      var i :| 0 <= i < |kbIds| && kbIds[i] == d.kb;
      assert values[i] in values && EsQuery.HasTerm(g, EsQuery.KbId, d.kb, values[i], false);
      assert d.kb in EsQuery.FieldTexts(d, EsQuery.KbId);
    }
  }

  lemma FilterContext(g: Engine, d: Doc, cs: seq<Clause>)
    ensures EsQuery.Selects(g, d, EsQuery.BoolQuery([], [], [], 0, cs)) <==> EsQuery.AllHold(g, d, cs)
  {
    EsQuery.CountMeans(g, d, cs);
  }

  /** For any filters at all, a rendered plan selects the in-scope documents on
      which the filters hold as wholes, joined by the request's logic. */
  lemma QueryMeans(env: PyEnv, g: Engine, d: Doc, filters: seq<Filter>, logic: string, kbIds: seq<string>)
    requires PlanOf(env, filters, logic).Ok?
    ensures EsQuery.Selects(g, d, ToQuery(PlanOf(env, filters, logic).value, kbIds))
       <==> d.kb in kbIds && (filters == [] || Combined(filters, logic, f => EsHolds(env, g, d, f)))
  {
    hide EsQuery.Selects, KbClause, EsHolds, Flatten;
    var p := PlanOf(env, filters, logic).value;
    KbClauseMeans(g, d, kbIds);
    PlanMeans(env, g, d, filters);
    if filters == [] {
      FilterContext(g, d, [KbClause(kbIds)]);
      assert [KbClause(kbIds)][0] in [KbClause(kbIds)];
    } else {
      var cs := Flatten(p.translated);
      var inner := if logic == "or" then EsQuery.AnyOf(cs) else EsQuery.Must(cs, []);
      EsQuery.AnyOfMeans(g, d, cs);
      EsQuery.MustMeans(g, d, cs, []);
      FilterContext(g, d, [KbClause(kbIds), inner]);
      assert [KbClause(kbIds), inner][0] in [KbClause(kbIds), inner];
      assert [KbClause(kbIds), inner][1] in [KbClause(kbIds), inner];
    }
  }

  // ----- What a text condition selects -----

  ghost predicate MemHolds(env: PyEnv, d: Doc, f: Filter) {
    exists t :: t in Texts(d, f.key) && Satisfies(env, f, t)
  }

  /** The document carries a value that satisfies a negated filter and one that
      does not. */
  ghost predicate Mixed(env: PyEnv, d: Doc, f: Filter) {
    Negative(f.op) && MemHolds(env, d, f) && exists t :: t in Texts(d, f.key) && !Satisfies(env, f, t)
  }

  lemma PlainScalar(env: PyEnv, f: Filter)
    requires f.value.Str? && PlainText(env, f.value.s)
    ensures CoerceScalar(env, f.value) == Ok(Str(Lower(env.fold, f.value.s)))
  {
  }

  lemma TrimmedMembers(env: PyEnv, v: Py)
    requires IsFold(env.fold) && TrimmedTexts(v)
    ensures Members(env, v).Ok? && |Members(env, v).value| == |v.items|
    ensures forall i :: 0 <= i < |v.items| ==> Members(env, v).value[i] == Str(Lower(env.fold, v.items[i].s))
  {
    forall i | 0 <= i < |v.items|
      ensures NormaliseMember(env, v.items[i]) == Str(Lower(env.fold, v.items[i].s))
    {
      StripLower(env.fold, v.items[i].s);
    }
  }

  lemma TermMeans(g: Engine, d: Doc, key: string, s: string)
    ensures EsQuery.Selects(g, d, TermOrMatch(key, Str(s)))
       <==> exists t :: t in Texts(d, key) && Lower(g.fold, t) == Lower(g.fold, s)
  {
    assert EsQuery.FieldTexts(d, EsQuery.Keyword(key)) == Texts(d, key);
  }

  lemma TermsMean(env: PyEnv, g: Engine, d: Doc, key: string, v: Py)
    requires IsFold(env.fold) && g.fold == env.fold && TrimmedTexts(v)
    ensures Members(env, v).Ok?
    ensures EsQuery.Selects(g, d, TermsOf(key, Members(env, v).value))
       <==> exists t :: t in Texts(d, key) && Among(env, v, Lower(env.fold, t))
  {
    TrimmedMembers(env, v);
    var ms := Members(env, v).value;
    assert ms[0].Str?;
    var cs := TermsOf(key, ms).should;
    EsQuery.AnyOfMeans(g, d, cs);
    forall i | 0 <= i < |cs|
      ensures EsQuery.Selects(g, d, cs[i])
         <==> exists t :: t in Texts(d, key) && Lower(env.fold, t) == Lower(env.fold, v.items[i].s)
    {
      LowerTwice(env.fold, v.items[i].s);
      TermMeans(g, d, key, Lower(env.fold, v.items[i].s));
    }
    SomeMember(env, g, d, key, v, cs);
  }

  /** Swapping "some member of some text" for "some text among the members". */
  lemma SomeMember(env: PyEnv, g: Engine, d: Doc, key: string, v: Py, cs: seq<Clause>)
    requires TrimmedTexts(v) && |cs| == |v.items|
    requires forall i :: 0 <= i < |cs| ==>
               (EsQuery.Selects(g, d, cs[i])
                <==> exists t :: t in Texts(d, key) && Lower(env.fold, t) == Lower(env.fold, v.items[i].s))
    ensures EsQuery.AnyHolds(g, d, cs) <==> exists t :: t in Texts(d, key) && Among(env, v, Lower(env.fold, t))
  {
    hide EsQuery.Selects;
    if t :| t in Texts(d, key) && Among(env, v, Lower(env.fold, t)) {
      var i :| 0 <= i < |v.items| && LowerText(env, v.items[i]) == Str(Lower(env.fold, t));
      assert cs[i] in cs;
    }
    if c :| c in cs && EsQuery.Selects(g, d, c) {
      var i :| 0 <= i < |cs| && cs[i] == c;
      var t :| t in Texts(d, key) && Lower(env.fold, t) == Lower(env.fold, v.items[i].s);
      assert Among(env, v, Lower(env.fold, t));
    }
  }

  lemma PatternsMean(env: PyEnv, text: string)
    ensures forall t :: Glob.Accepts(Glob.WILDCARD, env.fold, "*" + Glob.Escape(Glob.WILDCARD, text) + "*", t)
                   <==> Occurs(Lower(env.fold, text), Lower(env.fold, t))
    ensures forall t :: Glob.Accepts(Glob.WILDCARD, env.fold, "*" + Glob.Escape(Glob.WILDCARD, text), t)
                   <==> EndsWith(Lower(env.fold, t), Lower(env.fold, text))
  {
    assert "*" == [Glob.WILDCARD.many];
    forall t
      ensures Glob.Accepts(Glob.WILDCARD, env.fold, "*" + Glob.Escape(Glob.WILDCARD, text) + "*", t)
         <==> Occurs(Lower(env.fold, text), Lower(env.fold, t))
      ensures Glob.Accepts(Glob.WILDCARD, env.fold, "*" + Glob.Escape(Glob.WILDCARD, text), t)
         <==> EndsWith(Lower(env.fold, t), Lower(env.fold, text))
    {
      Glob.ContainsPattern(Glob.WILDCARD, env.fold, text, t);
      Glob.EndPattern(Glob.WILDCARD, env.fold, text, t);
    }
  }

  lemma TextProbeMeans(env: PyEnv, g: Engine, d: Doc, f: Filter)
    requires g.fold == env.fold && CoerceString(env, f.value).Ok?
    requires f.op.Contains? || f.op.NotContains? || f.op.StartWith? || f.op.EndWith?
    ensures Probe(env, f).Ok?
    ensures EsQuery.Selects(g, d, Probe(env, f).value)
       <==> exists t :: t in Texts(d, f.key) && Satisfies(env, f, t) == !Negative(f.op)
  {
    hide Glob.Accepts, Glob.Escape, Occurs, Lower;
    assert EsQuery.FieldTexts(d, EsQuery.Keyword(f.key)) == Texts(d, f.key);
    PatternsMean(env, Show(env, f.value));
  }

  /** The probe of a text filter finds exactly the documents carrying a value
      that satisfies it (positive) or fails it (negative). */
  lemma ProbeMeans(env: PyEnv, g: Engine, d: Doc, f: Filter)
    requires IsFold(env.fold) && g.fold == env.fold && TextFilter(env, f) && !f.op.Empty?
    ensures Probe(env, f).Ok?
    ensures EsQuery.Selects(g, d, Probe(env, f).value)
       <==> exists t :: t in Texts(d, f.key) && Satisfies(env, f, t) == !Negative(f.op)
  {
    if f.op.Eq? || f.op.Ne? {
      PlainScalar(env, f);
      LowerTwice(env.fold, f.value.s);
      TermMeans(g, d, f.key, Lower(env.fold, f.value.s));
    } else if f.op.In? || f.op.NotIn? {
      TermsMean(env, g, d, f.key, f.value);
    } else if f.op.NotEmpty? {
      assert EsQuery.FieldTexts(d, EsQuery.Keyword(f.key)) == Texts(d, f.key);
    } else {
      TextProbeMeans(env, g, d, f);
    }
  }
}
