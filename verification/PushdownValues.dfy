/** Requests with values of any kind, as long as the engine looks for text: when the
    search and the in-memory evaluator return the same. */
module PushdownValues {
  import opened Text
  import opened PyValue
  import opened MetaFilter
  import opened MetaOrder
  import opened MetaStore
  import opened EsFilter
  import opened Pushdown
  import opened Agreement
  import EsQuery

  // ----- What the search asks of a text -----

  /** The text is one of the members, up to case. */
  predicate AmongMembers(fold: char -> char, members: seq<Py>, t: string) {
    exists k :: 0 <= k < |members| && members[k].Str? && Lower(fold, t) == Lower(fold, members[k].s)
  }

  /** The translated filter looks for texts, not for numbers. */
  predicate AsksForText(env: PyEnv, f: Filter) {
    && Translate(env, f).Ok? && !f.op.Range?
    && (f.op.Eq? || f.op.Ne? ==>
          var s := Strip(Show(env, f.value)); IsDate(s) || env.literal(s).None?)
    && (f.op.In? || f.op.NotIn? ==>
          var members := Members(env, f.value).value; forall k :: 0 <= k < |members| ==> members[k].Str?)
  }

  /** What the engine looks for, with the filter's value trimmed, split or shown. */
  predicate Sought(env: PyEnv, f: Filter, text: string) {
    var t, v := Lower(env.fold, text), Lower(env.fold, Show(env, f.value));
    match f.op
    case Eq => t == Lower(env.fold, Strip(Show(env, f.value)))
    case Ne => t == Lower(env.fold, Strip(Show(env, f.value)))
    case In => Members(env, f.value).Ok? && AmongMembers(env.fold, Members(env, f.value).value, text)
    case NotIn => Members(env, f.value).Ok? && AmongMembers(env.fold, Members(env, f.value).value, text)
    case Contains => Occurs(v, t)
    case NotContains => Occurs(v, t)
    case StartWith => v <= t
    case EndWith => EndsWith(t, v)
    case _ => text == ""
  }

  /** The search finds a document by a text, or by all of its texts if the filter rejects. */
  ghost predicate Found(env: PyEnv, d: Doc, f: Filter) {
    if f.op.Empty? then Texts(d, f.key) == [] || "" in Texts(d, f.key)
    else if Negative(f.op) then Texts(d, f.key) != [] && forall t :: t in Texts(d, f.key) ==> !Sought(env, f, t)
    else exists t :: t in Texts(d, f.key) && Sought(env, f, t)
  }

  lemma MembersProbe(g: Engine, d: Doc, key: string, members: seq<Py>)
    requires members != [] && forall k :: 0 <= k < |members| ==> members[k].Str?
    ensures EsQuery.Selects(g, d, TermsOf(key, members))
       <==> exists t :: t in Texts(d, key) && AmongMembers(g.fold, members, t)
  {
    assert members[0].Str?;
    var cs := TermsOf(key, members).should;
    EsQuery.AnyOfMeans(g, d, cs);
    forall k | 0 <= k < |cs|
      ensures EsQuery.Selects(g, d, cs[k])
         <==> exists t :: t in Texts(d, key) && Lower(g.fold, t) == Lower(g.fold, members[k].s)
    {
      TermMeans(g, d, key, members[k].s);
    }
    if t, k :| t in Texts(d, key) && 0 <= k < |members| && members[k].Str?
               && Lower(g.fold, t) == Lower(g.fold, members[k].s) {
      assert cs[k] in cs;
    }
    if c :| c in cs && EsQuery.Selects(g, d, c) {
      var k :| 0 <= k < |cs| && cs[k] == c;
    }
  }

  lemma SomeMembers(env: PyEnv, s: string)
    requires Members(env, Str(s)).Ok?
    ensures Members(env, Str(s)).value != []
  {
  }

  lemma ProbeSeeks(env: PyEnv, g: Engine, d: Doc, f: Filter)
    requires IsFold(env.fold) && g.fold == env.fold && AsksForText(env, f) && !f.op.Empty?
    ensures Probe(env, f).Ok?
    ensures EsQuery.Selects(g, d, Probe(env, f).value) <==> exists t :: t in Texts(d, f.key) && Sought(env, f, t)
  {
    hide EsQuery.Selects, Occurs, Strip, IsDate;
    if f.op.Eq? || f.op.Ne? {
      var v := CoerceScalar(env, f.value).value;
      LowerTwice(env.fold, Strip(Show(env, f.value)));
      assert v.Str? && Lower(env.fold, v.s) == Lower(env.fold, Strip(Show(env, f.value)));
      TermMeans(g, d, f.key, v.s);
    } else if f.op.In? || f.op.NotIn? {
      var members := Members(env, f.value).value;
      MembersProbe(g, d, f.key, members);
    } else if f.op.NotEmpty? {
      BlankSought(g, d, f.key);
    } else {
      TextProbeMeans(env, g, d, f);
    }
  }

  lemma BlankSought(g: Engine, d: Doc, key: string)
    ensures EsQuery.Selects(g, d, BlankTerm(key)) <==> "" in Texts(d, key)
  {
    assert EsQuery.FieldTexts(d, EsQuery.Keyword(key)) == Texts(d, key);
  }

  lemma FoundMeans(env: PyEnv, g: Engine, d: Doc, f: Filter)
    requires IsFold(env.fold) && g.fold == env.fold && AsksForText(env, f)
    ensures EsHolds(env, g, d, f) <==> Found(env, d, f)
  {
    hide Probe, Sought;
    if f.op.Empty? {
      EmptyProbe(env, g, d, f);
    } else {
      ProbeSeeks(env, g, d, f);
      var t := Translate(env, f).value;
      assert EsQuery.Selects(g, d, EsQuery.Exists(EsQuery.Meta(f.key))) <==> Texts(d, f.key) != [];
      AllOfOne(g, d, t.must[0]);
      if Negative(f.op) {
        assert t == Translated([EsQuery.Exists(EsQuery.Meta(f.key))], [Probe(env, f).value]);
        AllOfOne(g, d, t.mustNot[0]);
      } else {
        assert t == Translated([Probe(env, f).value], []);
      }
    }
  }

  // ----- What the in-memory filter asks of a text -----

  /** No number bucket changes how the value is judged. */
  predicate Unparsed(env: PyEnv, value: Py) {
    && !Dated(env, value) && !Dated(env, Plain(env, value))
    && (value.Str? ==> env.literal(value.s).None? && env.literal(Lower(env.fold, value.s)).None?)
  }

  ghost predicate JudgesEach(env: PyEnv, docs: seq<Doc>, f: Filter) {
    Steady(env, f.op, f.value) || (Unparsed(env, f.value) && StoredTexts(env, docs, f))
  }

  /** Some text of the document matches the value as given. */
  ghost predicate Kept(env: PyEnv, d: Doc, f: Filter) {
    exists t :: t in Texts(d, f.key) && Visit(env, f.op, t, f.value).0
  }

  lemma {:induction false} UnparsedPeels(env: PyEnv, value: Py, m: nat)
    requires IsFold(env.fold) && Unparsed(env, value)
    ensures Peel(env, value, m) == (if m == 0 then value else Plain(env, value))
    ensures Peel(env, Plain(env, value), m) == Plain(env, value)
  {
    hide Dated;
    LowerAgain(env, value);
    if m > 0 {
      UnparsedPeels(env, value, m - 1);
    }
  }

  lemma FindsPlain(env: PyEnv, op: Op, b: Bucket, value: Py)
    requires IsFold(env.fold) && IsComparison(op) && Unparsed(env, value) && !IsLiteral(env, b)
    ensures Finds(env, op, b, Plain(env, value)) == Finds(env, op, b, value)
  {
    hide Test, IsDate, Strip;
    LowerAgain(env, value);
  }

  lemma UnparsedAlike(env: PyEnv, op: Op, b: Bucket, value: Py, literals: nat, others: nat)
    requires IsFold(env.fold) && IsComparison(op) && Unparsed(env, value) && !IsLiteral(env, b)
    ensures JudgesAlike(env, op, b, value, literals, others)
  {
    FindsPlain(env, op, b, value);
    hide Finds, Plain, Dated;
    forall m: nat
      ensures Finds(env, op, b, Peel(env, value, m)) == Finds(env, op, b, value)
      ensures Finds(env, op, b, Peel(env, Plain(env, value), m)) == Finds(env, op, b, value)
    {
      UnparsedPeels(env, value, m);
    }
  }

  lemma KeptCollected(env: PyEnv, f: Filter, buckets: seq<Bucket>, id: DocId)
    requires IsFold(env.fold)
    requires Steady(env, f.op, f.value) || (Unparsed(env, f.value) && OnlyTexts(env, f, buckets))
    ensures id in Collected(env, buckets, f.op, f.value)
       <==> exists b :: b in buckets && id in b.docs && Visit(env, f.op, b.text, f.value).0
  {
    hide Visit, Collected, Unparsed, Steady;
    if Steady(env, f.op, f.value) {
      SteadyCollected(env, f.op, f.value, buckets, id);
    } else {
      NotSteady(env, f);
      var n := Literals(env, buckets);
      forall i | 0 <= i < |buckets| && buckets[i].docs != []
        ensures JudgesAlike(env, f.op, buckets[i], f.value, n, |buckets| - n)
      {
        UnparsedAlike(env, f.op, buckets[i], f.value, n, |buckets| - n);
      }
      hide JudgesAlike;
      FreeCollected(env, f.op, f.value, buckets, buckets, id);
    }
  }

  lemma NotSteady(env: PyEnv, f: Filter)
    requires !Steady(env, f.op, f.value)
    ensures IsComparison(f.op)
  {
  }

  lemma KeptMeans(env: PyEnv, metas: Index, docs: seq<Doc>, f: Filter, d: Doc)
    requires IsFold(env.fold) && JudgesEach(env, docs, f)
    requires Indexes(metas, docs) && UniqueIds(docs) && d in docs
    ensures d.id in Hits(env, metas, f) <==> Kept(env, d, f)
  {
    hide Visit, Collected, Steady, Unparsed;
    if f.key in metas {
      var buckets := metas[f.key];
      if !Steady(env, f.op, f.value) {
        TextsOnly(env, metas, docs, f);
      }
      KeptCollected(env, f, buckets, d.id);
      if b :| b in buckets && d.id in b.docs && Visit(env, f.op, b.text, f.value).0 {
        assert Lists(buckets, b.text, d.id);
        assert Posted(metas, f.key, b.text, d.id);
        var e :| e in docs && e.id == d.id && b.text in Texts(e, f.key);
        assert e == d;
      }
    }
    if t :| t in Texts(d, f.key) && Visit(env, f.op, t, f.value).0 {
      assert Carried(docs, f.key, t, d.id);
      assert Posted(metas, f.key, t, d.id);
      var b :| b in metas[f.key] && b.text == t && d.id in b.docs;
    }
  }

  lemma TextsOnly(env: PyEnv, metas: Index, docs: seq<Doc>, f: Filter)
    requires Indexes(metas, docs) && StoredTexts(env, docs, f) && f.key in metas
    ensures OnlyTexts(env, f, metas[f.key])
  {
    forall b | b in metas[f.key] && b.docs != [] && IsComparison(f.op) ensures env.literal(b.text).None? {
      assert b.docs[0] in b.docs;
      assert Posted(metas, f.key, b.text, b.docs[0]);
    }
  }

  // ----- Whole requests -----

  ghost predicate SearchAnswer(env: PyEnv, d: Doc, filters: seq<Filter>, logic: string) {
    Combined(filters, logic, f => Found(env, d, f))
  }

  ghost predicate MemoryAnswer(env: PyEnv, d: Doc, filters: seq<Filter>, logic: string) {
    Combined(filters, logic, f => Kept(env, d, f))
  }

  /** Filters that the engine reads as text and that no order of the buckets changes. */
  ghost predicate TextRequest(env: PyEnv, g: Engine, metas: Index, docs: seq<Doc>, filters: seq<Filter>,
                              logic: string, kbIds: seq<string>) {
    && IsFold(env.fold) && g.fold == env.fold
    && (logic == "and" || logic == "or") && filters != []
    && UniqueIds(docs) && Indexes(metas, InScope(docs, kbIds))
    && forall f :: f in filters ==> AsksForText(env, f) && JudgesEach(env, InScope(docs, kbIds), f)
  }

  lemma {:induction false} AllTranslate(env: PyEnv, filters: seq<Filter>, logic: string)
    requires logic == "and" || logic == "or"
    requires forall f :: f in filters ==> Translate(env, f).Ok?
    ensures PlanOf(env, filters, logic).Ok?
  {
    hide Translate;
    if filters != [] {
      AllTranslate(env, filters[1..], logic);
    }
  }

  lemma SearchReturns(env: PyEnv, g: Engine, metas: Index, docs: seq<Doc>, filters: seq<Filter>,
                      logic: string, kbIds: seq<string>)
    requires TextRequest(env, g, metas, docs, filters, logic, kbIds)
    ensures PlanOf(env, filters, logic).Ok?
    ensures EsQuery.Search(g, docs, Query(env, filters, logic, kbIds))
         == set d | d in InScope(docs, kbIds) && SearchAnswer(env, d, filters, logic) :: d.id
  {
    hide Translate, EsHolds, Found, JudgesEach;
    AllTranslate(env, filters, logic);
    SearchMeans(env, g, docs, filters, logic, kbIds);
    forall d | d in docs
      ensures SearchAnswer(env, d, filters, logic) == Combined(filters, logic, f => EsHolds(env, g, d, f))
    {
      forall f | f in filters ensures EsHolds(env, g, d, f) <==> Found(env, d, f) {
        FoundMeans(env, g, d, f);
      }
    }
  }

  lemma MemoryReturns(env: PyEnv, g: Engine, metas: Index, docs: seq<Doc>, filters: seq<Filter>,
                      logic: string, kbIds: seq<string>)
    requires TextRequest(env, g, metas, docs, filters, logic, kbIds)
    ensures Accumulate(env, metas, filters, logic, None)
         == set d | d in InScope(docs, kbIds) && MemoryAnswer(env, d, filters, logic) :: d.id
  {
    hide AsksForText, Kept, Hits, Accumulate;
    var result, scope := Accumulate(env, metas, filters, logic, None), InScope(docs, kbIds);
    forall d | d in scope ensures d.id in result <==> MemoryAnswer(env, d, filters, logic) {
      AccumulateMeans(env, metas, filters, logic, d.id);
      forall f | f in filters ensures d.id in Hits(env, metas, f) <==> Kept(env, d, f) {
        KeptMeans(env, metas, scope, f, d);
      }
    }
    forall id | id in result ensures exists d :: d in scope && d.id == id {
      AccumulateMeans(env, metas, filters, logic, id);
      assert filters[0] in filters;
      var f :| f in filters && id in Hits(env, metas, f);
      HitsAreDocs(env, metas, scope, f, id);
    }
  }

  /** Any list of such filters, any documents: the search and the in-memory filter
      return the same if and only if, on every document in scope, what the engine looks
      for and what the loop tests give the same answer. */
  lemma TextRequestExactIff(env: PyEnv, g: Engine, metas: Index, docs: seq<Doc>, filters: seq<Filter>,
                            logic: string, kbIds: seq<string>)
    requires TextRequest(env, g, metas, docs, filters, logic, kbIds)
    ensures PlanOf(env, filters, logic).Ok?
    ensures EsQuery.Search(g, docs, Query(env, filters, logic, kbIds)) == Accumulate(env, metas, filters, logic, None)
       <==> forall d :: d in InScope(docs, kbIds) ==>
              SearchAnswer(env, d, filters, logic) == MemoryAnswer(env, d, filters, logic)
  {
    hide SearchAnswer, MemoryAnswer, Accumulate, AsksForText, JudgesEach, Indexes;
    SearchReturns(env, g, metas, docs, filters, logic, kbIds);
    MemoryReturns(env, g, metas, docs, filters, logic, kbIds);
    forall d, e | d in InScope(docs, kbIds) && e in InScope(docs, kbIds) && d.id == e.id ensures d == e {
    }
    var scope := InScope(docs, kbIds);
    var found := set d | d in scope && SearchAnswer(env, d, filters, logic) :: d.id;
    var expected := set d | d in scope && MemoryAnswer(env, d, filters, logic) :: d.id;
    forall d | d in scope
      ensures d.id in found <==> SearchAnswer(env, d, filters, logic)
      ensures d.id in expected <==> MemoryAnswer(env, d, filters, logic)
    {
      assert forall e :: e in scope && e.id == d.id ==> e == d;
    }
  }

  /** For one filter. */
  lemma OneTextExactIff(env: PyEnv, g: Engine, metas: Index, docs: seq<Doc>, f: Filter,
                        logic: string, kbIds: seq<string>)
    requires TextRequest(env, g, metas, docs, [f], logic, kbIds)
    ensures PlanOf(env, [f], logic).Ok?
    ensures EsQuery.Search(g, docs, Query(env, [f], logic, kbIds)) == Accumulate(env, metas, [f], logic, None)
       <==> forall d :: d in InScope(docs, kbIds) ==> Found(env, d, f) == Kept(env, d, f)
  {
    hide TextRequest, Found, Kept, Accumulate, PlanOf;
    TextRequestExactIff(env, g, metas, docs, [f], logic, kbIds);
    assert f in [f];
    forall d
      ensures SearchAnswer(env, d, [f], logic) == Found(env, d, f)
      ensures MemoryAnswer(env, d, [f], logic) == Kept(env, d, f)
    {
      assert forall h :: h in [f] <==> h == f;
    }
  }

  // ----- A comma-separated text under `in` and `not in` -----

  lemma {:induction false} PartOccurs(s: string, c: char, k: nat)
    requires k < |Split(s, c)|
    ensures Occurs(Split(s, c)[k], s)
    ensures k == 0 ==> Split(s, c)[0] <= s
  {
    if s == "" {
      assert OccursAt("", s, 0);
    } else {
      var rest := Split(s[1..], c);
      var part := Split(s, c)[k];
      if s[0] == c {
        if k == 0 {
          assert OccursAt("", s, 0);
        } else {
          PartOccurs(s[1..], c, k - 1);
          OccursLater(part, s);
        }
      } else {
        PartOccurs(s[1..], c, k);
        if k == 0 {
          assert s[..1] + s[1..] == s;
          assert OccursAt(part, s, 0);
        } else {
          OccursLater(part, s);
        }
      }
    }
  }

  lemma OccursLater(t: string, s: string)
    requires s != "" && Occurs(t, s[1..])
    ensures Occurs(t, s)
  {
    var i: nat :| i <= |s[1..]| && OccursAt(t, s[1..], i);
    assert s[1..][i..i + |t|] == s[i + 1..i + 1 + |t|];
    assert OccursAt(t, s, i + 1);
  }

  lemma OccursInside(t: string, u: string, s: string)
    requires Occurs(t, u) && Occurs(u, s)
    ensures Occurs(t, s)
  {
    var i: nat :| i <= |u| && OccursAt(t, u, i);
    var j: nat :| j <= |s| && OccursAt(u, s, j);
    forall p | 0 <= p < |t| ensures s[j + i + p] == t[p] {
      assert t[p] == u[i..i + |t|][p] == u[i + p];
      assert u[i + p] == s[j..j + |u|][i + p];
    }
    assert OccursAt(t, s, j + i);
  }

  lemma {:induction false} StripLeftOccurs(s: string)
    ensures Occurs(StripLeft(s), s)
  {
    if s != "" && IsSpace(s[0]) {
      StripLeftOccurs(s[1..]);
      OccursLater(StripLeft(s), s);
    } else {
      assert OccursAt(s, s, 0);
    }
  }

  lemma {:induction false} StripRightOccurs(s: string)
    ensures Occurs(StripRight(s), s)
  {
    if s != "" && IsSpace(s[|s| - 1]) {
      var shorter := s[..|s| - 1];
      StripRightOccurs(shorter);
      assert OccursAt(shorter, s, 0);
      OccursInside(StripRight(s), shorter, s);
    } else {
      assert OccursAt(s, s, 0);
    }
  }

  lemma StripOccurs(s: string)
    ensures Occurs(Strip(s), s)
  {
    StripLeftOccurs(s);
    StripRightOccurs(StripLeft(s));
    OccursInside(Strip(s), StripLeft(s), s);
  }

  lemma LowerOccurs(fold: char -> char, t: string, s: string)
    requires Occurs(t, s)
    ensures Occurs(Lower(fold, t), Lower(fold, s))
  {
    var i: nat :| i <= |s| && OccursAt(t, s, i);
    LowerSlice(fold, s, i, i + |t|);
    assert OccursAt(Lower(fold, t), Lower(fold, s), i);
  }

  lemma {:induction false} PiecesOccur(s: string, parts: seq<string>, k: nat)
    requires forall i :: 0 <= i < |parts| ==> Occurs(parts[i], s)
    requires k < |Pieces(parts)|
    ensures Pieces(parts)[k].Str? && Occurs(Pieces(parts)[k].s, s)
  {
    hide Occurs;
    var n := |parts| - 1;
    if k < |Pieces(parts[..n])| {
      PiecesOccur(s, parts[..n], k);
    } else {
      StripOccurs(parts[n]);
      OccursInside(Strip(parts[n]), parts[n], s);
    }
  }

  /** A member the engine looks for occurs in the text as a whole. */
  lemma MemberOccurs(env: PyEnv, s: string, k: nat)
    requires IsFold(env.fold) && env.literal(s).None? && Members(env, Str(s)).Ok?
    requires k < |Members(env, Str(s)).value|
    ensures var m := Members(env, Str(s)).value[k]; m.Str? && Occurs(Lower(env.fold, m.s), Lower(env.fold, s))
  {
    hide Occurs;
    var parts := Split(s, ',');
    forall i | 0 <= i < |parts| ensures Occurs(parts[i], s) {
      PartOccurs(s, ',', i);
    }
    PiecesOccur(s, parts, k);
    var piece := Pieces(parts)[k];
    var m := Members(env, Str(s)).value[k];
    StripOccurs(Lower(env.fold, piece.s));
    LowerOccurs(env.fold, m.s, Lower(env.fold, piece.s));
    LowerTwice(env.fold, piece.s);
    LowerOccurs(env.fold, piece.s, s);
    OccursInside(Lower(env.fold, m.s), Lower(env.fold, piece.s), Lower(env.fold, s));
  }

  /** The in-memory filter asks for a substring. */
  lemma CommaTextVisit(env: PyEnv, op: Op, t: string, s: string)
    requires op.In? || op.NotIn?
    ensures Visit(env, op, t, Str(s)).0 == (Occurs(Lower(env.fold, t), Lower(env.fold, s)) == op.In?)
  {
  }

  /** A text that is a member of the comma-separated list is part of it. */
  lemma MemberIsPart(env: PyEnv, t: string, s: string)
    requires IsFold(env.fold) && env.literal(s).None? && Members(env, Str(s)).Ok?
    requires AmongMembers(env.fold, Members(env, Str(s)).value, t)
    ensures Occurs(Lower(env.fold, t), Lower(env.fold, s))
  {
    hide Members, Occurs;
    var members := Members(env, Str(s)).value;
    var k :| 0 <= k < |members| && members[k].Str? && Lower(env.fold, t) == Lower(env.fold, members[k].s);
    MemberOccurs(env, s, k);
  }

  predicate IsPart(env: PyEnv, t: string, s: string) {
    Occurs(Lower(env.fold, t), Lower(env.fold, s))
  }

  predicate IsMember(env: PyEnv, t: string, s: string)
    requires Members(env, Str(s)).Ok?
  {
    AmongMembers(env.fold, Members(env, Str(s)).value, t)
  }

  lemma CommaAsksForText(env: PyEnv, f: Filter, s: string)
    requires IsFold(env.fold) && env.literal(s).None? && Members(env, Str(s)).Ok?
    requires (f.op.In? || f.op.NotIn?) && f.value == Str(s) && f.key != ""
    ensures AsksForText(env, f) && Steady(env, f.op, f.value)
  {
    hide Members, Occurs;
    forall k | 0 <= k < |Members(env, Str(s)).value| ensures Members(env, Str(s)).value[k].Str? {
      MemberOccurs(env, s, k);
    }
  }

  /** One `in` or `not in` filter with a comma-separated text.  The engine compares with
      the members, the loop looks for a part of the whole text.  For `in` they return the
      same if and only if every document in scope with a part has a member, and the search
      never returns more; for `not in`, if and only if every document in scope with a value
      either has a member and only parts, or no member and a value that is no part. */
  lemma CommaTextExactIff(env: PyEnv, g: Engine, metas: Index, docs: seq<Doc>, key: string, s: string, op: Op,
                          logic: string, kbIds: seq<string>)
    requires IsFold(env.fold) && g.fold == env.fold && (logic == "and" || logic == "or")
    requires UniqueIds(docs) && Indexes(metas, InScope(docs, kbIds))
    requires (op.In? || op.NotIn?) && key != "" && env.literal(s).None? && Members(env, Str(s)).Ok?
    ensures var f := Filter(key, op, Str(s));
            && PlanOf(env, [f], logic).Ok?
            && var found := EsQuery.Search(g, docs, Query(env, [f], logic, kbIds));
               var expected := Accumulate(env, metas, [f], logic, None);
               && (op.In? ==> found <= expected)
               && (found == expected <==>
                     forall d :: d in InScope(docs, kbIds) && Texts(d, key) != [] ==>
                       var some := exists t :: t in Texts(d, key) && IsMember(env, t, s);
                       if op.In? then (exists t :: t in Texts(d, key) && IsPart(env, t, s)) ==> some
                       else some <==> forall t :: t in Texts(d, key) ==> IsPart(env, t, s))
  {
    hide Members, Occurs, Accumulate, PlanOf, Indexes, AsksForText;
    var f := Filter(key, op, Str(s));
    CommaAsksForText(env, f, s);
    assert forall h :: h in [f] <==> h == f;
    OneTextExactIff(env, g, metas, docs, f, logic, kbIds);
    SearchReturns(env, g, metas, docs, [f], logic, kbIds);
    MemoryReturns(env, g, metas, docs, [f], logic, kbIds);
    hide TextRequest;
    forall d
      ensures SearchAnswer(env, d, [f], logic) == Found(env, d, f)
      ensures MemoryAnswer(env, d, [f], logic) == Kept(env, d, f)
      ensures op.In? ==> (Found(env, d, f) <==> exists t :: t in Texts(d, key) && IsMember(env, t, s))
      ensures op.In? ==> (Kept(env, d, f) <==> exists t :: t in Texts(d, key) && IsPart(env, t, s))
      ensures op.In? ==> Found(env, d, f) ==> Kept(env, d, f)
      ensures op.NotIn? ==> (Found(env, d, f) <==>
                Texts(d, key) != [] && !exists t :: t in Texts(d, key) && IsMember(env, t, s))
      ensures op.NotIn? ==> (Kept(env, d, f) <==> exists t :: t in Texts(d, key) && !IsPart(env, t, s))
    {
      CommaOnDoc(env, d, f, s, logic);
    }
  }

  lemma CommaOnDoc(env: PyEnv, d: Doc, f: Filter, s: string, logic: string)
    requires IsFold(env.fold) && env.literal(s).None? && Members(env, Str(s)).Ok?
    requires (f.op.In? || f.op.NotIn?) && f.value == Str(s)
    ensures SearchAnswer(env, d, [f], logic) == Found(env, d, f) && MemoryAnswer(env, d, [f], logic) == Kept(env, d, f)
    ensures f.op.In? ==> (Found(env, d, f) <==> exists t :: t in Texts(d, f.key) && IsMember(env, t, s))
    ensures f.op.In? ==> (Kept(env, d, f) <==> exists t :: t in Texts(d, f.key) && IsPart(env, t, s))
    ensures f.op.In? ==> Found(env, d, f) ==> Kept(env, d, f)
    ensures f.op.NotIn? ==> (Found(env, d, f) <==>
              Texts(d, f.key) != [] && !exists t :: t in Texts(d, f.key) && IsMember(env, t, s))
    ensures f.op.NotIn? ==> (Kept(env, d, f) <==> exists t :: t in Texts(d, f.key) && !IsPart(env, t, s))
  {
    hide Members, Occurs, Visit, AmongMembers;
    assert f in [f] && forall h :: h in [f] <==> h == f;
    forall t
      ensures Visit(env, f.op, t, Str(s)).0 == (IsPart(env, t, s) == f.op.In?)
      ensures IsMember(env, t, s) ==> IsPart(env, t, s)
    {
      CommaTextVisit(env, f.op, t, s);
      if IsMember(env, t, s) {
        MemberIsPart(env, t, s);
      }
    }
  }

  // ----- Values that only the search trims, and numbers looked for in texts -----

  /** An equality or inequality with a text that is no date and no literal, trimmed or not:
      only the search trims it.  They return the same if and only if every document in
      scope with a value has the trimmed text exactly when, for `=`, it has the text as
      given and, for `≠`, it has no other. */
  lemma EqualityExactIff(env: PyEnv, g: Engine, metas: Index, docs: seq<Doc>, key: string, s: string, op: Op,
                         logic: string, kbIds: seq<string>)
    requires TextRequest(env, g, metas, docs, [Filter(key, op, Str(s))], logic, kbIds)
    requires (op.Eq? || op.Ne?) && Unparsed(env, Str(s))
    ensures var f := Filter(key, op, Str(s));
            && PlanOf(env, [f], logic).Ok?
            && (EsQuery.Search(g, docs, Query(env, [f], logic, kbIds)) == Accumulate(env, metas, [f], logic, None)
                <==> forall d :: d in InScope(docs, kbIds) && Texts(d, key) != [] ==>
                       var trimmed := exists t :: t in Texts(d, key) && SameUpToCase(env, t, Strip(s));
                       if op.Eq? then trimmed <==> exists t :: t in Texts(d, key) && SameUpToCase(env, t, s)
                       else trimmed <==> forall t :: t in Texts(d, key) ==> SameUpToCase(env, t, s))
  {
    hide Accumulate, PlanOf, TextRequest, Unparsed, Strip, SameUpToCase;
    var f := Filter(key, op, Str(s));
    OneTextExactIff(env, g, metas, docs, f, logic, kbIds);
    forall d | d in InScope(docs, kbIds)
      ensures Found(env, d, f) <==>
                Texts(d, key) != []
                && ((exists t :: t in Texts(d, key) && SameUpToCase(env, t, Strip(s))) == op.Eq?)
      ensures Kept(env, d, f) <==> exists t :: t in Texts(d, key) && SameUpToCase(env, t, s) == op.Eq?
    {
      StoredInScope(env, g, metas, docs, f, logic, kbIds);
      EqualityOnDoc(env, InScope(docs, kbIds), d, f, s);
    }
  }

  predicate SameUpToCase(env: PyEnv, t: string, s: string) {
    Lower(env.fold, t) == Lower(env.fold, s)
  }

  lemma StoredInScope(env: PyEnv, g: Engine, metas: Index, docs: seq<Doc>, f: Filter, logic: string, kbIds: seq<string>)
    requires TextRequest(env, g, metas, docs, [f], logic, kbIds) && IsComparison(f.op) && Unparsed(env, f.value)
    ensures StoredTexts(env, InScope(docs, kbIds), f)
  {
    hide AsksForText, Indexes;
    assert f in [f];
  }

  lemma EqualityOnDoc(env: PyEnv, docs: seq<Doc>, d: Doc, f: Filter, s: string)
    requires (f.op.Eq? || f.op.Ne?) && f.value == Str(s) && Unparsed(env, Str(s))
    requires d in docs && StoredTexts(env, docs, f)
    ensures Found(env, d, f) <==>
              Texts(d, f.key) != []
              && ((exists t :: t in Texts(d, f.key) && SameUpToCase(env, t, Strip(s))) == f.op.Eq?)
    ensures Kept(env, d, f) <==> exists t :: t in Texts(d, f.key) && SameUpToCase(env, t, s) == f.op.Eq?
  {
    hide Strip, IsDate;
    forall t | t in Texts(d, f.key)
      ensures Visit(env, f.op, t, f.value).0 == (SameUpToCase(env, t, s) == f.op.Eq?)
      ensures Sought(env, f, t) == SameUpToCase(env, t, Strip(s))
    {
    }
  }

  /** `contains` or `not contains` with a value that is no text, such as a number.  The
      loop matches nothing, and the engine looks for the value as text: they return the
      same if and only if, for `contains`, no value in scope holds it or, for
      `not contains`, every document in scope with a value has one that does. */
  lemma ShownExactIff(env: PyEnv, g: Engine, metas: Index, docs: seq<Doc>, f: Filter,
                      logic: string, kbIds: seq<string>)
    requires TextRequest(env, g, metas, docs, [f], logic, kbIds)
    requires (f.op.Contains? || f.op.NotContains?) && !f.value.Str?
    ensures PlanOf(env, [f], logic).Ok? && Accumulate(env, metas, [f], logic, None) == {}
    ensures EsQuery.Search(g, docs, Query(env, [f], logic, kbIds)) == Accumulate(env, metas, [f], logic, None)
       <==> forall d :: d in InScope(docs, kbIds) && Texts(d, f.key) != [] ==>
              ((exists t :: t in Texts(d, f.key) && Occurs(Lower(env.fold, Show(env, f.value)), Lower(env.fold, t)))
               <==> f.op.NotContains?)
  {
    hide Accumulate, PlanOf, TextRequest, Occurs;
    OneTextExactIff(env, g, metas, docs, f, logic, kbIds);
    MemoryReturns(env, g, metas, docs, [f], logic, kbIds);
    assert f in [f];
    forall d ensures !Kept(env, d, f) && !MemoryAnswer(env, d, [f], logic) {
      forall t ensures !Visit(env, f.op, t, f.value).0 {
        NotText(env, f, t);
      }
    }
  }

  lemma NotText(env: PyEnv, f: Filter, t: string)
    requires (f.op.Contains? || f.op.NotContains?) && !f.value.Str?
    ensures !Visit(env, f.op, t, f.value).0
  {
  }
}
