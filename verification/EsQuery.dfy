/** The part of the search engine's query language the filters use, and which
    documents a query selects. */
module EsQuery {
  import opened Text
  import opened PyValue
  import opened MetaStore
  import MetaFilter
  import Glob

  /** `Meta` is the analysed field of a metadata key and `Keyword` its exact
      sub-field. */
  datatype Field = KbId | Meta(key: string) | Keyword(key: string)

  datatype Clause =
    | Terms(field: Field, values: seq<Py>)
    | Term(field: Field, value: Py, caseInsensitive: bool)
    | Exists(field: Field)
    | Prefix(field: Field, text: string)
    | Wildcard(field: Field, pattern: string)
    | Range(field: Field, cmp: RangeOp, bound: Py)
    | BoolQuery(must: seq<Clause>, mustNot: seq<Clause>, should: seq<Clause>, minShould: nat, filter: seq<Clause>)

  function Must(must: seq<Clause>, mustNot: seq<Clause>): Clause {
    BoolQuery(must, mustNot, [], 0, [])
  }

  function AnyOf(should: seq<Clause>): Clause {
    BoolQuery([], [], should, 1, [])
  }

  /** What the engine makes of an analysed field: which terms a text holds, and
      how a bound compares with it. */
  datatype Engine = Engine(
    fold: char -> char,
    analysed: (string, Py) -> bool,
    within: (RangeOp, Py, string) -> bool)

  function FieldTexts(d: Doc, field: Field): seq<string> {
    match field
    case KbId => [d.kb]
    case Meta(key) => Texts(d, key)
    case Keyword(key) => Texts(d, key)
  }

  predicate HasTerm(g: Engine, field: Field, text: string, value: Py, caseInsensitive: bool) {
    if field.Meta? then g.analysed(text, value)
    else value.Str? && if caseInsensitive then Lower(g.fold, text) == Lower(g.fold, value.s) else text == value.s
  }

  function CountHolding(g: Engine, d: Doc, cs: seq<Clause>): nat
    decreases cs, 0
  {
    if cs == [] then 0 else (if Selects(g, d, cs[0]) then 1 else 0) + CountHolding(g, d, cs[1..])
  }

  /** Whether a document satisfies a clause. */
  predicate Selects(g: Engine, d: Doc, c: Clause)
    decreases c, 1
  {
    match c
    case Terms(field, values) =>
      exists t, v | t in FieldTexts(d, field) && v in values :: HasTerm(g, field, t, v, false)
    case Term(field, value, ci) => exists t | t in FieldTexts(d, field) :: HasTerm(g, field, t, value, ci)
    case Exists(field) => FieldTexts(d, field) != []
    case Prefix(field, text) =>
      exists t | t in FieldTexts(d, field) :: Lower(g.fold, text) <= Lower(g.fold, t)
    case Wildcard(field, pattern) =>
      exists t | t in FieldTexts(d, field) :: Glob.Accepts(Glob.WILDCARD, g.fold, pattern, t)
    case Range(field, cmp, bound) => exists t | t in FieldTexts(d, field) :: g.within(cmp, bound, t)
    case BoolQuery(must, mustNot, should, minShould, filter) =>
      && CountHolding(g, d, must) == |must|
      && CountHolding(g, d, filter) == |filter|
      && CountHolding(g, d, mustNot) == 0
      && minShould <= CountHolding(g, d, should)
  }

  /** The ids of the documents a search returns. */
  function Search(g: Engine, docs: seq<Doc>, query: Clause): set<MetaFilter.DocId> {
    set d | d in docs && Selects(g, d, query) :: d.id
  }

  ghost predicate AllHold(g: Engine, d: Doc, cs: seq<Clause>) {
    forall c :: c in cs ==> Selects(g, d, c)
  }

  ghost predicate AnyHolds(g: Engine, d: Doc, cs: seq<Clause>) {
    exists c :: c in cs && Selects(g, d, c)
  }

  lemma {:induction false} CountMeans(g: Engine, d: Doc, cs: seq<Clause>)
    ensures CountHolding(g, d, cs) <= |cs|
    ensures CountHolding(g, d, cs) == |cs| <==> AllHold(g, d, cs)
    ensures CountHolding(g, d, cs) > 0 <==> AnyHolds(g, d, cs)
  {
    if cs != [] {
      CountMeans(g, d, cs[1..]);
      assert forall c :: c in cs <==> c == cs[0] || c in cs[1..];
    }
  }

  lemma MustMeans(g: Engine, d: Doc, must: seq<Clause>, mustNot: seq<Clause>)
    ensures Selects(g, d, Must(must, mustNot)) <==> AllHold(g, d, must) && !AnyHolds(g, d, mustNot)
  {
    CountMeans(g, d, must);
    CountMeans(g, d, mustNot);
  }

  lemma AnyOfMeans(g: Engine, d: Doc, should: seq<Clause>)
    ensures Selects(g, d, AnyOf(should)) <==> AnyHolds(g, d, should)
  {
    CountMeans(g, d, should);
  }
}
