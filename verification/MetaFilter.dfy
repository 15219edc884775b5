/** The in-memory evaluator of metadata filters over an inverted index
    (key, then value, then documents). */
module MetaFilter {
  import opened Text
  import opened PyValue

  type DocId = string

  datatype Op =
    | Eq | Ne | Range(cmp: RangeOp)
    | In | NotIn
    | Contains | NotContains
    | StartWith | EndWith
    | Empty | NotEmpty
    | Unknown(name: string)

  datatype Filter = Filter(key: string, op: Op, value: Py)

  /** One entry of `v2docs`: the text of a value and the documents carrying it. */
  datatype Bucket = Bucket(text: string, docs: seq<DocId>)

  type Index = map<string, seq<Bucket>>

  predicate IsComparison(op: Op) {
    op.Eq? || op.Ne? || op.Range?
  }

  function Normalise(env: PyEnv, v: Py): Py {
    match v
    case Str(s) => Str(Lower(env.fold, s))
    case List(items) => List(seq(|items|, i requires 0 <= i < |items| => LowerText(env, items[i])))
    case _ => v
  }

  /** The operator test on the rewritten input and value; an exception is no match. */
  predicate Test(env: PyEnv, op: Op, input: Py, value: Py) {
    match op
    case Contains => value.Str? && Occurs(value.s, Show(env, input))
    case NotContains => value.Str? && !Occurs(value.s, Show(env, input))
    case In => PyIn(env, input, value) == Some(true)
    case NotIn => PyIn(env, input, value) == Some(false)
    case StartWith => Lower(env.fold, Show(env, value)) <= Lower(env.fold, Show(env, input))
    case EndWith => EndsWith(Lower(env.fold, Show(env, input)), Lower(env.fold, Show(env, value)))
    case Empty => input == Str("")
    case NotEmpty => input != Str("")
    case Eq => PyEq(input, value)
    case Ne => !PyEq(input, value)
    case Range(cmp) => env.compare(cmp, input, value) == Some(true)
    case Unknown(_) => false
  }

  function PyIn(env: PyEnv, input: Py, value: Py): Option<bool> {
    match value
    case Str(s) => if input.Str? then Some(Occurs(input.s, s)) else None
    case List(items) => Some(exists i :: 0 <= i < |items| && PyEq(input, items[i]))
    case _ => env.member(input, value)
  }

  /** The input and value a bucket is judged with, `None` when it is skipped. */
  function Rewritten(env: PyEnv, op: Op, text: string, value: Py): Option<(Py, Py)> {
    if !IsComparison(op) then Some((Normalise(env, Str(text)), Normalise(env, value)))
    else if IsDate(Strip(Show(env, value))) then
      if IsDate(Strip(text)) then Some((Str(Strip(text)), Str(Strip(Show(env, value))))) else None
    else
      match env.literal(text)
      case None => Some((LowerText(env, Str(text)), LowerText(env, value)))
      case Some(input) => Some((LowerText(env, input), LowerText(env, ParseAgain(env, value))))
  }

  /** What one bucket does: whether it matches, and the value the next bucket sees. */
  function Visit(env: PyEnv, op: Op, text: string, value: Py): (bool, Py) {
    match Rewritten(env, op, text, value)
    case None => (false, value)
    case Some((input, next)) => (Test(env, op, input, next), next)
  }

  function ParseAgain(env: PyEnv, value: Py): Py {
    if value.Str? && env.literal(value.s).Some? then env.literal(value.s).value else value
  }

  /** `ids` and `value` after the first `n` buckets. */
  function After(env: PyEnv, buckets: seq<Bucket>, op: Op, value: Py, n: nat): (seq<DocId>, Py)
    requires n <= |buckets|
  {
    if n == 0 then ([], value)
    else
      var (ids, current) := After(env, buckets, op, value, n - 1);
      var (matched, next) := Visit(env, op, buckets[n - 1].text, current);
      (if matched then ids + buckets[n - 1].docs else ids, next)
  }

  /** The documents `filter_out` collects. */
  function Collected(env: PyEnv, buckets: seq<Bucket>, op: Op, value: Py): seq<DocId> {
    After(env, buckets, op, value, |buckets|).0
  }

  lemma AfterStep(env: PyEnv, buckets: seq<Bucket>, op: Op, value: Py, n: nat)
    requires n < |buckets|
    ensures var (ids, current) := After(env, buckets, op, value, n);
            var (matched, next) := Visit(env, op, buckets[n].text, current);
            After(env, buckets, op, value, n + 1) == (if matched then ids + buckets[n].docs else ids, next)
  {
    hide Visit;
  }

  /** The loop over the buckets of a key: it rewrites `value` as it goes, and a
      bucket that is no date is skipped when the value is one. */
  method FilterOut(env: PyEnv, v2docs: seq<Bucket>, operator: Op, value0: Py) returns (ids: seq<DocId>)
    ensures ids == Collected(env, v2docs, operator, value0)
  {
    hide After, Test, IsDate, Normalise, LowerText;
    ids := [];
    var value := value0;
    assert After(env, v2docs, operator, value0, 0) == ([], value0) by {
      AfterNone(env, v2docs, operator, value0);
    }
    for n := 0 to |v2docs|
      invariant (ids, value) == After(env, v2docs, operator, value0, n)
    {
      AfterStep(env, v2docs, operator, value0, n);
      var text := v2docs[n].text;
      var input := Str(text);
      if IsComparison(operator) {
        var inputStr, valueStr := Strip(text), Strip(Show(env, value));
        if IsDate(valueStr) {
          if !IsDate(inputStr) {
            continue;
          }
          input, value := Str(inputStr), Str(valueStr);
        } else {
          var parsed := env.literal(text);
          if parsed.Some? {
            input := parsed.value;
            if value.Str? && env.literal(value.s).Some? {
              value := env.literal(value.s).value;
            }
          }
          input, value := LowerText(env, input), LowerText(env, value);
        }
      } else {
        input, value := Normalise(env, input), Normalise(env, value);
      }
      if Test(env, operator, input, value) {
        ids := ids + v2docs[n].docs;
      }
    }
  }

  lemma AfterNone(env: PyEnv, buckets: seq<Bucket>, op: Op, value: Py)
    ensures After(env, buckets, op, value, 0) == ([], value)
  {
  }

  function ToSet(ids: seq<DocId>): set<DocId> {
    set id | id in ids
  }

  function Hits(env: PyEnv, metas: Index, f: Filter): set<DocId> {
    if f.key in metas then ToSet(Collected(env, metas[f.key], f.op, f.value)) else {}
  }

  /** The rest of the filter loop from an accumulated set; `None` before the first filter. */
  function Accumulate(env: PyEnv, metas: Index, filters: seq<Filter>, logic: string,
                      acc: Option<set<DocId>>): set<DocId> {
    if filters == [] then
      if acc.Some? then acc.value else {}
    else
      var ids := Hits(env, metas, filters[0]);
      if acc.None? then Accumulate(env, metas, filters[1..], logic, Some(ids))
      else if logic == "and" then
        if acc.value * ids == {} then {}
        else Accumulate(env, metas, filters[1..], logic, Some(acc.value * ids))
      else Accumulate(env, metas, filters[1..], logic, Some(acc.value + ids))
  }

  method Run(env: PyEnv, metas: Index, filters: seq<Filter>, logic: string) returns (result: set<DocId>)
    ensures result == Accumulate(env, metas, filters, logic, None)
  {
    var docIds: Option<set<DocId>> := None;
    for n := 0 to |filters|
      invariant Accumulate(env, metas, filters[n..], logic, docIds)
             == Accumulate(env, metas, filters, logic, None)
    {
      assert filters[n..][1..] == filters[n + 1..];
      var f := filters[n];
      var ids := [];
      if f.key in metas {
        ids := FilterOut(env, metas[f.key], f.op, f.value);
      }
      assert ToSet(ids) == Hits(env, metas, f);
      if docIds.None? {
        docIds := Some(ToSet(ids));
      } else if logic == "and" {
        docIds := Some(docIds.value * ToSet(ids));
        if docIds.value == {} {
          return {};
        }
      } else {
        docIds := Some(docIds.value + ToSet(ids));
      }
    }
    assert filters[|filters|..] == [];
    return if docIds.Some? then docIds.value else {};
  }

  // ----- What the filters mean, value by value -----

  predicate Negative(op: Op) {
    op.Ne? || op.NotIn? || op.NotContains? || op.NotEmpty?
  }

  predicate Positive(op: Op) {
    op.Eq? || op.In? || op.Contains? || op.StartWith? || op.EndWith?
  }

  /** The intended meaning of a filter on one text, independent of buckets and of
      the order they are visited in. */
  predicate Satisfies(env: PyEnv, f: Filter, text: string) {
    var t := Lower(env.fold, text);
    var v := Lower(env.fold, Show(env, f.value));
    match f.op
    case Eq => t == v
    case Ne => t != v
    case In => Among(env, f.value, t)
    case NotIn => !Among(env, f.value, t)
    case Contains => Occurs(v, t)
    case NotContains => !Occurs(v, t)
    case StartWith => v <= t
    case EndWith => EndsWith(t, v)
    case Empty => text == ""
    case NotEmpty => text != ""
    case Range(_) => false
    case Unknown(_) => false
  }

  predicate Among(env: PyEnv, value: Py, lowered: string) {
    value.List? && exists i :: 0 <= i < |value.items| && LowerText(env, value.items[i]) == Str(lowered)
  }

  /** Text that neither the date test nor `literal_eval` takes for something else. */
  predicate Inert(env: PyEnv, s: string) {
    !IsDate(Strip(s)) && env.literal(s).None?
  }

  predicate PlainText(env: PyEnv, s: string) {
    Strip(s) == s && Inert(env, s) && Inert(env, Lower(env.fold, s))
  }

  /** The fragment on which the two evaluators are compared: text conditions. */
  predicate TextFilter(env: PyEnv, f: Filter) {
    && f.key != ""
    && match f.op
       case Eq => f.value.Str? && PlainText(env, f.value.s)
       case Ne => f.value.Str? && PlainText(env, f.value.s)
       case In => TrimmedTexts(f.value)
       case NotIn => TrimmedTexts(f.value)
       case Empty => true
       case NotEmpty => true
       case Range(_) => false
       case Unknown(_) => false
       case _ => f.value.Str? && f.value.s != ""
  }

  predicate TrimmedTexts(v: Py) {
    && v.List? && v.items != []
    && forall i :: 0 <= i < |v.items| ==> v.items[i].Str? && Strip(v.items[i].s) == v.items[i].s
  }

  /** The values the loop variable can hold while one filter visits its buckets. */
  predicate CarriedFrom(env: PyEnv, original: Py, value: Py) {
    value == original || value == Normalise(env, original)
  }

  lemma NormaliseTwice(env: PyEnv, v: Py)
    requires IsFold(env.fold)
    ensures Normalise(env, Normalise(env, v)) == Normalise(env, v)
  {
    if v.Str? {
      LowerTwice(env.fold, v.s);
    } else if v.List? {
      forall i | 0 <= i < |v.items|
        ensures LowerText(env, LowerText(env, v.items[i])) == LowerText(env, v.items[i])
      {
        if v.items[i].Str? {
          LowerTwice(env.fold, v.items[i].s);
        }
      }
      assert Normalise(env, Normalise(env, v)).items == Normalise(env, v).items;
    }
  }

  lemma RewrittenText(env: PyEnv, f: Filter, text: string, value: Py)
    requires IsFold(env.fold) && TextFilter(env, f)
    requires CarriedFrom(env, f.value, value)
    requires IsComparison(f.op) ==> env.literal(text).None?
    ensures Rewritten(env, f.op, text, value) == Some((Str(Lower(env.fold, text)), Normalise(env, f.value)))
  {
    if !IsComparison(f.op) {
      NormaliseTwice(env, f.value);
    } else if value != f.value {
      LowerTwice(env.fold, f.value.s);
    }
  }

  /** Whatever the bucket's text is, the next bucket sees the value or its lower case. */
  lemma VisitCarries(env: PyEnv, f: Filter, text: string, value: Py)
    requires IsFold(env.fold) && TextFilter(env, f)
    requires CarriedFrom(env, f.value, value)
    ensures Visit(env, f.op, text, value).1 == Normalise(env, f.value)
  {
    if !IsComparison(f.op) {
      NormaliseTwice(env, f.value);
    } else {
      LowerTwice(env.fold, f.value.s);
      assert ParseAgain(env, value) == value;
    }
  }

  lemma MembersMean(env: PyEnv, v: Py, lowered: string)
    requires TrimmedTexts(v)
    ensures PyIn(env, Str(lowered), Normalise(env, v)) == Some(Among(env, v, lowered))
  {
    var items := Normalise(env, v).items;
    forall i | 0 <= i < |items|
      ensures PyEq(Str(lowered), items[i]) <==> LowerText(env, v.items[i]) == Str(lowered)
    {
    }
  }

  lemma TestMeans(env: PyEnv, f: Filter, text: string)
    requires IsFold(env.fold) && TextFilter(env, f)
    ensures Test(env, f.op, Str(Lower(env.fold, text)), Normalise(env, f.value)) == Satisfies(env, f, text)
  {
    LowerTwice(env.fold, text);
    if f.op.In? || f.op.NotIn? {
      MembersMean(env, f.value, Lower(env.fold, text));
    } else if f.value.Str? {
      LowerTwice(env.fold, f.value.s);
    }
  }

  /** Although the loop rewrites the value as it goes, on text conditions every
      bucket is judged by the original value, whatever bucket came before. */
  lemma VisitMeans(env: PyEnv, f: Filter, text: string, value: Py)
    requires IsFold(env.fold) && TextFilter(env, f)
    requires CarriedFrom(env, f.value, value)
    requires IsComparison(f.op) ==> env.literal(text).None?
    ensures Visit(env, f.op, text, value) == (Satisfies(env, f, text), Normalise(env, f.value))
  {
    RewrittenText(env, f, text, value);
    TestMeans(env, f, text);
  }

  /** The texts that documents carry under a compared key are not Python literals. */
  ghost predicate OnlyTexts(env: PyEnv, f: Filter, buckets: seq<Bucket>) {
    IsComparison(f.op) ==> forall b :: b in buckets && b.docs != [] ==> env.literal(b.text).None?
  }

  lemma {:induction false} AfterMeans(env: PyEnv, f: Filter, buckets: seq<Bucket>, n: nat, id: DocId)
    requires IsFold(env.fold) && TextFilter(env, f) && n <= |buckets|
    requires OnlyTexts(env, f, buckets)
    ensures var (ids, value) := After(env, buckets, f.op, f.value, n);
            && CarriedFrom(env, f.value, value)
            && (id in ids <==> exists i :: 0 <= i < n && id in buckets[i].docs && Satisfies(env, f, buckets[i].text))
  {
    if n > 0 {
      AfterMeans(env, f, buckets, n - 1, id);
      var b, value := buckets[n - 1], After(env, buckets, f.op, f.value, n - 1).1;
      VisitCarries(env, f, b.text, value);
      if b.docs != [] {
        VisitMeans(env, f, b.text, value);
      }
    }
  }

  lemma CollectedMeans(env: PyEnv, f: Filter, buckets: seq<Bucket>, id: DocId)
    requires IsFold(env.fold) && TextFilter(env, f)
    requires OnlyTexts(env, f, buckets)
    ensures id in Collected(env, buckets, f.op, f.value)
       <==> exists b :: b in buckets && id in b.docs && Satisfies(env, f, b.text)
  {
    AfterMeans(env, f, buckets, |buckets|, id);
    if b :| b in buckets && id in b.docs && Satisfies(env, f, b.text) {
      var i :| 0 <= i < |buckets| && buckets[i] == b;
    }
  }

  /** `Collected` on a filter as written equals the union of its satisfied buckets,
      so no order of the buckets can change the answer. */
  lemma OrderDoesNotMatter(env: PyEnv, f: Filter, xs: seq<Bucket>, ys: seq<Bucket>)
    requires IsFold(env.fold) && TextFilter(env, f)
    requires forall b :: b in xs <==> b in ys
    requires OnlyTexts(env, f, xs)
    ensures ToSet(Collected(env, xs, f.op, f.value)) == ToSet(Collected(env, ys, f.op, f.value))
  {
    forall id
      ensures id in ToSet(Collected(env, xs, f.op, f.value)) <==> id in ToSet(Collected(env, ys, f.op, f.value))
    {
      CollectedMeans(env, f, xs, id);
      CollectedMeans(env, f, ys, id);
    }
  }

  // ----- Outside the text fragment the order does matter -----

  /** A runtime in which digits are numbers and a quoted digit is a text. */
  const DIGITS := PyEnv(
    (c: char) => c,
    (s: string) => if |s| == 1 && IsDigit(s[0]) then Some(Num(s[0] as int as real))
                   else if |s| == 3 && s[0] == s[2] == '\'' then Some(Str([s[1]])) else None,
    (v: Py) => "",
    (c: RangeOp, a: Py, b: Py) => None,
    (a: Py, b: Py) => None)

  function Quoted(digit: char): Py {
    Str(['\'', digit, '\''])
  }

  function Number(digit: char): Py {
    Num(digit as int as real)
  }

  /** Each visited number peels one layer off a quoted value. */
  lemma VisitPeels(text: char, digit: char)
    requires IsDigit(text) && IsDigit(digit)
    ensures Visit(DIGITS, Eq, [text], Quoted(digit)) == (false, Str([digit]))
    ensures Visit(DIGITS, Eq, [text], Str([digit])) == (text == digit, Number(digit))
  {
    assert Lower(DIGITS.fold, [digit]) == [digit];
    assert DIGITS.literal([text]) == Some(Number(text));
    assert DIGITS.literal([digit]) == Some(Number(digit));
    var q := Quoted(digit).s;
    assert q[0] == q[2] == '\'' && q[1] == digit;
    assert DIGITS.literal(q) == Some(Str([digit]));
    assert |Strip(q)| < 10 && |Strip([digit])| < 10;
  }

  /** Outside the fragment the answer can depend on which bucket comes first. */
  lemma QuotedValueDependsOnOrder(a: char, b: char, docA: DocId, docB: DocId)
    requires IsDigit(a) && IsDigit(b) && a != b
    ensures Collected(DIGITS, [Bucket([a], [docA]), Bucket([b], [docB])], Eq, Quoted(b)) == [docB]
    ensures Collected(DIGITS, [Bucket([b], [docB]), Bucket([a], [docA])], Eq, Quoted(b)) == []
  {
    VisitPeels(a, b);
    VisitPeels(b, b);
    var ab, ba := [Bucket([a], [docA]), Bucket([b], [docB])], [Bucket([b], [docB]), Bucket([a], [docA])];
    assert After(DIGITS, ab, Eq, Quoted(b), 1) == ([], Str([b]));
    assert After(DIGITS, ba, Eq, Quoted(b), 1) == ([], Str([b]));
    assert After(DIGITS, ab, Eq, Quoted(b), 2).0 == [] + [docB];
  }
}
