/** What one bucket's verdict means, for every operator and every value. */
module MetaJudgement {
  import opened Text
  import opened PyValue
  import opened MetaFilter
  import opened MetaOrder

  /** A value in lower case, if it is text. */
  predicate LowerOf(env: PyEnv, v: Py, lowered: Py) {
    if v.Str? then lowered.Str? && lowered.s == Lower(env.fold, v.s) else lowered == v
  }

  /** `a` stands in the relation that a comparison names to `b`. */
  predicate Stands(env: PyEnv, op: Op, a: Py, b: Py) {
    || (op == Eq && PyEq(a, b))
    || (op == Ne && !PyEq(a, b))
    || (op.Range? && env.compare(op.cmp, a, b) == Some(true))
  }

  /** A date compares with trimmed dates only; other values, in lower case, with the
      text or, both parsed, with the literal that the text spells. */
  ghost predicate Compares(env: PyEnv, op: Op, text: string, value: Py) {
    var shown := Strip(Show(env, value));
    if IsDate(shown) then IsDate(Strip(text)) && Stands(env, op, Str(Strip(text)), Str(shown))
    else
      exists a, b :: Stands(env, op, a, b)
        && match env.literal(text)
           case None => LowerOf(env, Str(text), a) && LowerOf(env, value, b)
           case Some(x) =>
             && LowerOf(env, x, a)
             && match (if value.Str? then env.literal(value.s) else None)
                case None => LowerOf(env, value, b)
                case Some(y) => LowerOf(env, y, b)
  }

  /** The value as text in lower case; only the texts in a list are lowered before. */
  ghost predicate Spelled(env: PyEnv, value: Py, shown: string) {
    match value
    case Str(s) => shown == Lower(env.fold, s)
    case List(items) =>
      exists lowered: seq<Py> ::
        && |lowered| == |items| && (forall i :: 0 <= i < |items| ==> LowerOf(env, items[i], lowered[i]))
        && shown == Lower(env.fold, env.show(List(lowered)))
    case _ => shown == Lower(env.fold, env.show(value))
  }

  /** A text is among a list's texts, or part of a text, in lower case. */
  ghost predicate IsIn(env: PyEnv, lowered: string, value: Py, answer: bool) {
    match value
    case Str(s) => answer == Occurs(lowered, Lower(env.fold, s))
    case List(items) =>
      answer == exists i :: 0 <= i < |items| && items[i].Str? && Lower(env.fold, items[i].s) == lowered
    case _ => env.member(Str(lowered), value) == Some(answer)
  }

  ghost predicate Judged(env: PyEnv, op: Op, text: string, value: Py) {
    var t := Lower(env.fold, text);
    match op
    case Contains => value.Str? && Occurs(Lower(env.fold, value.s), t)
    case NotContains => value.Str? && !Occurs(Lower(env.fold, value.s), t)
    case StartWith => exists v :: Spelled(env, value, v) && v <= t
    case EndWith => exists v :: Spelled(env, value, v) && EndsWith(t, v)
    case In => IsIn(env, t, value, true)
    case NotIn => IsIn(env, t, value, false)
    case Empty => text == ""
    case NotEmpty => text != ""
    case Unknown(_) => false
    case _ => Compares(env, op, text, value)
  }

  lemma LowerTextIs(env: PyEnv, v: Py, lowered: Py)
    ensures LowerOf(env, v, lowered) <==> lowered == LowerText(env, v)
  {
  }

  lemma SpelledIs(env: PyEnv, value: Py, shown: string)
    requires IsFold(env.fold)
    ensures Spelled(env, value, shown) <==> shown == Lower(env.fold, Show(env, Normalise(env, value)))
  {
    match value
    case Str(s) => LowerTwice(env.fold, s);
    case List(items) =>
      var lowered := Normalise(env, value).items;
      assert Normalise(env, value) == List(lowered);
      forall i | 0 <= i < |items| ensures LowerOf(env, items[i], lowered[i]) {
        LowerTextIs(env, items[i], lowered[i]);
      }
      forall other: seq<Py>
        | |other| == |items| && forall i :: 0 <= i < |items| ==> LowerOf(env, items[i], other[i])
        ensures other == lowered
      {
        forall i | 0 <= i < |items| ensures other[i] == lowered[i] {
          LowerTextIs(env, items[i], other[i]);
        }
      }
    case _ =>
  }

  lemma IsInIs(env: PyEnv, lowered: string, value: Py, answer: bool)
    ensures IsIn(env, lowered, value, answer) <==> PyIn(env, Str(lowered), Normalise(env, value)) == Some(answer)
  {
    if value.List? {
      var items := Normalise(env, value).items;
      forall i | 0 <= i < |items|
        ensures PyEq(Str(lowered), items[i])
           <==> value.items[i].Str? && Lower(env.fold, value.items[i].s) == lowered
      {
      }
    }
  }

  lemma ComparesIs(env: PyEnv, op: Op, text: string, value: Py)
    requires IsComparison(op)
    ensures Visit(env, op, text, value).0 <==> Compares(env, op, text, value)
  {
    hide PyEq, IsDate, Strip, Lower;
    if !IsDate(Strip(Show(env, value))) {
      var parsed := env.literal(text).Some?;
      var x := if parsed then env.literal(text).value else Str(text);
      var y := if parsed && value.Str? && env.literal(value.s).Some? then env.literal(value.s).value else value;
      var a, b := LowerText(env, x), LowerText(env, y);
      forall other ensures LowerOf(env, x, other) <==> other == a { LowerTextIs(env, x, other); }
      forall other ensures LowerOf(env, y, other) <==> other == b { LowerTextIs(env, y, other); }
      assert Visit(env, op, text, value).0 == Stands(env, op, a, b);
    }
  }

  /** The verdict on a bucket, operator by operator, whatever the value is. */
  lemma VerdictMeans(env: PyEnv, op: Op, text: string, value: Py)
    requires IsFold(env.fold)
    ensures Visit(env, op, text, value).0 <==> Judged(env, op, text, value)
  {
    hide PyEq, IsDate, Strip, Lower, PyIn, Spelled, IsIn, Compares;
    var t, v := Lower(env.fold, text), Normalise(env, value);
    LowerTwice(env.fold, text);
    if IsComparison(op) {
      ComparesIs(env, op, text, value);
    } else {
      assert Visit(env, op, text, value).0 == Test(env, op, Str(t), v);
      var spelled := Lower(env.fold, Show(env, v));
      forall shown ensures Spelled(env, value, shown) <==> shown == spelled { SpelledIs(env, value, shown); }
      assert Spelled(env, value, spelled);
      IsInIs(env, t, value, true);
      IsInIs(env, t, value, false);
    }
  }

  /** For an operator that is no comparison, the documents collected are those with a
      value that the value as given judges so. */
  lemma SteadyMeans(env: PyEnv, op: Op, value: Py, buckets: seq<Bucket>, id: DocId)
    requires IsFold(env.fold) && !IsComparison(op)
    ensures id in Collected(env, buckets, op, value)
       <==> exists b :: b in buckets && id in b.docs && Judged(env, op, b.text, value)
  {
    hide Collected, Visit, Judged;
    SteadyCollected(env, op, value, buckets, id);
    forall b: Bucket { VerdictMeans(env, op, b.text, value); }
  }

  /** A date collects the documents with a date that stands in its relation to it. */
  lemma DateMeans(env: PyEnv, op: Op, value: Py, buckets: seq<Bucket>, id: DocId)
    requires IsFold(env.fold) && IsComparison(op) && IsDate(Strip(Show(env, value)))
    ensures id in Collected(env, buckets, op, value) <==>
            var date := Strip(Show(env, value));
            exists b :: b in buckets && id in b.docs && IsDate(Strip(b.text))
                        && match op
                           case Eq => Strip(b.text) == date
                           case Ne => Strip(b.text) != date
                           case Range(cmp) => env.compare(cmp, Str(Strip(b.text)), Str(date)) == Some(true)
                           case _ => false
  {
    hide Collected, Visit, IsDate, Strip;
    SteadyCollected(env, op, value, buckets, id);
    forall b: Bucket { ComparesIs(env, op, b.text, value); }
  }

  /** Two texts that spell numbers compare as numbers. */
  lemma NumbersCompare(env: PyEnv, text: string, value: string, x: real, y: real)
    requires env.literal(text) == Some(Num(x)) && env.literal(value) == Some(Num(y)) && !IsDate(Strip(value))
    ensures Visit(env, Eq, text, Str(value)).0 <==> x == y
    ensures Visit(env, Ne, text, Str(value)).0 <==> x != y
    ensures forall cmp :: Visit(env, Range(cmp), text, Str(value)).0 <==> env.compare(cmp, Num(x), Num(y)) == Some(true)
  {
    hide IsDate, Strip, Lower;
  }
}
