/** What the emitted SQL text means: read back as a search condition and
    evaluated, it is the filters' own and/or. */
module InfinityMeaning {
  import opened Text
  import opened PyValue
  import opened MetaFilter
  import opened SqlText
  import opened SqlGrammar
  import opened InfinityFilter
  import EsFilter
  import Glob

  // ----- Three-valued truth (section 8.12 of SQL-92) -----

  datatype Truth = Yes | Unsure | No

  function Not(t: Truth): Truth {
    match t
    case Yes => No
    case Unsure => Unsure
    case No => Yes
  }

  function AnyTruth(ts: seq<Truth>): Truth {
    if Yes in ts then Yes else if Unsure in ts then Unsure else No
  }

  function AllTruth(ts: seq<Truth>): Truth {
    if No in ts then No else if Unsure in ts then Unsure else Yes
  }

  /** The and, or the or, of some truths. */
  function Joint(logic: string, ts: seq<Truth>): Truth {
    if logic == "and" then AllTruth(ts) else AnyTruth(ts)
  }

  /** `holds` is what each JSON predicate says of one row. */
  type Row = Atom -> Truth

  function EvalPrimary(p: Primary, holds: Row): Truth
    decreases p, 0
  {
    match p
    case Group(c) => AnyTruth(TermValues(c.terms, holds))
    case Leaf(a) => if a.Tautology? then Yes else holds(a)
  }

  function EvalFactor(f: Factor, holds: Row): Truth
    decreases f, 1
  {
    if f.negated then Not(EvalPrimary(f.primary, holds)) else EvalPrimary(f.primary, holds)
  }

  function FactorValues(fs: seq<Factor>, holds: Row): (r: seq<Truth>)
    ensures |r| == |fs| && forall i :: 0 <= i < |fs| ==> r[i] == EvalFactor(fs[i], holds)
    decreases fs, 2
  {
    if fs == [] then [] else [EvalFactor(fs[0], holds)] + FactorValues(fs[1..], holds)
  }

  function EvalTerm(t: Term, holds: Row): Truth
    decreases t, 3
  {
    AllTruth(FactorValues(t.factors, holds))
  }

  function TermValues(ts: seq<Term>, holds: Row): (r: seq<Truth>)
    ensures |r| == |ts| && forall i :: 0 <= i < |ts| ==> r[i] == EvalTerm(ts[i], holds)
    decreases ts, 4
  {
    if ts == [] then [] else [EvalTerm(ts[0], holds)] + TermValues(ts[1..], holds)
  }

  function Eval(c: Condition, holds: Row): Truth {
    AnyTruth(TermValues(c.terms, holds))
  }

  // ----- What a filter is meant to say -----

  /** What a value is compared as: the number it is the literal of, or its text in
      double quotes. */
  function Operand(env: PyEnv, v: Py): Arg {
    match NumberIn(env, Strip(Show(env, v)))
    case Some(n) => Number(env.show(n))
    case None => Literal("\"" + Show(env, v) + "\"")
  }

  function Operands(env: PyEnv, vs: seq<Py>): (r: seq<Arg>)
    ensures |r| == |vs|
  {
    seq(|vs|, i requires 0 <= i < |vs| => Operand(env, vs[i]))
  }

  /** Each member compared on its own, in the order they are given. */
  function MemberTruths(path: string, args: seq<Arg>, holds: Row): (r: seq<Truth>)
    ensures |r| == |args|
  {
    seq(|args|, i requires 0 <= i < |args| => holds(JsonContains(path, args[i])))
  }

  function Meaning(env: PyEnv, f: Filter, holds: Row): Truth
    requires Fragment(env, f).Ok?
  {
    var path := "$." + f.key;
    match f.op
    case Eq => holds(JsonContains(path, Operand(env, f.value)))
    case Ne => Not(holds(JsonContains(path, Operand(env, f.value))))
    case Contains => holds(JsonContains(path, Operand(env, f.value)))
    case NotContains => Not(holds(JsonContains(path, Literal("\"" + Show(env, f.value) + "\""))))
    case In => AnyTruth(MemberTruths(path, Operands(env, EsFilter.Members(env, f.value).value), holds))
    case NotIn => Not(AnyTruth(MemberTruths(path, Operands(env, EsFilter.Members(env, f.value).value), holds)))
    case StartWith => holds(JsonLike(path, Glob.Escape(Glob.LIKE, Show(env, f.value)) + "%"))
    case EndWith => holds(JsonLike(path, "%" + Glob.Escape(Glob.LIKE, Show(env, f.value))))
    case Empty => holds(JsonString(path, "=", "\"\""))
    case NotEmpty => holds(JsonString(path, "!=", "\"\""))
    case Range(Gt) => Comparison(env, path, ">", f.value, holds)
    case Range(Lt) => Comparison(env, path, "<", f.value, holds)
    case Range(Ge) => Comparison(env, path, ">=", f.value, holds)
    case Range(Le) => Comparison(env, path, "<=", f.value, holds)
  }

  /** A range compares as numbers if the value is the literal of one, else as texts. */
  function Comparison(env: PyEnv, path: string, sign: string, v: Py, holds: Row): Truth {
    match NumberIn(env, Strip(Show(env, v)))
    case Some(n) => holds(JsonDouble(path, sign, env.show(n)))
    case None => holds(JsonString(path, sign, Show(env, v)))
  }

  function Meanings(env: PyEnv, filters: seq<Filter>, holds: Row): (r: seq<Truth>)
    requires Fragments(env, filters).Ok?
    ensures |r| == |filters|
  {
    if filters == [] then [] else [Meaning(env, filters[0], holds)] + Meanings(env, filters[1..], holds)
  }

  // ----- The conditions behind the emitted tokens -----

  function LeafOf(path: string, negated: bool, a: Arg): Factor {
    Factor(negated, Leaf(JsonContains(path, a)))
  }

  function Leaves(path: string, negated: bool, args: seq<Arg>): (r: seq<Factor>)
    ensures |r| == |args| && forall i :: 0 <= i < |args| ==> r[i] == LeafOf(path, negated, args[i])
  {
    seq(|args|, i requires 0 <= i < |args| => LeafOf(path, negated, args[i]))
  }

  function Alone(fs: seq<Factor>): (r: seq<Term>)
    ensures |r| == |fs| && forall i :: 0 <= i < |fs| ==> r[i] == And([fs[i]])
  {
    seq(|fs|, i requires 0 <= i < |fs| => And([fs[i]]))
  }

  function Nested(terms: seq<Term>): Factor {
    Factor(false, Group(Or(terms)))
  }

  /** One parenthesised group of an `in`, or nothing. */
  function InGroup(path: string, args: seq<Arg>): seq<Factor> {
    if args == [] then [] else [Nested(Alone(Leaves(path, false, args)))]
  }

  function NotInGroup(path: string, args: seq<Arg>): seq<Factor> {
    if args == [] then [] else [Nested([And(Leaves(path, true, args))])]
  }

  function InFactors(path: string, args: seq<Arg>): seq<Factor> {
    [Nested(Alone(InGroup(path, Literals(args)) + InGroup(path, Numbers(args))))]
  }

  function NotInFactors(path: string, args: seq<Arg>): seq<Factor> {
    NotInGroup(path, Literals(args)) + NotInGroup(path, Numbers(args))
  }

  function FactorsOf(env: PyEnv, f: Filter): seq<Factor>
    requires Fragment(env, f).Ok?
  {
    if f.op.In? then InFactors(Path(f.key), ArgsOf(env, f.value).value)
    else if f.op.NotIn? then NotInFactors(Path(f.key), ArgsOf(env, f.value).value)
    else [Factor(EmitsNot(f.op), Leaf(AtomOf(env, f).value))]
  }

  // ----- Joining parts prints the joined condition -----

  lemma {:induction false} JoinFactors(parts: seq<Tokens>, fs: seq<Factor>)
    requires |parts| == |fs| && forall i :: 0 <= i < |fs| ==> parts[i] == FactorTokens(fs[i])
    ensures Join(AND, parts) == FactorsTokens(fs)
  {
    if |fs| > 1 {
      JoinFactors(parts[1..], fs[1..]);
    }
  }

  lemma {:induction false} JoinTerms(parts: seq<Tokens>, ts: seq<Term>)
    requires |parts| == |ts| && forall i :: 0 <= i < |ts| ==> parts[i] == FactorsTokens(ts[i].factors)
    ensures Join(OR, parts) == TermsTokens(ts)
  {
    if |ts| > 1 {
      JoinTerms(parts[1..], ts[1..]);
    }
  }

  function Concat(fss: seq<seq<Factor>>): seq<Factor> {
    if fss == [] then [] else fss[0] + Concat(fss[1..])
  }

  lemma FactorsTokensStep(fs: seq<Factor>)
    requires fs != []
    ensures FactorsTokens(fs) ==
            if |fs| == 1 then FactorTokens(fs[0]) else FactorTokens(fs[0]) + [AND] + FactorsTokens(fs[1..])
  {
  }

  lemma Regrouped(x: Tokens, y: Tokens, z: Tokens)
    ensures x + [AND] + (y + [AND] + z) == (x + [AND] + y) + [AND] + z
  {
  }

  lemma {:induction false} FactorsTokensAppend(xs: seq<Factor>, ys: seq<Factor>)
    requires xs != [] && ys != []
    ensures FactorsTokens(xs + ys) == FactorsTokens(xs) + [AND] + FactorsTokens(ys)
  {
    hide FactorTokens, FactorsTokens;
    FactorsTokensStep(xs);
    FactorsTokensStep(xs + ys);
    assert (xs + ys)[1..] == xs[1..] + ys;
    if |xs| == 1 {
      assert xs[1..] + ys == ys;
    } else {
      FactorsTokensAppend(xs[1..], ys);
      Regrouped(FactorTokens(xs[0]), FactorsTokens(xs[1..]), FactorsTokens(ys));
    }
  }

  lemma {:induction false} JoinConcat(parts: seq<Tokens>, fss: seq<seq<Factor>>)
    requires |parts| == |fss| && forall i :: 0 <= i < |fss| ==> fss[i] != [] && parts[i] == FactorsTokens(fss[i])
    ensures Join(AND, parts) == FactorsTokens(Concat(fss))
    ensures fss != [] ==> Concat(fss) != []
  {
    if |fss| == 1 {
      assert fss[1..] == [] && Concat(fss) == fss[0] + [] == fss[0];
    } else if fss != [] {
      JoinConcat(parts[1..], fss[1..]);
      FactorsTokensAppend(fss[0], Concat(fss[1..]));
    }
  }

  // ----- Each fragment prints its factors -----

  lemma OneTerm(f: Factor)
    ensures FactorsTokens([f]) == FactorTokens(f)
    ensures TermsTokens([And([f])]) == FactorTokens(f)
  {
  }

  lemma NestedTokens(terms: seq<Term>)
    ensures FactorTokens(Nested(terms)) == [Open] + TermsTokens(terms) + [Close]
  {
    assert [] + PrimaryTokens(Group(Or(terms))) == PrimaryTokens(Group(Or(terms)));
    assert ConditionTokens(Or(terms)) == TermsTokens(terms);
  }

  lemma InGroupTokens(path: string, args: seq<Arg>)
    ensures var parts := Parenthesised(OR, Parts(path, false, args));
            |parts| == |InGroup(path, args)|
            && forall i :: 0 <= i < |parts| ==> parts[i] == FactorTokens(InGroup(path, args)[i])
  {
    if args != [] {
      var leaves := Leaves(path, false, args);
      forall i | 0 <= i < |args|
        ensures Parts(path, false, args)[i] == FactorsTokens(Alone(leaves)[i].factors)
      {
        OneTerm(leaves[i]);
      }
      JoinTerms(Parts(path, false, args), Alone(leaves));
      NestedTokens(Alone(leaves));
    }
  }

  lemma NotInGroupTokens(path: string, args: seq<Arg>)
    ensures var parts := Parenthesised(AND, Parts(path, true, args));
            |parts| == |NotInGroup(path, args)|
            && forall i :: 0 <= i < |parts| ==> parts[i] == FactorTokens(NotInGroup(path, args)[i])
  {
    if args != [] {
      var leaves := Leaves(path, true, args);
      JoinFactors(Parts(path, true, args), leaves);
      NestedTokens([And(leaves)]);
    }
  }

  lemma InPrints(path: string, args: seq<Arg>)
    ensures InTokens(path, args) == FactorsTokens(InFactors(path, args))
  {
    var groups := InGroup(path, Literals(args)) + InGroup(path, Numbers(args));
    InGroupTokens(path, Literals(args));
    InGroupTokens(path, Numbers(args));
    forall i | 0 <= i < |groups|
      ensures Groups(path, false, OR, args)[i] == FactorsTokens(Alone(groups)[i].factors)
    {
      OneTerm(groups[i]);
    }
    JoinTerms(Groups(path, false, OR, args), Alone(groups));
    NestedTokens(Alone(groups));
    OneTerm(Nested(Alone(groups)));
  }

  lemma NotInPrints(path: string, args: seq<Arg>)
    ensures NotInTokens(path, args) == FactorsTokens(NotInFactors(path, args))
  {
    NotInGroupTokens(path, Literals(args));
    NotInGroupTokens(path, Numbers(args));
    JoinFactors(Groups(path, true, AND, args), NotInFactors(path, args));
  }

  lemma FragmentPrints(env: PyEnv, f: Filter)
    requires Fragment(env, f).Ok?
    ensures Fragment(env, f).value == FactorsTokens(FactorsOf(env, f))
  {
    if f.op.In? {
      InPrints(Path(f.key), ArgsOf(env, f.value).value);
    } else if f.op.NotIn? {
      NotInPrints(Path(f.key), ArgsOf(env, f.value).value);
    } else {
      OneTerm(Factor(EmitsNot(f.op), Leaf(AtomOf(env, f).value)));
    }
  }

  // ----- Evaluating the fragments -----

  lemma DeMorgan(ts: seq<Truth>, nots: seq<Truth>)
    requires |nots| == |ts| && forall i :: 0 <= i < |ts| ==> nots[i] == Not(ts[i])
    ensures AllTruth(nots) == Not(AnyTruth(ts))
  {
    forall t: Truth
      ensures t in ts <==> Not(t) in nots
    {
      if i :| 0 <= i < |ts| && ts[i] == t {
        assert nots[i] == Not(t);
      }
      if i :| 0 <= i < |nots| && nots[i] == Not(t) {
        assert ts[i] == t;
      }
    }
    assert Not(Not(Yes)) == Yes && Not(Unsure) == Unsure;
  }

  lemma LeafValue(path: string, a: Arg, holds: Row)
    ensures EvalFactor(LeafOf(path, false, a), holds) == holds(JsonContains(path, a))
    ensures EvalFactor(LeafOf(path, true, a), holds) == Not(holds(JsonContains(path, a)))
  {
  }

  lemma NestedValue(terms: seq<Term>, holds: Row)
    ensures EvalFactor(Nested(terms), holds) == AnyTruth(TermValues(terms, holds))
    ensures FactorValues([Nested(terms)], holds) == [AnyTruth(TermValues(terms, holds))]
  {
  }

  lemma AloneValues(fs: seq<Factor>, holds: Row)
    ensures TermValues(Alone(fs), holds) == FactorValues(fs, holds)
  {
    forall i | 0 <= i < |fs|
      ensures TermValues(Alone(fs), holds)[i] == EvalFactor(fs[i], holds)
    {
      assert FactorValues([fs[i]], holds) == [EvalFactor(fs[i], holds)];
    }
  }

  lemma InGroupValues(path: string, args: seq<Arg>, holds: Row)
    ensures FactorValues(InGroup(path, args), holds)
         == if args == [] then [] else [AnyTruth(MemberTruths(path, args, holds))]
  {
    if args != [] {
      var leaves := Leaves(path, false, args);
      AloneValues(leaves, holds);
      forall i | 0 <= i < |args| { LeafValue(path, args[i], holds); }
      assert FactorValues(leaves, holds) == MemberTruths(path, args, holds);
      NestedValue(Alone(leaves), holds);
    }
  }

  lemma NotInGroupValues(path: string, args: seq<Arg>, holds: Row)
    ensures FactorValues(NotInGroup(path, args), holds)
         == if args == [] then [] else [Not(AnyTruth(MemberTruths(path, args, holds)))]
  {
    if args != [] {
      var leaves := Leaves(path, true, args);
      forall i | 0 <= i < |args| { LeafValue(path, args[i], holds); }
      DeMorgan(MemberTruths(path, args, holds), FactorValues(leaves, holds));
      assert TermValues([And(leaves)], holds) == [AllTruth(FactorValues(leaves, holds))];
      NestedValue([And(leaves)], holds);
    }
  }

  lemma {:induction false} SortingKeepsTruths(path: string, args: seq<Arg>, holds: Row, t: Truth)
    ensures t in MemberTruths(path, args, holds)
       <==> t in MemberTruths(path, Literals(args), holds) || t in MemberTruths(path, Numbers(args), holds)
  {
    if args != [] {
      var most, last := args[..|args| - 1], args[|args| - 1];
      SortingKeepsTruths(path, most, holds, t);
      MemberTruthsAppend(path, most, [last], holds);
      assert args == most + [last];
      MemberTruthsAppend(path, Literals(most), [last], holds);
      MemberTruthsAppend(path, Numbers(most), [last], holds);
      assert Literals(most) + [] == Literals(most) && Numbers(most) + [] == Numbers(most);
    }
  }

  lemma MemberTruthsAppend(path: string, xs: seq<Arg>, ys: seq<Arg>, holds: Row)
    ensures MemberTruths(path, xs + ys, holds) == MemberTruths(path, xs, holds) + MemberTruths(path, ys, holds)
  {
  }

  lemma FactorValuesAppend(xs: seq<Factor>, ys: seq<Factor>, holds: Row)
    ensures FactorValues(xs + ys, holds) == FactorValues(xs, holds) + FactorValues(ys, holds)
  {
  }

  lemma InMeans(path: string, args: seq<Arg>, holds: Row)
    ensures AllTruth(FactorValues(InFactors(path, args), holds)) == AnyTruth(MemberTruths(path, args, holds))
  {
    var lits, nums := Literals(args), Numbers(args);
    var groups := InGroup(path, lits) + InGroup(path, nums);
    InGroupValues(path, lits, holds);
    InGroupValues(path, nums, holds);
    FactorValuesAppend(InGroup(path, lits), InGroup(path, nums), holds);
    AloneValues(groups, holds);
    forall t { SortingKeepsTruths(path, args, holds, t); }
    NestedValue(Alone(groups), holds);
  }

  lemma NotInMeans(path: string, args: seq<Arg>, holds: Row)
    ensures AllTruth(FactorValues(NotInFactors(path, args), holds)) == Not(AnyTruth(MemberTruths(path, args, holds)))
  {
    var lits, nums := Literals(args), Numbers(args);
    NotInGroupValues(path, lits, holds);
    NotInGroupValues(path, nums, holds);
    FactorValuesAppend(NotInGroup(path, lits), NotInGroup(path, nums), holds);
    forall t { SortingKeepsTruths(path, args, holds, t); }
  }

  lemma {:induction false} OperandsAre(env: PyEnv, ms: seq<Py>)
    requires MemberArgs(env, ms).Ok?
    ensures MemberArgs(env, ms).value == Operands(env, ms)
  {
    if ms != [] {
      OperandsAre(env, ms[..|ms| - 1]);
      assert ms == ms[..|ms| - 1] + [ms[|ms| - 1]];
    }
  }

  lemma OperandMeans(env: PyEnv, v: Py)
    requires v != NoneValue
    ensures ArgOf(env, Coerce(env, v)) == Operand(env, v)
  {
    hide Strip;
  }

  lemma AtomMeans(env: PyEnv, f: Filter, holds: Row)
    requires Fragment(env, f).Ok? && !f.op.In? && !f.op.NotIn?
    ensures var truth := holds(AtomOf(env, f).value);
            Meaning(env, f, holds) == if EmitsNot(f.op) then Not(truth) else truth
  {
    hide Strip, Glob.Escape, IsKey;
    if f.value != NoneValue {
      OperandMeans(env, f.value);
    }
  }

  lemma MembershipMeans(env: PyEnv, f: Filter, holds: Row)
    requires Fragment(env, f).Ok? && (f.op.In? || f.op.NotIn?)
    ensures AllTruth(FactorValues(FactorsOf(env, f), holds)) == Meaning(env, f, holds)
  {
    hide InFactors, NotInFactors, FactorValues, IsKey, EsFilter.Members, MemberArgs;
    OperandsAre(env, EsFilter.Members(env, f.value).value);
    InMeans(Path(f.key), ArgsOf(env, f.value).value, holds);
    NotInMeans(Path(f.key), ArgsOf(env, f.value).value, holds);
  }

  lemma FragmentMeans(env: PyEnv, f: Filter, holds: Row)
    requires Fragment(env, f).Ok?
    ensures AllTruth(FactorValues(FactorsOf(env, f), holds)) == Meaning(env, f, holds)
  {
    if f.op.In? || f.op.NotIn? {
      MembershipMeans(env, f, holds);
    } else {
      AtomMeans(env, f, holds);
      hide Meaning, AtomOf, EmitsNot, IsKey;
      var factor := Factor(EmitsNot(f.op), Leaf(AtomOf(env, f).value));
      AtomIsTested(env, f);
      assert FactorValues([factor], holds) == [EvalFactor(factor, holds)];
    }
  }

  lemma AtomIsTested(env: PyEnv, f: Filter)
    requires Fragment(env, f).Ok? && !f.op.In? && !f.op.NotIn?
    ensures AtomOf(env, f).Ok? && !AtomOf(env, f).value.Tautology?
  {
  }

  // ----- The emitted parts are well formed -----

  /** `str` of a number is one word, and no keyword. */
  ghost predicate NumbersAreWords(env: PyEnv) {
    forall v :: AsNumber(v).Some? ==> IsNumber(env.show(v))
  }

  lemma {:induction false} MemberArgsProper(env: PyEnv, members: seq<Py>)
    requires NumbersAreWords(env) && MemberArgs(env, members).Ok?
    ensures var args := MemberArgs(env, members).value;
            |args| == |members| && forall a :: a in args && a.Number? ==> IsNumber(a.digits)
  {
    if members != [] {
      MemberArgsProper(env, members[..|members| - 1]);
    }
  }

  lemma {:induction false} SortedMembers(args: seq<Arg>, a: Arg)
    ensures a in args <==> a in Literals(args) || a in Numbers(args)
  {
    if args != [] {
      SortedMembers(args[..|args| - 1], a);
      assert args == args[..|args| - 1] + [args[|args| - 1]];
    }
  }

  lemma GroupProper(path: string, part: seq<Arg>)
    requires forall a :: a in part ==> ProperAtom(JsonContains(path, a))
    ensures forall i :: 0 <= i < |InGroup(path, part)| ==> ProperFactor(InGroup(path, part)[i])
    ensures forall i :: 0 <= i < |NotInGroup(path, part)| ==> ProperFactor(NotInGroup(path, part)[i])
  {
    if part != [] {
      var plain, negated := Leaves(path, false, part), Leaves(path, true, part);
      forall i | 0 <= i < |part|
        ensures ProperFactor(plain[i]) && ProperFactor(negated[i]) && ProperTerm(Alone(plain)[i])
      {
        assert part[i] in part;
        assert ProperFactors([plain[i]]);
      }
      assert ProperTerms(Alone(plain));
      assert ProperTerm([And(negated)][0]) && ProperTerms([And(negated)]);
    }
  }

  lemma MembershipProper(path: string, args: seq<Arg>)
    requires args != [] && forall a :: a in args && a.Number? ==> IsNumber(a.digits)
    ensures ProperFactors(InFactors(path, args)) && ProperFactors(NotInFactors(path, args))
  {
    SortedMembers(args, args[0]);
    forall part | part == Literals(args) || part == Numbers(args)
      ensures forall i :: 0 <= i < |InGroup(path, part)| ==> ProperFactor(InGroup(path, part)[i])
      ensures forall i :: 0 <= i < |NotInGroup(path, part)| ==> ProperFactor(NotInGroup(path, part)[i])
    {
      forall a | a in part ensures ProperAtom(JsonContains(path, a)) {
        SortedMembers(args, a);
      }
      GroupProper(path, part);
    }
    var groups := InGroup(path, Literals(args)) + InGroup(path, Numbers(args));
    assert ProperTerms(Alone(groups));
  }

  lemma FragmentProper(env: PyEnv, f: Filter)
    requires NumbersAreWords(env) && Fragment(env, f).Ok?
    ensures ProperFactors(FactorsOf(env, f))
  {
    if f.op.In? || f.op.NotIn? {
      MemberArgsProper(env, EsFilter.Members(env, f.value).value);
      MembershipProper(Path(f.key), ArgsOf(env, f.value).value);
    } else {
      AtomProper(env, f);
    }
  }

  lemma AtomProper(env: PyEnv, f: Filter)
    requires NumbersAreWords(env) && !f.op.In? && !f.op.NotIn? && AtomOf(env, f).Ok?
    ensures ProperAtom(AtomOf(env, f).value)
  {
    assert IsCompare("=") && IsCompare("!=") && IsCompare(">") && IsCompare("<") && IsCompare(">=") && IsCompare("<=");
  }

  // ----- The whole filter -----

  function FactorLists(env: PyEnv, filters: seq<Filter>): (r: seq<seq<Factor>>)
    requires Fragments(env, filters).Ok?
    ensures |r| == |filters|
  {
    if filters == [] then [] else [FactorsOf(env, filters[0])] + FactorLists(env, filters[1..])
  }

  function AsTerms(fss: seq<seq<Factor>>): (r: seq<Term>)
    ensures |r| == |fss| && forall i :: 0 <= i < |fss| ==> r[i] == And(fss[i])
  {
    seq(|fss|, i requires 0 <= i < |fss| => And(fss[i]))
  }

  lemma {:induction false} ListsPrint(env: PyEnv, filters: seq<Filter>, holds: Row)
    requires NumbersAreWords(env) && Fragments(env, filters).Ok?
    ensures |Fragments(env, filters).value| == |filters|
    ensures forall i :: 0 <= i < |filters| ==>
              var fs := FactorLists(env, filters)[i];
              && Fragments(env, filters).value[i] == FactorsTokens(fs)
              && ProperFactors(fs)
              && AllTruth(FactorValues(fs, holds)) == Meanings(env, filters, holds)[i]
  {
    hide FactorsOf, Fragment, Meaning, FactorsTokens, FactorValues, ProperFactors, AllTruth;
    if filters != [] {
      FragmentPrints(env, filters[0]);
      FragmentProper(env, filters[0]);
      FragmentMeans(env, filters[0], holds);
      ListsPrint(env, filters[1..], holds);
    }
  }

  lemma {:induction false} ConcatMeans(fss: seq<seq<Factor>>, ms: seq<Truth>, holds: Row)
    requires |ms| == |fss|
    requires forall i :: 0 <= i < |fss| ==> ProperFactors(fss[i]) && AllTruth(FactorValues(fss[i], holds)) == ms[i]
    ensures AllTruth(FactorValues(Concat(fss), holds)) == AllTruth(ms)
    ensures fss != [] ==> ProperFactors(Concat(fss))
  {
    if fss != [] {
      ConcatMeans(fss[1..], ms[1..], holds);
      FactorValuesAppend(fss[0], Concat(fss[1..]), holds);
      assert forall t: Truth :: t in ms <==> t == ms[0] || t in ms[1..];
    }
  }

  function Inner(env: PyEnv, filters: seq<Filter>, logic: string): seq<Term>
    requires Fragments(env, filters).Ok?
  {
    if logic == "and" then [And(Concat(FactorLists(env, filters)))] else AsTerms(FactorLists(env, filters))
  }

  lemma InnerMeans(env: PyEnv, filters: seq<Filter>, logic: string, holds: Row)
    requires NumbersAreWords(env) && filters != [] && Fragments(env, filters).Ok?
    ensures var terms := Inner(env, filters, logic);
            && ProperTerms(terms)
            && Join(if logic == "and" then AND else OR, Fragments(env, filters).value) == TermsTokens(terms)
            && AnyTruth(TermValues(terms, holds))
               == Joint(logic, Meanings(env, filters, holds))
  {
    hide FactorLists, Fragments, Meanings, FactorsOf, FactorsTokens, FactorValues;
    var parts, fss := Fragments(env, filters).value, FactorLists(env, filters);
    ListsPrint(env, filters, holds);
    if logic == "and" {
      JoinConcat(parts, fss);
      ConcatMeans(fss, Meanings(env, filters, holds), holds);
      assert ProperTerm(And(Concat(fss)));
      assert TermValues([And(Concat(fss))], holds) == [AllTruth(FactorValues(Concat(fss), holds))];
    } else {
      JoinTerms(parts, AsTerms(fss));
      assert forall i :: 0 <= i < |fss| ==> ProperTerm(AsTerms(fss)[i]);
      assert TermValues(AsTerms(fss), holds) == Meanings(env, filters, holds);
    }
  }

  function Whole(inner: seq<Term>): Condition {
    Or([And([Nested(inner)])])
  }

  lemma NestedProper(inner: seq<Term>)
    requires ProperTerms(inner)
    ensures ProperTerms(Whole(inner).terms)
  {
    assert ProperPrimary(Nested(inner).primary);
    assert ProperFactor(Nested(inner));
    assert ProperFactors([Nested(inner)]);
    assert ProperTerm(And([Nested(inner)]));
  }

  lemma WholeMeans(inner: seq<Term>, holds: Row)
    requires ProperTerms(inner)
    ensures ProperTerms(Whole(inner).terms)
    ensures ConditionTokens(Whole(inner)) == [Open] + TermsTokens(inner) + [Close]
    ensures Eval(Whole(inner), holds) == AnyTruth(TermValues(inner, holds))
  {
    NestedTokens(inner);
    OneTerm(Nested(inner));
    NestedProper(inner);
    NestedValue(inner, holds);
    assert TermValues(Whole(inner).terms, holds) == [AnyTruth(TermValues(inner, holds))];
  }

  /** For every filter list the translator accepts and every row: the emitted text
      parses, and evaluates to the and/or of what the filters mean. */
  lemma BuildMeans(env: PyEnv, filters: seq<Filter>, logic: string, holds: Row)
    requires NumbersAreWords(env) && Build(env, filters, logic).Ok? && filters != []
    ensures Fragments(env, filters).Ok?
    ensures var c := Parse(Build(env, filters, logic).value);
            c.Some? && Eval(c.value, holds)
              == Joint(logic, Meanings(env, filters, holds))
  {
    var inner := Inner(env, filters, logic);
    InnerMeans(env, filters, logic, holds);
    WholeMeans(inner, holds);
    ParseWritten(Whole(inner));
  }

  /** What the text of one filter evaluates to. */
  function Result(env: PyEnv, f: Filter, logic: string, holds: Row): Option<Truth> {
    var built := Build(env, [f], logic);
    if built.Err? then None
    else
      var c := Parse(built.value);
      if c.None? then None else Some(Eval(c.value, holds))
  }

  lemma OneFilterMeans(env: PyEnv, f: Filter, logic: string, holds: Row)
    requires NumbersAreWords(env) && (logic == "and" || logic == "or")
    ensures Fragment(env, f).Err? ==> Result(env, f, logic, holds) == None
    ensures Fragment(env, f).Ok? ==> Result(env, f, logic, holds) == Some(Meaning(env, f, holds))
  {
    hide Fragment, Meaning, Parse, Write;
    assert [f][1..] == [] && Fragments(env, [f][1..]) == Ok([]);
    if Fragment(env, f).Ok? {
      BuildMeans(env, [f], logic, holds);
      assert Meanings(env, [f][1..], holds) == [];
      var m := Meaning(env, f, holds);
      assert Meanings(env, [f], holds) == [m] && forall t :: t in [m] <==> t == m;
    }
  }

  /** `≠` is the exact negation of `=`, and `not in` of `in`, in three-valued logic,
      although a membership sorts its members into texts and numbers first. */
  lemma NegatesExactly(env: PyEnv, key: string, value: Py, op: Op, logic: string, holds: Row)
    requires NumbersAreWords(env) && (logic == "and" || logic == "or") && (op == Eq || op == In)
    ensures var plain := Result(env, Filter(key, op, value), logic, holds);
            var negated := Result(env, Filter(key, if op == Eq then Ne else NotIn, value), logic, holds);
            (negated == None <==> plain == None) && (plain.Some? ==> negated == Some(Not(plain.value)))
  {
    hide Result, Fragment, Meaning;
    var f, n := Filter(key, op, value), Filter(key, if op == Eq then Ne else NotIn, value);
    OneFilterMeans(env, f, logic, holds);
    OneFilterMeans(env, n, logic, holds);
    MeaningNegated(env, key, value, op, holds);
  }

  lemma MeaningNegated(env: PyEnv, key: string, value: Py, op: Op, holds: Row)
    requires op == Eq || op == In
    ensures var f, n := Filter(key, op, value), Filter(key, if op == Eq then Ne else NotIn, value);
            && (Fragment(env, f).Ok? <==> Fragment(env, n).Ok?)
            && (Fragment(env, f).Ok? ==> Meaning(env, n, holds) == Not(Meaning(env, f, holds)))
  {
    hide EsFilter.Members, Strip, IsKey, MemberArgs, InTokens, NotInTokens, Coerce;
  }

  /** `not contains` negates `contains` on every row if and only if the value is not the
      literal of a number: only `contains` looks for that as a number. */
  lemma ContainsNegatedIff(env: PyEnv, key: string, value: Py, logic: string)
    requires NumbersAreWords(env) && (logic == "and" || logic == "or")
    requires Fragment(env, Filter(key, Contains, value)).Ok? && Fragment(env, Filter(key, NotContains, value)).Ok?
    ensures NumberIn(env, Strip(Show(env, value))) == None <==>
            forall holds: Row :: NegatedIn(env, key, value, logic, holds)
  {
    hide Strip, IsKey, Result;
    forall holds: Row
      ensures NegatedIn(env, key, value, logic, holds) <==>
              Meaning(env, Filter(key, NotContains, value), holds)
              == Not(Meaning(env, Filter(key, Contains, value), holds))
    {
      OneFilterMeans(env, Filter(key, Contains, value), logic, holds);
      OneFilterMeans(env, Filter(key, NotContains, value), logic, holds);
    }
    if NumberIn(env, Strip(Show(env, value))).Some? {
      var text := JsonContains("$." + key, Literal("\"" + Show(env, value) + "\""));
      var onlyText: Row := a => if a == text then Yes else Unsure;
      assert !NegatedIn(env, key, value, logic, onlyText);
    }
  }

  ghost predicate NegatedIn(env: PyEnv, key: string, value: Py, logic: string, holds: Row) {
    var plain := Result(env, Filter(key, Contains, value), logic, holds);
    plain.Some? && Result(env, Filter(key, NotContains, value), logic, holds) == Some(Not(plain.value))
  }

  /** No filter is the condition every row meets. */
  lemma BuildNothing(env: PyEnv, logic: string, holds: Row)
    ensures Build(env, [], logic) == Ok("1=1")
    ensures Parse("1=1").Some? && Eval(Parse("1=1").value, holds) == Yes
  {
    var leaf := Factor(false, Leaf(Tautology));
    var c := Or([And([leaf])]);
    OneTerm(leaf);
    assert ConditionTokens(c) == [ONE, EQUALS, ONE];
    assert Write([ONE]) == "1" && Write([EQUALS, ONE]) == "=1";
    assert Write([ONE, EQUALS, ONE]) == "1=1";
    assert ProperFactor(leaf) && ProperTerm(c.terms[0]);
    ParseWritten(c);
    assert FactorValues([leaf], holds) == [Yes] && TermValues(c.terms, holds) == [Yes];
  }

  // ----- LIKE -----

  function Same(c: char): char { c }

  lemma LowerSame(s: string)
    ensures Lower(Same, s) == s
  {
  }

  /** The emitted literal of a `start with`, read back and matched as a LIKE
      pattern, accepts the texts that start with the filter's text. */
  lemma LikePrefixAccepts(t: string, s: string, rest: string)
    requires rest != "" ==> rest[0] != '\''
    ensures ReadQuoted(EscapeSql(LikePrefix(t)) + "'" + rest) == Some((LikePrefix(t), rest))
    ensures Glob.Accepts(Glob.LIKE, Same, LikePrefix(t), s) <==> t <= s
  {
    ReadQuotedBack(LikePrefix(t), rest);
    Glob.StartPattern(Glob.LIKE, Same, t, s);
    assert "%" == [Glob.LIKE.many];
    LowerSame(t);
    LowerSame(s);
  }

  lemma LikeSuffixAccepts(t: string, s: string, rest: string)
    requires rest != "" ==> rest[0] != '\''
    ensures ReadQuoted(EscapeSql(LikeSuffix(t)) + "'" + rest) == Some((LikeSuffix(t), rest))
    ensures Glob.Accepts(Glob.LIKE, Same, LikeSuffix(t), s) <==> EndsWith(s, t)
  {
    ReadQuotedBack(LikeSuffix(t), rest);
    Glob.EndPattern(Glob.LIKE, Same, t, s);
    assert "%" == [Glob.LIKE.many];
    LowerSame(t);
    LowerSame(s);
  }
}
