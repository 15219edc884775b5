/** SQL search conditions: NOT binds tighter than AND, AND tighter than OR
    (section 8.12 of SQL-92), with the predicates the filter builder emits. */
module SqlGrammar {
  import opened Text
  import opened SqlText

  datatype Arg = Literal(text: string) | Number(digits: string)

  datatype Atom =
    | JsonContains(path: string, arg: Arg)
    | JsonString(path: string, cmp: string, text: string)
    | JsonDouble(path: string, cmp: string, digits: string)
    | JsonLike(path: string, pattern: string)
    | Tautology

  datatype Condition = Or(terms: seq<Term>)
  datatype Term = And(factors: seq<Factor>)
  datatype Factor = Factor(negated: bool, primary: Primary)
  datatype Primary = Group(condition: Condition) | Leaf(atom: Atom)

  // ----- Printing -----

  const CONTAINS := Word("JSON_CONTAINS")
  const EXTRACT_STRING := Word("JSON_EXTRACT_STRING")
  const EXTRACT_DOUBLE := Word("JSON_EXTRACT_DOUBLE")
  const FIELDS := Word("meta_fields")
  const ONE := Word("1")
  const EQUALS := Compare("=")

  function ArgToken(a: Arg): Token {
    match a
    case Literal(text) => Quoted(text)
    case Number(digits) => Word(digits)
  }

  function AtomTokens(a: Atom): seq<Token> {
    match a
    case JsonContains(path, arg) => [CONTAINS, Open, FIELDS, Comma, Quoted(path), Comma, ArgToken(arg), Close]
    case JsonString(path, cmp, text) =>
      [EXTRACT_STRING, Open, FIELDS, Comma, Quoted(path), Close, Compare(cmp), Quoted(text)]
    case JsonDouble(path, cmp, digits) =>
      [EXTRACT_DOUBLE, Open, FIELDS, Comma, Quoted(path), Close, Compare(cmp), Word(digits)]
    case JsonLike(path, pattern) => [EXTRACT_STRING, Open, FIELDS, Comma, Quoted(path), Close, LIKE, Quoted(pattern)]
    case Tautology => [ONE, EQUALS, ONE]
  }

  function PrimaryTokens(p: Primary): seq<Token> {
    match p
    case Group(c) => [Open] + ConditionTokens(c) + [Close]
    case Leaf(a) => AtomTokens(a)
  }

  function FactorTokens(f: Factor): seq<Token> {
    (if f.negated then [NOT] else []) + PrimaryTokens(f.primary)
  }

  function FactorsTokens(fs: seq<Factor>): seq<Token> {
    if fs == [] then []
    else if |fs| == 1 then FactorTokens(fs[0])
    else FactorTokens(fs[0]) + [AND] + FactorsTokens(fs[1..])
  }

  function TermsTokens(ts: seq<Term>): seq<Token> {
    if ts == [] then []
    else if |ts| == 1 then FactorsTokens(ts[0].factors)
    else FactorsTokens(ts[0].factors) + [OR] + TermsTokens(ts[1..])
  }

  function ConditionTokens(c: Condition): seq<Token> {
    TermsTokens(c.terms)
  }

  // ----- Parsing -----

  function ParseAtom(ts: seq<Token>): (r: Option<(Atom, seq<Token>)>)
    ensures r.Some? ==> |r.value.1| < |ts|
  {
    if |ts| >= 3 && ts[..3] == [ONE, EQUALS, ONE] then Some((Tautology, ts[3..]))
    else if |ts| < 8 || ts[1..4] != [Open, FIELDS, Comma] || !ts[4].Quoted? then None
    else if ts[0] == CONTAINS then
      if ts[5] != Comma || ts[7] != Close then None
      else if ts[6].Quoted? then Some((JsonContains(ts[4].text, Literal(ts[6].text)), ts[8..]))
      else if ts[6].Word? then Some((JsonContains(ts[4].text, Number(ts[6].text)), ts[8..]))
      else None
    else if ts[5] != Close then None
    else if ts[0] == EXTRACT_STRING && ts[6].Compare? && ts[7].Quoted? then
      Some((JsonString(ts[4].text, ts[6].text, ts[7].text), ts[8..]))
    else if ts[0] == EXTRACT_STRING && ts[6] == LIKE && ts[7].Quoted? then
      Some((JsonLike(ts[4].text, ts[7].text), ts[8..]))
    else if ts[0] == EXTRACT_DOUBLE && ts[6].Compare? && ts[7].Word? then
      Some((JsonDouble(ts[4].text, ts[6].text, ts[7].text), ts[8..]))
    else None
  }

  function ParsePrimary(ts: seq<Token>): (r: Option<(Primary, seq<Token>)>)
    ensures r.Some? ==> |r.value.1| < |ts|
    decreases |ts|, 0
  {
    if ts != [] && ts[0] == Open then
      match ParseTerms(ts[1..])
      case None => None
      case Some((terms, rest)) =>
        if rest != [] && rest[0] == Close then Some((Group(Or(terms)), rest[1..])) else None
    else
      match ParseAtom(ts)
      case None => None
      case Some((a, rest)) => Some((Leaf(a), rest))
  }

  function ParseFactor(ts: seq<Token>): (r: Option<(Factor, seq<Token>)>)
    ensures r.Some? ==> |r.value.1| < |ts|
    decreases |ts|, 1
  {
    var negated := ts != [] && ts[0] == NOT;
    match ParsePrimary(if negated then ts[1..] else ts)
    case None => None
    case Some((p, rest)) => Some((Factor(negated, p), rest))
  }

  function ParseFactors(ts: seq<Token>): (r: Option<(seq<Factor>, seq<Token>)>)
    ensures r.Some? ==> |r.value.1| < |ts|
    decreases |ts|, 2
  {
    match ParseFactor(ts)
    case None => None
    case Some((f, rest)) =>
      if rest != [] && rest[0] == AND then
        match ParseFactors(rest[1..])
        case None => None
        case Some((fs, rest')) => Some(([f] + fs, rest'))
      else Some(([f], rest))
  }

  function ParseTerms(ts: seq<Token>): (r: Option<(seq<Term>, seq<Token>)>)
    ensures r.Some? ==> |r.value.1| < |ts|
    decreases |ts|, 3
  {
    match ParseFactors(ts)
    case None => None
    case Some((fs, rest)) =>
      if rest != [] && rest[0] == OR then
        match ParseTerms(rest[1..])
        case None => None
        case Some((terms, rest')) => Some(([And(fs)] + terms, rest'))
      else Some(([And(fs)], rest))
  }

  /** A whole text as a search condition. */
  function Parse(text: string): Option<Condition> {
    match Lex(text)
    case None => None
    case Some(ts) =>
      match ParseTerms(ts)
      case None => None
      case Some((terms, rest)) => if rest == [] then Some(Or(terms)) else None
  }

  // ----- Parsing undoes printing -----

  /** Conditions with something at every level and lexically valid parts. */
  predicate ProperAtom(a: Atom) {
    match a
    case JsonContains(_, arg) => arg.Number? ==> IsNumber(arg.digits)
    case JsonString(_, cmp, _) => IsCompare(cmp)
    case JsonDouble(_, cmp, digits) => IsCompare(cmp) && cmp != "=" && IsNumber(digits)
    case _ => true
  }

  predicate IsNumber(digits: string) {
    IsWord(digits) && Word(digits) != AND && Word(digits) != OR && Word(digits) != NOT && Word(digits) != LIKE
  }

  predicate ProperPrimary(p: Primary)
    decreases p, 0
  {
    match p
    case Group(c) => ProperTerms(c.terms)
    case Leaf(a) => ProperAtom(a)
  }

  predicate ProperFactor(f: Factor)
    decreases f, 1
  {
    ProperPrimary(f.primary)
  }

  predicate ProperFactors(fs: seq<Factor>)
    decreases fs, 2
  {
    fs != [] && forall i :: 0 <= i < |fs| ==> ProperFactor(fs[i])
  }

  predicate ProperTerm(t: Term)
    decreases t, 3
  {
    ProperFactors(t.factors)
  }

  predicate ProperTerms(ts: seq<Term>)
    decreases ts, 4
  {
    ts != [] && forall i :: 0 <= i < |ts| ==> ProperTerm(ts[i])
  }

  lemma AtomBack(a: Atom, rest: seq<Token>)
    ensures ParseAtom(AtomTokens(a) + rest) == Some((a, rest))
  {
    var ts := AtomTokens(a) + rest;
    if a.Tautology? {
      assert ts[..3] == [ONE, EQUALS, ONE] && ts[3..] == rest;
    } else {
      assert ts[0] != ONE;
      assert ts[1..4] == [Open, FIELDS, Comma] && ts[8..] == rest;
    }
  }

  lemma AtomHead(a: Atom)
    ensures AtomTokens(a) != [] && AtomTokens(a)[0] != Open && AtomTokens(a)[0] != NOT
  {
  }

  lemma {:induction false} PrimaryBack(p: Primary, rest: seq<Token>)
    requires ProperPrimary(p)
    ensures ParsePrimary(PrimaryTokens(p) + rest) == Some((p, rest))
    decreases p, 0
  {
    var ts := PrimaryTokens(p) + rest;
    match p
    case Leaf(a) =>
      AtomBack(a, rest);
      AtomHead(a);
    case Group(c) =>
      var inner, tail := TermsTokens(c.terms), [Close] + rest;
      TermsBack(c.terms, tail);
      assert PrimaryTokens(p) == [Open] + ConditionTokens(c) + [Close];
      assert ts == [Open] + (inner + tail);
      assert ts[1..] == inner + tail && tail[1..] == rest;
  }

  lemma PrimaryHead(p: Primary)
    ensures PrimaryTokens(p) != [] && PrimaryTokens(p)[0] != NOT
  {
    if p.Leaf? {
      AtomHead(p.atom);
    }
  }

  lemma {:induction false} FactorBack(f: Factor, rest: seq<Token>)
    requires ProperFactor(f)
    ensures ParseFactor(FactorTokens(f) + rest) == Some((f, rest))
    decreases f, 1
  {
    PrimaryBack(f.primary, rest);
    PrimaryHead(f.primary);
    var ts := FactorTokens(f) + rest;
    if f.negated {
      assert ts[1..] == PrimaryTokens(f.primary) + rest;
    } else {
      assert ts == PrimaryTokens(f.primary) + rest;
    }
  }

  lemma Regroup(a: seq<Token>, t: Token, b: seq<Token>, rest: seq<Token>)
    ensures a + [t] + b + rest == a + ([t] + (b + rest))
    ensures ([t] + (b + rest))[1..] == b + rest
  {
  }

  lemma FactorsJoin(x: seq<Token>, y: seq<Token>, f: Factor, fs: seq<Factor>, rest: seq<Token>)
    requires ParseFactor(x + ([AND] + (y + rest))) == Some((f, [AND] + (y + rest)))
    requires ParseFactors(y + rest) == Some((fs, rest))
    ensures ParseFactors(x + [AND] + y + rest) == Some(([f] + fs, rest))
  {
    Regroup(x, AND, y, rest);
  }

  lemma {:induction false} FactorsBack(fs: seq<Factor>, rest: seq<Token>)
    requires ProperFactors(fs) && (rest != [] ==> rest[0] != AND)
    ensures ParseFactors(FactorsTokens(fs) + rest) == Some((fs, rest))
    decreases fs, 2
  {
    if |fs| == 1 {
      FactorBack(fs[0], rest);
      assert fs == [fs[0]];
    } else {
      FactorBack(fs[0], [AND] + (FactorsTokens(fs[1..]) + rest));
      FactorsBack(fs[1..], rest);
      FactorsJoin(FactorTokens(fs[0]), FactorsTokens(fs[1..]), fs[0], fs[1..], rest);
      assert fs == [fs[0]] + fs[1..];
    }
  }

  lemma {:induction false} TermsBack(ts: seq<Term>, rest: seq<Token>)
    requires ProperTerms(ts) && (rest != [] ==> rest[0] != AND && rest[0] != OR)
    ensures ParseTerms(TermsTokens(ts) + rest) == Some((ts, rest))
    decreases ts, 3
  {
    if |ts| == 1 {
      FactorsBack(ts[0].factors, rest);
      assert ts == [And(ts[0].factors)];
    } else {
      var more := [OR] + (TermsTokens(ts[1..]) + rest);
      FactorsBack(ts[0].factors, more);
      TermsBack(ts[1..], rest);
      Regroup(FactorsTokens(ts[0].factors), OR, TermsTokens(ts[1..]), rest);
      assert ts == [And(ts[0].factors)] + ts[1..];
    }
  }

  // ----- Printed conditions survive being written out -----

  /** Tokens that any neighbour is told apart from. */
  predicate Boundary(t: Token) {
    t.Open? || t.Close? || t.Comma? || t == AND || t == OR || t == NOT || t == LIKE
  }

  lemma WritableAround(a: seq<Token>, t: Token, b: seq<Token>)
    requires Writable(a) && Writable(b) && IsToken(t) && Boundary(t) && (t == NOT ==> a == [] || Boundary(a[|a| - 1]))
    ensures Writable(a + [t] + b)
  {
    var ts := a + [t] + b;
    forall i, j | 0 <= i < j < |ts| && j == i + 1
      ensures Separable(ts[i], ts[j])
    {
      if j < |a| {
        assert ts[i] == a[i] && ts[j] == a[j];
      } else if i > |a| {
        assert ts[i] == b[i - |a| - 1] && ts[j] == b[j - |a| - 1];
      }
    }
  }

  lemma WritableAfter(t: Token, b: seq<Token>)
    requires Writable(b) && IsToken(t) && Boundary(t)
    ensures Writable([t] + b)
  {
    WritableAround([], t, b);
    assert [] + [t] + b == [t] + b;
  }

  lemma WritableBefore(a: seq<Token>, t: Token)
    requires Writable(a) && IsToken(t) && Boundary(t) && t != NOT
    ensures Writable(a + [t])
  {
    WritableAround(a, t, []);
    assert a + [t] + [] == a + [t];
  }

  lemma ConstantNames()
    ensures IsWord("JSON_CONTAINS") && IsWord("JSON_EXTRACT_STRING") && IsWord("JSON_EXTRACT_DOUBLE")
    ensures IsWord("meta_fields")
  {
  }

  lemma ConstantWords()
    ensures IsToken(AND) && IsToken(OR) && IsToken(NOT) && IsToken(LIKE) && IsToken(ONE) && IsToken(EQUALS)
  {
  }

  lemma AtomWritable(a: Atom)
    requires ProperAtom(a)
    ensures Writable(AtomTokens(a))
  {
    ConstantNames();
    ConstantWords();
    var ts := AtomTokens(a);
    match a
    case JsonContains(_, arg) => assert IsToken(ArgToken(arg));
    case JsonString(_, cmp, _) => assert Separable(Compare(cmp), ts[7]);
    case JsonDouble(_, cmp, _) => assert Separable(Compare(cmp), ts[7]);
    case _ =>
  }

  lemma {:induction false} PrimaryWritable(p: Primary)
    requires ProperPrimary(p)
    ensures Writable(PrimaryTokens(p))
    decreases p, 0
  {
    match p
    case Leaf(a) => AtomWritable(a);
    case Group(c) =>
      TermsWritable(c.terms);
      WritableAfter(Open, ConditionTokens(c));
      WritableBefore([Open] + ConditionTokens(c), Close);
  }

  lemma {:induction false} FactorWritable(f: Factor)
    requires ProperFactor(f)
    ensures Writable(FactorTokens(f))
    decreases f, 1
  {
    var ts := PrimaryTokens(f.primary);
    PrimaryWritable(f.primary);
    if f.negated {
      ConstantWords();
      WritableAfter(NOT, ts);
    } else {
      assert [] + ts == ts;
    }
  }

  lemma {:induction false} FactorsWritable(fs: seq<Factor>)
    requires ProperFactors(fs)
    ensures Writable(FactorsTokens(fs))
    decreases fs, 2
  {
    FactorWritable(fs[0]);
    if |fs| > 1 {
      FactorsWritable(fs[1..]);
      ConstantWords();
      WritableAround(FactorTokens(fs[0]), AND, FactorsTokens(fs[1..]));
    }
  }

  lemma {:induction false} TermsWritable(ts: seq<Term>)
    requires ProperTerms(ts)
    ensures Writable(TermsTokens(ts))
    decreases ts, 3
  {
    assert ProperTerm(ts[0]);
    FactorsWritable(ts[0].factors);
    if |ts| > 1 {
      TermsWritable(ts[1..]);
      ConstantWords();
      WritableAround(FactorsTokens(ts[0].factors), OR, TermsTokens(ts[1..]));
    }
  }

  /** Reading the written text of a condition gives the condition back, for every
      condition and every text in its literals. */
  lemma {:induction false} ParseWritten(c: Condition)
    requires ProperTerms(c.terms)
    ensures Parse(Write(ConditionTokens(c))) == Some(c)
  {
    TermsWritable(c.terms);
    LexWrite(ConditionTokens(c));
    TermsBack(c.terms, []);
    assert ConditionTokens(c) + [] == ConditionTokens(c);
  }
}
