/** The translator of metadata filters into SQL text. */
module InfinityFilter {
  import opened Text
  import opened PyValue
  import opened MetaFilter
  import opened SqlText
  import opened SqlGrammar
  import EsFilter
  import Glob

  type Unsupported = EsFilter.Unsupported
  type Tokens = seq<Token>

  // ----- Coercions -----

  /** A number when the text of the value parses as one, otherwise the text as it is. */
  function Coerce(env: PyEnv, value: Py): Py {
    var parsed := env.literal(Strip(Show(env, value)));
    if parsed.Some? && AsNumber(parsed.value).Some? then parsed.value else Str(Show(env, value))
  }

  function ArgOf(env: PyEnv, coerced: Py): Arg {
    if AsNumber(coerced).Some? then Number(env.show(coerced)) else Literal("\"" + Show(env, coerced) + "\"")
  }

  predicate IsKeyText(k: string) {
    && k != "" && !('0' <= k[0] <= '9')
    && forall i :: 0 <= i < |k| ==> IsWordChar(k[i]) && k[i] != '.' && k[i] != '+' && k[i] != '-'
  }

  /** The key pattern; its `$` also accepts one line break at the end. */
  predicate IsKey(k: string) {
    IsKeyText(k) || (k != "" && k[|k| - 1] == '\n' && IsKeyText(k[..|k| - 1]))
  }

  function Path(key: string): string {
    "$." + key
  }

  /** Python's truth test as `contains` uses it, where zero and False pass. */
  predicate Blank(v: Py) {
    v == NoneValue || v == Str("") || v == List([]) || v == Tuple([]) || v == Dict("{}")
  }

  // ----- Filters of one predicate -----

  function ScalarArg(env: PyEnv, v: Py): Result<Arg, Unsupported> {
    if v.NoneValue? then Err(EsFilter.NoValue)
    else if v.List? || v.Dict? then Err(EsFilter.NotScalar)
    else Ok(ArgOf(env, Coerce(env, v)))
  }

  function CompareText(cmp: RangeOp): string {
    match cmp
    case Gt => ">"
    case Lt => "<"
    case Ge => ">="
    case Le => "<="
  }

  function LikePrefix(t: string): string {
    Glob.Escape(Glob.LIKE, t) + "%"
  }

  function LikeSuffix(t: string): string {
    "%" + Glob.Escape(Glob.LIKE, t)
  }

  /** The predicate of a filter that emits one, without the NOT of a negative filter. */
  function AtomOf(env: PyEnv, f: Filter): Result<Atom, Unsupported>
    requires !f.op.In? && !f.op.NotIn?
  {
    var path := Path(f.key);
    match f.op
    case Empty => Ok(JsonString(path, "=", "\"\""))
    case NotEmpty => Ok(JsonString(path, "!=", "\"\""))
    case Eq => ContainsArg(path, ScalarArg(env, f.value))
    case Ne => ContainsArg(path, ScalarArg(env, f.value))
    case Range(cmp) =>
      if f.value.NoneValue? then Err(EsFilter.NoValue)
      else
        var v := Coerce(env, f.value);
        if AsNumber(v).Some? then Ok(JsonDouble(path, CompareText(cmp), env.show(v)))
        else Ok(JsonString(path, CompareText(cmp), Show(env, v)))
    case Contains =>
      if Blank(f.value) then Err(EsFilter.EmptyText)
      else Ok(JsonContains(path, ArgOf(env, Coerce(env, f.value))))
    case NotContains =>
      (match EsFilter.CoerceString(env, f.value)
       case Err(e) => Err(e)
       case Ok(t) => Ok(JsonContains(path, Literal("\"" + t + "\""))))
    case StartWith =>
      (match EsFilter.CoerceString(env, f.value)
       case Err(e) => Err(e)
       case Ok(t) => Ok(JsonLike(path, LikePrefix(t))))
    case EndWith =>
      (match EsFilter.CoerceString(env, f.value)
       case Err(e) => Err(e)
       case Ok(t) => Ok(JsonLike(path, LikeSuffix(t))))
    case Unknown(_) => Err(EsFilter.UnknownOperator)
  }

  function ContainsArg(path: string, arg: Result<Arg, Unsupported>): Result<Atom, Unsupported> {
    match arg
    case Err(e) => Err(e)
    case Ok(a) => Ok(JsonContains(path, a))
  }

  predicate EmitsNot(op: Op) {
    op.Ne? || op.NotContains?
  }

  // ----- Membership -----

  function MemberArgs(env: PyEnv, members: seq<Py>): Result<seq<Arg>, Unsupported> {
    if members == [] then Ok([])
    else if members[|members| - 1].NoneValue? then Err(EsFilter.NoValue)
    else
      match MemberArgs(env, members[..|members| - 1])
      case Err(e) => Err(e)
      case Ok(args) => Ok(args + [ArgOf(env, Coerce(env, members[|members| - 1]))])
  }

  function ArgsOf(env: PyEnv, value: Py): Result<seq<Arg>, Unsupported> {
    match EsFilter.Members(env, value)
    case Err(e) => Err(e)
    case Ok(ms) => MemberArgs(env, ms)
  }

  function Literals(args: seq<Arg>): seq<Arg> {
    if args == [] then []
    else Literals(args[..|args| - 1]) + (if args[|args| - 1].Literal? then [args[|args| - 1]] else [])
  }

  function Numbers(args: seq<Arg>): seq<Arg> {
    if args == [] then []
    else Numbers(args[..|args| - 1]) + (if args[|args| - 1].Number? then [args[|args| - 1]] else [])
  }

  function Join(joint: Token, parts: seq<Tokens>): Tokens {
    if parts == [] then []
    else if |parts| == 1 then parts[0]
    else parts[0] + [joint] + Join(joint, parts[1..])
  }

  function Part(path: string, negated: bool, a: Arg): Tokens {
    FactorTokens(Factor(negated, Leaf(JsonContains(path, a))))
  }

  function Parts(path: string, negated: bool, args: seq<Arg>): (r: seq<Tokens>)
    ensures |r| == |args|
  {
    seq(|args|, i requires 0 <= i < |args| => Part(path, negated, args[i]))
  }

  function Parenthesised(joint: Token, parts: seq<Tokens>): seq<Tokens> {
    if parts == [] then [] else [[Open] + Join(joint, parts) + [Close]]
  }

  /** The text members and the number members, each in its own parentheses. */
  function Groups(path: string, negated: bool, joint: Token, args: seq<Arg>): seq<Tokens> {
    Parenthesised(joint, Parts(path, negated, Literals(args)))
    + Parenthesised(joint, Parts(path, negated, Numbers(args)))
  }

  function InTokens(path: string, args: seq<Arg>): Tokens {
    [Open] + Join(OR, Groups(path, false, OR, args)) + [Close]
  }

  function NotInTokens(path: string, args: seq<Arg>): Tokens {
    Join(AND, Groups(path, true, AND, args))
  }

  lemma SortOneMore(path: string, negated: bool, args: seq<Arg>, a: Arg)
    ensures Parts(path, negated, Literals(args + [a]))
         == Parts(path, negated, Literals(args)) + (if a.Literal? then [Part(path, negated, a)] else [])
    ensures Parts(path, negated, Numbers(args + [a]))
         == Parts(path, negated, Numbers(args)) + (if a.Number? then [Part(path, negated, a)] else [])
  {
    assert (args + [a])[..|args|] == args;
  }

  /** The loop that sorts the members into text and number parts. */
  method SortMembers(env: PyEnv, path: string, negated: bool, ms: seq<Py>)
      returns (r: Result<(seq<Tokens>, seq<Tokens>), Unsupported>)
    ensures match MemberArgs(env, ms)
            case Err(e) => r == Err(e)
            case Ok(args) => r == Ok((Parts(path, negated, Literals(args)), Parts(path, negated, Numbers(args))))
  {
    var stringParts: seq<Tokens>, numParts: seq<Tokens> := [], [];
    ghost var args: seq<Arg> := [];
    for n := 0 to |ms|
      invariant MemberArgs(env, ms[..n]) == Ok(args)
      invariant stringParts == Parts(path, negated, Literals(args))
      invariant numParts == Parts(path, negated, Numbers(args))
    {
      if ms[n].NoneValue? {
        NoneAmongMembers(env, ms, n);
        return Err(EsFilter.NoValue);
      }
      var a := ArgOf(env, Coerce(env, ms[n]));
      SortOneMore(path, negated, args, a);
      if a.Number? {
        numParts := numParts + [Part(path, negated, a)];
      } else {
        stringParts := stringParts + [Part(path, negated, a)];
      }
      assert ms[..n + 1][..n] == ms[..n];
      args := args + [a];
    }
    assert ms[..|ms|] == ms;
    return Ok((stringParts, numParts));
  }

  lemma {:induction false} NoneAmongMembers(env: PyEnv, ms: seq<Py>, n: nat)
    requires n < |ms| && ms[n].NoneValue?
    ensures MemberArgs(env, ms) == Err(EsFilter.NoValue)
  {
    if n < |ms| - 1 {
      NoneAmongMembers(env, ms[..|ms| - 1], n);
    }
  }

  method Conditions(joint: Token, stringParts: seq<Tokens>, numParts: seq<Tokens>) returns (conditions: seq<Tokens>)
    ensures conditions == Parenthesised(joint, stringParts) + Parenthesised(joint, numParts)
  {
    conditions := [];
    if stringParts != [] {
      conditions := conditions + [[Open] + Join(joint, stringParts) + [Close]];
    }
    if numParts != [] {
      conditions := conditions + [[Open] + Join(joint, numParts) + [Close]];
    }
  }

  method TranslateIn(env: PyEnv, key: string, value: Py) returns (r: Result<Tokens, Unsupported>)
    ensures match ArgsOf(env, value)
            case Err(e) => r == Err(e)
            case Ok(args) => r == Ok(InTokens(Path(key), args))
  {
    var members := EsFilter.CsvOrList(env, value);
    if members.Err? {
      return Err(members.error);
    }
    var parts := SortMembers(env, Path(key), false, members.value);
    if parts.Err? {
      return Err(parts.error);
    }
    var (stringParts, numParts) := parts.value;
    var conditions := Conditions(OR, stringParts, numParts);
    return Ok([Open] + Join(OR, conditions) + [Close]);
  }

  method TranslateNotIn(env: PyEnv, key: string, value: Py) returns (r: Result<Tokens, Unsupported>)
    ensures match ArgsOf(env, value)
            case Err(e) => r == Err(e)
            case Ok(args) => r == Ok(NotInTokens(Path(key), args))
  {
    var members := EsFilter.CsvOrList(env, value);
    if members.Err? {
      return Err(members.error);
    }
    var parts := SortMembers(env, Path(key), true, members.value);
    if parts.Err? {
      return Err(parts.error);
    }
    var (stringParts, numParts) := parts.value;
    var conditions := Conditions(AND, stringParts, numParts);
    return Ok(Join(AND, conditions));
  }

  // ----- Fragments and the whole filter -----

  function Fragment(env: PyEnv, f: Filter): Result<Tokens, Unsupported> {
    if f.key == "" then Err(EsFilter.MissingKey)
    else if !IsKey(f.key) then Err(EsFilter.BadKey)
    else if f.op.In? || f.op.NotIn? then
      match ArgsOf(env, f.value)
      case Err(e) => Err(e)
      case Ok(args) => Ok(if f.op.In? then InTokens(Path(f.key), args) else NotInTokens(Path(f.key), args))
    else
      match AtomOf(env, f)
      case Err(e) => Err(e)
      case Ok(a) => Ok(FactorTokens(Factor(EmitsNot(f.op), Leaf(a))))
  }

  function Fragments(env: PyEnv, filters: seq<Filter>): Result<seq<Tokens>, Unsupported> {
    if filters == [] then Ok([])
    else
      match Fragment(env, filters[0])
      case Err(e) => Err(e)
      case Ok(t) =>
        match Fragments(env, filters[1..])
        case Err(e) => Err(e)
        case Ok(rest) => Ok([t] + rest)
  }

  function BuildTokens(env: PyEnv, filters: seq<Filter>, logic: string): Result<Tokens, Unsupported> {
    if filters == [] then Ok([ONE, EQUALS, ONE])
    else if logic != "and" && logic != "or" then Err(EsFilter.UnknownLogic)
    else
      match Fragments(env, filters)
      case Err(e) => Err(e)
      case Ok(parts) => Ok([Open] + Join(if logic == "and" then AND else OR, parts) + [Close])
  }

  /** The text of `build_infinity_filter`. */
  function Build(env: PyEnv, filters: seq<Filter>, logic: string): Result<string, Unsupported> {
    match BuildTokens(env, filters, logic)
    case Err(e) => Err(e)
    case Ok(ts) => Ok(Write(ts))
  }
}
