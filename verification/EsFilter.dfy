/** The translator of metadata filters into search-engine queries. */
module EsFilter {
  import opened Text
  import opened PyValue
  import opened MetaFilter
  import opened MetaStore
  import EsQuery
  import opened Glob

  type Clause = EsQuery.Clause

  /** The reasons for which `UnsupportedMetaFilter` is raised. */
  datatype Unsupported =
    | MissingKey | BadKey | UnknownOperator | UnknownLogic
    | NoValue | NotScalar | EmptyText | NoMembers

  // ----- Coercions -----

  function CoerceScalar(env: PyEnv, value: Py): Result<Py, Unsupported> {
    if value.NoneValue? then Err(NoValue)
    else if value.List? || value.Dict? then Err(NotScalar)
    else
      var s := Strip(Show(env, value));
      if IsDate(s) then Ok(Str(s))
      else
        match env.literal(s)
        case None => Ok(Str(Lower(env.fold, s)))
        case Some(parsed) =>
          if parsed.Str? then Ok(LowerText(env, parsed))
          else if AsNumber(parsed).Some? then Ok(parsed)
          else Ok(Str(Lower(env.fold, s)))
  }

  function CoerceRange(env: PyEnv, value: Py): Result<Py, Unsupported> {
    if value.NoneValue? then Err(NoValue)
    else
      var s := Strip(Show(env, value));
      if !IsDate(s) && env.literal(s).Some? && AsNumber(env.literal(s).value).Some? then Ok(env.literal(s).value)
      else Ok(Str(s))
  }

  function CoerceString(env: PyEnv, value: Py): Result<string, Unsupported> {
    if value.NoneValue? then Err(NoValue)
    else if value.List? || value.Dict? then Err(NotScalar)
    else if Show(env, value) == "" then Err(EmptyText)
    else Ok(Show(env, value))
  }

  function Piece(part: string): seq<Py> {
    if Strip(part) == "" then [] else [Str(Strip(part))]
  }

  /** The non-blank pieces of a comma-separated text, trimmed. */
  function Pieces(parts: seq<string>): seq<Py> {
    if parts == [] then []
    else Pieces(parts[..|parts| - 1]) + Piece(parts[|parts| - 1])
  }

  function RawMembers(env: PyEnv, value: Py): seq<Py> {
    match value
    case List(items) => items
    case Tuple(items) => items
    case Str(s) =>
      var parsed := env.literal(s);
      if parsed.Some? && (parsed.value.List? || parsed.value.Tuple?) then parsed.value.items
      else Pieces(Split(s, ','))
    case _ => [value]
  }

  function NormaliseMember(env: PyEnv, m: Py): Py {
    if m.Str? then Str(Strip(Lower(env.fold, m.s))) else m
  }

  function Members(env: PyEnv, value: Py): Result<seq<Py>, Unsupported> {
    if value.NoneValue? then Err(NoValue)
    else
      var raw := RawMembers(env, value);
      if raw == [] then Err(NoMembers)
      else Ok(seq(|raw|, i requires 0 <= i < |raw| => NormaliseMember(env, raw[i])))
  }

  method NonBlank(parts: seq<string>) returns (members: seq<Py>)
    ensures members == Pieces(parts)
  {
    members := [];
    for n := 0 to |parts|
      invariant members == Pieces(parts[..n])
    {
      assert parts[..n + 1][..n] == parts[..n];
      if Strip(parts[n]) != "" {
        members := members + [Str(Strip(parts[n]))];
      }
    }
    assert parts[..|parts|] == parts;
  }

  /** The loops of `_csv_or_list`. */
  method CsvOrList(env: PyEnv, value: Py) returns (r: Result<seq<Py>, Unsupported>)
    ensures r == Members(env, value)
  {
    if value.NoneValue? {
      return Err(NoValue);
    }
    var members := [value];
    if value.List? || value.Tuple? {
      members := value.items;
    } else if value.Str? {
      var parsed := env.literal(value.s);
      if parsed.Some? && (parsed.value.List? || parsed.value.Tuple?) {
        members := parsed.value.items;
      } else {
        members := NonBlank(Split(value.s, ','));
      }
    }
    if members == [] {
      return Err(NoMembers);
    }
    var normalised := [];
    for n := 0 to |members|
      invariant |normalised| == n
      invariant forall i :: 0 <= i < n ==> normalised[i] == NormaliseMember(env, members[i])
    {
      normalised := normalised + [NormaliseMember(env, members[n])];
    }
    assert members == RawMembers(env, value);
    assert normalised == Members(env, value).value;
    return Ok(normalised);
  }

  // ----- One filter -----

  datatype Translated = Translated(must: seq<Clause>, mustNot: seq<Clause>)

  function TermOrMatch(key: string, value: Py): Clause {
    if value.Str? then EsQuery.Term(EsQuery.Keyword(key), value, true)
    else EsQuery.Term(EsQuery.Meta(key), value, false)
  }

  function TermsOf(key: string, members: seq<Py>): Clause {
    if forall i :: 0 <= i < |members| ==> !members[i].Str? then EsQuery.Terms(EsQuery.Meta(key), members)
    else EsQuery.AnyOf(seq(|members|, i requires 0 <= i < |members| => TermOrMatch(key, members[i])))
  }

  /** The clause that looks for the filter's value in the field. */
  function Probe(env: PyEnv, f: Filter): Result<Clause, Unsupported> {
    var key := f.key;
    match f.op
    case Eq => ScalarProbe(key, CoerceScalar(env, f.value))
    case Ne => ScalarProbe(key, CoerceScalar(env, f.value))
    case Range(cmp) => RangeProbe(key, cmp, CoerceRange(env, f.value))
    case In => MemberProbe(key, Members(env, f.value))
    case NotIn => MemberProbe(key, Members(env, f.value))
    case Contains => TextProbe(key, f.op, CoerceString(env, f.value))
    case NotContains => TextProbe(key, f.op, CoerceString(env, f.value))
    case StartWith => TextProbe(key, f.op, CoerceString(env, f.value))
    case EndWith => TextProbe(key, f.op, CoerceString(env, f.value))
    case Empty =>
      var missing := EsQuery.Must([], [EsQuery.Exists(EsQuery.Meta(key))]);
      Ok(EsQuery.AnyOf([missing, BlankTerm(key)]))
    case NotEmpty => Ok(BlankTerm(key))
    case Unknown(_) => Err(UnknownOperator)
  }

  function BlankTerm(key: string): Clause {
    EsQuery.Term(EsQuery.Keyword(key), Str(""), false)
  }

  function ScalarProbe(key: string, value: Result<Py, Unsupported>): Result<Clause, Unsupported> {
    match value
    case Err(e) => Err(e)
    case Ok(v) => Ok(TermOrMatch(key, v))
  }

  function RangeProbe(key: string, cmp: RangeOp, bound: Result<Py, Unsupported>): Result<Clause, Unsupported> {
    match bound
    case Err(e) => Err(e)
    case Ok(v) => Ok(EsQuery.Range(EsQuery.Meta(key), cmp, v))
  }

  function MemberProbe(key: string, members: Result<seq<Py>, Unsupported>): Result<Clause, Unsupported> {
    match members
    case Err(e) => Err(e)
    case Ok(ms) => Ok(TermsOf(key, ms))
  }

  function TextProbe(key: string, op: Op, text: Result<string, Unsupported>): Result<Clause, Unsupported> {
    match text
    case Err(e) => Err(e)
    case Ok(t) =>
      if op.StartWith? then Ok(EsQuery.Prefix(EsQuery.Keyword(key), t))
      else if op.EndWith? then Ok(EsQuery.Wildcard(EsQuery.Keyword(key), "*" + Escape(WILDCARD, t)))
      else Ok(EsQuery.Wildcard(EsQuery.Keyword(key), "*" + Escape(WILDCARD, t) + "*"))
  }

  /** A rejection and a range also ask for the field to be present. */
  function Translate(env: PyEnv, f: Filter): (r: Result<Translated, Unsupported>)
    ensures r.Ok? ==> r.value.must != []
  {
    if f.key == "" then Err(MissingKey)
    else
      match Probe(env, f)
      case Err(e) => Err(e)
      case Ok(probe) =>
        var present := EsQuery.Exists(EsQuery.Meta(f.key));
        if Negative(f.op) then Ok(Translated([present], [probe]))
        else if f.op.Range? then Ok(Translated([present, probe], []))
        else Ok(Translated([probe], []))
  }

  function ToClauses(t: Translated): seq<Clause> {
    if t.must == [] && t.mustNot == [] then []
    else if t.mustNot == [] && |t.must| == 1 then t.must
    else [EsQuery.Must(t.must, t.mustNot)]
  }

  // ----- A whole request -----

  datatype Plan = Plan(logic: string, translated: seq<Translated>)

  function TranslateAll(env: PyEnv, filters: seq<Filter>): Result<seq<Translated>, Unsupported> {
    if filters == [] then Ok([])
    else
      match Translate(env, filters[0])
      case Err(e) => Err(e)
      case Ok(t) =>
        match TranslateAll(env, filters[1..])
        case Err(e) => Err(e)
        case Ok(ts) => Ok([t] + ts)
  }

  function PlanOf(env: PyEnv, filters: seq<Filter>, logic: string): Result<Plan, Unsupported> {
    if logic != "and" && logic != "or" then Err(UnknownLogic)
    else
      match TranslateAll(env, filters)
      case Err(e) => Err(e)
      case Ok(ts) => Ok(Plan(logic, ts))
  }

  method PlanPushdown(env: PyEnv, filters: seq<Filter>, logic: string) returns (r: Result<Plan, Unsupported>)
    ensures r == PlanOf(env, filters, logic)
  {
    if logic != "and" && logic != "or" {
      return Err(UnknownLogic);
    }
    var translated: seq<Translated> := [];
    ghost var all := TranslateAll(env, filters);
    assert filters[0..] == filters;
    assert all.Ok? ==> [] + all.value == all.value;
    for n := 0 to |filters|
      invariant all == Joined(translated, TranslateAll(env, filters[n..]))
    {
      assert filters[n..][1..] == filters[n + 1..];
      var t := Translate(env, filters[n]);
      if t.Err? {
        return Err(t.error);
      }
      ghost var rest := TranslateAll(env, filters[n + 1..]);
      if rest.Ok? {
        assert translated + ([t.value] + rest.value) == translated + [t.value] + rest.value;
      }
      translated := translated + [t.value];
    }
    assert filters[|filters|..] == [];
    assert translated + [] == translated;
    return Ok(Plan(logic, translated));
  }

  function Joined(done: seq<Translated>, rest: Result<seq<Translated>, Unsupported>)
    : Result<seq<Translated>, Unsupported>
  {
    match rest
    case Ok(ts) => Ok(done + ts)
    case Err(e) => Err(e)
  }

  function Flatten(ts: seq<Translated>): seq<Clause> {
    if ts == [] then [] else ToClauses(ts[0]) + Flatten(ts[1..])
  }

  function KbClause(kbIds: seq<string>): Clause {
    EsQuery.Terms(EsQuery.KbId, seq(|kbIds|, i requires 0 <= i < |kbIds| => Str(kbIds[i])))
  }

  /** The body of the `query` the plan renders to. */
  function ToQuery(p: Plan, kbIds: seq<string>): Clause {
    if p.translated == [] then EsQuery.BoolQuery([], [], [], 0, [KbClause(kbIds)])
    else
      var inner := if p.logic == "or" then EsQuery.AnyOf(Flatten(p.translated))
                   else EsQuery.Must(Flatten(p.translated), []);
      EsQuery.BoolQuery([], [], [], 0, [KbClause(kbIds), inner])
  }

  /** The routing pre-check: no operator whose negation reads a list differently. */
  predicate Routable(f: Filter) {
    !f.op.Unknown? && !f.op.Ne? && !f.op.NotIn? && f.key != ""
  }

  method IsPushdownSupported(filters: seq<Filter>) returns (supported: bool)
    ensures supported <==> forall i :: 0 <= i < |filters| ==> Routable(filters[i])
    ensures supported <==> forall i :: 0 <= i < |filters| ==>
              filters[i].key != "" && filters[i].op != Ne && filters[i].op != NotIn && !filters[i].op.Unknown?
  {
    for n := 0 to |filters|
      invariant forall i :: 0 <= i < n ==> Routable(filters[i])
    {
      if filters[n].op.Unknown? {
        return false;
      }
      if filters[n].op.Ne? || filters[n].op.NotIn? {
        return false;
      }
      if filters[n].key == "" {
        return false;
      }
    }
    return true;
  }
}
