/** What each filter asks the search engine, in terms of its key and value, and what is
    refused. */
module PushdownTerms {
  import opened Text
  import opened PyValue
  import opened MetaFilter
  import opened MetaStore
  import opened EsFilter
  import opened Pushdown
  import EsQuery

  predicate IsTextOp(op: Op) {
    op.Contains? || op.NotContains? || op.StartWith? || op.EndWith?
  }

  /** A filter is refused if and only if it has no key, an unknown operator, or a
      value its operator cannot read. */
  lemma RefusedIff(env: PyEnv, f: Filter)
    ensures Translate(env, f).Err? <==>
            || f.key == "" || f.op.Unknown?
            || (!f.op.Empty? && !f.op.NotEmpty? && f.value.NoneValue?)
            || ((f.op.Eq? || f.op.Ne? || IsTextOp(f.op)) && (f.value.List? || f.value.Dict?))
            || (IsTextOp(f.op) && Show(env, f.value) == "")
            || ((f.op.In? || f.op.NotIn?) && RawMembers(env, f.value) == [])
  {
  }

  /** A whole request is refused for its logic, or for the first filter that is refused,
      and for that one's reason. */
  lemma PlanRefusedIff(env: PyEnv, filters: seq<Filter>, logic: string, why: Unsupported)
    ensures PlanOf(env, filters, logic) == Err(why) <==>
            if logic in {"and", "or"} then
              exists n :: 0 <= n < |filters| && Translate(env, filters[n]) == Err(why)
                          && forall i :: 0 <= i < n ==> Translate(env, filters[i]).Ok?
            else why == UnknownLogic
  {
    hide Translate;
    FirstRefused(env, filters, why);
  }

  lemma {:induction false} FirstRefused(env: PyEnv, filters: seq<Filter>, why: Unsupported)
    ensures TranslateAll(env, filters) == Err(why) <==>
            exists n :: 0 <= n < |filters| && Translate(env, filters[n]) == Err(why)
                        && forall i :: 0 <= i < n ==> Translate(env, filters[i]).Ok?
  {
    hide Translate;
    if filters != [] {
      var rest := filters[1..];
      FirstRefused(env, rest, why);
      if Translate(env, filters[0]).Ok? {
        if n :| 0 <= n < |rest| && Translate(env, rest[n]) == Err(why)
                && forall i :: 0 <= i < n ==> Translate(env, rest[i]).Ok? {
          assert filters[n + 1] == rest[n];
          assert forall i :: 0 < i < n + 1 ==> filters[i] == rest[i - 1];
        }
        if n :| 0 <= n < |filters| && Translate(env, filters[n]) == Err(why)
                && forall i :: 0 <= i < n ==> Translate(env, filters[i]).Ok? {
          assert rest[n - 1] == filters[n];
          assert forall i :: 0 <= i < n - 1 ==> rest[i] == filters[i + 1];
        }
      }
    }
  }

  /** A range asks the engine about the value as trimmed text: as a date or, if it is the
      literal of a number, as that number, or else as it is; on a document with the key. */
  lemma RangeMeans(env: PyEnv, g: Engine, d: Doc, f: Filter)
    requires f.op.Range? && f.key != "" && f.value != NoneValue
    ensures var s := Strip(Show(env, f.value));
            var bound := if !IsDate(s) && NumberIn(env, s).Some? then NumberIn(env, s).value else Str(s);
            EsHolds(env, g, d, f) <==> exists t :: t in Texts(d, f.key) && g.within(f.op.cmp, bound, t)
  {
    hide IsDate, Strip;
    var s := Strip(Show(env, f.value));
    var bound := if !IsDate(s) && NumberIn(env, s).Some? then NumberIn(env, s).value else Str(s);
    assert CoerceRange(env, f.value) == Ok(bound);
    var present, range := EsQuery.Exists(EsQuery.Meta(f.key)), EsQuery.Range(EsQuery.Meta(f.key), f.op.cmp, bound);
    assert Translate(env, f).value == Translated([present, range], []);
    assert [present, range][0] in [present, range] && [present, range][1] in [present, range];
    assert EsQuery.FieldTexts(d, EsQuery.Meta(f.key)) == Texts(d, f.key);
  }

  /** What an equality compares with: a date as it stands; a number as such; what is
      quoted, or any other text, in lower case. */
  function Compared(env: PyEnv, s: string): Py {
    if IsDate(s) then Str(s)
    else if NumberIn(env, s).Some? then NumberIn(env, s).value
    else
      match env.literal(s)
      case Some(Str(quoted)) => Str(Lower(env.fold, quoted))
      case _ => Str(Lower(env.fold, s))
  }

  /** A text is equal to a value: a text up to case, a number as the analysed field has it. */
  predicate Equals(g: Engine, t: string, v: Py) {
    if v.Str? then Lower(g.fold, t) == Lower(g.fold, v.s) else g.analysed(t, v)
  }

  lemma TermOrMatchMeans(g: Engine, d: Doc, key: string, v: Py)
    ensures EsQuery.Selects(g, d, TermOrMatch(key, v)) <==> exists t :: t in Texts(d, key) && Equals(g, t, v)
  {
    assert EsQuery.FieldTexts(d, EsQuery.Keyword(key)) == Texts(d, key) == EsQuery.FieldTexts(d, EsQuery.Meta(key));
  }

  lemma OneProbe(env: PyEnv, g: Engine, d: Doc, f: Filter)
    requires f.key != "" && Probe(env, f).Ok? && !f.op.Range?
    ensures EsHolds(env, g, d, f) <==>
            if Negative(f.op) then Texts(d, f.key) != [] && !EsQuery.Selects(g, d, Probe(env, f).value)
            else EsQuery.Selects(g, d, Probe(env, f).value)
  {
    hide Probe, EsQuery.Selects;
    var present, probe := EsQuery.Exists(EsQuery.Meta(f.key)), Probe(env, f).value;
    PresentMeans(g, d, f.key);
    assert Translate(env, f) == Ok(if Negative(f.op) then Translated([present], [probe]) else Translated([probe], []));
    assert [present][0] in [present] && [probe][0] in [probe];
  }

  lemma PresentMeans(g: Engine, d: Doc, key: string)
    ensures EsQuery.Selects(g, d, EsQuery.Exists(EsQuery.Meta(key))) <==> Texts(d, key) != []
  {
  }

  /** An equality or its rejection, with any value that is no list, dictionary or null. */
  lemma EqualityMeans(env: PyEnv, g: Engine, d: Doc, f: Filter)
    requires (f.op.Eq? || f.op.Ne?) && f.key != ""
    requires f.value != NoneValue && !f.value.List? && !f.value.Dict?
    ensures var v := Compared(env, Strip(Show(env, f.value)));
            var found := exists t :: t in Texts(d, f.key) && Equals(g, t, v);
            EsHolds(env, g, d, f) <==> if f.op == Eq then found else Texts(d, f.key) != [] && !found
  {
    hide IsDate, Strip, EsQuery.Selects, Halves, Translate;
    var v := Compared(env, Strip(Show(env, f.value)));
    assert CoerceScalar(env, f.value) == Ok(v);
    assert Probe(env, f) == Ok(TermOrMatch(f.key, v));
    OneProbe(env, g, d, f);
    TermOrMatchMeans(g, d, f.key, v);
  }

  /** The members of a list, of a tuple, of the text of one, of a text with commas, or
      the value itself. */
  ghost predicate MembersAre(env: PyEnv, value: Py, members: seq<Py>) {
    match value
    case List(items) => members == items
    case Tuple(items) => members == items
    case Str(s) =>
      (match env.literal(s)
       case Some(List(items)) => members == items
       case Some(Tuple(items)) => members == items
       case _ => TrimmedPieces(Split(s, ','), members))
    case _ => members == [value]
  }

  /** The pieces that are not blank, each trimmed, in order. */
  ghost predicate TrimmedPieces(parts: seq<string>, members: seq<Py>) {
    if parts == [] then members == []
    else if Strip(parts[0]) == "" then TrimmedPieces(parts[1..], members)
    else members != [] && members[0] == Str(Strip(parts[0])) && TrimmedPieces(parts[1..], members[1..])
  }

  lemma {:induction false} PiecesAreTrimmed(parts: seq<string>)
    ensures TrimmedPieces(parts, Pieces(parts))
  {
    hide Strip;
    if parts != [] {
      PiecesAreTrimmed(parts[1..]);
      PiecesFront(parts);
      if Strip(parts[0]) == "" {
        assert [] + Pieces(parts[1..]) == Pieces(parts[1..]);
      } else {
        assert Pieces(parts)[1..] == Pieces(parts[1..]);
      }
    }
  }

  lemma {:induction false} PiecesFront(parts: seq<string>)
    requires parts != []
    ensures Pieces(parts) == (if Strip(parts[0]) == "" then [] else [Str(Strip(parts[0]))]) + Pieces(parts[1..])
  {
    hide Strip;
    if |parts| == 1 {
      assert parts[..0] == [] == parts[1..];
    } else {
      var n := |parts| - 1;
      PiecesFront(parts[..n]);
      assert parts[..n][1..] == parts[1..][..n - 1];
    }
  }

  /** A member as it is compared: text in lower case and trimmed, anything else as it is. */
  function AsMember(env: PyEnv, m: Py): Py {
    match m
    case Str(s) => Str(Strip(Lower(env.fold, s)))
    case _ => m
  }

  lemma AnyMember(g: Engine, d: Doc, key: string, ms: seq<Py>)
    requires ms != []
    ensures EsQuery.Selects(g, d, TermsOf(key, ms)) <==>
            exists t, k :: t in Texts(d, key) && 0 <= k < |ms| && Equals(g, t, ms[k])
  {
    assert EsQuery.FieldTexts(d, EsQuery.Meta(key)) == Texts(d, key);
    if exists i :: 0 <= i < |ms| && ms[i].Str? {
      var cs := TermsOf(key, ms).should;
      EsQuery.AnyOfMeans(g, d, cs);
      hide EsQuery.Selects;
      forall k | 0 <= k < |cs|
        ensures EsQuery.Selects(g, d, cs[k]) <==> exists t :: t in Texts(d, key) && Equals(g, t, ms[k])
      {
        TermOrMatchMeans(g, d, key, ms[k]);
      }
      if t, k :| t in Texts(d, key) && 0 <= k < |ms| && Equals(g, t, ms[k]) {
        assert cs[k] in cs;
      }
    } else {
      assert TermsOf(key, ms) == EsQuery.Terms(EsQuery.Meta(key), ms);
      if t, k :| t in Texts(d, key) && 0 <= k < |ms| && Equals(g, t, ms[k]) {
        assert ms[k] in ms;
      }
    }
  }

  /** A membership or its rejection asks for one of the members, texts and numbers mixed. */
  lemma MembershipMeans(env: PyEnv, g: Engine, d: Doc, f: Filter, members: seq<Py>)
    requires (f.op.In? || f.op.NotIn?) && f.key != "" && f.value != NoneValue
    requires MembersAre(env, f.value, members) && members != []
    ensures var found := exists t, k :: t in Texts(d, f.key) && 0 <= k < |members|
                                        && Equals(g, t, AsMember(env, members[k]));
            EsHolds(env, g, d, f) <==> if f.op == In then found else Texts(d, f.key) != [] && !found
  {
    hide Strip, EsQuery.Selects, Halves, Translate, Equals, TermsOf;
    ListedAre(env, f.value, members);
    var ms := Members(env, f.value).value;
    assert forall k :: 0 <= k < |ms| ==> ms[k] == AsMember(env, members[k]);
    AnyMember(g, d, f.key, ms);
    OneProbe(env, g, d, f);
  }

  lemma ListedAre(env: PyEnv, value: Py, members: seq<Py>)
    requires MembersAre(env, value, members)
    ensures RawMembers(env, value) == members
  {
    hide Strip, Split;
    if value.Str? {
      PiecesAreTrimmed(Split(value.s, ','));
      if TrimmedPieces(Split(value.s, ','), members) {
        SamePieces(Split(value.s, ','), members, Pieces(Split(value.s, ',')));
      }
    }
  }

  lemma {:induction false} SamePieces(parts: seq<string>, a: seq<Py>, b: seq<Py>)
    requires TrimmedPieces(parts, a) && TrimmedPieces(parts, b)
    ensures a == b
  {
    hide Strip;
    if parts != [] {
      if Strip(parts[0]) == "" {
        SamePieces(parts[1..], a, b);
      } else {
        SamePieces(parts[1..], a[1..], b[1..]);
        assert a == [a[0]] + a[1..] && b == [b[0]] + b[1..];
      }
    }
  }
}
