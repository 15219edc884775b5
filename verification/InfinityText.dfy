/** The text that is emitted for each operator, and the filters that are refused. */
module InfinityText {
  import opened Text
  import opened PyValue
  import opened MetaFilter
  import opened SqlText
  import opened SqlGrammar
  import opened InfinityFilter
  import opened InfinityMeaning
  import EsFilter
  import Glob

  // ----- Writing tokens one behind the other -----

  lemma WriteOne(t: Token)
    ensures Write([t]) == Spell(t)
  {
    assert [t][1..] == [] && Spell(t) + "" + "" == Spell(t);
  }

  /** The blank between two tokens, if there is one. */
  function Between(a: Token, b: Token): string {
    if Spaced(a, b) then " " else ""
  }

  lemma WriteFirst(t: Token, rest: seq<Token>)
    requires rest != []
    ensures Write([t] + rest) == Spell(t) + Between(t, rest[0]) + Write(rest)
  {
    assert ([t] + rest)[1..] == rest;
  }

  lemma Reassociate(x: string, y: string, z: string, u: string, v: string)
    ensures x + y + (z + u + v) == (x + y + z) + u + v
  {
  }

  lemma {:induction false} WriteAppend(a: seq<Token>, b: seq<Token>)
    requires a != [] && b != []
    ensures Write(a + b) == Write(a) + Between(a[|a| - 1], b[0]) + Write(b)
  {
    hide Write, Spaced, Spell;
    if |a| == 1 {
      assert a == [a[0]];
      WriteOne(a[0]);
      WriteFirst(a[0], b);
    } else {
      WriteAppend(a[1..], b);
      WriteMore(a[0], a[1..], b);
      assert a == [a[0]] + a[1..];
    }
  }

  lemma WriteMore(t: Token, c: seq<Token>, b: seq<Token>)
    requires c != [] && b != [] && Write(c + b) == Write(c) + Between(c[|c| - 1], b[0]) + Write(b)
    ensures Write([t] + c + b) == Write([t] + c) + Between(c[|c| - 1], b[0]) + Write(b)
  {
    hide Write, Between, Spell;
    assert [t] + c + b == [t] + (c + b);
    WriteFirst(t, c);
    WriteFirst(t, c + b);
    Reassociate(Spell(t), Between(t, c[0]), Write(c), Between(c[|c| - 1], b[0]), Write(b));
  }

  /** A token that needs no blank before what follows. */
  lemma WriteTight(t: Token, rest: seq<Token>, text: string)
    requires rest != [] && Write(rest) == text && !Spaced(t, rest[0])
    ensures Write([t] + rest) == Spell(t) + text
  {
    hide Write, Spaced, Spell;
    WriteFirst(t, rest);
    assert Spell(t) + "" + text == Spell(t) + text;
  }

  lemma WriteLoose(t: Token, rest: seq<Token>, text: string)
    requires rest != [] && Write(rest) == text && Spaced(t, rest[0])
    ensures Write([t] + rest) == Spell(t) + " " + text
  {
    hide Write, Spaced, Spell;
    WriteFirst(t, rest);
  }

  lemma WriteJoined(a: seq<Token>, b: seq<Token>)
    requires a != [] && b != [] && !Spaced(a[|a| - 1], b[0])
    ensures Write(a + b) == Write(a) + Write(b)
  {
    hide Write, Spaced;
    WriteAppend(a, b);
    assert Write(a) + "" == Write(a);
  }

  // ----- The predicates -----

  /** The first part of every predicate. */
  function Field(name: string, path: string): string {
    name + ("(" + ("meta_fields" + (", " + Quote(path))))
  }

  function Quote(s: string): string {
    "'" + EscapeSql(s) + "'"
  }

  function ArgText(a: Arg): string {
    match a
    case Literal(text) => Quote(text)
    case Number(digits) => digits
  }

  function AtomText(a: Atom): string {
    match a
    case JsonContains(path, arg) => Field("JSON_CONTAINS", path) + (", " + (ArgText(arg) + ")"))
    case JsonString(path, sign, text) => Field("JSON_EXTRACT_STRING", path) + (") " + (sign + " " + Quote(text)))
    case JsonDouble(path, sign, digits) => Field("JSON_EXTRACT_DOUBLE", path) + (") " + (sign + " " + digits))
    case JsonLike(path, pattern) => Field("JSON_EXTRACT_STRING", path) + (") " + ("LIKE" + " " + Quote(pattern)))
    case Tautology => "1" + ("=" + "1")
  }

  predicate IsName(name: string) {
    Word(name) != AND && Word(name) != OR && Word(name) != LIKE && Word(name) != NOT
  }

  lemma WriteHead(name: string, path: string)
    requires IsName(name)
    ensures Write([Word(name), Open, FIELDS, Comma, Quoted(path)]) == Field(name, path)
  {
    var q := [Quoted(path)];
    var c, f, o := [Comma] + q, [FIELDS, Comma] + q, [Open, FIELDS, Comma] + q;
    var quoted := Quote(path);
    assert Spell(Quoted(path)) == quoted && "," + " " == ", ";
    hide Write, EscapeSql, Quote;
    WriteOne(Quoted(path));
    WriteLoose(Comma, q, quoted);
    assert f == [FIELDS] + c && o == [Open] + f && [Word(name), Open, FIELDS, Comma, Quoted(path)] == [Word(name)] + o;
    WriteTight(FIELDS, c, ", " + quoted);
    WriteTight(Open, f, "meta_fields" + (", " + quoted));
    WriteTight(Word(name), o, "(" + ("meta_fields" + (", " + quoted)));
  }

  lemma FieldWritten(name: string, path: string, rest: seq<Token>)
    requires rest != [] && IsName(name) && (rest[0] == Comma || rest[0] == Close)
    ensures Write([Word(name), Open, FIELDS, Comma, Quoted(path)] + rest) == Field(name, path) + Write(rest)
  {
    var head := [Word(name), Open, FIELDS, Comma, Quoted(path)];
    assert !Spaced(head[4], rest[0]);
    hide Write, Spaced, Field;
    WriteJoined(head, rest);
    WriteHead(name, path);
  }

  /** Every predicate is written as it stands in the source. */
  lemma AtomWritten(a: Atom)
    requires ProperAtom(a)
    ensures Write(AtomTokens(a)) == AtomText(a)
  {
    match a
    case JsonContains(path, arg) => ContainsWritten(path, arg);
    case JsonString(path, sign, text) =>
      CompareWritten(sign, Quoted(text));
      SplitWritten("JSON_EXTRACT_STRING", path, [Close, Compare(sign), Quoted(text)], AtomTokens(a));
    case JsonDouble(path, sign, digits) =>
      CompareWritten(sign, Word(digits));
      SplitWritten("JSON_EXTRACT_DOUBLE", path, [Close, Compare(sign), Word(digits)], AtomTokens(a));
    case JsonLike(path, pattern) =>
      LikeWritten(pattern);
      SplitWritten("JSON_EXTRACT_STRING", path, [Close, LIKE, Quoted(pattern)], AtomTokens(a));
    case Tautology =>
      WriteOne(ONE);
      WriteTight(EQUALS, [ONE], "1");
      WriteTight(ONE, [EQUALS, ONE], "=" + "1");
  }

  lemma ContainsWritten(path: string, arg: Arg)
    requires arg.Number? ==> IsNumber(arg.digits)
    ensures Write(AtomTokens(JsonContains(path, arg))) == AtomText(JsonContains(path, arg))
  {
    var t := ArgToken(arg);
    assert Spell(t) == ArgText(arg) && !Spaced(t, Close) && Spaced(Comma, t);
    hide Write, ArgText, ArgToken, Spaced, Field;
    WriteOne(Close);
    WriteTight(t, [Close], ")");
    WriteLoose(Comma, [t, Close], ArgText(arg) + ")");
    assert "," + " " == ", ";
    SplitWritten("JSON_CONTAINS", path, [Comma, t, Close], AtomTokens(JsonContains(path, arg)));
  }

  lemma SplitWritten(name: string, path: string, rest: seq<Token>, all: seq<Token>)
    requires |rest| == 3 && IsName(name) && (rest[0] == Comma || rest[0] == Close)
    requires all == [Word(name), Open, FIELDS, Comma, Quoted(path), rest[0], rest[1], rest[2]]
    ensures Write(all) == Field(name, path) + Write(rest)
  {
    assert all == [Word(name), Open, FIELDS, Comma, Quoted(path)] + rest;
    FieldWritten(name, path, rest);
  }

  lemma CompareWritten(sign: string, t: Token)
    requires t.Quoted? || (t.Word? && sign != "=" && IsNumber(t.text))
    ensures Write([Close, Compare(sign), t]) == ") " + (sign + " " + Spell(t))
  {
    assert Spaced(Compare(sign), t) && Spaced(Close, Compare(sign));
    hide Write, Spaced;
    WriteOne(t);
    WriteLoose(Compare(sign), [t], Spell(t));
    WriteLoose(Close, [Compare(sign), t], sign + " " + Spell(t));
    assert ")" + " " == ") ";
  }

  lemma LikeWritten(pattern: string)
    ensures Write([Close, LIKE, Quoted(pattern)]) == ") " + ("LIKE" + " " + Quote(pattern))
  {
    assert Spell(Quoted(pattern)) == Quote(pattern);
    hide Write, Quote;
    WriteOne(Quoted(pattern));
    WriteLoose(LIKE, [Quoted(pattern)], Quote(pattern));
    WriteLoose(Close, [LIKE, Quoted(pattern)], "LIKE" + " " + Quote(pattern));
    assert ")" + " " == ") ";
  }

  // ----- Filters -----

  function JoinText(sep: string, texts: seq<string>): string {
    if texts == [] then "" else if |texts| == 1 then texts[0] else texts[0] + sep + JoinText(sep, texts[1..])
  }

  /** The members that are numbers, or those that are not, in order. */
  function Sorted(args: seq<Arg>, numbers: bool): seq<Arg> {
    if args == [] then [] else (if args[0].Number? == numbers then [args[0]] else []) + Sorted(args[1..], numbers)
  }

  function MemberTexts(prefix: string, path: string, args: seq<Arg>): (r: seq<string>)
    ensures |r| == |args|
  {
    seq(|args|, i requires 0 <= i < |args| => prefix + AtomText(JsonContains(path, args[i])))
  }

  /** A parenthesised group, if there is anything in it. */
  function GroupText(sep: string, texts: seq<string>): seq<string> {
    if texts == [] then [] else ["(" + JoinText(sep, texts) + ")"]
  }

  /** The group of the text members, and behind it that of the number members. */
  function GroupTexts(prefix: string, sep: string, path: string, args: seq<Arg>): seq<string> {
    GroupText(sep, MemberTexts(prefix, path, Sorted(args, false)))
    + GroupText(sep, MemberTexts(prefix, path, Sorted(args, true)))
  }

  /** The text of a filter that is not refused. */
  function Emitted(env: PyEnv, f: Filter): string
    requires Fragment(env, f).Ok?
  {
    var path := "$." + f.key;
    match f.op
    case Eq => AtomText(JsonContains(path, Operand(env, f.value)))
    case Ne => "NOT " + AtomText(JsonContains(path, Operand(env, f.value)))
    case Contains => AtomText(JsonContains(path, Operand(env, f.value)))
    case NotContains => "NOT " + AtomText(JsonContains(path, Literal("\"" + Show(env, f.value) + "\"")))
    case In =>
      var args := Operands(env, EsFilter.Members(env, f.value).value);
      "(" + JoinText(" OR ", GroupTexts("", " OR ", path, args)) + ")"
    case NotIn =>
      var args := Operands(env, EsFilter.Members(env, f.value).value);
      JoinText(" AND ", GroupTexts("NOT ", " AND ", path, args))
    case StartWith => AtomText(JsonLike(path, Glob.Escape(Glob.LIKE, Show(env, f.value)) + "%"))
    case EndWith => AtomText(JsonLike(path, "%" + Glob.Escape(Glob.LIKE, Show(env, f.value))))
    case Empty => AtomText(JsonString(path, "=", "\"\""))
    case NotEmpty => AtomText(JsonString(path, "!=", "\"\""))
    case Range(Gt) => RangeText(env, path, ">", f.value)
    case Range(Lt) => RangeText(env, path, "<", f.value)
    case Range(Ge) => RangeText(env, path, ">=", f.value)
    case Range(Le) => RangeText(env, path, "<=", f.value)
  }

  function RangeText(env: PyEnv, path: string, sign: string, v: Py): string {
    match NumberIn(env, Strip(Show(env, v)))
    case Some(n) => AtomText(JsonDouble(path, sign, env.show(n)))
    case None => AtomText(JsonString(path, sign, Show(env, v)))
  }

  /** Tokens that need no blank inside parentheses, nor beside AND and OR. */
  predicate Solid(ts: Tokens) {
    ts != [] && !Spaced(Open, ts[0]) && !Spaced(ts[|ts| - 1], Close)
  }

  lemma FactorWritten(negated: bool, a: Atom)
    requires ProperAtom(a)
    ensures Write(FactorTokens(Factor(negated, Leaf(a)))) == (if negated then "NOT " else "") + AtomText(a)
    ensures Solid(FactorTokens(Factor(negated, Leaf(a))))
  {
    AtomWritten(a);
    AtomSolid(a);
    var ts := AtomTokens(a);
    hide AtomTokens, AtomText, Write, Solid;
    if negated {
      assert FactorTokens(Factor(true, Leaf(a))) == [NOT] + ts;
      WriteNot(ts);
      SolidAfterNot(ts);
    } else {
      assert [] + ts == ts;
    }
  }

  lemma AtomSolid(a: Atom)
    requires ProperAtom(a)
    ensures Solid(AtomTokens(a))
  {
  }

  lemma WriteNot(ts: Tokens)
    requires ts != []
    ensures Write([NOT] + ts) == "NOT " + Write(ts)
  {
    assert Spaced(NOT, ts[0]);
    hide Write, Spaced;
    WriteLoose(NOT, ts, Write(ts));
    assert "NOT" + " " == "NOT ";
  }

  lemma SolidAfterNot(ts: Tokens)
    requires Solid(ts)
    ensures Solid([NOT] + ts)
  {
    assert ([NOT] + ts)[|ts|] == ts[|ts| - 1];
  }

  lemma WriteParenthesised(ts: Tokens)
    requires Solid(ts)
    ensures Write([Open] + ts + [Close]) == "(" + Write(ts) + ")" && Solid([Open] + ts + [Close])
  {
    hide Write;
    WriteOne(Close);
    WriteJoined(ts, [Close]);
    WriteTight(Open, ts + [Close], Write(ts) + ")");
    assert [Open] + ts + [Close] == [Open] + (ts + [Close]);
    assert "(" + (Write(ts) + ")") == "(" + Write(ts) + ")";
  }

  /** What a list of parts is written as, part by part. */
  ghost predicate WrittenAs(parts: seq<Tokens>, texts: seq<string>) {
    |parts| == |texts| && forall i :: 0 <= i < |parts| ==> Solid(parts[i]) && Write(parts[i]) == texts[i]
  }

  lemma {:induction false} JoinWritten(joint: Token, parts: seq<Tokens>, texts: seq<string>)
    requires joint == AND || joint == OR
    requires parts != [] && WrittenAs(parts, texts)
    ensures Solid(Join(joint, parts)) && Write(Join(joint, parts)) == JoinText(" " + joint.text + " ", texts)
  {
    if |parts| > 1 {
      var rest := Join(joint, parts[1..]);
      JoinWritten(joint, parts[1..], texts[1..]);
      WriteAround(joint, parts[0], rest);
      hide Write;
      assert Join(joint, parts) == parts[0] + [joint] + rest;
      assert (parts[0] + [joint] + rest)[0] == parts[0][0];
      assert (parts[0] + [joint] + rest)[|parts[0] + [joint] + rest| - 1] == rest[|rest| - 1];
    }
  }

  lemma WriteAround(joint: Token, a: Tokens, b: Tokens)
    requires (joint == AND || joint == OR) && a != [] && b != []
    ensures Write(a + [joint] + b) == Write(a) + (" " + joint.text + " ") + Write(b)
  {
    assert Spaced(a[|a| - 1], joint) && Spaced(joint, b[0]);
    hide Write, Spaced;
    WriteLoose(joint, b, Write(b));
    WriteAppend(a, [joint] + b);
    JointBetween(a, joint, b);
    Middle(Write(a), " ", joint.text, Write(b));
  }

  lemma JointBetween(a: Tokens, joint: Token, b: Tokens)
    ensures a + [joint] + b == a + ([joint] + b)
  {
  }

  lemma Middle(x: string, blank: string, j: string, y: string)
    ensures x + blank + (j + blank + y) == x + (blank + j + blank) + y
  {
  }

  lemma {:induction false} SortedFront(args: seq<Arg>, a: Arg, numbers: bool)
    ensures Sorted(args + [a], numbers) == Sorted(args, numbers) + if a.Number? == numbers then [a] else []
  {
    if args == [] {
      assert args + [a] == [a] && [a][1..] == [];
    } else {
      SortedFront(args[1..], a, numbers);
      var first := if args[0].Number? == numbers then [args[0]] else [];
      var last := if a.Number? == numbers then [a] else [];
      assert (args + [a])[1..] == args[1..] + [a] && (args + [a])[0] == args[0];
      assert first + (Sorted(args[1..], numbers) + last) == first + Sorted(args[1..], numbers) + last;
    }
  }

  lemma {:induction false} SortedAre(args: seq<Arg>)
    ensures Literals(args) == Sorted(args, false) && Numbers(args) == Sorted(args, true)
  {
    if args != [] {
      var n := |args| - 1;
      SortedAre(args[..n]);
      SortedFront(args[..n], args[n], false);
      SortedFront(args[..n], args[n], true);
      assert args == args[..n] + [args[n]];
    }
  }

  lemma GroupWritten(path: string, negated: bool, joint: Token, args: seq<Arg>)
    requires (joint == AND || joint == OR) && forall a :: a in args && a.Number? ==> IsNumber(a.digits)
    ensures var texts := MemberTexts(if negated then "NOT " else "", path, args);
            WrittenAs(Parenthesised(joint, Parts(path, negated, args)), GroupText(" " + joint.text + " ", texts))
  {
    hide Write, AtomText, FactorTokens, Solid;
    var parts, texts := Parts(path, negated, args), MemberTexts(if negated then "NOT " else "", path, args);
    forall i | 0 <= i < |args| ensures Solid(parts[i]) && Write(parts[i]) == texts[i] {
      FactorWritten(negated, JsonContains(path, args[i]));
    }
    if args != [] {
      JoinWritten(joint, parts, texts);
      WriteParenthesised(Join(joint, parts));
    }
  }

  lemma GroupsWritten(path: string, negated: bool, joint: Token, args: seq<Arg>)
    requires (joint == AND || joint == OR) && args != [] && forall a :: a in args && a.Number? ==> IsNumber(a.digits)
    ensures var texts := GroupTexts(if negated then "NOT " else "", " " + joint.text + " ", path, args);
            var all := Join(joint, Groups(path, negated, joint, args));
            Solid(all) && Write(all) == JoinText(" " + joint.text + " ", texts)
  {
    hide Write, AtomText, Solid, Parenthesised, GroupText, JoinText, Join;
    SortedAre(args);
    forall a ensures a in Literals(args) || a in Numbers(args) <==> a in args {
      SortedMembers(args, a);
    }
    GroupWritten(path, negated, joint, Literals(args));
    GroupWritten(path, negated, joint, Numbers(args));
    SomeGroup(path, negated, joint, args);
    JoinWritten(joint, Groups(path, negated, joint, args),
                GroupTexts(if negated then "NOT " else "", " " + joint.text + " ", path, args));
  }

  lemma SomeGroup(path: string, negated: bool, joint: Token, args: seq<Arg>)
    requires args != []
    ensures Groups(path, negated, joint, args) != []
  {
    SortedMembers(args, args[0]);
  }

  lemma MembershipWritten(env: PyEnv, f: Filter)
    requires NumbersAreWords(env) && Fragment(env, f).Ok? && (f.op.In? || f.op.NotIn?)
    ensures Solid(Fragment(env, f).value) && Write(Fragment(env, f).value) == Emitted(env, f)
  {
    hide Write, JoinText, GroupTexts, Groups, Solid, IsKey, EsFilter.Members;
    var ms := EsFilter.Members(env, f.value).value;
    SomeMembers(env, f.value);
    OperandsAre(env, ms);
    MemberArgsProper(env, ms);
    var args := Operands(env, ms);
    var path := "$." + f.key;
    if f.op.In? {
      GroupsWritten(path, false, OR, args);
      assert " " + OR.text + " " == " OR ";
      WriteParenthesised(Join(OR, Groups(path, false, OR, args)));
    } else {
      GroupsWritten(path, true, AND, args);
      assert " " + AND.text + " " == " AND ";
    }
  }

  lemma SomeMembers(env: PyEnv, value: Py)
    requires EsFilter.Members(env, value).Ok?
    ensures EsFilter.Members(env, value).value != []
  {
  }

  /** A filter that is not refused is written as its operator's text. */
  lemma FragmentWritten(env: PyEnv, f: Filter)
    requires NumbersAreWords(env) && Fragment(env, f).Ok?
    ensures Solid(Fragment(env, f).value) && Write(Fragment(env, f).value) == Emitted(env, f)
  {
    if f.op.In? || f.op.NotIn? {
      MembershipWritten(env, f);
    } else {
      AtomProper(env, f);
      FactorWritten(EmitsNot(f.op), AtomOf(env, f).value);
      hide Write, AtomText, FactorTokens, Solid, IsKey, Strip, Glob.Escape;
      AtomIsEmitted(env, f);
    }
  }

  lemma AtomIsEmitted(env: PyEnv, f: Filter)
    requires Fragment(env, f).Ok? && !f.op.In? && !f.op.NotIn?
    ensures Emitted(env, f) == (if EmitsNot(f.op) then "NOT " else "") + AtomText(AtomOf(env, f).value)
  {
    hide AtomText, IsKey, Strip, Glob.Escape;
    if f.value != NoneValue {
      OperandMeans(env, f.value);
    }
    assert "" + AtomText(AtomOf(env, f).value) == AtomText(AtomOf(env, f).value);
  }

  function EmittedAll(env: PyEnv, filters: seq<Filter>): (r: seq<string>)
    requires forall i :: 0 <= i < |filters| ==> Fragment(env, filters[i]).Ok?
    ensures |r| == |filters|
  {
    seq(|filters|, i requires 0 <= i < |filters| => Emitted(env, filters[i]))
  }

  lemma {:induction false} FragmentsWritten(env: PyEnv, filters: seq<Filter>)
    requires NumbersAreWords(env)
    ensures Fragments(env, filters).Ok? <==> forall i :: 0 <= i < |filters| ==> Fragment(env, filters[i]).Ok?
    ensures Fragments(env, filters).Ok? ==> WrittenAs(Fragments(env, filters).value, EmittedAll(env, filters))
  {
    hide Fragment, Emitted, Write, Solid;
    if filters != [] {
      FragmentsWritten(env, filters[1..]);
      if Fragment(env, filters[0]).Ok? {
        FragmentWritten(env, filters[0]);
      }
      assert forall i :: 0 < i < |filters| ==> filters[i] == filters[1..][i - 1];
    }
  }

  /** The whole text: `1=1` without filters, whatever the logic; refused if the logic or a
      filter is; else the texts of the filters, joined by the logic, in parentheses. */
  lemma BuildText(env: PyEnv, filters: seq<Filter>, logic: string)
    requires NumbersAreWords(env)
    ensures Build(env, filters, logic).Ok? <==>
            filters == [] || ((logic == "and" || logic == "or")
                              && forall i :: 0 <= i < |filters| ==> Fragment(env, filters[i]).Ok?)
    ensures filters == [] ==> Build(env, filters, logic) == Ok("1=1")
    ensures filters != [] && Build(env, filters, logic).Ok? ==>
              Build(env, filters, logic)
              == Ok("(" + JoinText(if logic == "and" then " AND " else " OR ", EmittedAll(env, filters)) + ")")
  {
    hide Write, Fragment, Emitted, JoinText, Solid;
    FragmentsWritten(env, filters);
    if filters == [] {
      AtomWritten(Tautology);
      assert AtomTokens(Tautology) == [ONE, EQUALS, ONE] && "1" + ("=" + "1") == "1=1";
      assert BuildTokens(env, filters, logic) == Ok([ONE, EQUALS, ONE]);
    } else if Build(env, filters, logic).Ok? {
      var joint := if logic == "and" then AND else OR;
      var parts := Fragments(env, filters).value;
      JoinWritten(joint, parts, EmittedAll(env, filters));
      WriteParenthesised(Join(joint, parts));
      assert " " + AND.text + " " == " AND " && " " + OR.text + " " == " OR ";
    }
  }

  // ----- Refusals -----

  /** A letter or an underscore, then letters, digits and underscores; a line break may end it. */
  predicate IsIdentifier(key: string) {
    var n := if key != "" && key[|key| - 1] == '\n' then |key| - 1 else |key|;
    && 0 < n && !('0' <= key[0] <= '9')
    && forall i :: 0 <= i < n ==> 'a' <= key[i] <= 'z' || 'A' <= key[i] <= 'Z' || '0' <= key[i] <= '9' || key[i] == '_'
  }

  /** A filter is refused if and only if its key is no identifier, its operator unknown,
      or its value one that the operator cannot read. */
  lemma RefusedIff(env: PyEnv, f: Filter)
    ensures Fragment(env, f).Err? <==>
            || !IsIdentifier(f.key)
            || (match f.op
                case Unknown(_) => true
                case Empty => false
                case NotEmpty => false
                case Eq => f.value == NoneValue || f.value.List? || f.value.Dict?
                case Ne => f.value == NoneValue || f.value.List? || f.value.Dict?
                case Range(_) => f.value == NoneValue
                case Contains => f.value in {NoneValue, Str(""), List([]), Tuple([]), Dict("{}")}
                case In => EsFilter.Members(env, f.value).Err? || NoneValue in EsFilter.Members(env, f.value).value
                case NotIn => EsFilter.Members(env, f.value).Err? || NoneValue in EsFilter.Members(env, f.value).value
                case _ => f.value == NoneValue || f.value.List? || f.value.Dict? || Show(env, f.value) == "")
  {
    hide EsFilter.Members, Strip, Glob.Escape, InTokens, NotInTokens;
    KeyIsIdentifier(f.key);
    if EsFilter.Members(env, f.value).Ok? {
      NoneRefused(env, EsFilter.Members(env, f.value).value);
    }
    hide IsKey, IsIdentifier, MemberArgs;
  }

  lemma KeyIsIdentifier(key: string)
    ensures IsKey(key) <==> IsIdentifier(key)
    ensures IsKey(key) ==> key != ""
  {
  }

  lemma {:induction false} NoneRefused(env: PyEnv, ms: seq<Py>)
    ensures MemberArgs(env, ms).Err? <==> NoneValue in ms
  {
    if ms != [] {
      NoneRefused(env, ms[..|ms| - 1]);
      assert ms == ms[..|ms| - 1] + [ms[|ms| - 1]];
    }
  }
}
