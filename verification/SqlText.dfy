/** SQL text as the filter builder writes it, and the lexer that reads it back. */
module SqlText {
  import opened Text

  datatype Token =
    | Word(text: string)
    | Quoted(text: string)
    | Compare(text: string)
    | Open | Close | Comma

  const AND := Word("AND")
  const OR := Word("OR")
  const NOT := Word("NOT")
  const LIKE := Word("LIKE")

  predicate IsWordChar(c: char) {
    'a' <= c <= 'z' || 'A' <= c <= 'Z' || '0' <= c <= '9' || c == '_' || c == '.' || c == '+' || c == '-'
  }

  predicate IsCompareChar(c: char) {
    c == '=' || c == '<' || c == '>' || c == '!'
  }

  /** A quote inside a string literal is doubled. */
  function EscapeSql(s: string): string {
    Replace(s, '\'', "''")
  }

  function Spell(t: Token): string {
    match t
    case Word(w) => w
    case Quoted(s) => "'" + EscapeSql(s) + "'"
    case Compare(c) => c
    case Open => "("
    case Close => ")"
    case Comma => ","
  }

  predicate IsJoint(t: Token) {
    t == AND || t == OR || t == LIKE
  }

  /** Where the builder puts a blank: around AND, OR and LIKE, after NOT and after
      a comma, and around a comparison except in `1=1`. */
  predicate Spaced(a: Token, b: Token) {
    || IsJoint(a) || IsJoint(b) || a == NOT || a.Comma?
    || (b.Compare? && a.Close?)
    || (a.Compare? && (a.text != "=" || b.Quoted?))
  }

  function Write(ts: seq<Token>): string {
    if ts == [] then ""
    else Spell(ts[0]) + Gap(ts) + Write(ts[1..])
  }

  function Gap(ts: seq<Token>): string {
    if |ts| > 1 && Spaced(ts[0], ts[1]) then " " else ""
  }

  // ----- The lexer -----

  function Run(s: string, ok: char -> bool): (n: nat)
    ensures n <= |s|
    ensures forall i :: 0 <= i < n ==> ok(s[i])
    ensures n < |s| ==> !ok(s[n])
  {
    if s != "" && ok(s[0]) then 1 + Run(s[1..], ok) else 0
  }

  /** The rest of a string literal after its opening quote (section 5.3 of SQL-92):
      the text and what follows the closing quote. */
  function ReadQuoted(s: string): (r: Option<(string, string)>)
    ensures r.Some? ==> |r.value.1| < |s|
  {
    if s == "" then None
    else if s[0] != '\'' then PrependChar(s[0], ReadQuoted(s[1..]))
    else if |s| > 1 && s[1] == '\'' then PrependChar('\'', ReadQuoted(s[2..]))
    else Some(("", s[1..]))
  }

  function PrependChar(c: char, r: Option<(string, string)>): Option<(string, string)> {
    if r.Some? then Some(([c] + r.value.0, r.value.1)) else None
  }

  /** The first token of a text that starts with no blank, and the text after it. */
  function Next(s: string): (r: Option<(Token, string)>)
    requires s != ""
    ensures r.Some? ==> |r.value.1| < |s|
  {
    if s[0] == '(' then Some((Open, s[1..]))
    else if s[0] == ')' then Some((Close, s[1..]))
    else if s[0] == ',' then Some((Comma, s[1..]))
    else if s[0] == '\'' then
      var q := ReadQuoted(s[1..]);
      if q.Some? then Some((Quoted(q.value.0), q.value.1)) else None
    else if IsWordChar(s[0]) then
      var n := Run(s, IsWordChar);
      Some((Word(s[..n]), s[n..]))
    else if IsCompareChar(s[0]) then
      var n := Run(s, IsCompareChar);
      Some((Compare(s[..n]), s[n..]))
    else None
  }

  function Lex(s: string): Option<seq<Token>>
    decreases |s|
  {
    if s == "" then Some([])
    else if s[0] == ' ' then Lex(s[1..])
    else
      var first := Next(s);
      if first.None? then None
      else PrependToken(first.value.0, Lex(first.value.1))
  }

  function PrependToken(t: Token, r: Option<seq<Token>>): Option<seq<Token>> {
    if r.Some? then Some([t] + r.value) else None
  }

  // ----- Reading back what was written -----

  predicate IsWord(w: string) {
    w != "" && forall i :: 0 <= i < |w| ==> IsWordChar(w[i])
  }

  predicate IsCompare(c: string) {
    c != "" && forall i :: 0 <= i < |c| ==> IsCompareChar(c[i])
  }

  predicate IsToken(t: Token) {
    (t.Word? ==> IsWord(t.text)) && (t.Compare? ==> IsCompare(t.text))
  }

  /** Two tokens that would run into each other are written with a blank. */
  predicate Separable(a: Token, b: Token) {
    Spaced(a, b) || !((a.Word? && b.Word?) || (a.Quoted? && b.Quoted?) || (a.Compare? && b.Compare?))
  }

  ghost predicate Writable(ts: seq<Token>) {
    && (forall i :: 0 <= i < |ts| ==> IsToken(ts[i]))
    && (forall i, j :: 0 <= i < j < |ts| && j == i + 1 ==> Separable(ts[i], ts[j]))
  }

  /** The characters that must not follow a token directly. */
  predicate Extends(t: Token, c: char) {
    match t
    case Word(_) => IsWordChar(c)
    case Quoted(_) => c == '\''
    case Compare(_) => IsCompareChar(c)
    case _ => false
  }

  lemma {:induction false} RunStops(w: string, rest: string, ok: char -> bool)
    requires forall i :: 0 <= i < |w| ==> ok(w[i])
    requires rest != "" ==> !ok(rest[0])
    ensures Run(w + rest, ok) == |w|
  {
    if w == "" {
      assert w + rest == rest;
    } else {
      assert (w + rest)[1..] == w[1..] + rest;
      RunStops(w[1..], rest, ok);
    }
  }

  lemma {:induction false} ReadQuotedBack(t: string, rest: string)
    requires rest != "" ==> rest[0] != '\''
    ensures ReadQuoted(EscapeSql(t) + "'" + rest) == Some((t, rest))
  {
    if t == "" {
      assert EscapeSql(t) + "'" + rest == "'" + rest;
      assert ("'" + rest)[1..] == rest;
    } else {
      ReadQuotedBack(t[1..], rest);
      var more := EscapeSql(t[1..]) + "'" + rest;
      if t[0] == '\'' {
        assert EscapeSql(t) + "'" + rest == "''" + more;
        assert ("''" + more)[2..] == more;
      } else {
        assert EscapeSql(t) + "'" + rest == [t[0]] + more;
        assert ([t[0]] + more)[1..] == more;
      }
      assert t == [t[0]] + t[1..];
    }
  }

  lemma NextReadsRun(w: string, rest: string)
    ensures IsWord(w) && (rest != "" ==> !IsWordChar(rest[0])) ==> Next(w + rest) == Some((Word(w), rest))
    ensures IsCompare(w) && (rest != "" ==> !IsCompareChar(rest[0])) ==> Next(w + rest) == Some((Compare(w), rest))
  {
    var s := w + rest;
    assert s[..|w|] == w && s[|w|..] == rest;
    if IsWord(w) && (rest != "" ==> !IsWordChar(rest[0])) {
      RunStops(w, rest, IsWordChar);
    }
    if IsCompare(w) && (rest != "" ==> !IsCompareChar(rest[0])) {
      RunStops(w, rest, IsCompareChar);
    }
  }

  lemma NextReadsQuoted(q: string, rest: string)
    requires rest != "" ==> rest[0] != '\''
    ensures Next(Spell(Quoted(q)) + rest) == Some((Quoted(q), rest))
  {
    var s := Spell(Quoted(q)) + rest;
    ReadQuotedBack(q, rest);
    assert s == "'" + (EscapeSql(q) + "'" + rest);
    assert s[0] == '\'' && s[1..] == EscapeSql(q) + "'" + rest;
  }

  lemma NextReads(t: Token, rest: string)
    requires IsToken(t) && (rest != "" ==> !Extends(t, rest[0]))
    ensures Next(Spell(t) + rest) == Some((t, rest))
  {
    match t
    case Word(w) => NextReadsRun(w, rest);
    case Compare(c) => NextReadsRun(c, rest);
    case Quoted(q) => NextReadsQuoted(q, rest);
    case _ => assert (Spell(t) + rest)[1..] == rest;
  }

  lemma LexStep(t: Token, rest: string)
    requires IsToken(t) && (rest != "" ==> !Extends(t, rest[0]))
    ensures Lex(Spell(t) + rest) == PrependToken(t, Lex(rest))
  {
    NextReads(t, rest);
    assert Spell(t) != "" && Spell(t)[0] != ' ';
  }

  lemma LexBlank(rest: string)
    ensures Lex(" " + rest) == Lex(rest)
  {
    assert (" " + rest)[1..] == rest;
  }

  lemma FirstChar(t: Token, u: Token, rest: string)
    requires IsToken(t) && IsToken(u) && !Spaced(t, u) && Separable(t, u)
    ensures Spell(u) != "" && !Extends(t, (Spell(u) + rest)[0])
  {
  }

  /** What follows the first token cannot be taken for a part of it. */
  lemma GapSeparates(ts: seq<Token>)
    requires ts != [] && Writable(ts)
    ensures var rest := Gap(ts) + Write(ts[1..]); rest != "" ==> !Extends(ts[0], rest[0])
  {
    if |ts| > 1 && !Spaced(ts[0], ts[1]) {
      assert Separable(ts[0], ts[1]) && IsToken(ts[0]) && IsToken(ts[1]);
      var tail := ts[1..];
      assert tail[0] == ts[1];
      var more := Gap(tail) + Write(tail[1..]);
      assert Write(tail) == Spell(ts[1]) + more;
      FirstChar(ts[0], ts[1], more);
      assert Gap(ts) + Write(tail) == Spell(ts[1]) + more;
    }
  }

  /** Whatever text the literals hold, the lexer reads back the tokens written. */
  lemma {:induction false} LexWrite(ts: seq<Token>)
    requires Writable(ts)
    ensures Lex(Write(ts)) == Some(ts)
  {
    if ts != [] {
      var rest := Gap(ts) + Write(ts[1..]);
      assert Write(ts) == Spell(ts[0]) + rest;
      GapSeparates(ts);
      LexStep(ts[0], rest);
      LexBlank(Write(ts[1..]));
      assert "" + Write(ts[1..]) == Write(ts[1..]);
      LexWrite(ts[1..]);
      assert ts == [ts[0]] + ts[1..];
    }
  }
}
