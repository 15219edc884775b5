/** Patterns with an escape character.  The engine's `wildcard` query and SQL's
    `LIKE` are the same language with different metacharacters, and the
    repository escapes user text for both with three replacements in a row. */
module Glob {
  import opened Text

  /** `many` stands for any run of characters, `one` for a single one and a
      backslash for the character after it.  A `strict` reader rejects a
      backslash before anything else (section 8.5 of SQL-92); the other one
      takes the next character, or a last lone backslash, literally. */
  datatype Syntax = Syntax(many: char, one: char, strict: bool)

  const WILDCARD := Syntax('*', '?', false)
  const LIKE := Syntax('%', '_', true)

  predicate Proper(x: Syntax) {
    x.many != '\\' && x.one != '\\' && x.many != x.one
  }

  datatype Elem = Many | One | Lit(c: char)

  predicate IsMeta(x: Syntax, c: char) {
    c == '\\' || c == x.many || c == x.one
  }

  /** The two `_escape...` functions: backslash, then `many`, then `one`. */
  function Escape(x: Syntax, text: string): string {
    Replace(Replace(Replace(text, '\\', "\\\\"), x.many, ['\\', x.many]), x.one, ['\\', x.one])
  }

  /** The reader of a pattern; `None` is a pattern the reader rejects. */
  function Read(x: Syntax, pattern: string): Option<seq<Elem>> {
    if pattern == "" then Some([])
    else if pattern[0] == '\\' then
      if |pattern| == 1 then
        if x.strict then None else Some([Lit('\\')])
      else if x.strict && !IsMeta(x, pattern[1]) then None
      else Prepend(Lit(pattern[1]), Read(x, pattern[2..]))
    else if pattern[0] == x.many then Prepend(Many, Read(x, pattern[1..]))
    else if pattern[0] == x.one then Prepend(One, Read(x, pattern[1..]))
    else Prepend(Lit(pattern[0]), Read(x, pattern[1..]))
  }

  function Prepend(e: Elem, rest: Option<seq<Elem>>): Option<seq<Elem>> {
    if rest.Some? then Some([e] + rest.value) else None
  }

  predicate Matches(fold: char -> char, p: seq<Elem>, s: string)
    decreases |p| + |s|
  {
    if p == [] then s == ""
    else
      match p[0]
      case Many => Matches(fold, p[1..], s) || (s != "" && Matches(fold, p, s[1..]))
      case One => s != "" && Matches(fold, p[1..], s[1..])
      case Lit(c) => s != "" && fold(s[0]) == fold(c) && Matches(fold, p[1..], s[1..])
  }

  /** What the engine does with a pattern text: an unreadable one matches nothing. */
  predicate Accepts(x: Syntax, fold: char -> char, pattern: string, s: string) {
    Read(x, pattern).Some? && Matches(fold, Read(x, pattern).value, s)
  }

  function Lits(t: string): (p: seq<Elem>) {
    seq(|t|, i requires 0 <= i < |t| => Lit(t[i]))
  }

  // ----- The three replacements are one character-wise escape -----

  function EscapeChar(x: Syntax, c: char): string {
    if IsMeta(x, c) then ['\\', c] else [c]
  }

  lemma {:induction false} EscapeCons(x: Syntax, text: string)
    requires Proper(x) && text != ""
    ensures Escape(x, text) == EscapeChar(x, text[0]) + Escape(x, text[1..])
  {
    var c := text[0];
    assert text == [c] + text[1..];
    var one := Replace([c], '\\', "\\\\");
    ReplaceKeeps([c], '\\', "\\\\");
    assert one == if c == '\\' then "\\\\" else [c];
    var rest := Replace(text[1..], '\\', "\\\\");
    assert Replace(text, '\\', "\\\\") == one + rest;
    var two := Replace(one, x.many, ['\\', x.many]);
    ReplaceAppend(one, rest, x.many, ['\\', x.many]);
    ReplaceKeeps(one, x.many, ['\\', x.many]);
    ReplaceAppend(two, Replace(rest, x.many, ['\\', x.many]), x.one, ['\\', x.one]);
    ReplaceKeeps(two, x.one, ['\\', x.one]);
  }

  /** Replacing inside a text of one or two characters. */
  lemma ReplaceKeeps(s: string, c: char, put: string)
    ensures |s| == 1 ==> Replace(s, c, put) == if s[0] == c then put else s
    ensures |s| == 2 && s[0] != c && s[1] != c ==> Replace(s, c, put) == s
    ensures |s| == 2 && s[0] != c && s[1] == c ==> Replace(s, c, put) == [s[0]] + put
  {
    if |s| == 1 {
      assert s[1..] == "" && [s[0]] == s;
    } else if |s| == 2 {
      assert s[1..][1..] == "";
      assert Replace(s[1..], c, put) == if s[1] == c then put else [s[1]];
    }
  }

  // ----- Reading back -----

  lemma ReadEscapedChar(x: Syntax, c: char, rest: string)
    requires Proper(x)
    ensures Read(x, EscapeChar(x, c) + rest) == Prepend(Lit(c), Read(x, rest))
  {
    var text := EscapeChar(x, c) + rest;
    if IsMeta(x, c) {
      assert text[0] == '\\' && text[1] == c && text[2..] == rest;
    } else {
      assert text[0] == c && text[1..] == rest;
    }
  }

  lemma ReadMany(x: Syntax)
    requires Proper(x)
    ensures Read(x, [x.many]) == Some([Many])
  {
    assert [x.many][1..] == "";
    assert [Many] + [] == [Many];
  }

  lemma {:induction false} ReadEscaped(x: Syntax, t: string, rest: string)
    requires Proper(x) && Read(x, rest).Some?
    ensures Read(x, Escape(x, t) + rest) == Some(Lits(t) + Read(x, rest).value)
  {
    if t == "" {
      assert Escape(x, t) + rest == rest;
      assert Lits(t) + Read(x, rest).value == Read(x, rest).value;
    } else {
      EscapeCons(x, t);
      ReadEscaped(x, t[1..], rest);
      ReadEscapedChar(x, t[0], Escape(x, t[1..]) + rest);
      hide Escape, EscapeChar, Read, Lits;
      Associates(EscapeChar(x, t[0]), Escape(x, t[1..]), rest);
      LitsCons(t);
      Associates([Lit(t[0])], Lits(t[1..]), Read(x, rest).value);
    }
  }

  lemma Associates<T>(a: seq<T>, b: seq<T>, c: seq<T>)
    ensures (a + b) + c == a + (b + c)
  {
  }

  lemma LitsCons(t: string)
    requires t != ""
    ensures Lits(t) == [Lit(t[0])] + Lits(t[1..])
  {
  }

  // ----- Matching -----

  lemma {:induction false} MatchesLits(fold: char -> char, t: string, p: seq<Elem>, s: string)
    ensures Matches(fold, Lits(t) + p, s)
       <==> |t| <= |s| && Lower(fold, s[..|t|]) == Lower(fold, t) && Matches(fold, p, s[|t|..])
  {
    if t == "" {
      assert Lits(t) + p == p && s[|t|..] == s;
    } else {
      var q := Lits(t) + p;
      assert q[0] == Lit(t[0]) && q[1..] == Lits(t[1..]) + p;
      if s != "" {
        MatchesLits(fold, t[1..], p, s[1..]);
        if |t| <= |s| {
          assert s[1..][|t[1..]|..] == s[|t|..];
          var u, v := s[..|t|], s[1..][..|t[1..]|];
          assert v == u[1..];
          assert Lower(fold, u) == [fold(u[0])] + Lower(fold, v);
          assert Lower(fold, t) == [fold(t[0])] + Lower(fold, t[1..]);
        }
      }
    }
  }

  lemma {:induction false} MatchesMany(fold: char -> char, p: seq<Elem>, s: string)
    ensures Matches(fold, [Many] + p, s) <==> exists i: nat :: i <= |s| && Matches(fold, p, s[i..])
    decreases |s|
  {
    var q := [Many] + p;
    assert q[1..] == p && s[0..] == s;
    if s != "" {
      MatchesMany(fold, p, s[1..]);
      if i: nat :| i <= |s[1..]| && Matches(fold, p, s[1..][i..]) {
        assert s[1..][i..] == s[i + 1..];
      }
      if i: nat :| 0 < i <= |s| && Matches(fold, p, s[i..]) {
        assert s[1..][i - 1..] == s[i..];
      }
    }
  }

  /** `*` + escape(t) + `*` accepts exactly the texts in which t occurs. */
  lemma ContainsPattern(x: Syntax, fold: char -> char, t: string, s: string)
    requires Proper(x)
    ensures Accepts(x, fold, [x.many] + Escape(x, t) + [x.many], s)
       <==> Occurs(Lower(fold, t), Lower(fold, s))
  {
    var tail := [x.many];
    ReadMany(x);
    ReadEscaped(x, t, tail);
    var pattern := [x.many] + Escape(x, t) + tail;
    assert pattern[1..] == Escape(x, t) + tail;
    var p := Lits(t) + [Many];
    assert Read(x, pattern) == Some([Many] + p);
    MatchesMany(fold, p, s);
    forall i: nat | i <= |s|
      ensures Matches(fold, p, s[i..]) <==> OccursAt(Lower(fold, t), Lower(fold, s), i)
    {
      MatchesLits(fold, t, [Many], s[i..]);
      if |t| <= |s[i..]| {
        MatchesMany(fold, [], s[i..][|t|..]);
        assert [Many] + [] == [Many];
        var k := |s[i..][|t|..]|;
        assert s[i..][|t|..][k..] == "";
        assert s[i..][..|t|] == s[i..i + |t|];
        LowerSlice(fold, s, i, i + |t|);
      }
    }
  }

  /** `*` + escape(t) accepts exactly the texts that end with t. */
  lemma EndPattern(x: Syntax, fold: char -> char, t: string, s: string)
    requires Proper(x)
    ensures Accepts(x, fold, [x.many] + Escape(x, t), s)
       <==> EndsWith(Lower(fold, s), Lower(fold, t))
  {
    ReadEscaped(x, t, "");
    assert Escape(x, t) + "" == Escape(x, t);
    assert Lits(t) + [] == Lits(t);
    var pattern := [x.many] + Escape(x, t);
    assert pattern[1..] == Escape(x, t);
    assert Read(x, pattern) == Some([Many] + Lits(t));
    MatchesMany(fold, Lits(t), s);
    forall i: nat | i <= |s|
      ensures Matches(fold, Lits(t), s[i..])
         <==> |t| == |s| - i && Lower(fold, s)[i..] == Lower(fold, t)
    {
      MatchesLits(fold, t, [], s[i..]);
      if |t| == |s| - i {
        assert s[i..][..|t|] == s[i..];
        LowerSlice(fold, s, i, |s|);
        assert Lower(fold, s)[i..] == Lower(fold, s)[i..|s|];
      }
    }
    if EndsWith(Lower(fold, s), Lower(fold, t)) {
      assert Matches(fold, Lits(t), s[|s| - |t|..]);
    }
  }

  /** escape(t) + `*` accepts exactly the texts that start with t. */
  lemma StartPattern(x: Syntax, fold: char -> char, t: string, s: string)
    requires Proper(x)
    ensures Accepts(x, fold, Escape(x, t) + [x.many], s)
       <==> Lower(fold, t) <= Lower(fold, s)
  {
    var tail := [x.many];
    ReadMany(x);
    ReadEscaped(x, t, tail);
    MatchesLits(fold, t, [Many], s);
    if |t| <= |s| {
      MatchesMany(fold, [], s[|t|..]);
      assert [Many] + [] == [Many];
      assert s[|t|..][|s| - |t|..] == "";
      LowerSlice(fold, s, 0, |t|);
      assert Lower(fold, s)[0..|t|] == Lower(fold, s)[..|t|];
    }
  }
}
