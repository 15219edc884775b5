/** The expressions that name the variables of a canvas. */
module VariableNames {
  import opened Text

  /** What an expression names: a global, or keys below an output of a component. */
  datatype Target = Global(name: string) | Output(cpn: string, root: string, keys: seq<string>)

  function StripOff(s: string, c: char): (r: string)
    ensures |r| <= |s|
  {
    if s != "" && s[0] == c then StripOff(s[1..], c)
    else if s != "" && s[|s| - 1] == c then StripOff(s[..|s| - 1], c)
    else s
  }

  /** Strips braces, blanks and braces again. */
  function Bare(exp: string): string {
    StripOff(StripOff(StripOff(StripOff(StripOff(exp, '{'), '}'), ' '), '{'), '}')
  }

  /** `s.split(c, 1)`: the text before the first `c`, and the text after it if any. */
  function Cut(s: string, c: char): (string, Option<string>) {
    if s == "" then ("", None)
    else if s[0] == c then ("", Some(s[1..]))
    else
      var (before, after) := Cut(s[1..], c);
      ([s[0]] + before, after)
  }

  function Parse(exp: string): Target {
    var bare := Bare(exp);
    var (cpn, name) := Cut(bare, '@');
    if name.None? then Global(bare)
    else
      var (root, rest) := Cut(name.value, '.');
      Output(cpn, root, if rest.None? || rest.value == "" then [] else Split(rest.value, '.'))
  }

  function Join(keys: seq<string>, c: char): string {
    if keys == [] then "" else if |keys| == 1 then keys[0] else keys[0] + [c] + Join(keys[1..], c)
  }

  /** The expression that names a target. */
  function Spell(t: Target): string {
    match t
    case Global(name) => name
    case Output(cpn, root, keys) => cpn + "@" + root + (if keys == [] then "" else "." + Join(keys, '.'))
  }

  predicate IsEdge(c: char) {
    c == '{' || c == '}' || c == ' '
  }

  /** The targets that some expression names as written. */
  predicate Spellable(t: Target) {
    && (var exp := Spell(t); exp != "" && !IsEdge(exp[0]) && !IsEdge(exp[|exp| - 1]))
    && match t
       case Global(name) => '@' !in name
       case Output(cpn, root, keys) =>
         '@' !in cpn && '.' !in root && keys != [""] && forall k :: 0 <= k < |keys| ==> '.' !in keys[k]
  }

  lemma {:induction false} CutBefore(a: string, c: char, b: string)
    requires c !in a
    ensures Cut(a + [c] + b, c) == (a, Some(b))
    ensures Cut(a, c) == (a, None)
  {
    if a == "" {
      assert a + [c] + b == [c] + b && ([c] + b)[1..] == b;
    } else {
      assert (a + [c] + b)[1..] == a[1..] + [c] + b && [a[0]] + a[1..] == a;
      CutBefore(a[1..], c, b);
    }
  }

  lemma {:induction false} SplitAt(a: string, c: char, b: string)
    requires c !in a
    ensures Split(a, c) == [a] && Split(a + [c] + b, c) == [a] + Split(b, c)
  {
    if a == "" {
      assert a + [c] + b == [c] + b && ([c] + b)[1..] == b;
    } else {
      assert (a + [c] + b)[1..] == a[1..] + [c] + b && [a[0]] + a[1..] == a;
      SplitAt(a[1..], c, b);
    }
  }

  lemma {:induction false} SplitJoin(keys: seq<string>, c: char)
    requires keys != [] && forall k :: 0 <= k < |keys| ==> c !in keys[k]
    ensures Split(Join(keys, c), c) == keys
  {
    if |keys| == 1 {
      SplitAt(keys[0], c, "");
    } else {
      SplitJoin(keys[1..], c);
      SplitAt(keys[0], c, Join(keys[1..], c));
      assert [keys[0]] + keys[1..] == keys;
    }
  }

  lemma {:induction false} StripsFront(front: string, s: string, c: char)
    requires forall k :: 0 <= k < |front| ==> front[k] == c
    requires s != "" && s[0] != c && s[|s| - 1] != c
    ensures StripOff(front + s, c) == s
  {
    if front == "" {
      assert front + s == s;
    } else {
      assert (front + s)[1..] == front[1..] + s;
      StripsFront(front[1..], s, c);
    }
  }

  lemma {:induction false} StripsBack(s: string, back: string, c: char)
    requires forall k :: 0 <= k < |back| ==> back[k] == c
    requires s != "" && s[0] != c && s[|s| - 1] != c
    ensures StripOff(s + back, c) == s
  {
    if back == "" {
      assert s + back == s;
    } else {
      assert (s + back)[..|s + back| - 1] == s + back[..|back| - 1];
      StripsBack(s, back[..|back| - 1], c);
    }
  }

  lemma BareOf(opens: string, s: string, closes: string)
    requires forall k :: 0 <= k < |opens| ==> opens[k] == '{'
    requires forall k :: 0 <= k < |closes| ==> closes[k] == '}'
    requires s != "" && !IsEdge(s[0]) && !IsEdge(s[|s| - 1])
    ensures Bare(opens + s + closes) == s
  {
    hide StripOff;
    assert opens + s + closes == opens + (s + closes);
    StripsFront(opens, s + closes, '{');
    StripsBack(s, closes, '}');
    assert "" + s == s;
    StripsFront("", s, ' ');
    StripsFront("", s, '{');
    StripsFront("", s, '}');
  }

  /** An expression in any number of braces names the target it spells. */
  lemma ParseSpell(t: Target, opens: string, closes: string)
    requires Spellable(t)
    requires forall k :: 0 <= k < |opens| ==> opens[k] == '{'
    requires forall k :: 0 <= k < |closes| ==> closes[k] == '}'
    ensures Parse(opens + Spell(t) + closes) == t
  {
    hide Bare;
    BareOf(opens, Spell(t), closes);
    match t
    case Global(name) => CutBefore(name, '@', "");
    case Output(cpn, root, keys) =>
      var tail := if keys == [] then "" else "." + Join(keys, '.');
      assert Spell(t) == cpn + "@" + (root + tail);
      CutBefore(cpn, '@', root + tail);
      if keys == [] {
        assert root + tail == root;
        CutBefore(root, '.', "");
      } else {
        assert root + tail == root + "." + Join(keys, '.');
        CutBefore(root, '.', Join(keys, '.'));
        SplitJoin(keys, '.');
        assert Split("", '.') == [""];
      }
  }
}
