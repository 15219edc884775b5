/** What the migration does to the variable references inside a text. */
module DslReferences {
  import opened Text
  import opened DslMigration

  predicate AllIn(k: Class, s: string) {
    forall i :: 0 <= i < |s| ==> In(k, s[i])
  }

  predicate Stops(k: Class, s: string) {
    s == "" || !In(k, s[0])
  }

  lemma {:induction false} SpanTo(k: Class, s: string, i: nat, end: nat)
    requires i <= end <= |s| && (forall p :: i <= p < end ==> In(k, s[p]))
    requires end < |s| ==> !In(k, s[end])
    ensures Span(k, s, i) == end
    decreases end - i
  {
    if i < end {
      SpanTo(k, s, i + 1, end);
    }
  }

  /** A written reference: braces, blanks, an id, a name, blanks, braces. */
  datatype Written = Written(opens: string, before: string, id: string, name: string, after: string, closes: string)

  /** Some characters in a row, from a first one on. */
  function Row(first: char, n: nat): (r: string)
    requires first as int + n <= 128
    ensures |r| == n
  {
    seq(n, i requires 0 <= i < n => (first as int + i) as char)
  }

  lemma RowHas(first: char, n: nat, c: char)
    requires first as int + n <= 128
    ensures c in Row(first, n) <==> first as int <= c as int < first as int + n
  {
    if first as int <= c as int < first as int + n {
      assert Row(first, n)[c as int - first as int] == c;
    }
  }

  /** The characters of the pattern. */
  lemma ClassesAre(c: char)
    ensures In(IdChar, c) <==> c in Row('A', 26) || c in Row('a', 26) || c in Row('0', 10) || c in ":_-"
    ensures In(NameChar, c) <==> c in Row('A', 26) || c in Row('a', 26) || c in Row('0', 10) || c in "._-"
    ensures In(Blank, c) <==> c in " \t\n\U{b}\U{c}\r\U{1c}\U{1d}\U{1e}\U{1f}"
    ensures In(Opening, c) <==> c in "{"
    ensures In(Closing, c) <==> c in "}"
  {
    RowHas('A', 26, c);
    RowHas('a', 26, c);
    RowHas('0', 10, c);
    hide Row;
  }

  predicate Proper(w: Written) {
    && w.opens != "" && AllIn(Opening, w.opens) && AllIn(Blank, w.before)
    && w.id != "" && AllIn(IdChar, w.id) && w.name != "" && AllIn(NameChar, w.name)
    && AllIn(Blank, w.after) && w.closes != "" && AllIn(Closing, w.closes)
  }

  function Spell(w: Written): string {
    w.opens + w.before + w.id + "@" + w.name + w.after + w.closes
  }

  /** A text that has a reference in front, laid out by where its parts end. */
  ghost predicate Laid(w: Written, s: string, o: seq<nat>) {
    && |o| == 6 && o[0] == |w.opens| && o[1] == o[0] + |w.before| && o[2] == o[1] + |w.id|
    && o[3] == o[2] + 1 + |w.name| && o[4] == o[3] + |w.after| && o[5] == o[4] + |w.closes| <= |s|
    && s[..o[0]] == w.opens && s[o[0]..o[1]] == w.before && s[o[1]..o[2]] == w.id
    && s[o[2]] == '@' && s[o[2] + 1..o[3]] == w.name && s[o[3]..o[4]] == w.after && s[o[4]..o[5]] == w.closes
  }

  lemma Middle(a: string, b: string, c: string)
    ensures (a + b + c)[|a|..|a| + |b|] == b && (a + b + c)[..|a|] == a
  {
  }

  lemma Lay(w: Written, rest: string) returns (o: seq<nat>)
    ensures Laid(w, Spell(w) + rest, o) && o[5] == |Spell(w)|
  {
    var a := w.opens + w.before;
    var b := a + w.id;
    var c := b + "@" + w.name;
    var d := c + w.after;
    o := [|w.opens|, |a|, |b|, |c|, |d|, |d + w.closes|];
    var s := d + w.closes + rest;
    Middle(d, w.closes, rest);
    assert s[..o[4]] == d;
    InPrefix(s, d, c, w.after);
    InPrefix(s, c, b + "@", w.name);
    InPrefix(s, b + "@", b, "@");
    InPrefix(s, b, a, w.id);
    InPrefix(s, a, w.opens, w.before);
    assert s[o[2]] == s[|b|..|b| + 1][0];
  }

  lemma InPrefix(s: string, longer: string, a: string, b: string)
    requires longer == a + b && |longer| <= |s| && s[..|longer|] == longer
    ensures s[..|a|] == a && s[|a|..|a| + |b|] == b
  {
    assert s[..|a|] == s[..|longer|][..|a|];
    assert s[|a|..|a| + |b|] == s[..|longer|][|a|..];
  }

  lemma RunSpans(k: Class, s: string, i: nat, end: nat, run: string)
    requires i <= end <= |s| && s[i..end] == run && AllIn(k, run)
    requires end < |s| ==> !In(k, s[end])
    ensures Span(k, s, i) == end
  {
    hide In;
    forall p | i <= p < end ensures In(k, s[p]) {
      assert s[p] == s[i..end][p - i];
    }
    SpanTo(k, s, i, end);
  }

  lemma FirstIn(k: Class, s: string, i: nat, end: nat, run: string)
    requires i < end <= |s| && s[i..end] == run && AllIn(k, run)
    ensures In(k, s[i])
  {
    hide In;
    assert s[i] == s[i..end][0];
  }

  lemma FrontSpans(w: Written, s: string, o: seq<nat>)
    requires Proper(w) && Laid(w, s, o)
    ensures Span(Opening, s, 0) == o[0] && Span(Blank, s, o[0]) == o[1] && Span(IdChar, s, o[1]) == o[2]
  {
    hide Span, AllIn;
    FirstIn(IdChar, s, o[1], o[2], w.id);
    if w.before != "" {
      FirstIn(Blank, s, o[0], o[1], w.before);
    }
    RunSpans(Opening, s, 0, o[0], w.opens);
    RunSpans(Blank, s, o[0], o[1], w.before);
    RunSpans(IdChar, s, o[1], o[2], w.id);
  }

  lemma BackSpans(w: Written, s: string, o: seq<nat>)
    requires Proper(w) && Laid(w, s, o) && Stops(Closing, s[o[5]..])
    ensures Span(NameChar, s, o[2] + 1) == o[3] && Span(Blank, s, o[3]) == o[4] && Span(Closing, s, o[4]) == o[5]
  {
    hide Span, AllIn;
    FirstIn(Closing, s, o[4], o[5], w.closes);
    if w.after != "" {
      FirstIn(Blank, s, o[3], o[4], w.after);
    }
    assert o[5] < |s| ==> s[o[5]] == s[o[5]..][0];
    RunSpans(NameChar, s, o[2] + 1, o[3], w.name);
    RunSpans(Blank, s, o[3], o[4], w.after);
    RunSpans(Closing, s, o[4], o[5], w.closes);
  }

  lemma RefFound(w: Written, s: string, o: seq<nat>)
    requires Proper(w) && Laid(w, s, o) && Stops(Closing, s[o[5]..])
    ensures RefAtFront(s) == Some(Ref(o[1], o[2], o[5]))
  {
    hide Span, AllIn, In;
    FrontSpans(w, s, o);
    BackSpans(w, s, o);
  }

  /** A reference anywhere in a text keeps its braces, blanks and name; its id is mapped. */
  lemma {:induction false} ReferenceIsMapped(m: IdMap, plain: string, w: Written, rest: string)
    requires '{' !in plain && Proper(w) && Stops(Closing, rest)
    ensures Substitute(m, plain + (Spell(w) + rest))
         == plain + (Spell(w.(id := MapId(m, w.id))) + Substitute(m, rest))
    decreases |plain|
  {
    hide RefAtFront, Spell, Proper, MapId;
    if plain == "" {
      ReferenceStep(m, w, rest);
      assert plain + (Spell(w) + rest) == Spell(w) + rest;
    } else {
      CopiesPlain(m, plain, Spell(w) + rest);
      ReferenceIsMapped(m, plain[1..], w, rest);
    }
  }

  /** `rewrite_variable_refs`: a text that is itself an id is renamed as a whole; in
      any other one, a reference keeps its braces, blanks and name and gets its id mapped. */
  lemma TextIsMapped(m: IdMap, plain: string, w: Written, rest: string)
    requires '{' !in plain && Proper(w) && Stops(Closing, rest)
    ensures var text := plain + (Spell(w) + rest);
            RewriteText(m, text) ==
            if text in m then m[text]
            else plain + (Spell(w.(id := MapId(m, w.id))) + Substitute(m, rest))
  {
    hide Substitute, Spell, Proper;
    ReferenceIsMapped(m, plain, w, rest);
  }

  lemma CopiesPlain(m: IdMap, plain: string, t: string)
    requires plain != "" && '{' !in plain
    ensures Substitute(m, plain + t) == [plain[0]] + Substitute(m, plain[1..] + t)
  {
    hide RefAtFront;
    NoBraceNoRef(plain + t);
    assert (plain + t)[1..] == plain[1..] + t;
  }

  lemma ReferenceStep(m: IdMap, w: Written, rest: string)
    requires Proper(w) && Stops(Closing, rest)
    ensures Substitute(m, Spell(w) + rest) == Spell(w.(id := MapId(m, w.id))) + Substitute(m, rest)
  {
    hide RefAtFront, MapId, Spell;
    var s := Spell(w) + rest;
    var o := Lay(w, rest);
    assert s[o[5]..] == rest;
    RefFound(w, s, o);
    Reassembled(w, s, o, MapId(m, w.id));
    assert s[o[1]..o[2]] == w.id;
    assert s != "";
  }

  lemma Reassembled(w: Written, s: string, o: seq<nat>, id: string)
    requires Laid(w, s, o)
    ensures s[..o[1]] + id + s[o[2]..o[5]] == Spell(w.(id := id))
  {
    assert s[..o[1]] == w.opens + w.before;
    assert s[o[2]..o[5]] == "@" + w.name + w.after + w.closes by {
      assert s[o[2]..o[2] + 1] == "@";
      assert s[o[2]..o[5]] == s[o[2]..o[2] + 1] + s[o[2] + 1..o[3]] + s[o[3]..o[4]] + s[o[4]..o[5]];
    }
    Flatten(w.opens + w.before, id, "@", w.name, w.after, w.closes);
  }

  lemma Flatten(a: string, b: string, c: string, d: string, e: string, f: string)
    ensures a + b + (c + d + e + f) == a + b + c + d + e + f
  {
  }

  lemma NoBraceNoRef(s: string)
    requires s == "" || s[0] != '{'
    ensures RefAtFront(s).None?
  {
  }

  /** Text without braces holds no reference. */
  lemma {:induction false} PlainTextStays(m: IdMap, s: string)
    requires '{' !in s
    ensures Substitute(m, s) == s
  {
    hide RefAtFront;
    if s != "" {
      NoBraceNoRef(s);
      PlainTextStays(m, s[1..]);
    }
  }
}
