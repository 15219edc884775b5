/** The image of a text, and of a tree of values, under a renaming of ids: what the
    migration must make of them, told without its passes. */
module DslTexts {
  import opened Text
  import opened Json
  import opened DslMigration
  import opened DslIdempotence
  import opened DslReferences

  // ----- Ids -----

  /** An old operator's name before the colon is replaced, and nothing else. */
  lemma NewIdMeans(rest: string, id: string)
    ensures NewId("Splitter:" + rest) == "TokenChunker:" + rest
    ensures NewId("HierarchicalMerger:" + rest) == "TitleChunker:" + rest
    ensures NewId("PDFGenerator:" + rest) == "DocGenerator:" + rest
    ensures !("Splitter:" <= id) && !("HierarchicalMerger:" <= id) && !("PDFGenerator:" <= id) ==> NewId(id) == id
  {
    PrefixTaken("Splitter:", rest);
    PrefixTaken("HierarchicalMerger:", rest);
    PrefixTaken("PDFGenerator:", rest);
    assert ("HierarchicalMerger:" + rest)[0] == 'H' && ("PDFGenerator:" + rest)[0] == 'P';
    assert "Splitter:"[0] == 'S' && "HierarchicalMerger:"[0] == 'H';
    SameInitial("HierarchicalMerger:" + rest, "Splitter:");
    SameInitial("PDFGenerator:" + rest, "Splitter:");
    SameInitial("PDFGenerator:" + rest, "HierarchicalMerger:");
    StartsMeans(id, "Splitter:");
    StartsMeans(id, "HierarchicalMerger:");
    StartsMeans(id, "PDFGenerator:");
  }

  lemma PrefixTaken(prefix: string, rest: string)
    ensures StartsWith(prefix + rest, prefix) && (prefix + rest)[|prefix|..] == rest
  {
  }

  lemma StartsMeans(s: string, prefix: string)
    ensures StartsWith(s, prefix) <==> prefix <= s
  {
  }

  /** The id of a component is renamed; anything else is no id. */
  function MappedId(ids: seq<string>, id: string): string {
    if id in ids then NewId(id) else id
  }

  ghost predicate MapsIds(m: IdMap, ids: seq<string>) {
    forall id :: (id in m <==> id in ids) && (id in m ==> m[id] == NewId(id))
  }

  lemma MapOfComponents(components: seq<Field>)
    ensures MapsIds(IdMapOf(components), Keys(components))
  {
    hide NewId;
  }

  // ----- Texts -----

  datatype Segment = Plain(c: char) | Mention(w: Written)

  ghost predicate HasReferenceInFront(s: string) {
    exists w, rest :: Proper(w) && s == Spell(w) + rest
  }

  ghost predicate InFront(w: Written, s: string) {
    var n := |Spell(w)|;
    Proper(w) && n <= |s| && s[..n] == Spell(w) && Stops(Closing, s[n..])
  }

  /** A text taken apart from the left: a reference wherever one begins, with all of its
      closing braces, and single characters between them. */
  ghost predicate Reads(segments: seq<Segment>, s: string)
    decreases |segments|
  {
    if segments == [] then s == ""
    else
      match segments[0]
      case Plain(c) => s != "" && s[0] == c && !HasReferenceInFront(s) && Reads(segments[1..], s[1..])
      case Mention(w) => InFront(w, s) && Reads(segments[1..], s[|Spell(w)|..])
  }

  /** The text with the id of every reference mapped. */
  function Respelled(ids: seq<string>, segments: seq<Segment>): string {
    if segments == [] then ""
    else
      (match segments[0]
       case Plain(c) => [c]
       case Mention(w) => Spell(w.(id := MappedId(ids, w.id))))
      + Respelled(ids, segments[1..])
  }

  /** A text that is an id is renamed as a whole; any other one reference by reference. */
  ghost predicate TextImage(ids: seq<string>, s: string, t: string) {
    if s in ids then t == NewId(s) else exists segments :: Reads(segments, s) && t == Respelled(ids, segments)
  }

  lemma FrontParts(s: string) returns (a: nat, b: nat, c: nat, d: nat, e: nat, f: nat)
    requires RefAtFront(s).Some?
    ensures 0 < a <= b < c < |s| && s[c] == '@' && c + 1 < d <= e < f <= |s|
    ensures a == Span(Opening, s, 0) && b == Span(Blank, s, a) && c == Span(IdChar, s, b)
    ensures d == Span(NameChar, s, c + 1) && e == Span(Blank, s, d) && f == Span(Closing, s, e)
    ensures RefAtFront(s) == Some(Ref(b, c, f))
  {
    hide Span, In;
    a := Span(Opening, s, 0);
    b := Span(Blank, s, a);
    c := Span(IdChar, s, b);
    d := Span(NameChar, s, c + 1);
    e := Span(Blank, s, d);
    f := Span(Closing, s, e);
  }

  lemma FrontWritten(s: string) returns (w: Written)
    requires RefAtFront(s).Some?
    ensures var Ref(begin, mid, end) := RefAtFront(s).value;
            InFront(w, s) && |Spell(w)| == end && w.id == s[begin..mid]
  {
    hide Span, In, AllIn, RefAtFront, Stops, Spell;
    var a, b, c, d, e, f := FrontParts(s);
    SpanIsIn(Opening, s, 0, a);
    SpanIsIn(Blank, s, a, b);
    SpanIsIn(IdChar, s, b, c);
    SpanIsIn(NameChar, s, c + 1, d);
    SpanIsIn(Blank, s, d, e);
    SpanIsIn(Closing, s, e, f);
    w := Written(s[0..a], s[a..b], s[b..c], s[c + 1..d], s[d..e], s[e..f]);
    SpelledFront(s, a, b, c, d, e, f);
  }

  lemma SpelledFront(s: string, a: nat, b: nat, c: nat, d: nat, e: nat, f: nat)
    requires a <= b <= c < d <= e <= f <= |s| && s[c] == '@'
    ensures Spell(Written(s[0..a], s[a..b], s[b..c], s[c + 1..d], s[d..e], s[e..f])) == s[..f]
  {
    SixPieces(s, a, b, c, d, e, f);
    assert s[0..a] == s[..a];
  }

  lemma SpanIsIn(k: Class, s: string, i: nat, end: nat)
    requires i <= |s| && Span(k, s, i) == end
    ensures AllIn(k, s[i..end]) && Stops(k, s[end..])
  {
    hide In;
    forall p | 0 <= p < end - i ensures In(k, s[i..end][p]) {
      assert s[i..end][p] == s[i + p];
    }
    assert end < |s| ==> s[end..][0] == s[end];
  }

  lemma SixPieces(s: string, a: nat, b: nat, c: nat, d: nat, e: nat, f: nat)
    requires a <= b <= c < d <= e <= f <= |s| && s[c] == '@'
    ensures s[..a] + s[a..b] + s[b..c] + "@" + s[c + 1..d] + s[d..e] + s[e..f] == s[..f]
  {
    assert s[c..c + 1] == "@";
    assert s[..a] + s[a..b] == s[..b];
    assert s[..b] + s[b..c] == s[..c];
    assert s[..c] + "@" == s[..c + 1];
    assert s[..c + 1] + s[c + 1..d] == s[..d];
    assert s[..d] + s[d..e] == s[..e];
    assert s[..e] + s[e..f] == s[..f];
  }

  /** A reference in front is found, however many braces follow it. */
  lemma FrontFound(w: Written, rest: string)
    requires Proper(w)
    ensures RefAtFront(Spell(w) + rest).Some?
  {
    var n := Span(Closing, rest, 0);
    var longer := w.(closes := w.closes + rest[..n]);
    assert Spell(longer) + rest[n..] == Spell(w) + rest by {
      assert rest == rest[..n] + rest[n..];
      Tail(w.opens + w.before + w.id + "@" + w.name + w.after, w.closes, rest[..n], rest[n..]);
    }
    assert AllIn(Closing, longer.closes) by {
      hide In;
    }
    var s := Spell(longer) + rest[n..];
    var o := Lay(longer, rest[n..]);
    assert s[o[5]..] == rest[n..];
    assert n < |rest| ==> rest[n..][0] == rest[n];
    hide Spell, RefAtFront;
    RefFound(longer, s, o);
  }

  lemma Tail(a: string, b: string, c: string, d: string)
    ensures (a + (b + c)) + d == (a + b) + (c + d)
  {
  }

  /** What the substitution does to any text. */
  lemma {:induction false} SubstituteIsImage(m: IdMap, ids: seq<string>, s: string) returns (segments: seq<Segment>)
    requires MapsIds(m, ids)
    ensures Reads(segments, s) && Substitute(m, s) == Respelled(ids, segments)
    decreases |s|
  {
    hide RefAtFront, Spell, InFront, HasReferenceInFront, NewId;
    if s == "" {
      segments := [];
    } else if RefAtFront(s).None? {
      NoReference(s);
      var more := SubstituteIsImage(m, ids, s[1..]);
      segments := [Plain(s[0])] + more;
    } else {
      var w := FrontWritten(s);
      var Ref(begin, mid, end) := RefAtFront(s).value;
      var more := SubstituteIsImage(m, ids, s[end..]);
      segments := [Mention(w)] + more;
      MentionRespelled(w, s, begin, mid, end, MappedId(ids, w.id));
    }
  }

  lemma NoReference(s: string)
    requires RefAtFront(s).None?
    ensures !HasReferenceInFront(s)
  {
    if w, rest :| Proper(w) && s == Spell(w) + rest {
      FrontFound(w, rest);
    }
  }

  lemma MentionRespelled(w: Written, s: string, begin: nat, mid: nat, end: nat, id: string)
    requires RefAtFront(s) == Some(Ref(begin, mid, end)) && InFront(w, s) && |Spell(w)| == end
    ensures s[..begin] + id + s[mid..end] == Spell(w.(id := id))
  {
    hide RefAtFront, Spell;
    var rest := s[end..];
    assert s == Spell(w) + rest;
    var o := Lay(w, rest);
    RefFound(w, s, o);
    Reassembled(w, s, o, id);
  }

  // ----- There is one way to take a text apart -----

  lemma OneReference(v: Written, w: Written, s: string)
    requires InFront(v, s) && InFront(w, s)
    ensures v == w
  {
    hide Spell, Laid, Span, Stops, AllIn;
    var o := LayInFront(v, s);
    var p := LayInFront(w, s);
    assert o == [o[0], o[1], o[2], o[3], o[4], o[5]] && p == [p[0], p[1], p[2], p[3], p[4], p[5]];
    SameLaid(v, w, s, o, p);
  }

  lemma LayInFront(w: Written, s: string) returns (o: seq<nat>)
    requires InFront(w, s)
    ensures Laid(w, s, o) && |o| == 6 && o[5] <= |s|
    ensures o[0] == Span(Opening, s, 0) <= o[1] && o[1] == Span(Blank, s, o[0]) && o[1] <= o[2] == Span(IdChar, s, o[1])
    ensures o[2] < o[3] == Span(NameChar, s, o[2] + 1) && o[3] <= o[4] == Span(Blank, s, o[3])
    ensures o[4] <= o[5] == Span(Closing, s, o[4])
  {
    hide Spell, Span, AllIn;
    var n := |Spell(w)|;
    assert s == Spell(w) + s[n..];
    o := Lay(w, s[n..]);
    FrontSpans(w, s, o);
    BackSpans(w, s, o);
  }

  lemma SameLaid(v: Written, w: Written, s: string, o: seq<nat>, p: seq<nat>)
    requires Laid(v, s, o) && Laid(w, s, p) && o == p
    ensures v == w
  {
  }

  lemma {:induction false} OneReading(a: seq<Segment>, b: seq<Segment>, s: string)
    requires Reads(a, s) && Reads(b, s)
    ensures a == b
    decreases |a|
  {
    hide HasReferenceInFront, InFront, Spell;
    if a != [] {
      SomeText(a, s);
      if b != [] {
        if a[0].Mention? && b[0].Mention? {
          OneReference(a[0].w, b[0].w, s);
        } else if a[0].Mention? {
          ReferenceIsThere(a[0].w, s);
        } else if b[0].Mention? {
          ReferenceIsThere(b[0].w, s);
        }
        if a[0].Plain? {
          OneReading(a[1..], b[1..], s[1..]);
        } else {
          Fits(a[0].w, s);
          OneReading(a[1..], b[1..], s[|Spell(a[0].w)|..]);
        }
        assert a == [a[0]] + a[1..] && b == [b[0]] + b[1..];
      }
    } else if b != [] {
      SomeText(b, s);
    }
  }

  lemma Fits(w: Written, s: string)
    requires InFront(w, s)
    ensures 0 < |Spell(w)| <= |s|
  {
  }

  lemma SomeText(a: seq<Segment>, s: string)
    requires Reads(a, s) && a != []
    ensures s != ""
  {
  }

  lemma ReferenceIsThere(w: Written, s: string)
    requires InFront(w, s)
    ensures HasReferenceInFront(s)
  {
    assert s == Spell(w) + s[|Spell(w)|..];
  }

  /** A text has one image. */
  lemma OneImage(ids: seq<string>, s: string, t: string, u: string)
    requires TextImage(ids, s, t) && TextImage(ids, s, u)
    ensures t == u
  {
    hide Reads, Respelled, NewId;
    if s !in ids {
      var a :| Reads(a, s) && t == Respelled(ids, a);
      var b :| Reads(b, s) && u == Respelled(ids, b);
      OneReading(a, b, s);
    }
  }

  // ----- Trees -----

  /** Every text in a tree of lists and dictionaries is replaced by its image; kinds,
      lengths, keys and all other values stay. */
  ghost predicate TreeImage(ids: seq<string>, v: Json, w: Json)
    decreases v
  {
    match v
    case Str(s) => w.Str? && TextImage(ids, s, w.s)
    case Arr(items) =>
      w.Arr? && |w.items| == |items| && forall i :: 0 <= i < |items| ==> TreeImage(ids, items[i], w.items[i])
    case Obj(fields) =>
      && w.Obj? && |w.fields| == |fields|
      && forall i :: 0 <= i < |fields| ==>
           w.fields[i].key == fields[i].key && TreeImage(ids, fields[i].value, w.fields[i].value)
    case _ => w == v
  }

  lemma {:induction false} RewriteIsImage(m: IdMap, ids: seq<string>, v: Json)
    requires MapsIds(m, ids)
    ensures TreeImage(ids, v, Rewrite(m, v))
    decreases v
  {
    hide Substitute, Reads, Respelled, NewId;
    match v
    case Str(s) =>
      if s !in ids {
        var segments := SubstituteIsImage(m, ids, s);
      }
    case Arr(items) =>
      forall i | 0 <= i < |items| ensures TreeImage(ids, items[i], Rewrite(m, items[i])) {
        RewriteIsImage(m, ids, items[i]);
      }
    case Obj(fields) =>
      forall i | 0 <= i < |fields| ensures TreeImage(ids, fields[i].value, Rewrite(m, fields[i].value)) {
        RewriteIsImage(m, ids, fields[i].value);
      }
    case _ =>
  }

  /** A tree has one image. */
  lemma {:induction false} OneTree(ids: seq<string>, v: Json, w: Json, u: Json)
    requires TreeImage(ids, v, w) && TreeImage(ids, v, u)
    ensures w == u
    decreases v
  {
    hide TextImage;
    match v
    case Str(s) => OneImage(ids, s, w.s, u.s);
    case Arr(items) =>
      forall i | 0 <= i < |items| ensures w.items[i] == u.items[i] {
        OneTree(ids, items[i], w.items[i], u.items[i]);
      }
    case Obj(fields) =>
      forall i | 0 <= i < |fields| ensures w.fields[i] == u.fields[i] {
        OneTree(ids, fields[i].value, w.fields[i].value, u.fields[i].value);
      }
    case _ =>
  }
}
