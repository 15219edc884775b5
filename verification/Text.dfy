/** Strings as the filters use them: case folding, trimming, searching and
    replacing.  Python's `str` methods are stated over `string`. */
module Text {

  datatype Option<+T> = None | Some(value: T)

  datatype Result<+T, +E> = Ok(value: T) | Err(error: E)

  /** A character-wise case fold, such as `str.lower` on text whose lower case
      keeps its length: folding twice changes nothing and blanks stay blanks. */
  ghost predicate IsFold(fold: char -> char) {
    && (forall c :: fold(fold(c)) == fold(c))
    && (forall c :: IsSpace(fold(c)) == IsSpace(c))
  }

  function Lower(fold: char -> char, s: string): (r: string)
    ensures |r| == |s|
    ensures forall i :: 0 <= i < |s| ==> r[i] == fold(s[i])
  {
    seq(|s|, i requires 0 <= i < |s| => fold(s[i]))
  }

  lemma LowerTwice(fold: char -> char, s: string)
    requires IsFold(fold)
    ensures Lower(fold, Lower(fold, s)) == Lower(fold, s)
  {
  }

  /** Folding commutes with cutting a piece out of the text. */
  lemma LowerSlice(fold: char -> char, s: string, i: nat, j: nat)
    requires i <= j <= |s|
    ensures Lower(fold, s)[i..j] == Lower(fold, s[i..j])
  {
  }

  function AsciiLower(c: char): char {
    if 'A' <= c <= 'Z' then c - 'A' + 'a' else c
  }

  /** The blanks of `str.strip()` and `\s` among the ASCII characters. */
  predicate IsSpace(c: char) {
    c == ' ' || '\t' <= c <= '\r' || '\U{1c}' <= c <= '\U{1f}'
  }

  function StripLeft(s: string): (r: string)
    ensures |r| <= |s|
    ensures r != "" ==> !IsSpace(r[0])
  {
    if s != "" && IsSpace(s[0]) then StripLeft(s[1..]) else s
  }

  function StripRight(s: string): (r: string)
    ensures |r| <= |s|
    ensures r != "" ==> !IsSpace(r[|r| - 1])
  {
    if s != "" && IsSpace(s[|s| - 1]) then StripRight(s[..|s| - 1]) else s
  }

  function Strip(s: string): string {
    StripRight(StripLeft(s))
  }

  lemma {:induction false} StripLower(fold: char -> char, s: string)
    requires IsFold(fold)
    ensures Strip(Lower(fold, s)) == Lower(fold, Strip(s))
  {
    StripLeftLower(fold, s);
    StripRightLower(fold, StripLeft(s));
  }

  lemma {:induction false} StripLeftLower(fold: char -> char, s: string)
    requires IsFold(fold)
    ensures StripLeft(Lower(fold, s)) == Lower(fold, StripLeft(s))
  {
    if s != "" && IsSpace(s[0]) {
      assert Lower(fold, s)[1..] == Lower(fold, s[1..]);
      StripLeftLower(fold, s[1..]);
    }
  }

  lemma {:induction false} StripRightLower(fold: char -> char, s: string)
    requires IsFold(fold)
    ensures StripRight(Lower(fold, s)) == Lower(fold, StripRight(s))
  {
    if s != "" && IsSpace(s[|s| - 1]) {
      assert Lower(fold, s)[..|s| - 1] == Lower(fold, s[..|s| - 1]);
      StripRightLower(fold, s[..|s| - 1]);
    }
  }

  predicate OccursAt(t: string, s: string, i: nat) {
    i + |t| <= |s| && s[i..i + |t|] == t
  }

  /** Python's `s.find(t) >= 0`, and `t in s` on strings. */
  predicate Occurs(t: string, s: string) {
    exists i: nat | i <= |s| :: OccursAt(t, s, i)
  }

  predicate EndsWith(s: string, t: string) {
    |t| <= |s| && s[|s| - |t|..] == t
  }

  /** Python's `s.replace(c, by)` for a one-character pattern. */
  function Replace(s: string, c: char, put: string): string {
    if s == "" then ""
    else (if s[0] == c then put else [s[0]]) + Replace(s[1..], c, put)
  }

  lemma {:induction false} ReplaceAppend(a: string, b: string, c: char, put: string)
    ensures Replace(a + b, c, put) == Replace(a, c, put) + Replace(b, c, put)
  {
    if a == "" {
      assert a + b == b;
    } else {
      assert (a + b)[1..] == a[1..] + b;
      ReplaceAppend(a[1..], b, c, put);
    }
  }

  /** Python's `s.split(c)`. */
  function Split(s: string, c: char): (parts: seq<string>)
    ensures parts != []
  {
    if s == "" then [""]
    else
      var rest := Split(s[1..], c);
      if s[0] == c then [""] + rest else [[s[0]] + rest[0]] + rest[1..]
  }
}
