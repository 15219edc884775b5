/** When the order of the buckets can change what the in-memory filter collects. */
module MetaOrder {
  import opened Text
  import opened PyValue
  import opened MetaFilter

  ghost predicate SameAnswer(env: PyEnv, xs: seq<Bucket>, ys: seq<Bucket>, op: Op, value: Py) {
    ToSet(Collected(env, xs, op, value)) == ToSet(Collected(env, ys, op, value))
  }

  /** Every order of the buckets gives the same documents. */
  ghost predicate AllOrdersAgree(env: PyEnv, buckets: seq<Bucket>, op: Op, value: Py) {
    forall ys :: multiset(ys) == multiset(buckets) ==> SameAnswer(env, buckets, ys, op, value)
  }

  // ----- Operators that are no comparison, and dates -----

  predicate Dated(env: PyEnv, value: Py) {
    IsDate(Strip(Show(env, value)))
  }

  /** The value is rewritten once and for all. */
  predicate Steady(env: PyEnv, op: Op, value: Py) {
    !IsComparison(op) || Dated(env, value)
  }

  lemma {:induction false} StripRightKeepsHead(s: string)
    requires s != "" && !IsSpace(s[0])
    ensures StripRight(s) != "" && StripRight(s)[0] == s[0]
  {
    if IsSpace(s[|s| - 1]) {
      StripRightKeepsHead(s[..|s| - 1]);
    }
  }

  lemma StripTwice(s: string)
    ensures Strip(Strip(s)) == Strip(s)
  {
    if StripLeft(s) != "" {
      StripRightKeepsHead(StripLeft(s));
    }
  }

  /** What a bucket makes of a steady value leaves every later bucket's judgement as it was. */
  lemma SteadyVisit(env: PyEnv, op: Op, value: Py, text: string, other: string)
    requires IsFold(env.fold) && Steady(env, op, value)
    ensures var next := Visit(env, op, text, value).1;
            && Steady(env, op, next) && Visit(env, op, other, next).0 == Visit(env, op, other, value).0
  {
    hide Test, IsDate, Strip, Normalise, LowerText;
    if IsComparison(op) {
      StripTwice(Show(env, value));
    } else {
      NormaliseTwice(env, value);
    }
  }

  lemma {:induction false} SteadyAfter(env: PyEnv, op: Op, value: Py, buckets: seq<Bucket>, n: nat, id: DocId)
    requires IsFold(env.fold) && Steady(env, op, value) && n <= |buckets|
    ensures var (ids, current) := After(env, buckets, op, value, n);
            && Steady(env, op, current)
            && (forall text :: Visit(env, op, text, current).0 == Visit(env, op, text, value).0)
            && (id in ids <==> exists i :: 0 <= i < n && id in buckets[i].docs
                                           && Visit(env, op, buckets[i].text, value).0)
  {
    hide Visit, Steady;
    if n > 0 {
      SteadyAfter(env, op, value, buckets, n - 1, id);
      var current := After(env, buckets, op, value, n - 1).1;
      forall text ensures Steady(env, op, Visit(env, op, buckets[n - 1].text, current).1)
        && Visit(env, op, text, Visit(env, op, buckets[n - 1].text, current).1).0 == Visit(env, op, text, value).0
      {
        SteadyVisit(env, op, current, buckets[n - 1].text, text);
      }
    }
  }

  /** Each bucket is judged by the value as it was given, wherever it stands. */
  lemma SteadyCollected(env: PyEnv, op: Op, value: Py, buckets: seq<Bucket>, id: DocId)
    requires IsFold(env.fold) && Steady(env, op, value)
    ensures id in Collected(env, buckets, op, value)
       <==> exists b :: b in buckets && id in b.docs && Visit(env, op, b.text, value).0
  {
    hide Visit, After;
    SteadyAfter(env, op, value, buckets, |buckets|, id);
    if b :| b in buckets && id in b.docs && Visit(env, op, b.text, value).0 {
      var i :| 0 <= i < |buckets| && buckets[i] == b;
    }
  }

  /** No comparison, or a date as value: the order never matters. */
  lemma SteadyOrdersAgree(env: PyEnv, buckets: seq<Bucket>, op: Op, value: Py)
    requires IsFold(env.fold) && Steady(env, op, value)
    ensures AllOrdersAgree(env, buckets, op, value)
  {
    hide Visit, Collected;
    forall ys | multiset(ys) == multiset(buckets) ensures SameAnswer(env, buckets, ys, op, value) {
      SameMembers(buckets, ys);
      forall id
        ensures id in Collected(env, buckets, op, value) <==> id in Collected(env, ys, op, value)
      {
        SteadyCollected(env, op, value, buckets, id);
        SteadyCollected(env, op, value, ys, id);
      }
    }
  }

  lemma SameMembers(xs: seq<Bucket>, ys: seq<Bucket>)
    requires multiset(xs) == multiset(ys)
    ensures forall b :: b in xs <==> b in ys
  {
    assert forall b :: b in xs <==> b in multiset(xs);
    assert forall b :: b in ys <==> b in multiset(ys);
  }

  // ----- Comparisons -----

  /** The value as a text bucket leaves it, and as a literal bucket does. */
  function Plain(env: PyEnv, value: Py): Py {
    LowerText(env, value)
  }

  function Parsed(env: PyEnv, value: Py): Py {
    LowerText(env, ParseAgain(env, value))
  }

  predicate IsLiteral(env: PyEnv, b: Bucket) {
    env.literal(b.text).Some?
  }

  /** The value that a bucket passes on.  A date is not parsed any more. */
  function Onward(env: PyEnv, literal: bool, value: Py): Py {
    if Dated(env, value) then value else if literal then Parsed(env, value) else Plain(env, value)
  }

  /** The value after `m` literal buckets. */
  function Peel(env: PyEnv, value: Py, m: nat): Py {
    if m == 0 then value else Onward(env, true, Peel(env, value, m - 1))
  }

  /** A bucket that comes upon a value matches it. */
  predicate Finds(env: PyEnv, op: Op, b: Bucket, value: Py) {
    Visit(env, op, b.text, value).0
  }

  function Literals(env: PyEnv, buckets: seq<Bucket>): (n: nat)
    ensures n <= |buckets|
  {
    if buckets == [] then 0
    else
      var last := |buckets| - 1;
      Literals(env, buckets[..last]) + if IsLiteral(env, buckets[last]) then 1 else 0
  }

  /** The value after some buckets: it depends on how many of them are literals, and
      on whether the first is one. */
  function ValueAfter(env: PyEnv, value: Py, buckets: seq<Bucket>): Py {
    if buckets == [] then value
    else
      var start := if IsLiteral(env, buckets[0]) then value else Onward(env, false, value);
      Peel(env, start, Literals(env, buckets))
  }

  /** Values that no bucket tells apart: a date may have been stripped. */
  predicate Same(env: PyEnv, v: Py, w: Py) {
    v == w || (Dated(env, v) && Dated(env, w) && Strip(Show(env, v)) == Strip(Show(env, w)))
  }

  lemma VisitSame(env: PyEnv, op: Op, b: Bucket, v: Py, w: Py)
    requires IsComparison(op) && Same(env, v, w)
    ensures Finds(env, op, b, v) == Finds(env, op, b, w)
    ensures Same(env, Visit(env, op, b.text, v).1, Onward(env, IsLiteral(env, b), w))
  {
    hide Test, IsDate, Strip, LowerText;
    StripTwice(Show(env, v));
  }

  lemma LowerAgain(env: PyEnv, value: Py)
    requires IsFold(env.fold)
    ensures LowerText(env, LowerText(env, value)) == LowerText(env, value)
  {
    if value.Str? {
      LowerTwice(env.fold, value.s);
    }
  }

  /** Text buckets pass this value on as it is. */
  predicate Lowered(env: PyEnv, value: Py) {
    Onward(env, false, value) == value
  }

  lemma OnwardLowered(env: PyEnv, literal: bool, value: Py)
    requires IsFold(env.fold) && (literal ==> Dated(env, value) ==> Lowered(env, value))
    ensures Lowered(env, Onward(env, literal, value))
  {
    hide Dated, LowerText;
    LowerAgain(env, value);
    LowerAgain(env, ParseAgain(env, value));
  }

  lemma {:induction false} PeelLowered(env: PyEnv, value: Py, m: nat)
    requires IsFold(env.fold) && (m > 0 || Lowered(env, value))
    ensures Lowered(env, Peel(env, value, m))
  {
    hide Lowered, Onward, Dated;
    if m > 0 {
      DatedLowered(env, Peel(env, value, m - 1));
      OnwardLowered(env, true, Peel(env, value, m - 1));
    }
  }

  lemma DatedLowered(env: PyEnv, value: Py)
    ensures Dated(env, value) ==> Lowered(env, value)
  {
  }

  lemma ValueAfterStep(env: PyEnv, value: Py, buckets: seq<Bucket>)
    requires IsFold(env.fold) && buckets != []
    ensures var last := |buckets| - 1;
            ValueAfter(env, value, buckets)
            == Onward(env, IsLiteral(env, buckets[last]), ValueAfter(env, value, buckets[..last]))
  {
    hide Onward, IsLiteral, Dated;
    var last := |buckets| - 1;
    if last > 0 {
      var start := if IsLiteral(env, buckets[0]) then value else Onward(env, false, value);
      if IsLiteral(env, buckets[0]) {
        FirstCounts(env, buckets[..last]);
      } else {
        OnwardLowered(env, false, value);
      }
      PeelLowered(env, start, Literals(env, buckets[..last]));
    } else {
      assert buckets[..last] == [];
      assert Literals(env, buckets) == if IsLiteral(env, buckets[0]) then 1 else 0;
      assert Peel(env, value, 1) == Onward(env, true, Peel(env, value, 0));
      assert Peel(env, Onward(env, false, value), 0) == Onward(env, false, value);
    }
  }

  lemma {:induction false} FirstCounts(env: PyEnv, buckets: seq<Bucket>)
    requires buckets != [] && IsLiteral(env, buckets[0])
    ensures Literals(env, buckets) > 0
  {
    if |buckets| > 1 {
      FirstCounts(env, buckets[..|buckets| - 1]);
    }
  }

  lemma {:induction false} ComparedAfter(env: PyEnv, op: Op, value: Py, buckets: seq<Bucket>, n: nat, id: DocId)
    requires IsFold(env.fold) && IsComparison(op) && n <= |buckets|
    ensures var (ids, current) := After(env, buckets, op, value, n);
            && Same(env, current, ValueAfter(env, value, buckets[..n]))
            && (id in ids <==> exists i :: 0 <= i < n && id in buckets[i].docs
                                           && Finds(env, op, buckets[i], ValueAfter(env, value, buckets[..i])))
  {
    hide Visit, Onward, Dated, Same, IsLiteral, IsComparison, ValueAfter;
    if n == 0 {
      NothingVisited(env, value, buckets);
    } else {
      ComparedAfter(env, op, value, buckets, n - 1, id);
      var current := After(env, buckets, op, value, n - 1).1;
      VisitSame(env, op, buckets[n - 1], current, ValueAfter(env, value, buckets[..n - 1]));
      assert buckets[..n][..n - 1] == buckets[..n - 1];
      ValueAfterStep(env, value, buckets[..n]);
    }
  }

  lemma NothingVisited(env: PyEnv, value: Py, buckets: seq<Bucket>)
    ensures ValueAfter(env, value, buckets[..0]) == value && Same(env, value, value)
  {
  }

  /** A document is collected if and only if one of its buckets matches the value as
      the buckets before it have left it. */
  lemma ComparedCollected(env: PyEnv, op: Op, value: Py, buckets: seq<Bucket>, id: DocId)
    requires IsFold(env.fold) && IsComparison(op)
    ensures id in Collected(env, buckets, op, value)
       <==> exists i :: 0 <= i < |buckets| && id in buckets[i].docs
                        && Finds(env, op, buckets[i], ValueAfter(env, value, buckets[..i]))
  {
    hide After, Finds;
    ComparedAfter(env, op, value, buckets, |buckets|, id);
  }

  // ----- The exact condition, for buckets that share no document -----

  function Own(env: PyEnv, b: Bucket, literal: bool): nat {
    if IsLiteral(env, b) == literal then 1 else 0
  }

  /** A bucket that comes first judges like one that comes upon any value it can meet:
      behind a literal or, if there is one, behind another bucket. */
  ghost predicate JudgesAlike(env: PyEnv, op: Op, b: Bucket, value: Py, literals: nat, others: nat) {
    && (forall m :: 1 <= m <= literals - Own(env, b, true) ==>
          Finds(env, op, b, Peel(env, value, m)) == Finds(env, op, b, value))
    && (others > Own(env, b, false) ==>
          forall m :: 0 <= m <= literals - Own(env, b, true) ==>
            Finds(env, op, b, Peel(env, Onward(env, false, value), m)) == Finds(env, op, b, value))
  }

  ghost predicate OrderFree(env: PyEnv, buckets: seq<Bucket>, op: Op, value: Py) {
    var n := Literals(env, buckets);
    forall i :: 0 <= i < |buckets| && buckets[i].docs != [] ==>
      JudgesAlike(env, op, buckets[i], value, n, |buckets| - n)
  }

  /** No document is in two buckets. */
  ghost predicate Disjoint(buckets: seq<Bucket>) {
    forall i, j, id :: 0 <= i < j < |buckets| && id in buckets[i].docs ==> id !in buckets[j].docs
  }

  lemma {:induction false} LiteralsAppend(env: PyEnv, a: seq<Bucket>, b: seq<Bucket>)
    ensures Literals(env, a + b) == Literals(env, a) + Literals(env, b)
  {
    if b == [] {
      assert a + b == a;
    } else {
      var last := |b| - 1;
      LiteralsAppend(env, a, b[..last]);
      assert (a + b)[..|a + b| - 1] == a + b[..last];
    }
  }

  lemma BehindCounts(env: PyEnv, ys: seq<Bucket>, at: nat)
    requires at < |ys|
    ensures Literals(env, ys) == Literals(env, ys[..at]) + (if IsLiteral(env, ys[at]) then 1 else 0)
                                 + Literals(env, ys[at + 1..])
  {
    assert ys == ys[..at] + ([ys[at]] + ys[at + 1..]);
    LiteralsAppend(env, ys[..at], [ys[at]] + ys[at + 1..]);
    LiteralsAppend(env, [ys[at]], ys[at + 1..]);
    assert [ys[at]][..0] == [];
  }

  lemma Removed(ys: seq<Bucket>, k: nat)
    requires k < |ys|
    ensures multiset(ys[..k] + ys[k + 1..]) == multiset(ys) - multiset{ys[k]}
  {
    assert ys == ys[..k] + [ys[k]] + ys[k + 1..];
  }

  /** The number of literals does not depend on the order. */
  lemma {:induction false} LiteralsPermuted(env: PyEnv, xs: seq<Bucket>, ys: seq<Bucket>)
    requires multiset(xs) == multiset(ys)
    ensures |xs| == |ys| && Literals(env, xs) == Literals(env, ys)
    decreases |xs|
  {
    hide IsLiteral, Literals;
    assert |xs| == |multiset(xs)| && |ys| == |multiset(ys)|;
    if xs != [] {
      var last := |xs| - 1;
      assert xs[last] in multiset(ys);
      var k :| 0 <= k < |ys| && ys[k] == xs[last];
      Removed(ys, k);
      Removed(xs, last);
      assert xs[..last] + xs[last + 1..] == xs[..last];
      LiteralsPermuted(env, xs[..last], ys[..k] + ys[k + 1..]);
      BehindCounts(env, xs, last);
      assert xs[last + 1..] == [];
      BehindCounts(env, ys, k);
      LiteralsAppend(env, ys[..k], ys[k + 1..]);
    }
  }

  /** A bucket judges as if it came first, in any order, where the condition holds. */
  lemma SeenAlike(env: PyEnv, op: Op, value: Py, ys: seq<Bucket>, i: nat)
    requires i < |ys|
    requires var n := Literals(env, ys); JudgesAlike(env, op, ys[i], value, n, |ys| - n)
    ensures Finds(env, op, ys[i], ValueAfter(env, value, ys[..i])) == Finds(env, op, ys[i], value)
  {
    hide Finds, Onward, IsLiteral;
    BehindCounts(env, ys, i);
    if i > 0 {
      BehindCounts(env, ys[..i], 0);
      if IsLiteral(env, ys[0]) {
        FirstCounts(env, ys[..i]);
      }
    }
  }

  lemma FreeCollected(env: PyEnv, op: Op, value: Py, buckets: seq<Bucket>, ys: seq<Bucket>, id: DocId)
    requires IsFold(env.fold) && IsComparison(op)
    requires OrderFree(env, buckets, op, value) && multiset(ys) == multiset(buckets)
    ensures id in Collected(env, ys, op, value)
       <==> exists b :: b in buckets && id in b.docs && Finds(env, op, b, value)
  {
    hide Collected, Finds, ValueAfter, IsComparison, JudgesAlike;
    LiteralsPermuted(env, ys, buckets);
    ComparedCollected(env, op, value, ys, id);
    SameMembers(buckets, ys);
    forall i | 0 <= i < |ys| && id in ys[i].docs
      ensures Finds(env, op, ys[i], ValueAfter(env, value, ys[..i])) == Finds(env, op, ys[i], value)
    {
      assert ys[i] in buckets;
      var k :| 0 <= k < |buckets| && buckets[k] == ys[i];
      SeenAlike(env, op, value, ys, i);
    }
    if b :| b in buckets && id in b.docs && Finds(env, op, b, value) {
      assert b in ys;
      var i :| 0 <= i < |ys| && ys[i] == b;
    }
  }

  lemma FreeOrdersAgree(env: PyEnv, buckets: seq<Bucket>, op: Op, value: Py)
    requires IsFold(env.fold) && IsComparison(op) && OrderFree(env, buckets, op, value)
    ensures AllOrdersAgree(env, buckets, op, value)
  {
    hide Collected, OrderFree, Finds;
    forall ys | multiset(ys) == multiset(buckets) ensures SameAnswer(env, buckets, ys, op, value) {
      forall id
        ensures id in Collected(env, buckets, op, value) <==> id in Collected(env, ys, op, value)
      {
        FreeCollected(env, op, value, buckets, buckets, id);
        FreeCollected(env, op, value, buckets, ys, id);
      }
    }
  }

  // ----- Orders that differ -----

  function ToFront<T>(xs: seq<T>, i: nat): (r: seq<T>)
    requires i < |xs|
    ensures |r| == |xs|
  {
    [xs[i]] + xs[..i] + xs[i + 1..]
  }

  lemma ToFrontPermutes<T>(xs: seq<T>, i: nat)
    requires i < |xs|
    ensures multiset(ToFront(xs, i)) == multiset(xs)
  {
    assert xs == xs[..i] + [xs[i]] + xs[i + 1..];
  }

  /** The bucket at `k`, and no other, has the document. */
  ghost predicate OnlyHas(buckets: seq<Bucket>, k: nat, id: DocId) {
    k < |buckets| && id in buckets[k].docs && forall i :: 0 <= i < |buckets| && i != k ==> id !in buckets[i].docs
  }

  lemma OnlyOne(buckets: seq<Bucket>, k: nat, id: DocId)
    requires Disjoint(buckets) && k < |buckets| && id in buckets[k].docs
    ensures OnlyHas(buckets, k, id)
  {
  }

  /** An order in which `b`, the only bucket with the document, comes after `at` others,
      `m` of them literals. */
  ghost predicate Arranged(env: PyEnv, buckets: seq<Bucket>, ys: seq<Bucket>, b: Bucket, id: DocId, at: nat, m: nat) {
    && multiset(ys) == multiset(buckets) && OnlyHas(ys, at, id) && ys[at] == b
    && Literals(env, ys[..at]) == m
  }

  lemma ArrangedFirst(env: PyEnv, buckets: seq<Bucket>, k: nat, id: DocId) returns (ys: seq<Bucket>)
    requires OnlyHas(buckets, k, id)
    ensures Arranged(env, buckets, ys, buckets[k], id, 0, 0)
  {
    ys := ToFront(buckets, k);
    ToFrontPermutes(buckets, k);
    forall i | 0 < i < |ys| ensures id !in ys[i].docs {
      assert ys[i] == if i <= k then buckets[i - 1] else buckets[i];
    }
  }

  /** A bucket from behind can be moved to the front. */
  lemma ArrangedMore(env: PyEnv, buckets: seq<Bucket>, ys: seq<Bucket>, b: Bucket, id: DocId, at: nat, m: nat, i: nat)
      returns (zs: seq<Bucket>)
    requires Arranged(env, buckets, ys, b, id, at, m) && at < i < |ys|
    ensures Arranged(env, buckets, zs, b, id, at + 1, if IsLiteral(env, ys[i]) then m + 1 else m)
    ensures zs[0] == ys[i]
  {
    zs := ToFront(ys, i);
    ToFrontPermutes(ys, i);
    forall p | 0 <= p < |zs| && p != at + 1 ensures id !in zs[p].docs {
      assert zs[p] == if p == 0 then ys[i] else if p <= i then ys[p - 1] else ys[p];
    }
    assert zs[at + 1] == ys[at];
    assert zs[..at + 1] == [ys[i]] + ys[..at];
    LiteralsAppend(env, [ys[i]], ys[..at]);
    assert [ys[i]][..0] == [];
  }

  lemma LiteralBehind(env: PyEnv, ys: seq<Bucket>, at: nat, wanted: bool) returns (i: nat)
    requires at < |ys|
    requires var behind := ys[at + 1..];
             if wanted then Literals(env, behind) > 0 else Literals(env, behind) < |behind|
    ensures at < i < |ys| && IsLiteral(env, ys[i]) == wanted
  {
    i := SomeOf(env, ys[at + 1..], wanted);
    i := i + at + 1;
  }

  lemma {:induction false} SomeOf(env: PyEnv, buckets: seq<Bucket>, wanted: bool) returns (i: nat)
    requires if wanted then Literals(env, buckets) > 0 else Literals(env, buckets) < |buckets|
    ensures i < |buckets| && IsLiteral(env, buckets[i]) == wanted
  {
    var last := |buckets| - 1;
    if IsLiteral(env, buckets[last]) == wanted {
      i := last;
    } else {
      i := SomeOf(env, buckets[..last], wanted);
    }
  }

  /** Any number of literals, as long as there are so many, can come before a bucket. */
  lemma {:induction false} WithLiterals(env: PyEnv, buckets: seq<Bucket>, k: nat, id: DocId, m: nat)
      returns (ys: seq<Bucket>)
    requires k < |buckets| && OnlyHas(buckets, k, id)
    requires m + (if IsLiteral(env, buckets[k]) then 1 else 0) <= Literals(env, buckets)
    ensures Arranged(env, buckets, ys, buckets[k], id, m, m)
    ensures m > 0 ==> IsLiteral(env, ys[0])
  {
    hide Arranged, OnlyHas, IsLiteral;
    if m == 0 {
      ys := ArrangedFirst(env, buckets, k, id);
    } else {
      var zs := WithLiterals(env, buckets, k, id, m - 1);
      ArrangedBehind(env, buckets, zs, buckets[k], id, m - 1, m - 1);
      var i := LiteralBehind(env, zs, m - 1, true);
      ys := ArrangedMore(env, buckets, zs, buckets[k], id, m - 1, m - 1, i);
    }
  }

  lemma ArrangedBehind(env: PyEnv, buckets: seq<Bucket>, ys: seq<Bucket>, b: Bucket, id: DocId, at: nat, m: nat)
    requires Arranged(env, buckets, ys, b, id, at, m)
    ensures |ys| == |buckets| && at < |ys| && ys[at] == b
    ensures Literals(env, ys[at + 1..])
         == Literals(env, buckets) - m - (if IsLiteral(env, b) then 1 else 0)
  {
    LiteralsPermuted(env, ys, buckets);
    BehindCounts(env, ys, at);
  }

  /** The verdict on a bucket in an order decides whether its document is collected. */
  lemma DecidedBy(env: PyEnv, op: Op, value: Py, buckets: seq<Bucket>, ys: seq<Bucket>, b: Bucket, id: DocId,
                  at: nat, m: nat)
    requires IsFold(env.fold) && IsComparison(op) && Arranged(env, buckets, ys, b, id, at, m)
    ensures ys != []
    ensures id in Collected(env, ys, op, value) <==>
            var start := if at == 0 || IsLiteral(env, ys[0]) then value else Onward(env, false, value);
            Finds(env, op, b, Peel(env, start, m))
  {
    hide Collected, Finds, IsComparison, Onward, IsLiteral;
    ComparedCollected(env, op, value, ys, id);
    assert at > 0 ==> ys[..at][0] == ys[0];
    assert at == 0 ==> ys[..at] == [] && Peel(env, value, 0) == value;
  }

  /** Two orders that judge the bucket differently give different documents. */
  lemma OrdersDiffer(env: PyEnv, buckets: seq<Bucket>, xs: seq<Bucket>, ys: seq<Bucket>, op: Op, value: Py, id: DocId)
    requires multiset(xs) == multiset(buckets) && multiset(ys) == multiset(buckets)
    requires id in Collected(env, xs, op, value) <==> id !in Collected(env, ys, op, value)
    ensures !AllOrdersAgree(env, buckets, op, value)
  {
    hide Collected;
    assert id in ToSet(Collected(env, xs, op, value)) <==> id in Collected(env, xs, op, value);
    assert id in ToSet(Collected(env, ys, op, value)) <==> id in Collected(env, ys, op, value);
    assert !SameAnswer(env, buckets, xs, op, value) || !SameAnswer(env, buckets, ys, op, value);
  }

  lemma FirstDecided(env: PyEnv, buckets: seq<Bucket>, op: Op, value: Py, k: nat, id: DocId) returns (ys: seq<Bucket>)
    requires IsFold(env.fold) && IsComparison(op) && OnlyHas(buckets, k, id)
    ensures multiset(ys) == multiset(buckets)
    ensures id in Collected(env, ys, op, value) <==> Finds(env, op, buckets[k], value)
  {
    hide Collected, Finds, IsComparison, Onward, IsLiteral;
    ys := ArrangedFirst(env, buckets, k, id);
    DecidedBy(env, op, value, buckets, ys, buckets[k], id, 0, 0);
    assert Peel(env, value, 0) == value;
  }

  /** An order that begins with `m` literals, and then has the bucket. */
  lemma LiteralDecided(env: PyEnv, buckets: seq<Bucket>, op: Op, value: Py, k: nat, id: DocId, m: nat)
      returns (ys: seq<Bucket>)
    requires IsFold(env.fold) && IsComparison(op)
    requires k < |buckets| && OnlyHas(buckets, k, id) && 1 <= m <= Literals(env, buckets) - Own(env, buckets[k], true)
    ensures multiset(ys) == multiset(buckets)
    ensures id in Collected(env, ys, op, value) <==> Finds(env, op, buckets[k], Peel(env, value, m))
  {
    hide Collected, Finds, IsComparison, Onward, IsLiteral, Peel, OnlyHas, Arranged;
    ys := WithLiterals(env, buckets, k, id, m);
    DecidedBy(env, op, value, buckets, ys, buckets[k], id, m, m);
    ArrangedIsOrder(env, buckets, ys, buckets[k], id, m, m);
  }

  /** The same for one that begins with a bucket that is none. */
  lemma OtherDecided(env: PyEnv, buckets: seq<Bucket>, op: Op, value: Py, k: nat, id: DocId, m: nat)
      returns (ys: seq<Bucket>)
    requires IsFold(env.fold) && IsComparison(op)
    requires k < |buckets| && OnlyHas(buckets, k, id) && m <= Literals(env, buckets) - Own(env, buckets[k], true)
    requires |buckets| - Literals(env, buckets) > Own(env, buckets[k], false)
    ensures multiset(ys) == multiset(buckets)
    ensures id in Collected(env, ys, op, value) <==>
            Finds(env, op, buckets[k], Peel(env, Onward(env, false, value), m))
  {
    hide Collected, Finds, IsComparison, Onward, IsLiteral, Peel, OnlyHas, Arranged;
    var b := buckets[k];
    var zs := WithLiterals(env, buckets, k, id, m);
    ArrangedBehind(env, buckets, zs, b, id, m, m);
    var i := LiteralBehind(env, zs, m, false);
    ys := ArrangedMore(env, buckets, zs, b, id, m, m, i);
    DecidedBy(env, op, value, buckets, ys, b, id, m + 1, m);
    ArrangedIsOrder(env, buckets, ys, b, id, m + 1, m);
  }

  lemma ArrangedIsOrder(env: PyEnv, buckets: seq<Bucket>, ys: seq<Bucket>, b: Bucket, id: DocId, at: nat, m: nat)
    requires Arranged(env, buckets, ys, b, id, at, m)
    ensures multiset(ys) == multiset(buckets)
  {
  }

  lemma UnlikeOrdersDiffer(env: PyEnv, buckets: seq<Bucket>, op: Op, value: Py, k: nat)
    requires IsFold(env.fold) && IsComparison(op)
    requires Disjoint(buckets) && k < |buckets| && buckets[k].docs != []
    requires var n := Literals(env, buckets); !JudgesAlike(env, op, buckets[k], value, n, |buckets| - n)
    ensures !AllOrdersAgree(env, buckets, op, value)
  {
    hide Collected, Finds, IsComparison, Onward, IsLiteral, Peel, OnlyHas, AllOrdersAgree, Own;
    var id, b, n := buckets[k].docs[0], buckets[k], Literals(env, buckets);
    OnlyOne(buckets, k, id);
    var xs := FirstDecided(env, buckets, op, value, k, id);
    var ys;
    if m :| 1 <= m <= n - Own(env, b, true) && Finds(env, op, b, Peel(env, value, m)) != Finds(env, op, b, value) {
      ys := LiteralDecided(env, buckets, op, value, k, id, m);
    } else {
      var m :| 0 <= m <= n - Own(env, b, true)
               && Finds(env, op, b, Peel(env, Onward(env, false, value), m)) != Finds(env, op, b, value);
      ys := OtherDecided(env, buckets, op, value, k, id, m);
    }
    OrdersDiffer(env, buckets, xs, ys, op, value, id);
  }

  /** A comparison with any value, on an index whose buckets share no document: all
      orders agree if and only if every non-empty bucket judges alike upon each value
      that it can meet. */
  lemma OrdersAgreeIff(env: PyEnv, buckets: seq<Bucket>, op: Op, value: Py)
    requires IsFold(env.fold) && IsComparison(op) && Disjoint(buckets)
    ensures AllOrdersAgree(env, buckets, op, value) <==> OrderFree(env, buckets, op, value)
  {
    hide AllOrdersAgree, JudgesAlike, IsComparison;
    if OrderFree(env, buckets, op, value) {
      FreeOrdersAgree(env, buckets, op, value);
    } else {
      var n := Literals(env, buckets);
      var k :| 0 <= k < |buckets| && buckets[k].docs != []
               && !JudgesAlike(env, op, buckets[k], value, n, |buckets| - n);
      UnlikeOrdersDiffer(env, buckets, op, value, k);
    }
  }

  /** A range against a number as text: a word compares with the text before the
      first number has been seen, and not with the number after it. */
  lemma RangeDependsOnOrder(env: PyEnv, cmp: RangeOp, word: string, number: string, bound: string,
                            x: real, y: real, docA: DocId, docB: DocId)
    requires IsFold(env.fold) && Lower(env.fold, bound) == bound && !IsDate(Strip(bound))
    requires !IsDate(Strip(env.show(Num(x))))
    requires env.literal(word) == None && env.literal(number) == Some(Num(y)) && env.literal(bound) == Some(Num(x))
    requires env.compare(cmp, Str(Lower(env.fold, word)), Str(bound)) == Some(true)
    requires env.compare(cmp, Str(Lower(env.fold, word)), Num(x)) == None
    requires env.compare(cmp, Num(y), Num(x)) == Some(true)
    ensures var a, b := Bucket(word, [docA]), Bucket(number, [docB]);
            && Collected(env, [a, b], Range(cmp), Str(bound)) == [docA, docB]
            && Collected(env, [b, a], Range(cmp), Str(bound)) == [docB]
  {
    hide IsDate, Strip, After;
    var a, b, op, v := Bucket(word, [docA]), Bucket(number, [docB]), Range(cmp), Str(bound);
    assert Visit(env, op, word, v) == (true, v);
    assert Visit(env, op, number, v) == (true, Num(x));
    assert Visit(env, op, word, Num(x)) == (false, Num(x));
    hide Visit;
    AfterNone(env, [a, b], op, v);
    AfterNone(env, [b, a], op, v);
    AfterStep(env, [a, b], op, v, 0);
    AfterStep(env, [a, b], op, v, 1);
    AfterStep(env, [b, a], op, v, 0);
    AfterStep(env, [b, a], op, v, 1);
    assert [] + [docA] == [docA] && [] + [docB] == [docB];
  }
}
