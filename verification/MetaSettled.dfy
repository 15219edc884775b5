/** When the order of the buckets matters to a value that one parse settles, whatever
    documents the buckets share. */
module MetaSettled {
  import opened Text
  import opened PyValue
  import opened MetaFilter
  import opened MetaOrder

  /** Parsing the value once is enough, as text as well as given; it may become a date. */
  predicate Settled(env: PyEnv, value: Py) {
    var w := Parsed(env, value);
    && !Dated(env, value) && !Dated(env, Plain(env, value))
    && Parsed(env, Plain(env, value)) == w && Onward(env, true, w) == w
  }

  lemma {:induction false} SettledPeels(env: PyEnv, value: Py, m: nat)
    requires Settled(env, value) && m > 0
    ensures Peel(env, value, m) == Parsed(env, value) == Peel(env, Plain(env, value), m)
  {
    hide Parsed, Plain, Dated;
    if m > 1 {
      SettledPeels(env, value, m - 1);
    } else {
      assert Peel(env, value, 0) == value && Peel(env, Plain(env, value), 0) == Plain(env, value);
    }
  }

  lemma PlainFinds(env: PyEnv, op: Op, b: Bucket, value: Py)
    requires IsFold(env.fold) && IsComparison(op) && Settled(env, value)
    ensures Finds(env, op, b, Plain(env, value)) == Finds(env, op, b, value)
  {
    hide Test, IsDate, Strip;
    LowerAgain(env, value);
  }

  /** Before the first literal a bucket comes upon the value as given, later upon it parsed. */
  predicate FindsAt(env: PyEnv, op: Op, b: Bucket, value: Py, early: bool) {
    Finds(env, op, b, if early then value else Parsed(env, value))
  }

  lemma SettledFinds(env: PyEnv, op: Op, value: Py, ys: seq<Bucket>, i: nat)
    requires IsFold(env.fold) && IsComparison(op) && Settled(env, value) && i < |ys|
    ensures Finds(env, op, ys[i], ValueAfter(env, value, ys[..i]))
         == FindsAt(env, op, ys[i], value, Literals(env, ys[..i]) == 0)
  {
    var m := Literals(env, ys[..i]);
    PlainFinds(env, op, ys[i], value);
    assert Peel(env, value, 0) == value && Peel(env, Plain(env, value), 0) == Plain(env, value);
    hide Finds, Parsed, Plain, Dated, IsLiteral, IsComparison, Peel;
    if i > 0 && IsLiteral(env, ys[0]) {
      FirstCounts(env, ys[..i]);
    }
    if m > 0 {
      SettledPeels(env, value, m);
    }
  }

  ghost predicate NoRepeat(buckets: seq<Bucket>) {
    forall i, j :: 0 <= i < j < |buckets| ==> buckets[i] != buckets[j]
  }

  lemma {:induction false} CountedOnce(buckets: seq<Bucket>, b: Bucket)
    requires NoRepeat(buckets)
    ensures multiset(buckets)[b] <= 1
  {
    if buckets != [] {
      var last := |buckets| - 1;
      assert buckets == buckets[..last] + [buckets[last]];
      CountedOnce(buckets[..last], b);
    }
  }

  lemma NoRepeatPermuted(buckets: seq<Bucket>, ys: seq<Bucket>)
    requires NoRepeat(buckets) && multiset(ys) == multiset(buckets)
    ensures NoRepeat(ys)
  {
    forall i, j | 0 <= i < j < |ys| ensures ys[i] != ys[j] {
      CountedOnce(buckets, ys[i]);
      assert ys == ys[..i] + [ys[i]] + ys[i + 1..];
      assert ys[j] == ys[i + 1..][j - i - 1];
      assert multiset(ys)[ys[i]] == multiset(ys[..i])[ys[i]] + 1 + multiset(ys[i + 1..])[ys[i]];
    }
  }

  /** The first literal of an order. */
  ghost predicate LeadsAt(env: PyEnv, ys: seq<Bucket>, p: nat) {
    p < |ys| && IsLiteral(env, ys[p]) && forall i :: 0 <= i < p ==> !IsLiteral(env, ys[i])
  }

  lemma {:induction false} SomeLeads(env: PyEnv, ys: seq<Bucket>) returns (p: nat)
    requires Literals(env, ys) > 0
    ensures LeadsAt(env, ys, p)
  {
    var last := |ys| - 1;
    if Literals(env, ys[..last]) > 0 {
      p := SomeLeads(env, ys[..last]);
    } else {
      p := last;
      NoneAmong(env, ys[..last]);
      assert forall i :: 0 <= i < p ==> ys[i] == ys[..last][i];
    }
  }

  lemma {:induction false} NoneAmong(env: PyEnv, ys: seq<Bucket>)
    ensures Literals(env, ys) == 0 <==> forall i :: 0 <= i < |ys| ==> !IsLiteral(env, ys[i])
  {
    if ys != [] {
      NoneAmong(env, ys[..|ys| - 1]);
    }
  }

  /** An order with its first literal at `p` collects what is found early up to there
      and late behind it. */
  lemma LedCollected(env: PyEnv, op: Op, value: Py, ys: seq<Bucket>, p: nat, id: DocId)
    requires IsFold(env.fold) && IsComparison(op) && Settled(env, value) && LeadsAt(env, ys, p)
    ensures id in Collected(env, ys, op, value)
       <==> exists i :: 0 <= i < |ys| && id in ys[i].docs && FindsAt(env, op, ys[i], value, i <= p)
  {
    hide Collected, FindsAt, Finds, Settled, ValueAfter, IsComparison, IsLiteral;
    ComparedCollected(env, op, value, ys, id);
    forall i | 0 <= i < |ys|
      ensures Finds(env, op, ys[i], ValueAfter(env, value, ys[..i])) == FindsAt(env, op, ys[i], value, i <= p)
    {
      SettledFinds(env, op, value, ys, i);
      NoneAmong(env, ys[..i]);
      if p < i {
        assert ys[..i][p] == ys[p];
      }
    }
  }

  /** A bucket of the document that is found behind any lead `f` but itself: a literal
      late, another one wherever it stands. */
  predicate FoundBeside(env: PyEnv, op: Op, value: Py, f: Bucket, b: Bucket, id: DocId) {
    && b != f && id in b.docs && FindsAt(env, op, b, value, false)
    && (IsLiteral(env, b) || FindsAt(env, op, b, value, true))
  }

  predicate FoundSomehow(env: PyEnv, op: Op, value: Py, f: Bucket, b: Bucket, id: DocId) {
    && b != f && id in b.docs
    && (FindsAt(env, op, b, value, false) || (!IsLiteral(env, b) && FindsAt(env, op, b, value, true)))
  }

  predicate FoundAsLead(env: PyEnv, op: Op, value: Py, f: Bucket, id: DocId) {
    id in f.docs && FindsAt(env, op, f, value, true)
  }

  /** Whichever literal comes first, the document is found. */
  ghost predicate AlwaysFound(env: PyEnv, buckets: seq<Bucket>, op: Op, value: Py, id: DocId) {
    forall f :: f in buckets && IsLiteral(env, f) ==>
      FoundAsLead(env, op, value, f, id) || exists b :: b in buckets && FoundBeside(env, op, value, f, b, id)
  }

  ghost predicate NeverFound(env: PyEnv, buckets: seq<Bucket>, op: Op, value: Py, id: DocId) {
    forall f :: f in buckets && IsLiteral(env, f) ==>
      !FoundAsLead(env, op, value, f, id) && forall b :: b in buckets ==> !FoundSomehow(env, op, value, f, b, id)
  }

  lemma AlwaysLed(env: PyEnv, buckets: seq<Bucket>, op: Op, value: Py, ys: seq<Bucket>, p: nat, id: DocId)
    requires NoRepeat(ys) && (forall b :: b in buckets <==> b in ys) && LeadsAt(env, ys, p)
    requires AlwaysFound(env, buckets, op, value, id)
    ensures exists i :: 0 <= i < |ys| && id in ys[i].docs && FindsAt(env, op, ys[i], value, i <= p)
  {
    hide FindsAt, IsLiteral;
    assert ys[p] in buckets;
    if !FoundAsLead(env, op, value, ys[p], id) {
      var b :| b in buckets && FoundBeside(env, op, value, ys[p], b, id);
      var i :| 0 <= i < |ys| && ys[i] == b;
      assert FindsAt(env, op, ys[i], value, i <= p);
    }
  }

  lemma NeverLed(env: PyEnv, buckets: seq<Bucket>, op: Op, value: Py, ys: seq<Bucket>, p: nat, id: DocId)
    requires NoRepeat(ys) && (forall b :: b in buckets <==> b in ys) && LeadsAt(env, ys, p)
    requires NeverFound(env, buckets, op, value, id)
    ensures forall i :: 0 <= i < |ys| && id in ys[i].docs ==> !FindsAt(env, op, ys[i], value, i <= p)
  {
    hide FindsAt, IsLiteral;
    assert ys[p] in buckets;
    forall i | 0 <= i < |ys| && id in ys[i].docs ensures !FindsAt(env, op, ys[i], value, i <= p) {
      assert ys[i] in buckets;
      if i != p {
        assert ys[i] != ys[p];
        assert !FoundSomehow(env, op, value, ys[p], ys[i], id);
      }
    }
  }

  lemma FoundInEachOrder(env: PyEnv, buckets: seq<Bucket>, op: Op, value: Py, ys: seq<Bucket>, id: DocId)
    requires IsFold(env.fold) && IsComparison(op) && Settled(env, value)
    requires NoRepeat(buckets) && multiset(ys) == multiset(buckets) && Literals(env, buckets) > 0
    ensures AlwaysFound(env, buckets, op, value, id) ==> id in Collected(env, ys, op, value)
    ensures NeverFound(env, buckets, op, value, id) ==> id !in Collected(env, ys, op, value)
  {
    hide Collected, FindsAt, Settled, IsComparison, IsLiteral, Literals, LeadsAt, AlwaysFound, NeverFound, NoRepeat;
    LiteralsPermuted(env, ys, buckets);
    SameMembers(buckets, ys);
    NoRepeatPermuted(buckets, ys);
    var p := SomeLeads(env, ys);
    LedCollected(env, op, value, ys, p, id);
    if AlwaysFound(env, buckets, op, value, id) {
      AlwaysLed(env, buckets, op, value, ys, p, id);
    }
    if NeverFound(env, buckets, op, value, id) {
      NeverLed(env, buckets, op, value, ys, p, id);
    }
  }

  // ----- Orders with a given lead -----

  function Those(buckets: seq<Bucket>, keep: Bucket -> bool): (r: seq<Bucket>)
    ensures forall b :: b in r <==> b in buckets && keep(b)
  {
    if buckets == [] then []
    else
      var last := |buckets| - 1;
      Those(buckets[..last], keep) + if keep(buckets[last]) then [buckets[last]] else []
  }

  lemma ThoseStep(buckets: seq<Bucket>, keep: Bucket -> bool)
    ensures buckets == [] ==> Those(buckets, keep) == []
    ensures buckets != [] ==>
            var last := |buckets| - 1;
            multiset(Those(buckets, keep))
            == multiset(Those(buckets[..last], keep))
               + if keep(buckets[last]) then multiset{buckets[last]} else multiset{}
  {
  }

  /** Three kinds that exclude each other, put one behind the other, are an order. */
  lemma {:induction false} ThosePermute(buckets: seq<Bucket>, a: Bucket -> bool, m: Bucket -> bool, z: Bucket -> bool)
    requires forall b :: (a(b) ==> !m(b)) && (z(b) <==> !a(b) && !m(b))
    ensures multiset(Those(buckets, a)) + multiset(Those(buckets, m)) + multiset(Those(buckets, z)) == multiset(buckets)
  {
    hide Those;
    ThoseStep(buckets, a);
    ThoseStep(buckets, m);
    ThoseStep(buckets, z);
    if buckets != [] {
      var last := |buckets| - 1;
      ThosePermute(buckets[..last], a, m, z);
      assert buckets == buckets[..last] + [buckets[last]];
    }
  }

  lemma Pieces(a: seq<Bucket>, m: seq<Bucket>, z: seq<Bucket>, i: nat)
    requires i < |a + m + z|
    ensures if i < |a| then (a + m + z)[i] in a else if i < |a + m| then (a + m + z)[i] in m else (a + m + z)[i] in z
  {
    assert i < |a| ==> (a + m + z)[i] == a[i];
    assert |a| <= i < |a + m| ==> (a + m + z)[i] == m[i - |a|];
    assert |a + m| <= i ==> (a + m + z)[i] == z[i - |a + m|];
  }

  /** Any buckets that are no literals can come before any literal, and all others behind it. */
  lemma LedBy(env: PyEnv, buckets: seq<Bucket>, f: Bucket, before: Bucket -> bool)
      returns (ys: seq<Bucket>, p: nat)
    requires NoRepeat(buckets) && f in buckets && IsLiteral(env, f)
    requires forall b :: before(b) ==> !IsLiteral(env, b)
    ensures multiset(ys) == multiset(buckets) && LeadsAt(env, ys, p) && ys[p] == f
    ensures forall i :: 0 <= i < |ys| && i != p ==> ys[i] != f && (i < p <==> before(ys[i]))
  {
    hide IsLiteral;
    var isLead, behind := b => b == f, b => !before(b) && b != f;
    var a, m, z := Those(buckets, before), Those(buckets, isLead), Those(buckets, behind);
    ThosePermute(buckets, before, isLead, behind);
    ys, p := a + m + z, |a|;
    NoRepeatPermuted(buckets, ys);
    assert f in m;
    forall i | 0 <= i < |ys| ensures if i < p then before(ys[i]) else !before(ys[i]) {
      Pieces(a, m, z, i);
    }
    Pieces(a, m, z, p);
  }

  lemma NotAlways(env: PyEnv, buckets: seq<Bucket>, op: Op, value: Py, id: DocId) returns (ys: seq<Bucket>)
    requires IsFold(env.fold) && IsComparison(op) && Settled(env, value) && NoRepeat(buckets)
    requires !AlwaysFound(env, buckets, op, value, id)
    ensures multiset(ys) == multiset(buckets) && id !in Collected(env, ys, op, value)
  {
    hide Collected, FindsAt, Settled, IsComparison, IsLiteral;
    var f :| f in buckets && IsLiteral(env, f) && !FoundAsLead(env, op, value, f, id)
             && forall b :: b in buckets ==> !FoundBeside(env, op, value, f, b, id);
    var p;
    ys, p := LedBy(env, buckets, f, b => !IsLiteral(env, b) && !FindsAt(env, op, b, value, true));
    SameMembers(buckets, ys);
    LedCollected(env, op, value, ys, p, id);
    forall i | 0 <= i < |ys| && id in ys[i].docs ensures !FindsAt(env, op, ys[i], value, i <= p) {
      assert ys[i] in buckets;
      if i != p {
        assert !FoundBeside(env, op, value, f, ys[i], id);
      }
    }
  }

  lemma NotNever(env: PyEnv, buckets: seq<Bucket>, op: Op, value: Py, id: DocId) returns (ys: seq<Bucket>)
    requires IsFold(env.fold) && IsComparison(op) && Settled(env, value) && NoRepeat(buckets)
    requires !NeverFound(env, buckets, op, value, id)
    ensures multiset(ys) == multiset(buckets) && id in Collected(env, ys, op, value)
  {
    hide Collected, FindsAt, Settled, IsComparison, IsLiteral;
    var f :| f in buckets && IsLiteral(env, f)
             && (FoundAsLead(env, op, value, f, id)
                 || exists b :: b in buckets && FoundSomehow(env, op, value, f, b, id));
    if FoundAsLead(env, op, value, f, id) {
      var p;
      ys, p := LedBy(env, buckets, f, b => false);
      LedCollected(env, op, value, ys, p, id);
    } else {
      var b :| b in buckets && FoundSomehow(env, op, value, f, b, id);
      ys := BesideLead(env, buckets, op, value, f, b, id);
    }
  }

  lemma BesideLead(env: PyEnv, buckets: seq<Bucket>, op: Op, value: Py, f: Bucket, b: Bucket, id: DocId)
      returns (ys: seq<Bucket>)
    requires IsFold(env.fold) && IsComparison(op) && Settled(env, value) && NoRepeat(buckets)
    requires f in buckets && IsLiteral(env, f) && b in buckets && FoundSomehow(env, op, value, f, b, id)
    ensures multiset(ys) == multiset(buckets) && id in Collected(env, ys, op, value)
  {
    hide Collected, FindsAt, Settled, IsComparison, IsLiteral, NoRepeat, LeadsAt;
    var late := FindsAt(env, op, b, value, false);
    var p;
    ys, p := LedBy(env, buckets, f, c => !late && c == b);
    SameMembers(buckets, ys);
    LedCollected(env, op, value, ys, p, id);
    var i :| 0 <= i < |ys| && ys[i] == b;
    assert FindsAt(env, op, ys[i], value, i <= p);
  }

  /** A comparison with a value that one parse settles, whatever documents the buckets
      share: all orders agree if and only if no bucket is a literal, or every document
      is found whichever literal comes first and wherever the others stand, or never. */
  lemma SettledOrdersAgreeIff(env: PyEnv, buckets: seq<Bucket>, op: Op, value: Py)
    requires IsFold(env.fold) && IsComparison(op) && Settled(env, value) && NoRepeat(buckets)
    ensures AllOrdersAgree(env, buckets, op, value) <==>
            || Literals(env, buckets) == 0
            || forall id :: AlwaysFound(env, buckets, op, value, id) || NeverFound(env, buckets, op, value, id)
  {
    hide Collected, Settled, IsComparison, IsLiteral, AlwaysFound, NeverFound, AllOrdersAgree, Literals;
    if Literals(env, buckets) == 0 {
      TextsAgree(env, buckets, op, value);
    } else if id :| !AlwaysFound(env, buckets, op, value, id) && !NeverFound(env, buckets, op, value, id) {
      var xs := NotAlways(env, buckets, op, value, id);
      var ys := NotNever(env, buckets, op, value, id);
      OrdersDiffer(env, buckets, xs, ys, op, value, id);
    } else {
      FixedOrdersAgree(env, buckets, op, value);
    }
  }

  lemma FixedOrdersAgree(env: PyEnv, buckets: seq<Bucket>, op: Op, value: Py)
    requires IsFold(env.fold) && IsComparison(op) && Settled(env, value) && NoRepeat(buckets)
    requires Literals(env, buckets) > 0
    requires forall id :: AlwaysFound(env, buckets, op, value, id) || NeverFound(env, buckets, op, value, id)
    ensures AllOrdersAgree(env, buckets, op, value)
  {
    hide Collected, Settled, IsComparison, IsLiteral, AlwaysFound, NeverFound, Literals;
    forall ys | multiset(ys) == multiset(buckets) ensures SameAnswer(env, buckets, ys, op, value) {
      forall id
        ensures id in Collected(env, buckets, op, value) <==> id in Collected(env, ys, op, value)
      {
        FoundInEachOrder(env, buckets, op, value, buckets, id);
        FoundInEachOrder(env, buckets, op, value, ys, id);
      }
    }
  }

  /** Without literals a bucket meets only the value as given or in lower case. */
  lemma TextsAgree(env: PyEnv, buckets: seq<Bucket>, op: Op, value: Py)
    requires IsFold(env.fold) && IsComparison(op) && Settled(env, value) && Literals(env, buckets) == 0
    ensures AllOrdersAgree(env, buckets, op, value)
  {
    hide Collected, Settled, IsComparison, IsLiteral, JudgesAlike, Finds, Plain;
    forall i | 0 <= i < |buckets|
      ensures JudgesAlike(env, op, buckets[i], value, 0, |buckets|)
    {
      PlainFinds(env, op, buckets[i], value);
      TextAlike(env, op, buckets[i], value, |buckets|);
    }
    FreeOrdersAgree(env, buckets, op, value);
  }

  lemma TextAlike(env: PyEnv, op: Op, b: Bucket, value: Py, others: nat)
    requires Settled(env, value) && Finds(env, op, b, Plain(env, value)) == Finds(env, op, b, value)
    ensures JudgesAlike(env, op, b, value, 0, others)
  {
    hide Finds, Plain, Parsed, Dated;
    assert Peel(env, Plain(env, value), 0) == Plain(env, value);
  }
}
