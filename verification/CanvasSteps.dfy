/** What the processing of one position, a batch and a turn do, kind by kind. */
module CanvasSteps {
  import opened Text
  import opened CanvasGraph
  import opened CanvasRun

  // ----- What a component schedules -----

  /** The item that a group begins with: of an iteration an iteration item, of a loop
      a loop item. */
  predicate BeginsGroup(g: Graph, group: Id, id: Id)
    requires id in g.components && group in g.components
  {
    var item, outer := g.components[id], g.components[group];
    && item.parent == Some(group)
    && (outer.kind == Iteration ==> item.kind == IterationItem)
    && (outer.kind == Loop ==> item.kind == LoopItem)
  }

  lemma {:induction false} FirstAmong(g: Graph, group: Id, ids: seq<Id>)
    requires group in g.components && IsGroup(g.components[group].kind) && Known(g, ids)
    ensures var start := StartAmong(g, group, ids);
            if start.None? then forall i :: 0 <= i < |ids| ==> !BeginsGroup(g, group, ids[i])
            else exists i :: 0 <= i < |ids| && ids[i] == start.value && BeginsGroup(g, group, ids[i])
                             && forall j :: 0 <= j < i ==> !BeginsGroup(g, group, ids[j])
  {
    if ids != [] {
      FirstAmong(g, group, ids[1..]);
      var start := StartAmong(g, group, ids);
      if BeginsGroup(g, group, ids[0]) {
        assert ids[0] == start.value;
      } else if start.Some? {
        var k :| 0 <= k < |ids[1..]| && ids[1..][k] == start.value && BeginsGroup(g, group, ids[1..][k])
                 && forall j :: 0 <= j < k ==> !BeginsGroup(g, group, ids[1..][j]);
        forall j | 0 <= j < k + 1 ensures !BeginsGroup(g, group, ids[j]) {
          assert j > 0 ==> ids[j] == ids[1..][j - 1];
        }
        assert ids[k + 1] == start.value;
      }
    }
  }

  /** A group starts with the first of its items in the stored order. */
  lemma StartIsFirst(g: Graph, group: Id)
    requires Proper(g) && group in g.components
    requires g.components[group].kind == Iteration || g.components[group].kind == Loop
    ensures exists i :: 0 <= i < |g.order| && Known(g, g.order) && BeginsGroup(g, group, g.order[i])
                        && Start(g, group) == Some(g.order[i])
                        && forall j :: 0 <= j < i ==> !BeginsGroup(g, group, g.order[j])
  {
    assert ProperComponent(g, group);
    forall k | 0 <= k < |g.order| ensures g.order[k] in g.components {
      assert g.order[k] in g.order;
    }
    FirstAmong(g, group, g.order);
  }

  /** A list with equal neighbours collapsed into one. */
  function Squeeze(ids: seq<Id>): seq<Id> {
    if |ids| <= 1 then ids else (if ids[0] == ids[1] then [] else [ids[0]]) + Squeeze(ids[1..])
  }

  lemma SqueezeFront(a: Id, b: Id, rest: seq<Id>)
    ensures Squeeze([a, b] + rest) == (if a == b then [] else [a]) + Squeeze([b] + rest)
  {
    assert ([a, b] + rest)[1..] == [b] + rest;
  }

  lemma SqueezeOne(id: Id)
    ensures Squeeze([id]) == [id]
  {
  }

  lemma Shift(a: seq<Id>, b: seq<Id>, c: seq<Id>)
    ensures a + b + c == a + (b + c)
    ensures b == [] ==> a + (b + c) == a + c
  {
    assert b == [] ==> b + c == c;
  }

  lemma AppendAllStep(path: seq<Id>, ids: seq<Id>)
    requires path != []
    ensures AppendAll(path, ids) ==
            if ids == [] then path
            else AppendAll(if path[|path| - 1] == ids[0] then path else path + [ids[0]], ids[1..])
  {
  }

  /** Appending one by one, unless the path ends so already, collapses equal neighbours
      of the last entry and the list, and nothing else. */
  lemma {:induction false} AppendAllSqueezes(path: seq<Id>, ids: seq<Id>)
    requires path != []
    ensures var n := |path| - 1; AppendAll(path, ids) == path[..n] + Squeeze([path[n]] + ids)
    decreases |ids|
  {
    hide Squeeze, AppendAll;
    var n := |path| - 1;
    AppendAllStep(path, ids);
    if ids == [] {
      SqueezeOne(path[n]);
      assert [path[n]] + ids == [path[n]] && path == path[..n] + [path[n]];
    } else {
      var next := if path[n] == ids[0] then path else path + [ids[0]];
      AppendAllSqueezes(next, ids[1..]);
      SqueezeFront(path[n], ids[0], ids[1..]);
      assert [path[n]] + ids == [path[n], ids[0]] + ids[1..];
      if path[n] != ids[0] {
        assert next[..n + 1] == path[..n] + [path[n]];
        Shift(path[..n], [path[n]], Squeeze([ids[0]] + ids[1..]));
      } else {
        Shift(path[..n], [], Squeeze([ids[0]] + ids[1..]));
      }
    }
  }

  /** Where a component goes on to that is no choice, group or end of one: downstream,
      or, at the end of a group's body, back to its start. */
  function GoesOn(g: Graph, c: Component): seq<Id> {
    if |c.downstream| > 0 || c.parent == None then c.downstream
    else
      var start := Start(g, c.parent.value);
      if start.None? then [] else [start.value]
  }

  /** What each kind of component asks for, in order. */
  function Wants(g: Graph, c: Component, id: Id, r: Reading): seq<Id> {
    match c.kind
    case Categorize => r.next
    case Switch => r.next
    case Iteration => StartOf(g, id)
    case Loop => StartOf(g, id)
    case IterationItem => if r.ended then Behind(g, c) else GoesOn(g, c)
    case LoopItem => if r.ended then Behind(g, c) else GoesOn(g, c)
    case ExitLoop =>
      if c.parent.Some? && c.parent.value in g.components && g.components[c.parent.value].kind == Loop then Behind(g, c)
      else GoesOn(g, c)
    case Begin => GoesOn(g, c)
    case UserFillUp => GoesOn(g, c)
    case Message => GoesOn(g, c)
    case Plain => GoesOn(g, c)
  }

  function StartOf(g: Graph, group: Id): seq<Id> {
    var start := Start(g, group);
    if start.Some? then [start.value] else []
  }

  /** What comes behind the group that a component is in. */
  function Behind(g: Graph, c: Component): seq<Id> {
    if c.parent.Some? && c.parent.value in g.components then g.components[c.parent.value].downstream else []
  }

  lemma OffersAreWanted(g: Graph, id: Id, r: Reading)
    requires Proper(g) && id in g.components && ProperComponent(g, id)
    ensures Offers(g, id, r) == Wants(g, g.components[id], id, r)
  {
    hide Start, Known;
    var c := g.components[id];
    if c.parent.Some? {
      assert ProperComponent(g, c.parent.value);
    }
  }

  /** After a position is processed the path is extended by exactly what its kind asks
      for, in order, equal neighbours collapsed; or, on an error with a jump, by the
      jump's targets as they are. */
  lemma PostOneSchedules(g: Graph, st: State, i: nat, r: Reading)
    requires Proper(g) && i < |st.path| && st.path[i] in g.components
    ensures var c, last := g.components[st.path[i]], |st.path| - 1;
            PostOne(g, st, i, r).path ==
            if r.error != "" && c.handler.Some? && c.handler.value.goto != [] then st.path + c.handler.value.goto
            else st.path[..last] + Squeeze([st.path[last]] + Wants(g, c, st.path[i], r))
  {
    hide AppendAll, Offers, Wants, Squeeze, Speak;
    assert ProperComponent(g, st.path[i]);
    hide ProperComponent, Proper;
    AppendAllSqueezes(st.path, Offers(g, st.path[i], r));
    OffersAreWanted(g, st.path[i], r);
    SpeakKeeps(g.components[st.path[i]].kind, st, st.path[i], r);
  }

  lemma SpeakKeeps(kind: Kind, st: State, id: Id, r: Reading)
    ensures Speak(kind, st, id, r).path == st.path && Speak(kind, st, id, r).error == st.error
    ensures Speak(kind, st, id, r).held == st.held && Speak(kind, st, id, r).calls == st.calls
  {
  }

  // ----- What a component reports -----

  /** Every waiting entry before `n` has been consumed, and the one at `n` has not. */
  ghost predicate ConsumedUpTo(waiting: seq<Id>, streams: set<Id>, n: nat) {
    && n <= |waiting| && (forall k :: 0 <= k < n ==> waiting[k] !in streams)
    && (n < |waiting| ==> waiting[n] in streams)
  }

  lemma {:induction false} SpentMeans(waiting: seq<Id>, streams: set<Id>)
    ensures ConsumedUpTo(waiting, streams, Spent(waiting, streams))
  {
    if waiting != [] && waiting[0] !in streams {
      SpentMeans(waiting[1..], streams);
      assert forall k :: 0 < k < |waiting| ==> waiting[k] == waiting[1..][k - 1];
    }
  }

  /** The error that stops the run: one that neither a jump nor a default handles. */
  predicate StopsRun(c: Component, r: Reading) {
    r.error != "" && (c.handler.None? || (c.handler.value.goto == [] && !c.handler.value.hasDefault))
  }

  /** The finish of a component is held back while its content is a stream, unless
      the run has failed. */
  predicate HoldsBack(c: Component, st: State, r: Reading) {
    c.kind != Iteration && c.kind != Loop && r.streamed && st.error == "" && !StopsRun(c, r)
  }

  /** What a message says, with the waiting finishes that leave behind it. */
  function MessageTells(c: Component, st: State, id: Id, n: nat): seq<Event>
    requires n <= |st.partials|
  {
    if c.kind == Message
    then [Said(id), MessageEnded(id)] + seq(n, k requires 0 <= k < n => Finished(st.partials[k], true))
    else []
  }

  /** The default answer to an error. */
  function DefaultTells(c: Component, id: Id, r: Reading): seq<Event> {
    if r.error != "" && c.handler.Some? && c.handler.value.goto == [] && c.handler.value.hasDefault
    then [Said(id), MessageEnded(id)]
    else []
  }

  /** The component's own finish. */
  function FinishTells(c: Component, st: State, id: Id, r: Reading): seq<Event> {
    if c.kind == Iteration || c.kind == Loop || HoldsBack(c, st, r) then [] else [Finished(id, false)]
  }

  /** The finish of the group that an item has ended. */
  function GroupTells(c: Component, r: Reading): seq<Event> {
    if (c.kind == IterationItem || c.kind == LoopItem) && r.ended && c.parent.Some?
    then [GroupFinished(c.parent.value)]
    else []
  }

  lemma SpeakTells(c: Component, st: State, id: Id, r: Reading) returns (n: nat)
    ensures n <= |st.partials| && (if c.kind == Message then ConsumedUpTo(st.partials, r.streams, n) else n == 0)
    ensures Speak(c.kind, st, id, r)
         == st.(partials := st.partials[n..], events := st.events + MessageTells(c, st, id, n))
  {
    n := if c.kind == Message then Spent(st.partials, r.streams) else 0;
    SpentMeans(st.partials, r.streams);
    if c.kind == Message {
      assert Late(st.partials[..n]) == seq(n, k requires 0 <= k < n => Finished(st.partials[k], true));
      assert st.events + [Said(id), MessageEnded(id)] + Late(st.partials[..n])
          == st.events + ([Said(id), MessageEnded(id)] + Late(st.partials[..n]));
    } else {
      assert st.partials[0..] == st.partials && st.events + [] == st.events;
    }
  }

  lemma FaultTells(c: Component, st: State, id: Id, r: Reading)
    ensures Fault(c, st, id, r).events == st.events + DefaultTells(c, id, r)
    ensures Fault(c, st, id, r).error == if StopsRun(c, r) then r.error else st.error
    ensures Fault(c, st, id, r).partials == st.partials && st.path <= Fault(c, st, id, r).path
  {
  }

  lemma ReportTells(c: Component, before: State, st: State, id: Id, r: Reading)
    requires st.error == if StopsRun(c, r) then r.error else before.error
    ensures Report(c.kind, st, id, r).events == st.events + FinishTells(c, before, id, r)
    ensures Report(c.kind, st, id, r).partials == st.partials + if HoldsBack(c, before, r) then [id] else []
    ensures Report(c.kind, st, id, r).error == st.error && Report(c.kind, st, id, r).path == st.path
  {
  }

  lemma AdvanceTells(g: Graph, st: State, id: Id, r: Reading, jumped: bool)
    requires id in g.components && ProperComponent(g, id) && st.path != []
    ensures var next := Advance(g, st, id, r, jumped);
            && next.events == st.events + GroupTells(g.components[id], r)
            && next.partials == st.partials && next.error == st.error
  {
    hide AppendAll, Offers, Start, Known;
  }

  lemma PostOneStages(g: Graph, st: State, i: nat, r: Reading)
    requires Proper(g) && i < |st.path| && st.path[i] in g.components
    ensures var c, id := g.components[st.path[i]], st.path[i];
            var reported := Report(c.kind, Fault(c, Speak(c.kind, st, id, r), id, r), id, r);
            && ProperComponent(g, id) && reported.path != []
            && PostOne(g, st, i, r) == Advance(g, reported, id, r, Jumps(c, r))
  {
    hide Advance, Offers;
  }

  /** Processing a position sets the error exactly when nothing handles it, lets the
      waiting finishes leave only behind a message and only as far as their streams are
      consumed, and tells exactly this. */
  lemma PostOneTells(g: Graph, st: State, i: nat, r: Reading) returns (n: nat)
    requires Proper(g) && i < |st.path| && st.path[i] in g.components
    ensures var c, id, next := g.components[st.path[i]], st.path[i], PostOne(g, st, i, r);
            && n <= |st.partials| && (if c.kind == Message then ConsumedUpTo(st.partials, r.streams, n) else n == 0)
            && next.error == (if StopsRun(c, r) then r.error else st.error)
            && next.partials == st.partials[n..] + (if HoldsBack(c, st, r) then [id] else [])
            && next.events == st.events + MessageTells(c, st, id, n) + DefaultTells(c, id, r)
                              + FinishTells(c, st, id, r) + GroupTells(c, r)
  {
    var id := st.path[i];
    var c := g.components[id];
    assert ProperComponent(g, id);
    PostOneStages(g, st, i, r);
    hide PostOne, Speak, Fault, Report, Advance, ProperComponent, Proper;
    hide MessageTells, DefaultTells, FinishTells, GroupTells, HoldsBack, StopsRun, ConsumedUpTo;
    n := SpeakTells(c, st, id, r);
    var spoken := Speak(c.kind, st, id, r);
    var faulty := Fault(c, spoken, id, r);
    FaultTells(c, spoken, id, r);
    ReportTells(c, st, faulty, id, r);
    AdvanceTells(g, Report(c.kind, faulty, id, r), id, r, Jumps(c, r));
  }

  // ----- What a batch and a turn do -----

  /** A batch announces all of its entries in order, also those that are popped then,
      before anything else is told; and records those that are left as invoked. */
  lemma BatchAnnounces(g: Graph, o: Oracle, st: State, idx: nat)
    requires Proper(g) && Obeys(g, o) && Known(g, st.path) && idx <= |st.path|
    ensures var next, pending := Batch(g, o, st, idx), st.path[idx..];
            && |st.events| + |pending| <= |next.events| && st.events <= next.events
            && (forall k :: 0 <= k < |pending| ==> next.events[|st.events| + k] == Started(pending[k]))
  {
    hide Prune, Post;
    PostOnlyTells(g, o, Invoked(g, st, idx), idx, |Prune(g, st.path, idx)|);
  }

  lemma PostOneOnlyTells(g: Graph, st: State, i: nat, r: Reading)
    requires Proper(g) && i < |st.path| && st.path[i] in g.components
    ensures st.events <= PostOne(g, st, i, r).events
  {
    hide PostOne, MessageTells, DefaultTells, FinishTells, GroupTells, ConsumedUpTo, HoldsBack, StopsRun, Proper;
    var n := PostOneTells(g, st, i, r);
  }

  lemma {:induction false} PostOnlyTells(g: Graph, o: Oracle, st: State, i: nat, end: nat)
    requires Proper(g) && Obeys(g, o) && Known(g, st.path) && i <= end <= |st.path|
    ensures st.events <= Post(g, o, st, i, end).events
    decreases end - i
  {
    hide PostOne, Proper, Obeys, Successor;
    if i < end {
      var r := o.reading(i, st.path[i]);
      PostOnePath(g, o, st, i);
      PostOneOnlyTells(g, st, i, r);
      PostOnlyTells(g, o, PostOne(g, st, i, r), i + 1, end);
    }
  }

  /** A turn fails exactly when its batch leaves an error, is suspended exactly when
      without one a fill-up is pending whose inputs are unmet, and goes on otherwise.
      Failing, it leaves the path up to the batch; suspended, it asks for the inputs. */
  lemma TurnMeans(g: Graph, o: Oracle, st: State, idx: nat)
    requires Proper(g) && Obeys(g, o) && Known(g, st.path) && idx < |st.path| && st.error == ""
    ensures var r, done, end := Turn(g, o, st, idx), Batch(g, o, st, idx), |Prune(g, st.path, idx)|;
            && end <= |done.path| && Known(g, done.path)
            && (r.2 == Failed <==> done.error != "")
            && (r.2 == Suspended <==>
                  && done.error == "" && o.unmet(end)
                  && exists k :: end <= k < |done.path| && g.components[done.path[k]].kind == UserFillUp)
            && (r.2 == Failed ==> r.0 == done.(path := st.path[..idx]) && r.1 == idx)
            && (r.2 == Going ==> r.0 == done && r.1 == end)
            && (r.2 == Suspended ==> r.0.events == done.events + [InputsAsked] && r.0.partials == done.partials)
            && r.2 != Ended
  {
    hide Batch, Prune;
    BatchGrows(g, o, st, idx);
    var done, end := Batch(g, o, st, idx), |Prune(g, st.path, idx)|;
    PrunePrefix(g, st.path, idx);
    assert done.path[..idx] == st.path[..idx] by {
      assert forall k :: 0 <= k < idx ==> done.path[k] == Prune(g, st.path, idx)[k];
    }
    AsksMeans(g, o, done.path, end);
    hide Asks, Waiting, Known;
  }

  lemma AsksMeans(g: Graph, o: Oracle, path: seq<Id>, idx: nat)
    requires idx <= |path| && Known(g, path)
    ensures Asks(g, o, path, idx) <==>
            o.unmet(idx) && exists k :: idx <= k < |path| && g.components[path[k]].kind == UserFillUp
  {
    if k :| idx <= k < |path| && g.components[path[k]].kind == UserFillUp {
      assert path[idx..][k - idx] == path[k];
      assert path[k] in path[idx..] && IsFillUp(g, path[k]);
    }
    if id :| id in path[idx..] && IsFillUp(g, id) {
      var k :| 0 <= k < |path[idx..]| && path[idx..][k] == id;
      assert g.components[path[idx + k]].kind == UserFillUp;
    }
  }

  lemma PrunePrefix(g: Graph, path: seq<Id>, i: nat)
    requires i <= |path| && Known(g, path)
    ensures i <= |Prune(g, path, i)| && forall k :: 0 <= k < i ==> Prune(g, path, i)[k] == path[k]
  {
  }

  // ----- Resumption -----

  /** Ten characters that spell the fill-up name, each in either case. */
  predicate SpellsFillUp(s: string) {
    && |s| == 10
    && forall k :: 0 <= k < 10 ==> s[k] == "userfillup"[k] || s[k] == "USERFILLUP"[k]
  }

  predicate SpellsFillUpAt(s: string, i: nat) {
    i + 10 <= |s| && SpellsFillUp(s[i..i + 10])
  }

  /** A run is resumed if and only if the first id of the saved path contains the name of
      the fill-up in any case. */
  lemma ResumesIff(path: seq<Id>)
    ensures Resumes(path) <==>
            path != [] && exists i: nat :: SpellsFillUpAt(path[0].name, i)
  {
    if path != [] {
      var name := path[0].name;
      if i: nat :| SpellsFillUpAt(name, i) {
        SpelledIsLowered(name[i..i + 10]);
        LowerSlice(AsciiLower, name, i, i + 10);
        assert OccursAt("userfillup", Lower(AsciiLower, name), i);
      }
      if Resumes(path) {
        var i: nat :| i <= |Lower(AsciiLower, name)| && OccursAt("userfillup", Lower(AsciiLower, name), i);
        LowerSlice(AsciiLower, name, i, i + 10);
        SpelledIsLowered(name[i..i + 10]);
        assert SpellsFillUpAt(name, i);
      }
    }
  }

  lemma SpelledIsLowered(s: string)
    requires |s| == 10
    ensures SpellsFillUp(s) <==> Lower(AsciiLower, s) == "userfillup"
  {
    forall k | 0 <= k < 10
      ensures (s[k] == "userfillup"[k] || s[k] == "USERFILLUP"[k]) <==> Lower(AsciiLower, s)[k] == "userfillup"[k]
    {
    }
  }
}
