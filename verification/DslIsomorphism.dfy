/** A migration whose new ids do not collide is an isomorphism of the component graph. */
module DslIsomorphism {
  import opened Text
  import opened Json
  import opened DslMigration
  import opened DslIdempotence
  import opened DslReferences

  // ----- Vertices -----

  /** No two of the first `n` components get the same new id. */
  ghost predicate Injective(components: seq<Field>, n: nat)
    requires n <= |components|
  {
    forall i, j :: 0 <= i < j < n ==> NewId(components[i].key) != NewId(components[j].key)
  }

  lemma MappedKey(components: seq<Field>, i: nat)
    requires i < |components|
    ensures components[i].key in IdMapOf(components)
    ensures MapId(IdMapOf(components), components[i].key) == NewId(components[i].key)
  {
    assert Keys(components)[i] == components[i].key;
  }

  lemma KeysStep(components: seq<Field>, n: nat)
    requires 0 < n <= |components|
    ensures var before := Keys(NewComponents(IdMapOf(components), components, n - 1));
            var key := NewId(components[n - 1].key);
            Keys(NewComponents(IdMapOf(components), components, n)) ==
            if key in before then before else before + [key]
  {
    hide NewId, NewComponent, IdMapOf, Store, Keys;
    var m := IdMapOf(components);
    MappedKey(components, n - 1);
    var last := components[n - 1];
    StoreKeys(NewComponents(m, components, n - 1), NewId(last.key), NewComponent(m, last.value));
  }

  /** One of the first `n` components gets a given new id. */
  ghost predicate Gets(components: seq<Field>, n: nat, key: string)
    requires n <= |components|
  {
    exists i :: 0 <= i < n && NewId(components[i].key) == key
  }

  lemma GetsStep(components: seq<Field>, n: nat, key: string)
    requires 0 < n <= |components|
    ensures Gets(components, n, key) <==> Gets(components, n - 1, key) || NewId(components[n - 1].key) == key
  {
    hide NewId;
    var i := n - 1;
    if NewId(components[i].key) == key {
      assert 0 <= i < n;
    }
  }

  lemma NoneYet(components: seq<Field>, key: string)
    ensures Keys(NewComponents(IdMapOf(components), components, 0)) == [] && !Gets(components, 0, key)
    ensures Injective(components, 0)
  {
  }

  /** The new ids are exactly the images of the old ones. */
  lemma {:induction false} NewKeys(components: seq<Field>, n: nat, key: string)
    requires n <= |components|
    ensures key in Keys(NewComponents(IdMapOf(components), components, n)) <==> Gets(components, n, key)
  {
    hide NewId, IdMapOf, Keys, NewComponents, Gets;
    NoneYet(components, key);
    if n > 0 {
      NewKeys(components, n - 1, key);
      KeysStep(components, n);
      GetsStep(components, n, key);
    }
  }

  /** Every new component is the image of an old one. */
  lemma {:induction false} NewValues(components: seq<Field>, n: nat, i: nat) returns (j: nat)
    requires n <= |components| && i < |NewComponents(IdMapOf(components), components, n)|
    ensures j < n
    ensures NewComponents(IdMapOf(components), components, n)[i].value
         == NewComponent(IdMapOf(components), components[j].value)
  {
    hide NewId, NewComponent, IdMapOf;
    var m := IdMapOf(components);
    var before := NewComponents(m, components, n - 1);
    j := n - 1;
    var key, value := MapId(m, components[j].key), NewComponent(m, components[j].value);
    StoredAt(before, key, value, i);
    if NewComponents(m, components, n)[i].value != value {
      j := NewValues(components, n - 1, i);
    }
  }

  lemma {:induction false} StoredAt(fields: seq<Field>, key: string, value: Json, i: nat)
    requires i < |Store(fields, key, value)|
    ensures Store(fields, key, value)[i].value == value
         || (i < |fields| && Store(fields, key, value)[i] == fields[i])
  {
    if fields != [] {
      var n := |fields| - 1;
      if fields[n].key != key && Find(fields, key).Some? {
        StoreLength(fields[..n], key, value);
        if i < n {
          StoredAt(fields[..n], key, value, i);
        }
      }
    }
  }

  lemma StoreLength(fields: seq<Field>, key: string, value: Json)
    requires Find(fields, key).Some?
    ensures |Store(fields, key, value)| == |fields|
  {
    hide Store, Find;
    StoreKeys(fields, key, value);
    var i :| 0 <= i < |fields| && fields[i].key == key;
    assert Keys(fields)[i] == key;
    assert |Keys(Store(fields, key, value))| == |Keys(fields)|;
  }

  /** Without collisions the components keep their number, places and order. */
  lemma {:induction false} NewComponentsAt(components: seq<Field>, n: nat)
    requires n <= |components| && Injective(components, n)
    ensures |NewComponents(IdMapOf(components), components, n)| == n
    ensures forall i :: 0 <= i < n ==> NewAt(components, NewComponents(IdMapOf(components), components, n), i)
  {
    hide NewId, NewComponent, IdMapOf;
    if n > 0 {
      NewComponentsAt(components, n - 1);
      NewComponentsStep(components, NewComponents(IdMapOf(components), components, n - 1), n);
    }
  }

  /** The `i`-th new component is the image of the `i`-th old one. */
  ghost predicate NewAt(components: seq<Field>, now: seq<Field>, i: nat)
    requires i < |components| && i < |now|
  {
    now[i] == Field(NewId(components[i].key), NewComponent(IdMapOf(components), components[i].value))
  }

  lemma NewComponentsStep(components: seq<Field>, before: seq<Field>, n: nat)
    requires 0 < n <= |components| && Injective(components, n)
    requires before == NewComponents(IdMapOf(components), components, n - 1) && |before| == n - 1
    requires forall i :: 0 <= i < n - 1 ==> NewAt(components, before, i)
    ensures |NewComponents(IdMapOf(components), components, n)| == n
    ensures forall i :: 0 <= i < n ==> NewAt(components, NewComponents(IdMapOf(components), components, n), i)
  {
    hide NewId, NewComponent, IdMapOf, Find, Store;
    var key, value := NewId(components[n - 1].key), NewComponent(IdMapOf(components), components[n - 1].value);
    MappedKey(components, n - 1);
    forall i | 0 <= i < |before| ensures before[i].key != key {
      assert NewAt(components, before, i);
      assert NewId(components[i].key) != NewId(components[n - 1].key);
    }
    StoreNew(before, key, value);
    var now := before + [Field(key, value)];
    forall i | 0 <= i < n ensures NewAt(components, now, i) {
      if i < n - 1 {
        assert NewAt(components, before, i);
      }
    }
  }

  lemma InjectiveStep(components: seq<Field>, n: nat)
    requires 0 < n <= |components|
    ensures Injective(components, n) <==>
            Injective(components, n - 1) && !Gets(components, n - 1, NewId(components[n - 1].key))
  {
    hide NewId;
  }

  lemma {:induction false} NoMoreThan(components: seq<Field>, n: nat)
    requires n <= |components|
    ensures |Keys(NewComponents(IdMapOf(components), components, n))| <= n
    ensures !Injective(components, n) ==> |Keys(NewComponents(IdMapOf(components), components, n))| < n
  {
    hide NewId, IdMapOf, Keys, NewComponents, Gets, Injective;
    NoneYet(components, "");
    if n > 0 {
      NoMoreThan(components, n - 1);
      KeysStep(components, n);
      NewKeys(components, n - 1, NewId(components[n - 1].key));
      InjectiveStep(components, n);
    }
  }

  /** The migration keeps the number of components if and only if no two new ids collide. */
  lemma CountIsKeptIff(components: seq<Field>)
    ensures |NewComponents(IdMapOf(components), components, |components|)| == |components| <==>
            Injective(components, |components|)
  {
    hide NewId, NewComponents;
    NoMoreThan(components, |components|);
    if Injective(components, |components|) {
      NewComponentsAt(components, |components|);
    }
  }

  // ----- References between components -----

  predicate IsLinkKey(key: string) {
    key == "downstream" || key == "upstream"
  }

  /** The references a component lists under a key. */
  function ListAt(component: Json, key: string): seq<Json> {
    if !component.Obj? then []
    else
      var found := Find(component.fields, key);
      if found.Some? && found.value.Arr? then found.value.items else []
  }

  ghost predicate Links(components: seq<Field>, key: string, from: string, id: string) {
    Find(components, from).Some? && Str(id) in ListAt(Find(components, from).value, key)
  }

  /** Every reference under a key is the id of a component. */
  ghost predicate Closed(components: seq<Field>, key: string) {
    forall i, j :: 0 <= i < |components| && 0 <= j < |ListAt(components[i].value, key)| ==>
      RefersTo(components, ListAt(components[i].value, key)[j])
  }

  predicate RefersTo(components: seq<Field>, ref: Json) {
    ref.Str? && ref.s in Keys(components)
  }

  /** A known id passes through the text rewriting and then the id map, and is
      mapped as if once. */
  lemma TwoMapsAreOne(components: seq<Field>, id: string)
    requires id in Keys(components)
    ensures MapRef(IdMapOf(components), Rewrite(IdMapOf(components), Str(id))) == Str(NewId(id))
  {
    NewIdIsCurrent(id);
  }

  /** What the later passes of a component leave under a key of its links. */
  lemma LinksOfNew(m: IdMap, fields: seq<Field>, key: string)
    requires IsLinkKey(key)
    ensures Find(NewComponent(m, Obj(fields)).fields, key) ==
            if Find(fields, key).None? then None else Some(Apply(m, Refs, Rewrite(m, Find(fields, key).value)))
  {
    hide At, NamedObj, Apply;
    var r := Rewrite(m, Obj(fields)).fields;
    FindRewritten(m, fields, key);
    NamedKeeps(r, key);
    var named := NamedObj(r);
    var down := At(m, Refs, named, "downstream");
    var up := At(m, Refs, down, "upstream");
    FindAfterAt(m, Refs, named, "downstream", key);
    FindAfterAt(m, Refs, down, "upstream", key);
    FindAfterAt(m, Id, up, "parent_id", key);
  }

  lemma ParentOfNew(m: IdMap, fields: seq<Field>)
    ensures Find(NewComponent(m, Obj(fields)).fields, "parent_id") ==
            if Find(fields, "parent_id").None? then None
            else Some(MapRef(m, Rewrite(m, Find(fields, "parent_id").value)))
  {
    hide At, NamedObj, Rewrite;
    assert Rewrite(m, Obj(fields)).Obj? by {
      RewriteKeepsKind(m, Obj(fields));
    }
    var r := Rewrite(m, Obj(fields)).fields;
    FindRewritten(m, fields, "parent_id");
    NamedKeeps(r, "parent_id");
    var named := NamedObj(r);
    var down := At(m, Refs, named, "downstream");
    var up := At(m, Refs, down, "upstream");
    FindAfterAt(m, Refs, named, "downstream", "parent_id");
    FindAfterAt(m, Refs, down, "upstream", "parent_id");
    FindAfterAt(m, Id, up, "parent_id", "parent_id");
  }

  /** What the migration makes of a reference. */
  function Image(m: IdMap, ref: Json): Json {
    MapRef(m, Rewrite(m, ref))
  }

  /** The list of a new component holds the images of the old references, in place. */
  lemma ListImage(components: seq<Field>, component: Json, key: string)
    requires IsLinkKey(key)
    ensures var m := IdMapOf(components);
            var before, after := ListAt(component, key), ListAt(NewComponent(m, component), key);
            |after| == |before| && forall j :: 0 <= j < |before| ==> after[j] == Image(m, before[j])
  {
    hide NewComponent, NewId, IdMapOf, MapRef;
    var m := IdMapOf(components);
    NewComponentKind(m, component);
    if component.Obj? {
      LinksOfNew(m, component.fields, key);
      var found := Find(component.fields, key);
      if found.Some? {
        RewriteKeepsKind(m, found.value);
        var before := ListAt(component, key);
        forall j | 0 <= j < |before| ensures ListAt(NewComponent(m, component), key)[j] == Image(m, before[j]) {
          assert Rewrite(m, found.value).items[j] == Rewrite(m, before[j]);
        }
      }
    }
  }

  /** The image of a reference to a component is its new id. */
  lemma KnownImage(components: seq<Field>, ref: Json)
    requires RefersTo(components, ref)
    ensures Image(IdMapOf(components), ref) == Str(NewId(ref.s))
  {
    TwoMapsAreOne(components, ref.s);
  }

  lemma NewComponentKind(m: IdMap, component: Json)
    ensures NewComponent(m, component).Obj? == component.Obj?
  {
    RewriteKeepsKind(m, component);
  }

  /** References that were closed stay closed, whether or not new ids collide. */
  lemma ClosedStaysClosed(components: seq<Field>, key: string)
    requires IsLinkKey(key) && Closed(components, key)
    ensures Closed(NewComponents(IdMapOf(components), components, |components|), key)
  {
    hide NewComponents, NewComponent, NewId, IdMapOf, ListAt;
    var m := IdMapOf(components);
    var now := NewComponents(m, components, |components|);
    forall i, j | 0 <= i < |now| && 0 <= j < |ListAt(now[i].value, key)|
      ensures RefersTo(now, ListAt(now[i].value, key)[j])
    {
      var k := NewValues(components, |components|, i);
      ListImage(components, components[k].value, key);
      var ref := ListAt(components[k].value, key)[j];
      assert RefersTo(components, ref);
      KnownImage(components, ref);
      var p :| 0 <= p < |components| && Keys(components)[p] == ref.s;
      NewKeys(components, |components|, NewId(ref.s));
      assert NewId(components[p].key) == NewId(ref.s);
    }
  }

  /** Without collisions, a component is found under its new id. */
  lemma FindNew(components: seq<Field>, id: string)
    requires Distinct(components) && Injective(components, |components|) && id in Keys(components)
    ensures var m := IdMapOf(components);
            && Find(components, id).Some?
            && Find(NewComponents(m, components, |components|), NewId(id))
               == Some(NewComponent(m, Find(components, id).value))
  {
    hide NewComponents, NewComponent, NewId, IdMapOf;
    NewComponentsAt(components, |components|);
    var now := NewComponents(IdMapOf(components), components, |components|);
    var i :| 0 <= i < |components| && Keys(components)[i] == id;
    FindAt(components, i);
    assert NewAt(components, now, i);
    forall p, q | 0 <= p < q < |now| ensures now[p].key != now[q].key {
      assert NewAt(components, now, p) && NewAt(components, now, q);
    }
    FindAt(now, i);
  }

  /** A list names no component, but the migration makes a reference to one of it. */
  ghost predicate Strays(components: seq<Field>, refs: seq<Json>, id: string) {
    exists j :: 0 <= j < |refs| && !RefersTo(components, refs[j])
                && Image(IdMapOf(components), refs[j]) == Str(NewId(id))
  }

  /** Without collisions, downstream and upstream links are those of the old graph, and
      those that stray references become. */
  lemma LinksAreKept(components: seq<Field>, key: string, from: string, id: string)
    requires Distinct(components) && Injective(components, |components|)
    requires IsLinkKey(key) && from in Keys(components) && id in Keys(components)
    ensures Find(components, from).Some?
    ensures Links(NewComponents(IdMapOf(components), components, |components|), key, NewId(from), NewId(id)) <==>
            || Links(components, key, from, id)
            || Strays(components, ListAt(Find(components, from).value, key), id)
  {
    hide NewComponents, NewComponent, NewId, IdMapOf, ListAt, Find, Keys, Image;
    FindNew(components, from);
    var component := Find(components, from).value;
    ListImage(components, component, key);
    var before, after := ListAt(component, key), ListAt(NewComponent(IdMapOf(components), component), key);
    if Str(id) in before {
      var j :| 0 <= j < |before| && before[j] == Str(id);
      KnownImage(components, Str(id));
      assert after[j] == Str(NewId(id));
    }
    if Strays(components, before, id) {
      var j :| 0 <= j < |before| && Image(IdMapOf(components), before[j]) == Str(NewId(id));
      assert after[j] == Str(NewId(id));
    }
    if Str(NewId(id)) in after {
      var j :| 0 <= j < |after| && after[j] == Str(NewId(id));
      if RefersTo(components, before[j]) {
        KnownImage(components, before[j]);
        SameId(components, before[j].s, id);
      }
    }
  }

  lemma PlaceOf(components: seq<Field>, id: string) returns (k: nat)
    requires Distinct(components) && id in Keys(components)
    ensures k < |components| && components[k].key == id && Find(components, id) == Some(components[k].value)
  {
    k :| 0 <= k < |components| && Keys(components)[k] == id;
    FindAt(components, k);
  }

  lemma SameId(components: seq<Field>, a: string, b: string)
    requires Injective(components, |components|) && a in Keys(components) && b in Keys(components)
    requires NewId(a) == NewId(b)
    ensures a == b
  {
    hide NewId;
    var i :| 0 <= i < |components| && Keys(components)[i] == a;
    var j :| 0 <= j < |components| && Keys(components)[j] == b;
  }

  // ----- Path, nodes and edges -----

  /** An optional id with the id map applied; what is not text stays. */
  function Mapped(m: IdMap, id: Option<Json>): Option<Json> {
    if id.None? then None else Some(MapRef(m, id.value))
  }

  lemma NodeImage(m: IdMap, node: seq<Field>)
    ensures Find(NewNode(m, Obj(node)).fields, "id") == Mapped(m, Find(node, "id"))
    ensures Find(NewNode(m, Obj(node)).fields, "parentId") == Mapped(m, Find(node, "parentId"))
  {
    hide At, DataAt, MapRef, Find;
    var one := At(m, Id, node, "id");
    var two := At(m, Id, one, "parentId");
    var three := At(m, NodeType, two, "type");
    FindAfterAt(m, Id, node, "id", "id");
    FindAfterAt(m, Id, node, "id", "parentId");
    FindAfterAt(m, Id, one, "parentId", "id");
    FindAfterAt(m, Id, one, "parentId", "parentId");
    FindAfterAt(m, NodeType, two, "type", "id");
    FindAfterAt(m, NodeType, two, "type", "parentId");
    DataKeeps(m, three, "id");
    DataKeeps(m, three, "parentId");
  }

  lemma EdgeImage(m: IdMap, ids: seq<string>, edge: seq<Field>)
    ensures Find(NewEdge(m, ids, Obj(edge)).fields, "source") == Mapped(m, Find(edge, "source"))
    ensures Find(NewEdge(m, ids, Obj(edge)).fields, "target") == Mapped(m, Find(edge, "target"))
  {
    hide At, NewEdgeId, MapRef;
    var one := At(m, Id, edge, "source");
    var two := At(m, Id, one, "target");
    FindAfterAt(m, Id, edge, "source", "source");
    FindAfterAt(m, Id, edge, "source", "target");
    FindAfterAt(m, Id, one, "target", "source");
    FindAfterAt(m, Id, one, "target", "target");
    var id := Find(two, "id");
    if id.Some? && id.value.Str? {
      FindStored(two, "id", Str(NewEdgeId(m, ids, id.value.s, |ids|)), "source");
      FindStored(two, "id", Str(NewEdgeId(m, ids, id.value.s, |ids|)), "target");
    }
  }

  lemma NodesImage(m: IdMap, graph: seq<Field>)
    ensures var before, after := ListAt(Obj(graph), "nodes"), ListAt(Obj(NodesAt(m, graph)), "nodes");
            && |after| == |before|
            && forall i :: 0 <= i < |before| ==> after[i] == NewNode(m, before[i])
    ensures Find(NodesAt(m, graph), "edges") == Find(graph, "edges")
  {
    hide NewNode;
    var nodes := Find(graph, "nodes");
    if nodes.Some? && nodes.value.Arr? {
      var items := nodes.value.items;
      var now := Arr(seq(|items|, i requires 0 <= i < |items| => NewNode(m, items[i])));
      FindStored(graph, "nodes", now, "nodes");
      FindStored(graph, "nodes", now, "edges");
    }
  }

  lemma EdgesImage(m: IdMap, ids: seq<string>, graph: seq<Field>)
    ensures var before, after := ListAt(Obj(graph), "edges"), ListAt(Obj(EdgesAt(m, ids, graph)), "edges");
            && |after| == |before|
            && forall i :: 0 <= i < |before| ==> after[i] == NewEdge(m, ids, before[i])
  {
    hide NewEdge;
    var edges := Find(graph, "edges");
    if edges.Some? && edges.value.Arr? {
      var items := edges.value.items;
      FindStored(graph, "edges", Arr(seq(|items|, i requires 0 <= i < |items| => NewEdge(m, ids, items[i]))), "edges");
    }
  }

  /** Nodes and edges keep their number and order, each replaced by its image. */
  lemma GraphImage(m: IdMap, ids: seq<string>, graph: seq<Field>)
    ensures var now := EdgesAt(m, ids, NodesAt(m, graph));
            var nodes, edges := ListAt(Obj(graph), "nodes"), ListAt(Obj(graph), "edges");
            && |ListAt(Obj(now), "nodes")| == |nodes| && |ListAt(Obj(now), "edges")| == |edges|
            && (forall i :: 0 <= i < |nodes| ==> ListAt(Obj(now), "nodes")[i] == NewNode(m, nodes[i]))
            && (forall i :: 0 <= i < |edges| ==> ListAt(Obj(now), "edges")[i] == NewEdge(m, ids, edges[i]))
  {
    hide NewNode, NewEdge, NodesAt, EdgesAt;
    NodesImage(m, graph);
    EdgesImage(m, ids, NodesAt(m, graph));
    NodesKept(m, ids, NodesAt(m, graph));
  }

  /** The path is mapped entry by entry. */
  lemma PathImage(fields: seq<Field>, components: seq<Field>)
    ensures var before := ListAt(Obj(fields), "path");
            var after := ListAt(Obj(NewFields(fields, components)), "path");
            && |after| == |before|
            && forall i :: 0 <= i < |before| ==> after[i] == MapRef(IdMapOf(components), before[i])
  {
    hide NewFields, IdMapOf, MapRef, Find;
    FindInNew(fields, components);
  }

  // ----- The migrated document -----

  ghost predicate ParentIs(components: seq<Field>, id: string, parent: string) {
    var component := Find(components, id);
    component.Some? && component.value.Obj? && Find(component.value.fields, "parent_id") == Some(Str(parent))
  }

  /** A component has a parent that is no component, and is made one by the migration. */
  ghost predicate StrayParent(components: seq<Field>, id: string, parent: string) {
    exists was :: ParentIs(components, id, was) && was !in Keys(components)
                  && Image(IdMapOf(components), Str(was)) == Str(NewId(parent))
  }

  /** Without collisions, one component is the parent of another if and only if their
      images are, or a stray parent becomes one. */
  lemma ParentsAreKept(components: seq<Field>, id: string, parent: string)
    requires Distinct(components) && Injective(components, |components|)
    requires id in Keys(components) && parent in Keys(components)
    ensures ParentIs(NewComponents(IdMapOf(components), components, |components|), NewId(id), NewId(parent)) <==>
            ParentIs(components, id, parent) || StrayParent(components, id, parent)
  {
    hide NewComponents, NewComponent, NewId, IdMapOf, Keys, Rewrite, MapRef;
    var m := IdMapOf(components);
    FindNew(components, id);
    var component := Find(components, id).value;
    NewComponentKind(m, component);
    if component.Obj? {
      ParentOfNew(m, component.fields);
      var was := Find(component.fields, "parent_id");
      if was.Some? {
        MappedParent(m, was.value);
        if was.value.Str? {
          assert ParentIs(components, id, was.value.s);
          if was.value.s in Keys(components) {
            KnownImage(components, was.value);
            if NewId(was.value.s) == NewId(parent) {
              SameId(components, was.value.s, parent);
            }
          }
        }
      }
    }
  }

  lemma MappedParent(m: IdMap, v: Json)
    ensures MapRef(m, Rewrite(m, v)).Str? <==> v.Str?
  {
  }

  ghost predicate SameLinks(components: seq<Field>, now: seq<Field>, key: string) {
    forall from, id :: from in Keys(components) && id in Keys(components) ==>
      (Links(now, key, NewId(from), NewId(id)) <==> Links(components, key, from, id))
  }

  ghost predicate SameParents(components: seq<Field>, now: seq<Field>) {
    forall id, parent :: id in Keys(components) && parent in Keys(components) ==>
      (ParentIs(now, NewId(id), NewId(parent)) <==> ParentIs(components, id, parent))
  }

  /** The old graph and the new one are the same up to the new ids. */
  ghost predicate Isomorphic(components: seq<Field>, now: seq<Field>) {
    && |now| == |components| && (forall i :: 0 <= i < |now| ==> now[i].key == NewId(components[i].key))
    && SameLinks(components, now, "downstream") && SameLinks(components, now, "upstream")
    && SameParents(components, now)
  }

  /** No reference outside the components becomes one to a component that is not
      listed beside it. */
  ghost predicate NoStrayLinks(components: seq<Field>, key: string) {
    forall from, id :: from in Keys(components) && id in Keys(components) && Find(components, from).Some? ==>
      Strays(components, ListAt(Find(components, from).value, key), id) ==> Links(components, key, from, id)
  }

  ghost predicate NoStrayParents(components: seq<Field>) {
    forall id, parent :: id in Keys(components) && parent in Keys(components) ==> !StrayParent(components, id, parent)
  }

  lemma LinksSameIff(components: seq<Field>, key: string)
    requires Distinct(components) && Injective(components, |components|) && IsLinkKey(key)
    ensures SameLinks(components, NewComponents(IdMapOf(components), components, |components|), key) <==>
            NoStrayLinks(components, key)
  {
    hide NewComponents, NewId, IdMapOf, Keys, Links, Injective, Distinct, Strays, Find, ListAt;
    var now := NewComponents(IdMapOf(components), components, |components|);
    forall from, id | from in Keys(components) && id in Keys(components)
      ensures Find(components, from).Some?
      ensures Links(now, key, NewId(from), NewId(id)) <==>
              Links(components, key, from, id) || Strays(components, ListAt(Find(components, from).value, key), id)
    {
      LinksAreKept(components, key, from, id);
    }
  }

  lemma ParentsSameIff(components: seq<Field>)
    requires Distinct(components) && Injective(components, |components|)
    ensures SameParents(components, NewComponents(IdMapOf(components), components, |components|)) <==>
            NoStrayParents(components)
  {
    hide NewComponents, NewId, IdMapOf, Keys, ParentIs, StrayParent, Injective, Distinct;
    var now := NewComponents(IdMapOf(components), components, |components|);
    forall id, parent | id in Keys(components) && parent in Keys(components)
      ensures ParentIs(now, NewId(id), NewId(parent)) <==>
              ParentIs(components, id, parent) || StrayParent(components, id, parent)
      ensures StrayParent(components, id, parent) ==> !ParentIs(components, id, parent)
    {
      ParentsAreKept(components, id, parent);
      StrayIsNone(components, id, parent);
    }
  }

  lemma StrayIsNone(components: seq<Field>, id: string, parent: string)
    requires parent in Keys(components)
    ensures StrayParent(components, id, parent) ==> !ParentIs(components, id, parent)
  {
    hide NewId, IdMapOf, Keys, Image;
  }

  lemma ComponentsIsomorphicIff(components: seq<Field>)
    requires Distinct(components)
    ensures Isomorphic(components, NewComponents(IdMapOf(components), components, |components|)) <==>
            && Injective(components, |components|)
            && NoStrayLinks(components, "downstream") && NoStrayLinks(components, "upstream")
            && NoStrayParents(components)
  {
    hide NewComponents, NewId, IdMapOf, SameLinks, SameParents, NoStrayLinks, NoStrayParents, Injective, Distinct;
    var now := NewComponents(IdMapOf(components), components, |components|);
    CountIsKeptIff(components);
    if Injective(components, |components|) {
      NewComponentsAt(components, |components|);
      forall i | 0 <= i < |now| ensures now[i].key == NewId(components[i].key) {
        assert NewAt(components, now, i);
      }
      LinksSameIff(components, "downstream");
      LinksSameIff(components, "upstream");
      ParentsSameIff(components);
    }
  }

  /** A record of the drawn graph with the ids under two keys mapped. */
  ghost predicate EndsMapped(m: IdMap, before: Json, after: Json, first: string, second: string) {
    if before.Obj? then
      && after.Obj? && Find(after.fields, first) == Mapped(m, Find(before.fields, first))
      && Find(after.fields, second) == Mapped(m, Find(before.fields, second))
    else after == before
  }

  ghost predicate DrawingMapped(m: IdMap, before: Json, after: Json) {
    && |ListAt(after, "nodes")| == |ListAt(before, "nodes")|
    && |ListAt(after, "edges")| == |ListAt(before, "edges")|
    && (forall i :: 0 <= i < |ListAt(before, "nodes")| ==>
          EndsMapped(m, ListAt(before, "nodes")[i], ListAt(after, "nodes")[i], "id", "parentId"))
    && (forall i :: 0 <= i < |ListAt(before, "edges")| ==>
          EndsMapped(m, ListAt(before, "edges")[i], ListAt(after, "edges")[i], "source", "target"))
  }

  lemma DrawingIsMapped(m: IdMap, ids: seq<string>, graph: seq<Field>)
    ensures DrawingMapped(m, Obj(graph), Obj(EdgesAt(m, ids, NodesAt(m, graph))))
  {
    hide NodesAt, EdgesAt, EndsMapped, NewNode, NewEdge, ListAt;
    GraphImage(m, ids, graph);
    var nodes, edges := ListAt(Obj(graph), "nodes"), ListAt(Obj(graph), "edges");
    forall i | 0 <= i < |nodes| ensures EndsMapped(m, nodes[i], NewNode(m, nodes[i]), "id", "parentId") {
      NodeEnds(m, nodes[i]);
    }
    forall i | 0 <= i < |edges| ensures EndsMapped(m, edges[i], NewEdge(m, ids, edges[i]), "source", "target") {
      EdgeEnds(m, ids, edges[i]);
    }
  }

  lemma NodeEnds(m: IdMap, node: Json)
    ensures EndsMapped(m, node, NewNode(m, node), "id", "parentId")
  {
    hide At, DataAt, Find, Mapped;
    if node.Obj? {
      NodeImage(m, node.fields);
    }
  }

  lemma EdgeEnds(m: IdMap, ids: seq<string>, edge: Json)
    ensures EndsMapped(m, edge, NewEdge(m, ids, edge), "source", "target")
  {
    hide At, EdgeIdAt, Find, Mapped;
    if edge.Obj? {
      EdgeImage(m, ids, edge.fields);
    }
  }

  /** Where a document's components are. */
  ghost predicate HasComponents(dsl: Json, components: seq<Field>) {
    dsl.Obj? && Find(dsl.fields, "components") == Some(Obj(components))
  }

  /** Any migration of a document with components: their number is kept if and only
      if no two new ids collide, closed references stay closed, and the path and the
      drawn graph are mapped entry by entry. */
  lemma MigrationMaps(dsl: Json, components: seq<Field>)
    requires HasComponents(dsl, components) && Migrate(dsl).Ok?
    ensures var out, m := Migrate(dsl).value, IdMapOf(components);
            var now := NewComponents(m, components, |components|);
            && HasComponents(out, now)
            && (|now| == |components| <==> Injective(components, |components|))
            && (forall key :: IsLinkKey(key) && Closed(components, key) ==> Closed(now, key))
            && |ListAt(out, "path")| == |ListAt(dsl, "path")|
            && (forall i :: 0 <= i < |ListAt(dsl, "path")| ==>
                  ListAt(out, "path")[i] == MapRef(m, ListAt(dsl, "path")[i]))
            && (Find(dsl.fields, "graph").Some? && Find(dsl.fields, "graph").value.Obj? ==>
                  && Find(out.fields, "graph").Some?
                  && DrawingMapped(m, Find(dsl.fields, "graph").value, Find(out.fields, "graph").value))
  {
    hide NewComponents, NewFields, IdMapOf, HashableAll, Closed, Injective, ListAt, MapRef;
    hide DrawingMapped, Find, GraphAt;
    var m := IdMapOf(components);
    FindInNew(dsl.fields, components);
    CountIsKeptIff(components);
    PathImage(dsl.fields, components);
    forall key | IsLinkKey(key) && Closed(components, key)
      ensures Closed(NewComponents(m, components, |components|), key)
    {
      ClosedStaysClosed(components, key);
    }
    assert Migrate(dsl).value == Obj(NewFields(dsl.fields, components));
    assert dsl == Obj(dsl.fields);
    GraphOfNew(dsl.fields, components);
  }

  lemma GraphOfNew(fields: seq<Field>, components: seq<Field>)
    ensures var m, now := IdMapOf(components), NewFields(fields, components);
            Find(fields, "graph").Some? && Find(fields, "graph").value.Obj? ==>
              && Find(now, "graph").Some?
              && DrawingMapped(m, Find(fields, "graph").value, Find(now, "graph").value)
  {
    hide NewComponents, NewFields, IdMapOf, DrawingMapped, Find, WithComponents, LongestFirst, NodesAt, EdgesAt;
    var m, ids, before := IdMapOf(components), LongestFirst(Keys(components)), WithComponents(fields, components);
    FindInNew(fields, components);
    ComponentsStored(fields, components, "graph");
    var graph := Find(fields, "graph");
    if graph.Some? && graph.value.Obj? {
      var drawn := Obj(EdgesAt(m, ids, NodesAt(m, graph.value.fields)));
      FindStored(before, "graph", drawn, "graph");
      DrawingIsMapped(m, ids, graph.value.fields);
      assert graph.value == Obj(graph.value.fields);
    }
  }

  /** A migration is an isomorphism of the component graph if and only if no two new ids
      collide and no reference outside the components becomes a new one. */
  lemma MigrationIsIsomorphismIff(dsl: Json, components: seq<Field>)
    requires HasComponents(dsl, components) && Migrate(dsl).Ok? && Distinct(components)
    ensures var now := NewComponents(IdMapOf(components), components, |components|);
            && HasComponents(Migrate(dsl).value, now)
            && (Isomorphic(components, now) <==>
                  && Injective(components, |components|)
                  && NoStrayLinks(components, "downstream") && NoStrayLinks(components, "upstream")
                  && NoStrayParents(components))
  {
    hide NewComponents, Isomorphic, NoStrayLinks, NoStrayParents, Injective, Migrate, IdMapOf;
    MigrationMaps(dsl, components);
    ComponentsIsomorphicIff(components);
  }

  /** Where every reference names a component nothing strays, so that only collisions count. */
  lemma ClosedIsomorphicIff(dsl: Json, components: seq<Field>)
    requires HasComponents(dsl, components) && Migrate(dsl).Ok? && Distinct(components)
    requires Closed(components, "downstream") && Closed(components, "upstream")
    requires forall id, parent :: ParentIs(components, id, parent) ==> parent in Keys(components)
    ensures var now := NewComponents(IdMapOf(components), components, |components|);
            HasComponents(Migrate(dsl).value, now)
            && (Isomorphic(components, now) <==> Injective(components, |components|))
  {
    hide NewComponents, Isomorphic, Injective, Migrate, IdMapOf, ParentIs, Closed, NoStrayLinks;
    MigrationIsIsomorphismIff(dsl, components);
    ClosedStraysNot(components, "downstream");
    ClosedStraysNot(components, "upstream");
  }

  lemma ClosedStraysNot(components: seq<Field>, key: string)
    requires Distinct(components) && Closed(components, key)
    ensures NoStrayLinks(components, key)
  {
    hide NewId, IdMapOf, ListAt, Image, Keys, Links;
    forall from | from in Keys(components) && Find(components, from).Some?
      ensures forall id :: !Strays(components, ListAt(Find(components, from).value, key), id)
    {
      var k := PlaceOf(components, from);
    }
  }

  // ----- What goes wrong -----

  lemma SplitterRenamed(rest: string)
    ensures NewId("Splitter:" + rest) == "TokenChunker:" + rest == NewId("TokenChunker:" + rest)
    ensures "Splitter:" + rest != "TokenChunker:" + rest
  {
    assert ("Splitter:" + rest)[..9] == "Splitter:" && ("Splitter:" + rest)[9..] == rest;
    assert ("Splitter:" + rest)[0] == 'S' && ("TokenChunker:" + rest)[0] == 'T';
  }

  /** Two operators of the old and of the new name with the same rest of the id are
      merged into one. */
  lemma CollisionMerges(rest: string, x: Json, y: Json)
    ensures var components := [Field("Splitter:" + rest, x), Field("TokenChunker:" + rest, y)];
            && Distinct(components) && !Injective(components, 2)
            && |NewComponents(IdMapOf(components), components, 2)| == 1
  {
    hide Store, IdMapOf, NewComponent, NewId;
    var components := [Field("Splitter:" + rest, x), Field("TokenChunker:" + rest, y)];
    SplitterRenamed(rest);
    assert NewId(components[0].key) == NewId(components[1].key);
    NoMoreThan(components, 2);
    NewComponentsAt(components, 1);
    KeysStep(components, 2);
    assert |Keys(NewComponents(IdMapOf(components), components, 2))| >= 1;
  }

  /** A reference to the new name of an operator that still has the old one names no
      component before the migration, and one afterwards. */
  lemma StrayBecomesLink(rest: string, x: Json)
    requires '{' !in rest
    ensures var stray := Obj([Field("downstream", Arr([Str("TokenChunker:" + rest)]))]);
            var components := [Field("Splitter:" + rest, x), Field("begin", stray)];
            && Distinct(components) && Injective(components, 2)
            && !Links(components, "downstream", "begin", "Splitter:" + rest)
            && Links(NewComponents(IdMapOf(components), components, 2), "downstream", "begin", "TokenChunker:" + rest)
  {
    hide NewComponents, IdMapOf, NewId, Image, Keys;
    var ref := "TokenChunker:" + rest;
    var stray := Obj([Field("downstream", Arr([Str(ref)]))]);
    var components := [Field("Splitter:" + rest, x), Field("begin", stray)];
    SplitterRenamed(rest);
    BeginStays();
    assert Keys(components) == ["Splitter:" + rest, "begin"] && ref[0] == 'T';
    StrayImage(components, ref);
    OnlyField("downstream", Arr([Str(ref)]));
    LastField(components);
    hide Find;
    assert ListAt(stray, "downstream") == [Str(ref)];
    assert !RefersTo(components, ListAt(stray, "downstream")[0]);
    LinksAreKept(components, "downstream", "begin", "Splitter:" + rest);
  }

  lemma OnlyField(key: string, value: Json)
    ensures Find([Field(key, value)], key) == Some(value)
  {
  }

  lemma LastField(fields: seq<Field>)
    requires fields != []
    ensures Find(fields, fields[|fields| - 1].key) == Some(fields[|fields| - 1].value)
  {
  }

  lemma BeginStays()
    ensures NewId("begin") == "begin"
  {
  }

  lemma StrayImage(components: seq<Field>, ref: string)
    requires ref !in Keys(components) && '{' !in ref
    ensures Image(IdMapOf(components), Str(ref)) == Str(ref)
  {
    PlainTextStays(IdMapOf(components), ref);
  }
}
