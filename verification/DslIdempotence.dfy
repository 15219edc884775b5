/** A migrated canvas migrates to itself. */
module DslIdempotence {
  import opened Text
  import opened Json
  import opened DslMigration

  /** The id map of a canvas whose ids are all current. */
  ghost predicate Fixed(m: IdMap) {
    forall id :: id in m ==> m[id] == id
  }

  // ----- Names -----

  lemma NewIdIsCurrent(id: string)
    ensures NewId(NewId(id)) == NewId(id)
  {
    var now := NewId(id);
    if now != id {
      assert now[0] == 'T' || now[0] == 'D';
      SameInitial(now, "Splitter:");
      SameInitial(now, "HierarchicalMerger:");
      SameInitial(now, "PDFGenerator:");
    }
  }

  lemma SameInitial(s: string, prefix: string)
    requires prefix != ""
    ensures StartsWith(s, prefix) ==> s != "" && s[0] == prefix[0]
  {
    if StartsWith(s, prefix) {
      assert s[..|prefix|][0] == s[0];
    }
  }

  lemma NewNameIsCurrent(name: string)
    ensures NewName(NewName(name)) == NewName(name) && NewType(NewType(name)) == NewType(name)
  {
    assert "TokenChunker"[0] == 'T' && "TitleChunker"[0] == 'T' && "DocGenerator"[0] == 'D';
    assert "Splitter"[0] == 'S' && "HierarchicalMerger"[0] == 'H' && "PDFGenerator"[0] == 'P';
    assert "chunkerNode"[0] == 'c' && "splitterNode"[0] == 's';
  }

  // ----- Values under a map that changes nothing -----

  lemma FourPieces(s: string, i: nat, j: nat, k: nat)
    requires i <= j <= k <= |s|
    ensures s[..i] + s[i..j] + s[j..k] + s[k..] == s
  {
  }

  lemma {:induction false} SubstituteFixed(m: IdMap, s: string)
    requires Fixed(m)
    ensures Substitute(m, s) == s
    decreases |s|
  {
    hide RefAtFront;
    if s != "" {
      var ref := RefAtFront(s);
      if ref.None? {
        SubstituteFixed(m, s[1..]);
      } else {
        var Ref(begin, mid, end) := ref.value;
        SubstituteFixed(m, s[end..]);
        FourPieces(s, begin, mid, end);
      }
    }
  }

  lemma {:induction false} RewriteFixed(m: IdMap, v: Json)
    requires Fixed(m)
    ensures Rewrite(m, v) == v
    decreases v
  {
    match v
    case Str(s) => SubstituteFixed(m, s);
    case Arr(items) =>
      forall i | 0 <= i < |items| ensures Rewrite(m, items[i]) == items[i] {
        RewriteFixed(m, items[i]);
      }
    case Obj(fields) =>
      forall i | 0 <= i < |fields| ensures fields[i].(value := Rewrite(m, fields[i].value)) == fields[i] {
        RewriteFixed(m, fields[i].value);
      }
    case _ =>
  }

  /** A value that the renames of a pass leave alone. */
  predicate Current(p: Pass, v: Json) {
    match p
    case Name => v.Str? ==> NewName(v.s) == v.s
    case NodeType => v.Str? ==> NewType(v.s) == v.s
    case _ => true
  }

  lemma ApplyMakesCurrent(m: IdMap, p: Pass, v: Json)
    ensures Current(p, Apply(m, p, v))
  {
    if v.Str? {
      NewNameIsCurrent(v.s);
    }
  }

  lemma ApplyFixed(m: IdMap, p: Pass, v: Json)
    requires Fixed(m) && Current(p, v)
    ensures Apply(m, p, v) == v
  {
    RewriteFixed(m, v);
  }

  /** The value at a key, if any, is current. */
  predicate CurrentAt(p: Pass, fields: seq<Field>, key: string) {
    Find(fields, key).Some? ==> Current(p, Find(fields, key).value)
  }

  lemma AtFixed(m: IdMap, p: Pass, fields: seq<Field>, key: string)
    requires Fixed(m) && CurrentAt(p, fields, key)
    ensures At(m, p, fields, key) == fields
  {
    if Find(fields, key).Some? {
      ApplyFixed(m, p, Find(fields, key).value);
      StoreSame(fields, key, Find(fields, key).value);
    }
  }

  lemma FindAfterAt(m: IdMap, p: Pass, fields: seq<Field>, key: string, other: string)
    ensures Find(At(m, p, fields, key), other) ==
            if other == key && Find(fields, key).Some? then Some(Apply(m, p, Find(fields, key).value))
            else Find(fields, other)
  {
    if Find(fields, key).Some? {
      FindStored(fields, key, Apply(m, p, Find(fields, key).value), other);
    }
  }

  lemma AtMakesCurrent(m: IdMap, p: Pass, fields: seq<Field>, key: string)
    ensures CurrentAt(p, At(m, p, fields, key), key)
  {
    FindAfterAt(m, p, fields, key, key);
    if Find(fields, key).Some? {
      ApplyMakesCurrent(m, p, Find(fields, key).value);
    }
  }

  // ----- Components -----

  lemma RenamedIsCurrent(name: Option<Json>)
    ensures var renamed := if name.None? then Null else Apply(map[], Name, name.value);
            Apply(map[], Name, renamed) == renamed
  {
    if name.Some? {
      ApplyMakesCurrent(map[], Name, name.value);
    }
  }

  lemma NewObjTwice(obj: seq<Field>)
    ensures NewObj(NewObj(obj)) == NewObj(obj)
  {
    hide Store, Find, Apply;
    var name := Find(obj, "component_name");
    var renamed := if name.None? then Null else Apply(map[], Name, name.value);
    FindStored(obj, "component_name", renamed, "component_name");
    RenamedIsCurrent(name);
    StoreSame(NewObj(obj), "component_name", renamed);
  }

  lemma NamedObjTwice(fields: seq<Field>, more: seq<Field>)
    requires Find(more, "obj") == Find(NamedObj(fields), "obj")
    ensures NamedObj(more) == more
  {
    hide NewObj;
    var obj := Find(fields, "obj");
    if obj.Some? && obj.value.Obj? {
      var named := Obj(NewObj(obj.value.fields));
      NewObjTwice(obj.value.fields);
      FindStored(fields, "obj", named, "obj");
      StoreSame(more, "obj", named);
    }
  }

  lemma NewComponentTwice(m: IdMap, again: IdMap, component: Json)
    requires Fixed(again)
    ensures NewComponent(again, NewComponent(m, component)) == NewComponent(m, component)
  {
    var now := NewComponent(m, component);
    RewriteFixed(again, now);
    if now.Obj? {
      hide At, NamedObj;
      var named := NamedObj(Rewrite(m, component).fields);
      var down := At(m, Refs, named, "downstream");
      var up := At(m, Refs, down, "upstream");
      FindAfterAt(m, Refs, named, "downstream", "obj");
      FindAfterAt(m, Refs, down, "upstream", "obj");
      FindAfterAt(m, Id, up, "parent_id", "obj");
      NamedObjTwice(Rewrite(m, component).fields, now.fields);
      AtFixed(again, Refs, now.fields, "downstream");
      AtFixed(again, Refs, now.fields, "upstream");
      AtFixed(again, Id, now.fields, "parent_id");
    }
  }

  lemma {:induction false} RewriteKeepsKind(m: IdMap, v: Json)
    ensures Hashable(Rewrite(m, v)) == Hashable(v)
    ensures v.Arr? ==> Rewrite(m, v).Arr? && |Rewrite(m, v).items| == |v.items|
    ensures Rewrite(m, v).Obj? == v.Obj? && Rewrite(m, v).Arr? == v.Arr?
  {
  }

  lemma {:induction false} FindRewritten(m: IdMap, fields: seq<Field>, key: string)
    ensures Find(Rewrite(m, Obj(fields)).fields, key) ==
            if Find(fields, key).None? then None else Some(Rewrite(m, Find(fields, key).value))
  {
    if fields != [] {
      RewrittenStep(m, fields);
      FindRewritten(m, fields[..|fields| - 1], key);
      hide Rewrite;
    }
  }

  lemma RewrittenStep(m: IdMap, fields: seq<Field>)
    requires fields != []
    ensures var n := |fields| - 1;
            && Rewrite(m, Obj(fields)).Obj? && Rewrite(m, Obj(fields[..n])).Obj?
            && |Rewrite(m, Obj(fields)).fields| == |fields|
            && Rewrite(m, Obj(fields)).fields[..n] == Rewrite(m, Obj(fields[..n])).fields
            && Rewrite(m, Obj(fields)).fields[n] == fields[n].(value := Rewrite(m, fields[n].value))
  {
  }

  /** Whether references and names can be looked up is not changed by rewriting. */
  lemma HashableRewritten(m: IdMap, fields: seq<Field>, key: string)
    ensures HashableRefs(Rewrite(m, Obj(fields)).fields, key) == HashableRefs(fields, key)
  {
    FindRewritten(m, fields, key);
    var refs := Find(fields, key);
    if refs.Some? && refs.value.Arr? {
      var items := refs.value.items;
      var rewritten := Rewrite(m, refs.value).items;
      forall i | 0 <= i < |items| ensures Hashable(rewritten[i]) == Hashable(items[i]) {
        RewriteKeepsKind(m, items[i]);
      }
      assert HashableRefs(Rewrite(m, Obj(fields)).fields, key) ==
             forall i :: 0 <= i < |rewritten| ==> Hashable(rewritten[i]);
    }
  }

  lemma HashableNameRewritten(m: IdMap, fields: seq<Field>)
    ensures HashableName(Rewrite(m, Obj(fields)).fields) == HashableName(fields)
  {
    FindRewritten(m, fields, "obj");
    var obj := Find(fields, "obj");
    if obj.Some? && obj.value.Obj? {
      FindRewritten(m, obj.value.fields, "component_name");
      var name := Find(obj.value.fields, "component_name");
      if name.Some? {
        RewriteKeepsKind(m, name.value);
      }
    }
  }

  lemma HashableAfterAt(m: IdMap, fields: seq<Field>, key: string, other: string)
    requires HashableRefs(fields, other)
    ensures HashableRefs(At(m, Refs, fields, key), other)
  {
    FindAfterAt(m, Refs, fields, key, other);
  }

  lemma NewObjHashable(obj: seq<Field>)
    requires var name := Find(obj, "component_name"); name.Some? ==> Hashable(name.value)
    ensures var name := Find(NewObj(obj), "component_name"); name.Some? ==> Hashable(name.value)
  {
    var name := Find(obj, "component_name");
    FindStored(obj, "component_name", if name.None? then Null else Apply(map[], Name, name.value), "component_name");
  }

  lemma HashableNamed(fields: seq<Field>)
    requires HashableName(fields)
    ensures HashableName(NamedObj(fields))
  {
    hide NewObj;
    var obj := Find(fields, "obj");
    if obj.Some? && obj.value.Obj? {
      NewObjHashable(obj.value.fields);
      FindStored(fields, "obj", Obj(NewObj(obj.value.fields)), "obj");
    }
  }

  lemma NewComponentHashable(m: IdMap, component: Json)
    requires HashableComponent(component)
    ensures HashableComponent(NewComponent(m, component))
  {
    if component.Obj? {
      hide HashableRefs, HashableName;
      var r := Rewrite(m, component).fields;
      HashableNameRewritten(m, component.fields);
      HashableRewritten(m, component.fields, "downstream");
      HashableRewritten(m, component.fields, "upstream");
      HashableNamed(r);
      var named := NamedObj(r);
      NamedKeeps(r, "downstream");
      NamedKeeps(r, "upstream");
      LaterPasses(m, named);
    }
  }

  lemma NamedKeeps(fields: seq<Field>, key: string)
    requires key != "obj"
    ensures Find(NamedObj(fields), key) == Find(fields, key)
    ensures HashableRefs(NamedObj(fields), key) == HashableRefs(fields, key)
  {
    var obj := Find(fields, "obj");
    if obj.Some? && obj.value.Obj? {
      FindStored(fields, "obj", Obj(NewObj(obj.value.fields)), key);
    }
  }

  lemma LaterPasses(m: IdMap, named: seq<Field>)
    requires HashableName(named) && HashableRefs(named, "downstream") && HashableRefs(named, "upstream")
    ensures HashableComponent(Obj(At(m, Id, At(m, Refs, At(m, Refs, named, "downstream"), "upstream"), "parent_id")))
  {
    hide At;
    var down := At(m, Refs, named, "downstream");
    var up := At(m, Refs, down, "upstream");
    HashableAfterAt(m, named, "downstream", "downstream");
    HashableAfterAt(m, named, "downstream", "upstream");
    HashableAfterAt(m, down, "upstream", "downstream");
    HashableAfterAt(m, down, "upstream", "upstream");
    FindAfterAt(m, Refs, named, "downstream", "obj");
    FindAfterAt(m, Refs, down, "upstream", "obj");
    FindAfterAt(m, Id, up, "parent_id", "obj");
    FindAfterAt(m, Id, up, "parent_id", "downstream");
    FindAfterAt(m, Id, up, "parent_id", "upstream");
  }

  /** Components that a second migration leaves alone. */
  ghost predicate Settled(again: IdMap, components: seq<Field>) {
    && Distinct(components)
    && forall i :: 0 <= i < |components| ==> SettledOne(again, components[i].key, components[i].value)
  }

  ghost predicate SettledOne(again: IdMap, key: string, value: Json) {
    NewId(key) == key && NewComponent(again, value) == value && HashableComponent(value)
  }

  lemma {:induction false} StoreSettled(again: IdMap, components: seq<Field>, key: string, value: Json)
    requires Settled(again, components) && SettledOne(again, key, value)
    ensures Settled(again, Store(components, key, value))
  {
    StoreDistinct(components, key, value);
    var stored := Store(components, key, value);
    forall i | 0 <= i < |stored|
      ensures SettledOne(again, stored[i].key, stored[i].value)
    {
      hide SettledOne;
      FindAt(stored, i);
      FindStored(components, key, value, stored[i].key);
    }
  }

  lemma {:induction false} NewComponentsSettle(m: IdMap, again: IdMap, components: seq<Field>, n: nat)
    requires n <= |components| && m == IdMapOf(components) && Fixed(again)
    requires forall i :: 0 <= i < |components| ==> HashableComponent(components[i].value)
    ensures Settled(again, NewComponents(m, components, n))
  {
    hide NewComponent, NewId, Settled, HashableComponent;
    if n == 0 {
      EmptySettled(again);
    } else {
      NewComponentsSettle(m, again, components, n - 1);
      var key := components[n - 1].key;
      assert key == Keys(components)[n - 1];
      NewIdIsCurrent(key);
      NewComponentTwice(m, again, components[n - 1].value);
      NewComponentHashable(m, components[n - 1].value);
      StoreSettled(again, NewComponents(m, components, n - 1), MapId(m, key), NewComponent(m, components[n - 1].value));
    }
  }

  lemma EmptySettled(again: IdMap)
    ensures Settled(again, [])
  {
  }

  lemma {:induction false} SettledMigrates(again: IdMap, components: seq<Field>, n: nat)
    requires Settled(again, components) && again == IdMapOf(components) && n <= |components|
    ensures NewComponents(again, components, n) == components[..n]
  {
    hide NewComponent, NewId, HashableComponent, Store, Find, IdMapOf;
    if n > 0 {
      SettledMigrates(again, components, n - 1);
      var last := components[n - 1];
      assert SettledOne(again, last.key, last.value);
      KeptKey(components, n - 1);
      StoreNew(components[..n - 1], last.key, last.value);
      assert components[..n - 1] + [last] == components[..n];
    }
  }

  lemma KeptKey(components: seq<Field>, i: nat)
    requires i < |components| && Distinct(components)
    ensures MapId(IdMapOf(components), components[i].key) == NewId(components[i].key)
    ensures Find(components[..i], components[i].key).None?
  {
    hide NewId;
    assert Keys(components)[i] == components[i].key;
    assert Find(components[..i], components[i].key).None?;
  }

  lemma StoreNew(fields: seq<Field>, key: string, value: Json)
    requires Find(fields, key).None?
    ensures Store(fields, key, value) == fields + [Field(key, value)]
  {
  }

  lemma SettledIsFixed(again: IdMap, components: seq<Field>)
    requires Settled(again, components)
    ensures Fixed(IdMapOf(components))
  {
    hide NewId, NewComponent, HashableComponent;
    forall id | id in IdMapOf(components) ensures NewId(id) == id {
      var i :| 0 <= i < |components| && Keys(components)[i] == id;
      assert components[i].key == id;
    }
  }

  // ----- Nodes and edges -----

  lemma NewDataTwice(m: IdMap, again: IdMap, data: seq<Field>)
    requires Fixed(again)
    ensures NewData(again, NewData(m, data)) == NewData(m, data)
  {
    hide At;
    var labelled := At(m, Name, data, "label");
    var named := At(m, Name, labelled, "name");
    var now := At(m, Whole, named, "form");
    AtMakesCurrent(m, Name, data, "label");
    AtMakesCurrent(m, Name, labelled, "name");
    FindAfterAt(m, Name, labelled, "name", "label");
    FindAfterAt(m, Whole, named, "form", "label");
    FindAfterAt(m, Whole, named, "form", "name");
    AtFixed(again, Name, now, "label");
    AtFixed(again, Name, now, "name");
    AtFixed(again, Whole, now, "form");
  }

  lemma DataKeeps(m: IdMap, node: seq<Field>, key: string)
    requires key != "data"
    ensures Find(DataAt(m, node), key) == Find(node, key)
  {
    hide NewData;
    var data := Find(node, "data");
    if data.Some? && data.value.Obj? {
      FindStored(node, "data", Obj(NewData(m, data.value.fields)), key);
    }
  }

  lemma DataTwice(m: IdMap, again: IdMap, node: seq<Field>)
    requires Fixed(again)
    ensures DataAt(again, DataAt(m, node)) == DataAt(m, node)
  {
    hide NewData;
    var data := Find(node, "data");
    if data.Some? && data.value.Obj? {
      var inner := Obj(NewData(m, data.value.fields));
      FindStored(node, "data", inner, "data");
      NewDataTwice(m, again, data.value.fields);
      StoreSame(DataAt(m, node), "data", inner);
    }
  }

  lemma NewNodeTwice(m: IdMap, again: IdMap, node: Json)
    requires Fixed(again)
    ensures NewNode(again, NewNode(m, node)) == NewNode(m, node)
  {
    if node.Obj? {
      hide At, DataAt, Find;
      var two := At(m, Id, At(m, Id, node.fields, "id"), "parentId");
      var three := At(m, NodeType, two, "type");
      var now := DataAt(m, three);
      AtMakesCurrent(m, NodeType, two, "type");
      DataKeeps(m, three, "type");
      AtFixed(again, Id, now, "id");
      AtFixed(again, Id, now, "parentId");
      AtFixed(again, NodeType, now, "type");
      DataTwice(m, again, three);
    }
  }

  lemma {:induction false} WeaveNothing(s: string)
    ensures Weave(s, "") == s
  {
    if s != "" {
      WeaveNothing(s[1..]);
    }
  }

  lemma {:induction false} ReplaceSame(s: string, find: string)
    ensures ReplaceAll(s, find, find) == s
    decreases |s|
  {
    if find == "" {
      WeaveNothing(s);
    } else if s != "" {
      if StartsWith(s, find) {
        ReplaceSame(s[|find|..], find);
        assert s[..|find|] + s[|find|..] == s;
      } else {
        ReplaceSame(s[1..], find);
      }
    }
  }

  lemma {:induction false} EdgeIdFixed(m: IdMap, ids: seq<string>, s: string, n: nat)
    requires Fixed(m) && n <= |ids|
    ensures NewEdgeId(m, ids, s, n) == s
  {
    if n > 0 {
      EdgeIdFixed(m, ids, s, n - 1);
      ReplaceSame(s, ids[n - 1]);
    }
  }

  lemma NewEdgeFixed(again: IdMap, ids: seq<string>, edge: Json)
    requires Fixed(again)
    ensures NewEdge(again, ids, edge) == edge
  {
    if edge.Obj? {
      AtFixed(again, Id, edge.fields, "source");
      AtFixed(again, Id, edge.fields, "target");
      var id := Find(edge.fields, "id");
      if id.Some? && id.value.Str? {
        EdgeIdFixed(again, ids, id.value.s, |ids|);
        StoreSame(edge.fields, "id", id.value);
      }
    }
  }

  lemma NodesTwice(m: IdMap, again: IdMap, graph: seq<Field>, more: seq<Field>)
    requires Fixed(again) && Find(more, "nodes") == Find(NodesAt(m, graph), "nodes")
    ensures NodesAt(again, more) == more
  {
    hide NewNode;
    var nodes := Find(graph, "nodes");
    if nodes.Some? && nodes.value.Arr? {
      var items := nodes.value.items;
      var now := seq(|items|, i requires 0 <= i < |items| => NewNode(m, items[i]));
      forall i | 0 <= i < |items| ensures NewNode(again, now[i]) == now[i] {
        NewNodeTwice(m, again, items[i]);
      }
      FindStored(graph, "nodes", Arr(now), "nodes");
      assert seq(|now|, i requires 0 <= i < |now| => NewNode(again, now[i])) == now;
      StoreSame(more, "nodes", Arr(now));
    }
  }

  lemma EdgesFixed(again: IdMap, ids: seq<string>, graph: seq<Field>)
    requires Fixed(again)
    ensures EdgesAt(again, ids, graph) == graph
  {
    hide NewEdge;
    var edges := Find(graph, "edges");
    if edges.Some? && edges.value.Arr? {
      var items := edges.value.items;
      forall i | 0 <= i < |items| ensures NewEdge(again, ids, items[i]) == items[i] {
        NewEdgeFixed(again, ids, items[i]);
      }
      assert seq(|items|, i requires 0 <= i < |items| => NewEdge(again, ids, items[i])) == items;
      StoreSame(graph, "edges", edges.value);
    }
  }

  lemma NodesKept(m: IdMap, ids: seq<string>, graph: seq<Field>)
    ensures Find(EdgesAt(m, ids, graph), "nodes") == Find(graph, "nodes")
  {
    var edges := Find(graph, "edges");
    if edges.Some? && edges.value.Arr? {
      var items := edges.value.items;
      FindStored(graph, "edges", Arr(seq(|items|, i requires 0 <= i < |items| => NewEdge(m, ids, items[i]))), "nodes");
    }
  }

  lemma GraphTwice(m: IdMap, ids: seq<string>, again: IdMap, others: seq<string>, fields: seq<Field>, more: seq<Field>)
    requires Fixed(again) && Find(more, "graph") == Find(GraphAt(m, ids, fields), "graph")
    ensures GraphAt(again, others, more) == more
  {
    hide NodesAt, EdgesAt;
    var graph := Find(fields, "graph");
    if graph.Some? && graph.value.Obj? {
      var noded := NodesAt(m, graph.value.fields);
      var now := EdgesAt(m, ids, noded);
      NodesKept(m, ids, noded);
      FindStored(fields, "graph", Obj(now), "graph");
      NodesTwice(m, again, graph.value.fields, now);
      EdgesFixed(again, others, now);
      StoreSame(more, "graph", Obj(now));
    }
  }

  // ----- The whole document -----

  lemma GraphKeeps(m: IdMap, ids: seq<string>, fields: seq<Field>, key: string)
    requires key != "graph"
    ensures Find(GraphAt(m, ids, fields), key) == Find(fields, key)
  {
    var graph := Find(fields, "graph");
    if graph.Some? && graph.value.Obj? {
      FindStored(fields, "graph", Obj(EdgesAt(m, ids, NodesAt(m, graph.value.fields))), key);
    }
  }

  /** The last three passes keep the other keys. */
  lemma TextsKeep(m: IdMap, fields: seq<Field>, key: string)
    requires key != "history" && key != "messages" && key != "reference"
    ensures Find(WithTexts(m, fields), key) == Find(fields, key)
  {
    hide At;
    var one := At(m, Whole, fields, "history");
    var two := At(m, Whole, one, "messages");
    FindAfterAt(m, Whole, fields, "history", key);
    FindAfterAt(m, Whole, one, "messages", key);
    FindAfterAt(m, Whole, two, "reference", key);
  }

  lemma ComponentsStored(fields: seq<Field>, components: seq<Field>, key: string)
    ensures var m := IdMapOf(components);
            Find(WithComponents(fields, components), key) ==
            if key == "components" then Some(Obj(NewComponents(m, components, |components|)))
            else if key == "path" && Find(fields, "path").Some? then Some(Apply(m, Refs, Find(fields, "path").value))
            else Find(fields, key)
  {
    hide NewComponents, Apply, IdMapOf;
    var m := IdMapOf(components);
    var value := Obj(NewComponents(m, components, |components|));
    var stored := Store(fields, "components", value);
    FindStored(fields, "components", value, key);
    FindStored(fields, "components", value, "path");
    FindAfterAt(m, Refs, stored, "path", key);
  }

  /** Where the parts of a migrated canvas are. */
  lemma FindInNew(fields: seq<Field>, components: seq<Field>)
    ensures var m := IdMapOf(components);
            var now, before := NewFields(fields, components), WithComponents(fields, components);
            && Find(now, "components") == Some(Obj(NewComponents(m, components, |components|)))
            && Find(now, "path") == (if Find(fields, "path").None? then None
                                     else Some(Apply(m, Refs, Find(fields, "path").value)))
            && Find(now, "graph") == Find(GraphAt(m, LongestFirst(Keys(components)), before), "graph")
  {
    hide NewComponents, WithComponents, WithTexts, GraphAt, LongestFirst, IdMapOf, Apply;
    var m, ids, before := IdMapOf(components), LongestFirst(Keys(components)), WithComponents(fields, components);
    ComponentsStored(fields, components, "components");
    ComponentsStored(fields, components, "path");
    GraphKeeps(m, ids, before, "components");
    GraphKeeps(m, ids, before, "path");
    TextsKeep(m, GraphAt(m, ids, before), "components");
    TextsKeep(m, GraphAt(m, ids, before), "path");
    TextsKeep(m, GraphAt(m, ids, before), "graph");
  }

  lemma SecondPass(now: seq<Field>, components: seq<Field>)
    requires Find(now, "components") == Some(Obj(components))
    requires var again := IdMapOf(components);
             && Fixed(again) && Settled(again, components)
             && GraphAt(again, LongestFirst(Keys(components)), now) == now
    ensures NewFields(now, components) == now
  {
    hide NewComponents, At, GraphAt, LongestFirst, IdMapOf, Settled;
    var again := IdMapOf(components);
    SettledMigrates(again, components, |components|);
    assert components[..|components|] == components;
    StoreSame(now, "components", Obj(components));
    AtFixed(again, Refs, now, "path");
    AtFixed(again, Whole, now, "history");
    AtFixed(again, Whole, now, "messages");
    AtFixed(again, Whole, now, "reference");
  }

  lemma PathHashable(m: IdMap, fields: seq<Field>, now: seq<Field>)
    requires HashableRefs(fields, "path")
    requires Find(now, "path") == if Find(fields, "path").None? then None
                                  else Some(Apply(m, Refs, Find(fields, "path").value))
    ensures HashableRefs(now, "path")
  {
  }

  lemma NewIsHashable(fields: seq<Field>, components: seq<Field>, again: IdMap)
    requires HashableRefs(fields, "path")
    requires Settled(again, NewComponents(IdMapOf(components), components, |components|))
    ensures HashableAll(NewFields(fields, components), NewComponents(IdMapOf(components), components, |components|))
  {
    hide NewComponents, NewFields, HashableComponent, NewComponent, NewId, HashableRefs, Apply, Find, IdMapOf, GraphAt;
    FindInNew(fields, components);
    PathHashable(IdMapOf(components), fields, NewFields(fields, components));
    var settled := NewComponents(IdMapOf(components), components, |components|);
    forall i | 0 <= i < |settled| ensures HashableComponent(settled[i].value) {
      assert SettledOne(again, settled[i].key, settled[i].value);
    }
  }

  /** Migrating twice is migrating once, for every document that migrates at all. */
  lemma MigrationIsIdempotent(dsl: Json)
    requires Migrate(dsl).Ok?
    ensures Migrate(Migrate(dsl).value) == Migrate(dsl)
  {
    hide NewFields, HashableAll, NewComponents, GraphAt, LongestFirst, Settled;
    if dsl.Obj? && Find(dsl.fields, "components").Some? && Find(dsl.fields, "components").value.Obj? {
      var components := Find(dsl.fields, "components").value.fields;
      MigratesTwice(dsl.fields, components);
    }
  }

  lemma MigratesTwice(fields: seq<Field>, components: seq<Field>)
    requires HashableAll(fields, components)
    ensures var now := NewFields(fields, components);
            var settled := NewComponents(IdMapOf(components), components, |components|);
            && Find(now, "components") == Some(Obj(settled))
            && HashableAll(now, settled) && NewFields(now, settled) == now
  {
    hide NewFields, NewComponents, GraphAt, LongestFirst, Settled, HashableComponent;
    var m, ids := IdMapOf(components), LongestFirst(Keys(components));
    var now, settled := NewFields(fields, components), NewComponents(m, components, |components|);
    NewComponentsSettle(m, map[], components, |components|);
    SettledIsFixed(map[], settled);
    var again := IdMapOf(settled);
    NewComponentsSettle(m, again, components, |components|);
    FindInNew(fields, components);
    GraphTwice(m, ids, again, LongestFirst(Keys(settled)), WithComponents(fields, components), now);
    NewIsHashable(fields, components, again);
    SecondPass(now, settled);
  }
}
