/** The passes of the migration, as the loops that perform them. */
module DslPasses {
  import opened Text
  import opened Json
  import opened DslMigration

  lemma RenamesSpelled()
    ensures |COMPONENT_RENAMES| == 3
    ensures COMPONENT_RENAMES[0].0 + ":" == "Splitter:" && COMPONENT_RENAMES[0].1 + ":" == "TokenChunker:"
    ensures COMPONENT_RENAMES[1].0 + ":" == "HierarchicalMerger:" && COMPONENT_RENAMES[1].1 + ":" == "TitleChunker:"
    ensures COMPONENT_RENAMES[2].0 + ":" == "PDFGenerator:" && COMPONENT_RENAMES[2].1 + ":" == "DocGenerator:"
  {
  }

  /** Tries the renames in turn and stops at the first whose prefix fits. */
  method RenameId(id: string) returns (now: string)
    ensures now == NewId(id)
  {
    RenamesSpelled();
    now := id;
    var k := 0;
    while k < |COMPONENT_RENAMES|
      invariant 0 <= k <= |COMPONENT_RENAMES| && now == id
      invariant forall j :: 0 <= j < k ==> !StartsWith(id, COMPONENT_RENAMES[j].0 + ":")
    {
      var prefix := COMPONENT_RENAMES[k].0 + ":";
      if StartsWith(id, prefix) {
        now := COMPONENT_RENAMES[k].1 + ":" + id[|prefix|..];
        return;
      }
      k := k + 1;
    }
    assert !StartsWith(id, COMPONENT_RENAMES[0].0 + ":") && !StartsWith(id, COMPONENT_RENAMES[1].0 + ":")
           && !StartsWith(id, COMPONENT_RENAMES[2].0 + ":");
  }

  method BuildIdMap(components: seq<Field>) returns (m: IdMap)
    ensures m == IdMapOf(components)
  {
    hide NewId;
    m := map[];
    for n := 0 to |components|
      invariant m == IdMapOf(components[..n])
    {
      var now := RenameId(components[n].key);
      m := m[components[n].key := now];
      assert components[..n + 1] == components[..n] + [components[n]];
      assert Keys(components[..n + 1]) == Keys(components[..n]) + [components[n].key];
    }
    assert components[..|components|] == components;
  }

  /** `[component_id_map.get(x, x) for x in items]`. */
  method MapItems(m: IdMap, items: seq<Json>) returns (now: seq<Json>)
    ensures now == seq(|items|, i requires 0 <= i < |items| => MapRef(m, items[i]))
  {
    now := [];
    for n := 0 to |items|
      invariant |now| == n && forall i :: 0 <= i < n ==> now[i] == MapRef(m, items[i])
    {
      now := now + [if items[n].Str? then Str(MapId(m, items[n].s)) else items[n]];
    }
  }

  /** A list of references under a key; anything else there is left alone. */
  method RewriteRefs(m: IdMap, fields: seq<Field>, key: string) returns (now: seq<Field>)
    ensures now == At(m, Refs, fields, key)
  {
    hide MapRef;
    var refs := Find(fields, key);
    if refs.None? {
      return fields;
    }
    if !refs.value.Arr? {
      StoreSame(fields, key, refs.value);
      return fields;
    }
    var items := MapItems(m, refs.value.items);
    now := Store(fields, key, Arr(items));
  }

  /** An id under a key; what is no text is left alone. */
  method RewriteId(m: IdMap, fields: seq<Field>, key: string) returns (now: seq<Field>)
    ensures now == At(m, Id, fields, key)
  {
    var id := Find(fields, key);
    if id.Some? && id.value.Str? {
      now := Store(fields, key, Str(MapId(m, id.value.s)));
    } else {
      now := fields;
      if id.Some? {
        StoreSame(fields, key, id.value);
      }
    }
  }

  /** One component: its record's name is written back, then its references. */
  method RewriteComponent(m: IdMap, component: Json) returns (now: Json)
    ensures now == NewComponent(m, component)
  {
    hide At, Find, Store;
    now := Rewrite(m, component);
    if !now.Obj? {
      return;
    }
    var fields := now.fields;
    var obj := Find(fields, "obj");
    if obj.Some? && obj.value.Obj? {
      var name := Find(obj.value.fields, "component_name");
      var renamed := Null;
      if name.Some? {
        renamed := if name.value.Str? then Str(NewName(name.value.s)) else name.value;
      }
      fields := Store(fields, "obj", Obj(Store(obj.value.fields, "component_name", renamed)));
    }
    fields := RewriteRefs(m, fields, "downstream");
    fields := RewriteRefs(m, fields, "upstream");
    fields := RewriteId(m, fields, "parent_id");
    now := Obj(fields);
  }

  method RewriteComponents(m: IdMap, components: seq<Field>) returns (now: seq<Field>)
    ensures now == NewComponents(m, components, |components|)
  {
    hide NewComponent;
    now := [];
    for n := 0 to |components|
      invariant now == NewComponents(m, components, n)
    {
      var component := RewriteComponent(m, components[n].value);
      now := Store(now, MapId(m, components[n].key), component);
    }
  }

  /** A name under a key that is one of the old ones. */
  method RewriteName(m: IdMap, fields: seq<Field>, key: string) returns (now: seq<Field>)
    ensures now == At(m, Name, fields, key)
  {
    now := fields;
    var name := Find(fields, key);
    if name.Some? && name.value.Str? && NewName(name.value.s) != name.value.s {
      now := Store(fields, key, Str(NewName(name.value.s)));
    } else if name.Some? {
      StoreSame(fields, key, name.value);
    }
  }

  /** One node: what is not a dictionary is skipped, at either level. */
  method RewriteNode(m: IdMap, node: Json) returns (now: Json)
    ensures now == NewNode(m, node)
  {
    hide At, Find, Store;
    if !node.Obj? {
      return node;
    }
    var fields := RewriteId(m, node.fields, "id");
    fields := RewriteId(m, fields, "parentId");
    fields := RewriteType(m, fields);
    var data := Find(fields, "data");
    if data.None? || !data.value.Obj? {
      return Obj(fields);
    }
    var inner := RewriteName(m, data.value.fields, "label");
    inner := RewriteName(m, inner, "name");
    inner := RewriteTexts(m, inner, ["form"]);
    return Obj(Store(fields, "data", Obj(inner)));
  }

  method RewriteType(m: IdMap, fields: seq<Field>) returns (now: seq<Field>)
    ensures now == At(m, NodeType, fields, "type")
  {
    now := fields;
    var kind := Find(fields, "type");
    if kind.Some? && kind.value.Str? {
      now := Store(fields, "type", Str(NewType(kind.value.s)));
    } else if kind.Some? {
      StoreSame(fields, "type", kind.value);
    }
  }

  /** The values under some keys are rewritten as whole trees, key after key. */
  function TextsAt(m: IdMap, fields: seq<Field>, keys: seq<string>): seq<Field> {
    if keys == [] then fields else At(m, Whole, TextsAt(m, fields, keys[..|keys| - 1]), keys[|keys| - 1])
  }

  method RewriteTexts(m: IdMap, fields: seq<Field>, keys: seq<string>) returns (now: seq<Field>)
    ensures now == TextsAt(m, fields, keys)
    ensures |keys| == 1 ==> now == At(m, Whole, fields, keys[0])
    ensures keys == ["history", "messages", "reference"] ==> now == WithTexts(m, fields)
  {
    now := fields;
    for n := 0 to |keys|
      invariant now == TextsAt(m, fields, keys[..n])
    {
      assert keys[..n + 1][..n] == keys[..n];
      var found := Find(now, keys[n]);
      if found.Some? {
        now := Store(now, keys[n], Rewrite(m, found.value));
      }
    }
    assert keys[..|keys|] == keys;
    TextsUnfolded(m, fields, keys);
  }

  lemma TextsUnfolded(m: IdMap, fields: seq<Field>, keys: seq<string>)
    ensures |keys| == 1 ==> TextsAt(m, fields, keys) == At(m, Whole, fields, keys[0])
    ensures keys == ["history", "messages", "reference"] ==> TextsAt(m, fields, keys) == WithTexts(m, fields)
  {
    hide At;
    if |keys| == 1 {
      assert keys[..0] == [];
    } else if keys == ["history", "messages", "reference"] {
      assert keys[..2] == ["history", "messages"] && keys[..2][..1] == ["history"] && keys[..2][..1][..0] == [];
    }
  }

  method RewriteNodes(m: IdMap, nodes: seq<Json>) returns (now: seq<Json>)
    ensures |now| == |nodes| && forall i :: 0 <= i < |nodes| ==> now[i] == NewNode(m, nodes[i])
  {
    hide NewNode;
    now := [];
    for n := 0 to |nodes|
      invariant |now| == n && forall i :: 0 <= i < n ==> now[i] == NewNode(m, nodes[i])
    {
      var node := RewriteNode(m, nodes[n]);
      now := now + [node];
    }
  }

  /** One edge: its ends are mapped, and every id is replaced inside its own. */
  method RewriteEdge(m: IdMap, replacements: seq<string>, edge: Json) returns (now: Json)
    ensures now == NewEdge(m, replacements, edge)
  {
    hide At, ReplaceAll, Find, Store;
    if !edge.Obj? {
      return edge;
    }
    var fields := RewriteId(m, edge.fields, "source");
    fields := RewriteId(m, fields, "target");
    var id := Find(fields, "id");
    if id.Some? && id.value.Str? {
      var s := id.value.s;
      for n := 0 to |replacements|
        invariant s == NewEdgeId(m, replacements, id.value.s, n)
      {
        s := ReplaceAll(s, replacements[n], MapId(m, replacements[n]));
      }
      fields := Store(fields, "id", Str(s));
    }
    return Obj(fields);
  }

  method RewriteEdges(m: IdMap, replacements: seq<string>, edges: seq<Json>) returns (now: seq<Json>)
    ensures |now| == |edges| && forall i :: 0 <= i < |edges| ==> now[i] == NewEdge(m, replacements, edges[i])
  {
    hide NewEdge;
    now := [];
    for n := 0 to |edges|
      invariant |now| == n && forall i :: 0 <= i < n ==> now[i] == NewEdge(m, replacements, edges[i])
    {
      var edge := RewriteEdge(m, replacements, edges[n]);
      now := now + [edge];
    }
  }

  method RewriteGraph(m: IdMap, ids: seq<string>, fields: seq<Field>) returns (now: seq<Field>)
    ensures now == GraphAt(m, ids, fields)
  {
    hide NewNode, NewEdge;
    var graph := Find(fields, "graph");
    if graph.None? || !graph.value.Obj? {
      return fields;
    }
    var inner := graph.value.fields;
    var nodes := Find(inner, "nodes");
    if nodes.Some? && nodes.value.Arr? {
      var items := nodes.value.items;
      var rewritten := RewriteNodes(m, items);
      assert rewritten == seq(|items|, i requires 0 <= i < |items| => NewNode(m, items[i]));
      inner := Store(inner, "nodes", Arr(rewritten));
    }
    assert inner == NodesAt(m, graph.value.fields);
    var edges := Find(inner, "edges");
    if edges.Some? && edges.value.Arr? {
      var items := edges.value.items;
      var rewritten := RewriteEdges(m, ids, items);
      assert rewritten == seq(|items|, i requires 0 <= i < |items| => NewEdge(m, ids, items[i]));
      inner := Store(inner, "edges", Arr(rewritten));
    }
    assert inner == EdgesAt(m, ids, NodesAt(m, graph.value.fields));
    now := Store(fields, "graph", Obj(inner));
  }

  /** `normalize_chunker_dsl`. */
  method NormalizeChunkerDsl(dsl: Json) returns (r: Result<Json, Failure>)
    ensures r == Migrate(dsl)
  {
    hide HashableAll, NewComponents, GraphAt, At, LongestFirst, IdMapOf;
    if !dsl.Obj? {
      return Ok(dsl);
    }
    var components := Find(dsl.fields, "components");
    if components.None? || !components.value.Obj? {
      return Ok(dsl);
    }
    var entries := components.value.fields;
    if !HashableAll(dsl.fields, entries) {
      return Err(Unhashable);
    }
    var m := BuildIdMap(entries);
    var rewritten := RewriteComponents(m, entries);
    var fields := Store(dsl.fields, "components", Obj(rewritten));
    fields := RewriteRefs(m, fields, "path");
    fields := RewriteGraph(m, LongestFirst(Keys(entries)), fields);
    fields := RewriteTexts(m, fields, ["history", "messages", "reference"]);
    return Ok(Obj(fields));
  }
}
