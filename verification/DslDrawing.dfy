/** What a migrated drawing is: its nodes, its edges and the graph that holds them. */
module DslDrawing {
  import opened Text
  import opened Json
  import opened DslMigration
  import opened DslIdempotence
  import opened DslTexts
  import opened DslMeaning

  // ----- Images -----

  /** An id that is mapped only, where it is text. */
  ghost predicate IdImage(ids: seq<string>, v: Json, w: Json) {
    match v
    case Str(s) => w == Str(MappedId(ids, s))
    case _ => w == v
  }

  ghost predicate TypeImage(v: Json, w: Json) {
    if v == Str("splitterNode") then w == Str("chunkerNode") else w == v
  }

  /** A node's data: its label and name are renamed, its form is rewritten. */
  ghost predicate DataImage(ids: seq<string>, v: Json, w: Json) {
    if !v.Obj? then w == v
    else
      && w.Obj? && Keys(w.fields) == Keys(v.fields)
      && Under(v.fields, w.fields, "label", (x, y) => NameImage(x, y))
      && Under(v.fields, w.fields, "name", (x, y) => NameImage(x, y))
      && Under(v.fields, w.fields, "form", (x, y) => TreeImage(ids, x, y))
      && forall key :: key !in {"label", "name", "form"} ==> Find(w.fields, key) == Find(v.fields, key)
  }

  ghost predicate DrawnNode(ids: seq<string>, v: Json, w: Json) {
    if !v.Obj? then w == v
    else
      && w.Obj? && Keys(w.fields) == Keys(v.fields)
      && Under(v.fields, w.fields, "id", (x, y) => IdImage(ids, x, y))
      && Under(v.fields, w.fields, "parentId", (x, y) => IdImage(ids, x, y))
      && Under(v.fields, w.fields, "type", (x, y) => TypeImage(x, y))
      && Under(v.fields, w.fields, "data", (x, y) => DataImage(ids, x, y))
      && forall key :: key !in {"id", "parentId", "type", "data"} ==> Find(w.fields, key) == Find(v.fields, key)
  }

  // ----- Nodes -----

  lemma IdIsImage(m: IdMap, ids: seq<string>, v: Json)
    requires MapsIds(m, ids)
    ensures IdImage(ids, v, MapRef(m, v))
  {
    hide NewId;
  }

  lemma TypeIsImage(m: IdMap, v: Json)
    ensures TypeImage(v, Apply(m, NodeType, v)) && NameImage(v, Apply(m, Name, v))
  {
  }

  lemma DataIsImage(m: IdMap, ids: seq<string>, data: seq<Field>)
    requires MapsIds(m, ids)
    ensures DataImage(ids, Obj(data), Obj(NewData(m, data)))
  {
    hide At, Apply, Find, TreeImage, NameImage, MapsIds;
    var one := At(m, Name, data, "label");
    var two := At(m, Name, one, "name");
    var now := At(m, Whole, two, "form");
    assert now == NewData(m, data);
    forall key
      ensures Keys(now) == Keys(data)
      ensures Find(now, key) == if Find(data, key).None? then None
                                else if key == "label" || key == "name" then Some(Apply(m, Name, Find(data, key).value))
                                else if key == "form" then Some(Apply(m, Whole, Find(data, key).value))
                                else Find(data, key)
    {
      PassUnder(m, Name, data, "label", key);
      PassUnder(m, Name, one, "name", key);
      PassUnder(m, Whole, two, "form", key);
    }
    DataImages(m, ids, data);
  }

  lemma DataImages(m: IdMap, ids: seq<string>, data: seq<Field>)
    requires MapsIds(m, ids)
    ensures Find(data, "label").Some? ==>
              NameImage(Find(data, "label").value, Apply(m, Name, Find(data, "label").value))
    ensures Find(data, "name").Some? ==>
              NameImage(Find(data, "name").value, Apply(m, Name, Find(data, "name").value))
    ensures Find(data, "form").Some? ==>
              TreeImage(ids, Find(data, "form").value, Apply(m, Whole, Find(data, "form").value))
  {
    hide Find, TreeImage, NameImage, MapsIds;
    if Find(data, "label").Some? {
      TypeIsImage(m, Find(data, "label").value);
    }
    if Find(data, "name").Some? {
      TypeIsImage(m, Find(data, "name").value);
    }
    if Find(data, "form").Some? {
      RewriteIsImage(m, ids, Find(data, "form").value);
    }
  }

  lemma DataUnder(m: IdMap, fields: seq<Field>, key: string)
    ensures Find(DataAt(m, fields), key) ==
            if key == "data" && Find(fields, "data").Some? && Find(fields, "data").value.Obj?
            then Some(Obj(NewData(m, Find(fields, "data").value.fields))) else Find(fields, key)
    ensures Keys(DataAt(m, fields)) == Keys(fields)
  {
    hide NewData;
    var data := Find(fields, "data");
    if data.Some? && data.value.Obj? {
      FindStored(fields, "data", Obj(NewData(m, data.value.fields)), key);
      StoreKeys(fields, "data", Obj(NewData(m, data.value.fields)));
      KeyThere(fields, "data");
    }
  }

  lemma IdIsApplied(m: IdMap, v: Json)
    ensures Apply(m, Id, v) == MapRef(m, v)
  {
  }

  /** What all passes of a node leave under a key. */
  lemma NodeUnder(m: IdMap, node: seq<Field>, key: string)
    ensures NewNode(m, Obj(node)).Obj?
    ensures var now := NewNode(m, Obj(node)).fields;
            && Keys(now) == Keys(node)
            && Find(now, key) ==
               if Find(node, key).None? then None
               else if key == "id" || key == "parentId" then Some(MapRef(m, Find(node, key).value))
               else if key == "type" then Some(Apply(m, NodeType, Find(node, key).value))
               else if key == "data" && Find(node, key).value.Obj?
               then Some(Obj(NewData(m, Find(node, key).value.fields)))
               else Find(node, key)
  {
    hide At, DataAt, NewData, Find, MapRef, Keys, Apply;
    if Find(node, key).Some? {
      IdIsApplied(m, Find(node, key).value);
    }
    var one := At(m, Id, node, "id");
    var two := At(m, Id, one, "parentId");
    var three := At(m, NodeType, two, "type");
    PassUnder(m, Id, node, "id", key);
    PassUnder(m, Id, one, "parentId", key);
    PassUnder(m, NodeType, two, "type", key);
    DataUnder(m, three, key);
    PassUnder(m, Id, node, "id", "data");
    PassUnder(m, Id, one, "parentId", "data");
    PassUnder(m, NodeType, two, "type", "data");
  }

  lemma IdUnder(m: IdMap, ids: seq<string>, node: seq<Field>, key: string)
    requires MapsIds(m, ids) && (key == "id" || key == "parentId")
    ensures NewNode(m, Obj(node)).Obj? && Under(node, NewNode(m, Obj(node)).fields, key, (x, y) => IdImage(ids, x, y))
  {
    hide Find, MapRef, IdImage, MapsIds, NewNode;
    NodeUnder(m, node, key);
    if Find(node, key).Some? {
      IdIsImage(m, ids, Find(node, key).value);
    }
  }

  lemma TypeUnder(m: IdMap, node: seq<Field>)
    ensures NewNode(m, Obj(node)).Obj? && Under(node, NewNode(m, Obj(node)).fields, "type", (x, y) => TypeImage(x, y))
  {
    hide Find, Apply, TypeImage, NewNode;
    NodeUnder(m, node, "type");
    if Find(node, "type").Some? {
      TypeIsImage(m, Find(node, "type").value);
    }
  }

  lemma DrawnDataUnder(m: IdMap, ids: seq<string>, node: seq<Field>)
    requires MapsIds(m, ids)
    ensures NewNode(m, Obj(node)).Obj?
    ensures Under(node, NewNode(m, Obj(node)).fields, "data", (x, y) => DataImage(ids, x, y))
  {
    hide Find, NewData, MapsIds, NewNode;
    NodeUnder(m, node, "data");
    var data := Find(node, "data");
    if data.Some? && data.value.Obj? {
      DataIsImage(m, ids, data.value.fields);
      hide DataImage;
      assert data.value == Obj(data.value.fields);
    }
  }

  lemma NodeIsDrawn(m: IdMap, ids: seq<string>, node: Json)
    requires MapsIds(m, ids)
    ensures DrawnNode(ids, node, NewNode(m, node))
  {
    if node.Obj? {
      NodeUnder(m, node.fields, "id");
      hide Find, NewNode, MapsIds, IdImage, TypeImage, DataImage, Under;
      assert node == Obj(node.fields);
      IdUnder(m, ids, node.fields, "id");
      IdUnder(m, ids, node.fields, "parentId");
      TypeUnder(m, node.fields);
      DrawnDataUnder(m, ids, node.fields);
      forall key | key !in {"id", "parentId", "type", "data"}
        ensures Find(NewNode(m, node).fields, key) == Find(node.fields, key)
      {
        NodeUnder(m, node.fields, key);
      }
    }
  }

  // ----- Edges -----

  /** Ids are replaced inside a text one after the other, by what they are renamed to. */
  ghost predicate ReplacedIn(order: seq<string>, s: string, t: string)
    decreases |order|
  {
    if order == [] then t == s
    else
      var n := |order| - 1;
      exists u :: ReplacedIn(order[..n], s, u) && Replaces(u, order[n], NewId(order[n]), t)
  }

  /** Every occurrence from the left, none overlapping, is replaced; no text at all is
      found around every character. */
  ghost predicate Replaces(s: string, find: string, put: string, t: string)
    decreases |s|
  {
    if find == "" then
      put <= t && if s == "" then t == put
                  else |put| < |t| && t[|put|] == s[0] && Replaces(s[1..], find, put, t[|put| + 1..])
    else if s == "" then t == ""
    else if find <= s then put <= t && Replaces(s[|find|..], find, put, t[|put|..])
    else t != "" && t[0] == s[0] && Replaces(s[1..], find, put, t[1..])
  }

  lemma {:induction false} ReplaceAllReplaces(s: string, find: string, put: string)
    ensures Replaces(s, find, put, ReplaceAll(s, find, put))
    decreases |s|
  {
    var t := ReplaceAll(s, find, put);
    if find == "" {
      if s != "" {
        ReplaceAllReplaces(s[1..], find, put);
        assert t == put + ([s[0]] + Weave(s[1..], put));
        assert t[|put| + 1..] == Weave(s[1..], put);
      } else {
        assert t == put + "";
      }
    } else if s != "" {
      StartsMeans(s, find);
      if find <= s {
        ReplaceAllReplaces(s[|find|..], find, put);
        assert t[|put|..] == ReplaceAll(s[|find|..], find, put);
      } else {
        ReplaceAllReplaces(s[1..], find, put);
        assert t[1..] == ReplaceAll(s[1..], find, put);
      }
    }
  }

  lemma {:induction false} EdgeIdIsReplaced(m: IdMap, ids: seq<string>, order: seq<string>, s: string, n: nat)
    requires MapsIds(m, ids) && n <= |order| && forall k :: 0 <= k < |order| ==> order[k] in ids
    ensures ReplacedIn(order[..n], s, NewEdgeId(m, order, s, n))
  {
    hide NewId, ReplaceAll, Replaces;
    if n > 0 {
      var u := NewEdgeId(m, order, s, n - 1);
      EdgeIdIsReplaced(m, ids, order, s, n - 1);
      assert order[..n][..n - 1] == order[..n - 1] && order[..n][n - 1] == order[n - 1];
      ReplaceAllReplaces(u, order[n - 1], NewId(order[n - 1]));
    }
  }

  /** The ids with the longest first, ids of one length in their old order. */
  ghost predicate LongestInOrder(ids: seq<string>, order: seq<string>) {
    && multiset(order) == multiset(ids)
    && Descending(order)
    && forall n :: OfLength(order, n) == OfLength(ids, n)
  }

  function OfLength(ids: seq<string>, n: nat): seq<string> {
    if ids == [] then []
    else OfLength(ids[..|ids| - 1], n) + if |ids[|ids| - 1]| == n then [ids[|ids| - 1]] else []
  }

  lemma {:induction false} InsertedHas(order: seq<string>, id: string)
    ensures multiset(InsertByLength(order, id)) == multiset(order) + multiset{id}
  {
    if order != [] && |order[|order| - 1]| < |id| {
      var k := |order| - 1;
      InsertedHas(order[..k], id);
      assert order == order[..k] + [order[k]];
    }
  }

  lemma InsertedFrom(order: seq<string>, id: string, i: nat)
    requires i < |InsertByLength(order, id)|
    ensures InsertByLength(order, id)[i] == id || InsertByLength(order, id)[i] in order
  {
    hide InsertByLength;
    InsertedHas(order, id);
    assert InsertByLength(order, id)[i] in multiset(InsertByLength(order, id));
  }

  lemma DescendsBefore(order: seq<string>, id: string)
    requires Descending(order) && forall i :: 0 <= i < |order| ==> |order[i]| >= |id|
    ensures Descending(order + [id])
  {
  }

  ghost predicate Descending(order: seq<string>) {
    forall i, j :: 0 <= i < j < |order| ==> |order[i]| >= |order[j]|
  }

  lemma {:induction false} InsertedDescends(order: seq<string>, id: string)
    requires Descending(order)
    ensures Descending(InsertByLength(order, id))
  {
    if order != [] && |order[|order| - 1]| < |id| {
      var k := |order| - 1;
      var before := InsertByLength(order[..k], id);
      InsertedDescends(order[..k], id);
      forall i | 0 <= i < |before| ensures |before[i]| >= |order[k]| {
        InsertedFrom(order[..k], id, i);
      }
      DescendsBefore(before, order[k]);
    }
  }

  lemma {:induction false} InsertedLengths(order: seq<string>, id: string, n: nat)
    requires Descending(order)
    ensures OfLength(InsertByLength(order, id), n) == OfLength(order, n) + if |id| == n then [id] else []
  {
    var now := InsertByLength(order, id);
    if order == [] || |order[|order| - 1]| >= |id| {
      assert now[..|now| - 1] == order;
    } else {
      var k := |order| - 1;
      InsertedLengths(order[..k], id, n);
      assert now[..|now| - 1] == InsertByLength(order[..k], id);
      if |id| == n {
        ShorterHasNone(order, n);
      }
    }
  }

  lemma ShorterHasNone(order: seq<string>, n: nat)
    requires order != [] && |order[|order| - 1]| < n
    ensures OfLength(order, n) == OfLength(order[..|order| - 1], n)
  {
  }

  lemma {:induction false} LongestFirstOrders(ids: seq<string>)
    ensures LongestInOrder(ids, LongestFirst(ids))
  {
    if ids != [] {
      var k := |ids| - 1;
      LongestFirstOrders(ids[..k]);
      InsertedHas(LongestFirst(ids[..k]), ids[k]);
      InsertedDescends(LongestFirst(ids[..k]), ids[k]);
      forall n ensures OfLength(LongestFirst(ids), n) == OfLength(ids, n) {
        InsertedLengths(LongestFirst(ids[..k]), ids[k], n);
      }
      assert ids == ids[..k] + [ids[k]];
    }
  }

  /** An edge's ends are mapped, and in its id every component's id is replaced. */
  ghost predicate DrawnEdge(ids: seq<string>, order: seq<string>, v: Json, w: Json) {
    if !v.Obj? then w == v
    else
      && w.Obj? && Keys(w.fields) == Keys(v.fields)
      && Under(v.fields, w.fields, "source", (x, y) => IdImage(ids, x, y))
      && Under(v.fields, w.fields, "target", (x, y) => IdImage(ids, x, y))
      && Under(v.fields, w.fields, "id", (x, y) => EdgeIdImage(order, x, y))
      && forall key :: key !in {"source", "target", "id"} ==> Find(w.fields, key) == Find(v.fields, key)
  }

  ghost predicate EdgeIdImage(order: seq<string>, v: Json, w: Json) {
    match v
    case Str(s) => w.Str? && ReplacedIn(order, s, w.s)
    case _ => w == v
  }

  /** What all passes of an edge leave under a key. */
  lemma EdgeUnder(m: IdMap, order: seq<string>, edge: seq<Field>, key: string)
    ensures NewEdge(m, order, Obj(edge)).Obj?
    ensures var now := NewEdge(m, order, Obj(edge)).fields;
            && Keys(now) == Keys(edge)
            && Find(now, key) ==
               if Find(edge, key).None? then None
               else if key == "source" || key == "target" then Some(MapRef(m, Find(edge, key).value))
               else if key == "id" && Find(edge, key).value.Str?
               then Some(Str(NewEdgeId(m, order, Find(edge, key).value.s, |order|)))
               else Find(edge, key)
  {
    hide At, Find, MapRef, NewEdgeId;
    var one := At(m, Id, edge, "source");
    var two := At(m, Id, one, "target");
    PassUnder(m, Id, edge, "source", key);
    PassUnder(m, Id, one, "target", key);
    PassUnder(m, Id, edge, "source", "id");
    PassUnder(m, Id, one, "target", "id");
    EdgeIdUnder(m, order, two, key);
  }

  lemma EdgeIdUnder(m: IdMap, order: seq<string>, fields: seq<Field>, key: string)
    ensures Find(EdgeIdAt(m, order, fields), key) ==
            if key == "id" && Find(fields, "id").Some? && Find(fields, "id").value.Str?
            then Some(Str(NewEdgeId(m, order, Find(fields, "id").value.s, |order|))) else Find(fields, key)
    ensures Keys(EdgeIdAt(m, order, fields)) == Keys(fields)
  {
    hide NewEdgeId;
    var id := Find(fields, "id");
    if id.Some? && id.value.Str? {
      var now := Str(NewEdgeId(m, order, id.value.s, |order|));
      FindStored(fields, "id", now, key);
      StoreKeys(fields, "id", now);
      KeyThere(fields, "id");
    }
  }

  lemma EndUnder(m: IdMap, ids: seq<string>, order: seq<string>, edge: seq<Field>, key: string)
    requires MapsIds(m, ids) && (key == "source" || key == "target")
    ensures NewEdge(m, order, Obj(edge)).Obj?
    ensures Under(edge, NewEdge(m, order, Obj(edge)).fields, key, (x, y) => IdImage(ids, x, y))
  {
    hide Find, MapRef, IdImage, MapsIds, NewEdge, NewEdgeId;
    EdgeUnder(m, order, edge, key);
    if Find(edge, key).Some? {
      IdIsImage(m, ids, Find(edge, key).value);
    }
  }

  lemma EdgeIdReplaced(m: IdMap, ids: seq<string>, order: seq<string>, edge: seq<Field>)
    requires MapsIds(m, ids) && forall k :: 0 <= k < |order| ==> order[k] in ids
    ensures NewEdge(m, order, Obj(edge)).Obj?
    ensures Under(edge, NewEdge(m, order, Obj(edge)).fields, "id", (x, y) => EdgeIdImage(order, x, y))
  {
    hide Find, ReplacedIn, MapsIds, NewEdge, NewEdgeId;
    EdgeUnder(m, order, edge, "id");
    var id := Find(edge, "id");
    if id.Some? && id.value.Str? {
      EdgeIdIsReplaced(m, ids, order, id.value.s, |order|);
      assert order[..|order|] == order;
    }
  }

  lemma EdgeIsDrawn(m: IdMap, ids: seq<string>, order: seq<string>, edge: Json)
    requires MapsIds(m, ids) && forall k :: 0 <= k < |order| ==> order[k] in ids
    ensures DrawnEdge(ids, order, edge, NewEdge(m, order, edge))
  {
    if edge.Obj? {
      EdgeUnder(m, order, edge.fields, "id");
      hide Find, NewEdge, MapsIds, IdImage, EdgeIdImage, Under, NewEdgeId;
      assert edge == Obj(edge.fields);
      EndUnder(m, ids, order, edge.fields, "source");
      EndUnder(m, ids, order, edge.fields, "target");
      EdgeIdReplaced(m, ids, order, edge.fields);
      forall key | key !in {"source", "target", "id"}
        ensures Find(NewEdge(m, order, edge).fields, key) == Find(edge.fields, key)
      {
        EdgeUnder(m, order, edge.fields, key);
      }
    }
  }

  // ----- The graph -----

  /** Nodes and edges are drawn one by one; whatever else the graph holds stays. */
  ghost predicate GraphIsDrawn(ids: seq<string>, order: seq<string>, v: Json, w: Json) {
    if !v.Obj? then w == v
    else
      && w.Obj? && Keys(w.fields) == Keys(v.fields)
      && Under(v.fields, w.fields, "nodes", (x, y) => NodesDrawn(ids, x, y))
      && Under(v.fields, w.fields, "edges", (x, y) => EdgesDrawn(ids, order, x, y))
      && forall key :: key !in {"nodes", "edges"} ==> Find(w.fields, key) == Find(v.fields, key)
  }

  ghost predicate NodesDrawn(ids: seq<string>, v: Json, w: Json) {
    match v
    case Arr(items) =>
      w.Arr? && |w.items| == |items| && forall i :: 0 <= i < |items| ==> DrawnNode(ids, items[i], w.items[i])
    case _ => w == v
  }

  ghost predicate EdgesDrawn(ids: seq<string>, order: seq<string>, v: Json, w: Json) {
    match v
    case Arr(items) =>
      w.Arr? && |w.items| == |items| && forall i :: 0 <= i < |items| ==> DrawnEdge(ids, order, items[i], w.items[i])
    case _ => w == v
  }

  lemma NodesUnder(m: IdMap, ids: seq<string>, graph: seq<Field>, key: string)
    requires MapsIds(m, ids)
    ensures Keys(NodesAt(m, graph)) == Keys(graph)
    ensures key != "nodes" ==> Find(NodesAt(m, graph), key) == Find(graph, key)
    ensures Under(graph, NodesAt(m, graph), "nodes", (x, y) => NodesDrawn(ids, x, y))
  {
    hide NewNode, DrawnNode, MapsIds, Find, Keys, Store;
    var nodes := Find(graph, "nodes");
    if nodes.Some? && nodes.value.Arr? {
      var items := nodes.value.items;
      var now := Arr(seq(|items|, i requires 0 <= i < |items| => NewNode(m, items[i])));
      FindStored(graph, "nodes", now, "nodes");
      FindStored(graph, "nodes", now, key);
      StoreKeys(graph, "nodes", now);
      KeyThere(graph, "nodes");
      forall i | 0 <= i < |items| ensures DrawnNode(ids, items[i], NewNode(m, items[i])) {
        NodeIsDrawn(m, ids, items[i]);
      }
    }
  }

  lemma EdgesUnder(m: IdMap, ids: seq<string>, order: seq<string>, graph: seq<Field>, key: string)
    requires MapsIds(m, ids) && forall k :: 0 <= k < |order| ==> order[k] in ids
    ensures Keys(EdgesAt(m, order, graph)) == Keys(graph)
    ensures key != "edges" ==> Find(EdgesAt(m, order, graph), key) == Find(graph, key)
    ensures Under(graph, EdgesAt(m, order, graph), "edges", (x, y) => EdgesDrawn(ids, order, x, y))
  {
    hide NewEdge, DrawnEdge, MapsIds, Find;
    var edges := Find(graph, "edges");
    if edges.Some? && edges.value.Arr? {
      var items := edges.value.items;
      var now := Arr(seq(|items|, i requires 0 <= i < |items| => NewEdge(m, order, items[i])));
      FindStored(graph, "edges", now, "edges");
      FindStored(graph, "edges", now, key);
      StoreKeys(graph, "edges", now);
      KeyThere(graph, "edges");
      forall i | 0 <= i < |items| ensures DrawnEdge(ids, order, items[i], NewEdge(m, order, items[i])) {
        EdgeIsDrawn(m, ids, order, items[i]);
      }
    }
  }

  lemma GraphIsImage(m: IdMap, ids: seq<string>, order: seq<string>, graph: seq<Field>)
    requires MapsIds(m, ids) && forall k :: 0 <= k < |order| ==> order[k] in ids
    ensures GraphIsDrawn(ids, order, Obj(graph), Obj(EdgesAt(m, order, NodesAt(m, graph))))
  {
    hide NodesAt, EdgesAt, NodesDrawn, EdgesDrawn, MapsIds, Find;
    var noded := NodesAt(m, graph);
    var now := EdgesAt(m, order, noded);
    NodesUnder(m, ids, graph, "edges");
    EdgesUnder(m, ids, order, noded, "nodes");
    forall key | key !in {"nodes", "edges"} ensures Find(now, key) == Find(graph, key) {
      NodesUnder(m, ids, graph, key);
      EdgesUnder(m, ids, order, noded, key);
    }
  }
}
