/** The migration of a stored canvas from the old chunker names to the new ones. */
module DslMigration {
  import opened Text
  import opened Json

  datatype Failure = Unhashable

  // ----- Names -----

  const COMPONENT_RENAMES: seq<(string, string)> :=
    [("Splitter", "TokenChunker"), ("HierarchicalMerger", "TitleChunker"), ("PDFGenerator", "DocGenerator")]

  /** The new name of an operator. */
  function NewName(name: string): string {
    if name == "Splitter" then "TokenChunker"
    else if name == "HierarchicalMerger" then "TitleChunker"
    else if name == "PDFGenerator" then "DocGenerator"
    else name
  }

  function NewType(name: string): string {
    if name == "splitterNode" then "chunkerNode" else name
  }

  predicate StartsWith(s: string, prefix: string) {
    |prefix| <= |s| && s[..|prefix|] == prefix
  }

  /** The new id of a component: its operator's name is renamed before the colon. */
  function NewId(id: string): string {
    if StartsWith(id, "Splitter:") then "TokenChunker:" + id[9..]
    else if StartsWith(id, "HierarchicalMerger:") then "TitleChunker:" + id[19..]
    else if StartsWith(id, "PDFGenerator:") then "DocGenerator:" + id[13..]
    else id
  }

  type IdMap = map<string, string>

  function MapId(m: IdMap, id: string): string {
    if id in m then m[id] else id
  }

  function IdMapOf(components: seq<Field>): IdMap {
    map id | id in Keys(components) :: NewId(id)
  }

  // ----- References inside text -----

  predicate IsIdChar(c: char) {
    'A' <= c <= 'Z' || 'a' <= c <= 'z' || '0' <= c <= '9' || c == ':' || c == '_' || c == '-'
  }

  predicate IsNameChar(c: char) {
    'A' <= c <= 'Z' || 'a' <= c <= 'z' || '0' <= c <= '9' || c == '_' || c == '.' || c == '-'
  }

  datatype Class = Opening | Blank | IdChar | NameChar | Closing

  predicate In(k: Class, c: char) {
    match k
    case Opening => c == '{'
    case Blank => IsSpace(c)
    case IdChar => IsIdChar(c)
    case NameChar => IsNameChar(c)
    case Closing => c == '}'
  }

  /** Where the run of a class that starts at `i` ends. */
  function Span(k: Class, s: string, i: nat): (end: nat)
    requires i <= |s|
    ensures i <= end <= |s|
    ensures forall j :: i <= j < end ==> In(k, s[j])
    ensures end < |s| ==> !In(k, s[end])
    decreases |s| - i
  {
    if i < |s| && In(k, s[i]) then Span(k, s, i + 1) else i
  }

  /** A reference at the front of a text: its id lies between `begin` and `mid`,
      and the whole of it ends at `end`. */
  datatype Ref = Ref(begin: nat, mid: nat, end: nat)

  /** The variable pattern, matched at the front of a text.  Neighbouring classes
      are disjoint, so the longest runs are the only ones to try. */
  function RefAtFront(s: string): (r: Option<Ref>)
    ensures r.Some? ==> 0 < r.value.begin < r.value.mid < r.value.end <= |s|
  {
    var braces := Span(Opening, s, 0);
    var begin := Span(Blank, s, braces);
    var mid := Span(IdChar, s, begin);
    if braces == 0 || mid == begin || mid == |s| || s[mid] != '@' then None
    else
      var name := Span(NameChar, s, mid + 1);
      var blank := Span(Blank, s, name);
      var end := Span(Closing, s, blank);
      if name == mid + 1 || end == blank then None else Some(Ref(begin, mid, end))
  }

  /** Every reference, from the left, with its id mapped. */
  function Substitute(m: IdMap, s: string): string
    decreases |s|
  {
    if s == "" then ""
    else
      var ref := RefAtFront(s);
      if ref.None? then [s[0]] + Substitute(m, s[1..])
      else
        var Ref(begin, mid, end) := ref.value;
        s[..begin] + MapId(m, s[begin..mid]) + s[mid..end] + Substitute(m, s[end..])
  }

  /** `rewrite_variable_refs`. */
  function RewriteText(m: IdMap, s: string): string {
    if s in m then m[s] else Substitute(m, s)
  }

  // ----- Values -----

  /** `rewrite_value`. */
  function Rewrite(m: IdMap, v: Json): Json
    decreases v
  {
    match v
    case Str(s) => Str(RewriteText(m, s))
    case Arr(items) => Arr(seq(|items|, i requires 0 <= i < |items| => Rewrite(m, items[i])))
    case Obj(fields) =>
      Obj(seq(|fields|, i requires 0 <= i < |fields| => fields[i].(value := Rewrite(m, fields[i].value))))
    case _ => v
  }

  /** `component_id_map.get(x, x)`; only text is ever in the map. */
  function MapRef(m: IdMap, v: Json): Json {
    if v.Str? then Str(MapId(m, v.s)) else v
  }

  /** The ways in which the passes change the value at a key. */
  datatype Pass = Whole | Refs | Id | Name | NodeType

  function Apply(m: IdMap, p: Pass, v: Json): Json {
    match p
    case Whole => Rewrite(m, v)
    case Refs => if v.Arr? then Arr(seq(|v.items|, i requires 0 <= i < |v.items| => MapRef(m, v.items[i]))) else v
    case Id => MapRef(m, v)
    case Name => if v.Str? then Str(NewName(v.s)) else v
    case NodeType => if v.Str? then Str(NewType(v.s)) else v
  }

  /** A pass over the value at a key, if there is one. */
  function At(m: IdMap, p: Pass, fields: seq<Field>, key: string): seq<Field> {
    var found := Find(fields, key);
    if found.None? then fields else Store(fields, key, Apply(m, p, found.value))
  }

  // ----- Components -----

  /** The operator's record: its name is always written back, null if it had none. */
  function NewObj(obj: seq<Field>): seq<Field> {
    var name := Find(obj, "component_name");
    Store(obj, "component_name", if name.None? then Null else Apply(map[], Name, name.value))
  }

  function NamedObj(fields: seq<Field>): seq<Field> {
    var obj := Find(fields, "obj");
    if obj.Some? && obj.value.Obj? then Store(fields, "obj", Obj(NewObj(obj.value.fields))) else fields
  }

  function NewComponent(m: IdMap, component: Json): Json {
    var r := Rewrite(m, component);
    if !r.Obj? then r
    else Obj(At(m, Id, At(m, Refs, At(m, Refs, NamedObj(r.fields), "downstream"), "upstream"), "parent_id"))
  }

  /** The first `n` components under their new ids. */
  function NewComponents(m: IdMap, components: seq<Field>, n: nat): seq<Field>
    requires n <= |components|
  {
    if n == 0 then []
    else
      Store(NewComponents(m, components, n - 1),
            MapId(m, components[n - 1].key), NewComponent(m, components[n - 1].value))
  }

  // ----- Nodes and edges -----

  function NewData(m: IdMap, data: seq<Field>): seq<Field> {
    At(m, Whole, At(m, Name, At(m, Name, data, "label"), "name"), "form")
  }

  function DataAt(m: IdMap, fields: seq<Field>): seq<Field> {
    var data := Find(fields, "data");
    if data.Some? && data.value.Obj? then Store(fields, "data", Obj(NewData(m, data.value.fields))) else fields
  }

  function NewNode(m: IdMap, node: Json): Json {
    if !node.Obj? then node
    else Obj(DataAt(m, At(m, NodeType, At(m, Id, At(m, Id, node.fields, "id"), "parentId"), "type")))
  }

  function Weave(s: string, put: string): string {
    put + if s == "" then "" else [s[0]] + Weave(s[1..], put)
  }

  /** Python's `s.replace(old, put)`. */
  function ReplaceAll(s: string, find: string, put: string): string
    decreases |s|
  {
    if find == "" then Weave(s, put)
    else if s == "" then ""
    else if StartsWith(s, find) then put + ReplaceAll(s[|find|..], find, put)
    else [s[0]] + ReplaceAll(s[1..], find, put)
  }

  function InsertByLength(ids: seq<string>, id: string): seq<string> {
    if ids == [] || |ids[|ids| - 1]| >= |id| then ids + [id]
    else InsertByLength(ids[..|ids| - 1], id) + [ids[|ids| - 1]]
  }

  /** The ids with the longest first, ties in their old order. */
  function LongestFirst(ids: seq<string>): seq<string> {
    if ids == [] then [] else InsertByLength(LongestFirst(ids[..|ids| - 1]), ids[|ids| - 1])
  }

  function NewEdgeId(m: IdMap, ids: seq<string>, s: string, n: nat): string
    requires n <= |ids|
  {
    if n == 0 then s
    else ReplaceAll(NewEdgeId(m, ids, s, n - 1), ids[n - 1], MapId(m, ids[n - 1]))
  }

  function EdgeIdAt(m: IdMap, ids: seq<string>, fields: seq<Field>): seq<Field> {
    var id := Find(fields, "id");
    if id.Some? && id.value.Str? then Store(fields, "id", Str(NewEdgeId(m, ids, id.value.s, |ids|))) else fields
  }

  function NewEdge(m: IdMap, ids: seq<string>, edge: Json): Json {
    if !edge.Obj? then edge
    else Obj(EdgeIdAt(m, ids, At(m, Id, At(m, Id, edge.fields, "source"), "target")))
  }

  function NodesAt(m: IdMap, graph: seq<Field>): seq<Field> {
    var nodes := Find(graph, "nodes");
    if nodes.Some? && nodes.value.Arr? then
      var items := nodes.value.items;
      Store(graph, "nodes", Arr(seq(|items|, i requires 0 <= i < |items| => NewNode(m, items[i]))))
    else graph
  }

  function EdgesAt(m: IdMap, ids: seq<string>, graph: seq<Field>): seq<Field> {
    var edges := Find(graph, "edges");
    if edges.Some? && edges.value.Arr? then
      var items := edges.value.items;
      Store(graph, "edges", Arr(seq(|items|, i requires 0 <= i < |items| => NewEdge(m, ids, items[i]))))
    else graph
  }

  function GraphAt(m: IdMap, ids: seq<string>, fields: seq<Field>): seq<Field> {
    var graph := Find(fields, "graph");
    if graph.Some? && graph.value.Obj? then
      Store(fields, "graph", Obj(EdgesAt(m, ids, NodesAt(m, graph.value.fields))))
    else fields
  }

  // ----- The whole document -----

  /** Looking up an array or a dictionary in the id map, or in the renames, fails. */
  predicate HashableRefs(fields: seq<Field>, key: string) {
    var refs := Find(fields, key);
    refs.Some? && refs.value.Arr? ==> forall i :: 0 <= i < |refs.value.items| ==> Hashable(refs.value.items[i])
  }

  predicate HashableName(fields: seq<Field>) {
    var obj := Find(fields, "obj");
    obj.Some? && obj.value.Obj? ==>
      var name := Find(obj.value.fields, "component_name"); name.Some? ==> Hashable(name.value)
  }

  predicate HashableComponent(c: Json) {
    c.Obj? ==> HashableName(c.fields) && HashableRefs(c.fields, "downstream") && HashableRefs(c.fields, "upstream")
  }

  predicate HashableAll(fields: seq<Field>, components: seq<Field>) {
    && (forall i :: 0 <= i < |components| ==> HashableComponent(components[i].value))
    && HashableRefs(fields, "path")
  }

  /** The components and the path are rewritten first, */
  function WithComponents(fields: seq<Field>, components: seq<Field>): seq<Field> {
    var m := IdMapOf(components);
    At(m, Refs, Store(fields, "components", Obj(NewComponents(m, components, |components|))), "path")
  }

  /** and the free texts last. */
  function WithTexts(m: IdMap, fields: seq<Field>): seq<Field> {
    At(m, Whole, At(m, Whole, At(m, Whole, fields, "history"), "messages"), "reference")
  }

  function NewFields(fields: seq<Field>, components: seq<Field>): seq<Field> {
    var m := IdMapOf(components);
    WithTexts(m, GraphAt(m, LongestFirst(Keys(components)), WithComponents(fields, components)))
  }

  function Migrate(dsl: Json): Result<Json, Failure> {
    if !dsl.Obj? then Ok(dsl)
    else
      var components := Find(dsl.fields, "components");
      if components.None? || !components.value.Obj? then Ok(dsl)
      else if !HashableAll(dsl.fields, components.value.fields) then Err(Unhashable)
      else Ok(Obj(NewFields(dsl.fields, components.value.fields)))
  }
}
