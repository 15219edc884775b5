/** What a migrated document is, part by part, told without the passes. */
module DslMeaning {
  import opened Text
  import opened Json
  import opened DslMigration
  import opened DslIdempotence
  import opened DslIsomorphism
  import opened DslTexts

  // ----- Values under the keys that the passes know -----

  /** A reference is rewritten like any text, and mapped if it is an id then. */
  ghost predicate RefImage(ids: seq<string>, v: Json, w: Json) {
    match v
    case Str(s) => w.Str? && exists t :: TextImage(ids, s, t) && w.s == MappedId(ids, t)
    case _ => TreeImage(ids, v, w)
  }

  ghost predicate RefsImage(ids: seq<string>, v: Json, w: Json) {
    match v
    case Arr(items) =>
      w.Arr? && |w.items| == |items| && forall i :: 0 <= i < |items| ==> RefImage(ids, items[i], w.items[i])
    case _ => TreeImage(ids, v, w)
  }

  /** The name of an operator: one of three is replaced, anything else stays. */
  ghost predicate NameImage(v: Json, w: Json) {
    if v == Str("Splitter") then w == Str("TokenChunker")
    else if v == Str("HierarchicalMerger") then w == Str("TitleChunker")
    else if v == Str("PDFGenerator") then w == Str("DocGenerator")
    else w == v
  }

  /** The values under a key before and after, or their absence, are in a relation. */
  ghost predicate Under(fields: seq<Field>, now: seq<Field>, key: string, related: (Json, Json) -> bool) {
    match (Find(fields, key), Find(now, key))
    case (None, None) => true
    case (Some(v), Some(w)) => related(v, w)
    case _ => false
  }

  ghost predicate TreeUnder(ids: seq<string>, fields: seq<Field>, now: seq<Field>, key: string) {
    Under(fields, now, key, (v, w) => TreeImage(ids, v, w))
  }

  /** An operator's record: its name is rewritten and replaced, null if there was none. */
  ghost predicate RecordImage(ids: seq<string>, v: Json, w: Json) {
    if !v.Obj? then TreeImage(ids, v, w)
    else
      && w.Obj?
      && Keys(w.fields) == Keys(v.fields) + (if "component_name" in Keys(v.fields) then [] else ["component_name"])
      && (forall key :: key != "component_name" ==> TreeUnder(ids, v.fields, w.fields, key))
      && match Find(v.fields, "component_name")
         case None => Find(w.fields, "component_name") == Some(Null)
         case Some(name) =>
           && Find(w.fields, "component_name").Some?
           && exists t :: TreeImage(ids, name, t) && NameImage(t, Find(w.fields, "component_name").value)
  }

  /** A component keeps its keys.  Its links and its parent are mapped, its record is
      renamed, and every other text in it, at any depth, is replaced by its image. */
  ghost predicate ComponentImage(ids: seq<string>, v: Json, w: Json) {
    if !v.Obj? then TreeImage(ids, v, w)
    else
      && w.Obj? && Keys(w.fields) == Keys(v.fields)
      && Under(v.fields, w.fields, "obj", (x, y) => RecordImage(ids, x, y))
      && Under(v.fields, w.fields, "downstream", (x, y) => RefsImage(ids, x, y))
      && Under(v.fields, w.fields, "upstream", (x, y) => RefsImage(ids, x, y))
      && Under(v.fields, w.fields, "parent_id", (x, y) => RefImage(ids, x, y))
      && forall key :: key !in {"obj", "downstream", "upstream", "parent_id"} ==>
           TreeUnder(ids, v.fields, w.fields, key)
  }

  // ----- Passes -----

  lemma PassUnder(m: IdMap, p: Pass, fields: seq<Field>, at: string, key: string)
    ensures Find(At(m, p, fields, at), key) ==
            if key == at && Find(fields, at).Some? then Some(Apply(m, p, Find(fields, at).value)) else Find(fields, key)
    ensures Keys(At(m, p, fields, at)) == Keys(fields)
  {
    hide Apply;
    FindAfterAt(m, p, fields, at, key);
    if Find(fields, at).Some? {
      StoreKeys(fields, at, Apply(m, p, Find(fields, at).value));
      KeyThere(fields, at);
    }
  }

  lemma KeyThere(fields: seq<Field>, key: string)
    requires Find(fields, key).Some?
    ensures key in Keys(fields)
  {
    var i :| 0 <= i < |fields| && fields[i].key == key;
    assert Keys(fields)[i] == key;
  }

  lemma RefIsImage(m: IdMap, ids: seq<string>, v: Json)
    requires MapsIds(m, ids)
    ensures RefImage(ids, v, MapRef(m, Rewrite(m, v)))
  {
    hide TextImage, NewId;
    RewriteIsImage(m, ids, v);
  }

  lemma RefsAreImages(m: IdMap, ids: seq<string>, v: Json)
    requires MapsIds(m, ids)
    ensures RefsImage(ids, v, Apply(m, Refs, Rewrite(m, v)))
  {
    hide RefImage, MapRef, TextImage, NewId;
    RewriteIsImage(m, ids, v);
    if v.Arr? {
      forall i | 0 <= i < |v.items| ensures RefImage(ids, v.items[i], MapRef(m, Rewrite(m, v.items[i]))) {
        RefIsImage(m, ids, v.items[i]);
      }
    }
  }

  lemma NameIsImage(v: Json)
    ensures NameImage(v, Apply(map[], Name, v))
  {
  }

  /** What the first pass leaves under a key. */
  lemma RewrittenUnder(m: IdMap, ids: seq<string>, fields: seq<Field>, key: string)
    requires MapsIds(m, ids)
    ensures Rewrite(m, Obj(fields)).Obj?
    ensures var now := Rewrite(m, Obj(fields)).fields;
            && Keys(now) == Keys(fields)
            && Find(now, key) == (if Find(fields, key).None? then None else Some(Rewrite(m, Find(fields, key).value)))
            && (Find(fields, key).Some? ==>
                  TreeImage(ids, Find(fields, key).value, Rewrite(m, Find(fields, key).value)))
  {
    hide TreeImage, Find, MapsIds;
    FindRewritten(m, fields, key);
    if Find(fields, key).Some? {
      RewriteIsImage(m, ids, Find(fields, key).value);
    }
  }

  // ----- Components -----

  lemma RecordIsImage(m: IdMap, ids: seq<string>, obj: seq<Field>)
    requires MapsIds(m, ids)
    ensures Rewrite(m, Obj(obj)).Obj?
    ensures RecordImage(ids, Obj(obj), Obj(NewObj(Rewrite(m, Obj(obj)).fields)))
  {
    hide Rewrite, TreeImage, NameImage, MapsIds, Apply, Find, Store;
    RewrittenUnder(m, ids, obj, "component_name");
    var r := Rewrite(m, Obj(obj)).fields;
    var name := Find(r, "component_name");
    var value := if name.None? then Null else Apply(map[], Name, name.value);
    var now := NewObj(r);
    assert now == Store(r, "component_name", value);
    StoreKeys(r, "component_name", value);
    FindStored(r, "component_name", value, "component_name");
    forall key | key != "component_name" ensures TreeUnder(ids, obj, now, key) {
      RewrittenUnder(m, ids, obj, key);
      FindStored(r, "component_name", value, key);
    }
    if name.Some? {
      NameIsImage(name.value);
    }
  }

  lemma NamedUnder(fields: seq<Field>, key: string)
    ensures Find(NamedObj(fields), key) ==
            if key == "obj" && Find(fields, "obj").Some? && Find(fields, "obj").value.Obj?
            then Some(Obj(NewObj(Find(fields, "obj").value.fields))) else Find(fields, key)
    ensures Keys(NamedObj(fields)) == Keys(fields)
  {
    hide NewObj;
    var obj := Find(fields, "obj");
    if obj.Some? && obj.value.Obj? {
      var named := Obj(NewObj(obj.value.fields));
      FindStored(fields, "obj", named, key);
      StoreKeys(fields, "obj", named);
      KeyThere(fields, "obj");
    }
  }

  /** What all passes of a component leave under a key. */
  lemma ComponentUnder(m: IdMap, fields: seq<Field>, key: string)
    requires Rewrite(m, Obj(fields)).Obj?
    ensures NewComponent(m, Obj(fields)).Obj?
    ensures var r, now := Rewrite(m, Obj(fields)).fields, NewComponent(m, Obj(fields)).fields;
            && Keys(now) == Keys(r)
            && Find(now, key) ==
               if Find(r, key).None? then None
               else if key == "downstream" || key == "upstream" then Some(Apply(m, Refs, Find(r, key).value))
               else if key == "parent_id" then Some(MapRef(m, Find(r, key).value))
               else if key == "obj" && Find(r, key).value.Obj? then Some(Obj(NewObj(Find(r, key).value.fields)))
               else Find(r, key)
  {
    hide Rewrite, At, NamedObj, NewObj, Find, MapRef;
    var r := Rewrite(m, Obj(fields)).fields;
    var named := NamedObj(r);
    var down := At(m, Refs, named, "downstream");
    var up := At(m, Refs, down, "upstream");
    NamedUnder(r, key);
    PassUnder(m, Refs, named, "downstream", key);
    PassUnder(m, Refs, down, "upstream", key);
    PassUnder(m, Id, up, "parent_id", key);
  }

  lemma ComponentIsImage(m: IdMap, ids: seq<string>, c: Json)
    requires MapsIds(m, ids)
    ensures ComponentImage(ids, c, NewComponent(m, c))
  {
    RewriteIsImage(m, ids, c);
    if c.Obj? {
      var fields := c.fields;
      RewrittenUnder(m, ids, fields, "obj");
      ComponentUnder(m, fields, "obj");
      var now := NewComponent(m, c).fields;
      hide NewComponent, MapsIds, Find, TreeImage, RecordImage, RefsImage, RefImage, NewObj, Apply, MapRef;
      RecordUnder(m, ids, fields, now);
      LinksUnder(m, ids, fields, now, "downstream");
      LinksUnder(m, ids, fields, now, "upstream");
      ParentUnder(m, ids, fields, now);
      forall key | key !in {"obj", "downstream", "upstream", "parent_id"}
        ensures TreeUnder(ids, fields, now, key)
      {
        RewrittenUnder(m, ids, fields, key);
        ComponentUnder(m, fields, key);
      }
    }
  }

  lemma RecordUnder(m: IdMap, ids: seq<string>, fields: seq<Field>, now: seq<Field>)
    requires MapsIds(m, ids) && NewComponent(m, Obj(fields)) == Obj(now)
    ensures Under(fields, now, "obj", (x, y) => RecordImage(ids, x, y))
  {
    hide NewComponent, MapsIds, Find, TreeImage, NewObj, Rewrite, Apply, MapRef;
    RewrittenUnder(m, ids, fields, "obj");
    ComponentUnder(m, fields, "obj");
    var obj := Find(fields, "obj");
    if obj.Some? {
      RewriteKeepsKind(m, obj.value);
      if obj.value.Obj? {
        RecordIsImage(m, ids, obj.value.fields);
        hide RecordImage;
        assert obj.value == Obj(obj.value.fields);
      }
    }
  }

  lemma LinksUnder(m: IdMap, ids: seq<string>, fields: seq<Field>, now: seq<Field>, key: string)
    requires MapsIds(m, ids) && NewComponent(m, Obj(fields)) == Obj(now) && (key == "downstream" || key == "upstream")
    ensures Under(fields, now, key, (x, y) => RefsImage(ids, x, y))
  {
    hide NewComponent, MapsIds, Find, TreeImage, RefsImage, Rewrite, Apply;
    RewrittenUnder(m, ids, fields, key);
    ComponentUnder(m, fields, key);
    if Find(fields, key).Some? {
      RefsAreImages(m, ids, Find(fields, key).value);
    }
  }

  lemma ParentUnder(m: IdMap, ids: seq<string>, fields: seq<Field>, now: seq<Field>)
    requires MapsIds(m, ids) && NewComponent(m, Obj(fields)) == Obj(now)
    ensures Under(fields, now, "parent_id", (x, y) => RefImage(ids, x, y))
  {
    hide NewComponent, MapsIds, Find, TreeImage, RefImage, Rewrite, MapRef;
    RewrittenUnder(m, ids, fields, "parent_id");
    ComponentUnder(m, fields, "parent_id");
    if Find(fields, "parent_id").Some? {
      RefIsImage(m, ids, Find(fields, "parent_id").value);
    }
  }
}
