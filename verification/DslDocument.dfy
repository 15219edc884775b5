/** What a migrated document is, and which documents are not migrated. */
module DslDocument {
  import opened Text
  import opened Json
  import opened DslMigration
  import opened DslIdempotence
  import opened DslIsomorphism
  import opened DslTexts
  import opened DslMeaning
  import opened DslDrawing

  /** The path's entries are mapped without being rewritten. */
  ghost predicate PathMapped(ids: seq<string>, v: Json, w: Json) {
    match v
    case Arr(items) =>
      w.Arr? && |w.items| == |items| && forall i :: 0 <= i < |items| ==> IdImage(ids, items[i], w.items[i])
    case _ => w == v
  }

  /** Under every new id there is the image of the last component that gets it, and
      under no other id is there anything. */
  ghost predicate ComponentsImage(components: seq<Field>, now: seq<Field>) {
    && (forall i, j :: 0 <= i < j < |now| ==> now[i].key != now[j].key)
    && (forall id :: id in Keys(now) <==> exists i :: 0 <= i < |components| && NewId(components[i].key) == id)
    && forall i :: 0 <= i < |components| && IsLast(components, |components|, i) ==>
         && Find(now, NewId(components[i].key)).Some?
         && ComponentImage(Keys(components), components[i].value, Find(now, NewId(components[i].key)).value)
  }

  /** None of the first `n` components behind `i` gets the same new id. */
  ghost predicate IsLast(components: seq<Field>, n: nat, i: nat)
    requires i < |components| && n <= |components|
  {
    forall j :: i < j < n ==> NewId(components[j].key) != NewId(components[i].key)
  }

  lemma {:induction false} LastIsStored(components: seq<Field>, n: nat, i: nat)
    requires i < n <= |components| && IsLast(components, n, i)
    ensures Find(NewComponents(IdMapOf(components), components, n), NewId(components[i].key))
         == Some(NewComponent(IdMapOf(components), components[i].value))
  {
    hide NewId, NewComponent, IdMapOf, Store, Find;
    var m := IdMapOf(components);
    MappedKey(components, n - 1);
    var before := NewComponents(m, components, n - 1);
    FindStored(before, NewId(components[n - 1].key), NewComponent(m, components[n - 1].value),
               NewId(components[i].key));
    if i < n - 1 {
      LastIsStored(components, n - 1, i);
    }
  }

  lemma {:induction false} NewAreDistinct(components: seq<Field>, n: nat)
    requires n <= |components|
    ensures Distinct(NewComponents(IdMapOf(components), components, n))
  {
    hide NewId, NewComponent, IdMapOf, Store, Distinct;
    if n > 0 {
      NewAreDistinct(components, n - 1);
      StoreDistinct(NewComponents(IdMapOf(components), components, n - 1),
                    MapId(IdMapOf(components), components[n - 1].key),
                    NewComponent(IdMapOf(components), components[n - 1].value));
    } else {
      NothingDistinct();
    }
  }

  lemma NothingDistinct()
    ensures Distinct([])
  {
  }

  lemma ComponentsAreImages(components: seq<Field>)
    ensures ComponentsImage(components, NewComponents(IdMapOf(components), components, |components|))
  {
    hide NewId, NewComponent, IdMapOf, NewComponents, ComponentImage, MapsIds, Find, Keys;
    var now := NewComponents(IdMapOf(components), components, |components|);
    NewAreDistinct(components, |components|);
    MapOfComponents(components);
    forall id ensures id in Keys(now) <==> exists i :: 0 <= i < |components| && NewId(components[i].key) == id {
      NewKeys(components, |components|, id);
    }
    forall i | 0 <= i < |components| && IsLast(components, |components|, i)
      ensures Find(now, NewId(components[i].key)).Some?
      ensures ComponentImage(Keys(components), components[i].value, Find(now, NewId(components[i].key)).value)
    {
      LastIsStored(components, |components|, i);
      ComponentIsImage(IdMapOf(components), Keys(components), components[i].value);
    }
  }

  /** The migrated document keeps its keys.  Components, path and drawing are mapped, the
      three free texts are replaced by their images, and all else stays. */
  ghost predicate DocumentImage(fields: seq<Field>, components: seq<Field>, now: seq<Field>, order: seq<string>) {
    var ids := Keys(components);
    && Keys(now) == Keys(fields)
    && (Find(now, "components").Some? && Find(now, "components").value.Obj?)
    && ComponentsImage(components, Find(now, "components").value.fields)
    && Under(fields, now, "path", (x, y) => PathMapped(ids, x, y))
    && Under(fields, now, "graph", (x, y) => GraphIsDrawn(ids, order, x, y))
    && TreeUnder(ids, fields, now, "history")
    && TreeUnder(ids, fields, now, "messages")
    && TreeUnder(ids, fields, now, "reference")
    && forall key :: key !in {"components", "path", "graph", "history", "messages", "reference"} ==>
         Find(now, key) == Find(fields, key)
  }

  /** What the last passes leave under a key. */
  lemma TextsUnder(m: IdMap, fields: seq<Field>, key: string)
    ensures Keys(WithTexts(m, fields)) == Keys(fields)
    ensures Find(WithTexts(m, fields), key) ==
            if key in {"history", "messages", "reference"} && Find(fields, key).Some?
            then Some(Rewrite(m, Find(fields, key).value)) else Find(fields, key)
  {
    hide At, Find;
    var one := At(m, Whole, fields, "history");
    var two := At(m, Whole, one, "messages");
    PassUnder(m, Whole, fields, "history", key);
    PassUnder(m, Whole, one, "messages", key);
    PassUnder(m, Whole, two, "reference", key);
  }

  lemma GraphUnder(m: IdMap, order: seq<string>, fields: seq<Field>, key: string)
    ensures Keys(GraphAt(m, order, fields)) == Keys(fields)
    ensures Find(GraphAt(m, order, fields), key) ==
            if key == "graph" && Find(fields, key).Some? && Find(fields, key).value.Obj?
            then Some(Obj(EdgesAt(m, order, NodesAt(m, Find(fields, key).value.fields)))) else Find(fields, key)
  {
    hide NodesAt, EdgesAt;
    var graph := Find(fields, "graph");
    if graph.Some? && graph.value.Obj? {
      var drawn := Obj(EdgesAt(m, order, NodesAt(m, graph.value.fields)));
      FindStored(fields, "graph", drawn, key);
      StoreKeys(fields, "graph", drawn);
      KeyThere(fields, "graph");
    }
  }

  lemma ComponentsUnder(fields: seq<Field>, components: seq<Field>, key: string)
    requires Find(fields, "components").Some?
    ensures var m, now := IdMapOf(components), WithComponents(fields, components);
            && Keys(now) == Keys(fields)
            && Find(now, key) ==
               if key == "components" then Some(Obj(NewComponents(m, components, |components|)))
               else if key == "path" && Find(fields, key).Some? then Some(Apply(m, Refs, Find(fields, key).value))
               else Find(fields, key)
  {
    hide NewComponents, Apply, IdMapOf, At, Find;
    var m := IdMapOf(components);
    var value := Obj(NewComponents(m, components, |components|));
    var stored := Store(fields, "components", value);
    StoreKeys(fields, "components", value);
    KeyThere(fields, "components");
    FindStored(fields, "components", value, key);
    FindStored(fields, "components", value, "path");
    PassUnder(m, Refs, stored, "path", key);
  }

  /** What the whole migration leaves under a key. */
  lemma NewUnder(fields: seq<Field>, components: seq<Field>, key: string)
    requires Find(fields, "components").Some?
    ensures var m, order := IdMapOf(components), LongestFirst(Keys(components));
            var now := NewFields(fields, components);
            && Keys(now) == Keys(fields)
            && Find(now, key) ==
               if key == "components" then Some(Obj(NewComponents(m, components, |components|)))
               else if Find(fields, key).None? then None
               else if key == "path" then Some(Apply(m, Refs, Find(fields, key).value))
               else if key == "graph" && Find(fields, key).value.Obj?
               then Some(Obj(EdgesAt(m, order, NodesAt(m, Find(fields, key).value.fields))))
               else if key in {"history", "messages", "reference"} then Some(Rewrite(m, Find(fields, key).value))
               else Find(fields, key)
  {
    hide NewComponents, Apply, IdMapOf, WithComponents, WithTexts, GraphAt, Find, Rewrite;
    hide NodesAt, EdgesAt, LongestFirst;
    var m, order := IdMapOf(components), LongestFirst(Keys(components));
    var one := WithComponents(fields, components);
    var two := GraphAt(m, order, one);
    ComponentsUnder(fields, components, key);
    GraphUnder(m, order, one, key);
    TextsUnder(m, two, key);
  }

  lemma PathIsMapped(m: IdMap, ids: seq<string>, v: Json)
    requires MapsIds(m, ids)
    ensures PathMapped(ids, v, Apply(m, Refs, v))
  {
    hide IdImage, MapRef, MapsIds;
    if v.Arr? {
      forall i | 0 <= i < |v.items| ensures IdImage(ids, v.items[i], MapRef(m, v.items[i])) {
        IdIsImage(m, ids, v.items[i]);
      }
    }
  }

  lemma PathUnder(fields: seq<Field>, components: seq<Field>)
    requires Find(fields, "components").Some?
    ensures Under(fields, NewFields(fields, components), "path", (x, y) => PathMapped(Keys(components), x, y))
  {
    hide Find, NewFields, Apply, PathMapped, IdMapOf, MapsIds, Keys;
    NewUnder(fields, components, "path");
    MapOfComponents(components);
    if Find(fields, "path").Some? {
      PathIsMapped(IdMapOf(components), Keys(components), Find(fields, "path").value);
    }
  }

  lemma OrderedAreIds(ids: seq<string>, order: seq<string>)
    requires LongestInOrder(ids, order)
    ensures forall k :: 0 <= k < |order| ==> order[k] in ids
  {
    hide OfLength, Descending;
    forall k | 0 <= k < |order| ensures order[k] in ids {
      assert order[k] in multiset(order);
    }
  }

  lemma DrawingUnder(fields: seq<Field>, components: seq<Field>)
    requires Find(fields, "components").Some?
    ensures Under(fields, NewFields(fields, components), "graph",
                  (x, y) => GraphIsDrawn(Keys(components), LongestFirst(Keys(components)), x, y))
  {
    var ids := Keys(components);
    hide Find, NewFields, IdMapOf, MapsIds, Keys, NodesAt, EdgesAt, LongestFirst, OfLength, Descending;
    NewUnder(fields, components, "graph");
    MapOfComponents(components);
    LongestFirstOrders(ids);
    var order := LongestFirst(ids);
    OrderedAreIds(ids, order);
    hide LongestInOrder;
    var graph := Find(fields, "graph");
    if graph.Some? && graph.value.Obj? {
      GraphIsImage(IdMapOf(components), ids, order, graph.value.fields);
      assert graph.value == Obj(graph.value.fields);
    }
    hide GraphIsDrawn;
  }

  lemma TextUnder(fields: seq<Field>, components: seq<Field>, key: string)
    requires Find(fields, "components").Some? && key in {"history", "messages", "reference"}
    ensures TreeUnder(Keys(components), fields, NewFields(fields, components), key)
  {
    hide Find, NewFields, IdMapOf, MapsIds, Keys, TreeImage, Rewrite;
    NewUnder(fields, components, key);
    MapOfComponents(components);
    if Find(fields, key).Some? {
      RewriteIsImage(IdMapOf(components), Keys(components), Find(fields, key).value);
    }
  }

  /** A value that Python cannot look up in a dictionary. */
  predicate Unhashed(v: Json) {
    v.Arr? || v.Obj?
  }

  ghost predicate ListHasUnhashed(fields: seq<Field>, key: string) {
    match Find(fields, key)
    case Some(Arr(items)) => exists i :: 0 <= i < |items| && Unhashed(items[i])
    case _ => false
  }

  /** The name of an operator or an entry of a list of links cannot be looked up. */
  ghost predicate Unreadable(component: Json) {
    && component.Obj?
    && (|| ListHasUnhashed(component.fields, "downstream") || ListHasUnhashed(component.fields, "upstream")
        || match Find(component.fields, "obj")
           case Some(Obj(obj)) =>
             Find(obj, "component_name").Some? && Unhashed(Find(obj, "component_name").value)
           case _ => false)
  }

  /** Every document: without a dictionary of components it stays as it is; it fails if
      and only if a name, a link or an entry of the path cannot be looked up; and
      otherwise it is replaced by its image, edge ids with the longest ids first. */
  lemma MigrationMeans(dsl: Json)
    ensures (dsl.Obj? && Find(dsl.fields, "components").Some? && Find(dsl.fields, "components").value.Obj?) ==>
              var components := Find(dsl.fields, "components").value.fields;
              && (Migrate(dsl).Err? <==>
                    || ListHasUnhashed(dsl.fields, "path")
                    || exists i :: 0 <= i < |components| && Unreadable(components[i].value))
              && (Migrate(dsl).Ok? ==>
                    && Migrate(dsl).value.Obj?
                    && exists order :: LongestInOrder(Keys(components), order)
                                       && DocumentImage(dsl.fields, components, Migrate(dsl).value.fields, order))
    ensures !(dsl.Obj? && Find(dsl.fields, "components").Some? && Find(dsl.fields, "components").value.Obj?) ==>
              Migrate(dsl) == Ok(dsl)
  {
    if dsl.Obj? && Find(dsl.fields, "components").Some? && Find(dsl.fields, "components").value.Obj? {
      var components := Find(dsl.fields, "components").value.fields;
      FailsWhere(dsl.fields, components);
      hide Unreadable, ListHasUnhashed, HashableAll, NewFields, LongestFirst, DocumentImage, LongestInOrder;
      LongestFirstOrders(Keys(components));
      FieldsAreImage(dsl.fields, components);
    }
  }

  lemma FailsWhere(fields: seq<Field>, components: seq<Field>)
    ensures HashableAll(fields, components) <==>
            !ListHasUnhashed(fields, "path") && forall i :: 0 <= i < |components| ==> !Unreadable(components[i].value)
  {
    ListFails(fields, "path");
    forall i | 0 <= i < |components|
      ensures HashableComponent(components[i].value) <==> !Unreadable(components[i].value)
    {
      if components[i].value.Obj? {
        ListFails(components[i].value.fields, "downstream");
        ListFails(components[i].value.fields, "upstream");
        hide HashableRefs, ListHasUnhashed;
      }
    }
    hide HashableRefs, ListHasUnhashed, HashableComponent, Unreadable;
  }

  lemma ListFails(fields: seq<Field>, key: string)
    ensures HashableRefs(fields, key) <==> !ListHasUnhashed(fields, key)
  {
    hide Find;
  }

  lemma FieldsAreImage(fields: seq<Field>, components: seq<Field>)
    requires Find(fields, "components") == Some(Obj(components))
    ensures DocumentImage(fields, components, NewFields(fields, components), LongestFirst(Keys(components)))
  {
    hide Find, NewFields, LongestFirst, ComponentsImage, PathMapped, GraphIsDrawn, TreeUnder, Under;
    hide NewComponents, IdMapOf;
    NewUnder(fields, components, "components");
    ComponentsAreImages(components);
    PathUnder(fields, components);
    DrawingUnder(fields, components);
    TextUnder(fields, components, "history");
    TextUnder(fields, components, "messages");
    TextUnder(fields, components, "reference");
    forall key | key !in {"components", "path", "graph", "history", "messages", "reference"}
      ensures Find(NewFields(fields, components), key) == Find(fields, key)
    {
      NewUnder(fields, components, key);
    }
  }
}
