/** The component graph a canvas runs, and what each component may schedule. */
module CanvasGraph {
  import opened Text

  datatype Id = Id(name: string)

  datatype Kind =
    | Begin | UserFillUp | Message | Categorize | Switch
    | Iteration | IterationItem | Loop | LoopItem | ExitLoop
    | Plain

  /** What to do when a component fails: jump, or answer with a default. */
  datatype Handler = Handler(goto: seq<Id>, hasDefault: bool)

  /** `refs` are the components its inputs refer to (empty for a global), and
      `targets` the components a categorize or switch can choose. */
  datatype Component = Component(
    kind: Kind,
    downstream: seq<Id>,
    targets: seq<Id>,
    parent: Option<Id>,
    refs: seq<Id>,
    handler: Option<Handler>)

  /** `order` lists the components in the order of the stored graph. */
  datatype Graph = Graph(components: map<Id, Component>, order: seq<Id>)

  const BEGIN := Id("begin")

  predicate IsGroup(k: Kind) {
    k.Iteration? || k.Loop?
  }

  predicate IsItem(k: Kind) {
    k.IterationItem? || k.LoopItem?
  }

  predicate IsChoice(k: Kind) {
    k.Categorize? || k.Switch?
  }

  /** The test on an id that tells a resumed run from a new one. */
  predicate NamesFillUp(id: Id) {
    Occurs("userfillup", Lower(AsciiLower, id.name))
  }

  predicate StartsGroup(g: Graph, group: Id, id: Id) {
    && id in g.components && group in g.components
    && g.components[id].kind == (if g.components[group].kind.Loop? then LoopItem else IterationItem)
    && g.components[id].parent == Some(group)
  }

  function StartAmong(g: Graph, group: Id, ids: seq<Id>): (r: Option<Id>)
    ensures r.Some? ==> r.value in ids && StartsGroup(g, group, r.value)
  {
    if ids == [] then None
    else if StartsGroup(g, group, ids[0]) then Some(ids[0])
    else StartAmong(g, group, ids[1..])
  }

  /** `get_start`: the first item component of a group. */
  function Start(g: Graph, group: Id): Option<Id> {
    StartAmong(g, group, g.order)
  }

  predicate Known(g: Graph, ids: seq<Id>) {
    forall k :: 0 <= k < |ids| ==> ids[k] in g.components
  }

  predicate ProperComponent(g: Graph, id: Id)
    requires id in g.components
  {
    var c := g.components[id];
    && Known(g, c.downstream) && Known(g, c.targets)
    && (c.handler.Some? ==> Known(g, c.handler.value.goto))
    && (IsGroup(c.kind) ==> Start(g, id).Some?)
    && (IsItem(c.kind) || c.kind.ExitLoop? ==> c.parent.Some?)
    && (c.parent.Some? ==> c.parent.value in g.components && IsGroup(g.components[c.parent.value].kind))
  }

  /** The graphs the loop can run without tripping over a missing component. */
  ghost predicate Proper(g: Graph) {
    && (forall id :: id in g.order <==> id in g.components)
    && BEGIN in g.components && g.components[BEGIN].kind.Begin?
    && (forall id {:trigger ProperComponent(g, id)} :: id in g.components ==> ProperComponent(g, id))
  }

  /** The legal successors of a component: downstream, chosen target, the start of
      a group, the parent's downstream or start, or the jump of its handler. */
  predicate Successor(g: Graph, from: Id, to: Id) {
    && from in g.components
    && var c := g.components[from];
       || to in c.downstream
       || (IsChoice(c.kind) && to in c.targets)
       || (IsGroup(c.kind) && Start(g, from) == Some(to))
       || ((IsItem(c.kind) || c.kind.ExitLoop?) && c.parent.Some? && c.parent.value in g.components
           && to in g.components[c.parent.value].downstream)
       || (c.downstream == [] && c.parent.Some? && Start(g, c.parent.value) == Some(to))
       || (c.handler.Some? && to in c.handler.value.goto)
  }

  lemma SuccessorKnown(g: Graph, from: Id, to: Id)
    requires Proper(g) && Successor(g, from, to)
    ensures to in g.components
  {
    assert ProperComponent(g, from);
    if g.components[from].parent.Some? {
      assert ProperComponent(g, g.components[from].parent.value);
    }
  }
}
