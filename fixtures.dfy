/**
 * The test fixtures of the component tests: the Parent component, whose
 * `_render` builds a Blank component inside its content frame, and the steps
 * of test_exists and test_is_rendered replayed on it.
 */
module Fixtures {
  import opened Widgets
  import opened Components

  /** A base component made inside container and rendered at once, as the
      fixture's Blank component is (its `_render` does nothing and it has no
      update interval). Every older widget keeps its parent and its liveness. */
  method NewRenderedComponent(tk: Toolkit, container: Wid) returns (c: Component)
    requires tk.Valid() && container in tk.tree.live
    modifies tk
    ensures fresh(c) && c.Valid() && c.tk == tk && c.container == container
    ensures c.Exists() && c.IsRendered() && c.children == map[]
    ensures c.outer == old(tk.tree.next) < tk.tree.next
    ensures forall v :: v < old(tk.tree.next) ==> (v in tk.tree.live <==> v in old(tk.tree.live))
    ensures forall v :: v in old(tk.tree.parent) ==> v in tk.tree.parent && tk.tree.parent[v] == old(tk.tree.parent)[v]
  {
    ghost var t0 := tk.tree;
    c := new Component(tk, container, false, None, map[]);
    ghost var t1 := tk.tree;
    var ok := c.Mount();
    forall v | v in t0.live
      ensures v in tk.tree.live
    {
      if Descends(t1.parent, v, c.outer) {
        DescendsOlder(t1.parent, v, c.outer);
      }
    }
  }

  /** The fixture Parent's `_render` on its rendered content frame: a None
      placeholder under "blank", then a Blank component built and rendered
      inside the content frame and registered as "blank". Every older widget
      keeps its parent and its liveness. */
  method BuildBlank(parent: Component) returns (blank: Component)
    requires parent.Valid() && parent.IsRendered()
    modifies parent`children, parent.tk
    ensures parent.Valid() && parent.IsRendered()
    ensures fresh(blank) && blank.Valid() && blank.tk == parent.tk
    ensures blank.Exists() && blank.IsRendered()
    ensures parent.children == old(parent.children)["blank" := Nested(blank)]
    ensures Descends(parent.tk.tree.parent, blank.outer, parent.outer)
    ensures forall v :: v < old(parent.tk.tree.next) ==> (v in parent.tk.tree.live <==> v in old(parent.tk.tree.live))
    ensures forall v :: v in old(parent.tk.tree.parent) ==>
      v in parent.tk.tree.parent && parent.tk.tree.parent[v] == old(parent.tk.tree.parent)[v]
  {
    parent.children := parent.children["blank" := Placeholder];
    blank := NewRenderedComponent(parent.tk, parent.frame.value);
    parent.children := parent.children["blank" := Nested(blank)];
  }

  /** `render` on the fixture's Parent component, whose `_render` registers a
      None placeholder as "blank", builds a Blank component inside the content
      frame, registers it as "blank" and renders it. Fails with TclError when
      the outer frame is gone. Of the widgets that existed before, exactly those
      strictly inside the outer frame stop being live. */
  method RenderFixtureParent(parent: Component) returns (r: Result<Wid>)
    requires parent.Valid()
    modifies parent`frame, parent`children, parent`scheduled, parent.tk
    ensures parent.Valid()
    ensures r.Success? <==> old(parent.Exists())
    ensures r.Failure? ==>
      && r.fault == TclError && parent.tk.tree == old(parent.tk.tree)
      && parent.frame == old(parent.frame) && parent.children == old(parent.children)
      && parent.scheduled == old(parent.scheduled)
    ensures r.Success? ==>
      && r.value == parent.outer && parent.Exists() && parent.IsRendered()
      && parent.scheduled == old(parent.scheduled) + (if Polls(parent.updateInterval) then 1 else 0)
      && "blank" in parent.children && parent.children["blank"].Nested?
    ensures r.Success? ==>
      var blank := parent.children["blank"].component;
      && fresh(blank) && blank.Valid() && blank.tk == parent.tk && blank.Exists() && blank.IsRendered()
      && parent.children == old(parent.children)["blank" := Nested(blank)]
      && Descends(parent.tk.tree.parent, blank.outer, parent.outer)
    ensures r.Success? ==> forall v :: v < old(parent.tk.tree.next) ==>
      (v in parent.tk.tree.live <==> v in old(parent.tk.tree.live) && !Descends(old(parent.tk.tree.parent), v, parent.outer))
    ensures forall v :: v in old(parent.tk.tree.parent) ==>
      v in parent.tk.tree.parent && parent.tk.tree.parent[v] == old(parent.tk.tree.parent)[v]
  {
    var ok := parent.Mount();
    if !ok {
      return Failure(TclError);
    }
    var blank := BuildBlank(parent);
    parent.ScheduleTick();
    return Success(parent.outer);
  }

  /** A re-render of the fixture's Parent leaves a component built inside its
      previous content (stale) neither existing nor rendered, while the parent
      and the newly built Blank exist and are rendered. */
  method ReRenderOrphans(parent: Component, stale: Component) returns (r: Result<Wid>)
    requires parent.Valid() && stale.Valid() && parent.tk == stale.tk && parent != stale
    requires Descends(parent.tk.tree.parent, stale.outer, parent.outer)
    modifies parent`frame, parent`children, parent`scheduled, parent.tk
    ensures r.Success? <==> old(parent.Exists())
    ensures r.Success? ==>
      && r.value == parent.outer && parent.Exists() && parent.IsRendered()
      && "blank" in parent.children && parent.children["blank"].Nested?
      && parent.children["blank"].component != stale
      && parent.children["blank"].component.Exists() && parent.children["blank"].component.IsRendered()
    ensures !stale.Exists() && !stale.IsRendered()
  {
    ghost var t0 := parent.tk.tree;
    if stale.frame.Some? {
      DescendsThrough(t0.parent, stale.frame.value, stale.outer, parent.outer);
    }
    if !parent.Exists() {
      DeadInsideDead(t0, stale.outer, parent.outer);
      if stale.frame.Some? {
        DeadInsideDead(t0, stale.frame.value, parent.outer);
      }
    }
    r := RenderFixtureParent(parent);
  }

  /** The fixture's Parent, constructed in the root window and rendered once:
      it holds its Blank child under "blank"; both exist and are rendered. */
  method RenderParentWithChild() returns (parent: Component, child: Component)
    ensures fresh(parent) && fresh(parent.tk)
    ensures parent.Valid() && child.Valid() && parent.tk == child.tk && parent != child
    ensures Descends(parent.tk.tree.parent, child.outer, parent.outer)
    ensures parent.Exists() && parent.IsRendered() && child.Exists() && child.IsRendered()
    ensures parent.children == map["blank" := Nested(child)]
  {
    var tk := new Toolkit();
    parent := new Component(tk, 0, false, None, map[]);
    var r := RenderFixtureParent(parent);
    child := parent.children["blank"].component;
  }

  /** The steps of test_exists and test_is_rendered, on the fixture's Parent:
      after the parent's second render the child from the first render neither
      exists nor is rendered, while the parent exists, is rendered and holds a
      new, rendered child. */
  method StaleChildScenario() returns (parent: Component, child: Component)
    ensures parent.Exists() && parent.IsRendered()
    ensures !child.Exists() && !child.IsRendered()
    ensures "blank" in parent.children && parent.children["blank"].Nested?
    ensures parent.children["blank"].component != child && parent.children["blank"].component.IsRendered()
  {
    parent, child := RenderParentWithChild();
    var r := ReRenderOrphans(parent, child);
  }
}
