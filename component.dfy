/**
 * The Component lifecycle engine: a persistent outer frame inside a container,
 * a content frame recreated on every render, a map of style groups, a map of
 * registered children, and a polling tick driven by the host's timer.
 */
module Components {
  import opened Widgets

  datatype Option<T> = None | Some(value: T)

  /** The exceptions the modelled code can raise. */
  datatype Fault =
    | KeyError        // a missing dictionary key
    | AttributeError  // a method called on None
    | TclError        // the toolkit refused an operation on a destroyed widget
    | NotImplemented  // the base class's `_render` hook

  datatype Outcome = Done | Raised(fault: Fault)

  datatype Result<T> = Success(value: T) | Failure(fault: Fault)

  /** What `children` may hold: the None placeholder, a raw widget or a nested component. */
  datatype Child = Placeholder | Widget(id: Wid) | Nested(component: Component)

  /** `dict.get(key, 0)` on a style group. */
  function OptionOr0(opts: Options, key: string): (v: int)
    ensures key in opts ==> v == opts[key]
    ensures key !in opts ==> v == 0
  {
    if key in opts then opts[key] else 0
  }

  /** `styles.get(key, {})` on the caller's style overrides. */
  function GroupOrEmpty(overrides: map<string, Options>, key: string): (g: Options)
    ensures key in overrides ==> g == overrides[key]
    ensures key !in overrides ==> g == map[]
  {
    if key in overrides then overrides[key] else map[]
  }

  /** A constructor's `self.styles[key] = styles.get(key, {})`, once per key in order. */
  function AddGroups(styles: map<string, Options>, overrides: map<string, Options>, keys: seq<string>)
    : (r: map<string, Options>)
    ensures forall k :: k in r <==> k in styles || k in keys
    ensures forall k :: k in keys ==> r[k] == GroupOrEmpty(overrides, k)
    ensures forall k :: k in styles && k !in keys ==> r[k] == styles[k]
  {
    if keys == [] then styles
    else
      var last := keys[|keys| - 1];
      AddGroups(styles, overrides, keys[..|keys| - 1])[last := GroupOrEmpty(overrides, last)]
  }

  /** The styles `Component.__init__` sets up: only the "frame" group. */
  function InitialStyles(overrides: map<string, Options>): (s: map<string, Options>)
    ensures s.Keys == {"frame"}
    ensures s["frame"] == GroupOrEmpty(overrides, "frame")
  {
    map["frame" := GroupOrEmpty(overrides, "frame")]
  }

  /** Python truthiness of `update_interval`: None and 0 switch polling off. */
  predicate Polls(interval: Option<int>)
  {
    interval.Some? && interval.value != 0
  }

  /** A frame's usable interior length: its resolved length less the padding
      (padKey) and the border width on both sides, absent options counting 0. */
  function Clearance(size: int, frameStyle: Options, padKey: string): (c: int)
    ensures c + 2 * OptionOr0(frameStyle, padKey) + 2 * OptionOr0(frameStyle, "borderwidth") == size
  {
    var buffer := (2 * OptionOr0(frameStyle, padKey)) + (2 * OptionOr0(frameStyle, "borderwidth"));
    size - buffer
  }

  class Component {
    const tk: Toolkit
    const container: Wid
    const outer: Wid                   // persists for the component's lifetime
    const hasDataSource: bool          // `get_data` is not None
    const updateInterval: Option<int>  // milliseconds
    var frame: Option<Wid>             // the content frame, recreated by every render
    var styles: map<string, Options>
    var children: map<string, Child>
    var scheduled: nat                 // `after` registrations made for `_update_loop`

    ghost predicate Valid()
      reads this, tk
    {
      && tk.Valid()
      && outer in tk.tree.parent && tk.tree.parent[outer] == container
      && (frame.Some? ==> frame.value in tk.tree.parent && tk.tree.parent[frame.value] == outer)
      && "frame" in styles
    }

    constructor (tk: Toolkit, container: Wid, hasDataSource: bool, updateInterval: Option<int>,
                 overrides: map<string, Options>)
      requires tk.Valid() && container in tk.tree.live
      modifies tk
      ensures Valid() && this.tk == tk && this.container == container
      ensures this.hasDataSource == hasDataSource && this.updateInterval == updateInterval
      ensures outer == old(tk.tree.next) && tk.tree == Create(old(tk.tree), container, map[])
      ensures frame == None && children == map[] && scheduled == 0
      ensures styles == InitialStyles(overrides)
    {
      this.tk := tk;
      this.container := container;
      var w := tk.NewWidget(container, map[]);
      outer := w;
      frame := None;
      styles := InitialStyles(overrides);
      children := map[];
      this.updateInterval := updateInterval;
      this.hasDataSource := hasDataSource;
      scheduled := 0;
    }

    /** `exists`: the outer frame has not been destroyed. Destroying the
        container ends the component too. */
    predicate Exists()
      reads this, tk
      ensures Valid() && container !in tk.tree.live ==> !Exists()
    {
      outer in tk.tree.live
    }

    /** `is_rendered`: a content frame was made and is still live. */
    predicate IsRendered()
      reads this, tk
    {
      frame.Some? && frame.value in tk.tree.live
    }

    /** A rendered component exists: its live content frame sits in the outer frame. */
    lemma RenderedExists()
      requires Valid() && IsRendered()
      ensures Exists()
    {
      var f := frame.value;
      assert tk.tree.parent[f] == outer;
    }

    /** `height_clearance`, given the content frame's resolved height. */
    function HeightClearance(frameHeight: int): (r: Option<int>)
      reads this, tk
      requires "frame" in styles
      ensures r.None? <==> !IsRendered()
      ensures r.Some? ==>
        r.value + 2 * OptionOr0(styles["frame"], "pady") + 2 * OptionOr0(styles["frame"], "borderwidth")
        == frameHeight
    {
      if !IsRendered() then None else Some(Clearance(frameHeight, styles["frame"], "pady"))
    }

    /** `width_clearance`, given the content frame's resolved width. */
    function WidthClearance(frameWidth: int): (r: Option<int>)
      reads this, tk
      requires "frame" in styles
      ensures r.None? <==> !IsRendered()
      ensures r.Some? ==>
        r.value + 2 * OptionOr0(styles["frame"], "padx") + 2 * OptionOr0(styles["frame"], "borderwidth")
        == frameWidth
    {
      if !IsRendered() then None else Some(Clearance(frameWidth, styles["frame"], "padx"))
    }

    /** The default `_refresh_frame`: a fresh content frame inside the outer frame,
        styled by the "frame" group. */
    method RefreshFrame()
      requires Valid() && Exists()
      modifies this`frame, tk
      ensures Valid()
      ensures frame == Some(old(tk.tree.next)) && tk.tree == Create(old(tk.tree), outer, styles["frame"])
    {
      var f := tk.NewWidget(outer, styles["frame"]);
      frame := Some(f);
    }

    /** The part of `render` before the `_render` hook: destroy every widget
        inside the outer frame, then `_refresh_frame`. False when the outer frame
        is already destroyed, as listing its children then fails. */
    method Mount() returns (ok: bool)
      requires Valid()
      modifies this`frame, tk
      ensures Valid()
      ensures ok == old(Exists())
      ensures !ok ==> tk.tree == old(tk.tree) && frame == old(frame)
      ensures ok ==> frame == Some(old(tk.tree.next))
      ensures ok ==> tk.tree == Create(DestroyChildren(old(tk.tree), outer), outer, styles["frame"])
    {
      if outer !in tk.tree.live {
        return false;
      }
      Teardown();
      RefreshFrame();
      ok := true;
    }

    /** `for child in self._outer_frame.winfo_children(): child.destroy()`. */
    method Teardown()
      requires Valid() && Exists()
      modifies tk
      ensures Valid() && Exists()
      ensures tk.tree == DestroyChildren(old(tk.tree), outer)
    {
      ghost var t0 := tk.tree;
      tk.DestroyEach(Kids(tk.tree, outer));
      TeardownIsDestroyChildren(t0, outer);
    }

    /** The tick registration at the end of `render` (and in `_update_loop`):
        one `after` call exactly when the interval is truthy. */
    method ScheduleTick()
      modifies this`scheduled
      ensures scheduled == old(scheduled) + (if Polls(updateInterval) then 1 else 0)
    {
      if Polls(updateInterval) {
        scheduled := scheduled + 1;
      }
    }

    /** `render` on the base class: the teardown and the fresh content frame
        happen, then the base `_render` hook raises, so no tick is scheduled. */
    method Render() returns (r: Result<Wid>)
      requires Valid()
      modifies this`frame, tk
      ensures Valid()
      ensures r == Failure(if old(Exists()) then NotImplemented else TclError)
      ensures !old(Exists()) ==> tk.tree == old(tk.tree) && frame == old(frame)
      ensures old(Exists()) ==> frame == Some(old(tk.tree.next))
      ensures old(Exists()) ==> tk.tree == Create(DestroyChildren(old(tk.tree), outer), outer, styles["frame"])
    {
      var ok := Mount();
      if !ok {
        return Failure(TclError);
      }
      return Failure(NotImplemented);
    }

    /** The start of `_update_loop`: `after_cancel` (given the callback rather
        than a timer id, it cancels nothing), the existence guard, and the
        rescheduling. Succeeds with whether the component still exists. */
    method TickPrologue() returns (r: Result<bool>)
      requires Valid()
      modifies this`scheduled
      ensures frame.None? ==> r == Failure(AttributeError) && scheduled == old(scheduled)
      ensures frame.Some? ==> r == Success(Exists())
      ensures frame.Some? && Exists() ==>
        scheduled == old(scheduled) + (if Polls(updateInterval) then 1 else 0)
      ensures frame.Some? && !Exists() ==> scheduled == old(scheduled)
    {
      if frame.None? {
        return Failure(AttributeError);
      }
      if outer !in tk.tree.live {
        return Success(false);
      }
      ScheduleTick();
      return Success(true);
    }

    /** `_update_loop` with the base hooks: `_update` does nothing, and a render
        (which raises on the base class) happens only if `_needs_render`, whose
        value at this tick is needsRender. */
    method UpdateLoop(needsRender: bool) returns (o: Outcome)
      requires Valid()
      modifies this`frame, this`scheduled, tk
      ensures Valid()
      ensures old(frame).None? ==> o == Raised(AttributeError) && scheduled == old(scheduled)
      ensures old(frame).Some? && !old(Exists()) ==> o == Done && scheduled == old(scheduled)
      ensures old(frame).Some? && old(Exists()) ==>
        scheduled == old(scheduled) + (if Polls(updateInterval) then 1 else 0)
      ensures old(frame).Some? && old(Exists()) && !needsRender ==> o == Done
      ensures !(old(frame).Some? && old(Exists()) && needsRender) ==>
        tk.tree == old(tk.tree) && frame == old(frame)
      ensures old(frame).Some? && old(Exists()) && needsRender ==>
        o == Raised(NotImplemented) && frame == Some(old(tk.tree.next))
        && tk.tree == Create(DestroyChildren(old(tk.tree), outer), outer, styles["frame"])
    {
      var alive := TickPrologue();
      if alive.Failure? {
        return Raised(alive.fault);
      }
      if !alive.value {
        return Done;
      }
      o := Done;
      if needsRender {
        var r := Render();
        o := Raised(r.fault);
      }
    }
  }
}
