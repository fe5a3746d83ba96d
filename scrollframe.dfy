/**
 * ScrollFrame's standalone logic: the mousewheel direction, the call a wheel
 * event makes, the orientation-dependent canvas size, `on_resize`, the style
 * groups its constructor adds, and the traversal in `_enable_mousewheel_scroll`.
 */
module Scrolling {
  import opened Widgets
  import opened Components

  function Abs(x: int): (r: nat)
    ensures r == x || r == -x
  {
    if x < 0 then -x else x
  }

  /** `__get_scroll_direction`: `int(-1 * (delta / abs(delta)))`. The quotient
      is exact, so the division below agrees with Python's true division. A zero
      delta divides by zero in Python, so it is excluded. */
  function ScrollDirection(delta: int): (r: int)
    requires delta != 0
    ensures r == 1 || r == -1
    ensures r * delta < 0
    ensures delta > 0 ==> r == -1
    ensures delta < 0 ==> r == 1
  {
    assert delta / Abs(delta) == (if delta > 0 then 1 else -1) by {
      if delta < 0 {
        assert delta == -1 * Abs(delta);
      }
    }
    -1 * (delta / Abs(delta))
  }

  datatype Axis = X | Y

  /** A call `canvas.xview_scroll(amount, what)` (X) or `yview_scroll` (Y). */
  datatype ViewScroll = ViewScroll(axis: Axis, amount: int, what: string)

  /** What the bound `<MouseWheel>` handler calls for an event with this delta. */
  function WheelScroll(vertical: bool, delta: int): (c: ViewScroll)
    requires delta != 0
    ensures c.axis == (if vertical then Y else X) && c.what == "units"
    ensures c.amount == -1 || c.amount == 1
    ensures c.amount * delta < 0
  {
    ViewScroll(if vertical then Y else X, ScrollDirection(delta), "units")
  }

  /** The style groups ScrollFrame's constructor adds, in order. */
  const ScrollGroups: seq<string> := ["inner_frame", "canvas", "scrollbar"]

  /** The styles after ScrollFrame's constructor body: Component's "frame"
      group, then its own three, each the caller's override or empty. */
  function ScrollFrameStyles(overrides: map<string, Options>): (s: map<string, Options>)
    ensures "frame" in s && "inner_frame" in s && "canvas" in s && "scrollbar" in s
    ensures forall k :: k in s ==> s[k] == GroupOrEmpty(overrides, k)
  {
    assert ScrollGroups[0] in ScrollGroups && ScrollGroups[1] in ScrollGroups && ScrollGroups[2] in ScrollGroups;
    AddGroups(InitialStyles(overrides), overrides, ScrollGroups)
  }

  /** A (width, height) pair. */
  datatype Size = Size(width: int, height: int)

  /** The canvas size chosen in `_refresh_frame` and `on_resize`: along the
      scrolling axis the size comes from `get_size()`, across it from the
      inner frame's requested size. */
  function CanvasSize(vertical: bool, size: int, reqWidth: int, reqHeight: int): (s: Size)
    ensures vertical ==> s.height == size && s.width == reqWidth
    ensures !vertical ==> s.width == size && s.height == reqHeight
  {
    if vertical then Size(reqWidth, size) else Size(size, reqHeight)
  }

  /** The two orientations are mirror images of each other. */
  lemma CanvasSizeMirror(size: int, reqWidth: int, reqHeight: int)
    ensures CanvasSize(false, size, reqWidth, reqHeight)
         == Size(CanvasSize(true, size, reqHeight, reqWidth).height,
                 CanvasSize(true, size, reqHeight, reqWidth).width)
  {
  }

  function SizeOptions(s: Size): (o: Options)
    ensures o.Keys == {"width", "height"} && o["width"] == s.width && o["height"] == s.height
  {
    map["width" := s.width, "height" := s.height]
  }

  /** Two successive `configure` calls with the same keys: the second wins. */
  lemma ConfigureOverwrites(t: Tree, w: Wid, a: Size, b: Size)
    ensures Configure(Configure(t, w, SizeOptions(a)), w, SizeOptions(b))
         == Configure(t, w, SizeOptions(b))
  {
    var once := OptionsOf(t, w) + SizeOptions(b);
    var twice := OptionsOf(Configure(t, w, SizeOptions(a)), w) + SizeOptions(b);
    assert twice == once;
  }

  /** `on_resize` for a canvas holding the content frame (frame): nothing
      happens unless the component is rendered; otherwise the canvas is shrunk
      to 0x0 and then given, like the content frame, the size CanvasSize picks. */
  method OnResize(tk: Toolkit, canvas: Wid, frame: Option<Wid>, vertical: bool,
                  size: int, reqWidth: int, reqHeight: int)
    requires tk.Valid()
    requires frame.Some? ==> frame.value in tk.tree.parent && tk.tree.parent[frame.value] == canvas
    modifies tk
    ensures tk.Valid()
    ensures !(frame.Some? && frame.value in old(tk.tree.live)) ==> tk.tree == old(tk.tree)
    ensures frame.Some? && frame.value in old(tk.tree.live) ==>
      var s := SizeOptions(CanvasSize(vertical, size, reqWidth, reqHeight));
      && canvas in tk.tree.live
      && tk.tree == Configure(Configure(old(tk.tree), canvas, s), frame.value, s)
  {
    if !(frame.Some? && frame.value in tk.tree.live) {
      return;
    }
    ghost var t0 := tk.tree;
    var f := frame.value;
    tk.ConfigureWidget(canvas, SizeOptions(Size(0, 0)));
    var dims := CanvasSize(vertical, size, reqWidth, reqHeight);
    tk.ConfigureWidget(canvas, SizeOptions(dims));
    ConfigureOverwrites(t0, canvas, Size(0, 0), dims);
    tk.ConfigureWidget(f, SizeOptions(dims));
  }

  /** Every element of s occurs once. */
  predicate NoDups(s: seq<Wid>)
  {
    forall i, j :: 0 <= i < j < |s| ==> s[i] != s[j]
  }

  /** Joining two duplicate-free sequences with nothing in common. */
  lemma NoDupsAppend(a: seq<Wid>, b: seq<Wid>)
    requires NoDups(a) && NoDups(b) && forall v :: v in b ==> v !in a
    ensures NoDups(a + b)
  {
    forall i, j | 0 <= i < j < |a + b|
      ensures (a + b)[i] != (a + b)[j]
    {
      if i < |a| && j >= |a| {
        assert (a + b)[i] in a && (a + b)[j] == b[j - |a|] && b[j - |a|] in b;
      }
    }
  }

  /** v is a live widget strictly inside w, d levels down. */
  predicate AtLevel(t: Tree, v: Wid, w: Wid, d: nat)
  {
    v in t.live && Descends(t.parent, v, w) && Depth(t.parent, v, w) == d
  }

  /** Every element of s is w. */
  predicate AllOn(s: seq<Wid>, w: Wid)
  {
    forall i :: 0 <= i < |s| ==> s[i] == w
  }

  /** Some element of s lies d levels below w. */
  ghost predicate HasLevel(t: Tree, s: seq<Wid>, w: Wid, d: nat)
  {
    exists v :: v in s && AtLevel(t, v, w, d)
  }

  /** s holds exactly the live widgets d levels below w. */
  ghost predicate IsLevel(t: Tree, s: seq<Wid>, w: Wid, d: nat)
  {
    forall v :: v in s <==> AtLevel(t, v, w, d)
  }

  /** s holds exactly the live widgets at most d levels below w. */
  ghost predicate UpToLevel(t: Tree, s: seq<Wid>, w: Wid, d: nat)
  {
    forall v :: v in s <==> v in t.live && Descends(t.parent, v, w) && Depth(t.parent, v, w) <= d
  }

  /** One round of the traversal: walking level d + 1 extends what was walked
      to every level up to d + 1, and the gathered children are level d + 2. */
  lemma RoundStep(t: Tree, w: Wid, frontier: seq<Wid>, visited: seq<Wid>, next: seq<Wid>, d: nat)
    requires Wf(t) && IsLevel(t, frontier, w, d + 1) && UpToLevel(t, visited, w, d)
    requires NoDups(frontier) && NoDups(visited)
    requires forall v :: v in next <==> v in t.live && v in t.parent && t.parent[v] in frontier
    requires frontier != []
    ensures IsLevel(t, next, w, d + 2) && UpToLevel(t, visited + frontier, w, d + 1)
    ensures NoDups(visited + frontier) && HasLevel(t, visited + frontier, w, d + 1)
    ensures d + 1 < t.next - w
  {
    assert frontier[0] in frontier && (visited + frontier)[|visited|] == frontier[0];
    forall v | v in t.live
      ensures v in next <==> AtLevel(t, v, w, d + 2)
    {
      GatherKids(t, w, frontier, d + 1, v);
    }
    NoDupsAppend(visited, frontier);
  }

  /** The widgets directly inside w are the first level below it. */
  lemma KidsAreLevelOne(t: Tree, w: Wid)
    requires Wf(t)
    ensures IsLevel(t, Kids(t, w), w, 1)
  {
    forall v
      ensures v in Kids(t, w) <==> AtLevel(t, v, w, 1)
    {
      assert IsKid(t, v, w) ==> t.parent[v] < v;
    }
  }

  /** Once a level is empty, the levels walked so far hold the whole subtree. */
  lemma Exhausted(t: Tree, w: Wid, visited: seq<Wid>, d: nat)
    requires Wf(t) && IsLevel(t, [], w, d + 1) && UpToLevel(t, visited, w, d)
    ensures forall v :: v in visited <==> v in t.live && Descends(t.parent, v, w)
  {
    forall v | v in t.live && Descends(t.parent, v, w)
      ensures Depth(t.parent, v, w) <= d
    {
      if Depth(t.parent, v, w) > d {
        var a := DeeperHasLevel(t, v, w, d);
      }
    }
  }

  /** The kids of the widgets in a level, gathered level by level, are the next level. */
  lemma {:induction false} GatherKids(t: Tree, w: Wid, level: seq<Wid>, d: nat, v: Wid)
    requires Wf(t) && 1 <= d && v in t.live
    requires forall u :: u in level <==> AtLevel(t, u, w, d)
    ensures (v in t.parent && t.parent[v] in level) <==> AtLevel(t, v, w, d + 1)
  {
    NextLevel(t, v, w, d);
  }

  /** A live widget deeper than d below w has a live ancestor exactly d + 1 levels down. */
  lemma DeeperHasLevel(t: Tree, v: Wid, w: Wid, d: nat) returns (a: Wid)
    requires Wf(t) && v in t.live && Descends(t.parent, v, w) && d < Depth(t.parent, v, w)
    ensures AtLevel(t, a, w, d + 1)
  {
    a := AncestorAtDepth(t.parent, v, w, d + 1);
    LiveAncestor(t, v, a);
  }

  /** One pass of the `for` loop in `_enable_mousewheel_scroll`: a `bind` on
      widget for each widget of the level, and the children of the level's
      widgets gathered in order. */
  method BindLevel(t: Tree, widget: Wid, level: seq<Wid>) returns (binds: seq<Wid>, next: seq<Wid>)
    requires Wf(t) && NoDups(level)
    ensures |binds| == |level| && AllOn(binds, widget)
    ensures forall v :: v in next <==> v in t.live && v in t.parent && t.parent[v] in level
    ensures NoDups(next)
  {
    binds := [];
    next := [];
    var i := 0;
    while i < |level|
      invariant 0 <= i <= |level| && NoDups(next)
      invariant forall v :: v in next <==> v in t.live && v in t.parent && t.parent[v] in level[..i]
      invariant |binds| == i && AllOn(binds, widget)
    {
      binds := binds + [widget];
      var kids := Kids(t, level[i]);
      assert forall v :: v in kids ==> v !in next;
      NoDupsAppend(next, kids);
      next := next + kids;
      i := i + 1;
    }
    assert level[..|level|] == level;
  }

  /** `_enable_mousewheel_scroll(widget, includeChildren)`, on the widget tree t.
      bound lists the widgets `bind` was called on, visited the widgets the
      traversal walked, and rounds the iterations of the `while` loop. */
  method EnableMousewheelScroll(t: Tree, widget: Wid, includeChildren: bool)
    returns (bound: seq<Wid>, visited: seq<Wid>, rounds: nat)
    requires Wf(t) && widget in t.live
    // Every `bind`, inside the loop too, is made on widget itself.
    ensures |bound| == 1 + |visited| && AllOn(bound, widget)
    ensures !includeChildren ==> visited == [] && rounds == 0
    // The traversal walks each live widget inside widget exactly once ...
    ensures includeChildren ==> forall v :: v in visited <==> v in t.live && Descends(t.parent, v, widget)
    ensures NoDups(visited)
    // ... and runs once per level of the subtree below widget.
    ensures UpToLevel(t, visited, widget, rounds)
    ensures rounds > 0 ==> HasLevel(t, visited, widget, rounds)
  {
    bound := [widget];
    visited := [];
    rounds := 0;
    if !includeChildren {
      return;
    }
    var frontier := Kids(t, widget);
    KidsAreLevelOne(t, widget);
    while frontier != []
      invariant IsLevel(t, frontier, widget, rounds + 1) && UpToLevel(t, visited, widget, rounds)
      invariant NoDups(frontier) && NoDups(visited)
      invariant |bound| == 1 + |visited| && AllOn(bound, widget)
      invariant rounds > 0 ==> HasLevel(t, visited, widget, rounds)
      invariant rounds < t.next - widget
      decreases t.next - widget - rounds
    {
      var binds, next := BindLevel(t, widget, frontier);
      RoundStep(t, widget, frontier, visited, next, rounds);
      bound := bound + binds;
      visited := visited + frontier;
      rounds := rounds + 1;
      frontier := next;
    }
    Exhausted(t, widget, visited, rounds);
  }
}
