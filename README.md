# tkcomponents, modelled in Dafny

tkcomponents is a small framework for Tkinter user interfaces. Its
`Component` class owns a persistent *outer frame* inside a container. Each
`render` destroys everything inside that outer frame, builds a fresh *content
frame* and calls the `_render` hook to fill it. When an update interval is
set, `render` registers a polling tick (`_update_loop`) that calls `_update`
and re-renders when `_needs_render` asks for it. Components keep their style
groups in `styles` and the widgets or nested components they build in
`children`.

This project models:

- **Widgets** (`widgets.dfy`): an abstract stand-in for the toolkit.
  - It is a retained widget tree: live widgets, a parent map, per-widget
    options and text.
  - Widgets are numbered in creation order, so a parent is always older than
    its child.
  - It provides `winfo_children` (`Kids`), widget creation, `destroy` (which
    removes a whole subtree), `configure` and text replacement.
  - It proves that destroying the listed children one by one removes exactly
    what lies strictly inside a widget.
- **Components** (`component.dfy`): the `Component` lifecycle.
  - Construction, `exists`, `is_rendered` and the two clearances.
  - `render`: the teardown, the fresh content frame, the base `_render`
    hook and the tick.
  - `_update_loop`.
- **Fixtures** (`fixtures.dfy`): the conftest fixture's Parent and Blank
  components (test/conftest.py), rendered in full.
  - The steps of test_exists and test_is_rendered are replayed on them:
    after the parent's second render, the Blank child from its first render
    neither exists nor is rendered.
  - Those two tests use a `nested_button_cls` fixture keyed "button_wrapper",
    which is not part of this model. The scenario therefore uses the Parent
    fixture and its key "blank".
- **Editors** (`multilinestringeditor.dfy`): `MultilineStringEditor`.
  - Its style groups and initial value.
  - The `value` setter, `is_unsaved` and `_update`.
  - `_render`, `render` and `_handle_input`.
  - The one-slot cache of the applied text style.
- **Scrolling** (`scrollframe.dfy`): the standalone logic of `ScrollFrame`.
  - The mousewheel direction and the scroll call it makes.
  - The style groups its constructor adds.
  - The orientation-dependent canvas size and `on_resize`.
  - The level-by-level traversal in `_enable_mousewheel_scroll`. It is
    proved to walk every live widget inside the given one exactly once,
    one loop round per level, while every `bind` lands on the given widget
    itself.

Inputs that come from outside the code are parameters:

- the value `get_data` returns at a given call (`fetched`, `source`);
- whether `on_change` destroys the editor (`closes`);
- a frame's resolved size (`frameHeight`, `frameWidth`, `size`, `reqWidth`,
  `reqHeight`);
- whether `_needs_render` is true at a tick (`needsRender`);
- a mousewheel event's delta.

## Model

| member | source | states |
|---|---|---|
| Widgets.Root | test/unit/test_component.py:8-9 | a fresh application tree is well formed and holds only the root window, live |
| Widgets.Kids | tkcomponents/component.py:90 | `winfo_children`: exactly the live widgets whose parent is w, in strictly increasing creation order |
| Widgets.Create | tkcomponents/component.py:14 | a new widget gets the next number, becomes live inside p with the given options and empty text; the tree stays well formed |
| Widgets.Destroy | tkcomponents/component.py:91 | `destroy`: a widget stops being live exactly when it is w or lies inside w; containment, options and text are kept |
| Widgets.DestroyAll | tkcomponents/component.py:90-91 | destroying a list of widgets in turn leaves live exactly the widgets under none of them |
| Widgets.DestroyChildren | tkcomponents/component.py:90-91 | everything strictly inside w stops being live, and w keeps its liveness |
| Widgets.TeardownIsDestroyChildren | tkcomponents/component.py:90-91 | destroying each widget `winfo_children` lists for w is the same as destroying everything strictly inside w |
| Widgets.StaleInnerWidgetsAreGone | tkcomponents/component.py:90-91 | a widget that was inside w before the teardown, and anything inside it, is no longer live |
| Widgets.LiveAncestor | tkcomponents/component.py:46-47 | every widget that contains a live widget is live |
| Widgets.DeadInsideDead | tkcomponents/component.py:46-47 | nothing inside a destroyed widget is live |
| Widgets.DescendsOlder | tkcomponents/component.py:14 | a widget is younger than everything that contains it |
| Widgets.DescendsThrough | tkcomponents/component.py:90-91 | containment is transitive |
| Widgets.Configure | tkcomponents/basiccomponents/multilinestringeditor.py:75 | `configure` touches only the widget's options; it keeps the tree well formed, and the widget afterwards has an options entry |
| Widgets.ConfigureMerges | tkcomponents/basiccomponents/multilinestringeditor.py:75 | after `configure(**opts)` the widget has its old option names plus those in opts; each given option takes the new value, every other option keeps its old value, and other widgets are untouched |
| Widgets.SetText | tkcomponents/basiccomponents/multilinestringeditor.py:29-30 | replacing a widget's text touches only that widget's text, which becomes s; the tree stays well formed |
| Widgets.Depth | tkcomponents/basiccomponents/scrollframe.py:109-122 | the number of containment steps from v up to w is at least 1 and bounded by the number of widgets between them |
| Widgets.NextLevel | tkcomponents/basiccomponents/scrollframe.py:120 | the live children of the widgets on level d below w are exactly the live widgets on level d+1 |
| Widgets.AncestorAtDepth | tkcomponents/basiccomponents/scrollframe.py:109-122 | every widget deeper than d below w lies under a widget exactly d levels below w |
| Widgets.Toolkit.NewWidget | tkcomponents/component.py:14 | the shared tree becomes Create of the old tree, and the new widget's number is returned |
| Widgets.Toolkit.DestroyWidget | tkcomponents/component.py:91 | the shared tree becomes Destroy of the old tree |
| Widgets.Toolkit.DestroyEach | tkcomponents/component.py:90-91 | destroying the listed widgets in order leaves the shared tree equal to DestroyAll of the old tree |
| Widgets.Toolkit.ConfigureWidget | tkcomponents/basiccomponents/multilinestringeditor.py:75 | `configure` merges the given options into the widget's options, and later values win |
| Widgets.Toolkit.SetWidgetText | tkcomponents/basiccomponents/multilinestringeditor.py:29-30 | `delete("1.0","end")` then `insert("1.0",v)`: the widget's text becomes v |
| Components.OptionOr0 | tkcomponents/component.py:72-73 | `.get(key, 0)` on a style group: the option's value when present, else 0 |
| Components.Polls | tkcomponents/component.py:96 | Python truthiness of the update interval: polling happens when it is set and nonzero; None and 0 switch it off (also the test at line 107) |
| Components.GroupOrEmpty | tkcomponents/component.py:24 | `styles.get(key, {})`: the override when the key is present, otherwise the empty group |
| Components.AddGroups | tkcomponents/basiccomponents/multilinestringeditor.py:13-16 | adding groups yields the old keys plus the listed ones; each listed key holds the caller's override or `{}`, and the other keys are unchanged |
| Components.InitialStyles | tkcomponents/component.py:22-24 | after `Component.__init__`, `styles` has exactly the key "frame", holding the override or `{}` |
| Components.Clearance | tkcomponents/component.py:72-76 | the clearance plus twice the padding plus twice the border width equals the frame's size, and absent keys count 0 |
| Components.Component.constructor | tkcomponents/component.py:8-43 | a new outer frame is created inside the container; `_frame` is None, `children` is empty, `styles` is InitialStyles, and nothing is scheduled |
| Components.Component.Exists | tkcomponents/component.py:45-47 | `exists`: the outer frame is still live; a component whose container has been destroyed does not exist |
| Components.Component.IsRendered | tkcomponents/component.py:49-55 | `is_rendered`: False while no content frame was made; otherwise whether the content frame is still live |
| Components.Component.RenderedExists | tkcomponents/component.py:45-55 | a rendered component exists, because its live content frame lies in the outer frame |
| Components.Component.HeightClearance | tkcomponents/component.py:67-76 | None exactly when the component is not rendered; otherwise height = clearance + 2·pady + 2·borderwidth |
| Components.Component.WidthClearance | tkcomponents/component.py:78-87 | None exactly when the component is not rendered; otherwise width = clearance + 2·padx + 2·borderwidth |
| Components.Component.RefreshFrame | tkcomponents/component.py:125-131 | a fresh content frame is created inside the outer frame, styled by the "frame" group, and becomes `_frame` |
| Components.Component.Teardown | tkcomponents/component.py:90-91 | the loop over `winfo_children` leaves the tree equal to DestroyChildren of the outer frame; the outer frame survives |
| Components.Component.Mount | tkcomponents/component.py:89-92 | when the outer frame exists: teardown, then a fresh content frame; otherwise nothing changes. `children` is not touched |
| Components.Component.ScheduleTick | tkcomponents/component.py:96-97 | one `after` registration when the update interval is truthy, none when it is None or 0 |
| Components.Component.Render | tkcomponents/component.py:89-99 | base `render`: the teardown and the fresh frame happen, then the base `_render` raises NotImplementedError, so no tick is scheduled (TclError when the outer frame is gone) |
| Components.Component.TickPrologue | tkcomponents/component.py:101-108 | AttributeError before the first render; no reschedule once the component no longer exists; otherwise a reschedule when polling |
| Components.Component.UpdateLoop | tkcomponents/component.py:101-123 | AttributeError before the first render; nothing happens when the component no longer exists; otherwise it reschedules when polling and completes normally, and the tree changes only by a re-render (raising NotImplementedError) when `_needs_render` holds |
| Fixtures.NewRenderedComponent | test/conftest.py:16-19 | a Blank component constructed and rendered inside a live container exists and is rendered, with a fresh outer frame; every older widget keeps its parent and its liveness |
| Fixtures.BuildBlank | test/conftest.py:13-19 | the Parent fixture's `_render`: "blank" is set to None, then to a new Blank component that exists, is rendered and lies inside the parent's outer frame; the parent stays rendered and older widgets keep their liveness |
| Fixtures.RenderFixtureParent | tkcomponents/component.py:89-99 | `render` on the Parent fixture: TclError and no change when the outer frame is gone; otherwise it returns the outer frame, exactly the older widgets strictly inside the outer frame stop being live, "blank" holds the new rendered Blank, and a tick is scheduled when polling |
| Fixtures.ReRenderOrphans | test/unit/test_component.py:18-20 | re-rendering the Parent fixture leaves any component built inside its outer frame neither existing nor rendered; when the parent existed, the outer frame is returned, the parent exists and is rendered, and "blank" holds a new, rendered Blank |
| Fixtures.RenderParentWithChild | test/conftest.py:12-19 | the Parent fixture made in the root window and rendered once holds its Blank child under "blank"; both exist and are rendered, and the child lies inside the parent |
| Fixtures.StaleChildScenario | test/unit/test_component.py:8-34 | the steps of test_exists and test_is_rendered, on the Parent fixture: after the parent's second render the parent exists and is rendered and holds a new rendered Blank, while the child from the first render neither exists nor is rendered |
| Editors.EditorStyles | tkcomponents/basiccomponents/multilinestringeditor.py:13-16 | the editor's styles hold "frame", "text", "text_saved" and "text_unsaved", each the caller's override or `{}` |
| Editors.StyleMemo | tkcomponents/basiccomponents/multilinestringeditor.py:73-75 | the cache always ends up holding the key; `.configure()` is called exactly when the key differs from the cached one |
| Editors.StyleMemoIdempotent | tkcomponents/basiccomponents/multilinestringeditor.py:68-75 | applying the same style key twice in a row configures at most once: the second application configures nothing |
| Editors.NewEditorBase | tkcomponents/basiccomponents/multilinestringeditor.py:10-16 | `Component.__init__` followed by the three text groups: styles equal EditorStyles, with no content frame and no children |
| Editors.RenderedText | tkcomponents/basiccomponents/multilinestringeditor.py:52-57 | the tree after `_render`'s widget work: exactly one new live widget, numbered t.next, inside the content frame, holding the stored value, with the "text" group, merged with "text_saved" when the cache asked for a configure; nothing else changes |
| Editors.EditorRenderTree | tkcomponents/component.py:89-99 | the tree after the editor's `render` (teardown, fresh content frame, `_render`) stays well formed |
| Editors.EditorRenderTreeFacts | tkcomponents/component.py:89-99 | after the editor's `render`: of the older widgets exactly those strictly inside the outer frame stop being live; containment is kept; the content frame is the next number inside the outer frame with the "frame" group; the text widget follows it inside the content frame, holding the value |
| Editors.TextGet | tkcomponents/basiccomponents/multilinestringeditor.py:61 | `get("1.0","end")` returns the widget's text followed by the single newline Tk keeps at the end |
| Editors.MultilineStringEditor.constructor | tkcomponents/basiccomponents/multilinestringeditor.py:8-20 | the initial value is what `get_data` returns when there is a data source, else ""; the style cache starts empty |
| Editors.MultilineStringEditor.IsUnsaved | tkcomponents/basiccomponents/multilinestringeditor.py:36-42 | `is_unsaved`: False without a data source; otherwise whether what `get_data` returns differs from the stored value |
| Editors.MultilineStringEditor.ApplyTextStyle | tkcomponents/basiccomponents/multilinestringeditor.py:68-75 | the cache moves as StyleMemo says; `.configure()` runs once with the key's group exactly when the key changed; KeyError, AttributeError or TclError when the text widget is missing, None or destroyed |
| Editors.MultilineStringEditor.Update | tkcomponents/basiccomponents/multilinestringeditor.py:37-45 | applies "text_unsaved" when there is a data source whose value differs from the stored value, else "text_saved" |
| Editors.MultilineStringEditor.SetValue | tkcomponents/basiccomponents/multilinestringeditor.py:26-34 | the registered text widget's text becomes v; the stored value stays unchanged; with no "text" child it silently does nothing |
| Editors.MultilineStringEditor.AddTextWidget | tkcomponents/basiccomponents/multilinestringeditor.py:48-54 | a text widget styled by "text" is created inside the content frame, registered as "text", and given the stored value |
| Editors.MultilineStringEditor.RenderText | tkcomponents/basiccomponents/multilinestringeditor.py:47-57 | `_render`: the tree becomes RenderedText of the old tree; the new widget is registered as "text" and nothing else in `children` changes; the cache ends at "text_saved", with one configure only when it held something else |
| Editors.MultilineStringEditor.RenderLive | tkcomponents/component.py:89-99 | editor `render` on a live outer frame: the tree becomes EditorRenderTree of the old tree; the content frame is the first new widget; only "text" in `children` changes; a tick is scheduled when polling; the cache ends at "text_saved" |
| Editors.MultilineStringEditor.Render | tkcomponents/component.py:89-99 | editor `render`: TclError with nothing changed when the outer frame is gone; otherwise the outer frame is returned, and the tree, `children`, tick and cache end as RenderLive states |
| Editors.MultilineStringEditor.HandleInput | tkcomponents/basiccomponents/multilinestringeditor.py:59-66 | KeyError, AttributeError or TclError, with nothing changed, when "text" is missing, is not a widget, or is destroyed. Otherwise the text widget's text becomes what `get` read (with Tk's trailing newline); `on_change` is logged exactly once with the old value; the outer frame is destroyed exactly when `on_change` closes the editor; a still existing editor then applies the saved or unsaved style, configuring the widget only when the cached key changes |
| Editors.MultilineStringEditor.UpdateLoop | tkcomponents/component.py:101-113 | AttributeError before the first render and nothing at all once the editor no longer exists (tree, tick, cache and configure count unchanged); otherwise the tick reschedules, then applies the saved or unsaved style; it never re-renders |
| Scrolling.Abs | tkcomponents/basiccomponents/scrollframe.py:126 | `abs`: the magnitude of x |
| Scrolling.ScrollDirection | tkcomponents/basiccomponents/scrollframe.py:124-126 | -1 for a positive delta and 1 for a negative one, so the result always has the opposite sign to the delta |
| Scrolling.WheelScroll | tkcomponents/basiccomponents/scrollframe.py:98-106 | a wheel event scrolls the canvas by one unit along the scrolling axis, against the delta's sign |
| Scrolling.ScrollFrameStyles | tkcomponents/basiccomponents/scrollframe.py:21-24 | the styles hold "frame", "inner_frame", "canvas" and "scrollbar", each the caller's override or `{}` |
| Scrolling.CanvasSize | tkcomponents/basiccomponents/scrollframe.py:64-71 | when vertical, the height comes from `get_size()` and the width from the requested width; when horizontal, the two are swapped |
| Scrolling.CanvasSizeMirror | tkcomponents/basiccomponents/scrollframe.py:36-41 | the horizontal choice is the vertical one with width and height exchanged |
| Scrolling.SizeOptions | tkcomponents/basiccomponents/scrollframe.py:43-51 | `configure(width=…, height=…)` sets exactly those two options |
| Scrolling.ConfigureOverwrites | tkcomponents/basiccomponents/scrollframe.py:31-47 | shrinking the canvas to 0×0 and then configuring its size has the same effect as configuring the size alone |
| Scrolling.OnResize | tkcomponents/basiccomponents/scrollframe.py:27-51 | nothing changes unless rendered; otherwise the canvas and the content frame both get the size CanvasSize picks |
| Scrolling.NoDupsAppend | tkcomponents/basiccomponents/scrollframe.py:120 | joining two duplicate-free, disjoint lists of widgets gives a duplicate-free list |
| Scrolling.BindLevel | tkcomponents/basiccomponents/scrollframe.py:112-120 | one pass of the `for` loop: one bind per widget of the level, all on `widget`; the gathered list holds exactly the live children of the level, each once |
| Scrolling.KidsAreLevelOne | tkcomponents/basiccomponents/scrollframe.py:109 | the first frontier is exactly the first level below the widget |
| Scrolling.GatherKids | tkcomponents/basiccomponents/scrollframe.py:114-122 | the live children of the widgets on one level are exactly the widgets on the next level |
| Scrolling.RoundStep | tkcomponents/basiccomponents/scrollframe.py:111-122 | one round of the `while` loop extends the walked set by one whole level, and the new frontier is the following level |
| Scrolling.DeeperHasLevel | tkcomponents/basiccomponents/scrollframe.py:111 | a widget deeper than d has a live ancestor on level d+1, so an empty frontier means nothing deeper is left |
| Scrolling.Exhausted | tkcomponents/basiccomponents/scrollframe.py:111 | when the frontier is empty, the walked widgets are the whole live subtree |
| Scrolling.EnableMousewheelScroll | tkcomponents/basiccomponents/scrollframe.py:89-122 | without children: one bind and no traversal. With children: every live widget inside `widget` is walked exactly once, one round per level of its height. Every bind targets `widget` |

## Left out

- The real toolkit is not modelled: geometry managers (`grid`, `pack`), `update()`, real pixel sizes, the `rowconfigure`/`columnconfigure` weights, and the `height`/`width` properties. Sizes are opaque integer inputs.
- Option values are integers. String-valued options such as the scrollbar's `orient` and the canvas's `scrollregion`/scroll commands are not represented.
- The event-loop timer is a counter of `after` registrations. `after_cancel(self._update_loop)` is given the callback rather than a timer id, so it cancels nothing; the model treats it as a no-op. Real scheduling and time are not modelled.
- `objectextensions.Extendable` and `GridHelper._apply_frame_stretch` are foreign code that is not shown. The extensions module is not part of this model.
- Subclassing is modelled by composition: the editor holds its Component part as `base`.
- `get_data` and `on_change` are callbacks into application code. `get_data`'s result at a call is a parameter. `on_change` is logged as the list of old values it received, and its only modelled effect is whether it destroys the editor (`closes`). Other side effects of either callback are not modelled.
- Style groups are stored as values. The aliasing between the caller's dicts and `styles` is not modelled.
- ScrollFrame construction and `_refresh_frame`'s widget creation are not modelled:
  - the main frame, canvas, scrollbar and inner frame;
  - `create_window`, `bbox("all")` and the scrollbar wiring.

  As written, its constructor passes `update_interval_ms=` to `Component.__init__`, which has no such parameter, so constructing a ScrollFrame raises TypeError. Only its standalone helpers are modelled. `OnResize` takes the canvas, the content frame and the sizes as parameters.
- Scrolling.ScrollDirection: a zero delta divides by zero in Python; the model requires a nonzero delta instead of modelling the ZeroDivisionError.
- Scrolling.EnableMousewheelScroll: the bound lambda is represented only by the widget it is bound to. The scroll call it makes is `WheelScroll`.
- tkcomponents/basiccomponents/draggable.py and labelwrapper.py are thin wrappers over `tkinter.dnd`, `Label` and `StringVar`; they are not modelled.
- Components.Component.Render models only the base class, whose `_render` raises NotImplementedError. Subclass hooks are modelled only for the editor and for the test fixtures.
- Components.Component.UpdateLoop: with the base hooks `_update` does nothing; `_needs_render` is a parameter, and the default hook always gives False.
- `is_rendered` calls `self._frame.update()`, which is not modelled.
- Editors.MultilineStringEditor.HandleInput: when the "text" entry is missing, None, a nested component, or a destroyed widget, the model raises before anything changes, which is what the Python code does.
- Components.Component.constructor: requires a live container. Creating the outer frame inside a destroyed container raises TclError in the toolkit, which is not modelled.
- Some behaviour of the code as written is modelled as it is:
  - `render` does not clear `children`;
  - the `value` setter writes `self._value = self.value`, so the stored value never changes on assignment;
  - `_handle_input` stores back the text including Tk's trailing newline.
