/**
 * MultilineStringEditor: a component holding one text widget, a stored value,
 * and a one-slot cache of the text style last applied to the widget.
 * The Component part is held in `base` (Python's superclass part).
 */
module Editors {
  import opened Widgets
  import opened Components

  /** The style groups the editor adds to those of Component, in order. */
  const TextGroups: seq<string> := ["text", "text_saved", "text_unsaved"]

  /** The styles after the editor's constructor has run. */
  function EditorStyles(overrides: map<string, Options>): (s: map<string, Options>)
    ensures "frame" in s && "text" in s && "text_saved" in s && "text_unsaved" in s
    ensures forall k :: k in s ==> s[k] == GroupOrEmpty(overrides, k)
  {
    assert TextGroups[0] in TextGroups && TextGroups[1] in TextGroups && TextGroups[2] in TextGroups;
    AddGroups(InitialStyles(overrides), overrides, TextGroups)
  }

  /** The one-slot memo of `__apply_text_style`: the key cached afterwards, and
      whether `.configure()` is called. */
  function StyleMemo(cached: Option<string>, key: string): (r: (Option<string>, bool))
    ensures r.0 == Some(key)
    ensures r.1 <==> cached != Some(key)
  {
    if Some(key) != cached then (Some(key), true) else (cached, false)
  }

  /** Applying the same style twice in a row configures at most once. */
  lemma StyleMemoIdempotent(cached: Option<string>, key: string)
    ensures StyleMemo(StyleMemo(cached, key).0, key) == (Some(key), false)
  {
  }

  /** The Component part of a new editor: `Component.__init__`, then the text
      style groups. */
  method NewEditorBase(tk: Toolkit, container: Wid, hasDataSource: bool, updateInterval: Option<int>,
                       overrides: map<string, Options>)
    returns (b: Component)
    requires tk.Valid() && container in tk.tree.live
    modifies tk
    ensures fresh(b) && b.Valid() && b.tk == tk && b.container == container
    ensures b.hasDataSource == hasDataSource && b.updateInterval == updateInterval
    ensures tk.tree == Create(old(tk.tree), container, map[]) && b.outer == old(tk.tree.next)
    ensures b.frame == None && b.children == map[] && b.scheduled == 0
    ensures b.styles == EditorStyles(overrides)
  {
    b := new Component(tk, container, hasDataSource, updateInterval, overrides);
    b.styles := AddGroups(b.styles, overrides, TextGroups);
  }

  /** What `Text.get("1.0", "end")` returns: the widget's text and the newline
      Tk keeps after the last line. */
  function TextGet(content: string): (r: string)
    ensures |r| == |content| + 1 && r[..|content|] == content && r[|content|] == '\n'
  {
    content + "\n"
  }

  /** The widget tree after the editor's `_render` on tree t with content
      frame f: a text widget, numbered t.next, inside f with the "text" group
      (textOpts) and holding value, which then also receives the "text_saved"
      group (savedOpts) when the style cache asks for a configure. */
  function RenderedText(t: Tree, f: Wid, textOpts: Options, savedOpts: Options, value: string,
                        configure: bool): (r: Tree)
    requires Wf(t) && f in t.live
    ensures Wf(r) && r.live == t.live + {t.next} && r.next == t.next + 1
    ensures r.parent == t.parent[t.next := f] && r.content == t.content[t.next := value]
    ensures r.options == t.options[t.next := if configure then textOpts + savedOpts else textOpts]
  {
    var created := Create(t, f, textOpts);
    var made := SetText(created, t.next, value);
    assert made.options == created.options && OptionsOf(made, t.next) == textOpts;
    if configure then Configure(made, t.next, savedOpts) else made
  }

  /** The widget tree after `render` on an editor whose outer frame is live:
      the teardown inside the outer frame, a fresh content frame (numbered
      t.next, with frameOpts), then `_render`'s text widget (numbered t.next + 1). */
  function EditorRenderTree(t: Tree, outer: Wid, frameOpts: Options, textOpts: Options, savedOpts: Options,
                            value: string, configure: bool): (r: Tree)
    requires Wf(t) && outer in t.live
    ensures Wf(r)
  {
    RenderedText(Create(DestroyChildren(t, outer), outer, frameOpts), t.next, textOpts, savedOpts, value, configure)
  }

  /** What an editor's render leaves: of the older widgets, exactly those
      strictly inside the outer frame stop being live, and containment among
      them is kept; the new content frame sits in the outer frame with the
      "frame" group; the new text widget sits in the content frame, holds the
      stored value and has the "text" group, plus "text_saved" when the cache
      asked for a configure. */
  lemma EditorRenderTreeFacts(t: Tree, outer: Wid, frameOpts: Options, textOpts: Options, savedOpts: Options,
                              value: string, configure: bool)
    requires Wf(t) && outer in t.live
    ensures var r := EditorRenderTree(t, outer, frameOpts, textOpts, savedOpts, value, configure);
      && r.next == t.next + 2
      && (forall v :: v in r.live <==> (v in t.live && !Descends(t.parent, v, outer)) || v == t.next || v == t.next + 1)
      && (forall v :: v in t.parent ==> v in r.parent && r.parent[v] == t.parent[v])
      && t.next in r.parent && r.parent[t.next] == outer && r.options[t.next] == frameOpts
      && t.next + 1 in r.parent && r.parent[t.next + 1] == t.next
      && r.content[t.next + 1] == value
      && r.options[t.next + 1] == if configure then textOpts + savedOpts else textOpts
  {
  }

  class MultilineStringEditor {
    const base: Component
    var value: string               // `_value`
    var textStyle: Option<string>   // `__text_style__current`
    var configures: nat             // `.configure()` calls made on text widgets
    var changes: seq<string>        // the old values passed to `on_change`, oldest first

    ghost predicate Valid()
      reads this, base, base.tk
    {
      && base.Valid()
      && "text" in base.styles && "text_saved" in base.styles && "text_unsaved" in base.styles
    }

    /** `__init__`; source is what `get_data(self)` returns, or None when there
        is no data source. */
    constructor (tk: Toolkit, container: Wid, source: Option<string>, updateInterval: Option<int>,
                 overrides: map<string, Options>)
      requires tk.Valid() && container in tk.tree.live
      modifies tk
      ensures Valid() && fresh(base) && base.tk == tk
      ensures base.hasDataSource == source.Some? && base.updateInterval == updateInterval
      ensures tk.tree == Create(old(tk.tree), container, map[]) && base.outer == old(tk.tree.next)
      ensures base.frame == None && base.children == map[] && base.scheduled == 0
      ensures base.styles == EditorStyles(overrides)
      ensures value == (if source.Some? then source.value else "")
      ensures textStyle == None && configures == 0 && changes == []
    {
      value := if source.Some? then source.value else "";
      textStyle := None;
      configures := 0;
      changes := [];
      var b := NewEditorBase(tk, container, source.Some?, updateInterval, overrides);
      base := b;
    }

    /** `is_unsaved`, given what `get_data(self)` returns now. */
    predicate IsUnsaved(fetched: string)
      reads this, base
    {
      base.hasDataSource && fetched != value
    }

    /** The registered "text" child is a widget that is still live. */
    predicate TextWidgetLive()
      reads this, base, base.tk
    {
      "text" in base.children && base.children["text"].Widget? && base.children["text"].id in base.tk.tree.live
    }

    /** What `__apply_text_style(key)` did between the two states: the cache
        moves as StyleMemo says; `.configure()` ran once, with the key's style
        group, exactly when StyleMemo asks for it and the registered text widget
        is live; it raised as Python does when no widget is registered or the
        widget is gone. */
    twostate predicate StyleApplied(key: string, o: Outcome)
      reads this, base, base.tk
    {
      && textStyle == StyleMemo(old(textStyle), key).0
      && value == old(value) && changes == old(changes) && base.children == old(base.children)
      && if !StyleMemo(old(textStyle), key).1 then
           o == Done && configures == old(configures) && base.tk.tree == old(base.tk.tree)
         else if "text" !in base.children then
           o == Raised(KeyError) && configures == old(configures) && base.tk.tree == old(base.tk.tree)
         else if !base.children["text"].Widget? then
           o == Raised(AttributeError) && configures == old(configures) && base.tk.tree == old(base.tk.tree)
         else if base.children["text"].id !in old(base.tk.tree.live) then
           o == Raised(TclError) && configures == old(configures) && base.tk.tree == old(base.tk.tree)
         else
           && o == Done && configures == old(configures) + 1 && key in base.styles
           && base.tk.tree == Configure(old(base.tk.tree), base.children["text"].id, base.styles[key])
    }

    /** `__apply_text_style`. */
    method ApplyTextStyle(key: string) returns (o: Outcome)
      requires Valid() && key in base.styles
      modifies this`textStyle, this`configures, base.tk
      ensures Valid() && StyleApplied(key, o)
    {
      if Some(key) == textStyle {
        return Done;
      }
      textStyle := Some(key);
      if "text" !in base.children {
        return Raised(KeyError);
      }
      if !base.children["text"].Widget? {
        return Raised(AttributeError);
      }
      var w := base.children["text"].id;
      if w !in base.tk.tree.live {
        return Raised(TclError);
      }
      base.tk.ConfigureWidget(w, base.styles[key]);
      configures := configures + 1;
      o := Done;
    }

    /** `_update`, given what `get_data(self)` returns now: the unsaved style
        when the data source disagrees with the stored value, else the saved one. */
    method Update(fetched: string) returns (o: Outcome)
      requires Valid()
      modifies this`textStyle, this`configures, base.tk
      ensures Valid()
      ensures StyleApplied(if base.hasDataSource && fetched != value then "text_unsaved" else "text_saved", o)
    {
      o := ApplyTextStyle(if IsUnsaved(fetched) then "text_unsaved" else "text_saved");
    }

    /** The `value` setter: the registered text widget's text becomes v, but the
        stored value stays as it was (`self._value = self.value`). With no
        widget registered the KeyError is swallowed. */
    method SetValue(v: string) returns (o: Outcome)
      requires Valid()
      modifies base.tk
      ensures Valid() && value == old(value)
      ensures "text" !in base.children ==> o == Done && base.tk.tree == old(base.tk.tree)
      ensures "text" in base.children && !base.children["text"].Widget? ==>
        o == Raised(AttributeError) && base.tk.tree == old(base.tk.tree)
      ensures "text" in base.children && base.children["text"].Widget? ==>
        if base.children["text"].id in old(base.tk.tree.live) then
          o == Done && base.tk.tree == SetText(old(base.tk.tree), base.children["text"].id, v)
        else
          o == Raised(TclError) && base.tk.tree == old(base.tk.tree)
    {
      if "text" !in base.children {
        return Done;
      }
      if !base.children["text"].Widget? {
        return Raised(AttributeError);
      }
      var w := base.children["text"].id;
      if w !in base.tk.tree.live {
        return Raised(TclError);
      }
      base.tk.SetWidgetText(w, v);
      o := Done;
    }

    /** The first part of `_render`: the "text" slot holds None while a text
        widget styled by "text" is made inside the content frame; the widget is
        then registered as "text" and given the stored value. */
    method AddTextWidget() returns (x: Wid)
      requires Valid() && base.IsRendered()
      modifies base`children, base.tk
      ensures Valid() && base.IsRendered()
      ensures x == old(base.tk.tree.next) && base.children == old(base.children)["text" := Widget(x)]
      ensures base.tk.tree == SetText(Create(old(base.tk.tree), base.frame.value, base.styles["text"]), x, value)
    {
      base.children := base.children["text" := Placeholder];
      x := base.tk.NewWidget(base.frame.value, base.styles["text"]);
      base.children := base.children["text" := Widget(x)];
      var o := SetValue(value);
    }

    /** `_render` (after `render`'s teardown and fresh content frame): a text
        widget styled by "text" inside the content frame, registered as "text",
        holding the stored value, then the "text_saved" style through the cache,
        which a re-render does not reset. */
    method RenderText() returns (x: Wid)
      requires Valid() && base.IsRendered()
      modifies base`children, base.tk, this`textStyle, this`configures
      ensures Valid() && base.IsRendered()
      ensures x == old(base.tk.tree.next) && base.children == old(base.children)["text" := Widget(x)]
      ensures textStyle == Some("text_saved") && value == old(value) && changes == old(changes)
      ensures configures == old(configures) + (if old(textStyle) == Some("text_saved") then 0 else 1)
      ensures base.tk.tree == RenderedText(old(base.tk.tree), base.frame.value, base.styles["text"],
                                           base.styles["text_saved"], value, old(textStyle) != Some("text_saved"))
    {
      x := AddTextWidget();
      var o := ApplyTextStyle("text_saved");
    }

    /** `render` on an editor whose outer frame is live: teardown, a fresh
        content frame, `_render`, and the tick when polling. */
    method RenderLive()
      requires Valid() && base.Exists()
      modifies base`frame, base`children, base`scheduled, base.tk, this`textStyle, this`configures
      ensures Valid() && value == old(value) && changes == old(changes)
      ensures base.Exists() && base.IsRendered() && base.frame == Some(old(base.tk.tree.next))
      ensures base.children == old(base.children)["text" := Widget(old(base.tk.tree.next) + 1)]
      ensures base.scheduled == old(base.scheduled) + (if Polls(base.updateInterval) then 1 else 0)
      ensures textStyle == Some("text_saved")
      ensures configures == old(configures) + (if old(textStyle) == Some("text_saved") then 0 else 1)
      ensures base.tk.tree == EditorRenderTree(old(base.tk.tree), base.outer, base.styles["frame"], base.styles["text"],
                                               base.styles["text_saved"], value, old(textStyle) != Some("text_saved"))
    {
      var ok := base.Mount();
      var x := RenderText();
      base.ScheduleTick();
    }

    /** `render` on the editor: teardown, a fresh content frame, `_render`, and
        the tick when polling. Fails with TclError when the outer frame is gone. */
    method Render() returns (r: Result<Wid>)
      requires Valid()
      modifies base`frame, base`children, base`scheduled, base.tk, this`textStyle, this`configures
      ensures Valid() && value == old(value) && changes == old(changes)
      ensures !old(base.Exists()) ==>
        && r == Failure(TclError) && base.tk.tree == old(base.tk.tree) && base.frame == old(base.frame)
        && base.children == old(base.children) && base.scheduled == old(base.scheduled)
        && textStyle == old(textStyle) && configures == old(configures)
      ensures old(base.Exists()) ==>
        && r == Success(base.outer) && base.Exists() && base.IsRendered()
        && base.frame == Some(old(base.tk.tree.next))
        && base.children == old(base.children)["text" := Widget(old(base.tk.tree.next) + 1)]
        && base.scheduled == old(base.scheduled) + (if Polls(base.updateInterval) then 1 else 0)
        && textStyle == Some("text_saved")
        && configures == old(configures) + (if old(textStyle) == Some("text_saved") then 0 else 1)
        && base.tk.tree == EditorRenderTree(old(base.tk.tree), base.outer, base.styles["frame"], base.styles["text"],
                                            base.styles["text_saved"], value, old(textStyle) != Some("text_saved"))
    {
      if base.outer !in base.tk.tree.live {
        return Failure(TclError);
      }
      RenderLive();
      r := Success(base.outer);
    }

    /** `_handle_input`, given what `get_data(self)` returns during `_update`
        (fetched) and whether `on_change` destroys the editor's outer frame
        (closes). The setter writes back what `Text.get` read, and the old
        value goes to `on_change`, once. */
    method HandleInput(fetched: string, closes: bool) returns (o: Outcome)
      requires Valid()
      modifies base.tk, this`changes, this`textStyle, this`configures
      ensures Valid() && value == old(value)
      ensures !old(TextWidgetLive()) ==>
        && o == Raised(if "text" !in base.children then KeyError
                       else if !base.children["text"].Widget? then AttributeError
                       else TclError)
        && base.tk.tree == old(base.tk.tree) && changes == old(changes)
        && textStyle == old(textStyle) && configures == old(configures)
      ensures old(TextWidgetLive()) ==>
        && changes == old(changes) + [old(value)]
        && (base.Exists() <==> old(base.Exists()) && !closes)
      ensures old(TextWidgetLive()) && !base.Exists() ==>
        var w := base.children["text"].id;
        var typed := SetText(old(base.tk.tree), w, TextGet(old(base.tk.tree.content[w])));
        && o == Done && textStyle == old(textStyle) && configures == old(configures)
        && base.tk.tree == if closes && old(base.Exists()) then Destroy(typed, base.outer) else typed
      ensures old(TextWidgetLive()) && base.Exists() ==>
        var key := if base.hasDataSource && fetched != value then "text_unsaved" else "text_saved";
        var w := base.children["text"].id;
        var typed := SetText(old(base.tk.tree), w, TextGet(old(base.tk.tree.content[w])));
        && TextWidgetLive() && o == Done
        && textStyle == Some(key)
        && configures == old(configures) + (if old(textStyle) == Some(key) then 0 else 1)
        && base.tk.tree == if old(textStyle) == Some(key) then typed else Configure(typed, w, base.styles[key])
    {
      if "text" !in base.children {
        return Raised(KeyError);
      }
      if !base.children["text"].Widget? {
        return Raised(AttributeError);
      }
      if base.children["text"].id !in base.tk.tree.live {
        return Raised(TclError);
      }
      var w := base.children["text"].id;
      var oldValue := value;
      var typed := TextGet(base.tk.tree.content[w]);
      o := SetValue(typed);
      changes := changes + [oldValue];
      if closes && base.outer in base.tk.tree.live {
        base.tk.DestroyWidget(base.outer);
      }
      if base.outer in base.tk.tree.live {
        o := Update(fetched);
      }
    }

    /** `_update_loop` on the editor: the tick prologue, then `_update`; the
        editor keeps the default `_needs_render`, so it never re-renders here. */
    method UpdateLoop(fetched: string) returns (o: Outcome)
      requires Valid()
      modifies base`scheduled, base.tk, this`textStyle, this`configures
      ensures Valid() && base.frame == old(base.frame)
      ensures old(base.frame).None? ==>
        o == Raised(AttributeError) && base.scheduled == old(base.scheduled)
        && base.tk.tree == old(base.tk.tree) && textStyle == old(textStyle) && configures == old(configures)
      ensures old(base.frame).Some? && !old(base.Exists()) ==>
        o == Done && base.scheduled == old(base.scheduled)
        && base.tk.tree == old(base.tk.tree) && textStyle == old(textStyle) && configures == old(configures)
      ensures old(base.frame).Some? && old(base.Exists()) ==>
        && base.scheduled == old(base.scheduled) + (if Polls(base.updateInterval) then 1 else 0)
        && StyleApplied(if base.hasDataSource && fetched != value then "text_unsaved" else "text_saved", o)
    {
      var alive := base.TickPrologue();
      if alive.Failure? {
        return Raised(alive.fault);
      }
      if !alive.value {
        return Done;
      }
      o := Update(fetched);
    }
  }
}
