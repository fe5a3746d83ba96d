/**
 * An abstract stand-in for the host widget toolkit: a retained tree of widgets.
 * Widgets are numbered in creation order; 0 is the application's root window.
 * `destroy` removes a widget together with everything inside it; the parent
 * map keeps the containment of every widget ever created, so "was inside"
 * can still be asked of a destroyed widget.
 */
module Widgets {

  /** A widget's number; Wf keeps every number in use non-negative. */
  type Wid = int

  /** Configuration options of one widget (option name to value). */
  type Options = map<string, int>

  datatype Tree = Tree(
    live: set<Wid>,              // widgets that have not been destroyed
    parent: map<Wid, Wid>,       // containing widget, for every widget but the root
    next: Wid,                   // the number the next created widget receives
    options: map<Wid, Options>,  // configured options of each widget
    content: map<Wid, string>    // text held by each widget (used by text widgets)
  )

  /** A fresh application: only the root window. */
  function Root(): (t: Tree)
    ensures Wf(t) && t.live == {0}
  {
    Tree({0}, map[], 1, map[0 := map[]], map[0 := ""])
  }

  /** Well-formedness: numbers are handed out in order from 0, a widget's parent is older
      than the widget, and a live widget sits inside a live parent. */
  ghost predicate Wf(t: Tree)
  {
    && 0 <= t.next
    && (forall v :: v in t.live ==> 0 <= v < t.next && v in t.options && v in t.content)
    && (forall v :: v in t.parent ==> 0 <= t.parent[v] < v < t.next)
    && (forall v :: v in t.live && v in t.parent ==> t.parent[v] in t.live)
  }

  /** v lies strictly inside w. */
  predicate Descends(parent: map<Wid, Wid>, v: Wid, w: Wid)
    decreases v
  {
    v in parent && 0 <= parent[v] < v && (parent[v] == w || Descends(parent, parent[v], w))
  }

  /** v is w or lies inside it. */
  predicate Under(parent: map<Wid, Wid>, v: Wid, w: Wid)
  {
    v == w || Descends(parent, v, w)
  }

  lemma {:induction false} DescendsOlder(parent: map<Wid, Wid>, v: Wid, w: Wid)
    requires Descends(parent, v, w)
    ensures w < v
    decreases v
  {
    if parent[v] != w {
      DescendsOlder(parent, parent[v], w);
    }
  }

  /** Containment is transitive. */
  lemma {:induction false} DescendsThrough(parent: map<Wid, Wid>, v: Wid, k: Wid, w: Wid)
    requires Under(parent, v, k) && Descends(parent, k, w)
    ensures Descends(parent, v, w)
    decreases v
  {
    if v != k && parent[v] != k {
      DescendsThrough(parent, parent[v], k, w);
    }
  }

  /** The direct child of w on the way up from v. */
  function KidAbove(parent: map<Wid, Wid>, v: Wid, w: Wid): (a: Wid)
    requires Descends(parent, v, w)
    ensures a in parent && parent[a] == w && a <= v && Under(parent, v, a)
    decreases v
  {
    if parent[v] == w then v else KidAbove(parent, parent[v], w)
  }

  /** Everything that contains a live widget is live. */
  lemma {:induction false} LiveAncestor(t: Tree, v: Wid, a: Wid)
    requires Wf(t) && v in t.live && Under(t.parent, v, a)
    ensures a in t.live
    decreases v
  {
    if v != a {
      LiveAncestor(t, t.parent[v], a);
    }
  }

  /** Nothing inside a destroyed widget is live. */
  lemma DeadInsideDead(t: Tree, v: Wid, a: Wid)
    requires Wf(t) && Under(t.parent, v, a) && a !in t.live
    ensures v !in t.live
  {
    if v in t.live {
      LiveAncestor(t, v, a);
    }
  }

  /** How many containment steps separate v from w. */
  function Depth(parent: map<Wid, Wid>, v: Wid, w: Wid): (d: nat)
    requires Descends(parent, v, w)
    ensures 1 <= d <= v - w
    decreases v
  {
    if parent[v] == w then 1 else 1 + Depth(parent, parent[v], w)
  }

  predicate IsKid(t: Tree, k: Wid, w: Wid)
  {
    k in t.live && k in t.parent && t.parent[k] == w
  }

  function KidsBelow(t: Tree, w: Wid, n: nat): (ks: seq<Wid>)
    ensures forall k: Wid :: k in ks <==> 0 <= k < n && IsKid(t, k, w)
    ensures forall i, j :: 0 <= i < j < |ks| ==> ks[i] < ks[j]
  {
    if n == 0 then []
    else
      var older := KidsBelow(t, w, n - 1);
      assert forall i :: 0 <= i < |older| ==> older[i] in older;
      older + (if IsKid(t, n - 1, w) then [n - 1] else [])
  }

  /** `winfo_children`: the live widgets directly inside w, oldest first. */
  function Kids(t: Tree, w: Wid): (ks: seq<Wid>)
    requires Wf(t)
    ensures forall k: Wid :: k in ks <==> IsKid(t, k, w)
    ensures forall i, j :: 0 <= i < j < |ks| ==> ks[i] < ks[j]
  {
    KidsBelow(t, w, t.next)
  }

  /** Creating a widget inside live widget p, with the given options. Its number is t.next. */
  function Create(t: Tree, p: Wid, opts: Options): (r: Tree)
    requires Wf(t) && p in t.live
    ensures Wf(r) && t.next !in t.live && t.next !in t.parent
    ensures r.live == t.live + {t.next} && r.next == t.next + 1
    ensures r.parent == t.parent[t.next := p]
    ensures r.options == t.options[t.next := opts] && r.content == t.content[t.next := ""]
  {
    Tree(t.live + {t.next}, t.parent[t.next := p], t.next + 1,
         t.options[t.next := opts], t.content[t.next := ""])
  }

  /** The live part of the subtree rooted at w, w included. */
  function Subtree(t: Tree, w: Wid): set<Wid>
  {
    set v | v in t.live && Under(t.parent, v, w)
  }

  /** `destroy`: w and everything inside it stop being live; nothing else changes. */
  function Destroy(t: Tree, w: Wid): (r: Tree)
    requires Wf(t)
    ensures Wf(r)
    ensures forall v :: v in r.live <==> v in t.live && !Under(t.parent, v, w)
    ensures r.parent == t.parent && r.next == t.next
    ensures r.options == t.options && r.content == t.content
  {
    var r := t.(live := t.live - Subtree(t, w));
    assert forall v | v in r.live && v in r.parent :: r.parent[v] in r.live by {
      forall v | v in r.live && v in r.parent
        ensures r.parent[v] in r.live
      {
        if Under(t.parent, t.parent[v], w) {
          assert Descends(t.parent, v, w);
        }
      }
    }
    r
  }

  /** Destroying each widget of ks in turn. */
  function DestroyAll(t: Tree, ks: seq<Wid>): (r: Tree)
    requires Wf(t)
    ensures Wf(r)
    ensures forall v :: v in r.live <==> v in t.live && forall k :: k in ks ==> !Under(t.parent, v, k)
    ensures r.parent == t.parent && r.next == t.next
    ensures r.options == t.options && r.content == t.content
  {
    if ks == [] then t else Destroy(DestroyAll(t, ks[..|ks| - 1]), ks[|ks| - 1])
  }

  /** Everything strictly inside w stops being live; w itself and the rest stay as they were. */
  function DestroyChildren(t: Tree, w: Wid): (r: Tree)
    requires Wf(t)
    ensures Wf(r)
    ensures forall v :: v in r.live <==> v in t.live && !Descends(t.parent, v, w)
    ensures w in r.live <==> w in t.live
    ensures r.parent == t.parent && r.next == t.next
    ensures r.options == t.options && r.content == t.content
  {
    var r := t.(live := t.live - set v | v in t.live && Descends(t.parent, v, w));
    assert !Descends(t.parent, w, w) by {
      if Descends(t.parent, w, w) {
        DescendsOlder(t.parent, w, w);
      }
    }
    assert forall v | v in r.live && v in r.parent :: r.parent[v] in r.live by {
      forall v | v in r.live && v in r.parent
        ensures r.parent[v] in r.live
      {
        assert Descends(t.parent, t.parent[v], w) ==> Descends(t.parent, v, w);
      }
    }
    r
  }

  /** Destroying, one by one, the widgets `winfo_children` lists for w destroys
      exactly everything strictly inside w. */
  lemma TeardownIsDestroyChildren(t: Tree, w: Wid)
    requires Wf(t)
    ensures DestroyAll(t, Kids(t, w)) == DestroyChildren(t, w)
  {
    var ks := Kids(t, w);
    var a, b := DestroyAll(t, ks), DestroyChildren(t, w);
    forall v | v in t.live
      ensures v in a.live <==> v in b.live
    {
      if Descends(t.parent, v, w) {
        var k := KidAbove(t.parent, v, w);
        LiveAncestor(t, v, k);
        assert k in ks && Under(t.parent, v, k);
      } else {
        forall k | k in ks
          ensures !Under(t.parent, v, k)
        {
          if Under(t.parent, v, k) {
            DescendsThrough(t.parent, v, k, w);
          }
        }
      }
    }
    assert a.live == b.live;
  }

  /** A widget that was inside w, and anything inside that widget, is gone once
      w's children are destroyed. */
  lemma StaleInnerWidgetsAreGone(t: Tree, w: Wid, c: Wid, inner: Wid)
    requires Wf(t) && Descends(t.parent, c, w) && Under(t.parent, inner, c)
    ensures c !in DestroyChildren(t, w).live
    ensures inner !in DestroyChildren(t, w).live
  {
    DescendsThrough(t.parent, inner, c, w);
  }

  /** The options a widget currently has (none if it never had any). */
  function OptionsOf(t: Tree, w: Wid): Options
  {
    if w in t.options then t.options[w] else map[]
  }

  /** `configure`: merge opts into w's options (later values win). */
  function Configure(t: Tree, w: Wid, opts: Options): (r: Tree)
    ensures Wf(t) ==> Wf(r)
    ensures r.live == t.live && r.parent == t.parent && r.next == t.next && r.content == t.content
    ensures r.options.Keys == t.options.Keys + {w}
  {
    t.(options := t.options[w := OptionsOf(t, w) + opts])
  }

  /** After `configure`, w has the options it had and the given ones, each given
      option with the given value and each other option with its old value;
      no other widget's options change. */
  lemma ConfigureMerges(t: Tree, w: Wid, opts: Options)
    ensures var r := Configure(t, w, opts);
      && OptionsOf(r, w).Keys == OptionsOf(t, w).Keys + opts.Keys
      && (forall k :: k in opts ==> OptionsOf(r, w)[k] == opts[k])
      && (forall k :: k in OptionsOf(t, w) && k !in opts ==> OptionsOf(r, w)[k] == OptionsOf(t, w)[k])
      && (forall v :: v != w ==> OptionsOf(r, v) == OptionsOf(t, v))
  {
  }

  /** Replacing the whole text of widget w. */
  function SetText(t: Tree, w: Wid, s: string): (r: Tree)
    ensures Wf(t) ==> Wf(r)
    ensures r.live == t.live && r.parent == t.parent && r.next == t.next && r.options == t.options
    ensures r.content.Keys == t.content.Keys + {w} && r.content[w] == s
  {
    t.(content := t.content[w := s])
  }

  /** The widgets one level below a level of the subtree of w are exactly the
      live widgets whose parent is on that level. */
  lemma NextLevel(t: Tree, v: Wid, w: Wid, level: nat)
    requires Wf(t) && v in t.live && 1 <= level
    ensures (v in t.parent && t.parent[v] in t.live && Descends(t.parent, t.parent[v], w)
             && Depth(t.parent, t.parent[v], w) == level)
        <==> (Descends(t.parent, v, w) && Depth(t.parent, v, w) == level + 1)
  {
    if v in t.parent && Descends(t.parent, t.parent[v], w) {
      DescendsOlder(t.parent, t.parent[v], w);
    }
  }

  /** The widget on the way up from v that lies d levels below w. */
  function AncestorAtDepth(parent: map<Wid, Wid>, v: Wid, w: Wid, d: nat): (a: Wid)
    requires Descends(parent, v, w) && 1 <= d <= Depth(parent, v, w)
    ensures Under(parent, v, a) && Descends(parent, a, w) && Depth(parent, a, w) == d
    decreases v
  {
    if Depth(parent, v, w) == d then v else AncestorAtDepth(parent, parent[v], w, d)
  }

  /** The toolkit instance all components of one application share. */
  class Toolkit {
    var tree: Tree

    ghost predicate Valid()
      reads this
    {
      Wf(tree)
    }

    constructor ()
      ensures Valid() && tree == Root()
    {
      tree := Root();
    }

    method NewWidget(p: Wid, opts: Options) returns (w: Wid)
      requires Valid() && p in tree.live
      modifies this
      ensures Valid()
      ensures w == old(tree.next) && tree == Create(old(tree), p, opts)
    {
      w := tree.next;
      tree := Create(tree, p, opts);
    }

    method DestroyWidget(w: Wid)
      requires Valid()
      modifies this
      ensures Valid() && tree == Destroy(old(tree), w)
    {
      tree := Destroy(tree, w);
    }

    /** `destroy` on each widget of ks in turn. */
    method DestroyEach(ks: seq<Wid>)
      requires Valid()
      modifies this
      ensures Valid() && tree == DestroyAll(old(tree), ks)
    {
      ghost var t0 := tree;
      var i := 0;
      while i < |ks|
        invariant 0 <= i <= |ks| && tree == DestroyAll(t0, ks[..i])
      {
        assert ks[..i + 1][..i] == ks[..i];
        DestroyWidget(ks[i]);
        i := i + 1;
      }
      assert ks[..|ks|] == ks;
    }

    method ConfigureWidget(w: Wid, opts: Options)
      requires Valid() && w in tree.live
      modifies this
      ensures Valid() && tree == Configure(old(tree), w, opts)
    {
      tree := Configure(tree, w, opts);
    }

    method SetWidgetText(w: Wid, s: string)
      requires Valid() && w in tree.live
      modifies this
      ensures Valid() && tree == SetText(old(tree), w, s)
    {
      tree := SetText(tree, w, s);
    }
  }
}
