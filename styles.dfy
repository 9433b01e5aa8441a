/** The first effect of `BoxTree` (index.tsx:186-198): one `walk` over the
    input tree gathers every label and the rectangle and text style of every
    node, in pre-order. A style is an object of SVG attributes, merged by
    object spread: later sources override earlier ones key by key, and a
    missing object adds nothing. The attribute values are opaque here (`V`). */
module Styles {
  import opened Trees

  datatype Option<X> = None | Some(value: X)

  /** `{...base, ...top}`, where `top` may be undefined. */
  function Spread<V>(base: map<string, V>, top: Option<map<string, V>>): map<string, V> {
    if top.Some? then base + top.value else base
  }

  /** The payload of a node, as far as this effect reads it (`caption` is
      its `label` field). */
  datatype BoxProps<V> = BoxProps(caption: string, rectProps: Option<map<string, V>>, textProps: Option<map<string, V>>)

  /** The style of a node: the built-in defaults, overridden by the
      component's `global` style, overridden by the node's `own` style. An
      attribute is present when one of the three sets it, and takes the
      value of the last one that does. */
  lemma Precedence<V>(builtin: map<string, V>, global: Option<map<string, V>>, own: Option<map<string, V>>, key: string)
    ensures var r := Spread(Spread(builtin, global), own);
      && (key in r <==> key in builtin || (global.Some? && key in global.value) || (own.Some? && key in own.value))
      && (own.Some? && key in own.value ==> r[key] == own.value[key])
      && (!(own.Some? && key in own.value) && global.Some? && key in global.value ==> r[key] == global.value[key])
      && (!(own.Some? && key in own.value) && !(global.Some? && key in global.value) && key in builtin ==>
            r[key] == builtin[key])
  {
  }

  /** The labels of the nodes `xs`. */
  function Labels<V>(xs: seq<BoxProps<V>>): (r: seq<string>)
    ensures |r| == |xs|
  {
    seq(|xs|, k requires 0 <= k < |xs| => xs[k].caption)
  }

  /** The rectangle styles of the nodes `xs` over the defaults `d`. */
  function RectStyles<V>(xs: seq<BoxProps<V>>, d: map<string, V>): (r: seq<map<string, V>>)
    ensures |r| == |xs|
  {
    seq(|xs|, k requires 0 <= k < |xs| => Spread(d, xs[k].rectProps))
  }

  /** The text styles of the nodes `xs` over the defaults `d`. */
  function TextStyles<V>(xs: seq<BoxProps<V>>, d: map<string, V>): (r: seq<map<string, V>>)
    ensures |r| == |xs|
  {
    seq(|xs|, k requires 0 <= k < |xs| => Spread(d, xs[k].textProps))
  }

  /** Gathering two runs of nodes one after the other. */
  lemma GatherConcat<V>(xs: seq<BoxProps<V>>, ys: seq<BoxProps<V>>, dr: map<string, V>, dt: map<string, V>)
    ensures Labels(xs + ys) == Labels(xs) + Labels(ys)
    ensures RectStyles(xs + ys, dr) == RectStyles(xs, dr) + RectStyles(ys, dr)
    ensures TextStyles(xs + ys, dt) == TextStyles(xs, dt) + TextStyles(ys, dt)
  {
    assert Labels(xs + ys) == Labels(xs) + Labels(ys);
    assert RectStyles(xs + ys, dr) == RectStyles(xs, dr) + RectStyles(ys, dr);
    assert TextStyles(xs + ys, dt) == TextStyles(xs, dt) + TextStyles(ys, dt);
  }

  /** One more child: the nodes gathered before child `n` of `t` (from `l0`,
      `r0`, `s0` to `l`, `r`, `s`) followed by child `n`'s subtree (to `l'`,
      `r'`, `s'`) are the nodes before child `n + 1`. */
  lemma KidGathered<V>(t: Tree<BoxProps<V>>, n: nat, dr: map<string, V>, dt: map<string, V>,
                       l0: seq<string>, r0: seq<map<string, V>>, s0: seq<map<string, V>>,
                       l: seq<string>, r: seq<map<string, V>>, s: seq<map<string, V>>,
                       l': seq<string>, r': seq<map<string, V>>, s': seq<map<string, V>>)
    requires n < |Kids(t)|
    requires l == l0 + Labels([t.data] + PreorderKids(t, n))
    requires r == r0 + RectStyles([t.data] + PreorderKids(t, n), dr)
    requires s == s0 + TextStyles([t.data] + PreorderKids(t, n), dt)
    requires l' == l + Labels(Preorder(t.children[n])) && r' == r + RectStyles(Preorder(t.children[n]), dr)
    requires s' == s + TextStyles(Preorder(t.children[n]), dt)
    ensures l' == l0 + Labels([t.data] + PreorderKids(t, n + 1))
    ensures r' == r0 + RectStyles([t.data] + PreorderKids(t, n + 1), dr)
    ensures s' == s0 + TextStyles([t.data] + PreorderKids(t, n + 1), dt)
  {
    var xs, ys := [t.data] + PreorderKids(t, n), Preorder(t.children[n]);
    assert xs + ys == [t.data] + PreorderKids(t, n + 1);
    GatherConcat(xs, ys, dr, dt);
    Extend(l0, Labels(xs), Labels(ys), l, l');
    Extend(r0, RectStyles(xs, dr), RectStyles(ys, dr), r, r');
    Extend(s0, TextStyles(xs, dt), TextStyles(ys, dt), s, s');
  }

  lemma Extend<X>(a0: seq<X>, xs: seq<X>, ys: seq<X>, a: seq<X>, a': seq<X>)
    requires a == a0 + xs && a' == a + ys
    ensures a' == a0 + (xs + ys)
  {
  }

  /** The arrays the effect pushes to: `lbls`, `RECT_PROPS` and
      `TEXT_PROPS`, with the two merged defaults. */
  class Gather<V> {
    const rectDefault: map<string, V>
    const textDefault: map<string, V>
    var labels: seq<string>
    var rects: seq<map<string, V>>
    var texts: seq<map<string, V>>

    constructor (rectDefault: map<string, V>, textDefault: map<string, V>)
      ensures this.rectDefault == rectDefault && this.textDefault == textDefault
      ensures labels == [] && rects == [] && texts == []
    {
      this.rectDefault, this.textDefault := rectDefault, textDefault;
      labels, rects, texts := [], [], [];
    }

    /** The arrays hold `l0`, `r0`, `s0` followed by what the nodes `xs`
        pushed. */
    ghost predicate Pushed(xs: seq<BoxProps<V>>, l0: seq<string>, r0: seq<map<string, V>>, s0: seq<map<string, V>>)
      reads this
    {
      && labels == l0 + Labels(xs)
      && rects == r0 + RectStyles(xs, rectDefault)
      && texts == s0 + TextStyles(xs, textDefault)
    }

    /** `walk` with the gathering callback from node `t`: the node's label
        and styles are pushed, then its children are walked in order. */
    method Visit(t: Tree<BoxProps<V>>)
      modifies this
      decreases t, 1
      ensures labels == old(labels) + Labels(Preorder(t))
      ensures rects == old(rects) + RectStyles(Preorder(t), rectDefault)
      ensures texts == old(texts) + TextStyles(Preorder(t), textDefault)
    {
      ghost var l0, r0, s0 := labels, rects, texts;
      labels := labels + [t.data.caption];
      rects := rects + [Spread(rectDefault, t.data.rectProps)];
      texts := texts + [Spread(textDefault, t.data.textProps)];
      var n := 0;
      while n < |Kids(t)|
        invariant n <= |Kids(t)| && Pushed([t.data] + PreorderKids(t, n), l0, r0, s0)
      {
        VisitKid(t, n, l0, r0, s0);
        n := n + 1;
      }
    }

    /** One turn of `children.map`: the walk of child `n`. */
    method VisitKid(t: Tree<BoxProps<V>>, n: nat, ghost l0: seq<string>, ghost r0: seq<map<string, V>>,
                    ghost s0: seq<map<string, V>>)
      requires n < |Kids(t)| && Pushed([t.data] + PreorderKids(t, n), l0, r0, s0)
      modifies this
      decreases t, 0
      ensures Pushed([t.data] + PreorderKids(t, n + 1), l0, r0, s0)
    {
      ghost var l, r, s := labels, rects, texts;
      Visit(t.children[n]);
      KidGathered(t, n, rectDefault, textDefault, l0, r0, s0, l, r, s, labels, rects, texts);
    }
  }

  /** The effect's gathering pass: the defaults are merged once, then one
      label, one rectangle style and one text style per node, in pre-order,
      each with the node's own style over the merged defaults. */
  method Collect<V>(t: Tree<BoxProps<V>>, builtinRect: map<string, V>, globalRect: Option<map<string, V>>,
                    builtinText: map<string, V>, globalText: Option<map<string, V>>)
    returns (labels: seq<string>, rects: seq<map<string, V>>, texts: seq<map<string, V>>)
    ensures |labels| == Size(t) && |rects| == Size(t) && |texts| == Size(t)
    ensures forall k :: 0 <= k < Size(t) ==>
      && labels[k] == Preorder(t)[k].caption
      && rects[k] == Spread(Spread(builtinRect, globalRect), Preorder(t)[k].rectProps)
      && texts[k] == Spread(Spread(builtinText, globalText), Preorder(t)[k].textProps)
  {
    var g := new Gather(Spread(builtinRect, globalRect), Spread(builtinText, globalText));
    g.Visit(t);
    labels, rects, texts := g.labels, g.rects, g.texts;
  }
}
