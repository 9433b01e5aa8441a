/** Trees as the component receives them, and the plain pre-order mapper `walk`. */
module Trees {

  /** `tree<T>`: a node with `data` and an optional `children` array.
      `Leaf` is a node without a `children` field; `Node(x, [])` is a node whose
      `children` field is an empty array (the walkers keep the two apart). */
  datatype Tree<T> = Leaf(data: T) | Node(data: T, children: seq<Tree<T>>)

  /** The children a walker iterates over (none for a missing field). */
  function Kids<T>(t: Tree<T>): seq<Tree<T>> {
    if t.Node? then t.children else []
  }

  /** Number of nodes. */
  function Size<T>(t: Tree<T>): nat
    decreases t, 1
  {
    1 + SizeKids(t, |Kids(t)|)
  }

  /** Number of nodes in the first `n` child subtrees of `t`. */
  function SizeKids<T>(t: Tree<T>, n: nat): nat
    requires n <= |Kids(t)|
    decreases t, 0, n
  {
    if n == 0 then 0 else SizeKids(t, n - 1) + Size(t.children[n - 1])
  }

  /** Number of levels (a single node has one). */
  function Height<T>(t: Tree<T>): nat
    decreases t, 1
  {
    1 + HeightKids(t, |Kids(t)|)
  }

  /** Largest height among the first `n` child subtrees of `t`. */
  function HeightKids<T>(t: Tree<T>, n: nat): nat
    requires n <= |Kids(t)|
    decreases t, 0, n
  {
    if n == 0 then 0
    else
      var h := Height(t.children[n - 1]);
      var g := HeightKids(t, n - 1);
      if h < g then g else h
  }

  /** The depth of every node in pre-order (node before children, children in
      order) when the root sits at depth `d`. */
  function PreDepths<T>(t: Tree<T>, d: nat): (r: seq<nat>)
    ensures |r| == Size(t) && r[0] == d
    ensures forall k :: 0 <= k < |r| ==> d <= r[k] < d + Height(t)
    decreases t, 1
  {
    [d] + PreDepthsKids(t, |Kids(t)|, d)
  }

  /** Pre-order depths of the first `n` child subtrees of a node at depth `d`. */
  function PreDepthsKids<T>(t: Tree<T>, n: nat, d: nat): (r: seq<nat>)
    requires n <= |Kids(t)|
    ensures |r| == SizeKids(t, n)
    ensures forall k :: 0 <= k < |r| ==> d < r[k] <= d + HeightKids(t, n)
    decreases t, 0, n
  {
    if n == 0 then []
    else PreDepthsKids(t, n - 1, d) + PreDepths(t.children[n - 1], d + 1)
  }

  /** The depths of the first `n + 1` children follow on from the first `n`. */
  lemma PreDepthsKidsStep<T>(t: Tree<T>, n: nat, n1: nat, d: nat)
    requires n < |Kids(t)| && n1 == n + 1
    ensures PreDepthsKids(t, n1, d) == PreDepthsKids(t, n, d) + PreDepths(t.children[n], d + 1)
  {
  }

  /** Child `n` and the children before it fit inside the node. */
  lemma {:induction false} KidsBounds<T>(t: Tree<T>, n: nat, m: nat)
    requires n < m <= |Kids(t)|
    ensures SizeKids(t, n) + Size(t.children[n]) <= SizeKids(t, m)
    ensures Height(t.children[n]) <= HeightKids(t, m)
    decreases m
  {
    if n + 1 < m {
      KidsBounds(t, n, m - 1);
    }
  }

  /** The node payloads in pre-order. */
  function Preorder<T>(t: Tree<T>): (r: seq<T>)
    ensures |r| == Size(t) && r[0] == t.data
    decreases t, 1
  {
    [t.data] + PreorderKids(t, |Kids(t)|)
  }

  function PreorderKids<T>(t: Tree<T>, n: nat): (r: seq<T>)
    requires n <= |Kids(t)|
    ensures |r| == SizeKids(t, n)
    decreases t, 0, n
  {
    if n == 0 then [] else PreorderKids(t, n - 1) + Preorder(t.children[n - 1])
  }

  /** Two trees of the same shape: same kind of node (with or without a
      `children` field), same number of children, pairwise of the same shape. */
  predicate SameShape<A, B>(a: Tree<A>, b: Tree<B>)
    decreases a
  {
    && a.Leaf? == b.Leaf?
    && |Kids(a)| == |Kids(b)|
    && forall k :: 0 <= k < |Kids(a)| ==> SameShape(a.children[k], b.children[k])
  }

  /** `walk(x, f, d)`: `f(data, depth)` on every node, root at depth `d`,
      children at depth + 1, producing a tree of the same shape. */
  function Walk<T, S>(t: Tree<T>, f: (T, nat) -> S, d: nat): Tree<S>
    decreases t
  {
    match t
    case Leaf(x) => Leaf(f(x, d))
    case Node(x, cs) => Node(f(x, d), seq(|cs|, k requires 0 <= k < |cs| => Walk(cs[k], f, d + 1)))
  }

  /** The mapped tree has the input's shape. */
  lemma {:induction false} WalkShape<T, S>(t: Tree<T>, f: (T, nat) -> S, d: nat)
    ensures SameShape(t, Walk(t, f, d))
    decreases t
  {
    match t
    case Leaf(_) =>
    case Node(x, cs) =>
      forall k | 0 <= k < |cs|
        ensures SameShape(cs[k], Walk(t, f, d).children[k])
      {
        WalkShape(cs[k], f, d + 1);
      }
  }

  /** Same shape means the same number of nodes. */
  lemma {:induction false} SameShapeSize<A, B>(a: Tree<A>, b: Tree<B>)
    requires SameShape(a, b)
    ensures Size(a) == Size(b) && Height(a) == Height(b)
    decreases a, 1
  {
    SameShapeSizeKids(a, b, |Kids(a)|);
  }

  lemma {:induction false} SameShapeSizeKids<A, B>(a: Tree<A>, b: Tree<B>, n: nat)
    requires SameShape(a, b) && n <= |Kids(a)|
    ensures SizeKids(a, n) == SizeKids(b, n) && HeightKids(a, n) == HeightKids(b, n)
    decreases a, 0, n
  {
    if n > 0 {
      SameShapeSizeKids(a, b, n - 1);
      SameShapeSize(a.children[n - 1], b.children[n - 1]);
    }
  }

  /** Pre-order reading of the mapped tree: the k-th node of the result holds
      `f` applied to the k-th node of the input at that node's depth. This is
      the order in which a side-effecting `f` runs (node before children). */
  lemma {:induction false} WalkPreorder<T, S>(t: Tree<T>, f: (T, nat) -> S, d: nat)
    ensures Size(Walk(t, f, d)) == Size(t)
    ensures forall k :: 0 <= k < Size(t) ==>
      Preorder(Walk(t, f, d))[k] == f(Preorder(t)[k], PreDepths(t, d)[k])
    decreases t, 1
  {
    WalkShape(t, f, d);
    SameShapeSize(t, Walk(t, f, d));
    WalkPreorderKids(t, f, d, |Kids(t)|);
  }

  lemma {:induction false} WalkPreorderKids<T, S>(t: Tree<T>, f: (T, nat) -> S, d: nat, n: nat)
    requires n <= |Kids(t)|
    ensures n <= |Kids(Walk(t, f, d))|
    ensures Mapped(f, PreorderKids(Walk(t, f, d), n), PreorderKids(t, n), PreDepthsKids(t, n, d))
    decreases t, 0, n
  {
    if n > 0 {
      var w, c := Walk(t, f, d), t.children[n - 1];
      WalkPreorderKids(t, f, d, n - 1);
      assert w.children[n - 1] == Walk(c, f, d + 1);
      WalkPreorder(c, f, d + 1);
      MappedJoin(f, PreorderKids(w, n - 1), PreorderKids(t, n - 1), PreDepthsKids(t, n - 1, d),
                 Preorder(Walk(c, f, d + 1)), Preorder(c), PreDepths(c, d + 1));
    }
  }

  /** `ws` is `f` applied pointwise to the pairs of `ts` and `ds`. */
  ghost predicate Mapped<T, S>(f: (T, nat) -> S, ws: seq<S>, ts: seq<T>, ds: seq<nat>)
  {
    |ws| == |ts| == |ds| && forall k :: 0 <= k < |ws| ==> ws[k] == f(ts[k], ds[k])
  }

  lemma MappedJoin<T, S>(f: (T, nat) -> S, ws: seq<S>, ts: seq<T>, ds: seq<nat>,
                         ws': seq<S>, ts': seq<T>, ds': seq<nat>)
    requires Mapped(f, ws, ts, ds) && Mapped(f, ws', ts', ds')
    ensures Mapped(f, ws + ws', ts + ts', ds + ds')
  {
  }
}
