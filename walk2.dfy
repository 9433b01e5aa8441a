/** `walk2`: the pull-based walker. The callback at a node receives a `next`
    closure; each call of `next` walks the next unvisited child with a context
    the callback chooses, or answers `null` once the children are exhausted.
    After the callback returns, a node that has a `children` field and still
    has unvisited children makes the walk throw "iteration incomplete".

    The callback is abstracted by three total functions:
    - `pulls(y, k)`: how many times it calls `next` at a node with payload `y`
      and `k` children (a callback that calls `next` until it answers `null`
      makes `k + 1` calls);
    - `ctx(y, d, rs)`: the context it hands to the next child, given its own
      context `d` and the results `rs` of the children visited so far;
    - `f(y, d, rs)`: the value it returns, given all the child results. */
module PullWalk {
  import opened Trees

  datatype Error = IncompleteIteration

  datatype Result<T> = Success(value: T) | Failure(error: Error)

  /** The payloads of a sequence of result trees. */
  function DataOf<R>(ts: seq<Tree<R>>): (r: seq<R>)
    ensures |r| == |ts| && forall k :: 0 <= k < |ts| ==> r[k] == ts[k].data
  {
    seq(|ts|, k requires 0 <= k < |ts| => ts[k].data)
  }

  function Min(a: nat, b: nat): nat { if a <= b then a else b }

  /** The result of `walk2(x, f, d)`: a failure when some node is left with
      unvisited children, otherwise the tree of callback results, in which
      every node that had a non-empty `children` field keeps only the result
      of its last child. */
  function Walk2Spec<T, R, S>(x: Tree<T>, pulls: (T, nat) -> nat, ctx: (T, S, seq<R>) -> S,
                              f: (T, S, seq<R>) -> R, d: S): Result<Tree<R>>
    decreases x, 1
  {
    var m := Min(pulls(x.data, |Kids(x)|), |Kids(x)|);
    match Visited(x, pulls, ctx, f, d, m)
    case Failure(e) => Failure(e)
    case Success(vs) =>
      var data := f(x.data, d, DataOf(vs));
      if x.Leaf? then Success(Leaf(data))
      else if m < |x.children| then Failure(IncompleteIteration)
      else Success(Node(data, if m == 0 then [] else [vs[m - 1]]))
  }

  /** The walks of the first `n` children of `x`, in order; the context of
      each one is built from the results of those before it. */
  function Visited<T, R, S>(x: Tree<T>, pulls: (T, nat) -> nat, ctx: (T, S, seq<R>) -> S,
                            f: (T, S, seq<R>) -> R, d: S, n: nat): (r: Result<seq<Tree<R>>>)
    requires n <= |Kids(x)|
    ensures r.Success? ==> |r.value| == n
    decreases x, 0, n
  {
    if n == 0 then Success([])
    else
      match Visited(x, pulls, ctx, f, d, n - 1)
      case Failure(e) => Failure(e)
      case Success(vs) =>
        match Walk2Spec(x.children[n - 1], pulls, ctx, f, ctx(x.data, d, DataOf(vs)))
        case Failure(e) => Failure(e)
        case Success(t) => Success(vs + [t])
  }

  /** Every node is pulled at least as often as it has children. */
  ghost predicate Drains<T>(x: Tree<T>, pulls: (T, nat) -> nat)
    decreases x
  {
    && (x.Node? ==> |x.children| <= pulls(x.data, |x.children|))
    && forall k :: 0 <= k < |Kids(x)| ==> Drains(x.children[k], pulls)
  }

  /** The state of the `next` closure of one `walk2` call: the counter `i`
      and the `children` array it writes. */
  class Cursor<T, R> {
    const node: Tree<T>
    var i: nat
    var children: seq<Tree<R>>

    constructor (node: Tree<T>)
      ensures this.node == node && i == 0 && children == []
    {
      this.node := node;
      i := 0;
      children := [];
    }

    /** `next(dd)`: `null` when the node has no children field or all children
        were visited; otherwise walks child `i` with context `dd`, stores the
        result in slot 0 of `children` and advances `i`. */
    method Next<S>(dd: S, pulls: (T, nat) -> nat, ctx: (T, S, seq<R>) -> S,
                   f: (T, S, seq<R>) -> R) returns (r: Result<Option<Tree<R>>>)
      modifies this
      decreases node, 0
      ensures old(i) >= |Kids(node)| ==> r == Success(None) && i == old(i) && children == old(children)
      ensures old(i) < |Kids(node)| ==>
        match Walk2Spec(node.children[old(i)], pulls, ctx, f, dd)
        case Failure(e) => r == Failure(e) && i == old(i) && children == old(children)
        case Success(t) =>
          && r == Success(Some(t)) && i == old(i) + 1
          && children == if old(children) == [] then [t] else old(children)[0 := t]
    {
      if node.Leaf? || i >= |node.children| {
        return Success(None);
      }
      var out := Walk2(node.children[i], pulls, ctx, f, dd);
      if out.Failure? {
        return Failure(out.error);
      }
      children := if |children| == 0 then [out.value] else children[0 := out.value];
      i := i + 1;
      return Success(Some(out.value));
    }
  }

  datatype Option<T> = None | Some(value: T)

  /** `walk2(x, f, d)`: the callback's `pulls` calls of `next`, then its
      result, then the completeness check. */
  method Walk2<T, R, S>(x: Tree<T>, pulls: (T, nat) -> nat, ctx: (T, S, seq<R>) -> S,
                        f: (T, S, seq<R>) -> R, d: S) returns (r: Result<Tree<R>>)
    decreases x, 1
    ensures r == Walk2Spec(x, pulls, ctx, f, d)
  {
    var cur := new Cursor<T, R>(x);
    var results: seq<R> := [];
    ghost var vs: seq<Tree<R>> := [];
    var calls := 0;
    var want := pulls(x.data, |Kids(x)|);
    while calls < want
      invariant calls <= want && Pulled(cur, x, pulls, ctx, f, d, calls, vs, results)
    {
      ghost var before := cur.i;
      var o := cur.Next(ctx(x.data, d, results), pulls, ctx, f);
      if before < |Kids(x)| {
        VisitedStep(x, pulls, ctx, f, d, before, vs, results);
      }
      if o.Failure? {
        VisitedFails(x, pulls, ctx, f, d, cur.i + 1, Min(want, |Kids(x)|));
        return Failure(o.error);
      }
      if o.value.Some? {
        vs := vs + [o.value.value];
        results := results + [o.value.value.data];
      }
      calls := calls + 1;
    }
    var data := f(x.data, d, results);
    if x.Node? {
      if cur.i < |x.children| {
        return Failure(IncompleteIteration);
      }
      return Success(Node(data, cur.children));
    }
    return Success(Leaf(data));
  }

  /** The loop state of `walk2` after `calls` calls of `next`: the cursor
      has walked the first `min(calls, k)` of the `k` children into `vs`,
      whose payloads are `results`, and slot 0 holds the last of them. */
  ghost predicate Pulled<T, R, S>(cur: Cursor<T, R>, x: Tree<T>, pulls: (T, nat) -> nat, ctx: (T, S, seq<R>) -> S,
                                  f: (T, S, seq<R>) -> R, d: S, calls: nat, vs: seq<Tree<R>>, results: seq<R>)
    reads cur
  {
    && cur.node == x && cur.i == Min(calls, |Kids(x)|)
    && Visited(x, pulls, ctx, f, d, cur.i) == Success(vs)
    && |vs| == cur.i && results == DataOf(vs)
    && cur.children == if cur.i == 0 then [] else [vs[cur.i - 1]]
  }

  /** Walking child `n` after the first `n`. */
  lemma VisitedStep<T, R, S>(x: Tree<T>, pulls: (T, nat) -> nat, ctx: (T, S, seq<R>) -> S,
                             f: (T, S, seq<R>) -> R, d: S, n: nat, vs: seq<Tree<R>>, results: seq<R>)
    requires n < |Kids(x)| && Visited(x, pulls, ctx, f, d, n) == Success(vs) && results == DataOf(vs)
    ensures Visited(x, pulls, ctx, f, d, n + 1) ==
      match Walk2Spec(x.children[n], pulls, ctx, f, ctx(x.data, d, results))
      case Failure(e) => Failure(e)
      case Success(t) => Success(vs + [t])
  {
  }

  /** A failure among the first `n` children is a failure among the first `m`. */
  lemma {:induction false} VisitedFails<T, R, S>(x: Tree<T>, pulls: (T, nat) -> nat, ctx: (T, S, seq<R>) -> S,
                                                 f: (T, S, seq<R>) -> R, d: S, n: nat, m: nat)
    requires n <= m <= |Kids(x)|
    requires Visited(x, pulls, ctx, f, d, n).Failure?
    ensures Visited(x, pulls, ctx, f, d, m) == Visited(x, pulls, ctx, f, d, n)
    decreases m - n
  {
    if n < m {
      VisitedFails(x, pulls, ctx, f, d, n, m - 1);
    }
  }

  /** The walk completes exactly when every node is pulled at least as often
      as it has children; otherwise it throws "iteration incomplete". */
  lemma {:induction false} Walk2Completes<T, R, S>(x: Tree<T>, pulls: (T, nat) -> nat, ctx: (T, S, seq<R>) -> S,
                                                   f: (T, S, seq<R>) -> R, d: S)
    ensures Walk2Spec(x, pulls, ctx, f, d).Success? <==> Drains(x, pulls)
    ensures Walk2Spec(x, pulls, ctx, f, d).Failure? ==> Walk2Spec(x, pulls, ctx, f, d).error == IncompleteIteration
    decreases x, 1
  {
    var m := Min(pulls(x.data, |Kids(x)|), |Kids(x)|);
    VisitedCompletes(x, pulls, ctx, f, d, m);
    if m < |Kids(x)| && Visited(x, pulls, ctx, f, d, m).Success? {
      assert !Drains(x, pulls);
    }
    if m == |Kids(x)| && Visited(x, pulls, ctx, f, d, m).Failure? {
      assert !Drains(x, pulls);
    }
  }

  lemma {:induction false} VisitedCompletes<T, R, S>(x: Tree<T>, pulls: (T, nat) -> nat, ctx: (T, S, seq<R>) -> S,
                                                     f: (T, S, seq<R>) -> R, d: S, n: nat)
    requires n <= |Kids(x)|
    ensures Visited(x, pulls, ctx, f, d, n).Success? <==>
      forall k :: 0 <= k < n ==> Drains(x.children[k], pulls)
    ensures Visited(x, pulls, ctx, f, d, n).Failure? ==> Visited(x, pulls, ctx, f, d, n).error == IncompleteIteration
    decreases x, 0, n
  {
    if n > 0 {
      VisitedCompletes(x, pulls, ctx, f, d, n - 1);
      match Visited(x, pulls, ctx, f, d, n - 1)
      case Failure(_) =>
      case Success(vs) =>
        Walk2Completes(x.children[n - 1], pulls, ctx, f, ctx(x.data, d, DataOf(vs)));
    }
  }

  /** A callback that calls `next` fewer times than its node has children
      makes the walk throw. */
  lemma Walk2Incomplete<T, R, S>(x: Tree<T>, pulls: (T, nat) -> nat, ctx: (T, S, seq<R>) -> S,
                                 f: (T, S, seq<R>) -> R, d: S)
    requires x.Node? && pulls(x.data, |x.children|) < |x.children|
    ensures Walk2Spec(x, pulls, ctx, f, d) == Failure(IncompleteIteration)
  {
    Walk2Completes(x, pulls, ctx, f, d);
  }

  /** A callback that calls `next` until it answers `null` (as the layout
      callback does) never makes the walk throw. */
  lemma {:induction false} PullUntilNullDrains<T>(x: Tree<T>)
    ensures Drains(x, (y: T, k: nat) => k + 1)
    decreases x
  {
    forall k | 0 <= k < |Kids(x)|
      ensures Drains(x.children[k], (y: T, k: nat) => k + 1)
    {
      PullUntilNullDrains(x.children[k]);
    }
  }

  /** The k-th result of `vs` is the walk of child k, with the context built
      from the results of children 0..k-1. */
  ghost predicate InOrder<T, R, S>(x: Tree<T>, pulls: (T, nat) -> nat, ctx: (T, S, seq<R>) -> S,
                                   f: (T, S, seq<R>) -> R, d: S, vs: seq<Tree<R>>)
  {
    forall k :: 0 <= k < |vs| && k < |Kids(x)| ==>
      Walk2Spec(x.children[k], pulls, ctx, f, ctx(x.data, d, DataOf(vs[..k]))) == Success(vs[k])
  }

  /** The children are visited strictly in order. */
  lemma {:induction false} VisitedInOrder<T, R, S>(x: Tree<T>, pulls: (T, nat) -> nat, ctx: (T, S, seq<R>) -> S,
                                                   f: (T, S, seq<R>) -> R, d: S, n: nat)
    requires n <= |Kids(x)|
    requires Visited(x, pulls, ctx, f, d, n).Success?
    ensures |Visited(x, pulls, ctx, f, d, n).value| == n
    ensures InOrder(x, pulls, ctx, f, d, Visited(x, pulls, ctx, f, d, n).value)
    decreases n
  {
    if n > 0 {
      var prev := Visited(x, pulls, ctx, f, d, n - 1);
      VisitedInOrder(x, pulls, ctx, f, d, n - 1);
      InOrderStep(x, pulls, ctx, f, d, n - 1, prev.value, Visited(x, pulls, ctx, f, d, n).value);
    }
  }

  lemma InOrderStep<T, R, S>(x: Tree<T>, pulls: (T, nat) -> nat, ctx: (T, S, seq<R>) -> S,
                             f: (T, S, seq<R>) -> R, d: S, n: nat, prev: seq<Tree<R>>, vs: seq<Tree<R>>)
    requires n < |Kids(x)| && Visited(x, pulls, ctx, f, d, n) == Success(prev)
    requires InOrder(x, pulls, ctx, f, d, prev)
    requires Visited(x, pulls, ctx, f, d, n + 1) == Success(vs)
    ensures InOrder(x, pulls, ctx, f, d, vs)
  {
    VisitedStep(x, pulls, ctx, f, d, n, prev, DataOf(prev));
    assert vs[..n] == prev;
    forall k | 0 <= k < n
      ensures vs[..k] == prev[..k] && vs[k] == prev[k]
    {
    }
  }

  /** Shape of a completed walk: the result keeps the kind of node, the
      callback result sits at the root, and a node with children keeps only
      the result of its last child (slot 0 is overwritten on every `next`). */
  lemma WalkResultShape<T, R, S>(x: Tree<T>, pulls: (T, nat) -> nat, ctx: (T, S, seq<R>) -> S,
                                 f: (T, S, seq<R>) -> R, d: S)
    requires Walk2Spec(x, pulls, ctx, f, d).Success?
    ensures var t := Walk2Spec(x, pulls, ctx, f, d).value;
      && t.Leaf? == x.Leaf?
      && |Kids(t)| == (if |Kids(x)| == 0 then 0 else 1)
      && Visited(x, pulls, ctx, f, d, |Kids(x)|).Success?
      && t.data == f(x.data, d, DataOf(Visited(x, pulls, ctx, f, d, |Kids(x)|).value))
      && (|Kids(x)| > 0 ==>
            var vs := Visited(x, pulls, ctx, f, d, |Kids(x)|).value;
            Walk2Spec(x.children[|Kids(x)| - 1], pulls, ctx, f,
                      ctx(x.data, d, DataOf(vs[..|Kids(x)| - 1]))) == Success(t.children[0]))
  {
    Walk2Completes(x, pulls, ctx, f, d);
    if |Kids(x)| > 0 {
      VisitedInOrder(x, pulls, ctx, f, d, |Kids(x)|);
    }
  }
}
