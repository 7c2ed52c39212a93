/** Tag-filtered collection of components over a scene graph.

    A game object is a node of a tree: it has a tag, the component that the
    engine's `GetComponent<T>()` would hand back for it (the type parameter
    `C`, which may itself stand for "nothing attached"), and its children in
    the order the transform enumerates them. Scene graphs are acyclic by
    construction, which an inductive datatype captures. */
module TagSearch {

  datatype GameObject<C> = GameObject(tag: string, component: C, children: seq<GameObject<C>>)

  /** Every game object of the subtree rooted at `g`, in pre-order: the root,
      then the subtree of each child in child order. */
  function PreOrder<C>(g: GameObject<C>): (r: seq<GameObject<C>>)
    ensures |r| > 0 && r[0] == g
    decreases g, 1
  {
    [g] + PreOrderAll(g.children)
  }

  /** The pre-orders of a list of sibling subtrees, concatenated. */
  function PreOrderAll<C>(gs: seq<GameObject<C>>): (r: seq<GameObject<C>>)
    decreases gs, 0
  {
    if gs == [] then [] else PreOrder(gs[0]) + PreOrderAll(gs[1..])
  }

  /** The components of the game objects in `gs` that carry `tag`, in order. */
  function ComponentsWithTag<C>(gs: seq<GameObject<C>>, tag: string): (r: seq<C>)
    ensures |r| <= |gs|
  {
    if gs == [] then []
    else (if gs[0].tag == tag then [gs[0].component] else []) + ComponentsWithTag(gs[1..], tag)
  }

  /** The number of game objects in the subtree of `g` that carry `tag`. */
  function CountTagged<C>(g: GameObject<C>, tag: string): nat
    decreases g, 1
  {
    (if g.tag == tag then 1 else 0) + CountTaggedAll(g.children, tag)
  }

  function CountTaggedAll<C>(gs: seq<GameObject<C>>, tag: string): nat
    decreases gs, 0
  {
    if gs == [] then 0 else CountTagged(gs[0], tag) + CountTaggedAll(gs[1..], tag)
  }

  /** The collector's recursion written as a function: the root's component
      when the root carries `tag`, followed by the results of each child in
      child order. It is the intermediate the lemmas below reason about; what
      the result means is stated against `PreOrder` and `CountTagged`
      (`CollectIsFilteredPreOrder`, `CollectLength`). */
  function Collect<C>(g: GameObject<C>, tag: string): seq<C>
    decreases g, 1
  {
    (if g.tag == tag then [g.component] else []) + CollectAll(g.children, tag)
  }

  function CollectAll<C>(gs: seq<GameObject<C>>, tag: string): seq<C>
    decreases gs, 0
  {
    if gs == [] then [] else Collect(gs[0], tag) + CollectAll(gs[1..], tag)
  }

  /** The collector walks the tree, appending the root's component when its
      tag matches and then the results of each child, recursively. */
  method GetComponentsInChildrenWithTag<C>(g: GameObject<C>, tag: string) returns (results: seq<C>)
    ensures results == Collect(g, tag)
    ensures results == ComponentsWithTag(PreOrder(g), tag)
    ensures |results| == CountTagged(g, tag)
    decreases g
  {
    results := [];
    if g.tag == tag {
      results := results + [g.component];
    }
    for k := 0 to |g.children|
      invariant results == (if g.tag == tag then [g.component] else []) + CollectAll(g.children[..k], tag)
    {
      var child := g.children[k];
      assert child in g.children;
      var sub := GetComponentsInChildrenWithTag(child, tag);
      CollectAllSnoc(g.children[..k], child, tag);
      assert g.children[..k + 1] == g.children[..k] + [child];
      results := results + sub;
    }
    assert g.children[..|g.children|] == g.children;
    CollectIsFilteredPreOrder(g, tag);
    CollectLength(g, tag);
  }

  /** Collecting over one more sibling appends that sibling's results. */
  lemma {:induction false} CollectAllSnoc<C>(gs: seq<GameObject<C>>, g: GameObject<C>, tag: string)
    ensures CollectAll(gs + [g], tag) == CollectAll(gs, tag) + Collect(g, tag)
  {
    if gs == [] {
      assert [g][1..] == [];
    } else {
      assert (gs + [g])[1..] == gs[1..] + [g];
      CollectAllSnoc(gs[1..], g, tag);
    }
  }

  /** Filtering distributes over concatenation. */
  lemma {:induction false} ComponentsWithTagAppend<C>(a: seq<GameObject<C>>, b: seq<GameObject<C>>, tag: string)
    ensures ComponentsWithTag(a + b, tag) == ComponentsWithTag(a, tag) + ComponentsWithTag(b, tag)
  {
    if a == [] {
      assert a + b == b;
    } else {
      assert (a + b)[1..] == a[1..] + b;
      ComponentsWithTagAppend(a[1..], b, tag);
    }
  }

  /** The collector's result is the pre-order list of the subtree's game
      objects, filtered by tag, mapped to their components: one entry per
      matching node, in pre-order. */
  lemma {:induction false} CollectIsFilteredPreOrder<C>(g: GameObject<C>, tag: string)
    ensures Collect(g, tag) == ComponentsWithTag(PreOrder(g), tag)
    decreases g, 1
  {
    ComponentsWithTagAppend([g], PreOrderAll(g.children), tag);
    assert [g][1..] == [];
    CollectAllIsFilteredPreOrder(g.children, tag);
  }

  lemma {:induction false} CollectAllIsFilteredPreOrder<C>(gs: seq<GameObject<C>>, tag: string)
    ensures CollectAll(gs, tag) == ComponentsWithTag(PreOrderAll(gs), tag)
    decreases gs, 0
  {
    if gs != [] {
      CollectIsFilteredPreOrder(gs[0], tag);
      CollectAllIsFilteredPreOrder(gs[1..], tag);
      ComponentsWithTagAppend(PreOrder(gs[0]), PreOrderAll(gs[1..]), tag);
    }
  }

  /** The collector returns exactly one entry per node that carries `tag`. */
  lemma {:induction false} CollectLength<C>(g: GameObject<C>, tag: string)
    ensures |Collect(g, tag)| == CountTagged(g, tag)
    decreases g, 1
  {
    CollectAllLength(g.children, tag);
  }

  lemma {:induction false} CollectAllLength<C>(gs: seq<GameObject<C>>, tag: string)
    ensures |CollectAll(gs, tag)| == CountTaggedAll(gs, tag)
    decreases gs, 0
  {
    if gs != [] {
      CollectLength(gs[0], tag);
      CollectAllLength(gs[1..], tag);
    }
  }

  /** When the root carries `tag`, its own component comes first. */
  lemma RootFirst<C>(g: GameObject<C>, tag: string)
    requires g.tag == tag
    ensures |Collect(g, tag)| > 0 && Collect(g, tag)[0] == g.component
  {
  }

  /** The results of the `k`-th child sit, as one contiguous block, right
      after the root's entry and the results of the children before it. */
  lemma {:induction false} ChildBlock<C>(g: GameObject<C>, tag: string, k: nat)
    requires k < |g.children|
    ensures var before := (if g.tag == tag then 1 else 0) + |CollectAll(g.children[..k], tag)|;
      var block := Collect(g.children[k], tag);
      before + |block| <= |Collect(g, tag)| &&
      Collect(g, tag)[before..before + |block|] == block
  {
    CollectAllSplit(g.children, k, tag);
  }

  /** Collecting over siblings splits at any position. */
  lemma {:induction false} CollectAllSplit<C>(gs: seq<GameObject<C>>, k: nat, tag: string)
    requires k < |gs|
    ensures CollectAll(gs, tag) == CollectAll(gs[..k], tag) + Collect(gs[k], tag) + CollectAll(gs[k + 1..], tag)
  {
    if k == 0 {
      assert gs[..0] == [];
    } else {
      CollectAllSplit(gs[1..], k - 1, tag);
      assert gs[1..][..k - 1] == gs[..k][1..];
      assert gs[1..][k - 1] == gs[k];
      assert gs[1..][k..] == gs[k + 1..];
    }
  }

  /** A component is in the filtered list exactly when some game object of
      the list carries `tag` and has that component. */
  lemma {:induction false} ComponentsWithTagMembers<C>(gs: seq<GameObject<C>>, tag: string, c: C)
    ensures c in ComponentsWithTag(gs, tag) <==> exists x :: x in gs && x.tag == tag && x.component == c
  {
    if gs != [] {
      ComponentsWithTagMembers(gs[1..], tag, c);
      assert forall x :: x in gs <==> x == gs[0] || x in gs[1..];
    }
  }

  /** Every node of the subtree that carries `tag` has its component in the
      result, and every entry of the result comes from such a node. */
  lemma CollectMembers<C>(g: GameObject<C>, tag: string, c: C)
    ensures c in Collect(g, tag) <==> exists x :: x in PreOrder(g) && x.tag == tag && x.component == c
  {
    CollectIsFilteredPreOrder(g, tag);
    ComponentsWithTagMembers(PreOrder(g), tag, c);
  }

  /** The result is empty exactly when no node of the subtree carries `tag`. */
  lemma EmptyIffNoneTagged<C>(g: GameObject<C>, tag: string)
    ensures Collect(g, tag) == [] <==> CountTagged(g, tag) == 0
  {
    CollectLength(g, tag);
  }
}
