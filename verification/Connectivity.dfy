/** Paths through a finite set of nodes, and the components they cut it into. */
module Connectivity {
  // The hole labelling of the texture atlas, the mesh islands, the wall-boundary clusters
  // and the import closure each supply their own adjacency, symmetric only where a lemma
  // says so.

  ghost predicate IsPath<T(!new)>(adj: (T, T) -> bool, nodes: set<T>, p: seq<T>)
  {
    && |p| > 0
    && (forall i :: 0 <= i < |p| ==> p[i] in nodes)
    && (forall i :: 0 < i < |p| ==> adj(p[i-1], p[i]))
  }

  ghost predicate Joins<T(!new)>(adj: (T, T) -> bool, nodes: set<T>, p: seq<T>, a: T, b: T)
  {
    IsPath(adj, nodes, p) && p[0] == a && p[|p|-1] == b
  }

  /** `b` can be reached from `a` without leaving `nodes`. */
  ghost predicate Connected<T(!new)>(adj: (T, T) -> bool, nodes: set<T>, a: T, b: T)
  {
    exists p: seq<T> :: Joins(adj, nodes, p, a, b)
  }

  ghost function Component<T(!new)>(adj: (T, T) -> bool, nodes: set<T>, a: T): set<T>
  {
    set u | u in nodes && Connected(adj, nodes, a, u)
  }

  ghost predicate Symmetric<T(!new)>(adj: (T, T) -> bool)
  {
    forall a, b :: adj(a, b) ==> adj(b, a)
  }

  /** No edge of the node set leaves `x`. */
  ghost predicate Closed<T(!new)>(adj: (T, T) -> bool, nodes: set<T>, x: set<T>)
  {
    forall u, v :: u in x && u in nodes && v in nodes && adj(u, v) ==> v in x
  }

  lemma ConnectedSelf<T(!new)>(adj: (T, T) -> bool, nodes: set<T>, a: T)
    requires a in nodes
    ensures Connected(adj, nodes, a, a)
  {
    assert Joins(adj, nodes, [a], a, a);
  }

  lemma ConnectedStep<T(!new)>(adj: (T, T) -> bool, nodes: set<T>, a: T, b: T, c: T)
    requires Connected(adj, nodes, a, b) && adj(b, c) && c in nodes
    ensures Connected(adj, nodes, a, c)
  {
    var p: seq<T> :| Joins(adj, nodes, p, a, b);
    assert Joins(adj, nodes, p + [c], a, c);
  }

  lemma ConnectedPrepend<T(!new)>(adj: (T, T) -> bool, nodes: set<T>, a: T, b: T, c: T)
    requires a in nodes && adj(a, b) && Connected(adj, nodes, b, c)
    ensures Connected(adj, nodes, a, c)
  {
    var p: seq<T> :| Joins(adj, nodes, p, b, c);
    var q := [a] + p;
    assert forall i :: 0 < i < |q| ==> q[i] == p[i-1];
    assert Joins(adj, nodes, q, a, c);
  }

  /** A path that starts in a closed set ends in it: the one induction on paths. */
  lemma {:induction false} PathStaysInside<T(!new)>(adj: (T, T) -> bool, nodes: set<T>, p: seq<T>, x: set<T>)
    requires IsPath(adj, nodes, p) && Closed(adj, nodes, x) && p[0] in x
    ensures p[|p|-1] in x
    decreases |p|
  {
    if |p| > 1 {
      var q := p[..|p|-1];
      PathStaysInside(adj, nodes, q, x);
      assert adj(p[|p|-2], p[|p|-1]);
    }
  }

  lemma ConnectedStaysInside<T(!new)>(adj: (T, T) -> bool, nodes: set<T>, a: T, b: T, x: set<T>)
    requires Connected(adj, nodes, a, b) && Closed(adj, nodes, x) && a in x
    ensures b in x
  {
    var p: seq<T> :| Joins(adj, nodes, p, a, b);
    PathStaysInside(adj, nodes, p, x);
  }

  lemma ConnectedInNodes<T(!new)>(adj: (T, T) -> bool, nodes: set<T>, a: T, b: T)
    requires Connected(adj, nodes, a, b)
    ensures a in nodes && b in nodes
  {
  }

  lemma ComponentClosed<T(!new)>(adj: (T, T) -> bool, nodes: set<T>, a: T)
    ensures Closed(adj, nodes, Component(adj, nodes, a))
  {
    forall u, v | u in Component(adj, nodes, a) && v in nodes && adj(u, v)
      ensures v in Component(adj, nodes, a)
    {
      ConnectedStep(adj, nodes, a, u, v);
    }
  }

  /** The component is the least closed set holding its seed. */
  lemma ComponentLeast<T(!new)>(adj: (T, T) -> bool, nodes: set<T>, a: T, x: set<T>)
    requires a in x && Closed(adj, nodes, x)
    ensures Component(adj, nodes, a) <= x
  {
    forall u | u in Component(adj, nodes, a)
      ensures u in x
    {
      ConnectedStaysInside(adj, nodes, a, u, x);
    }
  }

  lemma ConnectedTransitive<T(!new)>(adj: (T, T) -> bool, nodes: set<T>, a: T, b: T, c: T)
    requires Connected(adj, nodes, a, b) && Connected(adj, nodes, b, c)
    ensures Connected(adj, nodes, a, c)
  {
    ComponentClosed(adj, nodes, a);
    ConnectedStaysInside(adj, nodes, b, c, Component(adj, nodes, a));
  }

  lemma ConnectedSymmetric<T(!new)>(adj: (T, T) -> bool, nodes: set<T>, a: T, b: T)
    requires Symmetric(adj) && Connected(adj, nodes, a, b)
    ensures Connected(adj, nodes, b, a)
  {
    var x := set u | u in nodes && Connected(adj, nodes, u, a);
    ConnectedSelf(adj, nodes, a);
    forall u, v | u in x && v in nodes && adj(u, v)
      ensures v in x
    {
      ConnectedPrepend(adj, nodes, v, u, a);
    }
    ConnectedStaysInside(adj, nodes, a, b, x);
  }

  /** Fewer nodes never connect more. */
  lemma ConnectedMonotone<T(!new)>(adj: (T, T) -> bool, fewer: set<T>, nodes: set<T>, a: T, b: T)
    requires fewer <= nodes && Connected(adj, fewer, a, b)
    ensures Connected(adj, nodes, a, b)
  {
    var p: seq<T> :| Joins(adj, fewer, p, a, b);
    assert Joins(adj, nodes, p, a, b);
  }

  /** Fewer edges never connect more. */
  lemma ConnectedMoreEdges<T(!new)>(adj: (T, T) -> bool, more: (T, T) -> bool, nodes: set<T>, a: T, b: T)
    requires (forall x, y :: adj(x, y) ==> more(x, y)) && Connected(adj, nodes, a, b)
    ensures Connected(more, nodes, a, b)
  {
    var p: seq<T> :| Joins(adj, nodes, p, a, b);
    assert Joins(more, nodes, p, a, b);
  }

  lemma ComponentsEqual<T(!new)>(adj: (T, T) -> bool, nodes: set<T>, a: T, b: T)
    requires Symmetric(adj) && Connected(adj, nodes, a, b)
    ensures Component(adj, nodes, a) == Component(adj, nodes, b)
  {
    ConnectedSymmetric(adj, nodes, a, b);
    forall u | u in nodes
      ensures Connected(adj, nodes, a, u) <==> Connected(adj, nodes, b, u)
    {
      if Connected(adj, nodes, b, u) { ConnectedTransitive(adj, nodes, a, b, u); }
      if Connected(adj, nodes, a, u) { ConnectedTransitive(adj, nodes, b, a, u); }
    }
  }

  /** Two components are equal or disjoint. */
  lemma ComponentsPartition<T(!new)>(adj: (T, T) -> bool, nodes: set<T>, a: T, b: T)
    requires Symmetric(adj)
    ensures Component(adj, nodes, a) == Component(adj, nodes, b)
         || Component(adj, nodes, a) !! Component(adj, nodes, b)
  {
    if u :| u in Component(adj, nodes, a) && u in Component(adj, nodes, b) {
      ComponentsEqual(adj, nodes, a, u);
      ComponentsEqual(adj, nodes, b, u);
    }
  }

  /** Inside fewer nodes a component can only shrink. */
  lemma ComponentShrinks<T(!new)>(adj: (T, T) -> bool, fewer: set<T>, nodes: set<T>, a: T)
    requires fewer <= nodes
    ensures Component(adj, fewer, a) <= Component(adj, nodes, a)
  {
    forall u | u in Component(adj, fewer, a)
      ensures u in Component(adj, nodes, a)
    {
      ConnectedMonotone(adj, fewer, nodes, a, u);
    }
  }

  /** A component none of whose nodes is removed survives the removal unchanged. */
  lemma ComponentSurvives<T(!new)>(adj: (T, T) -> bool, fewer: set<T>, nodes: set<T>, a: T)
    requires fewer <= nodes && a in nodes && Component(adj, nodes, a) <= fewer
    ensures Component(adj, fewer, a) == Component(adj, nodes, a)
  {
    ComponentShrinks(adj, fewer, nodes, a);
    var x := Component(adj, fewer, a);
    ConnectedSelf(adj, nodes, a);
    ConnectedSelf(adj, fewer, a);
    ComponentClosed(adj, fewer, a);
    forall u, v | u in x && v in nodes && adj(u, v)
      ensures v in x
    {
      ComponentClosed(adj, nodes, a);
    }
    ComponentLeast(adj, nodes, a, x);
  }
}
