/** Vertex-connectivity islands by explicit-stack flood fill
    (scripts/ai-pipeline/prop_cleanup.py `_components`). */
module MeshIslands {
  import opened Basics
  import opened Connectivity

  datatype Edge = Edge(a: nat, b: nat)

  datatype Triangle = Triangle(a: nat, b: nat, c: nat)

  datatype Mesh = Mesh(verts: nat, edges: seq<Edge>, faces: seq<Triangle>)
  {
    /** Indices in range and no degenerate edge or face, as BMesh guarantees. */
    ghost predicate Valid()
    {
      && (forall e :: e in edges ==> e.a < verts && e.b < verts && e.a != e.b)
      && (forall f :: f in faces ==> f.a < verts && f.b < verts && f.c < verts && f.a != f.b && f.b != f.c && f.a != f.c)
    }
  }

  ghost predicate Linked(m: Mesh, u: nat, v: nat)
  {
    JoinedBy(m.edges, u, v)
  }

  ghost function Link(m: Mesh): (nat, nat) -> bool { (u: nat, v: nat) => Linked(m, u, v) }

  function Below(n: nat): (r: set<nat>)
    ensures forall v: nat :: v in r <==> v < n
  {
    if n == 0 then {} else Below(n-1) + {n-1}
  }

  function Verts(m: Mesh): set<nat> { Below(m.verts) }

  /** The island of a vertex. */
  ghost function IslandOf(m: Mesh, v: nat): set<nat> { Component(Link(m), Verts(m), v) }

  function ToSet(s: seq<nat>): set<nat> { set v | v in s }

  lemma LinkSymmetric(m: Mesh)
    ensures Symmetric(Link(m))
  {
  }

  // ---- One island ----

  /** Mid-flood: `island` is distinct, new, and part of the seed's island, and every
      vertex of it whose links are not all seen is still on the stack. */
  ghost predicate Flooding(m: Mesh, seed: nat, before: set<nat>, seen: set<nat>, island: seq<nat>, stack: seq<nat>)
  {
    && seen == before + ToSet(island) && before !! ToSet(island)
    && Distinct(island) && seed in island
    && ToSet(island) <= IslandOf(m, seed)
    && ToSet(stack) <= ToSet(island)
    && (forall u, v :: u in island && u !in stack && Linked(m, u, v) ==> v in seen)
  }

  /** The seen set so far is a union of whole islands. */
  ghost predicate Whole(m: Mesh, seen: set<nat>)
  {
    seen <= Verts(m) && Closed(Link(m), Verts(m), seen)
  }

  lemma LinkedInMesh(m: Mesh, u: nat, v: nat)
    requires m.Valid() && Linked(m, u, v)
    ensures u in Verts(m) && v in Verts(m)
  {
  }

  lemma FloodDone(m: Mesh, seed: nat, before: set<nat>, seen: set<nat>, island: seq<nat>)
    requires m.Valid() && Whole(m, before) && Flooding(m, seed, before, seen, island, [])
    ensures ToSet(island) == IslandOf(m, seed) && Whole(m, seen)
  {
    var adj, nodes := Link(m), Verts(m);
    LinkSymmetric(m);
    forall u, v | u in ToSet(island) && u in nodes && v in nodes && adj(u, v)
      ensures v in ToSet(island)
    {
      assert v in seen;
      assert v in before ==> adj(v, u);
    }
    ComponentLeast(adj, nodes, seed, ToSet(island));
  }

  lemma Reached(m: Mesh, seed: nat, v: nat, other: nat)
    requires m.Valid() && v in IslandOf(m, seed) && Linked(m, v, other)
    ensures other in IslandOf(m, seed)
  {
    LinkedInMesh(m, v, other);
    ConnectedStep(Link(m), Verts(m), seed, v, other);
  }

  /** The vertex at the other end of each edge of `v`, in edge order. */
  function Others(edges: seq<Edge>, v: nat): seq<nat>
  {
    if edges == [] then []
    else
      var e := edges[|edges|-1];
      Others(edges[..|edges|-1], v) + if e.a == v then [e.b] else if e.b == v then [e.a] else []
  }

  ghost predicate JoinedBy(edges: seq<Edge>, u: nat, v: nat)
  {
    exists e :: e in edges && ((e.a == u && e.b == v) || (e.b == u && e.a == v))
  }

  lemma {:induction false} OthersAreLinked(edges: seq<Edge>, v: nat)
    ensures forall u :: u in Others(edges, v) <==> JoinedBy(edges, v, u)
  {
    if edges != [] {
      var init := edges[..|edges|-1];
      OthersAreLinked(init, v);
      assert edges == init + [edges[|edges|-1]];
    }
  }

  // ---- The flood ----

  ghost predicate Pushing(m: Mesh, seed: nat, before: set<nat>, seen: set<nat>, island: seq<nat>, stack: seq<nat>,
                          v: nat, done: set<nat>)
  {
    && seen == before + ToSet(island) && before !! ToSet(island)
    && Distinct(island) && seed in island && v in island
    && ToSet(island) <= IslandOf(m, seed)
    && ToSet(stack) <= ToSet(island)
    && done <= seen
    && (forall u, w :: u in island && u !in stack && u != v && Linked(m, u, w) ==> w in seen)
  }

  lemma PushOther(m: Mesh, seed: nat, before: set<nat>, seen: set<nat>, island: seq<nat>, stack: seq<nat>,
                  v: nat, done: set<nat>, other: nat)
    requires m.Valid() && Pushing(m, seed, before, seen, island, stack, v, done)
    requires other !in seen && Linked(m, v, other)
    ensures Pushing(m, seed, before, seen + {other}, island + [other], stack + [other], v, done + {other})
  {
    Reached(m, seed, v, other);
    assert ToSet(island + [other]) == ToSet(island) + {other};
    assert ToSet(stack + [other]) == ToSet(stack) + {other};
  }

  /** The edges of one popped vertex: every unseen neighbour joins the island. */
  method Spread(m: Mesh, v: nat, seen0: set<nat>, island0: seq<nat>, stack0: seq<nat>,
                ghost seed: nat, ghost before: set<nat>)
    returns (seen: set<nat>, island: seq<nat>, stack: seq<nat>)
    requires m.Valid() && Pushing(m, seed, before, seen0, island0, stack0, v, {})
    ensures Flooding(m, seed, before, seen, island, stack)
    ensures seen0 <= seen && (seen == seen0 ==> stack == stack0)
    ensures seen <= seen0 + Verts(m)
  {
    seen, island, stack := seen0, island0, stack0;
    var others := Others(m.edges, v);
    OthersAreLinked(m.edges, v);
    for i := 0 to |others|
      invariant Pushing(m, seed, before, seen, island, stack, v, ToSet(others[..i]))
      invariant seen0 <= seen <= seen0 + Verts(m) && (seen == seen0 ==> stack == stack0)
    {
      var other := others[i];
      assert others[..i+1] == others[..i] + [other];
      assert ToSet(others[..i+1]) == ToSet(others[..i]) + {other};
      assert other in others;
      if other !in seen {
        LinkedInMesh(m, v, other);
        PushOther(m, seed, before, seen, island, stack, v, ToSet(others[..i]), other);
        seen, stack, island := seen + {other}, stack + [other], island + [other];
      }
    }
    assert others[..|others|] == others;
    assert forall w :: Linked(m, v, w) ==> w in ToSet(others);
  }

  method FloodFrom(m: Mesh, seed: nat, before: set<nat>) returns (seen: set<nat>, island: seq<nat>)
    requires m.Valid() && Whole(m, before) && seed < m.verts && seed !in before
    ensures Distinct(island) && island != [] && ToSet(island) == IslandOf(m, seed)
    ensures seen == before + ToSet(island) && before !! ToSet(island) && Whole(m, seen)
  {
    seen, island := before + {seed}, [seed];
    var stack := [seed];
    ConnectedSelf(Link(m), Verts(m), seed);
    while stack != []
      invariant Flooding(m, seed, before, seen, island, stack) && before <= seen <= Verts(m)
      decreases Verts(m) - seen, |stack|
    {
      var v := stack[|stack|-1];
      ghost var popped := stack;
      stack := stack[..|stack|-1];
      assert popped == stack + [v] && v in ToSet(popped);
      ghost var left := Verts(m) - seen;
      seen, island, stack := Spread(m, v, seen, island, stack, seed, before);
      assert Verts(m) - seen <= left;
    }
    FloodDone(m, seed, before, seen, island);
  }

  // ---- All islands ----

  ghost predicate IsIsland(m: Mesh, island: seq<nat>)
  {
    Distinct(island) && island != [] && island[0] < m.verts && ToSet(island) == IslandOf(m, island[0])
  }

  ghost predicate Apart(islands: seq<seq<nat>>)
  {
    forall i, j :: 0 <= i < j < |islands| ==> ToSet(islands[i]) !! ToSet(islands[j])
  }

  /** Each vertex below `n` in exactly one list, each list one whole island. */
  ghost predicate Islands(m: Mesh, islands: seq<seq<nat>>, n: nat)
  {
    && (forall i :: 0 <= i < |islands| ==> IsIsland(m, islands[i]))
    && Apart(islands)
    && (forall v: nat :: v < n ==> InSome(islands, v))
  }

  ghost predicate InSome(islands: seq<seq<nat>>, v: nat)
  {
    exists i :: 0 <= i < |islands| && v in islands[i]
  }

  lemma IslandAdded(m: Mesh, islands: seq<seq<nat>>, island: seq<nat>, n: nat)
    requires Islands(m, islands, n) && IsIsland(m, island) && n in island
    requires forall i :: 0 <= i < |islands| ==> ToSet(islands[i]) !! ToSet(island)
    ensures Islands(m, islands + [island], n+1)
  {
    var all := islands + [island];
    forall v: nat | v < n+1
      ensures InSome(all, v)
    {
      if v < n {
        assert InSome(islands, v);
        var i :| 0 <= i < |islands| && v in islands[i];
        assert v in all[i];
      } else {
        assert v in all[|islands|];
      }
    }
  }

  lemma AlreadySeen(m: Mesh, islands: seq<seq<nat>>, n: nat)
    requires Islands(m, islands, n) && InSome(islands, n)
    ensures Islands(m, islands, n+1)
  {
  }

  ghost predicate SeenAre(seen: set<nat>, islands: seq<seq<nat>>)
  {
    && (forall i :: 0 <= i < |islands| ==> ToSet(islands[i]) <= seen)
    && (forall v :: v in seen ==> InSome(islands, v))
  }

  lemma SeenGrows(seen: set<nat>, islands: seq<seq<nat>>, island: seq<nat>)
    requires SeenAre(seen, islands)
    ensures SeenAre(seen + ToSet(island), islands + [island])
  {
    var all := islands + [island];
    forall v | v in seen + ToSet(island)
      ensures InSome(all, v)
    {
      if v in seen {
        assert InSome(islands, v);
        var i :| 0 <= i < |islands| && v in islands[i];
        assert v in all[i];
      } else {
        assert v in all[|islands|];
      }
    }
  }

  // ---- Largest first ----

  /** Before the first list no longer than it: equal lengths keep their order. */
  function Insert(x: seq<nat>, sorted: seq<seq<nat>>): seq<seq<nat>>
  {
    if sorted == [] || |sorted[0]| <= |x| then [x] + sorted else [sorted[0]] + Insert(x, sorted[1..])
  }

  /** `sort(key=len, reverse=True)`, which is stable. */
  function SortLargestFirst(islands: seq<seq<nat>>): seq<seq<nat>>
  {
    if islands == [] then [] else Insert(islands[0], SortLargestFirst(islands[1..]))
  }

  ghost predicate LargestFirst(islands: seq<seq<nat>>)
  {
    forall i, j :: 0 <= i < j < |islands| ==> |islands[i]| >= |islands[j]|
  }

  lemma {:induction false} InsertAdds(x: seq<nat>, sorted: seq<seq<nat>>)
    ensures multiset(Insert(x, sorted)) == multiset(sorted) + multiset{x}
  {
    if !(sorted == [] || |sorted[0]| <= |x|) {
      InsertAdds(x, sorted[1..]);
      assert sorted == [sorted[0]] + sorted[1..];
    }
  }

  lemma InsertedFrom(x: seq<nat>, sorted: seq<seq<nat>>)
    ensures forall y :: y in Insert(x, sorted) ==> y == x || y in sorted
  {
    InsertAdds(x, sorted);
    forall y | y in Insert(x, sorted)
      ensures y == x || y in sorted
    {
      assert y in multiset(Insert(x, sorted));
    }
  }

  lemma {:induction false} InsertSorted(x: seq<nat>, sorted: seq<seq<nat>>)
    requires LargestFirst(sorted)
    ensures LargestFirst(Insert(x, sorted))
  {
    if !(sorted == [] || |sorted[0]| <= |x|) {
      var rest := Insert(x, sorted[1..]);
      InsertSorted(x, sorted[1..]);
      InsertedFrom(x, sorted[1..]);
      forall j | 0 <= j < |rest|
        ensures |sorted[0]| >= |rest[j]|
      {
        assert rest[j] in rest;
      }
    }
  }

  lemma {:induction false} SortSorts(islands: seq<seq<nat>>)
    ensures LargestFirst(SortLargestFirst(islands))
    ensures multiset(SortLargestFirst(islands)) == multiset(islands)
  {
    if islands != [] {
      SortSorts(islands[1..]);
      InsertSorted(islands[0], SortLargestFirst(islands[1..]));
      InsertAdds(islands[0], SortLargestFirst(islands[1..]));
      assert islands == [islands[0]] + islands[1..];
    }
  }

  /** Reordering keeps an island list an island list: every list is nonempty and
      apart from the others, so none occurs twice. */
  lemma ReorderedIslands(m: Mesh, islands: seq<seq<nat>>, sorted: seq<seq<nat>>, n: nat)
    requires Islands(m, islands, n) && multiset(sorted) == multiset(islands)
    ensures Islands(m, sorted, n)
  {
    forall i | 0 <= i < |sorted|
      ensures sorted[i] in islands
    {
      assert sorted[i] in multiset(sorted);
    }
    forall i | 0 <= i < |islands|
      ensures islands[i] in sorted
    {
      assert islands[i] in multiset(islands);
    }
    forall v: nat | v < n
      ensures InSome(sorted, v)
    {
      assert InSome(islands, v);
      var i :| 0 <= i < |islands| && v in islands[i];
      var j :| 0 <= j < |sorted| && sorted[j] == islands[i];
    }
    forall i, j | 0 <= i < j < |sorted|
      ensures ToSet(sorted[i]) !! ToSet(sorted[j])
    {
      var p :| 0 <= p < |islands| && islands[p] == sorted[i];
      var q :| 0 <= q < |islands| && islands[q] == sorted[j];
      if p == q {
        CountedTwice(sorted, i, j);
        OnceInIslands(m, islands, n, p);
      } else {
        assert Apart(islands);
      }
    }
  }

  lemma OnceInIslands(m: Mesh, islands: seq<seq<nat>>, n: nat, p: nat)
    requires Islands(m, islands, n) && p < |islands|
    ensures multiset(islands)[islands[p]] == 1
  {
    var x := islands[p];
    assert IsIsland(m, x) && x[0] in ToSet(x);
    assert islands == islands[..p] + [x] + islands[p+1..];
    forall k | 0 <= k < |islands| && k != p
      ensures islands[k] != x
    {
      assert if k < p then ToSet(islands[k]) !! ToSet(x) else ToSet(x) !! ToSet(islands[k]);
    }
    assert x !in islands[..p] && x !in islands[p+1..];
  }

  /** `_components`: exactly the islands, each vertex once, largest first. */
  method Components(m: Mesh) returns (islands: seq<seq<nat>>)
    requires m.Valid()
    ensures Islands(m, islands, m.verts) && LargestFirst(islands)
  {
    var found: seq<seq<nat>> := [];
    var seen: set<nat> := {};
    for seed := 0 to m.verts
      invariant Islands(m, found, seed) && SeenAre(seen, found) && Whole(m, seen)
    {
      if seed in seen {
        assert InSome(found, seed);
        AlreadySeen(m, found, seed);
      } else {
        ghost var before := seen;
        var island: seq<nat>;
        seen, island := FloodFrom(m, seed, seen);
        IslandFromSeed(m, seed, island);
        IslandAdded(m, found, island, seed);
        SeenGrows(before, found, island);
        found := found + [island];
      }
    }
    SortSorts(found);
    islands := SortLargestFirst(found);
    ReorderedIslands(m, found, islands, m.verts);
  }

  lemma IslandFromSeed(m: Mesh, seed: nat, island: seq<nat>)
    requires m.Valid() && seed < m.verts && Distinct(island) && island != [] && ToSet(island) == IslandOf(m, seed)
    ensures IsIsland(m, island) && seed in island
  {
    ConnectedSelf(Link(m), Verts(m), seed);
    LinkSymmetric(m);
    assert island[0] in ToSet(island) && seed in ToSet(island);
    ComponentsEqual(Link(m), Verts(m), seed, island[0]);
  }
}
