/** The topology diagnostics computed twice: over a BMesh
    (scripts/ai-pipeline/prop_cleanup.py `geometry_health`) and over a triangle array
    (scripts/ai-pipeline/prop_extract.py `topo_stats`). */
module MeshHealth {
  import opened Basics
  import opened Connectivity
  import opened MeshIslands

  /** The two fractions are kept as quotients; the source rounds both to 4 decimals. */
  datatype Health = Health(boundaryEdges: nat, components: nat, mainFaceFraction: real,
                           mainBoundaryEdges: nat, mainEuler: int, boundaryPerFace: real)

  function Count<T>(s: seq<T>, p: T -> bool): nat
  {
    if s == [] then 0 else (if p(s[0]) then 1 else 0) + Count(s[1..], p)
  }

  /** `f` has the edge `u`-`v` as a side. */
  predicate HasSide(f: Triangle, u: nat, v: nat)
  {
    u != v && u in {f.a, f.b, f.c} && v in {f.a, f.b, f.c}
  }

  function LinkFaces(faces: seq<Triangle>, e: Edge): nat
  {
    Count(faces, (f: Triangle) => HasSide(f, e.a, e.b))
  }

  /** `None` is the IndexError of a mesh without vertices, or a division by zero. */
  function Report(boundary: nat, components: nat, mainSize: nat, mainFaces: nat, totalFaces: nat,
                  mainEdges: nat, mainBoundary: nat): Option<Health>
  {
    if components == 0 || totalFaces == 0 || mainFaces == 0 then None
    else Some(Health(boundary, components, mainFaces as real / totalFaces as real, mainBoundary,
                     mainSize - mainEdges + mainFaces, mainBoundary as real / mainFaces as real))
  }

  /** `geometry_health`, given the islands `_components` returned. */
  function GeometryHealth(m: Mesh, islands: seq<seq<nat>>): Option<Health>
  {
    if islands == [] then None
    else
      var main := ToSet(islands[0]);
      var mainFaces := Count(m.faces, (f: Triangle) => f.a in main);
      var mainEdges := Count(m.edges, (e: Edge) => e.a in main);
      var boundary := Count(m.edges, (e: Edge) => LinkFaces(m.faces, e) == 1);
      var mainBoundary := Count(m.edges, (e: Edge) => LinkFaces(m.faces, e) == 1 && e.a in main);
      Report(boundary, |islands|, |islands[0]|, mainFaces, |m.faces|, mainEdges, mainBoundary)
  }

  // ---- The triangle-array implementation ----

  datatype Trimesh = Trimesh(verts: nat, faces: seq<Triangle>)

  function Sorted(u: nat, v: nat): Edge { if u <= v then Edge(u, v) else Edge(v, u) }

  function Sides(f: Triangle): seq<Edge> { [Sorted(f.a, f.b), Sorted(f.b, f.c), Sorted(f.c, f.a)] }

  /** `edges_sorted`: three rows a face. */
  function AllSides(faces: seq<Triangle>): seq<Edge>
  {
    if faces == [] then [] else Sides(faces[0]) + AllSides(faces[1..])
  }

  /** `np.unique(..., return_counts=True)` as the distinct rows and their counts. */
  function Unique(rows: seq<Edge>): set<Edge> { set e | e in rows }

  function Times(rows: seq<Edge>, e: Edge): nat { Count(rows, (r: Edge) => r == e) }

  function Boundary(rows: seq<Edge>): set<Edge> { set e | e in rows && Times(rows, e) == 1 }

  function Within(edges: set<Edge>, main: set<nat>): set<Edge> { set e | e in edges && e.a in main }

  /** `topo_stats`, given the components trimesh returned, already sorted. */
  function TopoStats(t: Trimesh, components: seq<set<nat>>): Option<Health>
  {
    if components == [] then None
    else
      var main := components[0];
      var rows := AllSides(t.faces);
      var mainFaces := Count(t.faces, (f: Triangle) => f.a in main);
      Report(|Boundary(rows)|, |components|, |main|, mainFaces, |t.faces|,
             |Within(Unique(rows), main)|, |Within(Boundary(rows), main)|)
  }

  // ---- When the two meshes are the same ----

  /** The same vertices, and face by face the same corners, started anywhere. */
  ghost predicate SameFaces(m: Mesh, t: Trimesh)
  {
    && t.verts == m.verts && |t.faces| == |m.faces|
    && forall i :: 0 <= i < |t.faces| ==> SameCorners(m.faces[i], t.faces[i])
  }

  ghost predicate SameCorners(f: Triangle, g: Triangle)
  {
    {f.a, f.b, f.c} == {g.a, g.b, g.c} && g.a != g.b && g.b != g.c && g.a != g.c
  }

  /** The edges of a BMesh: no two between the same vertices, one for every side of a
      face, and none that is no side. */
  ghost predicate EdgesAreSides(m: Mesh)
  {
    && (forall i, j :: 0 <= i < j < |m.edges| ==> Undirected(m.edges[i]) != Undirected(m.edges[j]))
    && (forall e {:trigger OnSomeFace(m, e)} :: e in m.edges ==> OnSomeFace(m, e))
    && (forall f, u, v {:trigger SideIsEdge(m, f, u, v)} :: SideIsEdge(m, f, u, v))
  }

  ghost predicate OnSomeFace(m: Mesh, e: Edge)
  {
    exists f :: f in m.faces && HasSide(f, e.a, e.b)
  }

  ghost predicate SideIsEdge(m: Mesh, f: Triangle, u: nat, v: nat)
  {
    f in m.faces && HasSide(f, u, v) ==> Linked(m, u, v)
  }

  function Undirected(e: Edge): Edge { Sorted(e.a, e.b) }

  ghost predicate SomeIsland(m: Mesh, c: set<nat>)
  {
    exists v: nat :: v < m.verts && c == IslandOf(m, v)
  }

  /** What trimesh's connected_components promises, sorted by size: the components of
      the side graph, in whatever order it finds equal sizes. */
  ghost predicate Labelling(m: Mesh, components: seq<set<nat>>)
  {
    && (forall i :: 0 <= i < |components| ==> SomeIsland(m, components[i]))
    && (forall i, j :: 0 <= i < j < |components| ==> components[i] != components[j])
    && (forall v: nat :: v < m.verts ==> IslandOf(m, v) in components)
    && (forall i, j :: 0 <= i < j < |components| ==> |components[i]| >= |components[j]|)
  }

  /** No other island is as large as the first. */
  ghost predicate UniqueLargest(islands: seq<seq<nat>>)
  {
    forall i :: 0 < i < |islands| ==> |islands[i]| < |islands[0]|
  }

  // ---- Edges and faces never span islands ----

  lemma LinkedTogether(m: Mesh, v: nat, x: nat, y: nat)
    requires m.Valid() && Linked(m, x, y)
    ensures x in IslandOf(m, v) <==> y in IslandOf(m, v)
  {
    LinkSymmetric(m);
    assert Linked(m, y, x);
    if x in IslandOf(m, v) { Reached(m, v, x, y); }
    if y in IslandOf(m, v) { Reached(m, v, y, x); }
  }

  lemma EdgeWithin(m: Mesh, v: nat, e: Edge)
    requires m.Valid() && e in m.edges
    ensures e.a in IslandOf(m, v) <==> Undirected(e).a in IslandOf(m, v)
  {
    assert Linked(m, e.a, e.b);
    LinkedTogether(m, v, e.a, e.b);
  }

  lemma FaceWithin(m: Mesh, t: Trimesh, v: nat, i: nat)
    requires m.Valid() && EdgesAreSides(m) && SameFaces(m, t) && i < |t.faces|
    ensures m.faces[i].a in IslandOf(m, v) <==> t.faces[i].a in IslandOf(m, v)
  {
    var (f, g) := (m.faces[i], t.faces[i]);
    assert f in m.faces && SameCorners(f, g);
    assert g.a in {g.a, g.b, g.c};
    if f.a != g.a {
      assert HasSide(f, f.a, g.a) && SideIsEdge(m, f, f.a, g.a);
      LinkedTogether(m, v, f.a, g.a);
    }
  }

  // ---- Counting both ways ----

  lemma {:induction false} CountAgree<T, U>(s: seq<T>, t: seq<U>, p: T -> bool, q: U -> bool)
    requires |s| == |t| && forall i :: 0 <= i < |s| ==> p(s[i]) == q(t[i])
    ensures Count(s, p) == Count(t, q)
  {
    if s != [] {
      CountAgree(s[1..], t[1..], p, q);
    }
  }

  lemma {:induction false} CountConcat<T>(a: seq<T>, b: seq<T>, p: T -> bool)
    ensures Count(a + b, p) == Count(a, p) + Count(b, p)
  {
    if a == [] {
      assert a + b == b;
    } else {
      assert (a + b)[0] == a[0] && (a + b)[1..] == a[1..] + b;
      CountConcat(a[1..], b, p);
    }
  }

  ghost predicate DistinctEdges(edges: seq<Edge>)
  {
    forall i, j :: 0 <= i < j < |edges| ==> Undirected(edges[i]) != Undirected(edges[j])
  }

  ghost function Images(edges: seq<Edge>, p: Edge -> bool): set<Edge>
  {
    set e | e in edges && p(e) :: Undirected(e)
  }

  lemma ImagesStep(edges: seq<Edge>, p: Edge -> bool)
    requires edges != []
    ensures Images(edges, p) == Images(edges[1..], p) + if p(edges[0]) then {Undirected(edges[0])} else {}
  {
    assert edges == [edges[0]] + edges[1..];
  }

  lemma FirstIsNew(edges: seq<Edge>, p: Edge -> bool)
    requires edges != [] && DistinctEdges(edges)
    ensures DistinctEdges(edges[1..]) && Undirected(edges[0]) !in Images(edges[1..], p)
  {
    var rest := edges[1..];
    forall x | x in rest
      ensures Undirected(x) != Undirected(edges[0])
    {
      var i :| 0 <= i < |rest| && rest[i] == x;
      assert edges[i+1] == x;
    }
  }

  /** Edges that differ as vertex pairs are counted one by one. */
  lemma {:induction false} CountIsCard(edges: seq<Edge>, p: Edge -> bool)
    requires DistinctEdges(edges)
    ensures Count(edges, p) == |Images(edges, p)|
  {
    if edges == [] {
      assert Images(edges, p) == {};
    } else {
      FirstIsNew(edges, p);
      CountIsCard(edges[1..], p);
      ImagesStep(edges, p);
    }
  }

  /** A corner pair is one of the three sides exactly once. */
  lemma SideOnce(g: Triangle, u: nat, v: nat)
    requires g.a != g.b && g.b != g.c && g.a != g.c && u != v
    ensures Count(Sides(g), (r: Edge) => r == Sorted(u, v)) == if HasSide(g, u, v) then 1 else 0
  {
    var p := (r: Edge) => r == Sorted(u, v);
    CountThree(Sorted(g.a, g.b), Sorted(g.b, g.c), Sorted(g.c, g.a), p);
    assert p(Sorted(g.a, g.b)) == ({u, v} == {g.a, g.b});
    assert p(Sorted(g.b, g.c)) == ({u, v} == {g.b, g.c});
    assert p(Sorted(g.c, g.a)) == ({u, v} == {g.c, g.a});
  }

  lemma CountThree<T>(x: T, y: T, z: T, p: T -> bool)
    ensures Count([x, y, z], p) == (if p(x) then 1 else 0) + (if p(y) then 1 else 0) + (if p(z) then 1 else 0)
  {
    CountConcat([x], [y, z], p);
    CountConcat([y], [z], p);
    assert [x, y, z] == [x] + [y, z] && [y, z] == [y] + [z];
    CountOne(x, p);
    CountOne(y, p);
    CountOne(z, p);
  }

  lemma CountOne<T>(x: T, p: T -> bool)
    ensures Count([x], p) == if p(x) then 1 else 0
  {
    assert [x][1..] == [];
  }

  /** How often a row occurs is how many faces have that side. */
  lemma {:induction false} TimesAreLinks(fs: seq<Triangle>, gs: seq<Triangle>, e: Edge)
    requires |fs| == |gs| && forall i :: 0 <= i < |fs| ==> SameCorners(fs[i], gs[i])
    requires e.a != e.b
    ensures Times(AllSides(gs), Undirected(e)) == LinkFaces(fs, e)
  {
    if fs != [] {
      TimesAreLinks(fs[1..], gs[1..], e);
      SideOnce(gs[0], e.a, e.b);
      CountConcat(Sides(gs[0]), AllSides(gs[1..]), (r: Edge) => r == Undirected(e));
      SamePredicate(Sides(gs[0]), e);
      SamePredicate(AllSides(gs), e);
      SamePredicate(AllSides(gs[1..]), e);
      assert SameCorners(fs[0], gs[0]);
      assert HasSide(fs[0], e.a, e.b) == HasSide(gs[0], e.a, e.b);
      LinkFacesStep(fs, e);
    }
  }

  lemma LinkFacesStep(fs: seq<Triangle>, e: Edge)
    requires fs != []
    ensures LinkFaces(fs, e) == (if HasSide(fs[0], e.a, e.b) then 1 else 0) + LinkFaces(fs[1..], e)
  {
    CountAgree(fs[1..], fs[1..], (f: Triangle) => HasSide(f, e.a, e.b), (f: Triangle) => HasSide(f, e.a, e.b));
  }

  lemma SamePredicate(rows: seq<Edge>, e: Edge)
    ensures Count(rows, (r: Edge) => r == Undirected(e)) == Times(rows, Undirected(e))
         == Count(rows, (r: Edge) => r == Sorted(e.a, e.b))
  {
    CountAgree(rows, rows, (r: Edge) => r == Undirected(e), (r: Edge) => r == Sorted(e.a, e.b));
  }

  lemma {:induction false} RowsAreSides(gs: seq<Triangle>)
    requires forall g :: g in gs ==> g.a != g.b && g.b != g.c && g.a != g.c
    ensures forall r :: r in AllSides(gs) <==> r.a <= r.b && exists g :: g in gs && HasSide(g, r.a, r.b)
  {
    if gs != [] {
      var rest := gs[1..];
      RowsAreSides(rest);
      assert gs == [gs[0]] + rest;
      forall r
        ensures r in Sides(gs[0]) <==> r.a <= r.b && HasSide(gs[0], r.a, r.b)
      {
      }
    }
  }

  // ---- The two implementations agree ----

  lemma {:induction false} DistinctSetCard<T>(s: seq<T>)
    requires Distinct(s)
    ensures |(set x | x in s)| == |s|
  {
    if s == [] {
      assert (set x | x in s) == {};
    } else {
      DistinctSetCard(s[1..]);
      assert s == [s[0]] + s[1..];
      assert s[0] !in s[1..];
      assert (set x | x in s) == {s[0]} + (set x | x in s[1..]);
    }
  }

  lemma CardOfIsland(island: seq<nat>)
    requires Distinct(island)
    ensures |ToSet(island)| == |island|
  {
    DistinctSetCard(island);
    assert ToSet(island) == set x | x in island;
  }

  ghost function AsSets(islands: seq<seq<nat>>): (r: seq<set<nat>>)
    ensures |r| == |islands| && forall i :: 0 <= i < |r| ==> r[i] == ToSet(islands[i])
  {
    seq(|islands|, i requires 0 <= i < |islands| => ToSet(islands[i]))
  }

  lemma AsSetsDistinct(m: Mesh, islands: seq<seq<nat>>)
    requires Islands(m, islands, m.verts)
    ensures Distinct(AsSets(islands))
  {
    var sets := AsSets(islands);
    forall i, j | 0 <= i < j < |sets|
      ensures sets[i] != sets[j]
    {
      assert IsIsland(m, islands[i]) && islands[i][0] in sets[i];
      assert ToSet(islands[i]) !! ToSet(islands[j]);
    }
  }

  /** Both lists hold the same islands. */
  lemma SameIslands(m: Mesh, islands: seq<seq<nat>>, components: seq<set<nat>>)
    requires m.Valid() && Islands(m, islands, m.verts) && Labelling(m, components)
    ensures forall x :: x in AsSets(islands) <==> x in components
    ensures |islands| == |components|
  {
    var sets := AsSets(islands);
    forall i | 0 <= i < |sets|
      ensures sets[i] in components
    {
      assert IsIsland(m, islands[i]);
    }
    forall k | 0 <= k < |components|
      ensures components[k] in sets
    {
      assert SomeIsland(m, components[k]);
      var v: nat :| v < m.verts && components[k] == IslandOf(m, v);
      assert InSome(islands, v);
      var i :| 0 <= i < |islands| && v in islands[i];
      IslandOfMember(m, islands[i], v);
      assert sets[i] == components[k];
    }
    AsSetsDistinct(m, islands);
    DistinctSetCard(sets);
    DistinctSetCard(components);
    assert (set x | x in sets) == (set x | x in components);
  }

  lemma IslandOfMember(m: Mesh, island: seq<nat>, v: nat)
    requires m.Valid() && IsIsland(m, island) && v in island
    ensures ToSet(island) == IslandOf(m, v)
  {
    LinkSymmetric(m);
    assert v in ToSet(island);
    ComponentsEqual(Link(m), Verts(m), island[0], v);
  }

  /** With a unique largest island, both implementations call the same one main. */
  lemma SameMain(m: Mesh, islands: seq<seq<nat>>, components: seq<set<nat>>)
    requires m.Valid() && Islands(m, islands, m.verts) && Labelling(m, components)
    requires UniqueLargest(islands) && islands != []
    ensures components != [] && components[0] == ToSet(islands[0]) && |components[0]| == |islands[0]|
  {
    var sets := AsSets(islands);
    SameIslands(m, islands, components);
    assert components[0] in sets;
    var j :| 0 <= j < |sets| && sets[j] == components[0];
    assert sets[0] in components;
    var k :| 0 <= k < |components| && components[k] == sets[0];
    assert IsIsland(m, islands[0]) && IsIsland(m, islands[j]);
    CardOfIsland(islands[0]);
    CardOfIsland(islands[j]);
    assert |components[0]| >= |components[k]|;
  }

  lemma MainFacesAgree(m: Mesh, t: Trimesh, v: nat)
    requires m.Valid() && EdgesAreSides(m) && SameFaces(m, t)
    ensures var main := IslandOf(m, v);
      Count(m.faces, (f: Triangle) => f.a in main) == Count(t.faces, (f: Triangle) => f.a in main)
  {
    var main := IslandOf(m, v);
    forall i | 0 <= i < |m.faces|
      ensures m.faces[i].a in main <==> t.faces[i].a in main
    {
      FaceWithin(m, t, v, i);
    }
    CountAgree(m.faces, t.faces, (f: Triangle) => f.a in main, (f: Triangle) => f.a in main);
  }

  lemma RowIsEdge(m: Mesh, t: Trimesh, r: Edge, g: Triangle)
    requires m.Valid() && EdgesAreSides(m) && SameFaces(m, t) && g in t.faces
    requires r.a <= r.b && HasSide(g, r.a, r.b)
    ensures EdgeOf(m, r)
  {
    var i :| 0 <= i < |t.faces| && t.faces[i] == g;
    assert SameCorners(m.faces[i], g) && m.faces[i] in m.faces;
    CornersShareSides(m.faces[i], g, r.a, r.b);
    assert SideIsEdge(m, m.faces[i], r.a, r.b);
    var e :| e in m.edges && ((e.a == r.a && e.b == r.b) || (e.b == r.a && e.a == r.b));
    assert Undirected(e) == r;
  }

  lemma EdgeIsRow(m: Mesh, t: Trimesh, e: Edge)
    requires m.Valid() && EdgesAreSides(m) && SameFaces(m, t) && e in m.edges
    ensures exists g :: g in t.faces && HasSide(g, Undirected(e).a, Undirected(e).b)
  {
    assert OnSomeFace(m, e);
    var f :| f in m.faces && HasSide(f, e.a, e.b);
    var i :| 0 <= i < |m.faces| && m.faces[i] == f;
    assert SameCorners(m.faces[i], t.faces[i]) && t.faces[i] in t.faces;
    CornersShareSides(f, t.faces[i], e.a, e.b);
    SideUndirected(t.faces[i], e);
  }

  lemma CornersShareSides(f: Triangle, g: Triangle, u: nat, v: nat)
    requires SameCorners(f, g)
    ensures HasSide(f, u, v) == HasSide(g, u, v)
  {
  }

  lemma SideUndirected(g: Triangle, e: Edge)
    ensures HasSide(g, e.a, e.b) == HasSide(g, Undirected(e).a, Undirected(e).b)
  {
  }

  ghost predicate EdgeOf(m: Mesh, r: Edge)
  {
    exists e :: e in m.edges && Undirected(e) == r
  }

  /** The distinct rows are the mesh's edges. */
  lemma RowsAreEdges(m: Mesh, t: Trimesh)
    requires m.Valid() && EdgesAreSides(m) && SameFaces(m, t)
    ensures forall r :: r in AllSides(t.faces) <==> EdgeOf(m, r)
  {
    var rows := AllSides(t.faces);
    forall g | g in t.faces
      ensures g.a != g.b && g.b != g.c && g.a != g.c
    {
      var i :| 0 <= i < |t.faces| && t.faces[i] == g;
      assert SameCorners(m.faces[i], g);
    }
    RowsAreSides(t.faces);
    forall r
      ensures r in rows <==> EdgeOf(m, r)
    {
      if r in rows {
        var g :| g in t.faces && HasSide(g, r.a, r.b);
        RowIsEdge(m, t, r, g);
      }
      if e :| e in m.edges && Undirected(e) == r {
        EdgeIsRow(m, t, e);
      }
    }
  }

  /** Counting edges of a kind over the BMesh is sizing a set of rows, provided the
      kind does not depend on which way round the edge is stored. */
  lemma EdgeCountAgrees(m: Mesh, t: Trimesh, p: Edge -> bool, rows: set<Edge>)
    requires m.Valid() && EdgesAreSides(m) && SameFaces(m, t)
    requires forall e :: e in m.edges ==> (p(e) <==> Undirected(e) in rows)
    requires forall r :: r in rows ==> r in AllSides(t.faces)
    ensures Count(m.edges, p) == |rows|
  {
    CountIsCard(m.edges, p);
    RowsAreEdges(m, t);
    forall r
      ensures r in rows <==> r in Images(m.edges, p)
    {
      if r in rows { assert EdgeOf(m, r); }
    }
    assert Images(m.edges, p) == rows;
  }

  lemma BoundaryAgrees(m: Mesh, t: Trimesh, e: Edge)
    requires m.Valid() && EdgesAreSides(m) && SameFaces(m, t) && e in m.edges
    ensures LinkFaces(m.faces, e) == 1 <==> Undirected(e) in Boundary(AllSides(t.faces))
  {
    TimesAreLinks(m.faces, t.faces, e);
    RowsAreEdges(m, t);
    assert EdgeOf(m, Undirected(e));
  }

  /** Over one triangle mesh with no loose edge and a unique largest island, the two
      implementations give the same six numbers, however each orders and rotates. */
  lemma HealthAgrees(m: Mesh, t: Trimesh, islands: seq<seq<nat>>, components: seq<set<nat>>)
    requires m.Valid() && EdgesAreSides(m) && SameFaces(m, t)
    requires Islands(m, islands, m.verts) && UniqueLargest(islands) && Labelling(m, components)
    ensures GeometryHealth(m, islands) == TopoStats(t, components)
  {
    SameIslands(m, islands, components);
    if islands != [] {
      SameMain(m, islands, components);
      assert IsIsland(m, islands[0]);
      var v := islands[0][0];
      var (main, rows) := (IslandOf(m, v), AllSides(t.faces));
      MainFacesAgree(m, t, v);
      MainEdgesAgree(m, t, v);
      MainBoundaryAgrees(m, t, v);
      CountAgree(m.edges, m.edges, (e: Edge) => e.a in main, (e: Edge) => e.a in ToSet(islands[0]));
    }
  }

  lemma MainEdgesAgree(m: Mesh, t: Trimesh, v: nat)
    requires m.Valid() && EdgesAreSides(m) && SameFaces(m, t)
    ensures var main := IslandOf(m, v);
      Count(m.edges, (e: Edge) => e.a in main) == |Within(Unique(AllSides(t.faces)), main)|
  {
    var main := IslandOf(m, v);
    RowsAreEdges(m, t);
    forall e | e in m.edges
      ensures e.a in main <==> Undirected(e) in Within(Unique(AllSides(t.faces)), main)
    {
      EdgeWithin(m, v, e);
      assert EdgeOf(m, Undirected(e));
    }
    EdgeCountAgrees(m, t, (e: Edge) => e.a in main, Within(Unique(AllSides(t.faces)), main));
  }

  lemma MainBoundaryAgrees(m: Mesh, t: Trimesh, v: nat)
    requires m.Valid() && EdgesAreSides(m) && SameFaces(m, t)
    ensures var (main, rows) := (IslandOf(m, v), AllSides(t.faces));
      && Count(m.edges, (e: Edge) => LinkFaces(m.faces, e) == 1) == |Boundary(rows)|
      && Count(m.edges, (e: Edge) => LinkFaces(m.faces, e) == 1 && e.a in main) == |Within(Boundary(rows), main)|
  {
    var (main, rows) := (IslandOf(m, v), AllSides(t.faces));
    forall e | e in m.edges
      ensures LinkFaces(m.faces, e) == 1 <==> Undirected(e) in Boundary(rows)
      ensures LinkFaces(m.faces, e) == 1 && e.a in main <==> Undirected(e) in Within(Boundary(rows), main)
    {
      BoundaryAgrees(m, t, e);
      EdgeWithin(m, v, e);
    }
    EdgeCountAgrees(m, t, (e: Edge) => LinkFaces(m.faces, e) == 1, Boundary(rows));
    EdgeCountAgrees(m, t, (e: Edge) => LinkFaces(m.faces, e) == 1 && e.a in main, Within(Boundary(rows), main));
  }
}
