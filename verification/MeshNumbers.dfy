/** What the six topology numbers are, of the mesh itself (scripts/ai-pipeline/prop_cleanup.py
    `geometry_health`, scripts/ai-pipeline/prop_extract.py `topo_stats`). */
module MeshNumbers {
  import opened Basics
  import opened MeshIslands
  import opened MeshHealth

  // ---- Counting is cardinality ----

  ghost function Where<T>(s: seq<T>, p: T -> bool): set<nat>
  {
    set i | 0 <= i < |s| && p(s[i])
  }

  lemma WhereStep<T>(s: seq<T>, p: T -> bool, x: T)
    ensures Where(s + [x], p) == Where(s, p) + if p(x) then {|s|} else {}
    ensures |s| !in Where(s, p)
  {
  }

  lemma {:induction false} FilterIsWhere<T>(s: seq<T>, p: T -> bool)
    ensures |Filter(p, s)| == |Where(s, p)|
  {
    if s != [] {
      var (init, x) := (s[..|s|-1], s[|s|-1]);
      FilterIsWhere(init, p);
      WhereStep(init, p, x);
      assert s == init + [x];
    }
  }

  lemma {:induction false} CountIsFilter<T>(s: seq<T>, p: T -> bool)
    ensures Count(s, p) == |Filter(p, s)|
  {
    if s != [] {
      CountIsFilter(s[1..], p);
      FilterFirst(p, s[0], s[1..]);
      assert s == [s[0]] + s[1..];
    }
  }

  /** A count is how many places meet the condition. */
  lemma CountIs<T>(s: seq<T>, p: T -> bool)
    ensures Count(s, p) == |Where(s, p)|
  {
    CountIsFilter(s, p);
    FilterIsWhere(s, p);
  }

  // ---- The BMesh's numbers ----

  /** The faces that hold both ends of an edge. */
  ghost function FacesAt(m: Mesh, e: Edge): set<nat>
  {
    set i | 0 <= i < |m.faces| && e.a != e.b
            && e.a in {m.faces[i].a, m.faces[i].b, m.faces[i].c} && e.b in {m.faces[i].a, m.faces[i].b, m.faces[i].c}
  }

  /** The edges that border exactly one face. */
  ghost function Rim(m: Mesh): set<nat> { set k | 0 <= k < |m.edges| && |FacesAt(m, m.edges[k])| == 1 }

  ghost function FacesOn(faces: seq<Triangle>, main: set<nat>): set<nat> { set i | 0 <= i < |faces| && faces[i].a in main }

  ghost function EdgesOn(m: Mesh, main: set<nat>): set<nat> { set k | 0 <= k < |m.edges| && m.edges[k].a in main }

  ghost function RimOn(m: Mesh, main: set<nat>): set<nat> { Rim(m) * EdgesOn(m, main) }

  lemma LinkFacesAre(m: Mesh, e: Edge)
    ensures LinkFaces(m.faces, e) == |FacesAt(m, e)|
  {
    var p := (f: Triangle) => HasSide(f, e.a, e.b);
    CountIs(m.faces, p);
    assert Where(m.faces, p) == FacesAt(m, e);
    assert LinkFaces(m.faces, e) == Count(m.faces, p) by {
      CountAgree(m.faces, m.faces, p, (f: Triangle) => HasSide(f, e.a, e.b));
    }
  }

  lemma RimIs(m: Mesh, main: set<nat>)
    ensures Count(m.edges, (e: Edge) => LinkFaces(m.faces, e) == 1) == |Rim(m)|
    ensures Count(m.edges, (e: Edge) => LinkFaces(m.faces, e) == 1 && e.a in main) == |RimOn(m, main)|
  {
    var (p, q) := ((e: Edge) => LinkFaces(m.faces, e) == 1, (e: Edge) => LinkFaces(m.faces, e) == 1 && e.a in main);
    CountIs(m.edges, p);
    CountIs(m.edges, q);
    forall k | 0 <= k < |m.edges|
      ensures p(m.edges[k]) <==> |FacesAt(m, m.edges[k])| == 1
    {
      LinkFacesAre(m, m.edges[k]);
    }
    assert Where(m.edges, p) == Rim(m) && Where(m.edges, q) == RimOn(m, main);
  }

  lemma OnMainAre(m: Mesh, main: set<nat>)
    ensures Count(m.faces, (f: Triangle) => f.a in main) == |FacesOn(m.faces, main)|
    ensures Count(m.edges, (e: Edge) => e.a in main) == |EdgesOn(m, main)|
  {
    var (p, q) := ((f: Triangle) => f.a in main, (e: Edge) => e.a in main);
    CountIs(m.faces, p);
    CountIs(m.edges, q);
    assert Where(m.faces, p) == FacesOn(m.faces, main) && Where(m.edges, q) == EdgesOn(m, main);
  }

  lemma QuotientTimes(n: nat, d: nat)
    requires d > 0
    ensures n as real / d as real * d as real == n as real
  {
  }

  /** The six numbers of so many edges and faces: `main` ones are the main island's. */
  ghost predicate Numbers(h: Health, boundary: nat, components: nat, mainSize: nat, mainFaces: nat, totalFaces: nat,
                          mainEdges: nat, mainBoundary: nat)
  {
    && h.boundaryEdges == boundary
    && h.components == components
    && h.mainFaceFraction * totalFaces as real == mainFaces as real
    && h.mainBoundaryEdges == mainBoundary
    && h.mainEuler == mainSize - mainEdges + mainFaces
    && h.boundaryPerFace * mainFaces as real == mainBoundary as real
  }

  lemma ReportIs(boundary: nat, components: nat, mainSize: nat, mainFaces: nat, totalFaces: nat,
                 mainEdges: nat, mainBoundary: nat)
    ensures var r := Report(boundary, components, mainSize, mainFaces, totalFaces, mainEdges, mainBoundary);
      && (r == None <==> components == 0 || totalFaces == 0 || mainFaces == 0)
      && (r.Some? ==> Numbers(r.value, boundary, components, mainSize, mainFaces, totalFaces, mainEdges, mainBoundary))
  {
    if mainFaces > 0 && totalFaces > 0 {
      QuotientTimes(mainFaces, totalFaces);
      QuotientTimes(mainBoundary, mainFaces);
    }
  }

  lemma FacesOnSome(faces: seq<Triangle>, main: set<nat>)
    ensures |FacesOn(faces, main)| == 0 <==> forall f :: f in faces ==> f.a !in main
  {
    if f :| f in faces && f.a in main {
      var i :| 0 <= i < |faces| && faces[i] == f;
      assert i in FacesOn(faces, main);
    } else {
      assert FacesOn(faces, main) == {};
    }
  }

  /** The six numbers: rim edges, islands, the main island's share of the faces, its rim
      edges, its V - E + F, and its rim edges to a face. */
  lemma GeometryHealthIs(m: Mesh, islands: seq<seq<nat>>)
    ensures GeometryHealth(m, islands) == None <==>
      islands == [] || forall f :: f in m.faces ==> f.a !in ToSet(islands[0])
    ensures GeometryHealth(m, islands).Some? ==>
      var main := ToSet(islands[0]);
      Numbers(GeometryHealth(m, islands).value, |Rim(m)|, |islands|, |islands[0]|, |FacesOn(m.faces, main)|, |m.faces|,
              |EdgesOn(m, main)|, |RimOn(m, main)|)
  {
    if islands != [] {
      var main := ToSet(islands[0]);
      HealthCounts(m, islands);
      ReportIs(|Rim(m)|, |islands|, |islands[0]|, |FacesOn(m.faces, main)|, |m.faces|, |EdgesOn(m, main)|, |RimOn(m, main)|);
      FacesOnSome(m.faces, main);
    }
  }

  lemma HealthCounts(m: Mesh, islands: seq<seq<nat>>)
    requires islands != []
    ensures var main := ToSet(islands[0]);
      GeometryHealth(m, islands)
      == Report(|Rim(m)|, |islands|, |islands[0]|, |FacesOn(m.faces, main)|, |m.faces|, |EdgesOn(m, main)|, |RimOn(m, main)|)
  {
    RimIs(m, ToSet(islands[0]));
    OnMainAre(m, ToSet(islands[0]));
  }

  // ---- The triangle array's numbers ----

  /** Three rows a face: its sides, each with its smaller end first. */
  lemma {:induction false} RowsAre(faces: seq<Triangle>, i: nat)
    requires i < |faces|
    ensures |AllSides(faces)| == 3 * |faces|
    ensures var (rows, f) := (AllSides(faces), faces[i]);
      && rows[3*i] == Edge(if f.a <= f.b then f.a else f.b, if f.a <= f.b then f.b else f.a)
      && rows[3*i+1] == Edge(if f.b <= f.c then f.b else f.c, if f.b <= f.c then f.c else f.b)
      && rows[3*i+2] == Edge(if f.c <= f.a then f.c else f.a, if f.c <= f.a then f.a else f.c)
  {
    AllSidesLength(faces);
    AllSidesLength(faces[1..]);
    if i > 0 {
      RowsAre(faces[1..], i-1);
    }
  }

  lemma {:induction false} AllSidesLength(faces: seq<Triangle>)
    ensures |AllSides(faces)| == 3 * |faces|
  {
    if faces != [] {
      AllSidesLength(faces[1..]);
    }
  }

  /** The distinct rows that occur exactly once. */
  ghost function Single(rows: seq<Edge>): set<Edge>
  {
    set e | e in rows && |(set i | 0 <= i < |rows| && rows[i] == e)| == 1
  }

  lemma BoundaryIs(rows: seq<Edge>)
    ensures Boundary(rows) == Single(rows)
  {
    forall e | e in rows
      ensures Times(rows, e) == |(set i | 0 <= i < |rows| && rows[i] == e)|
    {
      var p := (r: Edge) => r == e;
      CountIs(rows, p);
      assert Where(rows, p) == set i | 0 <= i < |rows| && rows[i] == e;
      CountAgree(rows, rows, p, (r: Edge) => r == e);
    }
  }

  /** Those of a set of rows that start in the main component. */
  ghost function RowsOn(rows: set<Edge>, main: set<nat>): set<Edge> { set e | e in rows && e.a in main }

  ghost function Distinctly(rows: seq<Edge>): set<Edge> { set e | e in rows }

  /** The same six numbers, of the distinct rows and the components. */
  lemma TopoStatsAre(t: Trimesh, components: seq<set<nat>>)
    ensures TopoStats(t, components) == None <==>
      components == [] || forall f :: f in t.faces ==> f.a !in components[0]
    ensures TopoStats(t, components).Some? ==>
      var (rows, main) := (AllSides(t.faces), components[0]);
      Numbers(TopoStats(t, components).value, |Single(rows)|, |components|, |main|, |FacesOn(t.faces, main)|, |t.faces|,
              |RowsOn(Distinctly(rows), main)|, |RowsOn(Single(rows), main)|)
  {
    if components != [] {
      var (rows, main) := (AllSides(t.faces), components[0]);
      TopoCounts(t, components);
      ReportIs(|Single(rows)|, |components|, |main|, |FacesOn(t.faces, main)|, |t.faces|,
               |RowsOn(Distinctly(rows), main)|, |RowsOn(Single(rows), main)|);
      FacesOnSome(t.faces, main);
    }
  }

  lemma TopoCounts(t: Trimesh, components: seq<set<nat>>)
    requires components != []
    ensures var (rows, main) := (AllSides(t.faces), components[0]);
      TopoStats(t, components)
      == Report(|Single(rows)|, |components|, |main|, |FacesOn(t.faces, main)|, |t.faces|,
                |RowsOn(Distinctly(rows), main)|, |RowsOn(Single(rows), main)|)
  {
    var (rows, main) := (AllSides(t.faces), components[0]);
    BoundaryIs(rows);
    OnMainAre(Mesh(t.verts, [], t.faces), main);
    assert Within(Unique(rows), main) == RowsOn(Distinctly(rows), main);
    assert Within(Boundary(rows), main) == RowsOn(Single(rows), main);
  }
}
