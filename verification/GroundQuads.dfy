/** Where each quad of the ground ends up, and how it is drawn
    (client/vordar-client/src/ground.rs). */
module GroundQuads {
  import opened Basics
  import opened GroundMesh
  import opened GroundSplit

  // ---- Corners ----

  /** The vertex of a grid point: its place, the field's height and normal there, and the
      texture coordinates that repeat every `tile`. */
  ghost predicate CornerAt(grid: Grid, v: Vertex, cx: nat, cz: nat, tile: real)
  {
    var (x, z) := (v.position.x, v.position.z);
    && x + grid.half == cx as real * grid.step && z + grid.half == cz as real * grid.step
    && v.position.y == grid.height(x, z) && v.normal == grid.normal(x, z)
    && v.uv.0 * tile == x && v.uv.1 * tile == z
  }

  lemma VertexIsCorner(grid: Grid, cx: nat, cz: nat, tile: real)
    requires tile != 0.0
    ensures CornerAt(grid, grid.VertexAt(cx, cz, tile), cx, cz, tile)
  {
    QuotientTimes(grid.X(cx), tile);
    QuotientTimes(grid.X(cz), tile);
  }

  lemma QuotientTimes(x: real, tile: real)
    requires tile != 0.0
    ensures x / tile * tile == x
  {
  }

  /** The uniform ground holds every grid point once, row by row. */
  lemma LatticeIs(grid: Grid, tile: real, cx: nat, cz: nat)
    requires tile != 0.0 && cx < grid.n && cz < grid.n
    ensures |grid.Lattice(grid.n, 0, tile)| == grid.n * grid.n
    ensures 0 <= cz * grid.n + cx < grid.n * grid.n
    ensures CornerAt(grid, grid.Lattice(grid.n, 0, tile)[cz * grid.n + cx], cx, cz, tile)
  {
    LatticeSize(grid, grid.n, 0, tile);
    LatticeAt(grid, grid.n, 0, tile, cx, cz);
    VertexIsCorner(grid, cx, cz, tile);
  }

  // ---- Triangles ----

  /** Twice the area a triangle covers on the ground plane, positive when its corners run
      counter-clockwise seen from above. */
  function Facing(t: Tri): real
  {
    (t.1.z - t.0.z) * (t.2.x - t.0.x) - (t.1.x - t.0.x) * (t.2.z - t.0.z)
  }

  lemma FacingStep(x: real, z: real, step: real, a: Vec3, b: Vec3, c: Vec3, d: Vec3)
    requires (a.x, a.z) == (x, z) && (b.x, b.z) == (x + step, z)
    requires (c.x, c.z) == (x, z + step) && (d.x, d.z) == (x + step, z + step)
    ensures Facing((a, d, b)) == Facing((a, c, d)) == step * step
  {
  }

  lemma NextX(grid: Grid, c: nat)
    ensures grid.X(c + 1) == grid.X(c) + grid.step
  {
    assert (c + 1) as real == c as real + 1.0;
  }

  /** A quad is two triangles facing up, each half the cell, that share the diagonal from
      its first corner to its last. */
  lemma QuadTrisFaceUp(grid: Grid, q: Quad)
    ensures var ts := grid.QuadTris(q);
      && |ts| == 2 && Facing(ts[0]) == Facing(ts[1]) == grid.step * grid.step
      && ts[0].0 == ts[1].0 == grid.Position(q.ix, q.iz) && ts[0].1 == ts[1].2 == grid.Position(q.ix+1, q.iz+1)
      && ts[0].2 == grid.Position(q.ix+1, q.iz) && ts[1].1 == grid.Position(q.ix, q.iz+1)
  {
    NextX(grid, q.ix);
    NextX(grid, q.iz);
    FacingStep(grid.X(q.ix), grid.X(q.iz), grid.step, grid.Position(q.ix, q.iz), grid.Position(q.ix+1, q.iz),
               grid.Position(q.ix, q.iz+1), grid.Position(q.ix+1, q.iz+1));
  }

  /** Membership is that of the point midway between the quad's corners. */
  lemma ContainsIs(grid: Grid, r: Region, q: Quad, x: real, z: real)
    requires 2.0 * x == grid.X(q.ix) + grid.X(q.ix + 1) && 2.0 * z == grid.X(q.iz) + grid.X(q.iz + 1)
    ensures grid.Contains(r, q) <==> r.min.0 <= x < r.max.0 && r.min.1 <= z < r.max.1
  {
    NextX(grid, q.ix);
    NextX(grid, q.iz);
    HalfStep(q.ix, grid.step);
    HalfStep(q.iz, grid.step);
  }

  lemma HalfStep(c: nat, step: real)
    ensures (c as real + 0.5) * step == c as real * step + 0.5 * step
  {
  }

  // ---- Groups ----

  lemma {:induction false} OnlyFilters<A>(group: A -> nat, g: nat, s: seq<A>)
    ensures Only(group, g, s) == Filter((x: A) => group(x) == g, s)
  {
    if s != [] {
      OnlyFilters(group, g, s[..|s|-1]);
    }
  }

  /** A group's quads are those of the loops that belong to it, in loop order. */
  lemma OnlyIs<A>(group: A -> nat, g: nat, s: seq<A>) returns (f: seq<nat>)
    ensures Picks(s, f, Only(group, g, s)) && forall k: nat :: k in f <==> k < |s| && group(s[k]) == g
  {
    OnlyFilters(group, g, s);
    f := FilterSelects((x: A) => group(x) == g, s);
  }

  /** The loops run along x within z. */
  lemma {:induction false} QuadsAt(m: nat, iz: nat, ix: nat, q: Quad)
    requires ix <= m && q.ix < m && (q.iz < iz || (q.iz == iz && q.ix < ix))
    ensures |Quads(m, iz, ix)| == iz * m + ix
    ensures 0 <= q.iz * m + q.ix < |Quads(m, iz, ix)| && Quads(m, iz, ix)[q.iz * m + q.ix] == q
    decreases iz, ix
  {
    QuadsCount(m, iz, ix);
    RowBefore(m, q.iz, q.ix, iz, ix);
    if ix > 0 {
      QuadsCount(m, iz, ix-1);
      if q != Quad(ix-1, iz) {
        QuadsAt(m, iz, ix-1, q);
      }
    } else {
      QuadsAt(m, iz-1, m, q);
    }
  }

  lemma {:induction false} QuadsCount(m: nat, iz: nat, ix: nat)
    ensures |Quads(m, iz, ix)| == iz * m + ix
    decreases iz, ix
  {
    if ix > 0 {
      QuadsCount(m, iz, ix-1);
    } else if iz > 0 {
      QuadsCount(m, iz-1, m);
      assert (iz-1) * m + m == iz * m;
    }
  }

  lemma {:induction false} FlatMapAt(f: Quad -> seq<Vertex>, qs: seq<Quad>, k: nat, j: nat)
    requires FourEach(f) && k < |qs| && j < 4
    ensures |FlatMap(f, qs)| == 4 * |qs| && FlatMap(f, qs)[4*k + j] == f(qs[k])[j]
  {
    var m := |qs| - 1;
    FlatMapLength(f, qs[..m]);
    if k < m {
      FlatMapAt(f, qs[..m], k, j);
    }
  }

  lemma {:induction false} FlatMapLength(f: Quad -> seq<Vertex>, qs: seq<Quad>)
    requires FourEach(f)
    ensures |FlatMap(f, qs)| == 4 * |qs|
  {
    if qs != [] {
      FlatMapLength(f, qs[..|qs|-1]);
    }
  }

  /** The `k`th six indices draw vertices `4k` to `4k+3` as two triangles. */
  ghost predicate SixAt(ids: seq<nat>, k: nat)
  {
    && 6*k + 6 <= |ids|
    && ids[6*k] == 4*k && ids[6*k+1] == 4*k + 3 && ids[6*k+2] == 4*k + 1
    && ids[6*k+3] == 4*k && ids[6*k+4] == 4*k + 2 && ids[6*k+5] == 4*k + 3
  }

  lemma {:induction false} GroupIndicesAt(count: nat, k: nat)
    requires k < count
    ensures |GroupIndices(count)| == 6 * count
    ensures SixAt(GroupIndices(count), k)
  {
    GroupIndicesLength(count-1);
    if k < count-1 {
      GroupIndicesAt(count-1, k);
    }
  }

  lemma {:induction false} GroupIndicesLength(count: nat)
    ensures |GroupIndices(count)| == 6 * count
  {
    if count > 0 {
      GroupIndicesLength(count-1);
    }
  }

  /** The `k`th four vertices are `q`'s corners, and the `k`th six indices its triangles. */
  ghost predicate QuadAt(grid: Grid, p: Primitive, k: nat, q: Quad, tile: real)
  {
    4*k + 4 <= |p.vertices| && Corners(grid, p.vertices[4*k..4*k+4], q, tile) && SixAt(p.indices, k)
  }

  ghost predicate Corners(grid: Grid, vs: seq<Vertex>, q: Quad, tile: real)
  {
    && |vs| == 4
    && CornerAt(grid, vs[0], q.ix, q.iz, tile) && CornerAt(grid, vs[1], q.ix+1, q.iz, tile)
    && CornerAt(grid, vs[2], q.ix, q.iz+1, tile) && CornerAt(grid, vs[3], q.ix+1, q.iz+1, tile)
  }

  lemma QuadCorners(grid: Grid, q: Quad, tile: real)
    requires tile != 0.0
    ensures Corners(grid, VerticesOf(grid, tile)(q), q, tile)
  {
    VertexIsCorner(grid, q.ix, q.iz, tile);
    VertexIsCorner(grid, q.ix+1, q.iz, tile);
    VertexIsCorner(grid, q.ix, q.iz+1, tile);
    VertexIsCorner(grid, q.ix+1, q.iz+1, tile);
  }

  lemma FourAt(f: Quad -> seq<Vertex>, qs: seq<Quad>, k: nat)
    requires FourEach(f) && k < |qs|
    ensures 4*k + 4 <= |FlatMap(f, qs)| && FlatMap(f, qs)[4*k..4*k+4] == f(qs[k])
  {
    FlatMapAt(f, qs, k, 0);
    FlatMapAt(f, qs, k, 1);
    FlatMapAt(f, qs, k, 2);
    FlatMapAt(f, qs, k, 3);
  }

  lemma GroupQuadAt(grid: Grid, tile: real, material: string, regions: seq<Region>, qs: seq<Quad>, g: nat, k: nat)
    requires Tiled(tile, regions) && g <= |regions| && k < |Only(GroupOf(grid, regions), g, qs)|
    ensures QuadAt(grid, GroupPrimitive(grid, tile, material, regions, qs, g), k,
                   Only(GroupOf(grid, regions), g, qs)[k], TileOf(tile, regions, g))
  {
    var (mine, t) := (Only(GroupOf(grid, regions), g, qs), TileOf(tile, regions, g));
    FourAt(VerticesOf(grid, t), mine, k);
    GroupIndicesAt(|mine|, k);
    QuadCorners(grid, mine[k], t);
  }

  // ---- The mesh ----

  function HasVertices(): Primitive -> bool { (p: Primitive) => p.vertices != [] }

  lemma {:induction false} NonEmptyFilters(ps: seq<Primitive>)
    ensures NonEmpty(ps) == Filter(HasVertices(), ps)
  {
    if ps != [] {
      NonEmptyFilters(ps[..|ps|-1]);
    }
  }

  /** The mesh holds the groups with vertices, in region order behind the base. */
  lemma NonEmptyIs(ps: seq<Primitive>) returns (f: seq<nat>)
    ensures Picks(ps, f, NonEmpty(ps)) && forall k: nat :: k in f <==> k < |ps| && ps[k].vertices != []
  {
    NonEmptyFilters(ps);
    f := FilterSelects(HasVertices(), ps);
  }

  ghost predicate DrawnIn(grid: Grid, mesh: seq<Primitive>, q: Quad, tile: real, material: string)
  {
    exists p, k :: p in mesh && p.material == material && QuadAt(grid, p, k, q, tile)
  }

  lemma PlaceInGroup(m: nat, group: Quad -> nat, q: Quad) returns (k: nat)
    requires q.ix < m && q.iz < m
    ensures var mine := Only(group, group(q), Quads(m, m, 0));
      k < |mine| && mine[k] == q
  {
    QuadsAt(m, m, 0, q);
    var f := OnlyIs(group, group(q), Quads(m, m, 0));
    k :| 0 <= k < |f| && f[k] == q.iz * m + q.ix;
  }

  lemma InMesh(ps: seq<Primitive>, g: nat)
    requires g < |ps| && ps[g].vertices != []
    ensures ps[g] in NonEmpty(ps)
  {
    var f := NonEmptyIs(ps);
    assert g in f;
    var i :| 0 <= i < |f| && f[i] == g;
    assert NonEmpty(ps)[i] == ps[g];
  }

  lemma GroupDrawn(grid: Grid, tile: real, material: string, regions: seq<Region>, qs: seq<Quad>, g: nat, k: nat)
    requires Tiled(tile, regions) && g <= |regions| && k < |Only(GroupOf(grid, regions), g, qs)|
    ensures DrawnIn(grid, NonEmpty(AllPrimitives(grid, tile, material, regions, qs)),
                    Only(GroupOf(grid, regions), g, qs)[k], TileOf(tile, regions, g), MaterialOf(material, regions, g))
  {
    GroupQuadAt(grid, tile, material, regions, qs, g, k);
    InMesh(AllPrimitives(grid, tile, material, regions, qs), g);
  }

  lemma PlacedDrawn(grid: Grid, tile: real, material: string, regions: seq<Region>, qs: seq<Quad>, q: Quad, g: nat, k: nat)
    requires Tiled(tile, regions) && g <= |regions|
    requires k < |Only(GroupOf(grid, regions), g, qs)| && Only(GroupOf(grid, regions), g, qs)[k] == q
    ensures DrawnIn(grid, NonEmpty(AllPrimitives(grid, tile, material, regions, qs)), q,
                    if g == 0 then tile else regions[g-1].tile, if g == 0 then material else regions[g-1].material)
  {
    GroupDrawn(grid, tile, material, regions, qs, g, k);
  }

  /** Every quad of the grid is drawn under the material and with the tile of the last region
      that holds its centre, or of the base. */
  lemma EveryQuadIsDrawn(grid: Grid, tile: real, material: string, regions: seq<Region>, q: Quad)
    requires grid.n >= 2 && Tiled(tile, regions) && q.ix < grid.n-1 && q.iz < grid.n-1
    ensures var g := grid.RegionOf(regions, q);
      DrawnIn(grid, NonEmpty(AllPrimitives(grid, tile, material, regions, Quads(grid.n-1, grid.n-1, 0))), q,
              if g == 0 then tile else regions[g-1].tile, if g == 0 then material else regions[g-1].material)
  {
    var k := PlaceInGroup(grid.n-1, GroupOf(grid, regions), q);
    PlacedDrawn(grid, tile, material, regions, Quads(grid.n-1, grid.n-1, 0), q, grid.RegionOf(regions, q), k);
  }

  /** A group without quads has no primitive, and each that has one holds its quads alone. */
  lemma OnlyOwnQuads(grid: Grid, tile: real, material: string, regions: seq<Region>, qs: seq<Quad>, g: nat)
    requires Tiled(tile, regions) && g <= |regions|
    ensures var p := GroupPrimitive(grid, tile, material, regions, qs, g);
      var mine := Only(GroupOf(grid, regions), g, qs);
      && |p.vertices| == 4 * |mine| && |p.indices| == 6 * |mine|
      && (p.vertices == [] <==> forall q :: q in qs ==> grid.RegionOf(regions, q) != g)
  {
    var mine := Only(GroupOf(grid, regions), g, qs);
    FlatMapLength(VerticesOf(grid, TileOf(tile, regions, g)), mine);
    GroupIndicesLength(|mine|);
    var f := OnlyIs(GroupOf(grid, regions), g, qs);
    if mine != [] {
      assert f[0] in f && qs[f[0]] in qs;
    }
    if q :| q in qs && grid.RegionOf(regions, q) == g {
      var k: nat :| k < |qs| && qs[k] == q;
      assert k in f;
    }
  }
}
