/** The region-split ground draws exactly the uniform ground's triangles
    (client/vordar-client/src/ground.rs). */
module GroundSplit {
  import opened GroundMesh

  type Positions = seq<Vec3>

  function PositionsOf(vertices: seq<Vertex>): (r: Positions)
    ensures |r| == |vertices| && forall i :: 0 <= i < |r| ==> r[i] == vertices[i].position
  {
    seq(|vertices|, i requires 0 <= i < |vertices| => vertices[i].position)
  }

  predicate InRange(n: nat, indices: seq<nat>)
  {
    |indices| % 3 == 0 && forall i :: 0 <= i < |indices| ==> indices[i] < n
  }

  /** The triangles an index buffer draws, as position triples. */
  function Drawn(ps: Positions, indices: seq<nat>): seq<Tri>
    requires InRange(|ps|, indices)
  {
    if indices == [] then []
    else
      var k := |indices| - 3;
      Drawn(ps, indices[..k]) + [(ps[indices[k]], ps[indices[k+1]], ps[indices[k+2]])]
  }

  lemma {:induction false} DrawnExtends(ps: Positions, more: Positions, indices: seq<nat>)
    requires InRange(|ps|, indices)
    ensures InRange(|ps + more|, indices)
    ensures Drawn(ps + more, indices) == Drawn(ps, indices)
  {
    if indices != [] {
      DrawnExtends(ps, more, indices[..|indices|-3]);
    }
  }

  lemma DrawnAppends(ps: Positions, indices: seq<nat>, x: nat, y: nat, z: nat)
    requires InRange(|ps|, indices) && x < |ps| && y < |ps| && z < |ps|
    ensures InRange(|ps|, indices + [x, y, z])
    ensures Drawn(ps, indices + [x, y, z]) == Drawn(ps, indices) + [(ps[x], ps[y], ps[z])]
  {
    assert (indices + [x, y, z])[..|indices|] == indices;
  }

  lemma DrawnQuad(ps: Positions, indices: seq<nat>, a: nat, b: nat, c: nat, d: nat)
    requires InRange(|ps|, indices) && a < |ps| && b < |ps| && c < |ps| && d < |ps|
    ensures InRange(|ps|, indices + QuadIndices(a, b, c, d))
    ensures Drawn(ps, indices + QuadIndices(a, b, c, d))
         == Drawn(ps, indices) + [(ps[a], ps[d], ps[b]), (ps[a], ps[c], ps[d])]
  {
    DrawnAppends(ps, indices, a, d, b);
    DrawnAppends(ps, indices + [a, d, b], a, c, d);
    assert indices + QuadIndices(a, b, c, d) == indices + [a, d, b] + [a, c, d];
  }

  /** `f` puts a quad's corners in builder order, `tris` draws them. */
  ghost predicate Draws(f: Quad -> seq<Vertex>, tris: Quad -> seq<Tri>)
  {
    forall q: Quad :: |f(q)| == 4 && tris(q)
      == [(f(q)[0].position, f(q)[3].position, f(q)[1].position), (f(q)[0].position, f(q)[2].position, f(q)[3].position)]
  }

  lemma GridDraws(grid: Grid, tile: real)
    requires tile != 0.0
    ensures Draws(VerticesOf(grid, tile), TrisOf(grid))
  {
  }

  lemma PositionsConcat(a: seq<Vertex>, b: seq<Vertex>)
    ensures PositionsOf(a + b) == PositionsOf(a) + PositionsOf(b)
  {
  }

  /** A group draws its own quads, all its indices in range. */
  lemma {:induction false} GroupDraws(f: Quad -> seq<Vertex>, tris: Quad -> seq<Tri>, qs: seq<Quad>)
    requires Draws(f, tris)
    ensures var vs := FlatMap(f, qs);
      && |vs| == 4 * |qs| && InRange(|vs|, GroupIndices(|qs|))
      && Drawn(PositionsOf(vs), GroupIndices(|qs|)) == FlatMap(tris, qs)
  {
    if qs != [] {
      var (init, q) := (qs[..|qs|-1], qs[|qs|-1]);
      GroupDraws(f, tris, init);
      QuadDraws(f, tris, FlatMap(f, init), |init|, q);
    }
  }

  lemma QuadDraws(f: Quad -> seq<Vertex>, tris: Quad -> seq<Tri>, before: seq<Vertex>, count: nat, q: Quad)
    requires Draws(f, tris) && |before| == 4 * count && InRange(|before|, GroupIndices(count))
    ensures InRange(|before + f(q)|, GroupIndices(count + 1))
    ensures Drawn(PositionsOf(before + f(q)), GroupIndices(count + 1)) == Drawn(PositionsOf(before), GroupIndices(count)) + tris(q)
  {
    var k := 4 * count;
    PositionsConcat(before, f(q));
    DrawnExtends(PositionsOf(before), PositionsOf(f(q)), GroupIndices(count));
    DrawnQuad(PositionsOf(before + f(q)), GroupIndices(count), k, k+1, k+2, k+3);
  }

  // ---- The shared lattice ----

  lemma {:induction false} Spread(n: nat, low: nat, high: nat)
    requires low < high
    ensures low * n + n <= high * n
    decreases high
  {
    assert high * n == (high-1) * n + n;
    if low < high-1 {
      Spread(n, low, high-1);
    }
  }

  lemma RowBefore(n: nat, cz: nat, cx: nat, iz: nat, ix: nat)
    requires cx < n && (cz < iz || (cz == iz && cx < ix))
    ensures cz * n + cx < iz * n + ix
  {
    if cz < iz {
      Spread(n, cz, iz);
    }
  }

  lemma {:induction false} LatticeSize(grid: Grid, iz: nat, ix: nat, tile: real)
    requires tile != 0.0 && ix <= grid.n
    ensures |grid.Lattice(iz, ix, tile)| == iz * grid.n + ix
    decreases iz, ix
  {
    if ix > 0 {
      LatticeSize(grid, iz, ix-1, tile);
    } else if iz > 0 {
      LatticeSize(grid, iz-1, grid.n, tile);
      assert (iz-1) * grid.n + grid.n == iz * grid.n;
    }
  }

  lemma {:induction false} LatticeAt(grid: Grid, iz: nat, ix: nat, tile: real, cx: nat, cz: nat)
    requires tile != 0.0 && ix <= grid.n && cx < grid.n && (cz < iz || (cz == iz && cx < ix))
    ensures 0 <= cz * grid.n + cx < |grid.Lattice(iz, ix, tile)|
    ensures grid.Lattice(iz, ix, tile)[cz * grid.n + cx] == grid.VertexAt(cx, cz, tile)
    decreases iz, ix
  {
    LatticeSize(grid, iz, ix, tile);
    RowBefore(grid.n, cz, cx, iz, ix);
    if ix > 0 {
      LatticeSize(grid, iz, ix-1, tile);
      if !(cz == iz && cx == ix-1) {
        LatticeAt(grid, iz, ix-1, tile, cx, cz);
      }
    } else {
      LatticeAt(grid, iz-1, grid.n, tile, cx, cz);
    }
  }

  ghost predicate OnGrid(m: nat, qs: seq<Quad>)
  {
    forall i :: 0 <= i < |qs| ==> qs[i].ix < m && qs[i].iz < m
  }

  lemma {:induction false} QuadsOnGrid(m: nat, iz: nat, ix: nat)
    requires ix <= m && iz <= m && (iz == m ==> ix == 0)
    ensures OnGrid(m, Quads(m, iz, ix))
    decreases iz, ix
  {
    if ix > 0 {
      QuadsOnGrid(m, iz, ix-1);
    } else if iz > 0 {
      QuadsOnGrid(m, iz-1, m);
    }
  }

  /** The four shared corners of a quad. */
  ghost predicate CornersAt(grid: Grid, ps: Positions, q: Quad, a: nat)
  {
    && a + grid.n + 1 < |ps|
    && ps[a] == grid.Position(q.ix, q.iz) && ps[a+1] == grid.Position(q.ix+1, q.iz)
    && ps[a+grid.n] == grid.Position(q.ix, q.iz+1) && ps[a+grid.n+1] == grid.Position(q.ix+1, q.iz+1)
  }

  ghost predicate LatticePositions(grid: Grid, tile: real, ps: Positions)
    requires tile != 0.0
  {
    ps == PositionsOf(grid.Lattice(grid.n, 0, tile))
  }

  lemma LatticeCorner(grid: Grid, tile: real, ps: Positions, cx: nat, cz: nat)
    requires tile != 0.0 && LatticePositions(grid, tile, ps) && cx < grid.n && cz < grid.n
    ensures 0 <= cz * grid.n + cx < |ps| && ps[cz * grid.n + cx] == grid.Position(cx, cz)
  {
    LatticeAt(grid, grid.n, 0, tile, cx, cz);
  }

  lemma NextRow(n: nat, cx: nat, cz: nat)
    ensures (cz+1) * n + cx == cz * n + cx + n
  {
  }

  lemma LatticeCorners(grid: Grid, tile: real, ps: Positions, q: Quad)
    requires tile != 0.0 && LatticePositions(grid, tile, ps) && q.ix + 1 < grid.n && q.iz + 1 < grid.n
    ensures CornersAt(grid, ps, q, q.iz * grid.n + q.ix)
  {
    NextRow(grid.n, q.ix, q.iz);
    NextRow(grid.n, q.ix+1, q.iz);
    LatticeCorner(grid, tile, ps, q.ix, q.iz);
    LatticeCorner(grid, tile, ps, q.ix+1, q.iz);
    LatticeCorner(grid, tile, ps, q.ix, q.iz+1);
    LatticeCorner(grid, tile, ps, q.ix+1, q.iz+1);
  }

  /** The six indices `ids` draw the two triangles `ts`. */
  ghost predicate DrawsPair(ps: Positions, ids: seq<nat>, ts: seq<Tri>)
  {
    && |ids| == 6 && InRange(|ps|, ids)
    && ts == [(ps[ids[0]], ps[ids[1]], ps[ids[2]]), (ps[ids[3]], ps[ids[4]], ps[ids[5]])]
  }

  lemma CornersDraw(grid: Grid, ps: Positions, q: Quad)
    requires CornersAt(grid, ps, q, q.iz * grid.n + q.ix)
    ensures DrawsPair(ps, SharedQuad(grid.n)(q), TrisOf(grid)(q))
  {
  }

  lemma DrawnPair(ps: Positions, indices: seq<nat>, ids: seq<nat>, ts: seq<Tri>)
    requires InRange(|ps|, indices) && DrawsPair(ps, ids, ts)
    ensures InRange(|ps|, indices + ids)
    ensures Drawn(ps, indices + ids) == Drawn(ps, indices) + ts
  {
    DrawnAppends(ps, indices, ids[0], ids[1], ids[2]);
    DrawnAppends(ps, indices + [ids[0], ids[1], ids[2]], ids[3], ids[4], ids[5]);
    assert indices + ids == indices + [ids[0], ids[1], ids[2]] + [ids[3], ids[4], ids[5]];
  }

  lemma {:induction false} SharedDraws(ps: Positions, shared: Quad -> seq<nat>, tris: Quad -> seq<Tri>, qs: seq<Quad>)
    requires forall i :: 0 <= i < |qs| ==> DrawsPair(ps, shared(qs[i]), tris(qs[i]))
    ensures InRange(|ps|, FlatMap(shared, qs))
    ensures Drawn(ps, FlatMap(shared, qs)) == FlatMap(tris, qs)
  {
    if qs != [] {
      var (init, q) := (qs[..|qs|-1], qs[|qs|-1]);
      SharedDraws(ps, shared, tris, init);
      DrawnPair(ps, FlatMap(shared, init), shared(q), tris(q));
    }
  }

  lemma UniformDraws(grid: Grid, tile: real, qs: seq<Quad>)
    requires tile != 0.0 && grid.n >= 2 && OnGrid(grid.n-1, qs)
    ensures var ps := PositionsOf(grid.Lattice(grid.n, 0, tile));
      && InRange(|ps|, FlatMap(SharedQuad(grid.n), qs))
      && Drawn(ps, FlatMap(SharedQuad(grid.n), qs)) == FlatMap(TrisOf(grid), qs)
  {
    var ps := PositionsOf(grid.Lattice(grid.n, 0, tile));
    forall i | 0 <= i < |qs|
      ensures DrawsPair(ps, SharedQuad(grid.n)(qs[i]), TrisOf(grid)(qs[i]))
    {
      LatticeCorners(grid, tile, ps, qs[i]);
      CornersDraw(grid, ps, qs[i]);
    }
    SharedDraws(ps, SharedQuad(grid.n), TrisOf(grid), qs);
  }

  // ---- The split is a permutation ----

  ghost function Total<T>(part: nat -> multiset<T>, count: nat): multiset<T>
  {
    if count == 0 then multiset{} else Total(part, count-1) + part(count-1)
  }

  /** The triangles of each group. */
  ghost function GroupTris<A, T>(tris: A -> seq<T>, group: A -> nat, qs: seq<A>): nat -> multiset<T>
  {
    (g: nat) => multiset(FlatMap(tris, Only(group, g, qs)))
  }

  lemma GroupStep<A, T>(tris: A -> seq<T>, group: A -> nat, qs: seq<A>, q: A, g: nat)
    ensures GroupTris(tris, group, qs + [q])(g)
         == if group(q) == g then GroupTris(tris, group, qs)(g) + multiset(tris(q)) else GroupTris(tris, group, qs)(g)
  {
    OnlyStep(group, g, qs, q);
    FlatMapStep(tris, Only(group, g, qs), q);
  }

  lemma Shuffle<T>(a: multiset<T>, b: multiset<T>, c: multiset<T>)
    ensures (a + b) + c == (a + c) + b == a + (b + c)
  {
  }

  /** Growing one part grows the total by as much. */
  lemma {:induction false} TotalGrows<T>(part: nat -> multiset<T>, more: nat -> multiset<T>, k: nat, x: multiset<T>, count: nat)
    requires forall g: nat :: more(g) == if g == k then part(g) + x else part(g)
    ensures Total(more, count) == if k < count then Total(part, count) + x else Total(part, count)
  {
    if count > 0 {
      TotalGrows(part, more, k, x, count-1);
      Shuffle(Total(part, count-1), part(count-1), x);
    }
  }

  lemma {:induction false} TotalEmpty<T>(part: nat -> multiset<T>, count: nat)
    requires forall g: nat :: part(g) == multiset{}
    ensures Total(part, count) == multiset{}
  {
    if count > 0 {
      TotalEmpty(part, count-1);
    }
  }

  /** The groups' triangles taken together are all triangles. */
  lemma {:induction false} GroupsPartition<A, T>(tris: A -> seq<T>, group: A -> nat, qs: seq<A>, count: nat)
    requires forall q: A :: group(q) < count
    ensures Total(GroupTris(tris, group, qs), count) == multiset(FlatMap(tris, qs))
  {
    if qs == [] {
      TotalEmpty(GroupTris(tris, group, qs), count);
    } else {
      var (init, q) := (qs[..|qs|-1], qs[|qs|-1]);
      assert qs == init + [q];
      GroupsPartition(tris, group, init, count);
      forall g: nat ensures GroupTris(tris, group, qs)(g)
        == if g == group(q) then GroupTris(tris, group, init)(g) + multiset(tris(q)) else GroupTris(tris, group, init)(g)
      {
        GroupStep(tris, group, init, q, g);
      }
      TotalGrows(GroupTris(tris, group, init), GroupTris(tris, group, qs), group(q), multiset(tris(q)), count);
      FlatMapStep(tris, init, q);
    }
  }

  ghost predicate MeshInRange(mesh: seq<Primitive>)
  {
    forall i :: 0 <= i < |mesh| ==> Drawable(mesh[i])
  }

  ghost predicate Drawable(p: Primitive)
  {
    InRange(|p.vertices|, p.indices)
  }

  ghost function PrimitiveTris(p: Primitive): multiset<Tri>
  {
    if Drawable(p) then multiset(Drawn(PositionsOf(p.vertices), p.indices)) else multiset{}
  }

  ghost function Gathered<A, T>(f: A -> multiset<T>, s: seq<A>): multiset<T>
  {
    if s == [] then multiset{} else Gathered(f, s[..|s|-1]) + f(s[|s|-1])
  }

  ghost function TrisOfPrimitive(): Primitive -> multiset<Tri> { (p: Primitive) => PrimitiveTris(p) }

  /** All triangles of a mesh, over all its primitives. */
  ghost function MeshTris(mesh: seq<Primitive>): multiset<Tri> { Gathered(TrisOfPrimitive(), mesh) }

  lemma OneGroupDraws(grid: Grid, tile: real, material: string, regions: seq<Region>, qs: seq<Quad>, g: nat)
    requires Tiled(tile, regions) && g <= |regions|
    ensures var p := GroupPrimitive(grid, tile, material, regions, qs, g);
      && InRange(|p.vertices|, p.indices)
      && Drawn(PositionsOf(p.vertices), p.indices) == FlatMap(TrisOf(grid), Only(GroupOf(grid, regions), g, qs))
      && (p.vertices == [] ==> p.indices == [])
  {
    GridDraws(grid, TileOf(tile, regions, g));
    GroupDraws(VerticesOf(grid, TileOf(tile, regions, g)), TrisOf(grid), Only(GroupOf(grid, regions), g, qs));
  }

  lemma GatheredStep<A, T>(f: A -> multiset<T>, s: seq<A>, x: A)
    ensures Gathered(f, s + [x]) == Gathered(f, s) + f(x)
  {
    assert (s + [x])[..|s|] == s;
  }

  /** Leaving empty primitives out loses nothing. */
  lemma {:induction false} NonEmptyGathered<T>(f: Primitive -> multiset<T>, ps: seq<Primitive>)
    requires forall i :: 0 <= i < |ps| ==> ps[i].vertices == [] ==> f(ps[i]) == multiset{}
    ensures Gathered(f, NonEmpty(ps)) == Gathered(f, ps)
  {
    if ps != [] {
      var (init, p) := (ps[..|ps|-1], ps[|ps|-1]);
      NonEmptyGathered(f, init);
      if p.vertices == [] {
        assert NonEmpty(ps) == NonEmpty(init);
        assert f(p) == multiset{};
        assert Gathered(f, ps) == Gathered(f, init) + f(p);
      } else {
        assert NonEmpty(ps) == NonEmpty(init) + [p];
        GatheredStep(f, NonEmpty(init), p);
      }
    }
  }

  lemma {:induction false} NonEmptyDrawable(ps: seq<Primitive>)
    requires MeshInRange(ps)
    ensures MeshInRange(NonEmpty(ps))
  {
    if ps != [] {
      NonEmptyDrawable(ps[..|ps|-1]);
    }
  }

  lemma {:induction false} GatheredIsTotal<A, T>(f: A -> multiset<T>, s: seq<A>, part: nat -> multiset<T>)
    requires forall i :: 0 <= i < |s| ==> f(s[i]) == part(i)
    ensures Gathered(f, s) == Total(part, |s|)
  {
    if s != [] {
      GatheredIsTotal(f, s[..|s|-1], part);
    }
  }

  ghost predicate Fits(p: Primitive, tris: multiset<Tri>)
  {
    Drawable(p) && PrimitiveTris(p) == tris && (p.vertices == [] ==> tris == multiset{})
  }

  lemma GroupFits(grid: Grid, tile: real, material: string, regions: seq<Region>, qs: seq<Quad>, g: nat)
    requires Tiled(tile, regions) && g <= |regions|
    ensures Fits(GroupPrimitive(grid, tile, material, regions, qs, g), GroupTris(TrisOf(grid), GroupOf(grid, regions), qs)(g))
  {
    OneGroupDraws(grid, tile, material, regions, qs, g);
  }

  lemma FittingDraw(all: seq<Primitive>, part: nat -> multiset<Tri>)
    requires forall g :: 0 <= g < |all| ==> Fits(all[g], part(g))
    ensures MeshInRange(NonEmpty(all)) && MeshTris(NonEmpty(all)) == Total(part, |all|)
  {
    GatheredIsTotal(TrisOfPrimitive(), all, part);
    NonEmptyGathered(TrisOfPrimitive(), all);
    NonEmptyDrawable(all);
  }

  lemma SplitDraws(grid: Grid, tile: real, material: string, regions: seq<Region>, qs: seq<Quad>)
    requires Tiled(tile, regions)
    ensures var mesh := NonEmpty(AllPrimitives(grid, tile, material, regions, qs));
      && MeshInRange(mesh)
      && MeshTris(mesh) == Total(GroupTris(TrisOf(grid), GroupOf(grid, regions), qs), |regions| + 1)
  {
    var all := AllPrimitives(grid, tile, material, regions, qs);
    var part := GroupTris(TrisOf(grid), GroupOf(grid, regions), qs);
    forall g | 0 <= g < |all| ensures Fits(all[g], part(g))
    {
      GroupFits(grid, tile, material, regions, qs, g);
    }
    FittingDraw(all, part);
  }

  /** `mesh` draws the triangles of `whole`, each as often, with all indices in range. */
  ghost predicate DrawsSame(mesh: seq<Primitive>, whole: Primitive)
  {
    && MeshInRange(mesh) && InRange(|whole.vertices|, whole.indices)
    && MeshTris(mesh) == multiset(Drawn(PositionsOf(whole.vertices), whole.indices))
  }

  lemma SplitIsShared(grid: Grid, tile: real, material: string, regions: seq<Region>, qs: seq<Quad>, whole: Primitive)
    requires Tiled(tile, regions) && grid.n >= 2 && OnGrid(grid.n-1, qs)
    requires whole.vertices == grid.Lattice(grid.n, 0, tile) && whole.indices == FlatMap(SharedQuad(grid.n), qs)
    ensures DrawsSame(NonEmpty(AllPrimitives(grid, tile, material, regions, qs)), whole)
  {
    SplitDraws(grid, tile, material, regions, qs);
    GroupsPartition(TrisOf(grid), GroupOf(grid, regions), qs, |regions| + 1);
    UniformDraws(grid, tile, qs);
  }

  /** For every region list, the split ground's triangles are a permutation of the
      uniform ground's, and every index of either is in range. */
  lemma SplitDrawsUniform(grid: Grid, tile: real, material: string, regions: seq<Region>)
    requires grid.n >= 2 && Tiled(tile, regions)
    ensures var mesh := NonEmpty(AllPrimitives(grid, tile, material, regions, Quads(grid.n-1, grid.n-1, 0)));
      DrawsSame(mesh, UniformPrimitive(grid, tile, material))
  {
    QuadsOnGrid(grid.n-1, grid.n-1, 0);
    SplitIsShared(grid, tile, material, regions, Quads(grid.n-1, grid.n-1, 0), UniformPrimitive(grid, tile, material));
  }

  // ---- Which region, and which texture coordinates ----

  /** `RegionOf` is the last region holding the quad's centre, or the base. */
  lemma {:induction false} RegionIsLast(grid: Grid, regions: seq<Region>, q: Quad)
    ensures var g := grid.RegionOf(regions, q);
      && (g > 0 ==> grid.Contains(regions[g-1], q))
      && forall i :: g <= i < |regions| ==> !grid.Contains(regions[i], q)
  {
    if regions != [] && !grid.Contains(regions[|regions|-1], q) {
      RegionIsLast(grid, regions[..|regions|-1], q);
    }
  }

  /** A group holds each quad of its own exactly as often as the grid does, and no other. */
  lemma {:induction false} OnlyItsQuads(group: Quad -> nat, g: nat, qs: seq<Quad>, q: Quad)
    ensures multiset(Only(group, g, qs))[q] == if group(q) == g then multiset(qs)[q] else 0
  {
    if qs != [] {
      OnlyItsQuads(group, g, qs[..|qs|-1], q);
      assert qs == qs[..|qs|-1] + [qs[|qs|-1]];
    }
  }

  /** The region's bounds are grid lines, on the grid or beyond it. */
  ghost predicate Snapped(grid: Grid, r: Region, left: int, right: int, near: int, far: int)
  {
    && r.min.0 == Line(grid, left) && r.max.0 == Line(grid, right)
    && r.min.1 == Line(grid, near) && r.max.1 == Line(grid, far)
  }

  function Line(grid: Grid, c: int): real { -grid.half + c as real * grid.step }

  /** The whole quad lies in the region. */
  predicate Covers(grid: Grid, r: Region, q: Quad)
  {
    && r.min.0 <= grid.X(q.ix) && grid.X(q.ix + 1) <= r.max.0
    && r.min.1 <= grid.X(q.iz) && grid.X(q.iz + 1) <= r.max.1
  }

  lemma Steps(a: real, b: real, step: real, u: real, v: real)
    requires step > 0.0 && u == a * step && v == b * step
    ensures a <= b <==> u <= v
  {
    if a <= b {
      assert (b - a) * step >= 0.0;
    } else {
      assert (a - b) * step > 0.0;
    }
  }

  /** `line` is `c` steps out, the quad runs from `i` steps to `i + 1`. */
  ghost predicate InStep(c: int, i: nat, line: real, centre: real, here: real, next: real)
  {
    && (c <= i <==> line <= centre) && (c <= i <==> line <= here) && (i + 1 <= c <==> next <= line)
  }

  lemma WholeOrHalf(c: int, i: nat)
    ensures c as real <= i as real + 0.5 <==> c <= i
    ensures c as real <= i as real <==> c <= i
    ensures (i + 1) as real <= c as real <==> i + 1 <= c
  {
  }

  lemma StepsTell(c: int, i: nat, step: real, line: real, centre: real, here: real, next: real)
    requires step > 0.0 && line == c as real * step && centre == (i as real + 0.5) * step
    requires here == i as real * step && next == (i + 1) as real * step
    ensures InStep(c, i, line, centre, here, next)
  {
    WholeOrHalf(c, i);
    Steps(c as real, i as real + 0.5, step, line, centre);
    Steps(c as real, i as real, step, line, here);
    Steps((i + 1) as real, c as real, step, next, line);
  }

  /** The quad lies between two lines exactly when its centre does. */
  lemma BetweenLines(low: int, high: int, i: nat, half: real, min: real, max: real, centre: real, here: real, next: real)
    requires InStep(low, i, min + half, centre + half, here + half, next + half)
    requires InStep(high, i, max + half, centre + half, here + half, next + half)
    ensures centre >= min && centre < max <==> min <= here && next <= max
  {
  }

  lemma OffLine(grid: Grid, c: int, i: nat)
    requires grid.step > 0.0
    ensures InStep(c, i, Line(grid, c) + grid.half, grid.Centre(i) + grid.half, grid.X(i) + grid.half, grid.X(i+1) + grid.half)
  {
    StepsTell(c, i, grid.step, Line(grid, c) + grid.half, grid.Centre(i) + grid.half, grid.X(i) + grid.half, grid.X(i+1) + grid.half);
  }

  lemma AxisOf(grid: Grid, low: int, high: int, i: nat, min: real, max: real, centre: real, here: real, next: real)
    requires grid.step > 0.0 && min == Line(grid, low) && max == Line(grid, high)
    requires centre == grid.Centre(i) && here == grid.X(i) && next == grid.X(i+1)
    ensures centre >= min && centre < max <==> min <= here && next <= max
  {
    OffLine(grid, low, i);
    OffLine(grid, high, i);
    BetweenLines(low, high, i, grid.half, min, max, centre, here, next);
  }

  /** For a region on grid lines, a quad's centre lies in it exactly when the quad does: no
      boundary quad is ambiguous. */
  lemma CentreMeansQuad(grid: Grid, r: Region, q: Quad, left: int, right: int, near: int, far: int)
    requires grid.step > 0.0 && Snapped(grid, r, left, right, near, far)
    ensures grid.Contains(r, q) <==> Covers(grid, r, q)
  {
    AxisOf(grid, left, right, q.ix, r.min.0, r.max.0, grid.Centre(q.ix), grid.X(q.ix), grid.X(q.ix + 1));
    AxisOf(grid, near, far, q.iz, r.min.1, r.max.1, grid.Centre(q.iz), grid.X(q.iz), grid.X(q.iz + 1));
  }

  lemma CountLast<A>(s: seq<A>, x: A, q: A)
    ensures multiset(s + [x])[q] == multiset(s)[q] + if x == q then 1 else 0
  {
  }

  lemma QuadsStep(m: nat, iz: nat, ix: nat)
    ensures Quads(m, iz, ix+1) == Quads(m, iz, ix) + [Quad(ix, iz)]
    ensures Quads(m, iz+1, 0) == Quads(m, iz, m)
  {
  }

  /** The loops visit each quad of the grid exactly once. */
  lemma {:induction false} QuadsOnce(m: nat, iz: nat, ix: nat, q: Quad)
    requires ix <= m
    ensures multiset(Quads(m, iz, ix))[q] == if q.ix < m && (q.iz < iz || (q.iz == iz && q.ix < ix)) then 1 else 0
    decreases iz, ix
  {
    if ix > 0 {
      var before := Quads(m, iz, ix-1);
      QuadsOnce(m, iz, ix-1, q);
      QuadsStep(m, iz, ix-1);
      CountLast(before, Quad(ix-1, iz), q);
    } else if iz > 0 {
      QuadsOnce(m, iz-1, m, q);
      QuadsStep(m, iz-1, 0);
    }
  }

  /** Every vertex of a group carries its position over the group's own tile. */
  lemma {:induction false} UvIsPosition(grid: Grid, qs: seq<Quad>, tile: real, i: nat)
    requires tile != 0.0 && i < |FlatMap(VerticesOf(grid, tile), qs)|
    ensures var v := FlatMap(VerticesOf(grid, tile), qs)[i];
      v.uv == (v.position.x / tile, v.position.z / tile)
  {
    var init := FlatMap(VerticesOf(grid, tile), qs[..|qs|-1]);
    if i < |init| {
      UvIsPosition(grid, qs[..|qs|-1], tile, i);
    }
  }
}
