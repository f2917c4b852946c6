/** The zone ground mesh (client/vordar-client/src/ground.rs): one shared-grid primitive
    when there are no regions, or else one primitive per material region with four vertices
    a quad, the base material first and empty groups left out. The height field and its
    normals are parameters of the grid. */
module GroundMesh {

  datatype Vec3 = Vec3(x: real, y: real, z: real)

  datatype Vertex = Vertex(position: Vec3, normal: Vec3, uv: (real, real))

  datatype Region = Region(min: (real, real), max: (real, real), tile: real, material: string)

  datatype Primitive = Primitive(vertices: seq<Vertex>, indices: seq<nat>, material: string)

  datatype Quad = Quad(ix: nat, iz: nat)

  type Tri = (Vec3, Vec3, Vec3)

  // ---- Sequences in loop order ----

  function FlatMap<A, B>(f: A -> seq<B>, s: seq<A>): seq<B>
  {
    if s == [] then [] else FlatMap(f, s[..|s|-1]) + f(s[|s|-1])
  }

  lemma FlatMapStep<A, B>(f: A -> seq<B>, s: seq<A>, x: A)
    ensures FlatMap(f, s + [x]) == FlatMap(f, s) + f(x)
  {
    assert (s + [x])[..|s|] == s;
  }

  /** The elements of group `g`, in order. */
  function Only<A>(group: A -> nat, g: nat, s: seq<A>): seq<A>
  {
    if s == [] then []
    else Only(group, g, s[..|s|-1]) + if group(s[|s|-1]) == g then [s[|s|-1]] else []
  }

  lemma OnlyStep<A>(group: A -> nat, g: nat, s: seq<A>, x: A)
    ensures Only(group, g, s + [x]) == if group(x) == g then Only(group, g, s) + [x] else Only(group, g, s)
  {
    assert (s + [x])[..|s|] == s;
  }

  /** Quads in loop order: whole rows of `m` below `iz`, then `ix` of row `iz`. */
  function Quads(m: nat, iz: nat, ix: nat): seq<Quad>
    decreases iz, ix
  {
    if ix > 0 then Quads(m, iz, ix-1) + [Quad(ix-1, iz)]
    else if iz > 0 then Quads(m, iz-1, m)
    else []
  }

  // ---- Geometry ----

  /** The height field and its normals, and the grid: `n` vertices a side, `step` apart,
      centred on the origin. */
  datatype Grid = Grid(height: (real, real) -> real, normal: (real, real) -> Vec3, n: nat, step: real, half: real)
  {
    function X(c: nat): real { -half + c as real * step }

    function Position(cx: nat, cz: nat): Vec3
    {
      Vec3(X(cx), height(X(cx), X(cz)), X(cz))
    }

    function VertexAt(cx: nat, cz: nat, tile: real): Vertex
      requires tile != 0.0
    {
      Vertex(Position(cx, cz), normal(X(cx), X(cz)), (X(cx) / tile, X(cz) / tile))
    }

    /** The two triangles of a quad, counter-clockwise seen from above. */
    function QuadTris(q: Quad): seq<Tri>
    {
      var (a, b, c, d) := (Position(q.ix, q.iz), Position(q.ix+1, q.iz), Position(q.ix, q.iz+1), Position(q.ix+1, q.iz+1));
      [(a, d, b), (a, c, d)]
    }

    /** The last region containing the quad's centre, counting from 1; else 0. */
    function RegionOf(regions: seq<Region>, q: Quad): (g: nat)
      ensures g <= |regions|
    {
      if regions == [] then 0
      else if Contains(regions[|regions|-1], q) then |regions|
      else RegionOf(regions[..|regions|-1], q)
    }

    /** Half a step off the grid line. */
    function Centre(c: nat): real { -half + (c as real + 0.5) * step }

    predicate Contains(r: Region, q: Quad)
    {
      var (xc, zc) := (Centre(q.ix), Centre(q.iz));
      xc >= r.min.0 && xc < r.max.0 && zc >= r.min.1 && zc < r.max.1
    }

    /** Four vertices a quad, in the order the region builder pushes them. */
    function QuadVertices(q: Quad, tile: real): (r: seq<Vertex>)
      requires tile != 0.0
      ensures |r| == 4
    {
      [VertexAt(q.ix, q.iz, tile), VertexAt(q.ix+1, q.iz, tile), VertexAt(q.ix, q.iz+1, tile), VertexAt(q.ix+1, q.iz+1, tile)]
    }

    /** Grid vertices row by row: whole rows below `iz`, then `ix` of row `iz`. */
    function Lattice(iz: nat, ix: nat, tile: real): seq<Vertex>
      requires tile != 0.0
      decreases iz, ix
    {
      if ix > 0 then Lattice(iz, ix-1, tile) + [VertexAt(ix-1, iz, tile)]
      else if iz > 0 then Lattice(iz-1, n, tile)
      else []
    }
  }

  function TrisOf(grid: Grid): Quad -> seq<Tri> { (q: Quad) => grid.QuadTris(q) }

  function GroupOf(grid: Grid, regions: seq<Region>): Quad -> nat { (q: Quad) => grid.RegionOf(regions, q) }

  function VerticesOf(grid: Grid, tile: real): (f: Quad -> seq<Vertex>)
    requires tile != 0.0
    ensures FourEach(f)
  {
    (q: Quad) => grid.QuadVertices(q, tile)
  }

  ghost predicate FourEach(f: Quad -> seq<Vertex>)
  {
    forall q: Quad :: |f(q)| == 4
  }

  function QuadIndices(a: nat, b: nat, c: nat, d: nat): seq<nat> { [a, d, b, a, c, d] }

  /** Indices of `count` four-vertex quads. */
  function GroupIndices(count: nat): seq<nat>
  {
    if count == 0 then []
    else GroupIndices(count-1) + QuadIndices(4*(count-1), 4*(count-1) + 1, 4*(count-1) + 2, 4*(count-1) + 3)
  }

  /** A quad's indices into the shared grid. */
  function SharedCorners(n: nat, ix: nat, iz: nat): seq<nat>
  {
    var a := iz * n + ix;
    QuadIndices(a, a+1, a+n, a+n+1)
  }

  function SharedQuad(n: nat): Quad -> seq<nat> { (q: Quad) => SharedCorners(n, q.ix, q.iz) }

  // ---- The uniform builder ----

  function UniformPrimitive(grid: Grid, tile: real, material: string): Primitive
    requires grid.n >= 2 && tile != 0.0
  {
    Primitive(grid.Lattice(grid.n, 0, tile), FlatMap(SharedQuad(grid.n), Quads(grid.n-1, grid.n-1, 0)), material)
  }

  method UniformIndices(n: nat) returns (indices: seq<nat>)
    requires n >= 2
    ensures indices == FlatMap(SharedQuad(n), Quads(n-1, n-1, 0))
  {
    indices := [];
    for iz := 0 to n-1
      invariant indices == FlatMap(SharedQuad(n), Quads(n-1, iz, 0))
    {
      for ix := 0 to n-1
        invariant indices == FlatMap(SharedQuad(n), Quads(n-1, iz, ix))
      {
        var q := Quad(ix, iz);
        FlatMapStep(SharedQuad(n), Quads(n-1, iz, ix), q);
        indices := indices + SharedCorners(n, ix, iz);
      }
    }
  }

  method Uniform(grid: Grid, tile: real, material: string) returns (p: Primitive)
    requires grid.n >= 2 && tile != 0.0
    ensures p == UniformPrimitive(grid, tile, material)
  {
    var vertices := [];
    for iz := 0 to grid.n
      invariant vertices == grid.Lattice(iz, 0, tile)
    {
      for ix := 0 to grid.n
        invariant vertices == grid.Lattice(iz, ix, tile)
      {
        vertices := vertices + [grid.VertexAt(ix, iz, tile)];
      }
    }
    var indices := UniformIndices(grid.n);
    p := Primitive(vertices, indices, material);
  }

  // ---- The region split ----

  function TileOf(tile: real, regions: seq<Region>, g: nat): real
    requires g <= |regions|
  {
    if g == 0 then tile else regions[g-1].tile
  }

  function MaterialOf(material: string, regions: seq<Region>, g: nat): string
    requires g <= |regions|
  {
    if g == 0 then material else regions[g-1].material
  }

  predicate Tiled(tile: real, regions: seq<Region>)
  {
    tile != 0.0 && forall i :: 0 <= i < |regions| ==> regions[i].tile != 0.0
  }

  /** One group's buffers after the quads `mine`. */
  ghost predicate Holds(f: Quad -> seq<Vertex>, mine: seq<Quad>, vertices: seq<Vertex>, indices: seq<nat>)
  {
    vertices == FlatMap(f, mine) && |vertices| == 4 * |mine| && indices == GroupIndices(|mine|)
  }

  lemma HoldsStep(f: Quad -> seq<Vertex>, mine: seq<Quad>, q: Quad, vertices: seq<Vertex>, indices: seq<nat>)
    requires FourEach(f) && Holds(f, mine, vertices, indices)
    ensures var base := |vertices|;
      Holds(f, mine + [q], vertices + f(q), indices + QuadIndices(base, base+1, base+2, base+3))
  {
    FlatMapStep(f, mine, q);
  }

  ghost predicate AllGrouped(grid: Grid, tile: real, regions: seq<Region>, qs: seq<Quad>,
                             vertices: seq<seq<Vertex>>, indices: seq<seq<nat>>)
    requires Tiled(tile, regions)
  {
    && |vertices| == |indices| == |regions| + 1
    && forall g :: 0 <= g < |vertices| ==> Grouped(grid, tile, regions, qs, g, vertices[g], indices[g])
  }

  ghost predicate Grouped(grid: Grid, tile: real, regions: seq<Region>, qs: seq<Quad>, g: nat,
                          vertices: seq<Vertex>, indices: seq<nat>)
    requires g <= |regions| && Tiled(tile, regions)
  {
    Holds(VerticesOf(grid, TileOf(tile, regions, g)), Only(GroupOf(grid, regions), g, qs), vertices, indices)
  }

  /** What one quad does to group `g`'s buffers. */
  ghost predicate Follows(grid: Grid, tile: real, regions: seq<Region>, q: Quad, g: nat,
                          before: seq<Vertex>, ids: seq<nat>, after: seq<Vertex>, ids': seq<nat>)
    requires g <= |regions| && Tiled(tile, regions)
  {
    if grid.RegionOf(regions, q) == g then
      && after == before + VerticesOf(grid, TileOf(tile, regions, g))(q)
      && ids' == ids + QuadIndices(|before|, |before|+1, |before|+2, |before|+3)
    else after == before && ids' == ids
  }

  lemma GroupedStep(grid: Grid, tile: real, regions: seq<Region>, qs: seq<Quad>, q: Quad, g: nat,
                    before: seq<Vertex>, ids: seq<nat>, after: seq<Vertex>, ids': seq<nat>)
    requires g <= |regions| && Tiled(tile, regions) && Grouped(grid, tile, regions, qs, g, before, ids)
    requires Follows(grid, tile, regions, q, g, before, ids, after, ids')
    ensures Grouped(grid, tile, regions, qs + [q], g, after, ids')
  {
    var group := GroupOf(grid, regions);
    OnlyStep(group, g, qs, q);
    HoldsStep(VerticesOf(grid, TileOf(tile, regions, g)), Only(group, g, qs), q, before, ids);
  }

  lemma QuadGrouped(grid: Grid, tile: real, regions: seq<Region>, qs: seq<Quad>, q: Quad,
                    vertices: seq<seq<Vertex>>, indices: seq<seq<nat>>, vs: seq<seq<Vertex>>, ids: seq<seq<nat>>)
    requires Tiled(tile, regions) && AllGrouped(grid, tile, regions, qs, vertices, indices)
    requires |vs| == |ids| == |vertices|
    requires forall g :: 0 <= g < |vs| ==> Follows(grid, tile, regions, q, g, vertices[g], indices[g], vs[g], ids[g])
    ensures AllGrouped(grid, tile, regions, qs + [q], vs, ids)
  {
    forall g | 0 <= g < |vs|
      ensures Grouped(grid, tile, regions, qs + [q], g, vs[g], ids[g])
    {
      assert Grouped(grid, tile, regions, qs, g, vertices[g], indices[g]);
      GroupedStep(grid, tile, regions, qs, q, g, vertices[g], indices[g], vs[g], ids[g]);
    }
  }

  method Split(grid: Grid, tile: real, regions: seq<Region>) returns (vertices: seq<seq<Vertex>>, indices: seq<seq<nat>>)
    requires grid.n >= 2 && Tiled(tile, regions)
    ensures AllGrouped(grid, tile, regions, Quads(grid.n-1, grid.n-1, 0), vertices, indices)
  {
    var m := grid.n - 1;
    vertices := seq(|regions| + 1, _ => []);
    indices := seq(|regions| + 1, _ => []);
    for iz := 0 to m
      invariant AllGrouped(grid, tile, regions, Quads(m, iz, 0), vertices, indices)
    {
      for ix := 0 to m
        invariant AllGrouped(grid, tile, regions, Quads(m, iz, ix), vertices, indices)
      {
        ghost var vs, ids := vertices, indices;
        var g := grid.RegionOf(regions, Quad(ix, iz));
        var base := |vertices[g]|;
        vertices := vertices[g := vertices[g] + grid.QuadVertices(Quad(ix, iz), TileOf(tile, regions, g))];
        indices := indices[g := indices[g] + QuadIndices(base, base+1, base+2, base+3)];
        QuadGrouped(grid, tile, regions, Quads(m, iz, ix), Quad(ix, iz), vs, ids, vertices, indices);
      }
    }
  }

  function GroupPrimitive(grid: Grid, tile: real, material: string, regions: seq<Region>, qs: seq<Quad>, g: nat): Primitive
    requires g <= |regions| && Tiled(tile, regions)
  {
    var mine := Only(GroupOf(grid, regions), g, qs);
    Primitive(FlatMap(VerticesOf(grid, TileOf(tile, regions, g)), mine), GroupIndices(|mine|),
              MaterialOf(material, regions, g))
  }

  /** Every group's primitive, the base first. */
  function AllPrimitives(grid: Grid, tile: real, material: string, regions: seq<Region>, qs: seq<Quad>): (r: seq<Primitive>)
    requires Tiled(tile, regions)
    ensures |r| == |regions| + 1
    ensures forall g :: 0 <= g < |r| ==> r[g] == GroupPrimitive(grid, tile, material, regions, qs, g)
  {
    seq(|regions| + 1, g requires 0 <= g <= |regions| => GroupPrimitive(grid, tile, material, regions, qs, g))
  }

  /** Groups without vertices are left out of the mesh. */
  function NonEmpty(ps: seq<Primitive>): seq<Primitive>
  {
    if ps == [] then []
    else NonEmpty(ps[..|ps|-1]) + if ps[|ps|-1].vertices == [] then [] else [ps[|ps|-1]]
  }

  lemma NonEmptyStep(ps: seq<Primitive>, g: nat)
    requires g < |ps|
    ensures NonEmpty(ps[..g+1]) == if ps[g].vertices == [] then NonEmpty(ps[..g]) else NonEmpty(ps[..g]) + [ps[g]]
  {
    assert ps[..g+1][..g] == ps[..g];
  }

  /** `all` is what the buffers amount to. */
  ghost predicate Stores(all: seq<Primitive>, vertices: seq<seq<Vertex>>, indices: seq<seq<nat>>,
                         material: string, regions: seq<Region>)
  {
    && |all| == |vertices| == |indices| == |regions| + 1
    && forall g :: 0 <= g < |all| ==> all[g] == Primitive(vertices[g], indices[g], MaterialOf(material, regions, g))
  }

  method Assemble(material: string, regions: seq<Region>, vertices: seq<seq<Vertex>>, indices: seq<seq<nat>>,
                  ghost all: seq<Primitive>) returns (mesh: seq<Primitive>)
    requires Stores(all, vertices, indices, material, regions)
    ensures mesh == NonEmpty(all)
  {
    mesh := [];
    for g := 0 to |regions| + 1
      invariant mesh == NonEmpty(all[..g])
    {
      NonEmptyStep(all, g);
      if vertices[g] != [] {
        mesh := mesh + [Primitive(vertices[g], indices[g], MaterialOf(material, regions, g))];
      }
    }
    assert all[..|regions| + 1] == all;
  }

  lemma GroupedPrimitive(grid: Grid, tile: real, material: string, regions: seq<Region>, qs: seq<Quad>, g: nat,
                         vertices: seq<Vertex>, indices: seq<nat>)
    requires g <= |regions| && Tiled(tile, regions) && Grouped(grid, tile, regions, qs, g, vertices, indices)
    ensures GroupPrimitive(grid, tile, material, regions, qs, g) == Primitive(vertices, indices, MaterialOf(material, regions, g))
  {
  }

  lemma GroupedStores(grid: Grid, tile: real, material: string, regions: seq<Region>, qs: seq<Quad>,
                      vertices: seq<seq<Vertex>>, indices: seq<seq<nat>>)
    requires Tiled(tile, regions) && AllGrouped(grid, tile, regions, qs, vertices, indices)
    ensures Stores(AllPrimitives(grid, tile, material, regions, qs), vertices, indices, material, regions)
  {
    forall g | 0 <= g <= |regions|
      ensures GroupPrimitive(grid, tile, material, regions, qs, g) == Primitive(vertices[g], indices[g], MaterialOf(material, regions, g))
    {
      assert Grouped(grid, tile, regions, qs, g, vertices[g], indices[g]);
      GroupedPrimitive(grid, tile, material, regions, qs, g, vertices[g], indices[g]);
    }
  }

  method GenerateGround(grid: Grid, tile: real, material: string, regions: seq<Region>) returns (mesh: seq<Primitive>)
    requires grid.n >= 2 && Tiled(tile, regions)
    ensures mesh == if regions == [] then [UniformPrimitive(grid, tile, material)]
      else NonEmpty(AllPrimitives(grid, tile, material, regions, Quads(grid.n-1, grid.n-1, 0)))
  {
    if regions == [] {
      var p := Uniform(grid, tile, material);
      return [p];
    }
    var vertices, indices := Split(grid, tile, regions);
    ghost var qs := Quads(grid.n-1, grid.n-1, 0);
    GroupedStores(grid, tile, material, regions, qs, vertices, indices);
    mesh := Assemble(material, regions, vertices, indices, AllPrimitives(grid, tile, material, regions, qs));
  }
}
