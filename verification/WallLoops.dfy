/** Union-find over wall boundaries (scripts/asset-pipeline/townkit/verify.py). */
module WallLoops {
  // `_open_wall_faces` clusters open wall edges by their rounded end points, with path
  // halving, and reports each cluster whose perimeter is large enough.

  /** An end point, rounded to four decimals. */
  datatype Point = Point(x: int, y: int, z: int)

  datatype Edge = Edge(a: Point, b: Point, length: real)

  datatype Report = Report(loopEdges: nat, perimeter: real)

  type PointMap = map<Point, Point>

  /** Following `parent` climbs in rank, stays inside one tree, and stops at its root. */
  ghost predicate Ranked(parent: PointMap, root: PointMap, rank: map<Point, nat>, bound: nat)
  {
    && parent.Keys == root.Keys == rank.Keys
    && forall k {:trigger NodeRanked(parent, root, rank, bound, k)} ::
         k in parent ==> NodeRanked(parent, root, rank, bound, k)
  }

  ghost predicate NodeRanked(parent: PointMap, root: PointMap, rank: map<Point, nat>, bound: nat, k: Point)
    requires parent.Keys == root.Keys == rank.Keys && k in parent
  {
    && parent[k] in parent && root[k] in parent
    && root[parent[k]] == root[k] && parent[root[k]] == root[k] && root[root[k]] == root[k]
    && (parent[k] == k ==> root[k] == k)
    && (parent[k] != k ==> rank[k] < rank[parent[k]])
    && rank[k] <= bound
  }

  /** Halving a path moves no node to another root. */
  lemma HalvingKeepsRoots(parent: PointMap, root: PointMap, rank: map<Point, nat>, bound: nat, k: Point)
    requires Ranked(parent, root, rank, bound) && k in parent && parent[k] != k
    ensures parent[k] in parent && parent[parent[k]] in parent
    ensures Ranked(parent[k := parent[parent[k]]], root, rank, bound)
    ensures root[parent[parent[k]]] == root[k] && rank[k] < rank[parent[parent[k]]] <= bound
  {
    assert NodeRanked(parent, root, rank, bound, k);
    assert NodeRanked(parent, root, rank, bound, parent[k]);
    assert NodeRanked(parent, root, rank, bound, parent[parent[k]]);
    var next := parent[k := parent[parent[k]]];
    forall n | n in next
      ensures NodeRanked(next, root, rank, bound, n)
    {
      assert NodeRanked(parent, root, rank, bound, n);
    }
  }

  lemma NewKeyRanked(parent: PointMap, root: PointMap, rank: map<Point, nat>, bound: nat, k: Point)
    requires Ranked(parent, root, rank, bound) && k !in parent
    ensures Ranked(parent[k := k], root[k := k], rank[k := 0], bound)
  {
    var (p, m, r) := (parent[k := k], root[k := k], rank[k := 0]);
    forall n | n in p
      ensures NodeRanked(p, m, r, bound, n)
    {
      if n != k { assert NodeRanked(parent, root, rank, bound, n); }
    }
  }

  lemma MergeNodeRanked(parent: PointMap, root: PointMap, rank: map<Point, nat>, bound: nat,
                        ra: Point, rb: Point, n: Point)
    requires parent.Keys == root.Keys == rank.Keys
    requires ra in parent && rb in parent && n in parent && ra != rb
    requires NodeRanked(parent, root, rank, bound, ra) && NodeRanked(parent, root, rank, bound, rb)
    requires NodeRanked(parent, root, rank, bound, n)
    requires root[ra] == ra && root[rb] == rb
    ensures NodeRanked(parent[ra := rb], Redirected(root, ra, rb), rank[rb := rank[ra] + rank[rb] + 1],
                       bound + bound + 1, n)
  {
  }

  lemma MergeRanked(parent: PointMap, root: PointMap, rank: map<Point, nat>, bound: nat, ra: Point, rb: Point)
    requires Ranked(parent, root, rank, bound) && ra in root && rb in root && ra != rb
    requires root[ra] == ra && root[rb] == rb
    ensures Ranked(parent[ra := rb], Redirected(root, ra, rb), rank[rb := rank[ra] + rank[rb] + 1], bound + bound + 1)
  {
    assert NodeRanked(parent, root, rank, bound, ra) && NodeRanked(parent, root, rank, bound, rb);
    var (p, m, r) := (parent[ra := rb], Redirected(root, ra, rb), rank[rb := rank[ra] + rank[rb] + 1]);
    forall n | n in p
      ensures NodeRanked(p, m, r, bound + bound + 1, n)
    {
      assert NodeRanked(parent, root, rank, bound, n);
      MergeNodeRanked(parent, root, rank, bound, ra, rb, n);
    }
  }

  ghost function Redirected(root: PointMap, ra: Point, rb: Point): (r: PointMap)
    ensures r.Keys == root.Keys
    ensures forall k :: k in r ==> r[k] == if root[k] == ra then rb else root[k]
  {
    map k | k in root :: if root[k] == ra then rb else root[k]
  }

  /** The classes once both keys are known. */
  ghost function Extended(root: PointMap, a: Point, b: Point): (r: PointMap)
    ensures r.Keys == root.Keys + {a, b}
  {
    var r := if a in root then root else root[a := a];
    if b in r then r else r[b := b]
  }

  /** The class of `a` joins that of `b`. */
  ghost function Merged(root: PointMap, a: Point, b: Point): (r: PointMap)
    requires a in root && b in root
    ensures r.Keys == root.Keys
  {
    Redirected(root, root[a], root[b])
  }

  /** The parent dictionary. `root`, `rank` and `bound` are what the proof knows of it. */
  class Forest {
    var parent: PointMap
    ghost var root: PointMap
    ghost var rank: map<Point, nat>
    ghost var bound: nat

    ghost predicate Valid()
      reads this
    {
      Ranked(parent, root, rank, bound)
    }

    constructor ()
      ensures Valid() && root == map[]
    {
      parent, root, rank, bound := map[], map[], map[], 0;
    }

    method Find(key: Point) returns (r: Point)
      requires Valid()
      modifies this
      ensures Valid() && key in root && key in parent
      ensures root == if key in old(root) then old(root) else old(root)[key := key]
      ensures r == root[key] && r in parent && parent[r] == r
    {
      assert key in parent ==> NodeRanked(parent, root, rank, bound, key);
      if key !in parent {
        NewKeyRanked(parent, root, rank, bound, key);
        parent, root, rank := parent[key := key], root[key := key], rank[key := 0];
      }
      var k := key;
      while parent[k] != k
        invariant Valid() && k in parent && key in parent && root[k] == root[key]
        invariant root == if key in old(root) then old(root) else old(root)[key := key]
        decreases bound - rank[k]
      {
        HalvingKeepsRoots(parent, root, rank, bound, k);
        parent := parent[k := parent[parent[k]]];
        k := parent[k];
      }
      assert NodeRanked(parent, root, rank, bound, k);
      r := k;
    }

    /** `parent[ra] = rb` between two different roots. */
    method Link(ra: Point, rb: Point)
      requires Valid() && ra in root && rb in root && ra != rb && root[ra] == ra && root[rb] == rb
      modifies this
      ensures Valid() && root == Redirected(old(root), ra, rb)
    {
      MergeRanked(parent, root, rank, bound, ra, rb);
      parent, root, rank, bound := parent[ra := rb], Redirected(root, ra, rb),
                                   rank[rb := rank[ra] + rank[rb] + 1], bound + bound + 1;
    }

    method Union(a: Point, b: Point)
      requires Valid()
      modifies this
      ensures Valid()
      ensures root == Merged(Extended(old(root), a, b), a, b)
    {
      var ra := Find(a);
      var rb := Find(b);
      RootsStay(parent, root, rank, bound, a);
      RootsStay(parent, root, rank, bound, b);
      assert root == Extended(old(root), a, b);
      if ra != rb {
        Link(ra, rb);
      } else {
        NothingRedirected(root, ra);
      }
    }
  }

  lemma RootsStay(parent: PointMap, root: PointMap, rank: map<Point, nat>, bound: nat, k: Point)
    requires Ranked(parent, root, rank, bound) && k in root
    ensures root[k] in root && root[root[k]] == root[k]
  {
    assert NodeRanked(parent, root, rank, bound, k);
  }

  lemma NothingRedirected(root: PointMap, r: Point)
    ensures Redirected(root, r, r) == root
  {
  }
}
