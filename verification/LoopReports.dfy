/** The reports of `_open_wall_faces` (townkit/verify.py). */
module LoopReports {
  // Clusters and reports against a definition that knows nothing of union-find: the
  // boundary's connected loops.

  import opened Basics
  import opened Connectivity
  import opened WallLoops

  ghost predicate Touches(edges: seq<Edge>, x: Point, y: Point)
  {
    exists i :: 0 <= i < |edges| && ((edges[i].a == x && edges[i].b == y) || (edges[i].b == x && edges[i].a == y))
  }

  ghost function Along(edges: seq<Edge>): (Point, Point) -> bool { (x: Point, y: Point) => Touches(edges, x, y) }

  ghost function Ends(edges: seq<Edge>): set<Point>
  {
    (set e | e in edges :: e.a) + (set e | e in edges :: e.b)
  }

  /** A chain of boundary edges, each sharing a rounded end point with the next, joins
      the two points. */
  ghost predicate Chained(edges: seq<Edge>, x: Point, y: Point)
  {
    Connected(Along(edges), Ends(edges), x, y)
  }

  // ---- Union-find computes chains ----

  ghost predicate RootsMeanChains(edges: seq<Edge>, n: nat, root: PointMap)
    requires n <= |edges|
  {
    && root.Keys == Ends(edges[..n])
    && (forall i :: 0 <= i < n ==> SameRoot(root, edges[i].a, edges[i].b))
    && (forall x, y :: SameRoot(root, x, y) ==> Chained(edges, x, y))
  }

  ghost predicate SameRoot(root: PointMap, x: Point, y: Point)
  {
    x in root && y in root && root[x] == root[y]
  }

  ghost predicate RootKnown(root: PointMap, k: Point)
    requires k in root
  {
    root[k] in root
  }

  ghost predicate Rooted(root: PointMap)
  {
    forall k {:trigger RootKnown(root, k)} :: k in root ==> RootKnown(root, k)
  }

  lemma EndsStep(edges: seq<Edge>, n: nat)
    requires n < |edges|
    ensures Ends(edges[..n+1]) == Ends(edges[..n]) + {edges[n].a, edges[n].b}
    ensures Ends(edges[..n+1]) <= Ends(edges)
  {
    assert edges[..n+1] == edges[..n] + [edges[n]];
    assert forall e :: e in edges[..n+1] ==> e in edges;
  }

  lemma EdgeChains(edges: seq<Edge>, n: nat)
    requires n < |edges|
    ensures Chained(edges, edges[n].a, edges[n].b) && Chained(edges, edges[n].b, edges[n].a)
  {
    var (adj, ends, e) := (Along(edges), Ends(edges), edges[n]);
    assert e in edges && Touches(edges, e.a, e.b) && Touches(edges, e.b, e.a);
    ConnectedSelf(adj, ends, e.a);
    ConnectedSelf(adj, ends, e.b);
    ConnectedStep(adj, ends, e.a, e.a, e.b);
    ConnectedStep(adj, ends, e.b, e.b, e.a);
  }

  lemma AlongSymmetric(edges: seq<Edge>)
    ensures Symmetric(Along(edges))
  {
  }

  lemma ExtendedMeansChains(edges: seq<Edge>, n: nat, root: PointMap, x: Point, y: Point)
    requires n < |edges| && RootsMeanChains(edges, n, root)
    requires Rooted(root)
    requires SameRoot(Extended(root, edges[n].a, edges[n].b), x, y)
    ensures Chained(edges, x, y)
  {
    EndsStep(edges, n);
    if !SameRoot(root, x, y) {
      assert x in root ==> RootKnown(root, x);
      assert y in root ==> RootKnown(root, y);
      assert x == y;
      ConnectedSelf(Along(edges), Ends(edges), x);
    }
  }

  lemma MergeKeepsSame(root: PointMap, a: Point, b: Point, x: Point, y: Point)
    requires SameRoot(root, x, y)
    ensures SameRoot(Merged(Extended(root, a, b), a, b), x, y)
  {
  }

  lemma MergeJoins(root: PointMap, a: Point, b: Point)
    ensures SameRoot(Merged(Extended(root, a, b), a, b), a, b)
  {
  }

  /** Merging along one more edge keeps the correspondence. */
  lemma UnionMeansChains(edges: seq<Edge>, n: nat, root: PointMap)
    requires n < |edges| && RootsMeanChains(edges, n, root)
    requires Rooted(root)
    ensures RootsMeanChains(edges, n+1, Merged(Extended(root, edges[n].a, edges[n].b), edges[n].a, edges[n].b))
  {
    var (a, b) := (edges[n].a, edges[n].b);
    var ext := Extended(root, a, b);
    var next := Merged(ext, a, b);
    EndsStep(edges, n);
    forall i | 0 <= i < n+1
      ensures SameRoot(next, edges[i].a, edges[i].b)
    {
      if i < n {
        MergeKeepsSame(root, a, b, edges[i].a, edges[i].b);
      } else {
        MergeJoins(root, a, b);
      }
    }
    forall x, y | SameRoot(next, x, y)
      ensures Chained(edges, x, y)
    {
      MergedMeansChains(edges, n, root, x, y);
    }
  }

  lemma MergedMeansChains(edges: seq<Edge>, n: nat, root: PointMap, x: Point, y: Point)
    requires n < |edges| && RootsMeanChains(edges, n, root)
    requires Rooted(root)
    requires SameRoot(Merged(Extended(root, edges[n].a, edges[n].b), edges[n].a, edges[n].b), x, y)
    ensures Chained(edges, x, y)
  {
    var (a, b) := (edges[n].a, edges[n].b);
    var ext := Extended(root, a, b);
    if SameRoot(ext, x, y) {
      ExtendedMeansChains(edges, n, root, x, y);
    } else {
      EdgeChains(edges, n);
      var (p, q) := if SameRoot(ext, x, a) then (a, b) else (b, a);
      assert SameRoot(ext, x, p) && SameRoot(ext, q, y);
      ExtendedMeansChains(edges, n, root, x, p);
      ExtendedMeansChains(edges, n, root, q, y);
      ConnectedTransitive(Along(edges), Ends(edges), x, p, q);
      ConnectedTransitive(Along(edges), Ends(edges), x, q, y);
    }
  }

  /** Two end points share a root exactly when a chain of boundary edges joins them. */
  lemma SameRootIffChained(edges: seq<Edge>, root: PointMap, x: Point, y: Point)
    requires RootsMeanChains(edges, |edges|, root) && x in root
    ensures SameRoot(root, x, y) <==> Chained(edges, x, y)
  {
    assert edges[..|edges|] == edges;
    if Chained(edges, x, y) {
      var same := set z | z in root && root[z] == root[x];
      forall u, v | u in same && v in Ends(edges) && Touches(edges, u, v)
        ensures v in same
      {
        var i :| 0 <= i < |edges| && ((edges[i].a == u && edges[i].b == v) || (edges[i].b == u && edges[i].a == v));
        assert SameRoot(root, edges[i].a, edges[i].b);
      }
      ConnectedStaysInside(Along(edges), Ends(edges), x, y, same);
    }
  }

  // ---- Loops, by definition ----

  type Relation = (Edge, Edge) -> bool

  /** The edges related to `e`, in boundary order. */
  ghost function Members(edges: seq<Edge>, same: Relation, e: Edge): seq<Edge>
  {
    if edges == [] then []
    else
      var m := |edges| - 1;
      Members(edges[..m], same, e) + if same(e, edges[m]) then [edges[m]] else []
  }

  /** Indices of the edges no earlier edge is related to: one per loop, in order. */
  ghost function Leaders(edges: seq<Edge>, same: Relation, n: nat): (r: seq<nat>)
    requires n <= |edges|
    ensures forall i :: 0 <= i < |r| ==> r[i] < n
  {
    if n == 0 then []
    else Leaders(edges, same, n-1) + if (exists j :: 0 <= j < n-1 && same(edges[j], edges[n-1])) then [] else [n-1]
  }

  ghost function Loops(edges: seq<Edge>, same: Relation): seq<seq<Edge>>
  {
    var leaders := Leaders(edges, same, |edges|);
    seq(|leaders|, i requires 0 <= i < |leaders| => Members(edges, same, edges[leaders[i]]))
  }

  /** Two edges belong to one loop when a chain joins their end points. */
  ghost function OneLoop(edges: seq<Edge>): Relation { (e: Edge, f: Edge) => Chained(edges, e.a, f.a) }

  ghost function OneRoot(root: PointMap): Relation { (e: Edge, f: Edge) => SameRoot(root, e.a, f.a) }

  lemma {:induction false} MembersAgree(edges: seq<Edge>, same: Relation, other: Relation, e: Edge)
    requires forall f :: f in edges ==> same(e, f) == other(e, f)
    ensures Members(edges, same, e) == Members(edges, other, e)
  {
    if edges != [] {
      MembersAgree(edges[..|edges|-1], same, other, e);
    }
  }

  lemma {:induction false} LeadersAgree(edges: seq<Edge>, same: Relation, other: Relation, n: nat)
    requires n <= |edges| && forall i, j :: 0 <= i < |edges| && 0 <= j < |edges| ==>
      same(edges[i], edges[j]) == other(edges[i], edges[j])
    ensures Leaders(edges, same, n) == Leaders(edges, other, n)
  {
    if n > 0 {
      LeadersAgree(edges, same, other, n-1);
    }
  }

  lemma LoopsAgree(edges: seq<Edge>, same: Relation, other: Relation)
    requires forall i, j :: 0 <= i < |edges| && 0 <= j < |edges| ==>
      same(edges[i], edges[j]) == other(edges[i], edges[j])
    ensures Loops(edges, same) == Loops(edges, other)
  {
    LeadersAgree(edges, same, other, |edges|);
    var leaders := Leaders(edges, same, |edges|);
    forall i | 0 <= i < |leaders|
      ensures Members(edges, same, edges[leaders[i]]) == Members(edges, other, edges[leaders[i]])
    {
      MembersAgree(edges, same, other, edges[leaders[i]]);
    }
  }

  // ---- Clustering ----

  lemma RankedRooted(parent: PointMap, root: PointMap, rank: map<Point, nat>, bound: nat)
    requires Ranked(parent, root, rank, bound)
    ensures Rooted(root)
  {
    forall k | k in root
      ensures RootKnown(root, k)
    {
      assert NodeRanked(parent, root, rank, bound, k);
    }
  }

  method UnionAll(edges: seq<Edge>) returns (forest: Forest)
    ensures fresh(forest) && forest.Valid() && RootsMeanChains(edges, |edges|, forest.root)
  {
    forest := new Forest();
    for i := 0 to |edges|
      invariant fresh(forest) && forest.Valid() && RootsMeanChains(edges, i, forest.root)
    {
      RankedRooted(forest.parent, forest.root, forest.rank, forest.bound);
      UnionMeansChains(edges, i, forest.root);
      forest.Union(edges[i].a, edges[i].b);
    }
  }

  /** The dictionary after `n` edges: one key per leader in insertion order, holding
      the edges so far that share its root. */
  ghost predicate Clustered(edges: seq<Edge>, n: nat, root: PointMap, order: seq<Point>, clusters: map<Point, seq<Edge>>)
    requires n <= |edges|
  {
    && Led(edges, n, root, order, clusters, Leaders(edges, OneRoot(root), n))
    && (forall i, j :: 0 <= i < j < |order| ==> order[i] != order[j])
    && (forall k {:trigger InOrder(order, k)} :: k in clusters ==> InOrder(order, k))
    && (forall i :: 0 <= i < n ==> Filed(edges[i], root, clusters))
  }

  ghost predicate InOrder(order: seq<Point>, k: Point)
  {
    exists j :: 0 <= j < |order| && order[j] == k
  }

  ghost predicate Filed(e: Edge, root: PointMap, clusters: map<Point, seq<Edge>>)
  {
    e.a in root && root[e.a] in clusters
  }

  ghost predicate Led(edges: seq<Edge>, n: nat, root: PointMap, order: seq<Point>, clusters: map<Point, seq<Edge>>,
                      leaders: seq<nat>)
    requires n <= |edges|
  {
    && |order| == |leaders|
    && forall j :: 0 <= j < |order| ==>
         leaders[j] < n && LeaderKept(edges, n, root, order[j], edges[leaders[j]], clusters)
  }

  ghost predicate LeaderKept(edges: seq<Edge>, n: nat, root: PointMap, key: Point, leader: Edge,
                             clusters: map<Point, seq<Edge>>)
    requires n <= |edges|
  {
    && leader.a in root && root[leader.a] == key
    && key in clusters && clusters[key] == Members(edges[..n], OneRoot(root), leader)
  }

  lemma MembersStep(edges: seq<Edge>, n: nat, same: Relation, e: Edge)
    requires n < |edges|
    ensures Members(edges[..n+1], same, e) == Members(edges[..n], same, e) + if same(e, edges[n]) then [edges[n]] else []
  {
    assert edges[..n+1][..n] == edges[..n];
  }

  lemma {:induction false} NoMembers(edges: seq<Edge>, same: Relation, e: Edge)
    requires forall i :: 0 <= i < |edges| ==> !same(e, edges[i])
    ensures Members(edges, same, e) == []
  {
    if edges != [] {
      NoMembers(edges[..|edges|-1], same, e);
    }
  }

  lemma LeadersStep(edges: seq<Edge>, same: Relation, n: nat)
    requires 0 < n <= |edges|
    ensures Leaders(edges, same, n) == Leaders(edges, same, n-1)
      + if (exists j :: 0 <= j < n-1 && same(edges[j], edges[n-1])) then [] else [n-1]
  {
  }

  lemma LeaderRepeats(edges: seq<Edge>, same: Relation, n: nat, j: nat)
    requires j < n < |edges| && same(edges[j], edges[n])
    ensures Leaders(edges, same, n+1) == Leaders(edges, same, n)
  {
  }

  lemma LeaderKeptGrows(edges: seq<Edge>, n: nat, root: PointMap, key: Point, leader: Edge, clusters: map<Point, seq<Edge>>)
    requires n < |edges| && LeaderKept(edges, n, root, key, leader, clusters)
    requires edges[n].a in root && root[edges[n].a] in clusters
    ensures var r := root[edges[n].a];
      LeaderKept(edges, n+1, root, key, leader, clusters[r := clusters[r] + [edges[n]]])
  {
    MembersStep(edges, n, OneRoot(root), leader);
  }

  /** A known root: the edge joins its cluster and opens none. */
  lemma ClusterGrows(edges: seq<Edge>, n: nat, root: PointMap, order: seq<Point>, clusters: map<Point, seq<Edge>>)
    requires n < |edges| && Clustered(edges, n, root, order, clusters)
    requires edges[n].a in root && root[edges[n].a] in clusters
    ensures var r := root[edges[n].a];
      Clustered(edges, n+1, root, order, clusters[r := clusters[r] + [edges[n]]])
  {
    var (same, r) := (OneRoot(root), root[edges[n].a]);
    var leaders := Leaders(edges, same, n);
    var after := clusters[r := clusters[r] + [edges[n]]];
    assert InOrder(order, r);
    var j :| 0 <= j < |order| && order[j] == r;
    assert LeaderKept(edges, n, root, order[j], edges[leaders[j]], clusters);
    LeaderRepeats(edges, same, n, leaders[j]);
    forall i | 0 <= i < |order|
      ensures LeaderKept(edges, n+1, root, order[i], edges[leaders[i]], after)
    {
      LeaderKeptGrows(edges, n, root, order[i], edges[leaders[i]], clusters);
    }
    assert Led(edges, n+1, root, order, after, leaders);
    forall i | 0 <= i < n+1
      ensures Filed(edges[i], root, after)
    {
      if i < n { assert Filed(edges[i], root, clusters); }
    }
    forall k | k in after
      ensures InOrder(order, k)
    {
      assert InOrder(order, if k == r then r else k);
    }
  }

  lemma OpensLed(edges: seq<Edge>, n: nat, root: PointMap, order: seq<Point>, clusters: map<Point, seq<Edge>>,
                 leaders: seq<nat>)
    requires n < |edges| && Led(edges, n, root, order, clusters, leaders)
    requires edges[n].a in root && root[edges[n].a] !in clusters
    requires forall k :: 0 <= k < n ==> !OneRoot(root)(edges[n], edges[k])
    ensures var r := root[edges[n].a];
      Led(edges, n+1, root, order + [r], clusters[r := [edges[n]]], leaders + [n])
  {
    var (same, e, r) := (OneRoot(root), edges[n], root[edges[n].a]);
    var (after, order', leaders') := (clusters[r := [e]], order + [r], leaders + [n]);
    forall i | 0 <= i < |order'|
      ensures LeaderKept(edges, n+1, root, order'[i], edges[leaders'[i]], after)
    {
      MembersStep(edges, n, same, edges[leaders'[i]]);
      if i < |order| {
        assert LeaderKept(edges, n, root, order[i], edges[leaders[i]], clusters);
      } else {
        NoMembers(edges[..n], same, e);
      }
    }
  }

  lemma OpensOrder(order: seq<Point>, clusters: map<Point, seq<Edge>>, r: Point, loop: seq<Edge>)
    requires r !in clusters && forall j :: 0 <= j < |order| ==> order[j] in clusters
    requires forall i, j :: 0 <= i < j < |order| ==> order[i] != order[j]
    requires forall k {:trigger InOrder(order, k)} :: k in clusters ==> InOrder(order, k)
    ensures forall i, j :: 0 <= i < j < |order + [r]| ==> (order + [r])[i] != (order + [r])[j]
    ensures forall k {:trigger InOrder(order + [r], k)} :: k in clusters[r := loop] ==> InOrder(order + [r], k)
  {
    var order' := order + [r];
    forall k | k in clusters[r := loop]
      ensures InOrder(order', k)
    {
      if k == r {
        assert order'[|order|] == r;
      } else {
        assert InOrder(order, k);
        var j :| 0 <= j < |order| && order[j] == k;
        assert order'[j] == k;
      }
    }
  }

  /** A new root: the edge leads a new cluster. */
  lemma ClusterOpens(edges: seq<Edge>, n: nat, root: PointMap, order: seq<Point>, clusters: map<Point, seq<Edge>>)
    requires n < |edges| && Clustered(edges, n, root, order, clusters)
    requires edges[n].a in root && root[edges[n].a] !in clusters
    ensures var r := root[edges[n].a];
      Clustered(edges, n+1, root, order + [r], clusters[r := [edges[n]]])
  {
    var (same, r) := (OneRoot(root), root[edges[n].a]);
    var leaders := Leaders(edges, same, n);
    forall k | 0 <= k < n
      ensures !same(edges[k], edges[n]) && !same(edges[n], edges[k])
    {
      assert Filed(edges[k], root, clusters);
    }
    LeadersStep(edges, same, n+1);
    forall j | 0 <= j < |order|
      ensures order[j] in clusters
    {
      assert LeaderKept(edges, n, root, order[j], edges[leaders[j]], clusters);
    }
    OpensLed(edges, n, root, order, clusters, leaders);
    OpensOrder(order, clusters, r, [edges[n]]);
    forall i | 0 <= i < n+1
      ensures Filed(edges[i], root, clusters[r := [edges[n]]])
    {
      if i < n { assert Filed(edges[i], root, clusters); }
    }
  }

  method Cluster(forest: Forest, edges: seq<Edge>) returns (order: seq<Point>, clusters: map<Point, seq<Edge>>)
    requires forest.Valid() && RootsMeanChains(edges, |edges|, forest.root)
    modifies forest
    ensures forest.root == old(forest.root)
    ensures Clustered(edges, |edges|, forest.root, order, clusters)
  {
    order, clusters := [], map[];
    for i := 0 to |edges|
      invariant forest.Valid() && forest.root == old(forest.root)
      invariant Clustered(edges, i, forest.root, order, clusters)
    {
      assert SameRoot(forest.root, edges[i].a, edges[i].b);
      var root := forest.Find(edges[i].a);
      if root in clusters {
        ClusterGrows(edges, i, forest.root, order, clusters);
        clusters := clusters[root := clusters[root] + [edges[i]]];
      } else {
        ClusterOpens(edges, i, forest.root, order, clusters);
        order, clusters := order + [root], clusters[root := [edges[i]]];
      }
    }
  }

  // ---- Reports ----

  function Perimeter(loop: seq<Edge>): real
  {
    if loop == [] then 0.0 else Perimeter(loop[..|loop|-1]) + loop[|loop|-1].length
  }

  /** The loops whose perimeter reaches `min`, in order. */
  function ReportsOf(loops: seq<seq<Edge>>, min: real): seq<Report>
  {
    if loops == [] then []
    else
      var (init, last) := (loops[..|loops|-1], loops[|loops|-1]);
      ReportsOf(init, min) + if Perimeter(last) >= min then [Report(|last|, Perimeter(last))] else []
  }

  /** The perimeter is the sum of the edges' lengths. */
  lemma {:induction false} PerimeterIs(a: seq<Edge>, b: seq<Edge>, e: Edge)
    ensures Perimeter([]) == 0.0 && Perimeter([e]) == e.length
    ensures Perimeter(a + b) == Perimeter(a) + Perimeter(b)
    decreases |b|
  {
    assert [e][..0] == [];
    if b == [] {
      assert a + b == a;
    } else {
      PerimeterIs(a, b[..|b|-1], e);
      assert (a + b)[..|a+b|-1] == a + b[..|b|-1];
    }
  }

  /** One report for each loop at the places `f`: in loop order, those and only those long enough. */
  ghost predicate ReportsAre(loops: seq<seq<Edge>>, min: real, f: seq<nat>, reports: seq<Report>)
  {
    && (forall i, j :: 0 <= i < j < |f| ==> f[i] < f[j])
    && (forall k: nat :: k in f <==> k < |loops| && Perimeter(loops[k]) >= min)
    && |reports| == |f|
    && forall i :: 0 <= i < |f| ==> f[i] < |loops| && reports[i] == Report(|loops[f[i]]|, Perimeter(loops[f[i]]))
  }

  function LongEnough(min: real): seq<Edge> -> bool { (loop: seq<Edge>) => Perimeter(loop) >= min }

  lemma {:induction false} ReportsOfLong(loops: seq<seq<Edge>>, min: real)
    ensures var long := Filter(LongEnough(min), loops);
      && |ReportsOf(loops, min)| == |long|
      && forall i :: 0 <= i < |long| ==> ReportsOf(loops, min)[i] == Report(|long[i]|, Perimeter(long[i]))
  {
    if loops != [] {
      ReportsOfLong(loops[..|loops|-1], min);
    }
  }

  lemma LongLoopsReported(loops: seq<seq<Edge>>, min: real) returns (f: seq<nat>)
    ensures ReportsAre(loops, min, f, ReportsOf(loops, min))
  {
    ReportsOfLong(loops, min);
    f := FilterSelects(LongEnough(min), loops);
  }

  /** The clusters, in insertion order, are the root loops. */
  lemma ClustersAreLoops(edges: seq<Edge>, root: PointMap, order: seq<Point>, clusters: map<Point, seq<Edge>>)
    requires Clustered(edges, |edges|, root, order, clusters)
    ensures |order| == |Loops(edges, OneRoot(root))|
    ensures forall i :: 0 <= i < |order| ==>
      order[i] in clusters && clusters[order[i]] == Loops(edges, OneRoot(root))[i]
  {
    var leaders := Leaders(edges, OneRoot(root), |edges|);
    assert edges[..|edges|] == edges;
    forall i | 0 <= i < |order|
      ensures order[i] in clusters && clusters[order[i]] == Loops(edges, OneRoot(root))[i]
    {
      assert LeaderKept(edges, |edges|, root, order[i], edges[leaders[i]], clusters);
    }
  }

  method ReportLong(loops: seq<seq<Edge>>, min: real) returns (reports: seq<Report>)
    ensures reports == ReportsOf(loops, min)
  {
    reports := [];
    for i := 0 to |loops|
      invariant reports == ReportsOf(loops[..i], min)
    {
      assert loops[..i+1][..i] == loops[..i];
      var perimeter := Perimeter(loops[i]);
      if perimeter >= min {
        reports := reports + [Report(|loops[i]|, perimeter)];
      }
    }
    assert loops[..|loops|] == loops;
  }

  /** End to end: the reports are those of the boundary's connected loops. */
  method OpenLoops(boundary: seq<Edge>, min: real) returns (reports: seq<Report>)
    ensures reports == ReportsOf(Loops(boundary, OneLoop(boundary)), min)
    ensures exists f :: ReportsAre(Loops(boundary, OneLoop(boundary)), min, f, reports)
  {
    var forest := UnionAll(boundary);
    var order, clusters := Cluster(forest, boundary);
    ClustersAreLoops(boundary, forest.root, order, clusters);
    RootsGiveLoops(boundary, forest.root);
    var loops := InOrderOf(order, clusters);
    SameLoops(loops, Loops(boundary, OneRoot(forest.root)), order, clusters);
    reports := ReportLong(loops, min);
    ghost var f := LongLoopsReported(loops, min);
  }

  function InOrderOf(order: seq<Point>, clusters: map<Point, seq<Edge>>): (r: seq<seq<Edge>>)
    requires forall i :: 0 <= i < |order| ==> order[i] in clusters
    ensures |r| == |order| && forall i :: 0 <= i < |r| ==> r[i] == clusters[order[i]]
  {
    seq(|order|, i requires 0 <= i < |order| => clusters[order[i]])
  }

  lemma SameLoops(a: seq<seq<Edge>>, b: seq<seq<Edge>>, order: seq<Point>, clusters: map<Point, seq<Edge>>)
    requires |a| == |order| == |b|
    requires forall i :: 0 <= i < |order| ==> order[i] in clusters && a[i] == clusters[order[i]] == b[i]
    ensures a == b
  {
  }

  lemma RootsGiveLoops(edges: seq<Edge>, root: PointMap)
    requires RootsMeanChains(edges, |edges|, root)
    ensures Loops(edges, OneRoot(root)) == Loops(edges, OneLoop(edges))
  {
    forall i, j | 0 <= i < |edges| && 0 <= j < |edges|
      ensures OneRoot(root)(edges[i], edges[j]) == OneLoop(edges)(edges[i], edges[j])
    {
      assert SameRoot(root, edges[i].a, edges[i].b);
      SameRootIffChained(edges, root, edges[i].a, edges[j].a);
    }
    LoopsAgree(edges, OneRoot(root), OneLoop(edges));
  }

  // ---- The loops partition the boundary ----

  lemma {:induction false} MembersAre(edges: seq<Edge>, same: Relation, e: Edge)
    ensures forall f :: f in Members(edges, same, e) <==> f in edges && same(e, f)
  {
    if edges != [] {
      var init := edges[..|edges|-1];
      MembersAre(init, same, e);
      assert edges == init + [edges[|edges|-1]];
    }
  }

  ghost predicate HasLeader(edges: seq<Edge>, leaders: seq<nat>, k: nat)
    requires k < |edges|
  {
    exists i :: 0 <= i < |leaders| && LedBy(edges, leaders[i], k)
  }

  ghost predicate LedBy(edges: seq<Edge>, l: nat, k: nat)
    requires k < |edges|
  {
    l < |edges| && Chained(edges, edges[l].a, edges[k].a)
  }

  lemma MoreLeaders(edges: seq<Edge>, leaders: seq<nat>, more: seq<nat>, k: nat)
    requires k < |edges| && HasLeader(edges, leaders, k)
    ensures HasLeader(edges, leaders + more, k)
  {
    var i :| 0 <= i < |leaders| && LedBy(edges, leaders[i], k);
    assert (leaders + more)[i] == leaders[i];
  }

  lemma LeaderThrough(edges: seq<Edge>, leaders: seq<nat>, j: nat, k: nat)
    requires j < |edges| && k < |edges| && HasLeader(edges, leaders, j) && Chained(edges, edges[j].a, edges[k].a)
    ensures HasLeader(edges, leaders, k)
  {
    var i :| 0 <= i < |leaders| && LedBy(edges, leaders[i], j);
    ConnectedTransitive(Along(edges), Ends(edges), edges[leaders[i]].a, edges[j].a, edges[k].a);
    assert LedBy(edges, leaders[i], k);
  }

  lemma OwnLeader(edges: seq<Edge>, leaders: seq<nat>, k: nat)
    requires k < |edges|
    ensures HasLeader(edges, leaders + [k], k)
  {
    assert edges[k] in edges;
    ConnectedSelf(Along(edges), Ends(edges), edges[k].a);
    assert (leaders + [k])[|leaders|] == k && LedBy(edges, k, k);
  }

  lemma LeadersKeep(edges: seq<Edge>, n: nat, k: nat)
    requires k < |edges| && 0 < n <= |edges| && HasLeader(edges, Leaders(edges, OneLoop(edges), n-1), k)
    ensures HasLeader(edges, Leaders(edges, OneLoop(edges), n), k)
  {
    var same, prev := OneLoop(edges), Leaders(edges, OneLoop(edges), n-1);
    LeadersStep(edges, same, n);
    MoreLeaders(edges, prev, if (exists j :: 0 <= j < n-1 && same(edges[j], edges[n-1])) then [] else [n-1], k);
  }

  lemma {:induction false} EveryEdgeHasLeader(edges: seq<Edge>, n: nat, k: nat)
    requires k < n <= |edges|
    ensures HasLeader(edges, Leaders(edges, OneLoop(edges), n), k)
  {
    var same, prev := OneLoop(edges), Leaders(edges, OneLoop(edges), n-1);
    if k < n-1 {
      EveryEdgeHasLeader(edges, n-1, k);
      LeadersKeep(edges, n, k);
    } else if j :| 0 <= j < n-1 && same(edges[j], edges[n-1]) {
      EveryEdgeHasLeader(edges, n-1, j);
      LeaderThrough(edges, prev, j, k);
      LeadersKeep(edges, n, k);
    } else {
      LeadersStep(edges, same, n);
      OwnLeader(edges, prev, k);
    }
  }

  lemma {:induction false} LeadersApart(edges: seq<Edge>, n: nat)
    requires n <= |edges|
    ensures var leaders := Leaders(edges, OneLoop(edges), n);
      forall i, j :: 0 <= i < j < |leaders| ==>
        leaders[i] < leaders[j] && !Chained(edges, edges[leaders[i]].a, edges[leaders[j]].a)
  {
    if n > 0 {
      LeadersApart(edges, n-1);
      var same, prev := OneLoop(edges), Leaders(edges, OneLoop(edges), n-1);
      LeadersStep(edges, same, n);
      if !exists j :: 0 <= j < n-1 && same(edges[j], edges[n-1]) {
        forall i | 0 <= i < |prev|
          ensures !Chained(edges, edges[prev[i]].a, edges[n-1].a)
        {
          assert !same(edges[prev[i]], edges[n-1]);
        }
      }
    }
  }

  lemma LeaderApart(edges: seq<Edge>, i: nat, j: nat)
    requires i < j < |Leaders(edges, OneLoop(edges), |edges|)|
    ensures var leaders := Leaders(edges, OneLoop(edges), |edges|);
      !Chained(edges, edges[leaders[i]].a, edges[leaders[j]].a)
  {
    LeadersApart(edges, |edges|);
  }

  /** Every boundary edge lies in some loop. */
  lemma EveryEdgeHasLoop(edges: seq<Edge>, e: Edge)
    requires e in edges
    ensures exists i :: 0 <= i < |Loops(edges, OneLoop(edges))| && e in Loops(edges, OneLoop(edges))[i]
  {
    var same, leaders := OneLoop(edges), Leaders(edges, OneLoop(edges), |edges|);
    var k :| 0 <= k < |edges| && edges[k] == e;
    EveryEdgeHasLeader(edges, |edges|, k);
    var l :| 0 <= l < |leaders| && LedBy(edges, leaders[l], k);
    MembersAre(edges, same, edges[leaders[l]]);
    assert e in Loops(edges, same)[l];
  }

  /** Two edges share a loop exactly when a chain of shared end points joins them, so
      the loops are the boundary's connected components. */
  lemma LoopsPartition(edges: seq<Edge>, e: Edge, f: Edge, i: nat, j: nat)
    requires i < |Loops(edges, OneLoop(edges))| && j < |Loops(edges, OneLoop(edges))|
    requires e in Loops(edges, OneLoop(edges))[i] && f in Loops(edges, OneLoop(edges))[j]
    ensures i == j <==> Chained(edges, e.a, f.a)
  {
    var same, leaders := OneLoop(edges), Leaders(edges, OneLoop(edges), |edges|);
    var (p, q) := (edges[leaders[i]].a, edges[leaders[j]].a);
    MembersAre(edges, same, edges[leaders[i]]);
    MembersAre(edges, same, edges[leaders[j]]);
    ChainedSquare(edges, p, q, e.a, f.a);
    AlongSymmetric(edges);
    if i < j { LeaderApart(edges, i, j); }
    if j < i { LeaderApart(edges, j, i); }
    if i == j {
      ConnectedInNodes(Along(edges), Ends(edges), p, e.a);
      ConnectedSelf(Along(edges), Ends(edges), p);
    } else if Chained(edges, p, q) {
      ConnectedSymmetric(Along(edges), Ends(edges), p, q);
    }
  }

  lemma ChainedSquare(edges: seq<Edge>, p: Point, q: Point, x: Point, y: Point)
    requires Chained(edges, p, x) && Chained(edges, q, y)
    ensures Chained(edges, p, q) <==> Chained(edges, x, y)
  {
    var (adj, ends) := (Along(edges), Ends(edges));
    AlongSymmetric(edges);
    ConnectedSymmetric(adj, ends, p, x);
    ConnectedSymmetric(adj, ends, q, y);
    if Chained(edges, p, q) {
      ConnectedTransitive(adj, ends, x, p, q);
      ConnectedTransitive(adj, ends, x, q, y);
    }
    if Chained(edges, x, y) {
      ConnectedTransitive(adj, ends, p, x, y);
      ConnectedTransitive(adj, ends, p, y, q);
    }
  }

  // ---- What a loop holds ----

  ghost function Sharing(same: Relation, e: Edge): Edge -> bool { (g: Edge) => same(e, g) }

  lemma {:induction false} MembersFilter(edges: seq<Edge>, same: Relation, e: Edge)
    ensures Members(edges, same, e) == Filter(Sharing(same, e), edges)
  {
    if edges != [] {
      MembersFilter(edges[..|edges|-1], same, e);
    }
  }

  /** `f` lists the places of everything chained to the edge at `l`, and starts there. */
  ghost predicate ChainPlaces(edges: seq<Edge>, f: seq<nat>, l: nat)
  {
    && l < |edges| && f != [] && f[0] == l
    && forall k: nat :: k in f <==> k < |edges| && Chained(edges, edges[l].a, edges[k].a)
  }

  /** A loop is its first edge and every boundary edge a chain joins to it, in boundary
      order and as often as they occur. */
  lemma LoopIs(edges: seq<Edge>, i: nat) returns (f: seq<nat>)
    requires i < |Loops(edges, OneLoop(edges))|
    ensures Picks(edges, f, Loops(edges, OneLoop(edges))[i])
    ensures ChainPlaces(edges, f, Leaders(edges, OneLoop(edges), |edges|)[i])
  {
    var (same, l) := (OneLoop(edges), Leaders(edges, OneLoop(edges), |edges|)[i]);
    MembersFilter(edges, same, edges[l]);
    f := FilterSelects(Sharing(same, edges[l]), edges);
    assert edges[l] in edges;
    ConnectedSelf(Along(edges), Ends(edges), edges[l].a);
    assert forall k: nat :: k in f <==> k < |edges| && Chained(edges, edges[l].a, edges[k].a);
    LeaderIsFirst(edges, |edges|, i, f[0]);
    var j :| 0 <= j < |f| && f[j] == l;
    assert f[0] in f;
  }

  /** No earlier edge is chained to a leader. */
  lemma {:induction false} LeaderIsFirst(edges: seq<Edge>, n: nat, i: nat, k: nat)
    requires n <= |edges| && i < |Leaders(edges, OneLoop(edges), n)|
    ensures k < Leaders(edges, OneLoop(edges), n)[i] ==> !Chained(edges, edges[Leaders(edges, OneLoop(edges), n)[i]].a, edges[k].a)
  {
    var l := Leaders(edges, OneLoop(edges), n)[i];
    LeadersStep(edges, OneLoop(edges), n);
    if i < |Leaders(edges, OneLoop(edges), n-1)| {
      LeaderIsFirst(edges, n-1, i, k);
    } else if k < l && Chained(edges, edges[l].a, edges[k].a) {
      AlongSymmetric(edges);
      ConnectedSymmetric(Along(edges), Ends(edges), edges[l].a, edges[k].a);
    }
  }

  /** Loops come in the order of their first edges. */
  lemma LoopsInOrder(edges: seq<Edge>, i: nat, j: nat)
    requires i < j < |Loops(edges, OneLoop(edges))|
    ensures Leaders(edges, OneLoop(edges), |edges|)[i] < Leaders(edges, OneLoop(edges), |edges|)[j]
  {
    LeadersApart(edges, |edges|);
  }
}
