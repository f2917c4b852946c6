/** The coverage gate's statistic (scripts/ai-pipeline/proptex/coverage.py). */
module HoleGate {
  // 8-connected components of the uncovered island texels of a square atlas, each measured
  // by its deepest texel's distance to the nearest covered texel. Texels are flat row-major
  // indices; distances are squared, and infinite when nothing at all is covered.

  import opened Connectivity

  /** MAX_HOLE_DEPTH_FRAC, as the exact fraction 15/1000 of the atlas width. */
  const DEPTH_NUM := 15
  const DEPTH_DEN := 1000

  datatype Distance = Sq(n: nat) | Infinite

  datatype HoleComponent = HoleComponent(texels: set<nat>, depth: Distance)

  function Row(size: nat, t: nat): int { if size == 0 then 0 else t / size }

  function Col(size: nat, t: nat): int { if size == 0 then 0 else t % size }

  predicate Near8(size: nat, a: nat, b: nat)
  {
    && -1 <= Row(size, a) - Row(size, b) <= 1
    && -1 <= Col(size, a) - Col(size, b) <= 1
  }

  ghost function Adj8(size: nat): (nat, nat) -> bool { (a: nat, b: nat) => Near8(size, a, b) }

  function DistSq(size: nat, a: nat, b: nat): (d: int)
    ensures d >= 0
  {
    var (dr, dc) := (Row(size, a) - Row(size, b), Col(size, a) - Col(size, b));
    assert dr * dr >= 0 && dc * dc >= 0;
    dr * dr + dc * dc
  }

  /** The distance, as a fraction of the atlas width, exceeds MAX_HOLE_DEPTH_FRAC. */
  predicate TooDeep(size: nat, d: Distance)
  {
    d.Infinite? || DEPTH_DEN * DEPTH_DEN * d.n > DEPTH_NUM * DEPTH_NUM * (size * size)
  }

  function Min(a: Distance, b: Distance): Distance
  {
    if a.Infinite? then b else if b.Infinite? || a.n <= b.n then a else b
  }

  function Max(a: Distance, b: Distance): Distance
  {
    if a.Infinite? || b.Infinite? then Infinite else if a.n <= b.n then b else a
  }

  /** The distance transform at `t`: the nearest covered texel below index `n`. */
  function Nearest(size: nat, covered: set<nat>, t: nat, n: nat): Distance
  {
    if n == 0 then Infinite
    else Min(Nearest(size, covered, t, n-1),
             if n-1 in covered then Sq(DistSq(size, t, n-1)) else Infinite)
  }

  /** The running maximum of the transform over one label's texels. */
  function MaxDepth(size: nat, covered: set<nat>, comp: set<nat>, count: nat, n: nat): Distance
  {
    if n == 0 then Sq(0)
    else
      var m := MaxDepth(size, covered, comp, count, n-1);
      if n-1 in comp then Max(m, Nearest(size, covered, n-1, count)) else m
  }

  function Flood(size: nat, holes: set<nat>, seen: set<nat>): set<nat>
    decreases holes - seen
  {
    var next := set u | u in holes && u !in seen && exists v :: v in seen && Near8(size, v, u);
    if next == {} then seen
    else
      assert holes - (seen + next) < holes - seen by {
        var u :| u in next;
        assert u in holes - seen && u !in holes - (seen + next);
      }
      Flood(size, holes, seen + next)
  }

  /** Component labelling in raster order: label k is element k-1. */
  function Labels(size: nat, holes: set<nat>, n: nat): seq<set<nat>>
  {
    if n == 0 then [] else Label(size, holes, Labels(size, holes, n-1), n-1)
  }

  /** A hole texel no earlier label reached opens the next one. */
  function Label(size: nat, holes: set<nat>, labels: seq<set<nat>>, k: nat): seq<set<nat>>
  {
    if k in holes && forall i :: 0 <= i < |labels| ==> k !in labels[i]
    then labels + [Flood(size, holes, {k})]
    else labels
  }

  function Holes(covered: set<nat>, region: set<nat>): set<nat> { region - covered }

  function Measure(size: nat, covered: set<nat>, count: nat, labels: seq<set<nat>>): (r: seq<HoleComponent>)
    ensures |r| == |labels|
    ensures forall k :: 0 <= k < |r| ==>
      r[k] == HoleComponent(labels[k], MaxDepth(size, covered, labels[k], count, count))
  {
    seq(|labels|, k requires 0 <= k < |labels| =>
      HoleComponent(labels[k], MaxDepth(size, covered, labels[k], count, count)))
  }

  function HoleComponentDepths(size: nat, covered: set<nat>, region: set<nat>): seq<HoleComponent>
  {
    Measure(size, covered, size * size, Labels(size, Holes(covered, region), size * size))
  }

  function Over(size: nat, comps: seq<HoleComponent>): seq<HoleComponent>
  {
    if comps == [] then []
    else (if TooDeep(size, comps[0].depth) then [comps[0]] else []) + Over(size, comps[1..])
  }

  function TexelSum(comps: seq<HoleComponent>): nat
  {
    if comps == [] then 0 else |comps[0].texels| + TexelSum(comps[1..])
  }

  datatype Score = Score(texels: int, components: int)

  function Offending(size: nat, covered: set<nat>, region: set<nat>): Score
  {
    var over := Over(size, HoleComponentDepths(size, covered, region));
    Score(TexelSum(over), |over|)
  }

  // ---- What the statistic means, independently of how it is computed ----

  ghost predicate Far(size: nat, covered: set<nat>, t: nat)
  {
    forall c :: c in covered && c < size * size ==> TooDeep(size, Sq(DistSq(size, t, c)))
  }

  /** The offending texels: those whose hole component holds a texel that is far
      from everything covered. */
  ghost function OffendingTexels(size: nat, covered: set<nat>, region: set<nat>): set<nat>
  {
    var holes := Holes(covered, region);
    set t | t in holes && OffendingComponent(size, covered, Component(Adj8(size), holes, t))
  }

  ghost predicate OffendingComponent(size: nat, covered: set<nat>, comp: set<nat>)
  {
    exists u :: u in comp && u < size * size && Far(size, covered, u)
  }

  lemma Adj8Symmetric(size: nat)
    ensures Symmetric(Adj8(size))
  {
  }

  lemma {:induction false} NearestTooDeep(size: nat, covered: set<nat>, t: nat, n: nat)
    ensures TooDeep(size, Nearest(size, covered, t, n))
       <==> forall c :: c in covered && c < n ==> TooDeep(size, Sq(DistSq(size, t, c)))
  {
    if n > 0 {
      NearestTooDeep(size, covered, t, n-1);
    }
  }

  lemma {:induction false} MaxDepthTooDeep(size: nat, covered: set<nat>, comp: set<nat>, n: nat)
    ensures TooDeep(size, MaxDepth(size, covered, comp, size * size, n))
       <==> exists u :: u in comp && u < n && Far(size, covered, u)
  {
    if n == 0 {
      assert size * size >= 0;
    } else {
      MaxDepthTooDeep(size, covered, comp, n-1);
      NearestTooDeep(size, covered, n-1, size * size);
    }
  }

  /** The flood from a seed is the set of texels an 8-connected path reaches. */
  lemma {:induction false} FloodIsComponent(size: nat, holes: set<nat>, seen: set<nat>, a: nat)
    requires a in seen && seen <= Component(Adj8(size), holes, a)
    ensures Flood(size, holes, seen) == Component(Adj8(size), holes, a)
    decreases holes - seen
  {
    var adj := Adj8(size);
    var next := set u | u in holes && u !in seen && exists v :: v in seen && Near8(size, v, u);
    if next == {} {
      forall u, v | u in seen && u in holes && v in holes && adj(u, v)
        ensures v in seen
      {
        assert v !in next;
      }
      ComponentLeast(adj, holes, a, seen);
    } else {
      forall u | u in next
        ensures u in Component(adj, holes, a)
      {
        var v :| v in seen && Near8(size, v, u);
        ConnectedStep(adj, holes, a, v, u);
      }
      var u :| u in next;
      assert u in holes - seen && u !in holes - (seen + next);
      FloodIsComponent(size, holes, seen + next, a);
    }
  }

  ghost predicate IsComponent(size: nat, holes: set<nat>, c: set<nat>)
  {
    exists t: nat :: t in holes && t in c && c == Component(Adj8(size), holes, t)
  }

  ghost predicate PairwiseDisjoint(labels: seq<set<nat>>)
  {
    forall i, j :: 0 <= i < j < |labels| ==> labels[i] !! labels[j]
  }

  /** The labels are pairwise disjoint components that cover every hole below `n`. */
  ghost predicate Partition(size: nat, holes: set<nat>, labels: seq<set<nat>>, n: nat)
  {
    && (forall i :: 0 <= i < |labels| ==> IsComponent(size, holes, labels[i]))
    && PairwiseDisjoint(labels)
    && (forall t: nat :: t in holes && t < n ==> exists i :: 0 <= i < |labels| && t in labels[i])
  }

  lemma FloodFromSeed(size: nat, holes: set<nat>, t: nat)
    requires t in holes
    ensures Flood(size, holes, {t}) == Component(Adj8(size), holes, t)
    ensures t in Flood(size, holes, {t})
    ensures IsComponent(size, holes, Flood(size, holes, {t}))
  {
    ConnectedSelf(Adj8(size), holes, t);
    FloodIsComponent(size, holes, {t}, t);
  }

  lemma FreshComponentDisjoint(size: nat, holes: set<nat>, c: set<nat>, t: nat)
    requires IsComponent(size, holes, c) && t in holes && t !in c
    ensures c !! Flood(size, holes, {t})
  {
    FloodFromSeed(size, holes, t);
    Adj8Symmetric(size);
    var u: nat :| u in holes && u in c && c == Component(Adj8(size), holes, u);
    ComponentsPartition(Adj8(size), holes, u, t);
  }

  lemma PartitionGrows(size: nat, holes: set<nat>, labels: seq<set<nat>>, c: set<nat>, k: nat)
    requires Partition(size, holes, labels, k)
    requires IsComponent(size, holes, c) && k in c
    requires forall i :: 0 <= i < |labels| ==> labels[i] !! c
    ensures Partition(size, holes, labels + [c], k+1)
  {
    var all := labels + [c];
    forall i | 0 <= i < |all|
      ensures IsComponent(size, holes, all[i])
    {
      assert all[i] == if i < |labels| then labels[i] else c;
    }
    forall t: nat | t in holes && t < k+1
      ensures exists i :: 0 <= i < |all| && t in all[i]
    {
      if t < k {
        var i :| 0 <= i < |labels| && t in labels[i];
        assert t in all[i];
      } else {
        assert t in all[|labels|];
      }
    }
  }

  lemma LabelPartition(size: nat, holes: set<nat>, labels: seq<set<nat>>, k: nat, n: nat)
    requires n == k+1 && Partition(size, holes, labels, k)
    ensures Partition(size, holes, Label(size, holes, labels, k), n)
  {
    if k in holes && forall i :: 0 <= i < |labels| ==> k !in labels[i] {
      FloodFromSeed(size, holes, k);
      forall i | 0 <= i < |labels|
        ensures labels[i] !! Flood(size, holes, {k})
      {
        FreshComponentDisjoint(size, holes, labels[i], k);
      }
      PartitionGrows(size, holes, labels, Flood(size, holes, {k}), k);
    }
  }

  lemma {:induction false} LabelsPartition(size: nat, holes: set<nat>, n: nat)
    ensures Partition(size, holes, Labels(size, holes, n), n)
  {
    if n > 0 {
      var k: nat := n-1;
      var prev := Labels(size, holes, k);
      assert Labels(size, holes, n) == Label(size, holes, prev, k);
      LabelsPartition(size, holes, k);
      LabelPartition(size, holes, prev, k, n);
    }
  }

  // ---- The score is about offending texels only ----

  ghost function Union(sets: seq<set<nat>>): set<nat>
  {
    if sets == [] then {} else sets[0] + Union(sets[1..])
  }

  lemma {:induction false} InUnion(sets: seq<set<nat>>, t: nat)
    ensures t in Union(sets) <==> exists i :: 0 <= i < |sets| && t in sets[i]
  {
    if sets != [] {
      InUnion(sets[1..], t);
      if i :| 0 <= i < |sets| && t in sets[i] {
        assert i == 0 || sets[1..][i-1] == sets[i];
      }
    }
  }

  ghost function TexelSets(comps: seq<HoleComponent>): (r: seq<set<nat>>)
    ensures |r| == |comps| && forall k :: 0 <= k < |r| ==> r[k] == comps[k].texels
  {
    seq(|comps|, k requires 0 <= k < |comps| => comps[k].texels)
  }

  /** Disjoint components: the texel total is the size of their union. */
  lemma {:induction false} TexelSumIsUnion(comps: seq<HoleComponent>)
    requires PairwiseDisjoint(TexelSets(comps))
    ensures TexelSum(comps) == |Union(TexelSets(comps))|
  {
    if comps != [] {
      var sets := TexelSets(comps);
      assert TexelSets(comps[1..]) == sets[1..];
      assert PairwiseDisjoint(sets[1..]);
      TexelSumIsUnion(comps[1..]);
      var rest := sets[1..];
      forall t: nat | t in Union(rest)
        ensures t !in sets[0]
      {
        InUnion(rest, t);
        var i :| 0 <= i < |rest| && t in rest[i];
        assert sets[0] !! sets[i+1];
      }
      assert Union(sets) == sets[0] + Union(rest);
    }
  }

  /** What `Over` keeps: exactly the too-deep components, still pairwise disjoint. */
  lemma {:induction false} OverKeeps(size: nat, comps: seq<HoleComponent>)
    requires PairwiseDisjoint(TexelSets(comps))
    ensures PairwiseDisjoint(TexelSets(Over(size, comps)))
    ensures forall c :: c in Over(size, comps) <==> c in comps && TooDeep(size, c.depth)
  {
    if comps != [] {
      var rest, sets := comps[1..], TexelSets(comps);
      assert TexelSets(rest) == sets[1..];
      assert PairwiseDisjoint(sets[1..]);
      OverKeeps(size, rest);
      var over := Over(size, rest);
      forall k | 0 <= k < |over|
        ensures comps[0].texels !! over[k].texels
      {
        assert over[k] in rest;
        var j :| 0 <= j < |rest| && rest[j] == over[k];
        assert sets[0] !! sets[j+1];
      }
    }
  }

  // ---- Main results ----

  ghost predicate InAtlas(size: nat, region: set<nat>)
  {
    forall t :: t in region ==> t < size * size
  }

  ghost function OverSets(size: nat, covered: set<nat>, region: set<nat>): seq<set<nat>>
  {
    TexelSets(Over(size, HoleComponentDepths(size, covered, region)))
  }

  lemma OverSetsAreOffenders(size: nat, covered: set<nat>, region: set<nat>)
    requires InAtlas(size, region)
    ensures PairwiseDisjoint(OverSets(size, covered, region))
    ensures forall c :: c in OverSets(size, covered, region) <==> Offends(size, covered, region, c)
  {
    var holes, n := Holes(covered, region), size * size;
    var comps := HoleComponentDepths(size, covered, region);
    LabelsPartition(size, holes, n);
    assert TexelSets(comps) == Labels(size, holes, n);
    OverKeeps(size, comps);
    forall c
      ensures c in OverSets(size, covered, region) <==> Offends(size, covered, region, c)
    {
      InOverSets(size, covered, region, c);
      MaxDepthTooDeep(size, covered, c, n);
      if IsComponent(size, holes, c) {
        LabelOf(size, holes, Labels(size, holes, n), c);
      }
    }
  }

  ghost predicate Offends(size: nat, covered: set<nat>, region: set<nat>, c: set<nat>)
  {
    IsComponent(size, Holes(covered, region), c) && OffendingComponent(size, covered, c)
  }

  lemma InOverSets(size: nat, covered: set<nat>, region: set<nat>, c: set<nat>)
    ensures c in OverSets(size, covered, region)
       <==> c in Labels(size, Holes(covered, region), size * size)
            && TooDeep(size, MaxDepth(size, covered, c, size * size, size * size))
  {
    var n := size * size;
    var labels := Labels(size, Holes(covered, region), n);
    LabelsPartition(size, Holes(covered, region), n);
    MeasuredOver(size, covered, n, labels, c);
  }

  lemma MeasuredOver(size: nat, covered: set<nat>, n: nat, labels: seq<set<nat>>, c: set<nat>)
    requires PairwiseDisjoint(labels)
    ensures c in TexelSets(Over(size, Measure(size, covered, n, labels)))
       <==> c in labels && TooDeep(size, MaxDepth(size, covered, c, n, n))
  {
    var comps := Measure(size, covered, n, labels);
    var over := Over(size, comps);
    assert TexelSets(comps) == labels;
    OverKeeps(size, comps);
    if c in TexelSets(over) {
      var k :| 0 <= k < |over| && over[k].texels == c;
      assert over[k] in comps;
      var i :| 0 <= i < |comps| && comps[i] == over[k];
    }
    if c in labels && TooDeep(size, MaxDepth(size, covered, c, n, n)) {
      var i :| 0 <= i < |labels| && labels[i] == c;
      assert comps[i] in over;
      var k :| 0 <= k < |over| && over[k] == comps[i];
      assert TexelSets(over)[k] == c;
    }
  }

  lemma LabelOf(size: nat, holes: set<nat>, labels: seq<set<nat>>, c: set<nat>)
    requires InAtlas(size, holes) && Partition(size, holes, labels, size * size)
    requires IsComponent(size, holes, c)
    ensures exists i :: 0 <= i < |labels| && labels[i] == c
  {
    var t: nat :| t in holes && t in c && c == Component(Adj8(size), holes, t);
    var i :| 0 <= i < |labels| && t in labels[i];
    SharedTexel(size, holes, labels[i], c, t);
  }

  lemma SharedTexel(size: nat, holes: set<nat>, b: set<nat>, c: set<nat>, t: nat)
    requires IsComponent(size, holes, b) && IsComponent(size, holes, c) && t in b && t in c
    ensures b == c
  {
    var adj := Adj8(size);
    Adj8Symmetric(size);
    var u: nat :| u in holes && u in b && b == Component(adj, holes, u);
    var v: nat :| v in holes && v in c && c == Component(adj, holes, v);
    ComponentsPartition(adj, holes, u, v);
  }

  /** The score's texel count is the number of offending texels. */
  lemma ScoreCountsOffenders(size: nat, covered: set<nat>, region: set<nat>)
    requires InAtlas(size, region)
    ensures Union(OverSets(size, covered, region)) == OffendingTexels(size, covered, region)
    ensures Offending(size, covered, region)
         == Score(|OffendingTexels(size, covered, region)|, |OverSets(size, covered, region)|)
  {
    var holes, sets := Holes(covered, region), OverSets(size, covered, region);
    var adj := Adj8(size);
    Adj8Symmetric(size);
    OverSetsAreOffenders(size, covered, region);
    TexelSumIsUnion(Over(size, HoleComponentDepths(size, covered, region)));
    forall t: nat
      ensures t in Union(sets) <==> t in OffendingTexels(size, covered, region)
    {
      InUnion(sets, t);
      if t in Union(sets) {
        var i :| 0 <= i < |sets| && t in sets[i];
        assert sets[i] in sets;
        var u: nat :| u in holes && u in sets[i] && sets[i] == Component(adj, holes, u);
        ComponentsEqual(adj, holes, u, t);
      }
      if t in OffendingTexels(size, covered, region) {
        ConnectedSelf(adj, holes, t);
        assert Offends(size, covered, region, Component(adj, holes, t));
        var i :| 0 <= i < |sets| && sets[i] == Component(adj, holes, t);
      }
    }
  }

  /** Covering more texels never makes a texel offending: hole components split or
      shrink inside the old ones, and every distance to coverage falls. */
  lemma OffendersShrink(size: nat, covered: set<nat>, more: set<nat>, region: set<nat>)
    requires covered <= more
    ensures OffendingTexels(size, more, region) <= OffendingTexels(size, covered, region)
  {
    var before, after := Holes(covered, region), Holes(more, region);
    forall t: nat | t in OffendingTexels(size, more, region)
      ensures t in OffendingTexels(size, covered, region)
    {
      ComponentShrinks(Adj8(size), after, before, t);
      var u: nat :| u in Component(Adj8(size), after, t) && u < size * size && Far(size, more, u);
      assert Far(size, covered, u);
    }
  }

  /** If no texel stops offending, the offending components are the very same sets. */
  lemma OffendersUnchanged(size: nat, covered: set<nat>, more: set<nat>, region: set<nat>)
    requires InAtlas(size, region) && covered <= more
    requires OffendingTexels(size, more, region) == OffendingTexels(size, covered, region)
    ensures forall c :: c in OverSets(size, more, region) <==> c in OverSets(size, covered, region)
  {
    var adj := Adj8(size);
    var before, after := Holes(covered, region), Holes(more, region);
    OverSetsAreOffenders(size, covered, region);
    OverSetsAreOffenders(size, more, region);
    forall t: nat | t in OffendingTexels(size, covered, region)
      ensures Component(adj, after, t) == Component(adj, before, t)
    {
      OffendingComponentsWhole(size, covered, region, t);
      ComponentSurvives(adj, after, before, t);
    }
    forall c | c in OverSets(size, covered, region)
      ensures c in OverSets(size, more, region)
    {
      var t: nat :| t in before && t in c && c == Component(adj, before, t);
      assert t in OffendingTexels(size, more, region);
      assert IsComponent(size, after, c);
    }
    forall c | c in OverSets(size, more, region)
      ensures c in OverSets(size, covered, region)
    {
      var t: nat :| t in after && t in c && c == Component(adj, after, t);
      assert t in OffendingTexels(size, more, region);
      assert IsComponent(size, before, c);
    }
  }

  lemma OffendingComponentsWhole(size: nat, covered: set<nat>, region: set<nat>, t: nat)
    requires t in OffendingTexels(size, covered, region)
    ensures Component(Adj8(size), Holes(covered, region), t) <= OffendingTexels(size, covered, region)
  {
    var adj, holes := Adj8(size), Holes(covered, region);
    Adj8Symmetric(size);
    forall u: nat | u in Component(adj, holes, t)
      ensures u in OffendingTexels(size, covered, region)
    {
      ComponentsEqual(adj, holes, t, u);
    }
  }

  lemma {:induction false} DistinctCount(sets: seq<set<nat>>)
    requires PairwiseDisjoint(sets) && forall c :: c in sets ==> c != {}
    ensures |(set c | c in sets)| == |sets|
  {
    if sets == [] {
      assert (set c | c in sets) == {};
    } else {
      var rest := sets[1..];
      assert forall c :: c in rest ==> c in sets;
      DistinctCount(rest);
      forall c | c in rest
        ensures c != sets[0]
      {
        var i :| 0 <= i < |rest| && rest[i] == c;
        assert sets[0] !! sets[i+1] && sets[0] in sets;
      }
      assert (set c | c in sets) == {sets[0]} + (set c | c in rest);
    }
  }

  /** The gate's score under more coverage: the texel count never rises, and when it
      does not fall the component count does not move at all, so the tie-break can
      never be what makes a pick worth taking. */
  lemma MoreCoverage(size: nat, covered: set<nat>, more: set<nat>, region: set<nat>)
    requires InAtlas(size, region) && covered <= more
    ensures var (a, b) := (Offending(size, covered, region), Offending(size, more, region));
      0 <= b.texels <= a.texels && (b.texels == a.texels ==> b == a)
  {
    var (x, y) := (OffendingTexels(size, covered, region), OffendingTexels(size, more, region));
    ScoreCountsOffenders(size, covered, region);
    ScoreCountsOffenders(size, more, region);
    OffendersShrink(size, covered, more, region);
    Subset(y, x);
    if |x| == |y| {
      OffendersUnchanged(size, covered, more, region);
      OverSetsNonempty(size, covered, region);
      OverSetsNonempty(size, more, region);
      SameCount(OverSets(size, covered, region), OverSets(size, more, region));
    }
  }

  lemma OverSetsNonempty(size: nat, covered: set<nat>, region: set<nat>)
    requires InAtlas(size, region)
    ensures PairwiseDisjoint(OverSets(size, covered, region))
    ensures forall c :: c in OverSets(size, covered, region) ==> c != {}
  {
    OverSetsAreOffenders(size, covered, region);
    forall c | c in OverSets(size, covered, region)
      ensures c != {}
    {
      assert IsComponent(size, Holes(covered, region), c);
    }
  }

  lemma SameCount(p: seq<set<nat>>, q: seq<set<nat>>)
    requires PairwiseDisjoint(p) && forall c :: c in p ==> c != {}
    requires PairwiseDisjoint(q) && forall c :: c in q ==> c != {}
    requires forall c :: c in p <==> c in q
    ensures |p| == |q|
  {
    DistinctCount(p);
    DistinctCount(q);
    assert (set c | c in p) == (set c | c in q);
  }

  lemma Subset(y: set<nat>, x: set<nat>)
    requires y <= x
    ensures |y| <= |x| && (|y| == |x| ==> y == x)
  {
    assert x == y + (x - y);
    assert |x| == |y| + |x - y|;
  }

  /** An offending score has components exactly when it has texels. */
  lemma ScoreZero(size: nat, covered: set<nat>, region: set<nat>)
    requires InAtlas(size, region)
    ensures Offending(size, covered, region).components > 0 <==> Offending(size, covered, region).texels > 0
    ensures Offending(size, covered, region).components >= 0
  {
    var sets := OverSets(size, covered, region);
    ScoreCountsOffenders(size, covered, region);
    OverSetsNonempty(size, covered, region);
    if sets != [] {
      assert sets[0] in sets;
      var t: nat :| t in sets[0];
      assert t in Union(sets);
    }
  }

  // ---- Rows, columns and distances ----

  lemma Unflattened(size: nat, r: nat, c: nat, t: nat)
    requires c < size && t == r * size + c
    ensures Row(size, t) == r && Col(size, t) == c
  {
    var (q, m) := (t / size, t % size);
    assert t == size * q + m;
    assert size * (q - r) == c - m;
    if q > r {
      Multiples(size, q - r);
    }
    if q < r {
      Multiples(size, r - q);
    }
  }

  lemma Multiples(size: nat, k: int)
    requires k >= 1
    ensures size * k >= size
  {
  }

  /** Neighbours are at most one row and one column apart, corners included; distances are
      straight lines over rows and columns. */
  lemma RowsAndColumns(size: nat, r: nat, c: nat, r': nat, c': nat, t: nat, t': nat)
    requires c < size && c' < size && t == r * size + c && t' == r' * size + c'
    ensures Near8(size, t, t') <==> -1 <= r - r' <= 1 && -1 <= c - c' <= 1
    ensures DistSq(size, t, t') == (r - r') * (r - r') + (c - c') * (c - c')
  {
    Unflattened(size, r, c, t);
    Unflattened(size, r', c', t');
  }

  /** The limit: a distance over 1.5 hundredths of the atlas width. */
  lemma TooDeepIs(size: nat, n: nat)
    ensures TooDeep(size, Sq(n)) <==> n as real > (0.015 * size as real) * (0.015 * size as real)
  {
    var (x, y) := (size as real, (size * size) as real);
    assert y == x * x;
    assert (0.015 * x) * (0.015 * x) == 0.000225 * y;
  }

  /** The transform is the least squared distance to a covered texel, infinite if none is
      covered. */
  lemma {:induction false} NearestIs(size: nat, covered: set<nat>, t: nat, n: nat)
    ensures var d := Nearest(size, covered, t, n);
      && (d.Infinite? <==> forall c: nat :: c in covered ==> c >= n)
      && (d.Sq? ==> (exists c: nat :: c in covered && c < n && d.n == DistSq(size, t, c))
                    && forall c: nat :: c in covered && c < n ==> d.n <= DistSq(size, t, c))
  {
    if n > 0 {
      NearestIs(size, covered, t, n-1);
    }
  }

  ghost predicate NoDeeper(d: Distance, e: Distance) { e.Infinite? || (d.Sq? && d.n <= e.n) }

  /** A component's depth is that of its deepest texel. */
  lemma {:induction false} MaxDepthIs(size: nat, covered: set<nat>, comp: set<nat>, count: nat, n: nat)
    ensures var m := MaxDepth(size, covered, comp, count, n);
      && (forall t: nat :: t in comp && t < n ==> NoDeeper(Nearest(size, covered, t, count), m))
      && (m == Sq(0) || exists t: nat :: t in comp && t < n && m == Nearest(size, covered, t, count))
  {
    if n > 0 {
      MaxDepthIs(size, covered, comp, count, n-1);
    }
  }
}
