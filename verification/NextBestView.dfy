/** Greedy next-best-view selection (scripts/ai-pipeline/proptex/coverage.py). */
module NextBestView {
  // A view is the non-negative per-texel weight `view_weight` gives it; weights are reals,
  // so summing is exact.

  import opened Basics
  import opened HoleGate

  /** MV_COVERAGE_EPS */
  const COVERAGE_EPS := 0.0001

  type Weights = seq<real>

  datatype Spec = Spec(hint: string, azimuth: real, elevation: real)

  /** One entry of `extra_meta`. */
  datatype Pick = Pick(spec: Spec, retiredTexels: int, retiredComponents: int)

  ghost predicate ValidView(n: nat, w: Weights)
  {
    |w| == n && forall t :: 0 <= t < n ==> w[t] >= 0.0
  }

  ghost predicate ValidViews(n: nat, views: seq<Weights>)
  {
    forall i :: 0 <= i < |views| ==> ValidView(n, views[i])
  }

  function CoveredMask(wsum: Weights, island: set<nat>): set<nat>
  {
    set t | t in island && t < |wsum| && wsum[t] > COVERAGE_EPS
  }

  function Add(a: Weights, b: Weights): (r: Weights)
    requires |a| == |b|
    ensures |r| == |a| && forall t :: 0 <= t < |r| ==> r[t] == a[t] + b[t]
  {
    seq(|a|, t requires 0 <= t < |a| => a[t] + b[t])
  }

  function Zeros(n: nat): (r: Weights)
    ensures |r| == n && forall t :: 0 <= t < n ==> r[t] == 0.0
  {
    seq(n, _ => 0.0)
  }

  function SumFrom(wsum: Weights, views: seq<Weights>): (r: Weights)
    requires forall i :: 0 <= i < |views| ==> |views[i]| == |wsum|
    ensures |r| == |wsum|
    decreases |views|
  {
    if views == [] then wsum else SumFrom(Add(wsum, views[0]), views[1..])
  }

  lemma {:induction false} SumValid(n: nat, wsum: Weights, views: seq<Weights>)
    requires ValidView(n, wsum) && ValidViews(n, views)
    ensures ValidView(n, SumFrom(wsum, views))
    decreases |views|
  {
    if views != [] {
      SumValid(n, Add(wsum, views[0]), views[1..]);
    }
  }

  method ViewCoverage(n: nat, views: seq<Weights>) returns (wsum: Weights)
    requires ValidViews(n, views)
    ensures wsum == SumFrom(Zeros(n), views)
  {
    wsum := Zeros(n);
    for i := 0 to |views|
      invariant |wsum| == n
      invariant SumFrom(wsum, views[i..]) == SumFrom(Zeros(n), views)
    {
      assert views[i..][0] == views[i] && views[i..][1..] == views[i+1..];
      wsum := Add(wsum, views[i]);
    }
  }

  // ---- The greedy loop ----

  /** A candidate set and the statistic its picks are scored by. */
  datatype Problem = Problem(n: nat, specs: seq<Spec>, weights: seq<Weights>, score: Weights -> Score)
  {
    ghost predicate Valid()
    {
      |specs| == |weights| && ValidViews(n, weights)
    }

    ghost predicate Live(wsum: Weights, live: seq<nat>)
    {
      ValidView(n, wsum) && forall i :: 0 <= i < |live| ==> live[i] < |weights|
    }

    function Gain(wsum: Weights, j: nat): Score
      requires j < |weights| && |weights[j]| == |wsum|
    {
      var (cur, after) := (score(wsum), score(Add(wsum, weights[j])));
      Score(cur.texels - after.texels, cur.components - after.components)
    }
  }

  /** Python's order on pairs. */
  predicate Less(a: Score, b: Score)
  {
    a.texels < b.texels || (a.texels == b.texels && a.components < b.components)
  }

  /** `max(range(len(gains)), key=gains.__getitem__)`: the first maximum. */
  function BestOf(gains: seq<Score>): (k: nat)
    requires gains != []
    ensures k < |gains|
    ensures forall j :: 0 <= j < |gains| ==> !Less(gains[k], gains[j])
    ensures forall j :: 0 <= j < k ==> Less(gains[j], gains[k])
  {
    if |gains| == 1 then 0
    else
      var m := |gains| - 1;
      var k := BestOf(gains[..m]);
      if Less(gains[k], gains[m]) then m else k
  }

  function Gains(p: Problem, wsum: Weights, live: seq<nat>): (r: seq<Score>)
    requires p.Valid() && p.Live(wsum, live)
    ensures |r| == |live| && forall i :: 0 <= i < |r| ==> r[i] == p.Gain(wsum, live[i])
  {
    seq(|live|, i requires 0 <= i < |live| => p.Gain(wsum, live[i]))
  }

  datatype Run = Run(picked: seq<nat>, meta: seq<Pick>, wsum: Weights)

  /** The loop's meaning: what it still picks from `live` on top of `wsum`. */
  function Greedy(p: Problem, wsum: Weights, live: seq<nat>): Run
    requires p.Valid() && p.Live(wsum, live)
    decreases |live|
  {
    if live == [] || p.score(wsum).components <= 0 then Run([], [], wsum)
    else
      var gains := Gains(p, wsum, live);
      var k := BestOf(gains);
      if !Less(Score(0, 0), gains[k]) then Run([], [], wsum)
      else
        var j := live[k];
        var rest := Greedy(p, Add(wsum, p.weights[j]), RemoveAt(live, k));
        Run([j] + rest.picked,
            [Pick(p.specs[j], gains[k].texels, gains[k].components)] + rest.meta,
            rest.wsum)
  }

  function Indices(n: nat): (r: seq<nat>)
    ensures |r| == n && forall i :: 0 <= i < n ==> r[i] == i
  {
    seq(n, i => i)
  }

  function Reachable(island: set<nat>, wsum: Weights, weights: seq<Weights>): set<nat>
  {
    if weights == [] then CoveredMask(wsum, island)
    else Reachable(island, wsum, weights[..|weights|-1]) + CoveredMask(weights[|weights|-1], island)
  }

  /** Some candidate alone covers the texel. */
  ghost predicate SomeCovers(weights: seq<Weights>, t: nat)
  {
    exists j :: 0 <= j < |weights| && t < |weights[j]| && weights[j][t] > COVERAGE_EPS
  }

  /** The reachable texels, said of the weights: the base sum or some candidate alone
      covers them. */
  ghost predicate ReachedBy(island: set<nat>, base: Weights, weights: seq<Weights>, reachable: set<nat>)
  {
    forall t: nat :: t in reachable <==>
      t in island && ((t < |base| && base[t] > COVERAGE_EPS) || SomeCovers(weights, t))
  }

  lemma SomeCoversStep(init: seq<Weights>, w: Weights, t: nat)
    ensures SomeCovers(init + [w], t) <==> SomeCovers(init, t) || (t < |w| && w[t] > COVERAGE_EPS)
  {
    var all := init + [w];
    if j :| 0 <= j < |init| && t < |init[j]| && init[j][t] > COVERAGE_EPS {
      assert all[j] == init[j];
    }
    assert all[|init|] == w;
  }

  lemma {:induction false} ReachableIs(island: set<nat>, wsum: Weights, weights: seq<Weights>)
    ensures ReachedBy(island, wsum, weights, Reachable(island, wsum, weights))
  {
    if weights != [] {
      var (init, w) := (weights[..|weights|-1], weights[|weights|-1]);
      assert weights == init + [w];
      ReachableIs(island, wsum, init);
      forall t: nat ensures t in Reachable(island, wsum, weights) <==>
        t in island && ((t < |wsum| && wsum[t] > COVERAGE_EPS) || SomeCovers(weights, t))
      {
        SomeCoversStep(init, w, t);
      }
    }
  }

  /** The gate's own statistic, over the island texels some view can reach. */
  function GateScore(size: nat, island: set<nat>, reachable: set<nat>): Weights -> Score
  {
    (wsum: Weights) => Offending(size, CoveredMask(wsum, island), island * reachable)
  }

  function GateProblem(size: nat, island: set<nat>, reachable: set<nat>,
                       specs: seq<Spec>, weights: seq<Weights>): Problem
  {
    Problem(size * size, specs, weights, GateScore(size, island, reachable))
  }

  /** The score counts the offending texels of the reachable island, as the weights cover it. */
  lemma GateScoreIs(size: nat, island: set<nat>, reachable: set<nat>, wsum: Weights)
    requires InAtlas(size, island)
    ensures var covered := set t | t in island && t < |wsum| && wsum[t] > COVERAGE_EPS;
      GateScore(size, island, reachable)(wsum).texels == |OffendingTexels(size, covered, island * reachable)|
  {
    ScoreCountsOffenders(size, CoveredMask(wsum, island), island * reachable);
  }

  method FindReachable(n: nat, island: set<nat>, wsum: Weights, weights: seq<Weights>) returns (reachable: set<nat>)
    ensures reachable == Reachable(island, wsum, weights)
  {
    reachable := CoveredMask(wsum, island);
    for i := 0 to |weights|
      invariant reachable == Reachable(island, wsum, weights[..i])
    {
      assert weights[..i+1][..i] == weights[..i];
      reachable := reachable + CoveredMask(weights[i], island);
    }
    assert weights[..|weights|] == weights;
  }

  lemma LiveShrinks(p: Problem, wsum: Weights, live: seq<nat>, k: nat)
    requires p.Valid() && p.Live(wsum, live) && k < |live|
    ensures p.Live(Add(wsum, p.weights[live[k]]), RemoveAt(live, k))
  {
    var w := p.weights[live[k]];
    assert ValidView(p.n, w);
  }

  /** The entry the loop appends, and what remains to be picked after it. */
  function TakeBest(p: Problem, wsum: Weights, live: seq<nat>, k: nat): Pick
    requires p.Valid() && p.Live(wsum, live) && k < |live|
  {
    var g := p.Gain(wsum, live[k]);
    Pick(p.specs[live[k]], g.texels, g.components)
  }

  lemma GreedyTakes(p: Problem, wsum: Weights, live: seq<nat>, k: nat, meta: seq<Pick>)
    requires p.Valid() && p.Live(wsum, live) && live != [] && p.score(wsum).components > 0
    requires k == BestOf(Gains(p, wsum, live)) && Less(Score(0, 0), p.Gain(wsum, live[k]))
    ensures p.Live(Add(wsum, p.weights[live[k]]), RemoveAt(live, k))
    ensures meta + Greedy(p, wsum, live).meta == meta + [TakeBest(p, wsum, live, k)]
      + Greedy(p, Add(wsum, p.weights[live[k]]), RemoveAt(live, k)).meta
  {
    LiveShrinks(p, wsum, live, k);
  }

  method PickLoop(p: Problem, base: Weights, all: seq<nat>) returns (meta: seq<Pick>)
    requires p.Valid() && p.Live(base, all)
    ensures meta == Greedy(p, base, all).meta
  {
    meta := [];
    var wsum, live := base, all;
    var cur := p.score(wsum);
    while live != [] && cur.components > 0
      invariant p.Live(wsum, live) && cur == p.score(wsum)
      invariant meta + Greedy(p, wsum, live).meta == Greedy(p, base, all).meta
      decreases |live|
    {
      var gains := Gains(p, wsum, live);
      var best := BestOf(gains);
      if !Less(Score(0, 0), gains[best]) {
        break;
      }
      GreedyTakes(p, wsum, live, best, meta);
      meta := meta + [TakeBest(p, wsum, live, best)];
      wsum := Add(wsum, p.weights[live[best]]);
      live := RemoveAt(live, best);
      cur := p.score(wsum);
    }
  }

  method PickExtraViews(size: nat, views: seq<Weights>, specs: seq<Spec>, weights: seq<Weights>,
                        island: set<nat>)
    returns (meta: seq<Pick>, reachable: set<nat>)
    requires InAtlas(size, island) && |specs| == |weights|
    requires ValidViews(size * size, views) && ValidViews(size * size, weights)
    ensures var base := SumFrom(Zeros(size * size), views);
      && reachable == Reachable(island, base, weights) && ValidView(size * size, base)
      && ReachedBy(island, base, weights, reachable)
    ensures meta == Greedy(GateProblem(size, island, reachable, specs, weights),
                           SumFrom(Zeros(size * size), views), Indices(|weights|)).meta
  {
    var wsum := ViewCoverage(size * size, views);
    SumValid(size * size, Zeros(size * size), views);
    reachable := FindReachable(size * size, island, wsum, weights);
    ReachableIs(island, wsum, weights);
    meta := PickLoop(GateProblem(size, island, reachable, specs, weights), wsum, Indices(|weights|));
  }

  // ---- What every run keeps ----

  /** Adding a view never raises the statistic, and leaves it alone when it retires
      no texel; some component counts exactly when some texel does. */
  ghost predicate Monotone(p: Problem)
  {
    && (forall wsum, w :: ValidView(p.n, wsum) && ValidView(p.n, w) ==> Falls(p, wsum, w))
    && (forall wsum :: ValidView(p.n, wsum) ==> Counts(p.score(wsum)))
  }

  ghost predicate Falls(p: Problem, wsum: Weights, w: Weights)
    requires |wsum| == |w|
  {
    var (a, b) := (p.score(wsum), p.score(Add(wsum, w)));
    b.texels <= a.texels && (b.texels == a.texels ==> b == a)
  }

  ghost predicate Counts(s: Score)
  {
    s.texels >= 0 && s.components >= 0 && (s.components > 0 <==> s.texels > 0)
  }

  /** The coverage gate's statistic is such a statistic. */
  lemma GateMonotone(size: nat, island: set<nat>, reachable: set<nat>, specs: seq<Spec>, weights: seq<Weights>)
    requires InAtlas(size, island)
    ensures Monotone(GateProblem(size, island, reachable, specs, weights))
  {
    var p := GateProblem(size, island, reachable, specs, weights);
    var region := island * reachable;
    forall wsum, w | ValidView(p.n, wsum) && ValidView(p.n, w)
      ensures Falls(p, wsum, w)
    {
      assert CoveredMask(wsum, island) <= CoveredMask(Add(wsum, w), island);
      MoreCoverage(size, CoveredMask(wsum, island), CoveredMask(Add(wsum, w), island), region);
    }
    forall wsum | ValidView(p.n, wsum)
      ensures Counts(p.score(wsum))
    {
      ScoreZero(size, CoveredMask(wsum, island), region);
      ScoreCountsOffenders(size, CoveredMask(wsum, island), region);
    }
  }

  ghost function RetiredComponents(meta: seq<Pick>): int
  {
    if meta == [] then 0 else meta[0].retiredComponents + RetiredComponents(meta[1..])
  }

  ghost function Retired(meta: seq<Pick>): int
  {
    if meta == [] then 0 else meta[0].retiredTexels + Retired(meta[1..])
  }

  /** The first pick, named: the branch of `Greedy` that goes on. */
  ghost predicate Goes(p: Problem, wsum: Weights, live: seq<nat>)
    requires p.Valid() && p.Live(wsum, live)
  {
    live != [] && p.score(wsum).components > 0 && Less(Score(0, 0), p.Gain(wsum, live[BestOf(Gains(p, wsum, live))]))
  }

  ghost function Best(p: Problem, wsum: Weights, live: seq<nat>): (k: nat)
    requires p.Valid() && p.Live(wsum, live) && live != []
    ensures k < |live|
  {
    BestOf(Gains(p, wsum, live))
  }

  lemma GreedyUnfolds(p: Problem, wsum: Weights, live: seq<nat>)
    requires p.Valid() && p.Live(wsum, live)
    ensures if Goes(p, wsum, live) then
      var k := Best(p, wsum, live);
      p.Live(Add(wsum, p.weights[live[k]]), RemoveAt(live, k)) &&
      var rest := Greedy(p, Add(wsum, p.weights[live[k]]), RemoveAt(live, k));
      Greedy(p, wsum, live) == Run([live[k]] + rest.picked, [TakeBest(p, wsum, live, k)] + rest.meta, rest.wsum)
      else Greedy(p, wsum, live) == Run([], [], wsum)
  {
    if Goes(p, wsum, live) {
      LiveShrinks(p, wsum, live, Best(p, wsum, live));
    }
  }

  /** Every pick retires at least one offending texel, and the retired counts add up
      to the whole drop. */
  lemma {:induction false} PicksRetire(p: Problem, wsum: Weights, live: seq<nat>)
    requires p.Valid() && p.Live(wsum, live) && Monotone(p)
    ensures var run := Greedy(p, wsum, live);
      && (forall i :: 0 <= i < |run.meta| ==> run.meta[i].retiredTexels > 0)
      && Retired(run.meta) == p.score(wsum).texels - p.score(run.wsum).texels
      && RetiredComponents(run.meta) == p.score(wsum).components - p.score(run.wsum).components
    decreases |live|
  {
    GreedyUnfolds(p, wsum, live);
    if Goes(p, wsum, live) {
      var k := Best(p, wsum, live);
      var w := p.weights[live[k]];
      assert ValidView(p.n, w) && Falls(p, wsum, w);
      PicksRetire(p, Add(wsum, w), RemoveAt(live, k));
      var run, rest := Greedy(p, wsum, live), Greedy(p, Add(wsum, w), RemoveAt(live, k));
      assert run.meta[1..] == rest.meta;
    }
  }

  lemma RemoveAtDistinct(s: seq<nat>, k: nat)
    requires k < |s| && Distinct(s)
    ensures Distinct(RemoveAt(s, k)) && s[k] !in RemoveAt(s, k)
    ensures forall j :: j in s && j != s[k] ==> j in RemoveAt(s, k)
  {
    var r := RemoveAt(s, k);
    forall j | j in s && j != s[k]
      ensures j in r
    {
      var i :| 0 <= i < |s| && s[i] == j;
      assert r[if i < k then i else i-1] == j;
    }
  }

  /** No candidate is picked twice. */
  lemma {:induction false} PicksDistinct(p: Problem, wsum: Weights, live: seq<nat>)
    requires p.Valid() && p.Live(wsum, live) && Distinct(live)
    ensures Distinct(Greedy(p, wsum, live).picked)
    ensures forall j :: j in Greedy(p, wsum, live).picked ==> j in live
    decreases |live|
  {
    GreedyUnfolds(p, wsum, live);
    if Goes(p, wsum, live) {
      var k := Best(p, wsum, live);
      RemoveAtDistinct(live, k);
      PicksDistinct(p, Add(wsum, p.weights[live[k]]), RemoveAt(live, k));
    }
  }

  /** The loop stops only when the gate would pass, or when every candidate not yet
      picked would leave the statistic exactly as it is. */
  lemma {:induction false} StopsAtAFixpoint(p: Problem, wsum: Weights, live: seq<nat>)
    requires p.Valid() && p.Live(wsum, live) && Monotone(p) && Distinct(live)
    ensures var run := Greedy(p, wsum, live);
      && ValidView(p.n, run.wsum)
      && (|| p.score(run.wsum) == Score(0, 0)
          || forall j :: j in live && j !in run.picked ==>
               j < |p.weights| && p.score(Add(run.wsum, p.weights[j])) == p.score(run.wsum))
    decreases |live|
  {
    GreedyUnfolds(p, wsum, live);
    if Goes(p, wsum, live) {
      var k := Best(p, wsum, live);
      RemoveAtDistinct(live, k);
      StopsAtAFixpoint(p, Add(wsum, p.weights[live[k]]), RemoveAt(live, k));
    } else if live != [] && p.score(wsum).components > 0 {
      forall j | j in live
        ensures p.score(Add(wsum, p.weights[j])) == p.score(wsum)
      {
        NoGain(p, wsum, live, j);
      }
    }
  }

  lemma NoGain(p: Problem, wsum: Weights, live: seq<nat>, j: nat)
    requires p.Valid() && p.Live(wsum, live) && Monotone(p) && j in live
    requires !Less(Score(0, 0), p.Gain(wsum, live[Best(p, wsum, live)]))
    ensures p.score(Add(wsum, p.weights[j])) == p.score(wsum)
  {
    var gains := Gains(p, wsum, live);
    var i :| 0 <= i < |live| && live[i] == j;
    assert !Less(gains[BestOf(gains)], gains[i]);
    assert ValidView(p.n, p.weights[j]) && Falls(p, wsum, p.weights[j]);
  }

  ghost function Chosen(weights: seq<Weights>, picked: seq<nat>): (r: seq<Weights>)
    requires forall i :: 0 <= i < |picked| ==> picked[i] < |weights|
    ensures |r| == |picked| && forall i :: 0 <= i < |r| ==> r[i] == weights[picked[i]]
  {
    if picked == [] then [] else [weights[picked[0]]] + Chosen(weights, picked[1..])
  }

  /** The loop's final sum is the base sum plus the picked views, in pick order, and
      the reported directions are those of the picks. */
  lemma {:induction false} RunSumsPicks(p: Problem, wsum: Weights, live: seq<nat>)
    requires p.Valid() && p.Live(wsum, live)
    ensures var run := Greedy(p, wsum, live);
      && (forall i :: 0 <= i < |run.picked| ==> run.picked[i] < |p.weights|)
      && |run.meta| == |run.picked|
      && (forall i :: 0 <= i < |run.meta| ==> run.meta[i].spec == p.specs[run.picked[i]])
      && ValidViews(p.n, Chosen(p.weights, run.picked))
      && run.wsum == SumFrom(wsum, Chosen(p.weights, run.picked))
    decreases |live|
  {
    GreedyUnfolds(p, wsum, live);
    if Goes(p, wsum, live) {
      var k := Best(p, wsum, live);
      var next := Add(wsum, p.weights[live[k]]);
      RunSumsPicks(p, next, RemoveAt(live, k));
      ChosenFirst(p.weights, live[k], Greedy(p, next, RemoveAt(live, k)).picked, wsum);
    }
  }

  lemma ChosenFirst(weights: seq<Weights>, j: nat, rest: seq<nat>, wsum: Weights)
    requires j < |weights| && forall i :: 0 <= i < |rest| ==> rest[i] < |weights|
    requires ValidViews(|wsum|, weights)
    ensures ValidViews(|wsum|, Chosen(weights, rest)) && ValidViews(|wsum|, Chosen(weights, [j] + rest))
    ensures SumFrom(wsum, Chosen(weights, [j] + rest)) == SumFrom(Add(wsum, weights[j]), Chosen(weights, rest))
  {
    var tail := Chosen(weights, rest);
    assert ValidViews(|wsum|, tail);
    assert ([j] + rest)[1..] == rest;
    assert Chosen(weights, [j] + rest) == [weights[j]] + tail;
    SumFirst(wsum, weights[j], tail);
  }

  lemma SumFirst(wsum: Weights, w: Weights, tail: seq<Weights>)
    requires |w| == |wsum| && forall i :: 0 <= i < |tail| ==> |tail[i]| == |wsum|
    ensures SumFrom(wsum, [w] + tail) == SumFrom(Add(wsum, w), tail)
  {
    assert ([w] + tail)[1..] == tail;
  }

  // ---- What sums and picks are ----

  /** One texel's weight in each view. */
  function Column(views: seq<Weights>, t: nat): (r: seq<real>)
    requires forall i :: 0 <= i < |views| ==> t < |views[i]|
    ensures |r| == |views| && forall i :: 0 <= i < |r| ==> r[i] == views[i][t]
  {
    seq(|views|, i requires 0 <= i < |views| => views[i][t])
  }

  /** A sum of views holds at each texel the sum of their weights there. */
  lemma {:induction false} SumIsTexelwise(wsum: Weights, views: seq<Weights>, t: nat)
    requires t < |wsum| && forall i :: 0 <= i < |views| ==> |views[i]| == |wsum|
    ensures SumFrom(wsum, views)[t] == wsum[t] + Total(Column(views, t))
    decreases |views|
  {
    if views != [] {
      SumIsTexelwise(Add(wsum, views[0]), views[1..], t);
      TotalFirst(views[0][t], Column(views[1..], t));
      assert Column(views, t) == [views[0][t]] + Column(views[1..], t);
    }
  }

  ghost predicate Increasing(s: seq<nat>)
  {
    forall i, j :: 0 <= i < j < |s| ==> s[i] < s[j]
  }

  /** `j` retires the most over `wsum` among `live` without `taken`, the earliest of equals. */
  ghost predicate BestOver(p: Problem, wsum: Weights, live: seq<nat>, taken: seq<nat>, j: nat)
    requires p.Valid() && p.Live(wsum, live)
  {
    && j in live && j < |p.weights| && |p.weights[j]| == |wsum| && Less(Score(0, 0), p.Gain(wsum, j))
    && forall i :: 0 <= i < |live| && live[i] !in taken ==>
         live[i] < |p.weights| && |p.weights[live[i]]| == |wsum|
         && !Less(p.Gain(wsum, j), p.Gain(wsum, live[i]))
         && (p.Gain(wsum, live[i]) == p.Gain(wsum, j) ==> j <= live[i])
  }

  lemma FirstIsBest(p: Problem, wsum: Weights, live: seq<nat>)
    requires p.Valid() && p.Live(wsum, live) && Increasing(live) && Goes(p, wsum, live)
    ensures BestOver(p, wsum, live, [], live[Best(p, wsum, live)])
  {
    var (gains, k) := (Gains(p, wsum, live), Best(p, wsum, live));
    forall i | 0 <= i < |live|
      ensures live[i] < |p.weights| && |p.weights[live[i]]| == |wsum|
        && !Less(p.Gain(wsum, live[k]), p.Gain(wsum, live[i]))
        && (p.Gain(wsum, live[i]) == p.Gain(wsum, live[k]) ==> live[k] <= live[i])
    {
      assert ValidView(p.n, p.weights[live[i]]);
      assert gains[i] == p.Gain(wsum, live[i]) && gains[k] == p.Gain(wsum, live[k]);
    }
    assert ValidView(p.n, p.weights[live[k]]);
  }

  lemma BestOfMore(p: Problem, wsum: Weights, live: seq<nat>, rest: seq<nat>, first: nat, taken: seq<nat>, j: nat)
    requires p.Valid() && p.Live(wsum, live) && p.Live(wsum, rest)
    requires forall x :: x in rest ==> x in live
    requires forall x :: x in live && x != first ==> x in rest
    requires BestOver(p, wsum, rest, taken, j)
    ensures BestOver(p, wsum, live, [first] + taken, j)
  {
    forall i | 0 <= i < |live| && live[i] !in [first] + taken
      ensures live[i] < |p.weights| && |p.weights[live[i]]| == |wsum|
        && !Less(p.Gain(wsum, j), p.Gain(wsum, live[i]))
        && (p.Gain(wsum, live[i]) == p.Gain(wsum, j) ==> j <= live[i])
    {
      assert live[i] != first && live[i] !in taken;
      assert live[i] in rest;
      var m :| 0 <= m < |rest| && rest[m] == live[i];
    }
  }

  /** What the `i`-th pick is scored over, and what it has to be there. */
  ghost predicate PickRight(p: Problem, wsum: Weights, live: seq<nat>, run: Run, i: nat)
    requires p.Valid() && p.Live(wsum, live)
  {
    && i < |run.picked| == |run.meta| && (forall k :: 0 <= k < |run.picked| ==> run.picked[k] < |p.weights|)
    && ValidViews(p.n, Chosen(p.weights, run.picked[..i]))
    && var sum := SumFrom(wsum, Chosen(p.weights, run.picked[..i]));
       && ValidView(p.n, sum) && BestOver(p, sum, live, run.picked[..i], run.picked[i])
       && var (j, g) := (run.picked[i], p.Gain(sum, run.picked[i]));
          run.meta[i] == Pick(p.specs[j], g.texels, g.components)
  }

  lemma FirstPickRight(p: Problem, wsum: Weights, live: seq<nat>)
    requires p.Valid() && p.Live(wsum, live) && Increasing(live) && Goes(p, wsum, live)
    ensures PickRight(p, wsum, live, Greedy(p, wsum, live), 0)
  {
    RunSumsPicks(p, wsum, live);
    GreedyUnfolds(p, wsum, live);
    FirstIsBest(p, wsum, live);
    assert Greedy(p, wsum, live).picked[..0] == [];
  }

  lemma LaterPickRight(p: Problem, wsum: Weights, live: seq<nat>, rest: seq<nat>, first: nat, entry: Pick, later: Run, i: nat)
    requires p.Valid() && p.Live(wsum, live) && first < |p.weights| && |p.weights[first]| == |wsum|
    requires p.Live(Add(wsum, p.weights[first]), rest) && forall x :: x in rest ==> x in live
    requires forall x :: x in live && x != first ==> x in rest
    requires PickRight(p, Add(wsum, p.weights[first]), rest, later, i)
    ensures PickRight(p, wsum, live, Run([first] + later.picked, [entry] + later.meta, later.wsum), i + 1)
  {
    var taken := later.picked[..i];
    assert ([first] + later.picked)[..i+1] == [first] + taken;
    ChosenFirst(p.weights, first, taken, wsum);
    BestOfMore(p, SumFrom(wsum, Chosen(p.weights, [first] + taken)), live, rest, first, taken, later.picked[i]);
  }

  /** Every pick is the best of the candidates left, by texels retired, then components,
      then candidate order, and its entry says what it retires. */
  lemma {:induction false} PicksAreBest(p: Problem, wsum: Weights, live: seq<nat>, i: nat)
    requires p.Valid() && p.Live(wsum, live) && Increasing(live) && i < |Greedy(p, wsum, live).picked|
    ensures PickRight(p, wsum, live, Greedy(p, wsum, live), i)
    decreases i
  {
    GreedyUnfolds(p, wsum, live);
    if i == 0 {
      FirstPickRight(p, wsum, live);
    } else {
      var k := Best(p, wsum, live);
      var (first, rest) := (live[k], RemoveAt(live, k));
      var next := Add(wsum, p.weights[first]);
      RemovedIncreasing(live, k);
      PicksAreBest(p, next, rest, i-1);
      assert ValidView(p.n, p.weights[first]);
      LaterPickRight(p, wsum, live, rest, first, TakeBest(p, wsum, live, k), Greedy(p, next, rest), i-1);
    }
  }

  lemma RemovedIncreasing(live: seq<nat>, k: nat)
    requires k < |live| && Increasing(live)
    ensures Increasing(RemoveAt(live, k))
    ensures forall x :: x in live && x != live[k] ==> x in RemoveAt(live, k)
  {
    var r := RemoveAt(live, k);
    assert forall i :: 0 <= i < |r| ==> r[i] == live[if i < k then i else i+1];
    RemoveAtDistinct(live, k);
  }
}
