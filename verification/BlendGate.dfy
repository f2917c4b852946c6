/** Candidates, picks and the blend's gate (scripts/ai-pipeline/proptex/albedo.py). */
module BlendGate {
  // Candidate directions and their recovery by direction (coverage.py), and the blend with
  // its coverage gate (albedo.py). One colour channel stands for the three independent ones.

  import opened Basics
  import opened HoleGate
  import opened NextBestView

  // ---- Candidate directions ----

  function Azimuth(k: nat): real { 30.0 * k as real }

  function Elevation(k: nat): real { if k == 0 then -35.0 else if k == 1 then 15.0 else 55.0 }

  const TOP_ELEVATION := 75.0

  function At(hint: (real, real) -> string, azimuth: real, elevation: real): Spec
  {
    Spec(hint(azimuth, elevation), azimuth, elevation)
  }

  /** The declared grid, elevation by elevation, and the near-top view. */
  function GridSpecs(hint: (real, real) -> string): (r: seq<Spec>)
    ensures |r| == 37
  {
    seq(36, (i: nat) => At(hint, Azimuth(i % 12), Elevation(i / 12))) + [At(hint, 0.0, TOP_ELEVATION)]
  }

  /** `farFromAll` says a direction keeps MV_EXTRA_MIN_SEP_DEG from every view. */
  function ExtraCandidates(hint: (real, real) -> string, farFromAll: Spec -> bool): seq<Spec>
  {
    Filter(farFromAll, GridSpecs(hint))
  }

  predicate SameDirection(a: Spec, b: Spec)
  {
    a.azimuth == b.azimuth && a.elevation == b.elevation
  }

  ghost predicate DistinctDirections(specs: seq<Spec>)
  {
    forall i, j :: 0 <= i < j < |specs| ==> !SameDirection(specs[i], specs[j])
  }

  lemma GridDistinct(hint: (real, real) -> string)
    ensures DistinctDirections(GridSpecs(hint))
  {
  }

  lemma {:induction false} FilterDistinct(keep: Spec -> bool, specs: seq<Spec>)
    requires DistinctDirections(specs)
    ensures DistinctDirections(Filter(keep, specs))
    ensures forall s :: s in Filter(keep, specs) <==> s in specs && keep(s)
  {
    if specs != [] {
      var (init, last) := (specs[..|specs|-1], specs[|specs|-1]);
      FilterDistinct(keep, init);
      assert specs == init + [last];
      var kept := Filter(keep, init);
      forall i | 0 <= i < |kept|
        ensures !SameDirection(kept[i], last)
      {
        assert kept[i] in init;
        var j :| 0 <= j < |init| && init[j] == kept[i];
        assert !SameDirection(specs[j], specs[|init|]);
      }
    }
  }

  /** The grid: elevation by elevation, azimuths thirty degrees apart; then the near-top view. */
  lemma GridIs(hint: (real, real) -> string, elevation: nat, azimuth: nat)
    requires elevation < 3 && azimuth < 12
    ensures GridSpecs(hint)[12 * elevation + azimuth].azimuth == 30.0 * azimuth as real
    ensures GridSpecs(hint)[12 * elevation + azimuth].elevation == [-35.0, 15.0, 55.0][elevation]
    ensures GridSpecs(hint)[36].azimuth == 0.0 && GridSpecs(hint)[36].elevation == 75.0
  {
    var i := 12 * elevation + azimuth;
    assert i % 12 == azimuth && i / 12 == elevation;
  }

  /** The candidates are those of the grid kept, in grid order. */
  lemma CandidatesInOrder(hint: (real, real) -> string, farFromAll: Spec -> bool) returns (f: seq<nat>)
    ensures Selects(farFromAll, GridSpecs(hint), f, ExtraCandidates(hint, farFromAll))
  {
    f := FilterSelects(farFromAll, GridSpecs(hint));
  }

  // ---- Recovering the picks ----

  /** The `by_dir` dictionary: a repeated direction keeps the last index. */
  function ByDirection(specs: seq<Spec>, wanted: Spec): Option<nat>
  {
    if specs == [] then None
    else if SameDirection(specs[|specs|-1], wanted) then Some(|specs|-1)
    else ByDirection(specs[..|specs|-1], wanted)
  }

  /** `None` is the KeyError of a direction no candidate has. */
  function PickIndices(specs: seq<Spec>, meta: seq<Pick>): Option<seq<nat>>
  {
    if meta == [] then Some([])
    else
      match (ByDirection(specs, meta[0].spec), PickIndices(specs, meta[1..]))
      case (Some(j), Some(rest)) => Some([j] + rest)
      case _ => None
  }

  lemma {:induction false} ByDirectionFinds(specs: seq<Spec>, j: nat)
    requires DistinctDirections(specs) && j < |specs|
    ensures ByDirection(specs, specs[j]) == Some(j)
  {
    if j < |specs| - 1 {
      ByDirectionFinds(specs[..|specs|-1], j);
    }
  }

  lemma {:induction false} PickIndicesRecovers(specs: seq<Spec>, meta: seq<Pick>, picked: seq<nat>)
    requires DistinctDirections(specs) && |meta| == |picked|
    requires forall i :: 0 <= i < |meta| ==> picked[i] < |specs| && meta[i].spec == specs[picked[i]]
    ensures PickIndices(specs, meta) == Some(picked)
  {
    if meta != [] {
      ByDirectionFinds(specs, picked[0]);
      PickIndicesRecovers(specs, meta[1..], picked[1..]);
      assert [picked[0]] + picked[1..] == picked;
    }
  }

  // ---- The blend ----

  datatype Blend = CoverageFailure(over: seq<HoleComponent>) | Painted(colour: seq<real>)

  function Accumulate(accum: seq<real>, weights: seq<Weights>, samples: seq<seq<real>>): (r: seq<real>)
    requires |weights| == |samples|
    requires forall i :: 0 <= i < |weights| ==> |weights[i]| == |samples[i]| == |accum|
    ensures |r| == |accum|
    decreases |weights|
  {
    if weights == [] then accum
    else Accumulate(Add(accum, Times(samples[0], weights[0])), weights[1..], samples[1..])
  }

  function Times(a: seq<real>, b: seq<real>): (r: seq<real>)
    requires |a| == |b|
    ensures |r| == |a| && forall t :: 0 <= t < |r| ==> r[t] == a[t] * b[t]
  {
    seq(|a|, t requires 0 <= t < |a| => a[t] * b[t])
  }

  function SumOver(s: set<nat>, v: seq<real>, n: nat): real
    requires n <= |v|
  {
    if n == 0 then 0.0 else SumOver(s, v, n-1) + if n-1 in s then v[n-1] else 0.0
  }

  function Blended(accum: seq<real>, wsum: Weights, covered: set<nat>): (r: seq<real>)
    requires |accum| == |wsum| && forall t :: t in covered ==> t < |wsum| && wsum[t] > 0.0
    ensures |r| == |accum|
  {
    seq(|accum|, t requires 0 <= t < |accum| => if t in covered then accum[t] / wsum[t] else 0.0)
  }

  /** The mean blended colour, or mid grey when nothing is covered. */
  function Fill(blended: seq<real>, covered: set<nat>): real
  {
    if covered == {} then 0.5 else SumOver(covered, blended, |blended|) / |covered| as real
  }

  method SumViews(n: nat, weights: seq<Weights>, samples: seq<seq<real>>)
    returns (accum: seq<real>, wsum: Weights)
    requires |weights| == |samples| && ValidViews(n, weights)
    requires forall i :: 0 <= i < |samples| ==> |samples[i]| == n
    ensures accum == Accumulate(Zeros(n), weights, samples)
    ensures wsum == SumFrom(Zeros(n), weights)
  {
    accum, wsum := Zeros(n), Zeros(n);
    for i := 0 to |weights|
      invariant |accum| == |wsum| == n
      invariant SumFrom(wsum, weights[i..]) == SumFrom(Zeros(n), weights)
      invariant Accumulate(accum, weights[i..], samples[i..]) == Accumulate(Zeros(n), weights, samples)
    {
      assert weights[i..][1..] == weights[i+1..] && samples[i..][1..] == samples[i+1..];
      accum := Add(accum, Times(samples[i], weights[i]));
      wsum := Add(wsum, weights[i]);
    }
  }

  /** The gate: something is covered, something is not, and a reachable hole is too deep. */
  predicate Fails(size: nat, covered: set<nat>, island: set<nat>, reachable: set<nat>)
  {
    covered != {} && island - covered != {} && Offending(size, covered, island * reachable).components > 0
  }

  /** `inpaint` is the Telea fill of the holes, computed by OpenCV. */
  method BlendViews(size: nat, weights: seq<Weights>, samples: seq<seq<real>>,
                    island: set<nat>, reachable: set<nat>, inpaint: seq<real>)
    returns (r: Blend)
    requires |weights| == |samples| && ValidViews(size * size, weights)
    requires |inpaint| == size * size && forall i :: 0 <= i < |samples| ==> |samples[i]| == size * size
    ensures var covered := CoveredMask(SumFrom(Zeros(size * size), weights), island);
      r.CoverageFailure? == Fails(size, covered, island, reachable)
    ensures r.CoverageFailure? ==>
      r.over == Over(size, HoleComponentDepths(size, CoveredMask(SumFrom(Zeros(size * size), weights), island), island * reachable))
    ensures r.Painted? ==>
      PaintedAs(r.colour, Accumulate(Zeros(size * size), weights, samples),
                SumFrom(Zeros(size * size), weights), island, inpaint)
  {
    var accum, wsum := SumViews(size * size, weights, samples);
    r := Paint(size, accum, wsum, island, reachable, inpaint);
  }

  ghost predicate PaintedAs(colour: seq<real>, accum: seq<real>, wsum: Weights, island: set<nat>, inpaint: seq<real>)
    requires |accum| == |wsum| == |inpaint|
  {
    var covered := CoveredMask(wsum, island);
    |colour| == |wsum| && forall t :: 0 <= t < |colour| ==>
      colour[t] == if t in covered then accum[t] / wsum[t]
                   else if t in island && covered != {} then inpaint[t]
                   else Fill(Blended(accum, wsum, covered), covered)
  }

  method Paint(size: nat, accum: seq<real>, wsum: Weights, island: set<nat>, reachable: set<nat>, inpaint: seq<real>)
    returns (r: Blend)
    requires |accum| == |wsum| == |inpaint| == size * size
    ensures r.CoverageFailure? == Fails(size, CoveredMask(wsum, island), island, reachable)
    ensures r.CoverageFailure? ==>
      r.over == Over(size, HoleComponentDepths(size, CoveredMask(wsum, island), island * reachable))
    ensures r.Painted? ==> PaintedAs(r.colour, accum, wsum, island, inpaint)
  {
    var n := size * size;
    var covered := CoveredMask(wsum, island);
    var blended := Blended(accum, wsum, covered);
    var fill := Fill(blended, covered);
    var holes := island - covered;
    if holes != {} && covered != {} {
      var over := Over(size, HoleComponentDepths(size, covered, island * reachable));
      if over != [] {
        return CoverageFailure(over);
      }
      assert forall t: nat :: t in holes <==> t in island && t !in covered;
      r := Painted(seq(n, t requires 0 <= t < n =>
        if t in covered then blended[t] else if t in holes then inpaint[t] else fill));
    } else {
      assert covered != {} ==> forall t: nat :: t in island ==> t in covered || t in holes;
      r := Painted(seq(n, t requires 0 <= t < n => if t in covered then blended[t] else fill));
    }
  }

  function Product(a: real, b: real): real { a * b }

  /** One texel's sample times weight in each view. */
  function Products(weights: seq<Weights>, samples: seq<seq<real>>, t: nat): (r: seq<real>)
    requires |weights| == |samples| && forall i :: 0 <= i < |weights| ==> t < |weights[i]| && t < |samples[i]|
    ensures |r| == |weights| && forall i :: 0 <= i < |r| ==> r[i] == Product(samples[i][t], weights[i][t])
  {
    seq(|weights|, i requires 0 <= i < |weights| => Product(samples[i][t], weights[i][t]))
  }

  /** The accumulator holds at each texel the sum over the views of sample times weight. */
  lemma {:induction false} AccumulateIsTexelwise(accum: seq<real>, weights: seq<Weights>, samples: seq<seq<real>>, t: nat)
    requires |weights| == |samples| && t < |accum|
    requires forall i :: 0 <= i < |weights| ==> |weights[i]| == |samples[i]| == |accum|
    ensures Accumulate(accum, weights, samples)[t] == accum[t] + Total(Products(weights, samples, t))
    decreases |weights|
  {
    if weights != [] {
      AccumulateIsTexelwise(Add(accum, Times(samples[0], weights[0])), weights[1..], samples[1..], t);
      TotalFirst(Product(samples[0][t], weights[0][t]), Products(weights[1..], samples[1..], t));
      assert Products(weights, samples, t)
        == [Product(samples[0][t], weights[0][t])] + Products(weights[1..], samples[1..], t);
    }
  }

  /** The mean's numerator adds up exactly the covered texels: none give 0, one more gives
      its value more. */
  lemma {:induction false} SumOverIs(s: set<nat>, v: seq<real>, n: nat, t: nat)
    requires n <= |v| && t < n && t !in s
    ensures SumOver({}, v, n) == 0.0 && SumOver(s + {t}, v, n) == SumOver(s, v, n) + v[t]
  {
    if t < n-1 {
      SumOverIs(s, v, n-1, t);
    } else {
      SumOverSame(s, s + {t}, v, n-1);
      SumOverNone(v, n-1);
    }
  }

  lemma {:induction false} SumOverSame(s: set<nat>, s': set<nat>, v: seq<real>, n: nat)
    requires n <= |v| && forall t: nat :: t < n ==> (t in s <==> t in s')
    ensures SumOver(s, v, n) == SumOver(s', v, n)
  {
    if n > 0 {
      SumOverSame(s, s', v, n-1);
    }
  }

  lemma {:induction false} SumOverNone(v: seq<real>, n: nat)
    requires n <= |v|
    ensures SumOver({}, v, n) == 0.0
  {
    if n > 0 {
      SumOverNone(v, n-1);
    }
  }

  /** What is neither covered nor a hole gets the mean blended colour, mid grey if nothing
      is covered. */
  lemma FillIs(blended: seq<real>, covered: set<nat>)
    ensures covered == {} ==> Fill(blended, covered) == 0.5
    ensures covered != {} ==> Fill(blended, covered) * |covered| as real == SumOver(covered, blended, |blended|)
  {
  }

  ghost predicate Between(a: real, w: real, lo: real, hi: real)
  {
    lo * w <= a <= hi * w
  }

  lemma StepBetween(a: real, w: real, s: real, x: real, lo: real, hi: real)
    requires Between(a, w, lo, hi) && lo <= s <= hi && x >= 0.0
    ensures Between(a + s * x, w + x, lo, hi)
  {
    assert (s - lo) * x >= 0.0 && (hi - s) * x >= 0.0;
  }

  lemma {:induction false} AccumBetween(accum: seq<real>, wsum: Weights, weights: seq<Weights>,
                                        samples: seq<seq<real>>, t: nat, lo: real, hi: real)
    requires |weights| == |samples| && t < |wsum| && |accum| == |wsum|
    requires ValidView(|wsum|, wsum) && ValidViews(|wsum|, weights)
    requires forall i :: 0 <= i < |samples| ==> |samples[i]| == |wsum| && lo <= samples[i][t] <= hi
    requires Between(accum[t], wsum[t], lo, hi)
    ensures Between(Accumulate(accum, weights, samples)[t], SumFrom(wsum, weights)[t], lo, hi)
    decreases |weights|
  {
    if weights != [] {
      var (w, s) := (weights[0], samples[0]);
      StepBetween(accum[t], wsum[t], s[t], w[t], lo, hi);
      AccumBetween(Add(accum, Times(s, w)), Add(wsum, w), weights[1..], samples[1..], t, lo, hi);
    }
  }

  /** A blended colour is a weighted mean: it never leaves the range its views'
      samples span at that texel. */
  lemma BlendIsMean(n: nat, weights: seq<Weights>, samples: seq<seq<real>>, island: set<nat>, t: nat, lo: real, hi: real)
    requires |weights| == |samples| && ValidViews(n, weights)
    requires forall i :: 0 <= i < |samples| ==> |samples[i]| == n
    requires t in CoveredMask(SumFrom(Zeros(n), weights), island)
    requires forall i :: 0 <= i < |samples| ==> lo <= samples[i][t] <= hi
    ensures lo <= Accumulate(Zeros(n), weights, samples)[t] / SumFrom(Zeros(n), weights)[t] <= hi
  {
    AccumBetween(Zeros(n), Zeros(n), weights, samples, t, lo, hi);
    Quotient(Accumulate(Zeros(n), weights, samples)[t], SumFrom(Zeros(n), weights)[t], lo, hi);
  }

  lemma Quotient(a: real, w: real, lo: real, hi: real)
    requires w > 0.0 && Between(a, w, lo, hi)
    ensures lo <= a / w <= hi
  {
    var q := a / w;
    assert (q - lo) * w == a - lo * w && (hi - q) * w == hi * w - a;
  }

  // ---- The gate and the loop agree ----

  lemma {:induction false} SumAppend(wsum: Weights, a: seq<Weights>, b: seq<Weights>)
    requires forall i :: 0 <= i < |a| ==> |a[i]| == |wsum|
    requires forall i :: 0 <= i < |b| ==> |b[i]| == |wsum|
    ensures forall i :: 0 <= i < |a + b| ==> |(a + b)[i]| == |wsum|
    ensures SumFrom(wsum, a + b) == SumFrom(SumFrom(wsum, a), b)
    decreases |a|
  {
    if a == [] {
      assert a + b == b;
    } else {
      assert (a + b)[0] == a[0] && (a + b)[1..] == a[1..] + b;
      SumAppend(Add(wsum, a[0]), a[1..], b);
    }
  }

  ghost predicate Stage(size: nat, island: set<nat>, specs: seq<Spec>, base: seq<Weights>, weights: seq<Weights>)
  {
    && InAtlas(size, island)
    && |specs| == |weights| && DistinctDirections(specs)
    && ValidViews(size * size, base) && ValidViews(size * size, weights)
  }

  ghost function StageProblem(size: nat, island: set<nat>, specs: seq<Spec>, base: seq<Weights>, weights: seq<Weights>): Problem
    requires Stage(size, island, specs, base, weights)
  {
    GateProblem(size, island, Reachable(island, SumFrom(Zeros(size * size), base), weights), specs, weights)
  }

  /** The greedy run of the `nbv` stage over a base set and its candidates. */
  ghost function NbvRun(size: nat, island: set<nat>, specs: seq<Spec>, base: seq<Weights>, weights: seq<Weights>): Run
    requires Stage(size, island, specs, base, weights)
  {
    var start := SumFrom(Zeros(size * size), base);
    SumValid(size * size, Zeros(size * size), base);
    Greedy(GateProblem(size, island, Reachable(island, start, weights), specs, weights), start, Indices(|weights|))
  }

  /** Looking the picks up by direction recovers the greedy picks, in order. */
  lemma PicksRecovered(size: nat, island: set<nat>, specs: seq<Spec>, base: seq<Weights>, weights: seq<Weights>)
    requires Stage(size, island, specs, base, weights)
    ensures var run := NbvRun(size, island, specs, base, weights);
      PickIndices(specs, run.meta) == Some(run.picked) && Distinct(run.picked)
  {
    var start := SumFrom(Zeros(size * size), base);
    SumValid(size * size, Zeros(size * size), base);
    var p := GateProblem(size, island, Reachable(island, start, weights), specs, weights);
    RunSumsPicks(p, start, Indices(|weights|));
    PicksDistinct(p, start, Indices(|weights|));
    var run := NbvRun(size, island, specs, base, weights);
    PickIndicesRecovers(specs, run.meta, run.picked);
  }

  /** The blend's weight sum over the base views and then the picks is the very sum
      the loop ended with. */
  lemma BlendSumIsLoopSum(size: nat, island: set<nat>, specs: seq<Spec>, base: seq<Weights>, weights: seq<Weights>)
    requires Stage(size, island, specs, base, weights)
    ensures var run := NbvRun(size, island, specs, base, weights);
      && (forall i :: 0 <= i < |run.picked| ==> run.picked[i] < |weights|)
      && ValidViews(size * size, base + Chosen(weights, run.picked))
      && SumFrom(Zeros(size * size), base + Chosen(weights, run.picked)) == run.wsum
  {
    var start := SumFrom(Zeros(size * size), base);
    SumValid(size * size, Zeros(size * size), base);
    var p := GateProblem(size, island, Reachable(island, start, weights), specs, weights);
    RunSumsPicks(p, start, Indices(|weights|));
    SumAppend(Zeros(size * size), base, Chosen(weights, NbvRun(size, island, specs, base, weights).picked));
  }

  lemma {:induction false} SumCovers(wsum: Weights, views: seq<Weights>, t: nat)
    requires t < |wsum| && ValidView(|wsum|, wsum) && ValidViews(|wsum|, views)
    ensures SumFrom(wsum, views)[t] >= wsum[t]
    ensures forall i :: 0 <= i < |views| ==> SumFrom(wsum, views)[t] >= views[i][t]
    decreases |views|
  {
    if views != [] {
      var next := Add(wsum, views[0]);
      SumCovers(next, views[1..], t);
      forall i | 0 <= i < |views|
        ensures SumFrom(wsum, views)[t] >= views[i][t]
      {
        if i > 0 { assert views[1..][i-1] == views[i]; }
      }
    }
  }

  ghost predicate SeenByOne(island: set<nat>, weights: seq<Weights>, t: nat)
  {
    exists j :: 0 <= j < |weights| && t in CoveredMask(weights[j], island)
  }

  lemma {:induction false} ReachedBySome(island: set<nat>, start: Weights, weights: seq<Weights>, t: nat)
    requires t in Reachable(island, start, weights)
    ensures t in CoveredMask(start, island) || SeenByOne(island, weights, t)
  {
    if weights != [] {
      var init := weights[..|weights|-1];
      if t in Reachable(island, start, init) {
        ReachedBySome(island, start, init, t);
        if j :| 0 <= j < |init| && t in CoveredMask(init[j], island) {
          assert t in CoveredMask(weights[j], island);
        }
      } else {
        assert t in CoveredMask(weights[|weights|-1], island);
      }
    }
  }

  /** Covering an offending texel retires texels. */
  lemma CoveringRetires(size: nat, covered: set<nat>, more: set<nat>, region: set<nat>, t: nat)
    requires InAtlas(size, region) && covered <= more
    requires t in OffendingTexels(size, covered, region) && t in more
    ensures Offending(size, more, region).texels < Offending(size, covered, region).texels
  {
    var (x, y) := (OffendingTexels(size, covered, region), OffendingTexels(size, more, region));
    ScoreCountsOffenders(size, covered, region);
    ScoreCountsOffenders(size, more, region);
    OffendersShrink(size, covered, more, region);
    Subset(y, x);
    assert t !in y;
  }

  lemma RunCovers(size: nat, island: set<nat>, specs: seq<Spec>, base: seq<Weights>, weights: seq<Weights>, t: nat)
    requires Stage(size, island, specs, base, weights) && t < size * size
    ensures var run := NbvRun(size, island, specs, base, weights);
      && |run.wsum| == size * size
      && run.wsum[t] >= SumFrom(Zeros(size * size), base)[t]
      && forall j :: j in run.picked ==> j < |weights| && run.wsum[t] >= weights[j][t]
  {
    var run := NbvRun(size, island, specs, base, weights);
    var start := SumFrom(Zeros(size * size), base);
    SumValid(size * size, Zeros(size * size), base);
    var p := GateProblem(size, island, Reachable(island, start, weights), specs, weights);
    RunSumsPicks(p, start, Indices(|weights|));
    var chosen := Chosen(weights, run.picked);
    SumCovers(start, chosen, t);
    forall j | j in run.picked
      ensures j < |weights| && run.wsum[t] >= weights[j][t]
    {
      var i :| 0 <= i < |run.picked| && run.picked[i] == j;
      assert chosen[i] == weights[j];
    }
  }

  /** A reachable texel the run left uncovered is one some unpicked candidate covers. */
  lemma UncoveredIsUnpicked(size: nat, island: set<nat>, specs: seq<Spec>,
                            base: seq<Weights>, weights: seq<Weights>, t: nat) returns (j: nat)
    requires Stage(size, island, specs, base, weights)
    requires t in island * Reachable(island, SumFrom(Zeros(size * size), base), weights)
    requires t !in CoveredMask(NbvRun(size, island, specs, base, weights).wsum, island)
    ensures j < |weights| && j !in NbvRun(size, island, specs, base, weights).picked
    ensures t in CoveredMask(weights[j], island)
  {
    RunCovers(size, island, specs, base, weights, t);
    ReachedBySome(island, SumFrom(Zeros(size * size), base), weights, t);
    j :| 0 <= j < |weights| && t in CoveredMask(weights[j], island);
  }

  lemma CandidateRetires(size: nat, island: set<nat>, reachable: set<nat>, p: Problem, wsum: Weights, j: nat, t: nat)
    requires InAtlas(size, island) && ValidView(size * size, wsum) && j < |p.weights| && ValidView(size * size, p.weights[j])
    requires p.score == GateScore(size, island, reachable)
    requires t in OffendingTexels(size, CoveredMask(wsum, island), island * reachable)
    requires t in CoveredMask(p.weights[j], island)
    ensures !Neutral(p, wsum, j)
  {
    var more := CoveredMask(Add(wsum, p.weights[j]), island);
    CoveringRetires(size, CoveredMask(wsum, island), more, island * reachable, t);
  }

  lemma StopsForAll(p: Problem, wsum: Weights)
    requires p.Valid() && Monotone(p) && p.Live(wsum, Indices(|p.weights|))
    ensures var run := Greedy(p, wsum, Indices(|p.weights|));
      && ValidView(p.n, run.wsum)
      && (p.score(run.wsum) == Score(0, 0) || forall j: nat :: j < |p.weights| && j !in run.picked ==> Neutral(p, run.wsum, j))
  {
    var all := Indices(|p.weights|);
    var run := Greedy(p, wsum, all);
    StopsAtAFixpoint(p, wsum, all);
    if p.score(run.wsum) != Score(0, 0) {
      forall j: nat | j < |p.weights| && j !in run.picked ensures Neutral(p, run.wsum, j)
      {
        assert all[j] == j;
        assert ValidView(p.n, p.weights[j]);
      }
    }
  }

  /** Adding candidate `j` leaves the statistic as it is. */
  ghost predicate Neutral(p: Problem, wsum: Weights, j: nat)
  {
    j < |p.weights| && |wsum| == |p.weights[j]| && p.score(Add(wsum, p.weights[j])) == p.score(wsum)
  }

  lemma RunIsFixpoint(size: nat, island: set<nat>, specs: seq<Spec>, base: seq<Weights>, weights: seq<Weights>)
    requires Stage(size, island, specs, base, weights)
    ensures var run := NbvRun(size, island, specs, base, weights);
      var p := StageProblem(size, island, specs, base, weights);
      && ValidView(size * size, run.wsum)
      && (p.score(run.wsum) == Score(0, 0) || forall j: nat :: j < |weights| && j !in run.picked ==> Neutral(p, run.wsum, j))
  {
    var start := SumFrom(Zeros(size * size), base);
    SumValid(size * size, Zeros(size * size), base);
    GateMonotone(size, island, Reachable(island, start, weights), specs, weights);
    StopsForAll(StageProblem(size, island, specs, base, weights), start);
  }

  /** The loop always ends with no offender: whichever candidate makes an offending texel
      reachable would retire it, so it would have been picked. */
  lemma RunEndsClean(size: nat, island: set<nat>, specs: seq<Spec>, base: seq<Weights>, weights: seq<Weights>)
    requires Stage(size, island, specs, base, weights)
    ensures var run := NbvRun(size, island, specs, base, weights);
      GateScore(size, island, Reachable(island, SumFrom(Zeros(size * size), base), weights))(run.wsum) == Score(0, 0)
  {
    var reachable := Reachable(island, SumFrom(Zeros(size * size), base), weights);
    var run := NbvRun(size, island, specs, base, weights);
    var (covered, region) := (CoveredMask(run.wsum, island), island * reachable);
    RunIsFixpoint(size, island, specs, base, weights);
    ScoreCountsOffenders(size, covered, region);
    ScoreZero(size, covered, region);
    if t :| t in OffendingTexels(size, covered, region) {
      var j := UncoveredIsUnpicked(size, island, specs, base, weights, t);
      CandidateRetires(size, island, reachable, StageProblem(size, island, specs, base, weights), run.wsum, j, t);
    }
  }

  /** End to end: the blend over the base views and the picks looked up by direction
      fails exactly when the loop ended with an offending component, and neither ever
      happens. */
  lemma GateFailsIffLoopEndsOffending(size: nat, island: set<nat>, specs: seq<Spec>,
                                      base: seq<Weights>, weights: seq<Weights>)
    requires Stage(size, island, specs, base, weights)
    ensures var run := NbvRun(size, island, specs, base, weights);
      var reachable := Reachable(island, SumFrom(Zeros(size * size), base), weights);
      PickIndices(specs, run.meta) == Some(run.picked)
      && (forall i :: 0 <= i < |run.picked| ==> run.picked[i] < |weights|)
      && ValidViews(size * size, base + Chosen(weights, run.picked))
      && var covered := CoveredMask(SumFrom(Zeros(size * size), base + Chosen(weights, run.picked)), island);
         Fails(size, covered, island, reachable) == (GateScore(size, island, reachable)(run.wsum).components > 0)
         && !Fails(size, covered, island, reachable)
  {
    PicksRecovered(size, island, specs, base, weights);
    BlendSumIsLoopSum(size, island, specs, base, weights);
    RunEndsClean(size, island, specs, base, weights);
  }

  // ---- The declared candidates ----

  /** No two candidates share a direction, whatever the base views rule out. */
  lemma CandidatesDistinct(hint: (real, real) -> string, farFromAll: Spec -> bool)
    ensures DistinctDirections(ExtraCandidates(hint, farFromAll))
  {
    GridDistinct(hint);
    FilterDistinct(farFromAll, GridSpecs(hint));
  }

  /** Over the declared candidates and any non-negative weights, the picks are found again
      by direction and the blend does not fail. */
  lemma DeclaredCandidatesPass(size: nat, island: set<nat>, hint: (real, real) -> string, farFromAll: Spec -> bool,
                               base: seq<Weights>, weights: seq<Weights>)
    requires InAtlas(size, island) && |weights| == |ExtraCandidates(hint, farFromAll)|
    requires ValidViews(size * size, base) && ValidViews(size * size, weights)
    ensures var specs := ExtraCandidates(hint, farFromAll);
      && Stage(size, island, specs, base, weights)
      && var run := NbvRun(size, island, specs, base, weights);
         && PickIndices(specs, run.meta) == Some(run.picked)
         && !Fails(size, CoveredMask(run.wsum, island), island, Reachable(island, SumFrom(Zeros(size * size), base), weights))
  {
    CandidatesDistinct(hint, farFromAll);
    GateFailsIffLoopEndsOffending(size, island, ExtraCandidates(hint, farFromAll), base, weights);
    BlendSumIsLoopSum(size, island, ExtraCandidates(hint, farFromAll), base, weights);
  }

  /** The gate fails exactly when something is covered and a reachable texel offends. */
  lemma FailsIff(size: nat, covered: set<nat>, island: set<nat>, reachable: set<nat>)
    requires InAtlas(size, island)
    ensures Fails(size, covered, island, reachable) <==>
      covered != {} && OffendingTexels(size, covered, island * reachable) != {}
  {
    var offending := OffendingTexels(size, covered, island * reachable);
    ScoreZero(size, covered, island * reachable);
    ScoreCountsOffenders(size, covered, island * reachable);
    if offending != {} {
      var t :| t in offending;
      assert t in island - covered;
    }
  }

  /** A component can fail the gate only through texels some view reaches. */
  lemma FailuresAreReachable(size: nat, covered: set<nat>, island: set<nat>, reachable: set<nat>)
    requires InAtlas(size, island)
    ensures OffendingTexels(size, covered, island * reachable) <= reachable - covered
    ensures reachable !! island - covered ==> Offending(size, covered, island * reachable) == Score(0, 0)
  {
    ScoreZero(size, covered, island * reachable);
    ScoreCountsOffenders(size, covered, island * reachable);
    if reachable !! island - covered {
      assert OffendingTexels(size, covered, island * reachable) == {};
    }
  }
}
