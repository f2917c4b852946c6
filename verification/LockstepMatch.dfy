/** Lockstep matching of two skeletons (scripts/ai-pipeline/char_rig.py). */
module LockstepMatch {
  // `match_joints` maps a re-emitted skeleton to the canonical one. Distances are whatever
  // the two armatures give: head to head for the assignment, head to segment for the gate.

  import opened Basics

  datatype Bone = Bone(name: string, deform: bool, children: seq<Bone>)

  datatype Metric = Metric(headDist: (Bone, Bone) -> real, segmentDist: (Bone, Bone) -> real)

  /** MATCH_EPSILON, in metres. */
  const EPSILON := 0.10

  function Size(bs: seq<Bone>): nat
    decreases bs
  {
    if bs == [] then 0 else 1 + Size(bs[0].children) + Size(bs[1..])
  }

  lemma {:induction false} ChildrenSmaller(bs: seq<Bone>, i: nat)
    requires i < |bs|
    ensures Size(bs[i].children) < Size(bs)
  {
    if i > 0 {
      ChildrenSmaller(bs[1..], i-1);
    }
  }

  function Deform(bs: seq<Bone>): (r: seq<Bone>)
    ensures Size(r) <= Size(bs)
  {
    if bs == [] then []
    else if bs[0].deform then
      var rest := Deform(bs[1..]);
      assert ([bs[0]] + rest)[1..] == rest;
      [bs[0]] + rest
    else Deform(bs[1..])
  }

  /** Names of a forest in visiting order, following every child link. */
  function AllNames(bs: seq<Bone>): seq<string>
    decreases bs
  {
    if bs == [] then [] else [bs[0].name] + AllNames(bs[0].children) + AllNames(bs[1..])
  }

  /** The same, following deform links only below the given roots. */
  function DeformNames(bs: seq<Bone>): seq<string>
    decreases Size(bs)
  {
    if bs == [] then []
    else [bs[0].name] + DeformNames(Deform(bs[0].children)) + DeformNames(bs[1..])
  }

  // ---- Assignments ----

  /** `permutations(pool, k)`: every way to draw `k` in turn, in lexicographic order;
      the draws starting with pool[i], for i from `from`. */
  function Arrangements(pool: seq<nat>, k: nat, from: nat): seq<seq<nat>>
    requires from <= |pool|
    decreases k, |pool| - from
  {
    if k == 0 then [[]]
    else if from == |pool| then []
    else Prefixed(pool[from], Arrangements(RemoveAt(pool, from), k-1, 0)) + Arrangements(pool, k, from+1)
  }

  function Prefixed(x: nat, rest: seq<seq<nat>>): (r: seq<seq<nat>>)
    ensures |r| == |rest| && forall i :: 0 <= i < |r| ==> r[i] == [x] + rest[i]
  {
    seq(|rest|, i requires 0 <= i < |rest| => [x] + rest[i])
  }

  function Upto(n: nat): (r: seq<nat>)
    ensures |r| == n && forall i :: 0 <= i < n ==> r[i] == i
  {
    seq(n, i => i)
  }

  predicate Injection(f: seq<nat>, k: nat, n: nat)
  {
    && |f| == k
    && (forall i :: 0 <= i < k ==> f[i] < n)
    && (forall i, j :: 0 <= i < j < k ==> f[i] != f[j])
  }

  function Cost(m: Metric, src: seq<Bone>, canon: seq<Bone>, f: seq<nat>): real
    requires |f| == |src| && forall i :: 0 <= i < |f| ==> f[i] < |canon|
  {
    if src == [] then 0.0
    else m.headDist(src[0], canon[f[0]]) + Cost(m, src[1..], canon, f[1..])
  }

  predicate Drawn(f: seq<nat>, pool: seq<nat>, k: nat)
  {
    && |f| == k
    && (forall i :: 0 <= i < k ==> f[i] in pool)
    && (forall i, j :: 0 <= i < j < k ==> f[i] != f[j])
  }

  lemma RemoveAtKeeps(pool: seq<nat>, k: nat)
    requires k < |pool| && Distinct(pool)
    ensures Distinct(RemoveAt(pool, k))
    ensures forall x :: x in RemoveAt(pool, k) <==> x in pool && x != pool[k]
  {
    var r := RemoveAt(pool, k);
    forall x | x in pool && x != pool[k]
      ensures x in r
    {
      var i :| 0 <= i < |pool| && pool[i] == x;
      assert r[if i < k then i else i-1] == x;
    }
  }

  lemma ArrangementsStep(pool: seq<nat>, k: nat, from: nat)
    requires from < |pool| && k > 0
    ensures Arrangements(pool, k, from)
         == Prefixed(pool[from], Arrangements(RemoveAt(pool, from), k-1, 0)) + Arrangements(pool, k, from+1)
  {
  }

  lemma PrefixDrawn(pool: seq<nat>, k: nat, from: nat, g: seq<nat>)
    requires from < |pool| && k > 0 && Distinct(pool) && Drawn(g, RemoveAt(pool, from), k-1)
    ensures Drawn([pool[from]] + g, pool, k)
  {
    var f := [pool[from]] + g;
    RemoveAtKeeps(pool, from);
    assert forall j :: 0 < j < k ==> f[j] == g[j-1] && g[j-1] in RemoveAt(pool, from);
  }

  /** Only injective draws are listed. */
  lemma {:induction false} ArrangementsAreDrawn(pool: seq<nat>, k: nat, from: nat)
    requires from <= |pool| && Distinct(pool)
    ensures forall f :: f in Arrangements(pool, k, from) ==> Drawn(f, pool, k)
    decreases k, |pool| - from
  {
    if k > 0 && from < |pool| {
      RemoveAtKeeps(pool, from);
      ArrangementsAreDrawn(RemoveAt(pool, from), k-1, 0);
      ArrangementsAreDrawn(pool, k, from+1);
      ArrangementsStep(pool, k, from);
      var tails := Arrangements(RemoveAt(pool, from), k-1, 0);
      forall f | f in Prefixed(pool[from], tails)
        ensures Drawn(f, pool, k)
      {
        var i :| 0 <= i < |tails| && Prefixed(pool[from], tails)[i] == f;
        assert tails[i] in tails;
        PrefixDrawn(pool, k, from, tails[i]);
      }
    }
  }

  lemma InPrefixed(x: nat, listed: seq<seq<nat>>, g: seq<nat>)
    requires g in listed
    ensures [x] + g in Prefixed(x, listed)
  {
    var i :| 0 <= i < |listed| && listed[i] == g;
    assert Prefixed(x, listed)[i] == [x] + g;
  }

  lemma DrawnTail(pool: seq<nat>, k: nat, from: nat, f: seq<nat>)
    requires from < |pool| && Distinct(pool) && Drawn(f, pool, k) && k > 0 && pool[from] == f[0]
    ensures Drawn(f[1..], RemoveAt(pool, from), k-1)
    ensures k > 1 ==> exists i :: 0 <= i < |RemoveAt(pool, from)| && RemoveAt(pool, from)[i] == f[1..][0]
  {
    RemoveAtKeeps(pool, from);
    if k > 1 {
      assert f[1..][0] in RemoveAt(pool, from);
    }
  }

  lemma ListedFirst(pool: seq<nat>, k: nat, from: nat, f: seq<nat>)
    requires from < |pool| && k > 0 && |f| == k && pool[from] == f[0]
    requires f[1..] in Arrangements(RemoveAt(pool, from), k-1, 0)
    ensures f in Arrangements(pool, k, from)
  {
    ArrangementsStep(pool, k, from);
    InPrefixed(pool[from], Arrangements(RemoveAt(pool, from), k-1, 0), f[1..]);
    assert f == [pool[from]] + f[1..];
  }

  lemma ListedLater(pool: seq<nat>, k: nat, from: nat, f: seq<nat>)
    requires from < |pool| && k > 0 && f in Arrangements(pool, k, from+1)
    ensures f in Arrangements(pool, k, from)
  {
    ArrangementsStep(pool, k, from);
  }

  /** Every injective draw is listed. */
  lemma {:induction false} DrawnIsListed(pool: seq<nat>, k: nat, from: nat, f: seq<nat>)
    requires from <= |pool| && Distinct(pool) && Drawn(f, pool, k)
    requires k > 0 ==> exists i :: from <= i < |pool| && pool[i] == f[0]
    ensures f in Arrangements(pool, k, from)
    decreases k, |pool| - from
  {
    if k == 0 {
      assert f == [];
    } else if pool[from] == f[0] {
      RemoveAtKeeps(pool, from);
      DrawnTail(pool, k, from, f);
      DrawnIsListed(RemoveAt(pool, from), k-1, 0, f[1..]);
      ListedFirst(pool, k, from, f);
    } else {
      DrawnIsListed(pool, k, from+1, f);
      ListedLater(pool, k, from, f);
    }
  }

  // ---- The recursion ----

  ghost predicate AllInjections(src: seq<Bone>, canon: seq<Bone>, fs: seq<seq<nat>>)
  {
    forall i :: 0 <= i < |fs| ==> Injection(fs[i], |src|, |canon|)
  }

  /** `min(..., key=cost)`: the first of least cost. */
  function Cheapest(m: Metric, src: seq<Bone>, canon: seq<Bone>, fs: seq<seq<nat>>): (f: seq<nat>)
    requires fs != [] && AllInjections(src, canon, fs)
    ensures Injection(f, |src|, |canon|)
    ensures forall i :: 0 <= i < |fs| ==> Cost(m, src, canon, f) <= Cost(m, src, canon, fs[i])
  {
    if |fs| == 1 then fs[0]
    else
      var f := Cheapest(m, src, canon, fs[..|fs|-1]);
      if Cost(m, src, canon, fs[|fs|-1]) < Cost(m, src, canon, f) then fs[|fs|-1] else f
  }

  lemma CandidatesUsable(src: seq<Bone>, canon: seq<Bone>)
    requires |src| <= |canon|
    ensures var fs := Arrangements(Upto(|canon|), |src|, 0);
      fs != [] && AllInjections(src, canon, fs)
  {
    var (pool, k) := (Upto(|canon|), |src|);
    ArrangementsAreDrawn(pool, k, 0);
    assert forall x :: x in pool ==> x < |canon|;
    var first := Upto(k);
    assert forall i :: 0 <= i < k ==> first[i] == pool[i];
    if k > 0 { assert pool[0] == first[0]; }
    DrawnIsListed(pool, k, 0, first);
    var fs := Arrangements(pool, k, 0);
    forall i | 0 <= i < |fs|
      ensures Injection(fs[i], k, |canon|)
    {
      assert fs[i] in fs && Drawn(fs[i], pool, k);
    }
  }

  function Assign(m: Metric, src: seq<Bone>, canon: seq<Bone>): (f: seq<nat>)
    requires |src| <= |canon|
    ensures Injection(f, |src|, |canon|)
  {
    CandidatesUsable(src, canon);
    Cheapest(m, src, canon, Arrangements(Upto(|canon|), |src|, 0))
  }

  ghost predicate Optimal(m: Metric, src: seq<Bone>, canon: seq<Bone>, f: seq<nat>)
  {
    && Injection(f, |src|, |canon|)
    && forall g :: Injection(g, |src|, |canon|) ==> Cost(m, src, canon, f) <= Cost(m, src, canon, g)
  }

  /** The assignment of a sibling set has the least total distance of all injections. */
  lemma AssignIsOptimal(m: Metric, src: seq<Bone>, canon: seq<Bone>)
    requires |src| <= |canon|
    ensures Optimal(m, src, canon, Assign(m, src, canon))
  {
    CandidatesUsable(src, canon);
    var (pool, k) := (Upto(|canon|), |src|);
    forall g | Injection(g, k, |canon|)
      ensures Cost(m, src, canon, Assign(m, src, canon)) <= Cost(m, src, canon, g)
    {
      assert forall i :: 0 <= i < k ==> pool[g[i]] == g[i];
      if k > 0 { assert pool[g[0]] == g[0]; }
      DrawnIsListed(pool, k, 0, g);
      var fs := Arrangements(pool, k, 0);
      var i :| 0 <= i < |fs| && fs[i] == g;
    }
  }

  // ---- What pins the assignment ----

  /** The cost is the sum of the head distances. */
  lemma {:induction false} CostIsTotal(m: Metric, src: seq<Bone>, canon: seq<Bone>, f: seq<nat>, d: seq<real>)
    requires |f| == |src| == |d| && forall i :: 0 <= i < |f| ==> f[i] < |canon|
    requires forall i :: 0 <= i < |d| ==> d[i] == m.headDist(src[i], canon[f[i]])
    ensures Cost(m, src, canon, f) == Total(d)
    decreases |src|
  {
    if src != [] {
      CostIsTotal(m, src[1..], canon, f[1..], d[1..]);
      TotalFirst(d[0], d[1..]);
      assert d == [d[0]] + d[1..];
    }
  }

  ghost predicate Before(f: seq<nat>, g: seq<nat>)
  {
    exists k :: 0 <= k < |f| && k < |g| && f[..k] == g[..k] && f[k] < g[k]
  }

  ghost predicate InOrder(fs: seq<seq<nat>>) { forall i, j :: 0 <= i < j < |fs| ==> Before(fs[i], fs[j]) }

  ghost predicate StartsIn(fs: seq<seq<nat>>, least: nat)
  {
    forall i :: 0 <= i < |fs| ==> fs[i] != [] && fs[i][0] >= least
  }

  lemma PrefixedInOrder(x: nat, tails: seq<seq<nat>>)
    requires InOrder(tails)
    ensures InOrder(Prefixed(x, tails)) && StartsIn(Prefixed(x, tails), x)
  {
    forall i, j | 0 <= i < j < |tails|
      ensures Before([x] + tails[i], [x] + tails[j])
    {
      var (f, g) := (tails[i], tails[j]);
      var k :| 0 <= k < |f| && k < |g| && f[..k] == g[..k] && f[k] < g[k];
      assert ([x] + f)[..k+1] == [x] + f[..k] && ([x] + g)[..k+1] == [x] + g[..k];
    }
  }

  lemma ConcatInOrder(a: seq<seq<nat>>, b: seq<seq<nat>>, x: nat)
    requires InOrder(a) && InOrder(b) && StartsIn(b, x + 1)
    requires forall i :: 0 <= i < |a| ==> a[i] != [] && a[i][0] == x
    ensures InOrder(a + b) && StartsIn(a + b, x)
  {
    forall i, j | 0 <= i < |a| && 0 <= j < |b|
      ensures Before(a[i], b[j])
    {
      assert a[i][..0] == b[j][..0];
    }
  }

  ghost predicate Rising(pool: seq<nat>) { forall i, j :: 0 <= i < j < |pool| ==> pool[i] < pool[j] }

  /** The draws are listed in lexicographic order. */
  lemma {:induction false} ArrangementsInOrder(pool: seq<nat>, k: nat, from: nat)
    requires from <= |pool| && Rising(pool)
    ensures InOrder(Arrangements(pool, k, from))
    ensures k > 0 && from < |pool| ==> StartsIn(Arrangements(pool, k, from), pool[from])
    ensures k > 0 && from == |pool| ==> Arrangements(pool, k, from) == []
    decreases k, |pool| - from
  {
    if k > 0 && from < |pool| {
      ArrangementsInOrder(RemoveAt(pool, from), k-1, 0);
      ArrangementsInOrder(pool, k, from+1);
      ArrangementsStep(pool, k, from);
      var tails := Arrangements(RemoveAt(pool, from), k-1, 0);
      PrefixedInOrder(pool[from], tails);
      ConcatInOrder(Prefixed(pool[from], tails), Arrangements(pool, k, from+1), pool[from]);
    }
  }

  /** The minimum is the first of least cost. */
  lemma {:induction false} CheapestIsFirst(m: Metric, src: seq<Bone>, canon: seq<Bone>, fs: seq<seq<nat>>) returns (k: nat)
    requires fs != [] && AllInjections(src, canon, fs)
    ensures k < |fs| && fs[k] == Cheapest(m, src, canon, fs)
    ensures forall i :: 0 <= i < k ==> Cost(m, src, canon, fs[k]) < Cost(m, src, canon, fs[i])
    decreases |fs|
  {
    if |fs| == 1 {
      k := 0;
    } else {
      var before := fs[..|fs|-1];
      k := CheapestIsFirst(m, src, canon, before);
      if Cost(m, src, canon, fs[|fs|-1]) < Cost(m, src, canon, fs[k]) {
        assert forall i :: 0 <= i < |before| ==> Cost(m, src, canon, fs[k]) <= Cost(m, src, canon, before[i]);
        k := |fs| - 1;
      }
    }
  }

  /** Of all injections of least cost, the lexicographically first is taken: with
      `AssignIsOptimal` this leaves no choice. */
  lemma AssignIsFirst(m: Metric, src: seq<Bone>, canon: seq<Bone>, g: seq<nat>)
    requires |src| <= |canon| && Optimal(m, src, canon, g) && g != Assign(m, src, canon)
    ensures Before(Assign(m, src, canon), g)
  {
    CandidatesUsable(src, canon);
    var (pool, n) := (Upto(|canon|), |src|);
    var fs := Arrangements(pool, n, 0);
    assert forall i :: 0 <= i < n ==> pool[g[i]] == g[i];
    if n > 0 { assert pool[g[0]] == g[0]; }
    DrawnIsListed(pool, n, 0, g);
    ArrangementsInOrder(pool, n, 0);
    var k := CheapestIsFirst(m, src, canon, fs);
    var i :| 0 <= i < |fs| && fs[i] == g;
    assert Cost(m, src, canon, g) <= Cost(m, src, canon, fs[k]);
  }

  function Deforming(): Bone -> bool { (b: Bone) => b.deform }

  lemma {:induction false} DeformFilters(bs: seq<Bone>)
    ensures Deform(bs) == Filter(Deforming(), bs)
  {
    if bs != [] {
      DeformFilters(bs[1..]);
      FilterFirst(Deforming(), bs[0], bs[1..]);
      assert bs == [bs[0]] + bs[1..];
    }
  }

  /** The candidates are the deforming bones, in order. */
  lemma DeformAre(bs: seq<Bone>) returns (f: seq<nat>)
    ensures Picks(bs, f, Deform(bs)) && forall k: nat :: k in f <==> k < |bs| && bs[k].deform
  {
    DeformFilters(bs);
    f := FilterSelects(Deforming(), bs);
  }

  lemma {:induction false} NamesConcat(a: seq<Bone>, b: seq<Bone>)
    ensures AllNames(a + b) == AllNames(a) + AllNames(b)
    ensures DeformNames(a + b) == DeformNames(a) + DeformNames(b)
    decreases |a|
  {
    if a == [] {
      assert a + b == b;
    } else {
      NamesConcat(a[1..], b);
      assert (a + b)[0] == a[0] && (a + b)[1..] == a[1..] + b;
    }
  }

  /** One bone's names: its own, then its children's; for a subtree that is dropped, those
      of its deforming children. */
  lemma NamesOfOne(b: Bone)
    ensures AllNames([b]) == [b.name] + AllNames(b.children)
    ensures DeformNames([b]) == [b.name] + DeformNames(Deform(b.children))
    ensures AllNames([]) == [] && DeformNames([]) == []
  {
    assert [b][1..] == [];
  }

  /** One matched pair, or a dropped name, in the order the recursion meets them. */
  datatype Out = Out(pairs: seq<(string, string)>, dropped: seq<string>, maxDist: real)

  function Join(a: Out, b: Out): Out
  {
    Out(a.pairs + b.pairs, a.dropped + b.dropped, Max(a.maxDist, b.maxDist))
  }

  function Max(a: real, b: real): real { if a < b then b else a }

  /** `pair_level`; `None` is a failed gate. */
  function MatchLevel(m: Metric, src: seq<Bone>, canon: seq<Bone>): Option<Out>
    decreases Size(src), |src| + 1
  {
    if |src| > |canon| then None
    else
      var f := Assign(m, src, canon);
      match MatchFrom(m, src, canon, f, 0)
      case None => None
      case Some(out) => Some(Join(out, Out([], SkippedFrom(canon, f, 0), 0.0)))
  }

  /** Its first loop, from sibling `i` on. */
  function MatchFrom(m: Metric, src: seq<Bone>, canon: seq<Bone>, f: seq<nat>, i: nat): Option<Out>
    requires Injection(f, |src|, |canon|) && i <= |src|
    decreases Size(src), |src| - i
  {
    if i == |src| then Some(Out([], [], 0.0))
    else
      var (s, c) := (src[i], canon[f[i]]);
      var dist := m.segmentDist(s, c);
      if dist > EPSILON then None
      else
        ChildrenSmaller(src, i);
        match (MatchLevel(m, s.children, Deform(c.children)), MatchFrom(m, src, canon, f, i+1))
        case (Some(below), Some(rest)) => Some(Join(Join(Out([(s.name, c.name)], [], dist), below), rest))
        case _ => None
  }

  /** Its second loop: the subtrees of the siblings no source bone took. */
  function SkippedFrom(canon: seq<Bone>, f: seq<nat>, j: nat): seq<string>
    requires j <= |canon|
    decreases |canon| - j
  {
    if j == |canon| then []
    else (if j in f then [] else DeformNames([canon[j]])) + SkippedFrom(canon, f, j+1)
  }

  // ---- The matcher object ----

  function AsMap(base: map<string, string>, pairs: seq<(string, string)>): map<string, string>
    decreases |pairs|
  {
    if pairs == [] then base else AsMap(base[pairs[0].0 := pairs[0].1], pairs[1..])
  }

  lemma {:induction false} AsMapConcat(base: map<string, string>, a: seq<(string, string)>, b: seq<(string, string)>)
    ensures AsMap(base, a + b) == AsMap(AsMap(base, a), b)
    decreases |a|
  {
    if a == [] {
      assert a + b == b;
    } else {
      assert (a + b)[0] == a[0] && (a + b)[1..] == a[1..] + b;
      AsMapConcat(base[a[0].0 := a[0].1], a[1..], b);
    }
  }

  lemma DeformNamesFirst(bs: seq<Bone>)
    requires bs != []
    ensures DeformNames(bs) == DeformNames([bs[0]]) + DeformNames(bs[1..])
  {
    assert [bs[0]][1..] == [];
  }

  lemma {:induction false} DeformChildSmaller(c: Bone, i: nat)
    requires i < |Deform(c.children)|
    ensures Size([Deform(c.children)[i]]) < Size([c])
  {
    var kids := Deform(c.children);
    assert [c][1..] == [];
    ElementSmaller(kids, i);
  }

  lemma {:induction false} ElementSmaller(bs: seq<Bone>, i: nat)
    requires i < |bs|
    ensures Size([bs[i]]) <= Size(bs)
  {
    assert [bs[i]][1..] == [];
    if i > 0 {
      ElementSmaller(bs[1..], i-1);
    }
  }

  /** The state the nested functions of `match_joints` share. */
  datatype Progress = Progress(mapping: map<string, string>, unmatched: seq<string>, maxDist: real)

  function After(p: Progress, out: Out): Progress
  {
    Progress(AsMap(p.mapping, out.pairs), p.unmatched + out.dropped, Max(p.maxDist, out.maxDist))
  }

  lemma AfterJoin(p: Progress, a: Out, b: Out)
    ensures After(p, Join(a, b)) == After(After(p, a), b)
  {
    AsMapConcat(p.mapping, a.pairs, b.pairs);
  }

  lemma AfterOne(p: Progress, s: string, c: string, dist: real)
    ensures After(p, Out([(s, c)], [], dist)) == Progress(p.mapping[s := c], p.unmatched, Max(p.maxDist, dist))
  {
    var base := p.mapping[s := c];
    assert [(s, c)][1..] == [] && AsMap(base, []) == base;
    assert p.unmatched + [] == p.unmatched;
  }

  lemma AfterNothing(p: Progress)
    requires p.maxDist >= 0.0
    ensures After(p, Out([], [], 0.0)) == p
  {
  }

  lemma SkippedStep(canon: seq<Bone>, f: seq<nat>, j: nat)
    requires j < |canon|
    ensures SkippedFrom(canon, f, j)
         == (if j in f then [] else DeformNames([canon[j]])) + SkippedFrom(canon, f, j+1)
  {
  }

  ghost predicate KidsSkipped(start: seq<string>, now: seq<string>, kids: seq<Bone>, i: nat)
    requires i <= |kids|
  {
    now + DeformNames(kids[i..]) == start + DeformNames(kids)
  }

  lemma KidsGrow(start: seq<string>, before: seq<string>, now: seq<string>, kids: seq<Bone>, i: nat)
    requires i < |kids| && KidsSkipped(start, before, kids, i) && now == before + DeformNames([kids[i]])
    ensures KidsSkipped(start, now, kids, i+1)
  {
    DeformNamesFirst(kids[i..]);
    assert kids[i..][0] == kids[i] && kids[i..][1..] == kids[i+1..];
    assert now + DeformNames(kids[i+1..]) == before + (DeformNames([kids[i]]) + DeformNames(kids[i+1..]));
  }

  class Matcher {
    const metric: Metric
    var mapping: map<string, string>
    var unmatched: seq<string>
    var maxDist: real

    ghost function State(): Progress
      reads this
    {
      Progress(mapping, unmatched, maxDist)
    }

    constructor (metric: Metric)
      ensures this.metric == metric && State() == Progress(map[], [], 0.0)
    {
      this.metric := metric;
      mapping, unmatched, maxDist := map[], [], 0.0;
    }

    method SkipSubtree(c: Bone)
      modifies this`unmatched
      ensures unmatched == old(unmatched) + DeformNames([c])
      decreases Size([c])
    {
      ghost var start := unmatched;
      unmatched := unmatched + [c.name];
      var kids := Deform(c.children);
      assert kids[0..] == kids;
      for i := 0 to |kids|
        invariant KidsSkipped(start + [c.name], unmatched, kids, i)
      {
        DeformChildSmaller(c, i);
        ghost var before := unmatched;
        SkipSubtree(kids[i]);
        KidsGrow(start + [c.name], before, unmatched, kids, i);
      }
      NamesOfOne(c);
      assert kids[|kids|..] == [] && unmatched + [] == unmatched;
    }

    method PairLevel(src: seq<Bone>, canon: seq<Bone>) returns (ok: bool)
      requires maxDist >= 0.0
      modifies this
      ensures maxDist >= 0.0
      ensures ok == MatchLevel(metric, src, canon).Some?
      ensures ok ==> State() == After(old(State()), MatchLevel(metric, src, canon).value)
      decreases Size(src), |src| + 1
    {
      if |src| > |canon| {
        return false;
      }
      var best := Assign(metric, src, canon);
      ok := PairSiblings(src, canon, best);
      if ok {
        ghost var paired := MatchFrom(metric, src, canon, best, 0).value;
        SkipUntaken(canon, best);
        AfterJoin(old(State()), paired, Out([], SkippedFrom(canon, best, 0), 0.0));
      }
    }

    method PairSiblings(src: seq<Bone>, canon: seq<Bone>, best: seq<nat>) returns (ok: bool)
      requires Injection(best, |src|, |canon|)
      requires maxDist >= 0.0
      modifies this
      ensures maxDist >= 0.0
      ensures ok == MatchFrom(metric, src, canon, best, 0).Some?
      ensures ok ==> State() == After(old(State()), MatchFrom(metric, src, canon, best, 0).value)
      decreases Size(src), |src|
    {
      for i := 0 to |src|
        invariant maxDist >= 0.0
        invariant var rest, all := MatchFrom(metric, src, canon, best, i), MatchFrom(metric, src, canon, best, 0);
          && rest.Some? == all.Some?
          && (all.Some? ==> After(State(), rest.value) == After(old(State()), all.value))
      {
        var s, c := src[i], canon[best[i]];
        var dist := metric.segmentDist(s, c);
        if dist > EPSILON {
          return false;
        }
        ghost var before := State();
        maxDist := Max(maxDist, dist);
        mapping := mapping[s.name := c.name];
        ghost var here := Out([(s.name, c.name)], [], dist);
        AfterOne(before, s.name, c.name, dist);
        ChildrenSmaller(src, i);
        var below := PairLevel(s.children, Deform(c.children));
        if !below {
          return false;
        }
        UnfoldSibling(metric, src, canon, best, i, before);
      }
      AfterNothing(State());
      ok := true;
    }

    method SkipUntaken(canon: seq<Bone>, best: seq<nat>)
      modifies this`unmatched
      ensures unmatched == old(unmatched) + SkippedFrom(canon, best, 0)
    {
      ghost var start := unmatched;
      for j := 0 to |canon|
        invariant SkippedSoFar(start, unmatched, canon, best, j)
      {
        ghost var before := unmatched;
        if j !in best {
          SkipSubtree(canon[j]);
        }
        SkippedGrows(start, before, unmatched, canon, best, j);
      }
    }
  }

  ghost predicate SkippedSoFar(start: seq<string>, now: seq<string>, canon: seq<Bone>, f: seq<nat>, j: nat)
    requires j <= |canon|
  {
    now + SkippedFrom(canon, f, j) == start + SkippedFrom(canon, f, 0)
  }

  lemma SkippedGrows(start: seq<string>, before: seq<string>, now: seq<string>, canon: seq<Bone>, f: seq<nat>, j: nat)
    requires j < |canon| && SkippedSoFar(start, before, canon, f, j)
    requires now == before + if j in f then [] else DeformNames([canon[j]])
    ensures SkippedSoFar(start, now, canon, f, j+1)
  {
    SkippedStep(canon, f, j);
    Associates(before, if j in f then [] else DeformNames([canon[j]]), SkippedFrom(canon, f, j+1));
  }

  /** One sibling's contribution, unfolded. */
  lemma UnfoldSibling(m: Metric, src: seq<Bone>, canon: seq<Bone>, f: seq<nat>, i: nat, p: Progress)
    requires Injection(f, |src|, |canon|) && i < |src| && m.segmentDist(src[i], canon[f[i]]) <= EPSILON
    requires MatchLevel(m, src[i].children, Deform(canon[f[i]].children)).Some?
    ensures var (rest, all) := (MatchFrom(m, src, canon, f, i+1), MatchFrom(m, src, canon, f, i));
      var (s, c) := (src[i], canon[f[i]]);
      var here := Out([(s.name, c.name)], [], m.segmentDist(s, c));
      var below := MatchLevel(m, s.children, Deform(c.children)).value;
      && rest.Some? == all.Some?
      && (all.Some? ==> After(p, all.value) == After(After(After(p, here), below), rest.value))
  {
    var (s, c) := (src[i], canon[f[i]]);
    var here := Out([(s.name, c.name)], [], m.segmentDist(s, c));
    var below := MatchLevel(m, s.children, Deform(c.children)).value;
    match MatchFrom(m, src, canon, f, i+1)
    case None =>
    case Some(rest) =>
      AfterJoin(p, Join(here, below), rest);
      AfterJoin(p, here, below);
  }
}
