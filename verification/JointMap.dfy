/** What `match_joints` promises (ai-pipeline/char_rig.py). */
module JointMap {
  // When it succeeds, what a success says of the whole skeleton, and the final check against
  // the end bones.

  import opened Basics
  import opened LockstepMatch

  function Firsts(ps: seq<(string, string)>): (r: seq<string>)
    ensures |r| == |ps| && forall i :: 0 <= i < |r| ==> r[i] == ps[i].0
  {
    seq(|ps|, i requires 0 <= i < |ps| => ps[i].0)
  }

  function Seconds(ps: seq<(string, string)>): (r: seq<string>)
    ensures |r| == |ps| && forall i :: 0 <= i < |r| ==> r[i] == ps[i].1
  {
    seq(|ps|, i requires 0 <= i < |ps| => ps[i].1)
  }

  // ---- Every source bone is mapped ----

  lemma AllNamesAt(src: seq<Bone>, i: nat)
    requires i < |src|
    ensures AllNames(src[i..]) == [src[i].name] + AllNames(src[i].children) + AllNames(src[i+1..])
  {
    assert src[i..][0] == src[i] && src[i..][1..] == src[i+1..];
  }

  ghost function Here(m: Metric, src: seq<Bone>, canon: seq<Bone>, f: seq<nat>, i: nat): Out
    requires Injection(f, |src|, |canon|) && i < |src|
  {
    Out([(src[i].name, canon[f[i]].name)], [], m.segmentDist(src[i], canon[f[i]]))
  }

  ghost function Below(m: Metric, src: seq<Bone>, canon: seq<Bone>, f: seq<nat>, i: nat): Option<Out>
    requires Injection(f, |src|, |canon|) && i < |src|
  {
    MatchLevel(m, src[i].children, Deform(canon[f[i]].children))
  }

  /** A sibling loop that went through, unfolded once. */
  lemma FromStep(m: Metric, src: seq<Bone>, canon: seq<Bone>, f: seq<nat>, i: nat)
    requires Injection(f, |src|, |canon|) && i < |src| && MatchFrom(m, src, canon, f, i).Some?
    ensures m.segmentDist(src[i], canon[f[i]]) <= EPSILON
    ensures Below(m, src, canon, f, i).Some? && MatchFrom(m, src, canon, f, i+1).Some?
    ensures MatchFrom(m, src, canon, f, i).value
         == Join(Join(Here(m, src, canon, f, i), Below(m, src, canon, f, i).value), MatchFrom(m, src, canon, f, i+1).value)
  {
  }

  lemma LevelStep(m: Metric, src: seq<Bone>, canon: seq<Bone>)
    requires MatchLevel(m, src, canon).Some?
    ensures |src| <= |canon| && MatchFrom(m, src, canon, Assign(m, src, canon), 0).Some?
    ensures MatchLevel(m, src, canon).value == Join(MatchFrom(m, src, canon, Assign(m, src, canon), 0).value,
                                                    Out([], SkippedFrom(canon, Assign(m, src, canon), 0), 0.0))
  {
  }

  lemma FirstsConcat(a: seq<(string, string)>, b: seq<(string, string)>)
    ensures Firsts(a + b) == Firsts(a) + Firsts(b)
  {
  }

  /** The pairs name the source bones in visiting order, each once. */
  lemma {:induction false} LevelSources(m: Metric, src: seq<Bone>, canon: seq<Bone>)
    requires MatchLevel(m, src, canon).Some?
    ensures Firsts(MatchLevel(m, src, canon).value.pairs) == AllNames(src)
    decreases Size(src), |src| + 1
  {
    LevelStep(m, src, canon);
    var f := Assign(m, src, canon);
    FromSources(m, src, canon, f, 0);
    FirstsConcat(MatchFrom(m, src, canon, f, 0).value.pairs, []);
    assert Firsts([]) == [] && src[0..] == src;
  }

  lemma {:induction false} FromSources(m: Metric, src: seq<Bone>, canon: seq<Bone>, f: seq<nat>, i: nat)
    requires Injection(f, |src|, |canon|) && i <= |src| && MatchFrom(m, src, canon, f, i).Some?
    ensures Firsts(MatchFrom(m, src, canon, f, i).value.pairs) == AllNames(src[i..])
    decreases Size(src), |src| - i
  {
    if i < |src| {
      FromStep(m, src, canon, f, i);
      ChildrenSmaller(src, i);
      LevelSources(m, src[i].children, Deform(canon[f[i]].children));
      FromSources(m, src, canon, f, i+1);
      AllNamesAt(src, i);
      var here, below := Here(m, src, canon, f, i), Below(m, src, canon, f, i).value;
      FirstsConcat(here.pairs + below.pairs, MatchFrom(m, src, canon, f, i+1).value.pairs);
      FirstsConcat(here.pairs, below.pairs);
      assert Firsts(here.pairs) == [src[i].name];
    }
  }

  // ---- Every canonical bone is mapped or dropped ----

  ghost function NamesAt(canon: seq<Bone>, j: nat): multiset<string>
    requires j < |canon|
  {
    multiset(DeformNames([canon[j]]))
  }

  ghost function Parts(canon: seq<Bone>): (r: seq<multiset<string>>)
    ensures |r| == |canon| && forall j :: 0 <= j < |r| ==> r[j] == NamesAt(canon, j)
  {
    seq(|canon|, j requires 0 <= j < |canon| => NamesAt(canon, j))
  }

  /** The parts at positions `j` and up that belong to `s`. */
  ghost function SumFrom(parts: seq<multiset<string>>, s: set<nat>, j: nat): multiset<string>
    requires j <= |parts|
    decreases |parts| - j
  {
    if j == |parts| then multiset{}
    else (if j in s then parts[j] else multiset{}) + SumFrom(parts, s, j+1)
  }

  ghost function Range(f: seq<nat>): set<nat> { set x | x in f }

  lemma NamesFrom(canon: seq<Bone>, j: nat)
    requires j < |canon|
    ensures multiset(DeformNames(canon[j..])) == NamesAt(canon, j) + multiset(DeformNames(canon[j+1..]))
  {
    DeformNamesFirst(canon[j..]);
    assert canon[j..][0] == canon[j] && canon[j..][1..] == canon[j+1..];
  }

  lemma SkippedOrTaken(canon: seq<Bone>, f: seq<nat>, j: nat)
    requires j < |canon|
    ensures multiset(SkippedFrom(canon, f, j)) + SumFrom(Parts(canon), Range(f), j)
         == NamesAt(canon, j) + multiset(SkippedFrom(canon, f, j+1)) + SumFrom(Parts(canon), Range(f), j+1)
  {
    SkippedStep(canon, f, j);
  }

  lemma {:induction false} SkippedAndTaken(canon: seq<Bone>, f: seq<nat>, j: nat)
    requires j <= |canon|
    ensures multiset(SkippedFrom(canon, f, j)) + SumFrom(Parts(canon), Range(f), j) == multiset(DeformNames(canon[j..]))
    decreases |canon| - j
  {
    if j < |canon| {
      SkippedAndTaken(canon, f, j+1);
      SkippedOrTaken(canon, f, j);
      NamesFrom(canon, j);
    } else {
      assert canon[j..] == [];
    }
  }

  lemma {:induction false} SumInsert(parts: seq<multiset<string>>, s: set<nat>, x: nat, j: nat)
    requires j <= |parts| && x < |parts| && x !in s
    ensures SumFrom(parts, s + {x}, j) == SumFrom(parts, s, j) + if j <= x then parts[x] else multiset{}
    decreases |parts| - j
  {
    if j < |parts| {
      SumInsert(parts, s, x, j+1);
    }
  }

  ghost function Accounted(out: Out): multiset<string>
  {
    multiset(Seconds(out.pairs)) + multiset(out.dropped)
  }

  lemma AccountedJoin(a: Out, b: Out)
    ensures Accounted(Join(a, b)) == Accounted(a) + Accounted(b)
  {
    assert Seconds(a.pairs + b.pairs) == Seconds(a.pairs) + Seconds(b.pairs);
  }

  lemma JoinedAccounted(a: Out, b: Out, c: Out)
    ensures Accounted(Join(Join(a, b), c)) == Accounted(a) + Accounted(b) + Accounted(c)
  {
    AccountedJoin(a, b);
    AccountedJoin(Join(a, b), c);
  }

  /** Counted with multiplicity, the canonical names are the mapped and the dropped. */
  lemma {:induction false} LevelTargets(m: Metric, src: seq<Bone>, canon: seq<Bone>)
    requires MatchLevel(m, src, canon).Some?
    ensures Accounted(MatchLevel(m, src, canon).value) == multiset(DeformNames(canon))
    decreases Size(src), |src| + 1
  {
    LevelStep(m, src, canon);
    var f := Assign(m, src, canon);
    FromTargets(m, src, canon, f, 0);
    assert f[0..] == f && canon[0..] == canon;
    SkippedAndTaken(canon, f, 0);
    AccountedJoin(MatchFrom(m, src, canon, f, 0).value, Out([], SkippedFrom(canon, f, 0), 0.0));
    assert Seconds([]) == [];
  }

  lemma RangeStep(f: seq<nat>, i: nat, k: nat, n: nat)
    requires Injection(f, k, n) && i < k
    ensures Range(f[i..]) == Range(f[i+1..]) + {f[i]} && f[i] !in Range(f[i+1..])
  {
    assert f[i..] == [f[i]] + f[i+1..];
  }

  lemma HereAccounted(m: Metric, src: seq<Bone>, canon: seq<Bone>, f: seq<nat>, i: nat)
    requires Injection(f, |src|, |canon|) && i < |src|
    ensures Accounted(Here(m, src, canon, f, i)) + multiset(DeformNames(Deform(canon[f[i]].children))) == NamesAt(canon, f[i])
  {
    NamesOfOne(canon[f[i]]);
    assert Seconds(Here(m, src, canon, f, i).pairs) == [canon[f[i]].name];
  }

  lemma {:induction false} FromTargets(m: Metric, src: seq<Bone>, canon: seq<Bone>, f: seq<nat>, i: nat)
    requires Injection(f, |src|, |canon|) && i <= |src| && MatchFrom(m, src, canon, f, i).Some?
    ensures Accounted(MatchFrom(m, src, canon, f, i).value) == SumFrom(Parts(canon), Range(f[i..]), 0)
    decreases Size(src), |src| - i
  {
    if i == |src| {
      SumEmpty(Parts(canon), 0);
      assert Range(f[i..]) == {} && Seconds([]) == [];
    } else {
      FromStep(m, src, canon, f, i);
      ChildrenSmaller(src, i);
      LevelTargets(m, src[i].children, Deform(canon[f[i]].children));
      FromTargets(m, src, canon, f, i+1);
      RangeStep(f, i, |src|, |canon|);
      SumInsert(Parts(canon), Range(f[i+1..]), f[i], 0);
      HereAccounted(m, src, canon, f, i);
      JoinedAccounted(Here(m, src, canon, f, i), Below(m, src, canon, f, i).value,
                      MatchFrom(m, src, canon, f, i+1).value);
    }
  }

  lemma {:induction false} SumEmpty(parts: seq<multiset<string>>, j: nat)
    requires j <= |parts|
    ensures SumFrom(parts, {}, j) == multiset{}
    decreases |parts| - j
  {
    if j < |parts| {
      SumEmpty(parts, j+1);
    }
  }

  // ---- When a level matches ----

  /** At this level and every one below: no more source siblings than canonical ones, and
      every pair of the chosen assignment within the gate. */
  ghost predicate Matchable(m: Metric, src: seq<Bone>, canon: seq<Bone>)
    decreases Size(src), 1
  {
    |src| <= |canon| && forall i :: 0 <= i < |src| ==> PairMatchable(m, src, canon, Assign(m, src, canon), i)
  }

  ghost predicate PairMatchable(m: Metric, src: seq<Bone>, canon: seq<Bone>, f: seq<nat>, i: nat)
    requires Injection(f, |src|, |canon|) && i < |src|
    decreases Size(src), 0
  {
    ChildrenSmaller(src, i);
    && m.segmentDist(src[i], canon[f[i]]) <= EPSILON
    && Matchable(m, src[i].children, Deform(canon[f[i]].children))
  }

  ghost predicate RestMatchable(m: Metric, src: seq<Bone>, canon: seq<Bone>, f: seq<nat>, i: nat)
    requires Injection(f, |src|, |canon|)
  {
    forall k :: i <= k < |src| ==> PairMatchable(m, src, canon, f, k)
  }

  lemma {:induction false} MatchableIff(m: Metric, src: seq<Bone>, canon: seq<Bone>)
    ensures MatchLevel(m, src, canon).Some? <==> Matchable(m, src, canon)
    decreases Size(src), |src| + 1
  {
    if |src| <= |canon| {
      var f := Assign(m, src, canon);
      SiblingsMatchableIff(m, src, canon, f, 0);
      assert Matchable(m, src, canon) <==> RestMatchable(m, src, canon, f, 0);
    }
  }

  lemma {:induction false} SiblingsMatchableIff(m: Metric, src: seq<Bone>, canon: seq<Bone>, f: seq<nat>, i: nat)
    requires Injection(f, |src|, |canon|) && i <= |src|
    ensures MatchFrom(m, src, canon, f, i).Some? <==> RestMatchable(m, src, canon, f, i)
    decreases Size(src), |src| - i
  {
    if i < |src| {
      ChildrenSmaller(src, i);
      MatchableIff(m, src[i].children, Deform(canon[f[i]].children));
      SiblingsMatchableIff(m, src, canon, f, i+1);
      FromMatchableStep(m, src, canon, f, i);
      RestMatchableStep(m, src, canon, f, i);
    }
  }

  lemma RestMatchableStep(m: Metric, src: seq<Bone>, canon: seq<Bone>, f: seq<nat>, i: nat)
    requires Injection(f, |src|, |canon|) && i < |src|
    ensures RestMatchable(m, src, canon, f, i) <==>
      m.segmentDist(src[i], canon[f[i]]) <= EPSILON
      && Matchable(m, src[i].children, Deform(canon[f[i]].children)) && RestMatchable(m, src, canon, f, i+1)
  {
    ChildrenSmaller(src, i);
    assert RestMatchable(m, src, canon, f, i) <==> PairMatchable(m, src, canon, f, i) && RestMatchable(m, src, canon, f, i+1);
  }

  lemma FromMatchableStep(m: Metric, src: seq<Bone>, canon: seq<Bone>, f: seq<nat>, i: nat)
    requires Injection(f, |src|, |canon|) && i < |src|
    ensures MatchFrom(m, src, canon, f, i).Some? <==>
      m.segmentDist(src[i], canon[f[i]]) <= EPSILON
      && Below(m, src, canon, f, i).Some? && MatchFrom(m, src, canon, f, i+1).Some?
  {
  }

  // ---- The largest distance ----

  /** Every pair along the assignment, here and below, is within `d`. */
  ghost predicate Within(m: Metric, src: seq<Bone>, canon: seq<Bone>, d: real)
    decreases Size(src), 1
  {
    |src| <= |canon| && forall i :: 0 <= i < |src| ==> PairWithin(m, src, canon, Assign(m, src, canon), i, d)
  }

  ghost predicate PairWithin(m: Metric, src: seq<Bone>, canon: seq<Bone>, f: seq<nat>, i: nat, d: real)
    requires Injection(f, |src|, |canon|) && i < |src|
    decreases Size(src), 0
  {
    ChildrenSmaller(src, i);
    && m.segmentDist(src[i], canon[f[i]]) <= d
    && Within(m, src[i].children, Deform(canon[f[i]].children), d)
  }

  /** Some pair along the assignment, here or below, is at `d`. */
  ghost predicate Attained(m: Metric, src: seq<Bone>, canon: seq<Bone>, d: real)
    decreases Size(src), 1
  {
    |src| <= |canon| && exists i :: 0 <= i < |src| && PairAttained(m, src, canon, Assign(m, src, canon), i, d)
  }

  ghost predicate PairAttained(m: Metric, src: seq<Bone>, canon: seq<Bone>, f: seq<nat>, i: nat, d: real)
    requires Injection(f, |src|, |canon|) && i < |src|
    decreases Size(src), 0
  {
    ChildrenSmaller(src, i);
    || m.segmentDist(src[i], canon[f[i]]) == d
    || Attained(m, src[i].children, Deform(canon[f[i]].children), d)
  }

  ghost predicate SomeAttained(m: Metric, src: seq<Bone>, canon: seq<Bone>, f: seq<nat>, i: nat, d: real)
    requires Injection(f, |src|, |canon|)
  {
    exists k :: i <= k < |src| && PairAttained(m, src, canon, f, k, d)
  }

  lemma {:induction false} WithinMore(m: Metric, src: seq<Bone>, canon: seq<Bone>, d: real, e: real)
    requires Within(m, src, canon, d) && d <= e
    ensures Within(m, src, canon, e)
    decreases Size(src)
  {
    var f := Assign(m, src, canon);
    forall i | 0 <= i < |src|
      ensures PairWithin(m, src, canon, f, i, e)
    {
      assert PairWithin(m, src, canon, f, i, d);
      ChildrenSmaller(src, i);
      WithinMore(m, src[i].children, Deform(canon[f[i]].children), d, e);
    }
  }

  /** The reported distance is the largest of all pairs, here and below; zero without any. */
  lemma {:induction false} LevelDistance(m: Metric, src: seq<Bone>, canon: seq<Bone>)
    requires MatchLevel(m, src, canon).Some?
    ensures var d := MatchLevel(m, src, canon).value.maxDist;
      d >= 0.0 && Within(m, src, canon, d) && (d == 0.0 || Attained(m, src, canon, d))
    decreases Size(src), |src| + 1
  {
    LevelStep(m, src, canon);
    var f := Assign(m, src, canon);
    SiblingsDistance(m, src, canon, f, 0);
  }

  lemma {:induction false} SiblingsDistance(m: Metric, src: seq<Bone>, canon: seq<Bone>, f: seq<nat>, i: nat)
    requires Injection(f, |src|, |canon|) && i <= |src| && MatchFrom(m, src, canon, f, i).Some?
    ensures var d := MatchFrom(m, src, canon, f, i).value.maxDist;
      && d >= 0.0 && (forall k :: i <= k < |src| ==> PairWithin(m, src, canon, f, k, d))
      && (d == 0.0 || SomeAttained(m, src, canon, f, i, d))
    decreases Size(src), |src| - i
  {
    if i < |src| {
      FromStep(m, src, canon, f, i);
      ChildrenSmaller(src, i);
      LevelDistance(m, src[i].children, Deform(canon[f[i]].children));
      SiblingsDistance(m, src, canon, f, i+1);
      var d := MatchFrom(m, src, canon, f, i).value.maxDist;
      var (below, rest) := (Below(m, src, canon, f, i).value.maxDist, MatchFrom(m, src, canon, f, i+1).value.maxDist);
      WithinMore(m, src[i].children, Deform(canon[f[i]].children), below, d);
      forall k | i < k < |src|
        ensures PairWithin(m, src, canon, f, k, d)
      {
        PairWithinMore(m, src, canon, f, k, rest, d);
      }
      if d != 0.0 && d != rest {
        AttainedHere(m, src, canon, f, i, d, below);
        assert SomeAttained(m, src, canon, f, i, d);
      } else if d != 0.0 {
        assert SomeAttained(m, src, canon, f, i, d);
      }
    }
  }

  lemma AttainedHere(m: Metric, src: seq<Bone>, canon: seq<Bone>, f: seq<nat>, i: nat, d: real, below: real)
    requires Injection(f, |src|, |canon|) && i < |src| && d == Max(m.segmentDist(src[i], canon[f[i]]), below)
    requires d == below ==> Attained(m, src[i].children, Deform(canon[f[i]].children), d)
    ensures PairAttained(m, src, canon, f, i, d)
  {
    ChildrenSmaller(src, i);
  }

  lemma PairWithinMore(m: Metric, src: seq<Bone>, canon: seq<Bone>, f: seq<nat>, i: nat, d: real, e: real)
    requires Injection(f, |src|, |canon|) && i < |src| && PairWithin(m, src, canon, f, i, d) && d <= e
    ensures PairWithin(m, src, canon, f, i, e)
  {
    ChildrenSmaller(src, i);
    WithinMore(m, src[i].children, Deform(canon[f[i]].children), d, e);
  }

  // ---- The mapping follows both hierarchies ----

  /** At this level and every one below: an optimal assignment of the source siblings,
      each pair within the gate and recorded, and the children matched likewise. */
  ghost predicate WellMatched(m: Metric, src: seq<Bone>, canon: seq<Bone>, pairs: seq<(string, string)>)
    decreases Size(src), 2
  {
    exists f: seq<nat> :: Follows(m, src, canon, f, pairs)
  }

  ghost predicate Follows(m: Metric, src: seq<Bone>, canon: seq<Bone>, f: seq<nat>, pairs: seq<(string, string)>)
    decreases Size(src), 1
  {
    && Optimal(m, src, canon, f)
    && forall i :: 0 <= i < |src| ==> SiblingMatched(m, src, canon, f, i, pairs)
  }

  ghost predicate SiblingMatched(m: Metric, src: seq<Bone>, canon: seq<Bone>, f: seq<nat>, i: nat,
                                 pairs: seq<(string, string)>)
    requires Injection(f, |src|, |canon|) && i < |src|
    decreases Size(src), 0
  {
    ChildrenSmaller(src, i);
    && (src[i].name, canon[f[i]].name) in pairs
    && m.segmentDist(src[i], canon[f[i]]) <= EPSILON
    && WellMatched(m, src[i].children, Deform(canon[f[i]].children), pairs)
  }

  // ---- Success ----

  ghost predicate Covers(more: seq<(string, string)>, fewer: seq<(string, string)>)
  {
    forall p :: p in fewer ==> p in more
  }

  lemma {:induction false} WellMatchedMore(m: Metric, src: seq<Bone>, canon: seq<Bone>,
                                           fewer: seq<(string, string)>, more: seq<(string, string)>)
    requires WellMatched(m, src, canon, fewer) && Covers(more, fewer)
    ensures WellMatched(m, src, canon, more)
    decreases Size(src)
  {
    var f: seq<nat> :| Follows(m, src, canon, f, fewer);
    forall i | 0 <= i < |src|
      ensures SiblingMatched(m, src, canon, f, i, more)
    {
      assert SiblingMatched(m, src, canon, f, i, fewer);
      ChildrenSmaller(src, i);
      WellMatchedMore(m, src[i].children, Deform(canon[f[i]].children), fewer, more);
    }
    assert Follows(m, src, canon, f, more);
  }

  lemma {:induction false} FromMatched(m: Metric, src: seq<Bone>, canon: seq<Bone>, f: seq<nat>, i: nat, k: nat,
                                       pairs: seq<(string, string)>)
    requires Injection(f, |src|, |canon|) && i <= k < |src| && MatchFrom(m, src, canon, f, i).Some?
    requires Covers(pairs, MatchFrom(m, src, canon, f, i).value.pairs)
    ensures SiblingMatched(m, src, canon, f, k, pairs)
    decreases Size(src), |src| - i
  {
    FromStep(m, src, canon, f, i);
    ChildrenSmaller(src, i);
    if i < k {
      FromMatched(m, src, canon, f, i+1, k, pairs);
    } else {
      var below := Below(m, src, canon, f, i).value.pairs;
      LevelMatched(m, src[i].children, Deform(canon[f[i]].children));
      assert Here(m, src, canon, f, i).pairs[0] in MatchFrom(m, src, canon, f, i).value.pairs;
      WellMatchedMore(m, src[i].children, Deform(canon[f[i]].children), below, pairs);
    }
  }

  /** The recorded pairs follow both hierarchies, optimally at every level. */
  lemma {:induction false} LevelMatched(m: Metric, src: seq<Bone>, canon: seq<Bone>)
    requires MatchLevel(m, src, canon).Some?
    ensures WellMatched(m, src, canon, MatchLevel(m, src, canon).value.pairs)
    decreases Size(src), |src| + 1
  {
    LevelStep(m, src, canon);
    var f := Assign(m, src, canon);
    var pairs := MatchLevel(m, src, canon).value.pairs;
    AssignIsOptimal(m, src, canon);
    forall i | 0 <= i < |src|
      ensures SiblingMatched(m, src, canon, f, i, pairs)
    {
      FromMatched(m, src, canon, f, 0, i, pairs);
    }
    assert Follows(m, src, canon, f, pairs);
  }

  // ---- The public entry point ----

  datatype Joints = Joints(mapping: map<string, string>, maxDist: real, dropped: seq<string>)

  /** `match_joints`: `None` is a failed gate. `canonRoots` are all parentless canonical
      bones, of which only the deforming take part. */
  method MatchJoints(m: Metric, srcRoots: seq<Bone>, canonRoots: seq<Bone>, endBones: set<string>)
    returns (r: Option<Joints>)
    ensures Matchable(m, srcRoots, Deform(canonRoots)) <==> MatchLevel(m, srcRoots, Deform(canonRoots)).Some?
    ensures r.Some? <==>
      (&& Matchable(m, srcRoots, Deform(canonRoots))
       && forall n :: n in MatchLevel(m, srcRoots, Deform(canonRoots)).value.dropped ==> n in endBones)
    ensures r.Some? ==> var out := MatchLevel(m, srcRoots, Deform(canonRoots)).value;
      r.value == Joints(AsMap(map[], out.pairs), out.maxDist, out.dropped)
    ensures r.Some? ==>
      && Within(m, srcRoots, Deform(canonRoots), r.value.maxDist)
      && (r.value.maxDist == 0.0 || Attained(m, srcRoots, Deform(canonRoots), r.value.maxDist))
  {
    MatchableIff(m, srcRoots, Deform(canonRoots));
    var matcher := new Matcher(m);
    var ok := matcher.PairLevel(srcRoots, Deform(canonRoots));
    if !ok {
      return None;
    }
    LevelDistance(m, srcRoots, Deform(canonRoots));
    assert matcher.unmatched == [] + MatchLevel(m, srcRoots, Deform(canonRoots)).value.dropped;
    if exists n :: n in matcher.unmatched && n !in endBones {
      return None;
    }
    r := Some(Joints(matcher.mapping, matcher.maxDist, matcher.unmatched));
  }

  lemma FirstsTail(pairs: seq<(string, string)>)
    requires pairs != [] && Distinct(Firsts(pairs))
    ensures Distinct(Firsts(pairs[1..])) && pairs[0].0 !in Firsts(pairs[1..])
    ensures forall k :: k in Firsts(pairs) <==> k == pairs[0].0 || k in Firsts(pairs[1..])
  {
    var all, rest := Firsts(pairs), Firsts(pairs[1..]);
    assert all == [pairs[0].0] + rest;
    forall i | 0 <= i < |rest|
      ensures rest[i] != all[0]
    {
      assert all[i+1] == rest[i];
    }
    forall i, j | 0 <= i < j < |rest|
      ensures rest[i] != rest[j]
    {
      assert all[i+1] == rest[i] && all[j+1] == rest[j];
    }
  }

  ghost predicate LooksUp(r: map<string, string>, base: map<string, string>, pairs: seq<(string, string)>)
  {
    && (forall k :: k in r <==> k in base || k in Firsts(pairs))
    && (forall k :: k in base ==> k in r && r[k] == base[k])
    && (forall i :: 0 <= i < |pairs| ==> pairs[i].0 in r && r[pairs[i].0] == pairs[i].1)
  }

  lemma {:induction false} AsMapLooksUp(base: map<string, string>, pairs: seq<(string, string)>)
    requires Distinct(Firsts(pairs)) && forall k :: k in Firsts(pairs) ==> k !in base
    ensures LooksUp(AsMap(base, pairs), base, pairs)
    decreases |pairs|
  {
    if pairs != [] {
      var next, rest := base[pairs[0].0 := pairs[0].1], pairs[1..];
      FirstsTail(pairs);
      AsMapLooksUp(next, rest);
      var r := AsMap(next, rest);
      forall i | 0 <= i < |pairs|
        ensures pairs[i].0 in r && r[pairs[i].0] == pairs[i].1
      {
        if i > 0 {
          assert rest[i-1] == pairs[i];
        } else {
          assert pairs[0].0 in next;
        }
      }
    }
  }

  lemma DistinctCounts(s: seq<string>)
    requires Distinct(s)
    ensures forall x :: x in s ==> multiset(s)[x] == 1
  {
    forall x | x in s
      ensures multiset(s)[x] == 1
    {
      var i :| 0 <= i < |s| && s[i] == x;
      assert s == s[..i] + [x] + s[i+1..];
      assert x !in s[..i] && x !in s[i+1..];
    }
  }

  /** What success means, on armatures whose bone names are unique. */
  lemma SuccessMeans(m: Metric, srcRoots: seq<Bone>, canonRoots: seq<Bone>, endBones: set<string>, out: Out)
    requires MatchLevel(m, srcRoots, Deform(canonRoots)) == Some(out)
    requires Distinct(AllNames(srcRoots)) && Distinct(DeformNames(Deform(canonRoots)))
    ensures var mapping := AsMap(map[], out.pairs);
      && (forall s :: s in mapping <==> s in AllNames(srcRoots))
      && (forall s, t :: s in mapping && t in mapping && s != t ==> mapping[s] != mapping[t])
      && (forall c :: c in mapping.Values || c in out.dropped <==> c in DeformNames(Deform(canonRoots)))
      && (forall c :: !(c in mapping.Values && c in out.dropped))
      && (forall i :: 0 <= i < |out.pairs| ==> out.pairs[i].0 in mapping && mapping[out.pairs[i].0] == out.pairs[i].1)
    ensures WellMatched(m, srcRoots, Deform(canonRoots), out.pairs)
  {
    var canon := Deform(canonRoots);
    LevelMatched(m, srcRoots, canon);
    LevelSources(m, srcRoots, canon);
    LevelTargets(m, srcRoots, canon);
    DistinctCounts(DeformNames(canon));
    AsMapLooksUp(map[], out.pairs);
    MappedOnce(out, DeformNames(canon));
  }

  lemma ValuesAreTargets(pairs: seq<(string, string)>)
    requires Distinct(Firsts(pairs))
    ensures forall c :: c in AsMap(map[], pairs).Values <==> c in Seconds(pairs)
  {
    var mapping, targets := AsMap(map[], pairs), Seconds(pairs);
    AsMapLooksUp(map[], pairs);
    forall c
      ensures c in mapping.Values <==> c in targets
    {
      if c in mapping.Values {
        var s :| s in mapping && mapping[s] == c;
        var i :| 0 <= i < |pairs| && Firsts(pairs)[i] == s;
        assert targets[i] == c;
      }
      if c in targets {
        var i :| 0 <= i < |pairs| && targets[i] == c;
        assert mapping[pairs[i].0] == c;
      }
    }
  }

  lemma DistinctTargetsInject(pairs: seq<(string, string)>)
    requires Distinct(Firsts(pairs)) && Distinct(Seconds(pairs))
    ensures var mapping := AsMap(map[], pairs);
      forall s, t :: s in mapping && t in mapping && s != t ==> mapping[s] != mapping[t]
  {
    var mapping := AsMap(map[], pairs);
    AsMapLooksUp(map[], pairs);
    forall s, t | s in mapping && t in mapping && s != t
      ensures mapping[s] != mapping[t]
    {
      var i :| 0 <= i < |pairs| && Firsts(pairs)[i] == s;
      var j :| 0 <= j < |pairs| && Firsts(pairs)[j] == t;
      assert mapping[s] == Seconds(pairs)[i] && mapping[t] == Seconds(pairs)[j];
    }
  }

  lemma CountedOnceDistinct(s: seq<string>)
    requires forall c :: multiset(s)[c] <= 1
    ensures Distinct(s)
  {
    forall i, j | 0 <= i < j < |s|
      ensures s[i] != s[j]
    {
      if s[i] == s[j] {
        CountedTwice(s, i, j);
      }
    }
  }

  lemma MappedOnce(out: Out, names: seq<string>)
    requires Distinct(Firsts(out.pairs)) && Accounted(out) == multiset(names)
    requires forall x :: x in names ==> multiset(names)[x] == 1
    ensures var mapping := AsMap(map[], out.pairs);
      && (forall s, t :: s in mapping && t in mapping && s != t ==> mapping[s] != mapping[t])
      && (forall c :: c in mapping.Values || c in out.dropped <==> c in names)
      && (forall c :: !(c in mapping.Values && c in out.dropped))
  {
    var targets := Seconds(out.pairs);
    ValuesAreTargets(out.pairs);
    forall c
      ensures (c in targets || c in out.dropped <==> c in names) && !(c in targets && c in out.dropped)
      ensures multiset(targets)[c] <= 1
    {
      assert multiset(names)[c] == multiset(targets)[c] + multiset(out.dropped)[c];
      assert c in names <==> multiset(names)[c] > 0;
      assert c in targets <==> multiset(targets)[c] > 0;
      assert c in out.dropped <==> multiset(out.dropped)[c] > 0;
    }
    CountedOnceDistinct(targets);
    DistinctTargetsInject(out.pairs);
  }
}
