/** The draw list: additive particles in pool order, then the farthest alpha particles,
    farthest first (client/vordar-client/src/vfx.rs). */
module DrawList {
  import opened Particles
  import opened ParticleRuns

  datatype Instance = Instance(position: Vec3, size: real, color: Vec3, fade: real, axis: Vec3, stretch: real, cell: nat)

  /** The share of life left, clamped; a lifeless particle is left at an end of the range. */
  function Fade(p: Particle): real
  {
    if p.life == 0.0 then if p.ttl > 0.0 then 1.0 else 0.0
    else Clamped(p.ttl / p.life)
  }

  function Clamped(x: real): real { if x < 0.0 then 0.0 else if x > 1.0 then 1.0 else x }

  function InstanceOf(p: Particle): Instance
  {
    Instance(p.pos, p.size * Fade(p), p.color.Times(Fade(p)), Fade(p), p.axis, p.stretch, p.cell)
  }

  function Instances(ps: seq<Particle>): (r: seq<Instance>)
    ensures |r| == |ps| && forall i :: 0 <= i < |r| ==> r[i] == InstanceOf(ps[i])
  {
    seq(|ps|, i requires 0 <= i < |ps| => InstanceOf(ps[i]))
  }

  /** The particles of one blend mode, in pool order. */
  function Blended(blend: Blend, ps: seq<Particle>): seq<Particle>
  {
    if ps == [] then []
    else if ps[|ps|-1].blend == blend then Blended(blend, ps[..|ps|-1]) + [ps[|ps|-1]]
    else Blended(blend, ps[..|ps|-1])
  }

  function Take<A>(s: seq<A>, n: nat): seq<A> { if |s| <= n then s else s[..n] }

  // ---- Stable sort, farthest first ----

  function InsertFar<A>(far: A -> real, s: seq<A>, x: A): seq<A>
  {
    if s == [] || far(s[|s|-1]) >= far(x) then s + [x]
    else InsertFar(far, s[..|s|-1], x) + [s[|s|-1]]
  }

  function FarFirst<A>(far: A -> real, s: seq<A>): seq<A>
  {
    if s == [] then [] else InsertFar(far, FarFirst(far, s[..|s|-1]), s[|s|-1])
  }

  /** The elements at distance `d`, in order. */
  function At<A>(far: A -> real, d: real, s: seq<A>): seq<A>
  {
    if s == [] then []
    else if far(s[|s|-1]) == d then At(far, d, s[..|s|-1]) + [s[|s|-1]]
    else At(far, d, s[..|s|-1])
  }

  ghost predicate Receding<A>(far: A -> real, s: seq<A>)
  {
    forall i, j :: 0 <= i < j < |s| ==> far(s[i]) >= far(s[j])
  }

  lemma {:induction false} InsertHas<A>(far: A -> real, s: seq<A>, x: A)
    ensures multiset(InsertFar(far, s, x)) == multiset(s) + multiset{x}
  {
    if s != [] && far(s[|s|-1]) < far(x) {
      InsertHas(far, s[..|s|-1], x);
      assert s == s[..|s|-1] + [s[|s|-1]];
    }
  }

  /** The result recedes, and ends no nearer than the nearer of the last element and `x`. */
  lemma {:induction false} InsertRecedes<A>(far: A -> real, s: seq<A>, x: A)
    requires Receding(far, s)
    ensures Receding(far, InsertFar(far, s, x))
    ensures forall i :: 0 <= i < |InsertFar(far, s, x)| ==>
      far(InsertFar(far, s, x)[i]) >= if s == [] || far(s[|s|-1]) >= far(x) then far(x) else far(s[|s|-1])
  {
    if s != [] && far(s[|s|-1]) < far(x) {
      var (init, last) := (s[..|s|-1], s[|s|-1]);
      InsertRecedes(far, init, x);
      assert init != [] ==> far(init[|init|-1]) >= far(last);
    }
  }

  lemma AtStep<A>(far: A -> real, d: real, s: seq<A>, x: A)
    ensures At(far, d, s + [x]) == if far(x) == d then At(far, d, s) + [x] else At(far, d, s)
  {
    assert (s + [x])[..|s|] == s;
  }

  /** Equally far elements keep their order. */
  lemma {:induction false} InsertStable<A>(far: A -> real, d: real, s: seq<A>, x: A)
    ensures At(far, d, InsertFar(far, s, x)) == if far(x) == d then At(far, d, s) + [x] else At(far, d, s)
  {
    if s == [] || far(s[|s|-1]) >= far(x) {
      AtStep(far, d, s, x);
    } else {
      var (init, last) := (s[..|s|-1], s[|s|-1]);
      InsertStable(far, d, init, x);
      AtStep(far, d, InsertFar(far, init, x), last);
      if far(last) == d && far(x) == d {
        assert false;
      }
    }
  }

  lemma {:induction false} FarFirstRecedes<A>(far: A -> real, s: seq<A>)
    ensures Receding(far, FarFirst(far, s))
  {
    if s != [] {
      FarFirstRecedes(far, s[..|s|-1]);
      InsertRecedes(far, FarFirst(far, s[..|s|-1]), s[|s|-1]);
    }
  }

  lemma {:induction false} FarFirstHas<A>(far: A -> real, s: seq<A>)
    ensures multiset(FarFirst(far, s)) == multiset(s)
  {
    if s != [] {
      FarFirstHas(far, s[..|s|-1]);
      InsertHas(far, FarFirst(far, s[..|s|-1]), s[|s|-1]);
      assert s == s[..|s|-1] + [s[|s|-1]];
    }
  }

  /** Sorting permutes and puts the farthest first. */
  lemma FarFirstSorts<A>(far: A -> real, s: seq<A>)
    ensures Receding(far, FarFirst(far, s)) && multiset(FarFirst(far, s)) == multiset(s)
  {
    FarFirstRecedes(far, s);
    FarFirstHas(far, s);
  }

  /** Sorting keeps the order of equally far elements. */
  lemma {:induction false} FarFirstStable<A>(far: A -> real, d: real, s: seq<A>)
    ensures At(far, d, FarFirst(far, s)) == At(far, d, s)
  {
    if s != [] {
      FarFirstStable(far, d, s[..|s|-1]);
      InsertStable(far, d, FarFirst(far, s[..|s|-1]), s[|s|-1]);
    }
  }

  // ---- The list ----

  function FarFrom(eye: Vec3): Particle -> real { (p: Particle) => p.pos.SquaredTo(eye) }

  function DrawnAdditive(ps: seq<Particle>): seq<Particle> { Take(Blended(Additive, ps), MAX_PARTICLES) }

  function DrawnAlpha(ps: seq<Particle>, eye: Vec3): seq<Particle>
  {
    Take(FarFirst(FarFrom(eye), Blended(Alpha, ps)), MAX_PARTICLES - |DrawnAdditive(ps)|)
  }

  method FillDrawList(ps: seq<Particle>, eye: Vec3) returns (out: seq<Instance>, additiveCount: nat)
    ensures out == Instances(DrawnAdditive(ps) + DrawnAlpha(ps, eye))
    ensures additiveCount == |DrawnAdditive(ps)|
  {
    out := [];
    for i := 0 to |ps|
      invariant out == Instances(Take(Blended(Additive, ps[..i]), MAX_PARTICLES))
    {
      assert ps[..i+1][..i] == ps[..i];
      if ps[i].blend == Additive && |out| < MAX_PARTICLES {
        out := out + [InstanceOf(ps[i])];
      }
    }
    assert ps[..|ps|] == ps;
    additiveCount := |out|;
    var alpha := FarFirst(FarFrom(eye), Blended(Alpha, ps));
    var k := 0;
    while k < |alpha| && |out| < MAX_PARTICLES
      invariant k <= |alpha| && additiveCount + k <= MAX_PARTICLES
      invariant out == Instances(DrawnAdditive(ps) + alpha[..k])
    {
      assert alpha[..k+1] == alpha[..k] + [alpha[k]];
      out := out + [InstanceOf(alpha[k])];
      k := k + 1;
    }
    assert alpha[..k] == DrawnAlpha(ps, eye);
  }

  lemma {:induction false} BlendsPartition(ps: seq<Particle>)
    ensures multiset(Blended(Additive, ps)) + multiset(Blended(Alpha, ps)) == multiset(ps)
    ensures |Blended(Additive, ps)| + |Blended(Alpha, ps)| == |ps|
  {
    if ps != [] {
      BlendsPartition(ps[..|ps|-1]);
      assert ps == ps[..|ps|-1] + [ps[|ps|-1]];
    }
  }

  /** As many particles are drawn as fit. */
  lemma DrawsWhatFits(ps: seq<Particle>, eye: Vec3)
    ensures |DrawnAdditive(ps) + DrawnAlpha(ps, eye)| == Least(MAX_PARTICLES, |ps|)
  {
    BlendsPartition(ps);
    FarFirstSorts(FarFrom(eye), Blended(Alpha, ps));
    SameSize(FarFirst(FarFrom(eye), Blended(Alpha, ps)), Blended(Alpha, ps));
  }

  lemma SameSize<A>(s: seq<A>, t: seq<A>)
    requires multiset(s) == multiset(t)
    ensures |s| == |t|
  {
    assert |multiset(s)| == |multiset(t)|;
  }

  lemma TakenAreFarthest<A>(far: A -> real, s: seq<A>, n: nat)
    requires Receding(far, s)
    ensures Receding(far, Take(s, n))
    ensures forall i, j :: 0 <= i < |Take(s, n)| <= j < |s| ==> far(Take(s, n)[i]) >= far(s[j])
  {
  }

  lemma TakenAndLeft<A>(s: seq<A>, n: nat)
    ensures |Take(s, n)| <= |s| && s == Take(s, n) + s[|Take(s, n)|..]
    ensures multiset(Take(s, n)) + multiset(s[|Take(s, n)|..]) == multiset(s)
  {
    assert s == Take(s, n) + s[|Take(s, n)|..];
  }

  /** Farthest first; what is left out is no farther than anything drawn. */
  lemma FarthestAreDrawn(ps: seq<Particle>, eye: Vec3)
    ensures var (all, drawn) := (FarFirst(FarFrom(eye), Blended(Alpha, ps)), DrawnAlpha(ps, eye));
      && Receding(FarFrom(eye), drawn) && |drawn| <= |all|
      && multiset(drawn) + multiset(all[|drawn|..]) == multiset(Blended(Alpha, ps))
      && forall i, j :: 0 <= i < |drawn| <= j < |all| ==> FarFrom(eye)(drawn[i]) >= FarFrom(eye)(all[j])
  {
    var all := FarFirst(FarFrom(eye), Blended(Alpha, ps));
    FarFirstSorts(FarFrom(eye), Blended(Alpha, ps));
    TakenAreFarthest(FarFrom(eye), all, MAX_PARTICLES - |DrawnAdditive(ps)|);
    TakenAndLeft(all, MAX_PARTICLES - |DrawnAdditive(ps)|);
  }

  /** A pool within its cap is drawn whole. */
  lemma PoolIsDrawnWhole(ps: seq<Particle>, eye: Vec3)
    requires |ps| <= MAX_PARTICLES
    ensures multiset(DrawnAdditive(ps) + DrawnAlpha(ps, eye)) == multiset(ps)
  {
    var alpha := Blended(Alpha, ps);
    BlendsPartition(ps);
    FarFirstSorts(FarFrom(eye), alpha);
    SameSize(FarFirst(FarFrom(eye), alpha), alpha);
  }

  /** After a frame every fade is a plain ratio in (0, 1]: the clamp never acts. */
  lemma FadeIsLifeLeft(f: Flow, es: seq<Emitter>, dt: real, i: nat)
    requires Everyone(Aged(), f.sim.pool) && |f.sim.pool| <= MAX_PARTICLES && dt >= 0.0
    requires i < |Frame(f, es, dt).sim.pool|
    ensures var p := Frame(f, es, dt).sim.pool[i]; p.life > 0.0 && Fade(p) == p.ttl / p.life && 0.0 < Fade(p) <= 1.0
  {
    FrameSound(f, es, dt);
    var p := Frame(f, es, dt).sim.pool[i];
    assert Alive()(p);
    RatioInRange(p.ttl, p.life);
  }

  lemma RatioInRange(a: real, b: real)
    requires 0.0 < a <= b
    ensures 0.0 < a / b <= 1.0
  {
  }
}
