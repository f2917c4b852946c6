/** What holds over every run of bursts and frames (client/vordar-client/src/vfx.rs). */
module ParticleRuns {
  import opened Particles

  datatype Event = Burst(pos: Vec3, def: BurstDef) | Tick(emitters: seq<Emitter>, dt: real)

  function Next(up: bv32 -> (Vec3, bv32), f: Flow, ev: Event): Flow
  {
    match ev
    case Burst(pos, def) => f.(sim := SpawnMany(f.sim, SparkOf(up, pos, def), AfterSpark(up), def.count))
    case Tick(emitters, dt) => Frame(f, emitters, dt)
  }

  function Run(up: bv32 -> (Vec3, bv32), f: Flow, evs: seq<Event>): Flow
  {
    if evs == [] then f else Next(up, Run(up, f, evs[..|evs|-1]), evs[|evs|-1])
  }

  // ---- The pool ----

  function Least(a: nat, b: nat): nat { if a < b then a else b }

  /** The generator after `n` spawns. */
  function Advanced(rng: bv32, advance: bv32 -> bv32, n: nat): bv32
  {
    if n == 0 then rng else advance(Advanced(rng, advance, n-1))
  }

  function Made(rng: bv32, make: bv32 -> Particle, advance: bv32 -> bv32, n: nat): (r: seq<Particle>)
    ensures |r| == n
  {
    if n == 0 then [] else Made(rng, make, advance, n-1) + [make(Advanced(rng, advance, n-1))]
  }

  lemma {:induction false} SpawnsAll(s: Sim, make: bv32 -> Particle, advance: bv32 -> bv32, n: nat)
    requires |s.pool| + n <= MAX_PARTICLES
    ensures SpawnMany(s, make, advance, n) == Sim(s.pool + Made(s.rng, make, advance, n), Advanced(s.rng, advance, n))
  {
    if n > 0 {
      SpawnsAll(s, make, advance, n-1);
    }
  }

  /** Spawning fills the pool up to its cap and draws no further. */
  lemma SpawnsToTheCap(s: Sim, make: bv32 -> Particle, advance: bv32 -> bv32, n: nat)
    requires |s.pool| <= MAX_PARTICLES
    ensures var m := Least(n, MAX_PARTICLES - |s.pool|);
      SpawnMany(s, make, advance, n) == Sim(s.pool + Made(s.rng, make, advance, m), Advanced(s.rng, advance, m))
  {
    var m := Least(n, MAX_PARTICLES - |s.pool|);
    SpawnsAll(s, make, advance, m);
    if m < n {
      FullStays(s, make, advance, m, n);
    }
  }

  /** A property of particles that every new one has. */
  ghost predicate Everyone(ok: Particle -> bool, ps: seq<Particle>)
  {
    forall i :: 0 <= i < |ps| ==> ok(ps[i])
  }

  lemma {:induction false} SpawnsKeep(ok: Particle -> bool, s: Sim, make: bv32 -> Particle, advance: bv32 -> bv32, n: nat)
    requires Everyone(ok, s.pool) && forall x: bv32 :: ok(make(x))
    ensures Everyone(ok, SpawnMany(s, make, advance, n).pool)
    ensures |s.pool| <= MAX_PARTICLES ==> |SpawnMany(s, make, advance, n).pool| <= MAX_PARTICLES
  {
    if n > 0 {
      SpawnsKeep(ok, s, make, advance, n-1);
    }
  }

  /** The step keeps exactly the particles that outlive it, each as often as before. */
  lemma {:induction false} LivingIff(ps: seq<Particle>, p: Particle)
    ensures multiset(Living(ps))[p] == if p.ttl > 0.0 then multiset(ps)[p] else 0
    ensures |Living(ps)| <= |ps|
  {
    if ps != [] {
      LivingIff(ps[..|ps|-1], p);
      assert ps == ps[..|ps|-1] + [ps[|ps|-1]];
    }
  }

  lemma {:induction false} LivingKeep(ok: Particle -> bool, ps: seq<Particle>)
    requires forall i :: 0 <= i < |ps| && ps[i].ttl > 0.0 ==> ok(ps[i])
    ensures Everyone(ok, Living(ps)) && |Living(ps)| <= |ps|
  {
    if ps != [] {
      LivingKeep(ok, ps[..|ps|-1]);
    }
  }

  lemma {:induction false} EmitKeeps(ok: Particle -> bool, f: Flow, es: seq<Emitter>, dt: real)
    requires Everyone(ok, f.sim.pool) && forall e: Emitter, pos: Vec3, x: bv32 :: ok(Mote(x, e, pos))
    ensures Everyone(ok, EmitAll(f, es, dt).sim.pool)
    ensures |f.sim.pool| <= MAX_PARTICLES ==> |EmitAll(f, es, dt).sim.pool| <= MAX_PARTICLES
  {
    if es != [] {
      var (init, e) := (es[..|es|-1], es[|es|-1]);
      EmitKeeps(ok, f, init, dt);
      var g := EmitAll(f, init, dt);
      if e.pos.Some? {
        SpawnsKeep(ok, g.sim, MoteOf(e, e.pos.value), AfterMote(), Due(OwedTo(g.accum, e.entity) + Earned(e, dt)));
      }
    }
  }

  /** Alive, and no older than it was born to be. */
  function Alive(): Particle -> bool { (p: Particle) => 0.0 < p.ttl <= p.life }

  function Aged(): Particle -> bool { (p: Particle) => p.ttl <= p.life }

  /** After a frame every particle is alive; the pool is within its cap. */
  lemma FrameSound(f: Flow, es: seq<Emitter>, dt: real)
    requires Everyone(Aged(), f.sim.pool) && |f.sim.pool| <= MAX_PARTICLES && dt >= 0.0
    ensures Everyone(Alive(), Frame(f, es, dt).sim.pool) && |Frame(f, es, dt).sim.pool| <= MAX_PARTICLES
  {
    var moved := MovedAll(f.sim.pool, dt);
    forall i | 0 <= i < |moved| && moved[i].ttl > 0.0 ensures Alive()(moved[i])
    {
      assert Aged()(f.sim.pool[i]);
    }
    LivingKeep(Alive(), moved);
    EmitKeeps(Alive(), f.(sim := f.sim.(pool := Stepped(f.sim.pool, dt))), es, dt);
  }

  ghost predicate Forward(evs: seq<Event>)
  {
    forall i :: 0 <= i < |evs| && evs[i].Tick? ==> evs[i].dt >= 0.0
  }

  /** Over every run the pool stays within its cap and no particle outlives its life. */
  lemma {:induction false} RunSound(up: bv32 -> (Vec3, bv32), f: Flow, evs: seq<Event>)
    requires Everyone(Aged(), f.sim.pool) && |f.sim.pool| <= MAX_PARTICLES && Forward(evs)
    ensures Everyone(Aged(), Run(up, f, evs).sim.pool) && |Run(up, f, evs).sim.pool| <= MAX_PARTICLES
  {
    if evs != [] {
      var g := Run(up, f, evs[..|evs|-1]);
      RunSound(up, f, evs[..|evs|-1]);
      match evs[|evs|-1]
      case Burst(pos, def) =>
        SpawnsKeep(Aged(), g.sim, SparkOf(up, pos, def), AfterSpark(up), def.count);
      case Tick(emitters, dt) =>
        FrameSound(g, emitters, dt);
        var pool := Frame(g, emitters, dt).sim.pool;
        forall i | 0 <= i < |pool| ensures Aged()(pool[i])
        {
          assert Alive()(pool[i]);
        }
    }
  }

  // ---- What emitters are owed ----

  /** Motes charged to an emitter within one frame, pool full or not. */
  function FrameCharged(f: Flow, es: seq<Emitter>, entity: nat, dt: real): nat
  {
    if es == [] then 0
    else
      var (init, e) := (es[..|es|-1], es[|es|-1]);
      FrameCharged(f, init, entity, dt)
      + if e.entity == entity && e.pos.Some? then Due(OwedTo(EmitAll(f, init, dt).accum, entity) + Earned(e, dt)) else 0
  }

  function FrameEarned(es: seq<Emitter>, entity: nat, dt: real): real
  {
    if es == [] then 0.0
    else
      var e := es[|es|-1];
      FrameEarned(es[..|es|-1], entity, dt) + if e.entity == entity && e.pos.Some? then Earned(e, dt) else 0.0
  }

  lemma {:induction false} FrameAccount(f: Flow, es: seq<Emitter>, entity: nat, dt: real)
    ensures FrameCharged(f, es, entity, dt) as real + OwedTo(EmitAll(f, es, dt).accum, entity)
         == OwedTo(f.accum, entity) + FrameEarned(es, entity, dt)
  {
    if es != [] {
      FrameAccount(f, es[..|es|-1], entity, dt);
    }
  }

  /** Seen this frame or not: the debt is carried over, or forgotten. */
  lemma RetainedOwed(f: Flow, es: seq<Emitter>, entity: nat, dt: real)
    ensures var after := Frame(f, es, dt);
      var begun := f.(sim := f.sim.(pool := Stepped(f.sim.pool, dt)));
      OwedTo(after.accum, entity) == if entity in Seen(es) then OwedTo(EmitAll(begun, es, dt).accum, entity) else 0.0
  {
  }

  function Begun(f: Flow, dt: real): Flow { f.(sim := f.sim.(pool := Stepped(f.sim.pool, dt))) }

  function Charged(up: bv32 -> (Vec3, bv32), f: Flow, evs: seq<Event>, entity: nat): nat
  {
    if evs == [] then 0
    else
      Charged(up, f, evs[..|evs|-1], entity)
      + match evs[|evs|-1]
        case Burst(_, _) => 0
        case Tick(emitters, dt) => FrameCharged(Begun(Run(up, f, evs[..|evs|-1]), dt), emitters, entity, dt)
  }

  function TotalEarned(evs: seq<Event>, entity: nat): real
  {
    if evs == [] then 0.0
    else
      TotalEarned(evs[..|evs|-1], entity)
      + match evs[|evs|-1]
        case Burst(_, _) => 0.0
        case Tick(emitters, dt) => FrameEarned(emitters, entity, dt)
  }

  ghost predicate SeenThroughout(evs: seq<Event>, entity: nat)
  {
    forall i :: 0 <= i < |evs| && evs[i].Tick? ==> entity in Seen(evs[i].emitters)
  }

  /** For an emitter seen in every frame, motes charged and the fraction owed add up to
      rate times time, whatever else the run does. */
  lemma {:induction false} RunAccount(up: bv32 -> (Vec3, bv32), f: Flow, evs: seq<Event>, entity: nat)
    requires SeenThroughout(evs, entity)
    ensures Charged(up, f, evs, entity) as real + OwedTo(Run(up, f, evs).accum, entity)
         == OwedTo(f.accum, entity) + TotalEarned(evs, entity)
  {
    if evs != [] {
      var g := Run(up, f, evs[..|evs|-1]);
      RunAccount(up, f, evs[..|evs|-1], entity);
      match evs[|evs|-1]
      case Burst(_, _) =>
      case Tick(emitters, dt) =>
        FrameAccount(Begun(g, dt), emitters, entity, dt);
        RetainedOwed(g, emitters, entity, dt);
    }
  }

  ghost predicate Fractions(accum: map<nat, real>)
  {
    forall e :: e in accum ==> 0.0 <= accum[e] < 1.0
  }

  /** Nothing owed is negative: no emitter has a negative rate, no frame negative time. */
  ghost predicate Paying(evs: seq<Event>)
  {
    forall i :: 0 <= i < |evs| && evs[i].Tick? ==> PayingFrame(evs[i].emitters, evs[i].dt)
  }

  ghost predicate PayingFrame(es: seq<Emitter>, dt: real)
  {
    forall i :: 0 <= i < |es| ==> Earned(es[i], dt) >= 0.0
  }

  lemma {:induction false} FrameFractions(f: Flow, es: seq<Emitter>, dt: real)
    requires Fractions(f.accum) && PayingFrame(es, dt)
    ensures Fractions(EmitAll(f, es, dt).accum)
  {
    if es != [] {
      FrameFractions(f, es[..|es|-1], dt);
    }
  }

  lemma {:induction false} RunFractions(up: bv32 -> (Vec3, bv32), f: Flow, evs: seq<Event>)
    requires Fractions(f.accum) && Paying(evs)
    ensures Fractions(Run(up, f, evs).accum)
  {
    if evs != [] {
      var g := Run(up, f, evs[..|evs|-1]);
      RunFractions(up, f, evs[..|evs|-1]);
      match evs[|evs|-1]
      case Burst(_, _) =>
      case Tick(emitters, dt) => FrameFractions(Begun(g, dt), emitters, dt);
    }
  }

  /** From nothing owed, the motes charged are the whole part of rate times time. */
  lemma ChargedIsWholePart(up: bv32 -> (Vec3, bv32), f: Flow, evs: seq<Event>, entity: nat)
    requires f.accum == map[] && SeenThroughout(evs, entity) && Paying(evs)
    ensures Charged(up, f, evs, entity) == TotalEarned(evs, entity).Floor
  {
    RunAccount(up, f, evs, entity);
    RunFractions(up, f, evs);
  }
}
