/** The client's particle pool (client/vordar-client/src/vfx.rs). */
module Particles {
  import opened Basics
  import opened XorShift

  const MAX_PARTICLES: nat := 4096
  const TRAIL_TTL: real := 0.28
  const TRAIL_SIZE: real := 0.07

  datatype Vec3 = Vec3(x: real, y: real, z: real)
  {
    function Plus(v: Vec3): Vec3 { Vec3(x + v.x, y + v.y, z + v.z) }

    function Times(k: real): Vec3 { Vec3(x * k, y * k, z * k) }

    function SquaredTo(v: Vec3): real
    {
      (x - v.x) * (x - v.x) + (y - v.y) * (y - v.y) + (z - v.z) * (z - v.z)
    }
  }

  datatype Blend = Additive | Alpha

  datatype Particle = Particle(pos: Vec3, vel: Vec3, ttl: real, life: real, size: real, color: Vec3, gravity: real,
                               drag: real, cell: nat, blend: Blend, stretch: real, axis: Vec3)

  datatype BurstDef = BurstDef(count: nat, speed: real, size: real, color: Vec3, cell: nat, blend: Blend,
                               ttlMin: real, ttlMax: real, gravity: real, drag: real, stretch: real)

  /** A `VfxTrail` entity; `pos` is its render position, if it has one this frame. */
  datatype Emitter = Emitter(entity: nat, pos: Option<Vec3>, vel: Vec3, rate: real, color: Vec3, cell: nat,
                             blend: Blend, stretch: real)

  // ---- What one spawn does ----

  /** A radial spark. `up` gives the upward direction drawn and the generator after it. */
  function Spark(up: bv32 -> (Vec3, bv32), rng: bv32, pos: Vec3, def: BurstDef): Particle
  {
    var (dir, x) := up(rng);
    SparkFrom(dir, Draw(x, 1), Draw(x, 2), pos, def)
  }

  function Share(of: real, t: real): real { of * t }

  function SparkFrom(dir: Vec3, fast: real, long: real, pos: Vec3, def: BurstDef): Particle
  {
    var ttl := def.ttlMin + Share(def.ttlMax - def.ttlMin, long);
    var vel := dir.Times(def.speed).Times(0.5 + 0.5 * fast);
    Particle(pos, vel, ttl, ttl, def.size, def.color, def.gravity, def.drag, def.cell, def.blend, def.stretch, vel)
  }

  function Mote(rng: bv32, e: Emitter, pos: Vec3): Particle
  {
    MoteFrom(Vec3(Draw(rng, 1), Draw(rng, 2), Draw(rng, 3)), e, pos)
  }

  function MoteFrom(drawn: Vec3, e: Emitter, pos: Vec3): Particle
  {
    var jitter := Vec3(drawn.x - 0.5, drawn.y - 0.5, drawn.z - 0.5).Times(0.4);
    Particle(pos, jitter.Plus(e.vel.Times(0.05)), TRAIL_TTL, TRAIL_TTL, TRAIL_SIZE, e.color, 0.0, 0.0, e.cell, e.blend,
             if e.stretch > 0.0 && e.vel.SquaredTo(Vec3(0.0, 0.0, 0.0)) > 0.0001 then e.stretch else 0.0, e.vel)
  }

  /** Pool and generator. */
  datatype Sim = Sim(pool: seq<Particle>, rng: bv32)

  /** One spawn: nothing at all when the pool is full. */
  function Spawn(s: Sim, make: bv32 -> Particle, advance: bv32 -> bv32): Sim
  {
    if |s.pool| >= MAX_PARTICLES then s else Sim(s.pool + [make(s.rng)], advance(s.rng))
  }

  function SpawnMany(s: Sim, make: bv32 -> Particle, advance: bv32 -> bv32, n: nat): Sim
  {
    if n == 0 then s else Spawn(SpawnMany(s, make, advance, n-1), make, advance)
  }

  function SparkOf(up: bv32 -> (Vec3, bv32), pos: Vec3, def: BurstDef): bv32 -> Particle
  {
    (x: bv32) => Spark(up, x, pos, def)
  }

  function AfterSpark(up: bv32 -> (Vec3, bv32)): bv32 -> bv32 { (x: bv32) => After(up(x).1, 2) }

  function MoteOf(e: Emitter, pos: Vec3): bv32 -> Particle { (x: bv32) => Mote(x, e, pos) }

  function AfterMote(): bv32 -> bv32 { (x: bv32) => After(x, 3) }

  // ---- One frame ----

  function Moved(p: Particle, dt: real): Particle
  {
    var vel := p.vel.(y := p.vel.y + p.gravity * dt);
    var damp := if 1.0 - p.drag * dt > 0.0 then 1.0 - p.drag * dt else 0.0;
    var v := vel.Times(damp);
    p.(vel := v, pos := p.pos.Plus(v.Times(dt)), ttl := p.ttl - dt)
  }

  function MovedAll(ps: seq<Particle>, dt: real): (r: seq<Particle>)
    ensures |r| == |ps| && forall i :: 0 <= i < |r| ==> r[i] == Moved(ps[i], dt)
  {
    seq(|ps|, i requires 0 <= i < |ps| => Moved(ps[i], dt))
  }

  /** The particles still alive, in order. */
  function Living(ps: seq<Particle>): seq<Particle>
  {
    if ps == [] then []
    else if ps[|ps|-1].ttl > 0.0 then Living(ps[..|ps|-1]) + [ps[|ps|-1]]
    else Living(ps[..|ps|-1])
  }

  function Stepped(ps: seq<Particle>, dt: real): seq<Particle> { Living(MovedAll(ps, dt)) }

  /** Whole motes in a debt. */
  function Due(owed: real): nat { if owed >= 1.0 then owed.Floor else 0 }

  datatype Flow = Flow(sim: Sim, accum: map<nat, real>)

  function OwedTo(accum: map<nat, real>, entity: nat): real { if entity in accum then accum[entity] else 0.0 }

  /** Motes for the whole part of the debt; the fraction stays owed. */
  function Charge(f: Flow, e: Emitter, pos: Vec3, owed: real): Flow
  {
    Flow(SpawnMany(f.sim, MoteOf(e, pos), AfterMote(), Due(owed)), f.accum[e.entity := owed - Due(owed) as real])
  }

  function Earned(e: Emitter, dt: real): real { e.rate * dt }

  function EmitOne(f: Flow, e: Emitter, dt: real): Flow
  {
    match e.pos
    case None => f
    case Some(pos) => Charge(f, e, pos, OwedTo(f.accum, e.entity) + Earned(e, dt))
  }

  function EmitAll(f: Flow, es: seq<Emitter>, dt: real): Flow
  {
    if es == [] then f else EmitOne(EmitAll(f, es[..|es|-1], dt), es[|es|-1], dt)
  }

  /** The emitters with a render position this frame. */
  function Seen(es: seq<Emitter>): set<nat>
  {
    set i | 0 <= i < |es| && es[i].pos.Some? :: es[i].entity
  }

  /** Debts of emitters not seen this frame are forgotten. */
  function Retained(accum: map<nat, real>, es: seq<Emitter>): map<nat, real>
  {
    map e | e in accum && e in Seen(es) :: accum[e]
  }

  function Frame(f: Flow, es: seq<Emitter>, dt: real): Flow
  {
    var g := EmitAll(f.(sim := f.sim.(pool := Stepped(f.sim.pool, dt))), es, dt);
    g.(accum := Retained(g.accum, es))
  }

  // ---- The pool ----

  class ParticleSim {
    const up: bv32 -> (Vec3, bv32)
    var particles: seq<Particle>
    var rng: bv32

    function Now(): Sim
      reads this
    {
      Sim(particles, rng)
    }

    constructor (seed: bv32, up: bv32 -> (Vec3, bv32))
      ensures particles == [] && rng == if seed == 0 then 1 else seed
      ensures this.up == up
    {
      this.up := up;
      particles := [];
      rng := if seed == 0 then 1 else seed;
    }

    method BurstFrom(pos: Vec3, def: BurstDef)
      modifies this
      ensures Now() == SpawnMany(old(Now()), SparkOf(up, pos, def), AfterSpark(up), def.count)
    {
      for k := 0 to def.count
        invariant Now() == SpawnMany(old(Now()), SparkOf(up, pos, def), AfterSpark(up), k)
      {
        if |particles| >= MAX_PARTICLES {
          FullStays(old(Now()), SparkOf(up, pos, def), AfterSpark(up), k, def.count);
          return;
        }
        particles, rng := particles + [Spark(up, rng, pos, def)], After(up(rng).1, 2);
      }
    }

    method Trail(e: Emitter, pos: Vec3)
      modifies this
      ensures Now() == Spawn(old(Now()), MoteOf(e, pos), AfterMote())
    {
      if |particles| >= MAX_PARTICLES {
        return;
      }
      particles, rng := particles + [Mote(rng, e, pos)], After(rng, 3);
    }

    method Step(dt: real)
      modifies this
      ensures particles == Stepped(old(particles), dt) && rng == old(rng)
    {
      for i := 0 to |particles|
        invariant |particles| == |old(particles)| && rng == old(rng)
        invariant forall k :: 0 <= k < |particles| ==>
          particles[k] == if k < i then Moved(old(particles)[k], dt) else old(particles)[k]
      {
        particles := particles[i := Moved(particles[i], dt)];
      }
      assert particles == MovedAll(old(particles), dt);
      particles := Living(particles);
    }
  }

  lemma {:induction false} FullStays(s: Sim, make: bv32 -> Particle, advance: bv32 -> bv32, k: nat, n: nat)
    requires k <= n && |SpawnMany(s, make, advance, k).pool| >= MAX_PARTICLES
    ensures SpawnMany(s, make, advance, n) == SpawnMany(s, make, advance, k)
  {
    if k < n {
      FullStays(s, make, advance, k, n-1);
    }
  }

  // ---- The system ----

  class VfxSystem {
    var accum: map<nat, real>

    constructor ()
      ensures accum == map[]
    {
      accum := map[];
    }

    /** Pays off the whole motes of a debt. */
    method Emit(sim: ParticleSim, e: Emitter, pos: Vec3, debt: real)
      modifies this, sim
      ensures Flow(sim.Now(), accum) == Charge(old(Flow(sim.Now(), accum)), e, pos, debt)
    {
      ghost var start := sim.Now();
      ghost var k: nat := 0;
      var owed := debt;
      while owed >= 1.0
        invariant debt == owed + k as real && k <= Due(debt) && (owed < 1.0 ==> k == Due(debt))
        invariant sim.Now() == SpawnMany(start, MoteOf(e, pos), AfterMote(), k)
        invariant accum == old(accum)
        decreases Due(debt) - k
      {
        owed := owed - 1.0;
        sim.Trail(e, pos);
        k := k + 1;
      }
      accum := accum[e.entity := owed];
    }

    method Emissions(sim: ParticleSim, emitters: seq<Emitter>, dt: real)
      modifies this, sim
      ensures Flow(sim.Now(), accum) == EmitAll(old(Flow(sim.Now(), accum)), emitters, dt)
    {
      for i := 0 to |emitters|
        invariant Flow(sim.Now(), accum) == EmitAll(old(Flow(sim.Now(), accum)), emitters[..i], dt)
      {
        assert emitters[..i+1][..i] == emitters[..i];
        var e := emitters[i];
        match e.pos {
          case None =>
          case Some(pos) => Emit(sim, e, pos, OwedTo(accum, e.entity) + Earned(e, dt));
        }
      }
      assert emitters[..|emitters|] == emitters;
    }

    method Run(sim: ParticleSim, emitters: seq<Emitter>, dt: real)
      modifies this, sim
      ensures Flow(sim.Now(), accum) == Frame(old(Flow(sim.Now(), accum)), emitters, dt)
    {
      sim.Step(dt);
      Emissions(sim, emitters, dt);
      accum := Retained(accum, emitters);
    }
  }
}
