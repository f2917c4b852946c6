/** How particles are born, move and are drawn (client/vordar-client/src/vfx.rs): what one
    spawn and one step do to a particle, what an emitter bears in a frame and over a run at a
    steady rate, and what an instance shows. */
module ParticleBirths {
  import opened Basics
  import opened XorShift
  import opened Particles
  import opened ParticleRuns
  import opened DrawList

  // ---- The generator ----

  /** The shifts are 13, 17 and 5, left, right and left. */
  lemma FirstWords()
    ensures NextWord()(1) == 270369 && NextWord()(270369) == 67634689
  {
    assert Mix13(1) == 8193 && Mix17(8193) == 8193 && Mix5(8193) == 270369;
    assert Mix13(270369) == 2214592545 && Mix17(2214592545) == 2214609441 && Mix5(2214609441) == 67634689;
  }

  /** The lower eight bits are thrown away. */
  lemma FractionSteps()
    ensures Fraction(0xFF) == 0.0 && Fraction(0x100) == 1.0 / 16777216.0
    ensures Fraction(0xFFFF_FFFF) == 16777215.0 / 16777216.0
  {
    assert 0xFF as bv32 >> 8 == 0 && 0x100 as bv32 >> 8 == 1 && 0xFFFF_FFFF as bv32 >> 8 == 0xFF_FFFF;
  }

  // ---- Births ----

  ghost predicate Between(x: real, low: real, high: real)
  {
    low <= x <= high || high <= x <= low
  }

  /** A share `k` of a speed. */
  ghost predicate Along(v: Vec3, dir: Vec3, speed: real, k: real)
  {
    v.x == dir.x * speed * k && v.y == dir.y * speed * k && v.z == dir.z * speed * k
  }

  ghost predicate HalfOrMore(v: Vec3, dir: Vec3, speed: real)
  {
    exists k: real :: 0.5 <= k < 1.0 && Along(v, dir, speed, k)
  }

  /** A share of a change, up or down, goes no farther than the change. */
  lemma Partway(change: real, t: real)
    requires 0.0 <= t <= 1.0
    ensures Between(Share(change, t), 0.0, change)
  {
    if change >= 0.0 {
      assert change * (1.0 - t) >= 0.0;
    } else {
      var down := -change;
      assert down * (1.0 - t) >= 0.0;
      assert down * t == -(change * t);
    }
  }

  ghost predicate IsSpark(p: Particle, dir: Vec3, pos: Vec3, def: BurstDef)
  {
    && p.pos == pos && HalfOrMore(p.vel, dir, def.speed) && p.axis == p.vel
    && p.ttl == p.life && Between(p.ttl, def.ttlMin, def.ttlMax)
    && p.size == def.size && p.color == def.color && p.gravity == def.gravity && p.drag == def.drag
    && p.cell == def.cell && p.blend == def.blend && p.stretch == def.stretch
  }

  lemma SparkFromIs(dir: Vec3, fast: real, long: real, pos: Vec3, def: BurstDef)
    requires 0.0 <= fast < 1.0 && 0.0 <= long < 1.0
    ensures IsSpark(SparkFrom(dir, fast, long, pos, def), dir, pos, def)
  {
    Partway(def.ttlMax - def.ttlMin, long);
    assert Along(SparkFrom(dir, fast, long, pos, def).vel, dir, def.speed, 0.5 + 0.5 * fast);
  }

  /** A spark flies from the burst's place along the direction drawn, at half its speed or more;
      its lifetime lies in the definition's range and starts whole; it stretches along its
      own flight. */
  lemma SparkIs(up: bv32 -> (Vec3, bv32), rng: bv32, pos: Vec3, def: BurstDef)
    ensures IsSpark(Spark(up, rng, pos, def), up(rng).0, pos, def)
  {
    SparkFromIs(up(rng).0, Draw(up(rng).1, 1), Draw(up(rng).1, 2), pos, def);
  }

  ghost predicate Near(x: real, y: real, r: real) { -r <= x - y < r }

  ghost predicate IsMote(p: Particle, e: Emitter, pos: Vec3)
  {
    && p.pos == pos && p.ttl == p.life == 0.28 && p.size == 0.07 && p.gravity == p.drag == 0.0
    && Near(p.vel.x, e.vel.x * 0.05, 0.2) && Near(p.vel.y, e.vel.y * 0.05, 0.2) && Near(p.vel.z, e.vel.z * 0.05, 0.2)
    && p.color == e.color && p.cell == e.cell && p.blend == e.blend && p.axis == e.vel
    && p.stretch == if e.stretch > 0.0 && Square(e.vel) > 0.0001 then e.stretch else 0.0
  }

  function Square(v: Vec3): real { v.x * v.x + v.y * v.y + v.z * v.z }

  lemma MoteFromIs(drawn: Vec3, e: Emitter, pos: Vec3)
    requires 0.0 <= drawn.x < 1.0 && 0.0 <= drawn.y < 1.0 && 0.0 <= drawn.z < 1.0
    ensures IsMote(MoteFrom(drawn, e, pos), e, pos)
  {
    assert e.vel.SquaredTo(Vec3(0.0, 0.0, 0.0)) == Square(e.vel);
  }

  /** A mote starts at its emitter with a twentieth of its velocity, give or take a fifth each
      way, lives 0.28 s, neither falls nor slows, and stretches along the emitter's flight if
      the emitter moves. */
  lemma MoteIs(rng: bv32, e: Emitter, pos: Vec3)
    ensures IsMote(Mote(rng, e, pos), e, pos)
  {
    MoteFromIs(Vec3(Draw(rng, 1), Draw(rng, 2), Draw(rng, 3)), e, pos);
  }

  // ---- Moving ----

  /** Gravity first, then drag, then the move; only place, velocity and time change. */
  lemma MovedIs(p: Particle, dt: real)
    ensures var q := Moved(p, dt);
      && q.ttl == p.ttl - dt
      && q.pos.x == p.pos.x + q.vel.x * dt && q.pos.y == p.pos.y + q.vel.y * dt && q.pos.z == p.pos.z + q.vel.z * dt
      && (p.drag * dt >= 1.0 ==> q.vel == Vec3(0.0, 0.0, 0.0))
      && (p.drag * dt < 1.0 ==>
           && q.vel.x == p.vel.x * (1.0 - p.drag * dt) && q.vel.z == p.vel.z * (1.0 - p.drag * dt)
           && q.vel.y == (p.vel.y + p.gravity * dt) * (1.0 - p.drag * dt))
      && q.(pos := p.pos, vel := p.vel, ttl := p.ttl) == p
  {
  }

  function Lives(): Particle -> bool { (p: Particle) => p.ttl > 0.0 }

  lemma {:induction false} LivingFilters(ps: seq<Particle>)
    ensures Living(ps) == Filter(Lives(), ps)
  {
    if ps != [] {
      LivingFilters(ps[..|ps|-1]);
    }
  }

  /** The step keeps, in order, the particles with more than `dt` to live, each moved. */
  lemma SteppedAre(ps: seq<Particle>, dt: real) returns (f: seq<nat>)
    ensures |Stepped(ps, dt)| == |f| && forall i, j :: 0 <= i < j < |f| ==> f[i] < f[j]
    ensures forall i :: 0 <= i < |f| ==> f[i] < |ps| && Stepped(ps, dt)[i] == Moved(ps[f[i]], dt)
    ensures forall k: nat :: k in f <==> k < |ps| && ps[k].ttl > dt
  {
    LivingFilters(MovedAll(ps, dt));
    f := FilterSelects(Lives(), MovedAll(ps, dt));
  }

  // ---- A frame's births ----

  /** `pool` is `before` and then `born` motes of `e`. */
  ghost predicate Bore(before: seq<Particle>, pool: seq<Particle>, e: Emitter, pos: Vec3, born: nat)
  {
    && |pool| == |before| + born && pool[..|before|] == before
    && forall i :: |before| <= i < |pool| ==> IsMote(pool[i], e, pos)
  }

  lemma {:induction false} MadeAt(rng: bv32, make: bv32 -> Particle, advance: bv32 -> bv32, n: nat, i: nat)
    requires i < n
    ensures Made(rng, make, advance, n)[i] == make(Advanced(rng, advance, i))
  {
    if i < n-1 {
      MadeAt(rng, make, advance, n-1, i);
    }
  }

  /** An emitter with a place this frame bears the whole motes it is due, or as many as there
      is room for, behind everything in the pool; what it still owes is the rest, charged
      whether or not there was room; no other emitter's debt changes. */
  lemma EmitterBears(f: Flow, e: Emitter, dt: real, debt: real)
    requires |f.sim.pool| <= MAX_PARTICLES && debt == OwedTo(f.accum, e.entity) + Earned(e, dt)
    ensures e.pos.None? ==> EmitOne(f, e, dt) == f
    ensures e.pos.Some? ==>
      var g := EmitOne(f, e, dt);
      && Bore(f.sim.pool, g.sim.pool, e, e.pos.value, Least(if debt >= 1.0 then debt.Floor else 0, MAX_PARTICLES - |f.sim.pool|))
      && g.accum == f.accum[e.entity := debt - (if debt >= 1.0 then debt.Floor else 0) as real]
  {
    if e.pos.Some? {
      var (make, advance) := (MoteOf(e, e.pos.value), AfterMote());
      SpawnsToTheCap(f.sim, make, advance, Due(debt));
      var m := Least(Due(debt), MAX_PARTICLES - |f.sim.pool|);
      forall i | 0 <= i < m
        ensures IsMote(Made(f.sim.rng, make, advance, m)[i], e, e.pos.value)
      {
        MadeAt(f.sim.rng, make, advance, m, i);
        MoteIs(Advanced(f.sim.rng, advance, i), e, e.pos.value);
      }
    }
  }

  lemma EmitAllLast(f: Flow, es: seq<Emitter>, e: Emitter, dt: real)
    ensures EmitAll(f, es + [e], dt) == EmitOne(EmitAll(f, es, dt), e, dt)
  {
    assert (es + [e])[..|es|] == es;
  }

  lemma {:induction false} PoolGrows(f: Flow, es: seq<Emitter>, dt: real)
    requires |f.sim.pool| <= MAX_PARTICLES
    ensures var pool := EmitAll(f, es, dt).sim.pool;
      |f.sim.pool| <= |pool| <= MAX_PARTICLES && pool[..|f.sim.pool|] == f.sim.pool
  {
    if es != [] {
      var (init, e) := (es[..|es|-1], es[|es|-1]);
      PoolGrows(f, init, dt);
      EmitAllLast(f, init, e, dt);
      assert es == init + [e];
      var g := EmitAll(f, init, dt);
      EmitterBears(g, e, dt, OwedTo(g.accum, e.entity) + Earned(e, dt));
    }
  }

  /** A frame steps the old particles first: this frame's motes follow them, unmoved. */
  lemma FrameBears(f: Flow, es: seq<Emitter>, dt: real)
    requires |f.sim.pool| <= MAX_PARTICLES
    ensures var (old', pool) := (Stepped(f.sim.pool, dt), Frame(f, es, dt).sim.pool);
      |old'| <= |pool| <= MAX_PARTICLES && pool[..|old'|] == old'
  {
    var kept := SteppedAre(f.sim.pool, dt);
    if |kept| > |f.sim.pool| {
      RisingFits(kept, |f.sim.pool|);
    }
    PoolGrows(Begun(f, dt), es, dt);
  }

  lemma {:induction false} RisingFits(f: seq<nat>, n: nat)
    requires (forall i, j :: 0 <= i < j < |f| ==> f[i] < f[j]) && forall i :: 0 <= i < |f| ==> f[i] < n
    ensures |f| <= n
  {
    if f != [] {
      RisingFits(f[..|f|-1], f[|f|-1]);
    }
  }

  // ---- A steady emitter ----

  /** The emitter has one component, with a place, at this rate. */
  ghost predicate Steady(es: seq<Emitter>, entity: nat, rate: real)
  {
    exists i :: 0 <= i < |es| && OnlyAt(es, entity, rate, i)
  }

  ghost predicate OnlyAt(es: seq<Emitter>, entity: nat, rate: real, i: nat)
    requires i < |es|
  {
    && es[i].entity == entity && es[i].pos.Some? && es[i].rate == rate
    && forall j :: 0 <= j < |es| && j != i ==> es[j].entity != entity
  }

  lemma {:induction false} AbsentEarns(es: seq<Emitter>, entity: nat, dt: real)
    requires forall j :: 0 <= j < |es| ==> es[j].entity != entity
    ensures FrameEarned(es, entity, dt) == 0.0
  {
    if es != [] {
      AbsentEarns(es[..|es|-1], entity, dt);
    }
  }

  lemma {:induction false} SteadyEarns(es: seq<Emitter>, entity: nat, rate: real, dt: real, i: nat)
    requires i < |es| && OnlyAt(es, entity, rate, i)
    ensures FrameEarned(es, entity, dt) == rate * dt
  {
    if i < |es| - 1 {
      SteadyEarns(es[..|es|-1], entity, rate, dt, i);
    } else {
      AbsentEarns(es[..|es|-1], entity, dt);
    }
  }

  function Elapsed(evs: seq<Event>): real
  {
    if evs == [] then 0.0
    else Elapsed(evs[..|evs|-1]) + match evs[|evs|-1] case Burst(_, _) => 0.0 case Tick(_, dt) => dt
  }

  ghost predicate SteadyThroughout(evs: seq<Event>, entity: nat, rate: real)
  {
    forall i :: 0 <= i < |evs| && evs[i].Tick? ==> Steady(evs[i].emitters, entity, rate)
  }

  lemma Distributes(rate: real, a: real, b: real)
    ensures rate * (a + b) == rate * a + rate * b
  {
  }

  lemma {:induction false} SteadyTotal(evs: seq<Event>, entity: nat, rate: real)
    requires SteadyThroughout(evs, entity, rate)
    ensures TotalEarned(evs, entity) == rate * Elapsed(evs)
  {
    if evs != [] {
      var (init, last) := (evs[..|evs|-1], evs[|evs|-1]);
      SteadyTotal(init, entity, rate);
      match last
      case Burst(_, _) =>
      case Tick(es, dt) =>
        assert Steady(es, entity, rate);
        var i: nat :| i < |es| && OnlyAt(es, entity, rate, i);
        SteadyEarns(es, entity, rate, dt, i);
        Distributes(rate, Elapsed(init), dt);
    }
  }

  /** An emitter seen in every frame at one rate is charged, over any run from nothing owed,
      the whole part of its rate times the time gone by, however the frames cut that time. */
  lemma SteadyCharge(up: bv32 -> (Vec3, bv32), f: Flow, evs: seq<Event>, entity: nat, rate: real)
    requires f.accum == map[] && SteadyThroughout(evs, entity, rate) && Paying(evs)
    ensures Charged(up, f, evs, entity) == (rate * Elapsed(evs)).Floor
  {
    SteadyTotal(evs, entity, rate);
    forall i | 0 <= i < |evs| && evs[i].Tick?
      ensures entity in Seen(evs[i].emitters)
    {
      assert Steady(evs[i].emitters, entity, rate);
      var k: nat :| k < |evs[i].emitters| && OnlyAt(evs[i].emitters, entity, rate, k);
    }
    ChargedIsWholePart(up, f, evs, entity);
  }

  // ---- Drawing ----

  function Of(blend: Blend): Particle -> bool { (p: Particle) => p.blend == blend }

  lemma {:induction false} BlendedFilters(blend: Blend, ps: seq<Particle>)
    ensures Blended(blend, ps) == Filter(Of(blend), ps)
  {
    if ps != [] {
      BlendedFilters(blend, ps[..|ps|-1]);
    }
  }

  /** The additive particles drawn are the pool's first that many, in pool order. */
  lemma AdditiveAre(ps: seq<Particle>) returns (f: seq<nat>)
    ensures Picks(ps, f, Blended(Additive, ps)) && forall k: nat :: k in f <==> k < |ps| && ps[k].blend == Additive
    ensures DrawnAdditive(ps) == Blended(Additive, ps)[..Least(|f|, MAX_PARTICLES)]
  {
    BlendedFilters(Additive, ps);
    f := FilterSelects(Of(Additive), ps);
  }

  /** Far is far in a straight line. */
  lemma FarFromIs(p: Particle, eye: Vec3)
    ensures FarFrom(eye)(p) == Square(Vec3(p.pos.x - eye.x, p.pos.y - eye.y, p.pos.z - eye.z))
  {
  }

  /** A living particle is drawn where it is, shrunk and darkened by the share of its life
      that is left. */
  lemma InstanceIs(p: Particle)
    requires 0.0 < p.ttl <= p.life
    ensures var q := InstanceOf(p);
      && q.position == p.pos && q.axis == p.axis && q.stretch == p.stretch && q.cell == p.cell
      && q.fade * p.life == p.ttl && q.size == p.size * q.fade
      && q.color == Vec3(p.color.x * q.fade, p.color.y * q.fade, p.color.z * q.fade)
  {
    RatioInRange(p.ttl, p.life);
    assert p.ttl / p.life * p.life == p.ttl;
  }
}
