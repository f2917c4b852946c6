/** How every message lies on the wire, byte by byte (game/vordar-protocol/src/lib.rs): the
    format of its integers, what rounding does halfway, and each message as its variant's
    index and its fields in order. */
module WireLayout {
  import opened Basics
  import opened Varint
  import opened WirePosition
  import opened FloatCoordinates
  import opened Codecs
  import opened Protocol
  import opened ProtocolRoundTrip

  // ---- Integers ----

  /** Seven bits a byte, low bits first. */
  function Value(bs: Bytes): nat
  {
    if bs == [] then 0 else bs[0] % 128 + 128 * Value(bs[1..])
  }

  /** Every byte but the last has its high bit set, and the last is no padding. */
  ghost predicate WellFormed(bs: Bytes)
  {
    && bs != [] && (forall i :: 0 <= i < |bs| - 1 ==> bs[i] >= 128)
    && bs[|bs|-1] < 128 && (|bs| > 1 ==> bs[|bs|-1] != 0)
  }

  lemma {:induction false} VarintIs(n: nat)
    ensures WellFormed(PutVarint(n)) && Value(PutVarint(n)) == n
  {
    if n < 128 {
      assert [n as byte][1..] == [];
    } else {
      VarintIs(n / 128);
      assert PutVarint(n)[1..] == PutVarint(n / 128);
    }
  }

  /** No other well-formed bytes have the same value. */
  lemma {:induction false} VarintOnly(bs: Bytes)
    requires WellFormed(bs)
    ensures PutVarint(Value(bs)) == bs
  {
    if |bs| > 1 {
      VarintOnly(bs[1..]);
      PositiveValue(bs[1..]);
    } else {
      assert bs[1..] == [];
    }
  }

  lemma {:induction false} PositiveValue(bs: Bytes)
    requires WellFormed(bs) && bs[|bs|-1] != 0
    ensures Value(bs) > 0
  {
    if |bs| > 1 {
      PositiveValue(bs[1..]);
    }
  }

  /** Signed integers alternate about zero: 0, -1, 1, -2, 2 and so on. */
  lemma ZigzagIs(v: i32)
    ensures v >= 0 ==> Zigzag(v) == 2 * v
    ensures v < 0 ==> Zigzag(v) == -2 * v - 1
  {
  }

  // ---- Rounding ----

  /** Halfway between two integers the one farther from zero is taken. */
  lemma HalvesGoOut(n: nat)
    ensures Round(n as real + 0.5) == n + 1 && Round(-(n as real) - 0.5) == -(n + 1 as int)
  {
  }

  /** Out of range is the end of the range. */
  lemma SaturateIs(n: int)
    ensures n > 0x7fff_ffff ==> Saturate(n) == 0x7fff_ffff
    ensures n < -0x8000_0000 ==> Saturate(n) == -0x8000_0000
    ensures -0x8000_0000 <= n <= 0x7fff_ffff ==> Saturate(n) == n
  {
  }

  /** Halfway between two floats the even one is taken. */
  lemma HalvesGoEven(a: nat, s: nat)
    requires s > 0 && 2 * (a % s) == s
    ensures NearestCount(a, s) % 2 == 0
  {
  }

  // ---- Lists and options ----

  /** A list is its length, then its elements in order. */
  lemma {:induction false} ElementsInOrder<T>(put: T -> Bytes, xs: seq<T>, ys: seq<T>, x: T)
    ensures PutAll(put, []) == [] && PutAll(put, [x]) == put(x)
    ensures PutAll(put, xs + ys) == PutAll(put, xs) + PutAll(put, ys)
    decreases |xs|
  {
    assert [x][1..] == [];
    if xs == [] {
      assert xs + ys == ys;
    } else {
      ElementsInOrder(put, xs[1..], ys, x);
      assert (xs + ys)[0] == xs[0] && (xs + ys)[1..] == xs[1..] + ys;
    }
  }

  function HpBytes(hp: Option<i32>): Bytes
  {
    match hp
    case None => [0]
    case Some(v) => [1] + PutVarint(Zigzag(v))
  }

  lemma HpIs(hp: Option<i32>)
    ensures Maybe(I32()).put(hp) == HpBytes(hp)
  {
  }

  // ---- Fields in order ----

  ghost predicate Writes<T>(c: Codec<T>, x: T, bytes: Bytes) { c.put(x) == bytes }

  lemma Two<A, B>(a: Codec<A>, b: Codec<B>, x: A, y: B, p: Bytes, q: Bytes)
    requires Writes(a, x, p) && Writes(b, y, q)
    ensures Writes(Pair(a, b), (x, y), p + q)
  {
  }

  lemma Three<A, B, C>(a: Codec<A>, b: Codec<B>, c: Codec<C>, x: A, y: B, z: C, p: Bytes, q: Bytes, r: Bytes)
    requires Writes(a, x, p) && Writes(b, y, q) && Writes(c, z, r)
    ensures Writes(Pair(a, Pair(b, c)), (x, (y, z)), p + q + r)
  {
    Two(b, c, y, z, q, r);
    Two(a, Pair(b, c), x, (y, z), p, q + r);
    Associates(p, q, r);
  }

  lemma Four<A, B, C, D>(a: Codec<A>, b: Codec<B>, c: Codec<C>, d: Codec<D>, w: A, x: B, y: C, z: D,
                         p: Bytes, q: Bytes, r: Bytes, s: Bytes)
    requires Writes(a, w, p) && Writes(b, x, q) && Writes(c, y, r) && Writes(d, z, s)
    ensures Writes(Pair(a, Pair(b, Pair(c, d))), (w, (x, (y, z))), p + q + r + s)
  {
    Two(c, d, y, z, r, s);
    Three(a, b, Pair(c, d), w, x, (y, z), p, q, r + s);
    Associates(p + q, r, s);
  }

  lemma Renamed<A, B>(c: Codec<A>, to: A -> B, from: B -> A, y: B, bytes: Bytes)
    requires Writes(c, from(y), bytes)
    ensures Writes(Through(c, to, from), y, bytes)
  {
  }

  lemma Words(x: u16, y: u32, z: u64, r: F32, t: Text)
    ensures Writes(U16(), x, PutVarint(x)) && Writes(U32(), y, PutVarint(y)) && Writes(U64(), z, PutVarint(z))
    ensures Writes(Raw4(), r, r) && Writes(TextCodec(), t, TextBytes(t))
  {
  }

  function TextBytes(t: Text): Bytes { PutVarint(|t|) + t }

  function ListBytes<T>(put: T -> Bytes, xs: List<T>): Bytes { PutVarint(|xs|) + PutAll(put, xs) }

  lemma ListIs<T>(c: Codec<T>, xs: List<T>)
    ensures Writes(ListOf(c), xs, ListBytes(c.put, xs))
  {
  }

  function Vec3Bytes(v: Vec3): Bytes { v.0 + v.1.0 + v.1.1 }

  lemma VectorsAre(v: Vec2, w: Vec3)
    ensures Writes(Vec2Codec(), v, v.0 + v.1) && Writes(Vec3Codec(), w, Vec3Bytes(w))
  {
    Words(0, 0, 0, v.0, []);
    Words(0, 0, 0, v.1, []);
    Words(0, 0, 0, w.0, []);
    Words(0, 0, 0, w.1.0, []);
    Words(0, 0, 0, w.1.1, []);
    Two(Raw4(), Raw4(), v.0, v.1, v.0, v.1);
    Three(Raw4(), Raw4(), Raw4(), w.0, w.1.0, w.1.1, w.0, w.1.0, w.1.1);
  }

  // ---- Structures ----

  /** A coordinate is its quantum, folded and written as a varint. */
  function AxisBytes(x: Coordinate): Bytes { PutVarint(Zigzag(Saturate(Round(x * 256.0)))) }

  function PosBytes(p: WirePos): Bytes { AxisBytes(p.x) + AxisBytes(p.y) + AxisBytes(p.z) }

  lemma AxisIs(x: Coordinate)
    ensures Writes(Axis(), x, AxisBytes(x))
  {
  }

  lemma PosIs(p: WirePos)
    ensures Writes(PosCodec(), p, PosBytes(p))
  {
    AxisIs(p.x);
    AxisIs(p.y);
    AxisIs(p.z);
    Three(Axis(), Axis(), Axis(), p.x, p.y, p.z, AxisBytes(p.x), AxisBytes(p.y), AxisBytes(p.z));
    Renamed(Pair(Axis(), Pair(Axis(), Axis())),
      (t: AxisFields) => WirePos(t.0, t.1.0, t.1.1), (p: WirePos) => (p.x, (p.y, p.z)), p, PosBytes(p));
  }

  lemma StateIs(e: EntityState)
    ensures Writes(StateCodec(), e, PutVarint(e.id) + PutVarint(e.prefab) + PosBytes(e.pos) + HpBytes(e.hp))
  {
    Words(e.prefab, e.id, 0, [0, 0, 0, 0], []);
    PosIs(e.pos);
    HpIs(e.hp);
    Four(U32(), U16(), PosCodec(), Maybe(I32()), e.id, e.prefab, e.pos, e.hp,
         PutVarint(e.id), PutVarint(e.prefab), PosBytes(e.pos), HpBytes(e.hp));
    Renamed(Pair(U32(), Pair(U16(), Pair(PosCodec(), Maybe(I32())))),
      (t: StateFields) => EntityState(t.0, t.1.0, t.1.1.0, t.1.1.1), (e: EntityState) => (e.id, (e.prefab, (e.pos, e.hp))),
      e, PutVarint(e.id) + PutVarint(e.prefab) + PosBytes(e.pos) + HpBytes(e.hp));
  }

  lemma EntityPosIs(e: EntityPos)
    ensures Writes(EntityPosCodec(), e, PutVarint(e.id) + PosBytes(e.pos) + HpBytes(e.hp))
  {
    Words(0, e.id, 0, [0, 0, 0, 0], []);
    PosIs(e.pos);
    HpIs(e.hp);
    Three(U32(), PosCodec(), Maybe(I32()), e.id, e.pos, e.hp, PutVarint(e.id), PosBytes(e.pos), HpBytes(e.hp));
    Renamed(Pair(U32(), Pair(PosCodec(), Maybe(I32()))),
      (t: PosFields) => EntityPos(t.0, t.1.0, t.1.1), (e: EntityPos) => (e.id, (e.pos, e.hp)),
      e, PutVarint(e.id) + PosBytes(e.pos) + HpBytes(e.hp));
  }

  lemma EntryIs(e: MoveIntentEntry)
    ensures Writes(EntryCodec(), e, PutVarint(e.number) + PutVarint(e.tServerMicros) + (e.dir.0 + e.dir.1))
  {
    Words(0, e.number, e.tServerMicros, [0, 0, 0, 0], []);
    VectorsAre(e.dir, (e.dir.0, e.dir));
    Three(U32(), U64(), Vec2Codec(), e.number, e.tServerMicros, e.dir,
          PutVarint(e.number), PutVarint(e.tServerMicros), e.dir.0 + e.dir.1);
    Renamed(Pair(U32(), Pair(U64(), Vec2Codec())),
      (t: EntryFields) => MoveIntentEntry(t.0, t.1.0, t.1.1), (e: MoveIntentEntry) => (e.number, (e.tServerMicros, e.dir)),
      e, PutVarint(e.number) + PutVarint(e.tServerMicros) + (e.dir.0 + e.dir.1));
  }

  function AddrBytes(a: SocketAddr): Bytes
  {
    match a
    case V4(ip, port) => [0] + (ip + PutVarint(port))
    case V6(ip, port) => [1] + (ip + PutVarint(port))
  }

  lemma AddrIs(a: SocketAddr)
    ensures Writes(Addr(), a, AddrBytes(a))
  {
    Words(a.port, 0, 0, [0, 0, 0, 0], []);
    match a
    case V4(ip, port) =>
      assert Writes(Raw4(), ip, ip);
      Two(Raw4(), U16(), ip, port, ip, PutVarint(port));
      Variant(0, Pair(Raw4(), U16()), (ip, port), ip + PutVarint(port));
    case V6(ip, port) =>
      assert Writes(Raw16(), ip, ip);
      Two(Raw16(), U16(), ip, port, ip, PutVarint(port));
      Variant(1, Pair(Raw16(), U16()), (ip, port), ip + PutVarint(port));
  }

  lemma Variant<P>(index: u32, c: Codec<P>, fields: P, bytes: Bytes)
    requires index < 128 && Writes(c, fields, bytes)
    ensures PutVariant(index, c, fields) == [index] + bytes
  {
  }

  // ---- Messages: the variant's index in one byte, then its fields in order ----

  ghost function ClientBytes(m: ClientMsg): Bytes
  {
    match m
    case MoveIntents(intents) => [0] + ListBytes(EntryCodec().put, intents)
    case CastIntent(number, t, skill, target) =>
      [1] + (PutVarint(number) + PutVarint(t) + TextBytes(skill) + (target.0 + target.1))
    case Login(name, token) => [2] + (TextBytes(name) + token)
  }

  lemma ClientVariants(a: Codec<List<MoveIntentEntry>>, b: Codec<CastFields>, c: Codec<LoginFields>, m: ClientMsg, bytes: Bytes)
    ensures m.MoveIntents? && Writes(a, m.intents, bytes) ==> Writes(ClientOf(a, b, c), m, [0] + bytes)
    ensures m.CastIntent? && Writes(b, (m.number, (m.tServerMicros, (m.skill, m.target))), bytes) ==>
      Writes(ClientOf(a, b, c), m, [1] + bytes)
    ensures m.Login? && Writes(c, (m.name, m.token), bytes) ==> Writes(ClientOf(a, b, c), m, [2] + bytes)
  {
    match m
    case MoveIntents(intents) =>
      if Writes(a, m.intents, bytes) { Variant(0, a, intents, bytes); }
    case CastIntent(number, t, skill, target) =>
      if Writes(b, (number, (t, (skill, target))), bytes) { Variant(1, b, (number, (t, (skill, target))), bytes); }
    case Login(name, token) =>
      if Writes(c, (name, token), bytes) { Variant(2, c, (name, token), bytes); }
  }

  lemma CastIs(number: u32, t: u64, skill: Text, target: Vec2)
    ensures Writes(CastBody(), (number, (t, (skill, target))),
                   PutVarint(number) + PutVarint(t) + TextBytes(skill) + (target.0 + target.1))
  {
    Words(0, number, t, [0, 0, 0, 0], skill);
    VectorsAre(target, (target.0, target));
    Four(U32(), U64(), TextCodec(), Vec2Codec(), number, t, skill, target,
         PutVarint(number), PutVarint(t), TextBytes(skill), target.0 + target.1);
  }

  lemma LoginIs(name: Text, token: Bytes32)
    ensures Writes(LoginBody(), (name, token), TextBytes(name) + token)
  {
    Words(0, 0, 0, [0, 0, 0, 0], name);
    assert Writes(Raw32(), token, token);
    Two(TextCodec(), Raw32(), name, token, TextBytes(name), token);
  }

  lemma ClientLayout(m: ClientMsg)
    ensures Writes(Client(), m, ClientBytes(m))
  {
    match m
    case MoveIntents(intents) =>
      ListIs(EntryCodec(), intents);
      ClientVariants(IntentsBody(), CastBody(), LoginBody(), m, ListBytes(EntryCodec().put, intents));
    case CastIntent(number, t, skill, target) =>
      CastIs(number, t, skill, target);
      ClientVariants(IntentsBody(), CastBody(), LoginBody(), m,
                     PutVarint(number) + PutVarint(t) + TextBytes(skill) + (target.0 + target.1));
    case Login(name, token) =>
      LoginIs(name, token);
      ClientVariants(IntentsBody(), CastBody(), LoginBody(), m, TextBytes(name) + token);
  }

  /** A message's index and the bytes of its fields. */
  ghost function IndexOf(m: ServerMsg): byte
  {
    match m
    case Welcome(_) => 0
    case PrefabTable(_) => 1
    case AoiDelta(_, _, _) => 2
    case Snapshot(_, _, _) => 3
    case MechanicScheduled(_, _, _, _, _, _) => 4
    case HitResult(_, _) => 5
    case WorldClock(_, _) => 6
    case Redirect(_, _) => 7
    case EntityDied(_, _) => 8
    case LoginDenied(_) => 9
  }

  ghost function FieldBytes(m: ServerMsg): Bytes
  {
    match m
    case Welcome(id) => PutVarint(id)
    case PrefabTable(names) => ListBytes(TextCodec().put, names)
    case AoiDelta(tick, enters, leaves) =>
      PutVarint(tick) + ListBytes(StateCodec().put, enters) + ListBytes(U32().put, leaves)
    case Snapshot(tick, last, states) => PutVarint(tick) + PutVarint(last) + ListBytes(EntityPosCodec().put, states)
    case MechanicScheduled(id, telegraph, at, radius, resolveAt, duration) =>
      PutVarint(id) + TextBytes(telegraph) + Vec3Bytes(at) + (radius + PutVarint(resolveAt) + PutVarint(duration))
    case HitResult(mechanic, hits) => PutVarint(mechanic) + ListBytes(U32().put, hits)
    case WorldClock(world, server) => PutVarint(world) + PutVarint(server)
    case Redirect(zone, addr) => TextBytes(zone) + AddrBytes(addr)
    case EntityDied(entity, at) => PutVarint(entity) + Vec3Bytes(at)
    case LoginDenied(reason) => [if reason == BadCredentials then 0 else 1]
  }

  /** The fields of one message under the codecs of its variants. */
  ghost predicate FieldsWrite(b: Bodies, m: ServerMsg, bytes: Bytes)
  {
    match m
    case Welcome(id) => Writes(b.welcome, id, bytes)
    case PrefabTable(names) => Writes(b.table, names, bytes)
    case AoiDelta(tick, enters, leaves) => Writes(b.delta, (tick, (enters, leaves)), bytes)
    case Snapshot(tick, last, states) => Writes(b.snapshot, (tick, (last, states)), bytes)
    case MechanicScheduled(id, telegraph, at, radius, resolveAt, duration) =>
      Writes(b.mechanic, (id, (telegraph, (at, (radius, (resolveAt, duration))))), bytes)
    case HitResult(mechanic, hits) => Writes(b.hit, (mechanic, hits), bytes)
    case WorldClock(world, server) => Writes(b.clock, (world, server), bytes)
    case Redirect(zone, addr) => Writes(b.redirect, (zone, addr), bytes)
    case EntityDied(entity, at) => Writes(b.died, (entity, at), bytes)
    case LoginDenied(reason) => Writes(b.denied, reason, bytes)
  }

  lemma ServerVariants(b: Bodies, m: ServerMsg, bytes: Bytes)
    requires FieldsWrite(b, m, bytes)
    ensures Put(b, m) == [IndexOf(m)] + bytes
  {
    match m
    case Welcome(id) => Variant(0, b.welcome, id, bytes);
    case PrefabTable(names) => Variant(1, b.table, names, bytes);
    case AoiDelta(tick, enters, leaves) => Variant(2, b.delta, (tick, (enters, leaves)), bytes);
    case Snapshot(tick, last, states) => Variant(3, b.snapshot, (tick, (last, states)), bytes);
    case MechanicScheduled(id, telegraph, at, radius, resolveAt, duration) =>
      Variant(4, b.mechanic, (id, (telegraph, (at, (radius, (resolveAt, duration))))), bytes);
    case HitResult(mechanic, hits) => Variant(5, b.hit, (mechanic, hits), bytes);
    case WorldClock(world, server) => Variant(6, b.clock, (world, server), bytes);
    case Redirect(zone, addr) => Variant(7, b.redirect, (zone, addr), bytes);
    case EntityDied(entity, at) => Variant(8, b.died, (entity, at), bytes);
    case LoginDenied(reason) => Variant(9, b.denied, reason, bytes);
  }

  lemma DeltaIs(tick: u64, enters: List<EntityState>, leaves: List<u32>)
    ensures Writes(DeltaBody(), (tick, (enters, leaves)),
                   PutVarint(tick) + ListBytes(StateCodec().put, enters) + ListBytes(U32().put, leaves))
  {
    Words(0, 0, tick, [0, 0, 0, 0], []);
    ListIs(StateCodec(), enters);
    ListIs(U32(), leaves);
    Three(U64(), ListOf(StateCodec()), ListOf(U32()), tick, enters, leaves,
          PutVarint(tick), ListBytes(StateCodec().put, enters), ListBytes(U32().put, leaves));
  }

  lemma SnapshotIs(tick: u64, last: u32, states: List<EntityPos>)
    ensures Writes(SnapshotBody(), (tick, (last, states)),
                   PutVarint(tick) + PutVarint(last) + ListBytes(EntityPosCodec().put, states))
  {
    Words(0, last, tick, [0, 0, 0, 0], []);
    ListIs(EntityPosCodec(), states);
    Three(U64(), U32(), ListOf(EntityPosCodec()), tick, last, states,
          PutVarint(tick), PutVarint(last), ListBytes(EntityPosCodec().put, states));
  }

  lemma MechanicIs(id: u64, telegraph: Text, at: Vec3, radius: F32, resolveAt: u64, duration: u64)
    ensures Writes(MechanicBody(), (id, (telegraph, (at, (radius, (resolveAt, duration))))),
      PutVarint(id) + TextBytes(telegraph) + Vec3Bytes(at) + (radius + PutVarint(resolveAt) + PutVarint(duration)))
  {
    var times := radius + PutVarint(resolveAt) + PutVarint(duration);
    Words(0, 0, id, radius, telegraph);
    Words(0, 0, resolveAt, radius, telegraph);
    Words(0, 0, duration, radius, telegraph);
    VectorsAre((radius, radius), at);
    Three(Raw4(), U64(), U64(), radius, resolveAt, duration, radius, PutVarint(resolveAt), PutVarint(duration));
    Four(U64(), TextCodec(), Vec3Codec(), Pair(Raw4(), Pair(U64(), U64())), id, telegraph, at, (radius, (resolveAt, duration)),
         PutVarint(id), TextBytes(telegraph), Vec3Bytes(at), times);
  }

  lemma ShortBodies(m: ServerMsg)
    requires !m.AoiDelta? && !m.Snapshot? && !m.MechanicScheduled?
    ensures FieldsWrite(ServerBodies(), m, FieldBytes(m))
  {
    match m
    case Welcome(id) => Words(0, id, 0, [0, 0, 0, 0], []);
    case PrefabTable(names) => ListIs(TextCodec(), names);
    case HitResult(mechanic, hits) =>
      Words(0, 0, mechanic, [0, 0, 0, 0], []);
      ListIs(U32(), hits);
      Two(U64(), ListOf(U32()), mechanic, hits, PutVarint(mechanic), ListBytes(U32().put, hits));
    case WorldClock(world, server) =>
      Words(0, 0, world, [0, 0, 0, 0], []);
      Words(0, 0, server, [0, 0, 0, 0], []);
      Two(U64(), U64(), world, server, PutVarint(world), PutVarint(server));
    case Redirect(zone, addr) =>
      Words(0, 0, 0, [0, 0, 0, 0], zone);
      AddrIs(addr);
      Two(TextCodec(), Addr(), zone, addr, TextBytes(zone), AddrBytes(addr));
    case EntityDied(entity, at) =>
      Words(0, entity, 0, [0, 0, 0, 0], []);
      VectorsAre((at.0, at.0), at);
      Two(U32(), Vec3Codec(), entity, at, PutVarint(entity), Vec3Bytes(at));
    case LoginDenied(reason) =>
  }

  lemma ServerLayout(m: ServerMsg)
    ensures Server().put(m) == [IndexOf(m)] + FieldBytes(m)
  {
    match m {
      case AoiDelta(tick, enters, leaves) => DeltaIs(tick, enters, leaves);
      case Snapshot(tick, last, states) => SnapshotIs(tick, last, states);
      case MechanicScheduled(id, telegraph, at, radius, resolveAt, duration) =>
        MechanicIs(id, telegraph, at, radius, resolveAt, duration);
      case _ => ShortBodies(m);
    }
    ServerVariants(ServerBodies(), m, FieldBytes(m));
  }
}
