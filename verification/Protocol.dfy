/** The messages between client and server, field by field as bytes
    (game/vordar-protocol/src/lib.rs): structures are their fields in order, enumerations
    the index of a variant and then its fields. Floats travel as their four bytes, entity
    positions as three quantised integers, addresses without flow label and scope. */
module Protocol {
  import opened Basics
  import opened Varint
  import opened WirePosition
  import opened FloatCoordinates
  import opened Codecs

  /** A float travels as its four bytes. */
  type F32 = Bytes4

  type Vec2 = (F32, F32)

  type Vec3 = (F32, (F32, F32))

  datatype WirePos = WirePos(x: Coordinate, y: Coordinate, z: Coordinate)

  datatype MoveIntentEntry = MoveIntentEntry(number: u32, tServerMicros: u64, dir: Vec2)

  datatype ClientMsg =
    | MoveIntents(intents: List<MoveIntentEntry>)
    | CastIntent(number: u32, tServerMicros: u64, skill: Text, target: Vec2)
    | Login(name: Text, token: Bytes32)

  datatype EntityState = EntityState(id: u32, prefab: u16, pos: WirePos, hp: Option<i32>)

  datatype EntityPos = EntityPos(id: u32, pos: WirePos, hp: Option<i32>)

  datatype DenyReason = BadCredentials | RateLimited

  datatype SocketAddr = V4(ip4: Bytes4, port: u16) | V6(ip6: Bytes16, port: u16)

  datatype ServerMsg =
    | Welcome(playerId: u32)
    | PrefabTable(names: List<Text>)
    | AoiDelta(tick: u64, enters: List<EntityState>, leaves: List<u32>)
    | Snapshot(tick: u64, lastProcessed: u32, states: List<EntityPos>)
    | MechanicScheduled(id: u64, telegraph: Text, at: Vec3, radius: F32, resolveAt: u64, duration: u64)
    | HitResult(mechanic: u64, hits: List<u32>)
    | WorldClock(world: u64, server: u64)
    | Redirect(zone: Text, addr: SocketAddr)
    | EntityDied(entity: u32, diedAt: Vec3)
    | LoginDenied(reason: DenyReason)

  // ---- Field codecs ----

  function PutI32(v: i32): Bytes { PutU32(Zigzag(v)) }

  function TakeI32(bs: Bytes): Read<i32> { ReadAs(TakeU32(bs), Unzigzag) }

  function I32(): Codec<i32> { Codec(PutI32, TakeI32, Same) }

  lemma LawfulI32()
    ensures Lawful(I32())
  {
    LawfulU32();
    forall v: i32, rest: Bytes ensures ReadsBack(I32(), v, rest)
    {
      assert ReadsBack(U32(), Zigzag(v), rest);
      ZigzagRoundTrip(v, 0);
    }
    forall bs: Bytes, more: Bytes ensures ExtendsBy(I32(), bs, more)
    {
      assert ExtendsBy(U32(), bs, more);
    }
  }

  function PutAxis(x: Coordinate): Bytes { PutI32(Quantise(x)) }

  function TakeAxis(bs: Bytes): Read<Coordinate> { ReadAs(TakeI32(bs), RestoreCoordinate) }

  function Axis(): Codec<Coordinate> { Codec(PutAxis, TakeAxis, Requantised) }

  lemma LawfulAxis()
    ensures Lawful(Axis())
  {
    LawfulI32();
    forall x: Coordinate, rest: Bytes ensures ReadsBack(Axis(), x, rest)
    {
      assert ReadsBack(I32(), Quantise(x), rest);
    }
    forall bs: Bytes, more: Bytes ensures ExtendsBy(Axis(), bs, more)
    {
      assert ExtendsBy(I32(), bs, more);
    }
    forall x: Coordinate ensures SettlesAt(Axis(), x)
    {
      SecondTripSame(x);
    }
  }

  type AxisFields = (Coordinate, (Coordinate, Coordinate))

  function PosCodec(): Codec<WirePos>
  {
    Through(Pair(Axis(), Pair(Axis(), Axis())),
      (t: AxisFields) => WirePos(t.0, t.1.0, t.1.1), (p: WirePos) => (p.x, (p.y, p.z)))
  }

  lemma LawfulPos()
    ensures Lawful(PosCodec())
  {
    LawfulAxis();
    LawfulPair(Axis(), Axis());
    LawfulPair(Axis(), Pair(Axis(), Axis()));
    LawfulThrough(Pair(Axis(), Pair(Axis(), Axis())),
      (t: AxisFields) => WirePos(t.0, t.1.0, t.1.1), (p: WirePos) => (p.x, (p.y, p.z)));
  }

  function Vec2Codec(): Codec<Vec2> { Pair(Raw4(), Raw4()) }

  function Vec3Codec(): Codec<Vec3> { Pair(Raw4(), Vec2Codec()) }

  type EntryFields = (u32, (u64, Vec2))

  function EntryCodec(): Codec<MoveIntentEntry>
  {
    Through(Pair(U32(), Pair(U64(), Vec2Codec())),
      (t: EntryFields) => MoveIntentEntry(t.0, t.1.0, t.1.1), (e: MoveIntentEntry) => (e.number, (e.tServerMicros, e.dir)))
  }

  type StateFields = (u32, (u16, (WirePos, Option<i32>)))

  function StateCodec(): Codec<EntityState>
  {
    Through(Pair(U32(), Pair(U16(), Pair(PosCodec(), Maybe(I32())))),
      (t: StateFields) => EntityState(t.0, t.1.0, t.1.1.0, t.1.1.1), (e: EntityState) => (e.id, (e.prefab, (e.pos, e.hp))))
  }

  type PosFields = (u32, (WirePos, Option<i32>))

  function EntityPosCodec(): Codec<EntityPos>
  {
    Through(Pair(U32(), Pair(PosCodec(), Maybe(I32()))),
      (t: PosFields) => EntityPos(t.0, t.1.0, t.1.1), (e: EntityPos) => (e.id, (e.pos, e.hp)))
  }

  lemma LawfulVecs()
    ensures Lawful(Vec2Codec()) && Lawful(Vec3Codec())
  {
    LawfulRaw();
    LawfulPair(Raw4(), Raw4());
    LawfulPair(Raw4(), Vec2Codec());
  }

  lemma LawfulEntry()
    ensures Lawful(EntryCodec())
  {
    LawfulU32();
    LawfulU64();
    LawfulVecs();
    LawfulPair(U64(), Vec2Codec());
    LawfulPair(U32(), Pair(U64(), Vec2Codec()));
    LawfulThrough(Pair(U32(), Pair(U64(), Vec2Codec())),
      (t: EntryFields) => MoveIntentEntry(t.0, t.1.0, t.1.1), (e: MoveIntentEntry) => (e.number, (e.tServerMicros, e.dir)));
  }

  lemma LawfulEntities()
    ensures Lawful(StateCodec()) && Lawful(EntityPosCodec())
  {
    LawfulU16();
    LawfulU32();
    LawfulI32();
    LawfulPos();
    LawfulMaybe(I32());
    LawfulPair(PosCodec(), Maybe(I32()));
    LawfulPair(U32(), Pair(PosCodec(), Maybe(I32())));
    LawfulThrough(Pair(U32(), Pair(PosCodec(), Maybe(I32()))),
      (t: PosFields) => EntityPos(t.0, t.1.0, t.1.1), (e: EntityPos) => (e.id, (e.pos, e.hp)));
    LawfulPair(U16(), Pair(PosCodec(), Maybe(I32())));
    LawfulPair(U32(), Pair(U16(), Pair(PosCodec(), Maybe(I32()))));
    LawfulThrough(Pair(U32(), Pair(U16(), Pair(PosCodec(), Maybe(I32())))),
      (t: StateFields) => EntityState(t.0, t.1.0, t.1.1.0, t.1.1.1), (e: EntityState) => (e.id, (e.prefab, (e.pos, e.hp))));
  }

  // ---- Enumerations ----

  /** One variant: its index, then its fields. */
  function PutVariant<P>(index: u32, c: Codec<P>, fields: P): Bytes { PutU32(index) + c.put(fields) }

  lemma VariantReads<P(!new)>(index: u32, c: Codec<P>, fields: P, rest: Bytes)
    requires Lawful(c)
    ensures TakeU32(PutVariant(index, c, fields) + rest) == Got(index, c.put(fields) + rest)
    ensures c.take(c.put(fields) + rest) == Got(c.norm(fields), rest)
  {
    LawfulU32();
    assert ReadsBack(U32(), index, c.put(fields) + rest) && ReadsBack(c, fields, rest);
    assert PutVariant(index, c, fields) + rest == PutU32(index) + (c.put(fields) + rest);
  }

  function PutReason(r: DenyReason): Bytes { PutU32(if r == BadCredentials then 0 else 1) }

  function TakeReason(bs: Bytes): Read<DenyReason>
  {
    match TakeU32(bs)
    case Fail => Fail
    case Got(i, rest) => if i == 0 then Got(BadCredentials, rest) else if i == 1 then Got(RateLimited, rest) else Fail
  }

  function Reason(): Codec<DenyReason> { Codec(PutReason, TakeReason, Same) }

  lemma LawfulReason()
    ensures Lawful(Reason())
  {
    LawfulU32();
    forall r: DenyReason, rest: Bytes ensures ReadsBack(Reason(), r, rest)
    {
      assert ReadsBack(U32(), if r == BadCredentials then 0 else 1, rest);
    }
    forall bs: Bytes, more: Bytes ensures ExtendsBy(Reason(), bs, more)
    {
      assert ExtendsBy(U32(), bs, more);
    }
  }

  function PutAddr(a: SocketAddr): Bytes
  {
    match a
    case V4(ip, port) => PutVariant(0, Pair(Raw4(), U16()), (ip, port))
    case V6(ip, port) => PutVariant(1, Pair(Raw16(), U16()), (ip, port))
  }

  function TakeAddr(bs: Bytes): Read<SocketAddr>
  {
    match TakeU32(bs)
    case Fail => Fail
    case Got(i, rest) =>
      if i == 0 then ReadAs(Pair(Raw4(), U16()).take(rest), (t: (Bytes4, u16)) => V4(t.0, t.1))
      else if i == 1 then ReadAs(Pair(Raw16(), U16()).take(rest), (t: (Bytes16, u16)) => V6(t.0, t.1))
      else Fail
  }

  function Addr(): Codec<SocketAddr> { Codec(PutAddr, TakeAddr, Same) }

  lemma LawfulAddr()
    ensures Lawful(Addr())
  {
    LawfulU32();
    LawfulU16();
    LawfulRaw();
    LawfulPair(Raw4(), U16());
    LawfulPair(Raw16(), U16());
    forall a: SocketAddr, rest: Bytes ensures ReadsBack(Addr(), a, rest)
    {
      match a
      case V4(ip, port) => VariantReads(0, Pair(Raw4(), U16()), (ip, port), rest);
      case V6(ip, port) => VariantReads(1, Pair(Raw16(), U16()), (ip, port), rest);
    }
    forall bs: Bytes, more: Bytes ensures ExtendsBy(Addr(), bs, more)
    {
      assert ExtendsBy(U32(), bs, more);
      if TakeU32(bs).Got? {
        assert ExtendsBy(Pair(Raw4(), U16()), TakeU32(bs).rest, more);
        assert ExtendsBy(Pair(Raw16(), U16()), TakeU32(bs).rest, more);
      }
    }
  }
}
