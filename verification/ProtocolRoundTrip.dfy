/** Every message survives the wire, positions up to their quantum
    (game/vordar-protocol/src/lib.rs). */
module ProtocolRoundTrip {
  import opened Basics
  import opened Varint
  import opened WirePosition
  import opened FloatCoordinates
  import opened Codecs
  import opened Protocol

  // ---- Client messages ----

  function IntentsBody(): Codec<List<MoveIntentEntry>> { ListOf(EntryCodec()) }

  type CastFields = (u32, (u64, (Text, Vec2)))

  type LoginFields = (Text, Bytes32)

  function CastBody(): Codec<CastFields> { Pair(U32(), Pair(U64(), Pair(TextCodec(), Vec2Codec()))) }

  function LoginBody(): Codec<LoginFields> { Pair(TextCodec(), Raw32()) }

  function PutClient(a: Codec<List<MoveIntentEntry>>, b: Codec<CastFields>, c: Codec<LoginFields>): ClientMsg -> Bytes
  {
    (m: ClientMsg) =>
      match m
      case MoveIntents(intents) => PutVariant(0, a, intents)
      case CastIntent(number, t, skill, target) => PutVariant(1, b, (number, (t, (skill, target))))
      case Login(name, token) => PutVariant(2, c, (name, token))
  }

  function TakeClient(a: Codec<List<MoveIntentEntry>>, b: Codec<CastFields>, c: Codec<LoginFields>): Bytes -> Read<ClientMsg>
  {
    (bs: Bytes) =>
      match TakeU32(bs)
      case Fail => Fail
      case Got(i, rest) =>
        if i == 0 then ReadAs(a.take(rest), (xs: List<MoveIntentEntry>) => MoveIntents(xs))
        else if i == 1 then ReadAs(b.take(rest), (t: CastFields) => CastIntent(t.0, t.1.0, t.1.1.0, t.1.1.1))
        else if i == 2 then ReadAs(c.take(rest), (t: LoginFields) => Login(t.0, t.1))
        else Fail
  }

  function ClientOf(a: Codec<List<MoveIntentEntry>>, b: Codec<CastFields>, c: Codec<LoginFields>): Codec<ClientMsg>
  {
    Codec(PutClient(a, b, c), TakeClient(a, b, c), Same)
  }

  function Client(): Codec<ClientMsg> { ClientOf(IntentsBody(), CastBody(), LoginBody()) }

  ghost predicate Faithful<T(!new)>(c: Codec<T>)
  {
    Lawful(c) && forall x: T :: c.norm(x) == x
  }

  lemma FaithfulPair<A(!new), B(!new)>(a: Codec<A>, b: Codec<B>)
    requires Faithful(a) && Faithful(b)
    ensures Faithful(Pair(a, b))
  {
    LawfulPair(a, b);
    forall x: (A, B) ensures Pair(a, b).norm(x) == x
    {
      assert x == (x.0, x.1);
      assert Pair(a, b).norm(x) == (a.norm(x.0), b.norm(x.1));
    }
  }

  lemma FaithfulList<T(!new)>(c: Codec<T>)
    requires Faithful(c)
    ensures Faithful(ListOf(c))
  {
    LawfulList(c);
    forall xs: List<T> ensures ListOf(c).norm(xs) == xs
    {
      assert NormAll(c.norm, xs) == xs;
    }
  }

  lemma FaithfulFields()
    ensures Faithful(U16()) && Faithful(U32()) && Faithful(U64()) && Faithful(TextCodec())
    ensures Faithful(Raw4()) && Faithful(Raw16()) && Faithful(Raw32())
    ensures Faithful(Vec2Codec()) && Faithful(Vec3Codec())
  {
    LawfulU16();
    LawfulU32();
    LawfulU64();
    LawfulText();
    LawfulRaw();
    FaithfulPair(Raw4(), Raw4());
    FaithfulPair(Raw4(), Vec2Codec());
  }

  lemma FaithfulEntry()
    ensures Faithful(EntryCodec())
  {
    FaithfulFields();
    LawfulEntry();
    FaithfulPair(U64(), Vec2Codec());
    FaithfulPair(U32(), Pair(U64(), Vec2Codec()));
  }

  lemma FaithfulClientBodies()
    ensures Faithful(IntentsBody()) && Faithful(CastBody()) && Faithful(LoginBody())
  {
    FaithfulFields();
    FaithfulEntry();
    FaithfulList(EntryCodec());
    FaithfulPair(TextCodec(), Vec2Codec());
    FaithfulPair(U64(), Pair(TextCodec(), Vec2Codec()));
    FaithfulPair(U32(), Pair(U64(), Pair(TextCodec(), Vec2Codec())));
    FaithfulPair(TextCodec(), Raw32());
  }

  lemma LawfulClientOf(a: Codec<List<MoveIntentEntry>>, b: Codec<CastFields>, c: Codec<LoginFields>)
    requires Faithful(a) && Faithful(b) && Faithful(c)
    ensures Lawful(ClientOf(a, b, c))
  {
    LawfulU32();
    forall m: ClientMsg, rest: Bytes ensures ReadsBack(ClientOf(a, b, c), m, rest)
    {
      match m
      case MoveIntents(intents) => VariantReads(0, a, intents, rest);
      case CastIntent(number, t, skill, target) => VariantReads(1, b, (number, (t, (skill, target))), rest);
      case Login(name, token) => VariantReads(2, c, (name, token), rest);
    }
    forall bs: Bytes, more: Bytes ensures ExtendsBy(ClientOf(a, b, c), bs, more)
    {
      assert ExtendsBy(U32(), bs, more);
      if TakeU32(bs).Got? {
        var rest := TakeU32(bs).rest;
        assert ExtendsBy(a, rest, more) && ExtendsBy(b, rest, more) && ExtendsBy(c, rest, more);
      }
    }
  }

  lemma LawfulClient()
    ensures Lawful(Client())
  {
    FaithfulClientBodies();
    LawfulClientOf(IntentsBody(), CastBody(), LoginBody());
  }

  // ---- Server messages ----

  type DeltaFields = (u64, (List<EntityState>, List<u32>))

  type SnapshotFields = (u64, (u32, List<EntityPos>))

  type MechanicFields = (u64, (Text, (Vec3, (F32, (u64, u64)))))

  type HitFields = (u64, List<u32>)

  /** How each variant's fields travel. */
  datatype Bodies = Bodies(
    welcome: Codec<u32>, table: Codec<List<Text>>, delta: Codec<DeltaFields>, snapshot: Codec<SnapshotFields>,
    mechanic: Codec<MechanicFields>, hit: Codec<HitFields>, clock: Codec<(u64, u64)>,
    redirect: Codec<(Text, SocketAddr)>, died: Codec<(u32, Vec3)>, denied: Codec<DenyReason>)

  function Put(b: Bodies, m: ServerMsg): Bytes
  {
    match m
    case Welcome(id) => PutVariant(0, b.welcome, id)
    case PrefabTable(names) => PutVariant(1, b.table, names)
    case AoiDelta(tick, enters, leaves) => PutVariant(2, b.delta, (tick, (enters, leaves)))
    case Snapshot(tick, last, states) => PutVariant(3, b.snapshot, (tick, (last, states)))
    case MechanicScheduled(id, telegraph, at, radius, resolveAt, duration) =>
      PutVariant(4, b.mechanic, (id, (telegraph, (at, (radius, (resolveAt, duration))))))
    case HitResult(mechanic, hits) => PutVariant(5, b.hit, (mechanic, hits))
    case WorldClock(world, server) => PutVariant(6, b.clock, (world, server))
    case Redirect(zone, addr) => PutVariant(7, b.redirect, (zone, addr))
    case EntityDied(entity, at) => PutVariant(8, b.died, (entity, at))
    case LoginDenied(reason) => PutVariant(9, b.denied, reason)
  }

  function Take(b: Bodies, bs: Bytes): Read<ServerMsg>
  {
    match TakeU32(bs)
    case Fail => Fail
    case Got(i, rest) => TakeBody(b, i, rest)
  }

  function DeltaMsg(t: DeltaFields): ServerMsg { AoiDelta(t.0, t.1.0, t.1.1) }

  function SnapshotMsg(t: SnapshotFields): ServerMsg { Snapshot(t.0, t.1.0, t.1.1) }

  function MechanicMsg(t: MechanicFields): ServerMsg
  {
    MechanicScheduled(t.0, t.1.0, t.1.1.0, t.1.1.1.0, t.1.1.1.1.0, t.1.1.1.1.1)
  }

  function TakeBody(b: Bodies, i: u32, bs: Bytes): Read<ServerMsg>
  {
    match i
    case 0 => ReadAs(b.welcome.take(bs), (x: u32) => Welcome(x))
    case 1 => ReadAs(b.table.take(bs), (xs: List<Text>) => PrefabTable(xs))
    case 2 => ReadAs(b.delta.take(bs), DeltaMsg)
    case 3 => ReadAs(b.snapshot.take(bs), SnapshotMsg)
    case 4 => ReadAs(b.mechanic.take(bs), MechanicMsg)
    case 5 => ReadAs(b.hit.take(bs), (t: HitFields) => HitResult(t.0, t.1))
    case 6 => ReadAs(b.clock.take(bs), (t: (u64, u64)) => WorldClock(t.0, t.1))
    case 7 => ReadAs(b.redirect.take(bs), (t: (Text, SocketAddr)) => Redirect(t.0, t.1))
    case 8 => ReadAs(b.died.take(bs), (t: (u32, Vec3)) => EntityDied(t.0, t.1))
    case 9 => ReadAs(b.denied.take(bs), (r: DenyReason) => LoginDenied(r))
    case _ => Fail
  }

  /** Only entity positions change in transit. */
  function Norm(b: Bodies, m: ServerMsg): ServerMsg
  {
    match m
    case AoiDelta(tick, enters, leaves) => DeltaMsg(b.delta.norm((tick, (enters, leaves))))
    case Snapshot(tick, last, states) => SnapshotMsg(b.snapshot.norm((tick, (last, states))))
    case _ => m
  }

  function ServerOf(b: Bodies): Codec<ServerMsg>
  {
    Codec((m: ServerMsg) => Put(b, m), (bs: Bytes) => Take(b, bs), (m: ServerMsg) => Norm(b, m))
  }

  ghost predicate LawfulBodies(b: Bodies)
  {
    && Faithful(b.welcome) && Faithful(b.table) && Lawful(b.delta) && Lawful(b.snapshot) && Faithful(b.mechanic)
    && Faithful(b.hit) && Faithful(b.clock) && Faithful(b.redirect) && Faithful(b.died) && Faithful(b.denied)
  }

  lemma MessageReadsBack(b: Bodies, m: ServerMsg, rest: Bytes)
    requires LawfulBodies(b)
    ensures Take(b, Put(b, m) + rest) == Got(Norm(b, m), rest)
  {
    match m
    case Welcome(id) => VariantReads(0, b.welcome, id, rest);
    case PrefabTable(names) => VariantReads(1, b.table, names, rest);
    case AoiDelta(tick, enters, leaves) => VariantReads(2, b.delta, (tick, (enters, leaves)), rest);
    case Snapshot(tick, last, states) => VariantReads(3, b.snapshot, (tick, (last, states)), rest);
    case MechanicScheduled(id, telegraph, at, radius, resolveAt, duration) =>
      VariantReads(4, b.mechanic, (id, (telegraph, (at, (radius, (resolveAt, duration))))), rest);
    case HitResult(mechanic, hits) => VariantReads(5, b.hit, (mechanic, hits), rest);
    case WorldClock(world, server) => VariantReads(6, b.clock, (world, server), rest);
    case Redirect(zone, addr) => VariantReads(7, b.redirect, (zone, addr), rest);
    case EntityDied(entity, at) => VariantReads(8, b.died, (entity, at), rest);
    case LoginDenied(reason) => VariantReads(9, b.denied, reason, rest);
  }

  lemma MessageExtends(b: Bodies, bs: Bytes, more: Bytes)
    requires LawfulBodies(b)
    ensures Take(b, bs).Got? ==> Take(b, bs + more) == Got(Take(b, bs).value, Take(b, bs).rest + more)
  {
    LawfulU32();
    assert ExtendsBy(U32(), bs, more);
    if TakeU32(bs).Got? {
      var rest := TakeU32(bs).rest;
      assert ExtendsBy(b.welcome, rest, more) && ExtendsBy(b.table, rest, more) && ExtendsBy(b.delta, rest, more);
      assert ExtendsBy(b.snapshot, rest, more) && ExtendsBy(b.mechanic, rest, more) && ExtendsBy(b.hit, rest, more);
      assert ExtendsBy(b.clock, rest, more) && ExtendsBy(b.redirect, rest, more);
      assert ExtendsBy(b.died, rest, more) && ExtendsBy(b.denied, rest, more);
    }
  }

  lemma MessageSettles(b: Bodies, m: ServerMsg)
    requires LawfulBodies(b)
    ensures Put(b, Norm(b, m)) == Put(b, m)
  {
    match m
    case AoiDelta(tick, enters, leaves) => assert SettlesAt(b.delta, (tick, (enters, leaves)));
    case Snapshot(tick, last, states) => assert SettlesAt(b.snapshot, (tick, (last, states)));
    case _ =>
  }

  lemma LawfulServerOf(b: Bodies)
    requires LawfulBodies(b)
    ensures Lawful(ServerOf(b))
  {
    forall m: ServerMsg, rest: Bytes ensures ReadsBack(ServerOf(b), m, rest)
    {
      MessageReadsBack(b, m, rest);
    }
    forall bs: Bytes, more: Bytes ensures ExtendsBy(ServerOf(b), bs, more)
    {
      MessageExtends(b, bs, more);
    }
    forall m: ServerMsg ensures SettlesAt(ServerOf(b), m)
    {
      MessageSettles(b, m);
    }
  }

  function DeltaBody(): Codec<DeltaFields> { Pair(U64(), Pair(ListOf(StateCodec()), ListOf(U32()))) }

  function SnapshotBody(): Codec<SnapshotFields> { Pair(U64(), Pair(U32(), ListOf(EntityPosCodec()))) }

  function MechanicBody(): Codec<MechanicFields>
  {
    Pair(U64(), Pair(TextCodec(), Pair(Vec3Codec(), Pair(Raw4(), Pair(U64(), U64())))))
  }

  function ServerBodies(): Bodies
  {
    Bodies(U32(), ListOf(TextCodec()), DeltaBody(), SnapshotBody(), MechanicBody(), Pair(U64(), ListOf(U32())),
           Pair(U64(), U64()), Pair(TextCodec(), Addr()), Pair(U32(), Vec3Codec()), Reason())
  }

  function Server(): Codec<ServerMsg> { ServerOf(ServerBodies()) }

  lemma LawfulEntityLists()
    ensures Lawful(DeltaBody()) && Lawful(SnapshotBody())
  {
    LawfulU32();
    LawfulU64();
    LawfulEntities();
    LawfulList(U32());
    LawfulList(StateCodec());
    LawfulList(EntityPosCodec());
    LawfulPair(ListOf(StateCodec()), ListOf(U32()));
    LawfulPair(U64(), Pair(ListOf(StateCodec()), ListOf(U32())));
    LawfulPair(U32(), ListOf(EntityPosCodec()));
    LawfulPair(U64(), Pair(U32(), ListOf(EntityPosCodec())));
  }

  lemma FaithfulServerBodies()
    ensures Faithful(MechanicBody()) && Faithful(ListOf(TextCodec())) && Faithful(Pair(U64(), ListOf(U32())))
    ensures Faithful(Pair(U64(), U64())) && Faithful(Pair(TextCodec(), Addr())) && Faithful(Pair(U32(), Vec3Codec()))
    ensures Faithful(U32()) && Faithful(Reason())
  {
    FaithfulFields();
    LawfulAddr();
    LawfulReason();
    FaithfulList(TextCodec());
    FaithfulList(U32());
    FaithfulPair(U64(), ListOf(U32()));
    FaithfulPair(U64(), U64());
    FaithfulPair(Raw4(), Pair(U64(), U64()));
    FaithfulPair(Vec3Codec(), Pair(Raw4(), Pair(U64(), U64())));
    FaithfulPair(TextCodec(), Pair(Vec3Codec(), Pair(Raw4(), Pair(U64(), U64()))));
    FaithfulPair(U64(), Pair(TextCodec(), Pair(Vec3Codec(), Pair(Raw4(), Pair(U64(), U64())))));
    FaithfulPair(TextCodec(), Addr());
    FaithfulPair(U32(), Vec3Codec());
  }

  lemma LawfulServer()
    ensures LawfulBodies(ServerBodies()) && Lawful(Server())
  {
    LawfulEntityLists();
    FaithfulServerBodies();
    LawfulServerOf(ServerBodies());
  }

  // ---- What quantising does to a message ----

  /** Positions of entering entities and in snapshots become what their quanta say. */
  function Quantised(m: ServerMsg): ServerMsg
  {
    match m
    case AoiDelta(tick, enters, leaves) => AoiDelta(tick, NormAll(QuantisedState, enters), leaves)
    case Snapshot(tick, last, states) => Snapshot(tick, last, NormAll(QuantisedPos, states))
    case _ => m
  }

  function QuantisedAt(p: WirePos): WirePos { WirePos(Requantised(p.x), Requantised(p.y), Requantised(p.z)) }

  function QuantisedState(e: EntityState): EntityState { e.(pos := QuantisedAt(e.pos)) }

  function QuantisedPos(e: EntityPos): EntityPos { e.(pos := QuantisedAt(e.pos)) }

  lemma PosNorm(p: WirePos)
    ensures PosCodec().norm(p) == QuantisedAt(p)
  {
  }

  lemma HpNorm(hp: Option<i32>)
    ensures Maybe(I32()).norm(hp) == hp
  {
  }

  lemma StateNorm(e: EntityState)
    ensures StateCodec().norm(e) == QuantisedState(e)
  {
    PosNorm(e.pos);
    HpNorm(e.hp);
  }

  lemma EntityPosNorm(e: EntityPos)
    ensures EntityPosCodec().norm(e) == QuantisedPos(e)
  {
    PosNorm(e.pos);
    HpNorm(e.hp);
  }

  lemma ListNorm<T(!new)>(c: Codec<T>, norm: T -> T, xs: List<T>)
    requires forall x: T :: c.norm(x) == norm(x)
    ensures ListOf(c).norm(xs) == NormAll(norm, xs)
  {
    assert NormAll(c.norm, xs) == NormAll(norm, xs);
  }

  lemma PairNorm<A, B>(a: Codec<A>, b: Codec<B>, x: A, y: B)
    ensures Pair(a, b).norm((x, y)) == (a.norm(x), b.norm(y))
  {
  }

  ghost predicate DeltaNormal(c: Codec<DeltaFields>, tick: u64, enters: List<EntityState>, leaves: List<u32>)
  {
    c.norm((tick, (enters, leaves))) == (tick, (NormAll(QuantisedState, enters), leaves))
  }

  ghost predicate SnapshotNormal(c: Codec<SnapshotFields>, tick: u64, last: u32, states: List<EntityPos>)
  {
    c.norm((tick, (last, states))) == (tick, (last, NormAll(QuantisedPos, states)))
  }

  lemma DeltaNorm(tick: u64, enters: List<EntityState>, leaves: List<u32>)
    ensures DeltaNormal(DeltaBody(), tick, enters, leaves)
  {
    forall e: EntityState ensures StateCodec().norm(e) == QuantisedState(e)
    {
      StateNorm(e);
    }
    ListNorm(StateCodec(), QuantisedState, enters);
    ListNorm(U32(), Same, leaves);
    assert NormAll(Same, leaves) == leaves;
    PairNorm(ListOf(StateCodec()), ListOf(U32()), enters, leaves);
    PairNorm(U64(), Pair(ListOf(StateCodec()), ListOf(U32())), tick, (enters, leaves));
  }

  lemma SnapshotNorm(tick: u64, last: u32, states: List<EntityPos>)
    ensures SnapshotNormal(SnapshotBody(), tick, last, states)
  {
    forall e: EntityPos ensures EntityPosCodec().norm(e) == QuantisedPos(e)
    {
      EntityPosNorm(e);
    }
    ListNorm(EntityPosCodec(), QuantisedPos, states);
    PairNorm(U32(), ListOf(EntityPosCodec()), last, states);
    PairNorm(U64(), Pair(U32(), ListOf(EntityPosCodec())), tick, (last, states));
  }

  lemma BodiesNorm(b: Bodies, m: ServerMsg)
    requires forall tick: u64, enters: List<EntityState>, leaves: List<u32> ::
      DeltaNormal(b.delta, tick, enters, leaves)
    requires forall tick: u64, last: u32, states: List<EntityPos> :: SnapshotNormal(b.snapshot, tick, last, states)
    ensures Norm(b, m) == Quantised(m)
  {
    match m
    case AoiDelta(tick, enters, leaves) => assert DeltaNormal(b.delta, tick, enters, leaves);
    case Snapshot(tick, last, states) => assert SnapshotNormal(b.snapshot, tick, last, states);
    case _ =>
  }

  lemma ServerNorm(m: ServerMsg)
    ensures Norm(ServerBodies(), m) == Quantised(m)
  {
    forall tick: u64, enters: List<EntityState>, leaves: List<u32> ensures DeltaNormal(DeltaBody(), tick, enters, leaves)
    {
      DeltaNorm(tick, enters, leaves);
    }
    forall tick: u64, last: u32, states: List<EntityPos> ensures SnapshotNormal(SnapshotBody(), tick, last, states)
    {
      SnapshotNorm(tick, last, states);
    }
    BodiesNorm(ServerBodies(), m);
  }

  // ---- encode and decode ----

  function Encode<T>(c: Codec<T>, m: T): Bytes { c.put(m) }

  /** Bytes after the message are ignored. */
  function Decode<T>(c: Codec<T>, bs: Bytes): Option<T>
  {
    match c.take(bs)
    case Fail => None
    case Got(m, _) => Some(m)
  }

  lemma LawfulDecodes<T(!new)>(c: Codec<T>, m: T, rest: Bytes)
    requires Lawful(c)
    ensures Decode(c, Encode(c, m) + rest) == Some(c.norm(m))
    ensures forall k :: 0 <= k < |Encode(c, m)| ==> Decode(c, Encode(c, m)[..k]) == None
    ensures Encode(c, c.norm(m)) == Encode(c, m)
  {
    assert ReadsBack(c, m, rest) && SettlesAt(c, m);
    forall k | 0 <= k < |Encode(c, m)| ensures Decode(c, Encode(c, m)[..k]) == None
    {
      TruncatedFails(c, m, k);
    }
  }

  /** A client message comes back as it was sent, whatever bytes follow; no truncation of
      it decodes. */
  lemma ClientRoundTrip(m: ClientMsg, rest: Bytes)
    ensures Decode(Client(), Encode(Client(), m) + rest) == Some(m)
    ensures forall k :: 0 <= k < |Encode(Client(), m)| ==> Decode(Client(), Encode(Client(), m)[..k]) == None
  {
    LawfulClient();
    LawfulDecodes(Client(), m, rest);
  }

  /** A server message comes back with its entity positions quantised and nothing else
      changed; no truncation of it decodes; and sending what came back sends the same
      bytes, however far away the entities are. */
  lemma ServerRoundTrip(m: ServerMsg, rest: Bytes)
    ensures Decode(Server(), Encode(Server(), m) + rest) == Some(Quantised(m))
    ensures forall k :: 0 <= k < |Encode(Server(), m)| ==> Decode(Server(), Encode(Server(), m)[..k]) == None
    ensures Encode(Server(), Quantised(m)) == Encode(Server(), m)
  {
    LawfulServer();
    ServerNorm(m);
    LawfulDecodes(Server(), m, rest);
  }

  /** How far a position moves: each axis by 1/512 metre at most, unless it saturates. */
  ghost predicate NearAxis(before: Coordinate, after: Coordinate)
  {
    -0x8000_0000 <= Round(before * 256.0) <= 0x7fff_ffff ==> -1.0 / 512.0 <= after - before <= 1.0 / 512.0
  }

  ghost predicate NearAt(before: WirePos, after: WirePos)
  {
    NearAxis(before.x, after.x) && NearAxis(before.y, after.y) && NearAxis(before.z, after.z)
  }

  lemma QuantisedIsNear(p: WirePos)
    ensures NearAt(p, QuantisedAt(p))
  {
    forall x: Coordinate ensures NearAxis(x, Requantised(x))
    {
      if -0x8000_0000 <= Round(x * 256.0) <= 0x7fff_ffff {
        CoordinateIsNear(x);
      }
    }
  }

  /** Every entity position of a message comes back near where it was sent from. */
  lemma PositionsAreNear(m: ServerMsg)
    ensures m.AoiDelta? ==> var r := Quantised(m);
      r.AoiDelta? && |r.enters| == |m.enters| && forall i :: 0 <= i < |m.enters| ==> NearAt(m.enters[i].pos, r.enters[i].pos)
    ensures m.Snapshot? ==> var r := Quantised(m);
      r.Snapshot? && |r.states| == |m.states| && forall i :: 0 <= i < |m.states| ==> NearAt(m.states[i].pos, r.states[i].pos)
  {
    forall p: WirePos ensures NearAt(p, QuantisedAt(p))
    {
      QuantisedIsNear(p);
    }
  }

  /** A message that has travelled once travels unchanged from then on. */
  lemma SettlesAfterOneTrip(m: ServerMsg, rest: Bytes)
    ensures Decode(Server(), Encode(Server(), Quantised(m)) + rest) == Some(Quantised(m))
    ensures Encode(Server(), Quantised(Quantised(m))) == Encode(Server(), Quantised(m))
  {
    ServerRoundTrip(m, rest);
    ServerRoundTrip(Quantised(m), rest);
  }
}
