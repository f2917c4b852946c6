/** Codecs in the manner of serde and postcard: fields in order, sequences after their
    length, variants after their index. A codec is lawful when what it writes is read back
    as it became in transit with nothing after it touched, when a reading never depends on
    what follows, and when what has settled is written the same way again. */
module Codecs {
  import opened Basics
  import opened Varint

  /** `norm` is what a value becomes in transit. */
  datatype Codec<!T> = Codec(put: T -> Bytes, take: Bytes -> Read<T>, norm: T -> T)

  /** A written value is read back as it became in transit, and nothing after it is touched. */
  ghost predicate RoundTrips<T(!new)>(c: Codec<T>)
  {
    forall x: T, rest: Bytes :: ReadsBack(c, x, rest)
  }

  ghost predicate ReadsBack<T>(c: Codec<T>, x: T, rest: Bytes)
  {
    c.take(c.put(x) + rest) == Got(c.norm(x), rest)
  }

  /** A reading does not depend on what follows. */
  ghost predicate Extends<T>(c: Codec<T>)
  {
    forall bs: Bytes, more: Bytes :: ExtendsBy(c, bs, more)
  }

  ghost predicate ExtendsBy<T>(c: Codec<T>, bs: Bytes, more: Bytes)
  {
    c.take(bs).Got? ==> c.take(bs + more) == Got(c.take(bs).value, c.take(bs).rest + more)
  }

  /** What has travelled is written as it was before. */
  ghost predicate Settles<T(!new)>(c: Codec<T>)
  {
    forall x: T :: SettlesAt(c, x)
  }

  ghost predicate SettlesAt<T>(c: Codec<T>, x: T)
  {
    c.put(c.norm(x)) == c.put(x)
  }

  ghost predicate Lawful<T(!new)>(c: Codec<T>)
  {
    RoundTrips(c) && Extends(c) && Settles(c)
  }

  // ---- Integers ----

  function Same<T>(x: T): T { x }

  function PutU16(x: u16): Bytes { PutVarint(x) }

  function TakeU16(bs: Bytes): Read<u16>
  {
    Capacities();
    match TakeVarint(bs, 3, 3)
    case Fail => Fail
    case Got(v, rest) => Got(v, rest)
  }

  function PutU32(x: u32): Bytes { PutVarint(x) }

  function TakeU32(bs: Bytes): Read<u32>
  {
    Capacities();
    match TakeVarint(bs, 5, 15)
    case Fail => Fail
    case Got(v, rest) => Got(v, rest)
  }

  function PutU64(x: u64): Bytes { PutVarint(x) }

  function TakeU64(bs: Bytes): Read<u64>
  {
    Capacities();
    match TakeVarint(bs, 10, 1)
    case Fail => Fail
    case Got(v, rest) => Got(v, rest)
  }

  function U16(): Codec<u16> { Codec(PutU16, TakeU16, Same) }

  function U32(): Codec<u32> { Codec(PutU32, TakeU32, Same) }

  function U64(): Codec<u64> { Codec(PutU64, TakeU64, Same) }

  lemma LawfulU16()
    ensures Lawful(U16())
  {
    Capacities();
    forall x: u16, rest: Bytes ensures ReadsBack(U16(), x, rest)
    {
      VarintRoundTrip(x, rest, 3, 3);
    }
    forall bs: Bytes, more: Bytes ensures ExtendsBy(U16(), bs, more)
    {
      if TakeVarint(bs, 3, 3).Got? {
        VarintExtends(bs, more, 3, 3);
      }
    }
  }

  lemma LawfulU32()
    ensures Lawful(U32())
  {
    Capacities();
    forall x: u32, rest: Bytes ensures ReadsBack(U32(), x, rest)
    {
      VarintRoundTrip(x, rest, 5, 15);
    }
    forall bs: Bytes, more: Bytes ensures ExtendsBy(U32(), bs, more)
    {
      if TakeVarint(bs, 5, 15).Got? {
        VarintExtends(bs, more, 5, 15);
      }
    }
  }

  lemma LawfulU64()
    ensures Lawful(U64())
  {
    Capacities();
    forall x: u64, rest: Bytes ensures ReadsBack(U64(), x, rest)
    {
      VarintRoundTrip(x, rest, 10, 1);
    }
    forall bs: Bytes, more: Bytes ensures ExtendsBy(U64(), bs, more)
    {
      if TakeVarint(bs, 10, 1).Got? {
        VarintExtends(bs, more, 10, 1);
      }
    }
  }

  // ---- Raw bytes ----

  type Bytes4 = s: Bytes | |s| == 4 witness [0, 0, 0, 0]

  type Bytes16 = s: Bytes | |s| == 16 witness seq(16, _ => 0)

  type Bytes32 = s: Bytes | |s| == 32 witness seq(32, _ => 0)

  function Put4(x: Bytes4): Bytes { x }

  function Take4(bs: Bytes): Read<Bytes4> { if |bs| < 4 then Fail else Got(bs[..4], bs[4..]) }

  function Put16(x: Bytes16): Bytes { x }

  function Take16(bs: Bytes): Read<Bytes16> { if |bs| < 16 then Fail else Got(bs[..16], bs[16..]) }

  function Put32(x: Bytes32): Bytes { x }

  function Take32(bs: Bytes): Read<Bytes32> { if |bs| < 32 then Fail else Got(bs[..32], bs[32..]) }

  function Raw4(): Codec<Bytes4> { Codec(Put4, Take4, Same) }

  function Raw16(): Codec<Bytes16> { Codec(Put16, Take16, Same) }

  function Raw32(): Codec<Bytes32> { Codec(Put32, Take32, Same) }

  lemma SplitBytes(x: Bytes, rest: Bytes, bs: Bytes, more: Bytes, n: nat)
    requires |x| == n
    ensures (x + rest)[..n] == x && (x + rest)[n..] == rest
    ensures |bs| >= n ==> (bs + more)[..n] == bs[..n] && (bs + more)[n..] == bs[n..] + more
  {
  }

  lemma LawfulRaw()
    ensures Lawful(Raw4()) && Lawful(Raw16()) && Lawful(Raw32())
  {
    forall x: Bytes4, rest: Bytes ensures ReadsBack(Raw4(), x, rest) { SplitBytes(x, rest, [], [], 4); }
    forall x: Bytes16, rest: Bytes ensures ReadsBack(Raw16(), x, rest) { SplitBytes(x, rest, [], [], 16); }
    forall x: Bytes32, rest: Bytes ensures ReadsBack(Raw32(), x, rest) { SplitBytes(x, rest, [], [], 32); }
    forall bs: Bytes, more: Bytes
      ensures ExtendsBy(Raw4(), bs, more) && ExtendsBy(Raw16(), bs, more) && ExtendsBy(Raw32(), bs, more)
    {
      SplitBytes([0, 0, 0, 0], [], bs, more, 4);
      SplitBytes(seq(16, _ => 0), [], bs, more, 16);
      SplitBytes(seq(32, _ => 0), [], bs, more, 32);
    }
  }

  // ---- Fields in order ----

  function Pair<A, B>(a: Codec<A>, b: Codec<B>): Codec<(A, B)>
  {
    Codec(
      (x: (A, B)) => a.put(x.0) + b.put(x.1),
      (bs: Bytes) => TakePair(a, b, bs),
      (x: (A, B)) => (a.norm(x.0), b.norm(x.1)))
  }

  function TakePair<A, B>(a: Codec<A>, b: Codec<B>, bs: Bytes): Read<(A, B)>
  {
    match a.take(bs)
    case Fail => Fail
    case Got(x, rest) =>
      match b.take(rest)
      case Fail => Fail
      case Got(y, rest') => Got((x, y), rest')
  }

  lemma LawfulPair<A(!new), B(!new)>(a: Codec<A>, b: Codec<B>)
    requires Lawful(a) && Lawful(b)
    ensures Lawful(Pair(a, b))
  {
    forall x: (A, B), rest: Bytes ensures ReadsBack(Pair(a, b), x, rest)
    {
      assert ReadsBack(a, x.0, b.put(x.1) + rest) && ReadsBack(b, x.1, rest);
      assert a.put(x.0) + b.put(x.1) + rest == a.put(x.0) + (b.put(x.1) + rest);
    }
    forall bs: Bytes, more: Bytes ensures ExtendsBy(Pair(a, b), bs, more)
    {
      assert ExtendsBy(a, bs, more);
      if a.take(bs).Got? {
        assert ExtendsBy(b, a.take(bs).rest, more);
      }
    }
    forall x: (A, B) ensures SettlesAt(Pair(a, b), x)
    {
      assert SettlesAt(a, x.0) && SettlesAt(b, x.1);
    }
  }

  /** The same bytes for another type. */
  function Through<A, B>(c: Codec<A>, to: A -> B, from: B -> A): Codec<B>
  {
    Codec(
      (y: B) => c.put(from(y)),
      (bs: Bytes) => ReadAs(c.take(bs), to),
      (y: B) => to(c.norm(from(y))))
  }

  function ReadAs<A, B>(r: Read<A>, to: A -> B): Read<B>
  {
    match r
    case Fail => Fail
    case Got(x, rest) => Got(to(x), rest)
  }

  lemma LawfulThrough<A(!new), B(!new)>(c: Codec<A>, to: A -> B, from: B -> A)
    requires Lawful(c) && forall x: A :: from(to(x)) == x
    ensures Lawful(Through(c, to, from))
  {
    var d := Through(c, to, from);
    forall y: B, rest: Bytes ensures ReadsBack(d, y, rest)
    {
      assert ReadsBack(c, from(y), rest);
    }
    forall bs: Bytes, more: Bytes ensures ExtendsBy(d, bs, more)
    {
      assert ExtendsBy(c, bs, more);
    }
    forall y: B ensures SettlesAt(d, y)
    {
      assert SettlesAt(c, from(y));
    }
  }

  // ---- Options ----

  function Maybe<T>(c: Codec<T>): Codec<Option<T>>
  {
    Codec(
      (x: Option<T>) => if x.None? then [0] else [1] + c.put(x.value),
      (bs: Bytes) => TakeMaybe(c, bs),
      (x: Option<T>) => if x.None? then x else Some(c.norm(x.value)))
  }

  function TakeMaybe<T>(c: Codec<T>, bs: Bytes): Read<Option<T>>
  {
    if bs == [] then Fail
    else if bs[0] == 0 then Got(None, bs[1..])
    else if bs[0] == 1 then
      match c.take(bs[1..])
      case Fail => Fail
      case Got(x, rest) => Got(Some(x), rest)
    else Fail
  }

  lemma LawfulMaybe<T(!new)>(c: Codec<T>)
    requires Lawful(c)
    ensures Lawful(Maybe(c))
  {
    forall x: Option<T>, rest: Bytes ensures ReadsBack(Maybe(c), x, rest)
    {
      if x.Some? {
        assert ReadsBack(c, x.value, rest);
        assert ([1] + c.put(x.value) + rest)[1..] == c.put(x.value) + rest;
      } else {
        assert ([0] + rest)[1..] == rest;
      }
    }
    forall bs: Bytes, more: Bytes ensures ExtendsBy(Maybe(c), bs, more)
    {
      if bs != [] {
        assert (bs + more)[1..] == bs[1..] + more;
        assert ExtendsBy(c, bs[1..], more);
      }
    }
    forall x: Option<T> ensures SettlesAt(Maybe(c), x)
    {
      if x.Some? {
        assert SettlesAt(c, x.value);
      }
    }
  }

  // ---- Lists ----

  const WORD: nat := 0x1_0000_0000_0000_0000

  /** A list no longer than a 64-bit length says. */
  type List<T> = s: seq<T> | |s| < WORD

  function PutAll<T>(put: T -> Bytes, xs: seq<T>): Bytes
  {
    if xs == [] then [] else put(xs[0]) + PutAll(put, xs[1..])
  }

  function TakeAll<T>(take: Bytes -> Read<T>, n: nat, bs: Bytes): (r: Read<seq<T>>)
    ensures r.Got? ==> |r.value| == n
  {
    if n == 0 then Got([], bs)
    else
      match take(bs)
      case Fail => Fail
      case Got(x, rest) =>
        match TakeAll(take, n-1, rest)
        case Fail => Fail
        case Got(xs, rest') => Got([x] + xs, rest')
  }

  function NormAll<T>(norm: T -> T, xs: seq<T>): (r: seq<T>)
    ensures |r| == |xs| && forall i :: 0 <= i < |r| ==> r[i] == norm(xs[i])
  {
    seq(|xs|, i requires 0 <= i < |xs| => norm(xs[i]))
  }

  function ListOf<T>(c: Codec<T>): Codec<List<T>>
  {
    Codec(PutList(c), (bs: Bytes) => TakeList(c, bs), NormList(c))
  }

  function PutList<T>(c: Codec<T>): List<T> -> Bytes { (xs: List<T>) => PutU64(|xs|) + PutAll(c.put, xs) }

  function NormList<T>(c: Codec<T>): List<T> -> List<T> { (xs: List<T>) => NormAll(c.norm, xs) }

  function TakeList<T>(c: Codec<T>, bs: Bytes): Read<List<T>>
  {
    match TakeU64(bs)
    case Fail => Fail
    case Got(n, rest) =>
      match TakeAll(c.take, n, rest)
      case Fail => Fail
      case Got(xs, rest') => Got(xs, rest')
  }

  lemma {:induction false} AllReadBack<T(!new)>(c: Codec<T>, xs: seq<T>, rest: Bytes)
    requires RoundTrips(c)
    ensures TakeAll(c.take, |xs|, PutAll(c.put, xs) + rest) == Got(NormAll(c.norm, xs), rest)
  {
    if xs != [] {
      var tail := PutAll(c.put, xs[1..]) + rest;
      assert ReadsBack(c, xs[0], tail);
      AllReadBack(c, xs[1..], rest);
      assert PutAll(c.put, xs) + rest == c.put(xs[0]) + tail;
      assert [c.norm(xs[0])] + NormAll(c.norm, xs[1..]) == NormAll(c.norm, xs);
    }
  }

  lemma {:induction false} AllExtend<T>(c: Codec<T>, n: nat, bs: Bytes, more: Bytes)
    requires Extends(c) && TakeAll(c.take, n, bs).Got?
    ensures var r := TakeAll(c.take, n, bs); TakeAll(c.take, n, bs + more) == Got(r.value, r.rest + more)
  {
    if n > 0 {
      assert ExtendsBy(c, bs, more);
      AllExtend(c, n-1, c.take(bs).rest, more);
    }
  }

  lemma {:induction false} AllSettle<T(!new)>(c: Codec<T>, xs: seq<T>)
    requires Settles(c)
    ensures PutAll(c.put, NormAll(c.norm, xs)) == PutAll(c.put, xs)
  {
    if xs != [] {
      assert SettlesAt(c, xs[0]);
      AllSettle(c, xs[1..]);
      assert NormAll(c.norm, xs)[1..] == NormAll(c.norm, xs[1..]);
    }
  }

  lemma LawfulList<T(!new)>(c: Codec<T>)
    requires Lawful(c)
    ensures Lawful(ListOf(c))
  {
    LawfulU64();
    forall xs: List<T>, rest: Bytes ensures ReadsBack(ListOf(c), xs, rest)
    {
      assert ReadsBack(U64(), |xs|, PutAll(c.put, xs) + rest);
      assert PutU64(|xs|) + PutAll(c.put, xs) + rest == PutU64(|xs|) + (PutAll(c.put, xs) + rest);
      AllReadBack(c, xs, rest);
    }
    forall bs: Bytes, more: Bytes ensures ExtendsBy(ListOf(c), bs, more)
    {
      assert ExtendsBy(U64(), bs, more);
      if TakeU64(bs).Got? && TakeAll(c.take, TakeU64(bs).value, TakeU64(bs).rest).Got? {
        AllExtend(c, TakeU64(bs).value, TakeU64(bs).rest, more);
      }
    }
    forall xs: List<T> ensures SettlesAt(ListOf(c), xs)
    {
      AllSettle(c, xs);
    }
  }

  // ---- Text ----

  predicate Tail(b: byte) { 0x80 <= b < 0xC0 }

  /** Well-formed UTF-8 (section 4 of RFC 3629). */
  predicate Utf8(s: Bytes)
  {
    if s == [] then true
    else if s[0] < 0x80 then Utf8(s[1..])
    else if 0xC2 <= s[0] < 0xE0 then |s| >= 2 && Tail(s[1]) && Utf8(s[2..])
    else if 0xE0 <= s[0] < 0xF0 then
      && |s| >= 3 && Tail(s[1]) && Tail(s[2])
      && (s[0] == 0xE0 ==> s[1] >= 0xA0) && (s[0] == 0xED ==> s[1] < 0xA0)
      && Utf8(s[3..])
    else if 0xF0 <= s[0] < 0xF5 then
      && |s| >= 4 && Tail(s[1]) && Tail(s[2]) && Tail(s[3])
      && (s[0] == 0xF0 ==> s[1] >= 0x90) && (s[0] == 0xF4 ==> s[1] < 0x90)
      && Utf8(s[4..])
    else false
  }

  type Text = s: Bytes | |s| < WORD && Utf8(s) witness []

  function PutText(x: Text): Bytes { PutU64(|x|) + x }

  function TakeText(bs: Bytes): Read<Text>
  {
    match TakeU64(bs)
    case Fail => Fail
    case Got(n, rest) => if |rest| < n || !Utf8(rest[..n]) then Fail else Got(rest[..n], rest[n..])
  }

  function TextCodec(): Codec<Text> { Codec(PutText, TakeText, Same) }

  lemma LawfulText()
    ensures Lawful(TextCodec())
  {
    LawfulU64();
    forall x: Text, rest: Bytes ensures ReadsBack(TextCodec(), x, rest)
    {
      assert ReadsBack(U64(), |x|, x + rest);
      assert PutU64(|x|) + x + rest == PutU64(|x|) + (x + rest);
      SplitBytes(x, rest, [], [], |x|);
    }
    forall bs: Bytes, more: Bytes ensures ExtendsBy(TextCodec(), bs, more)
    {
      assert ExtendsBy(U64(), bs, more);
      if TakeU64(bs).Got? && |TakeU64(bs).rest| >= TakeU64(bs).value {
        var (n, rest) := (TakeU64(bs).value, TakeU64(bs).rest);
        SplitBytes(rest[..n], [], rest, more, n);
      }
    }
  }

  // ---- What lawfulness gives ----

  /** No proper prefix of an encoding decodes. */
  lemma TruncatedFails<T(!new)>(c: Codec<T>, x: T, k: nat)
    requires Lawful(c) && k < |c.put(x)|
    ensures c.take(c.put(x)[..k]) == Fail
  {
    var (bs, more) := (c.put(x)[..k], c.put(x)[k..]);
    assert ReadsBack(c, x, []) && ExtendsBy(c, bs, more);
    assert c.put(x) + [] == c.put(x) == bs + more;
  }
}
