/** Variable-length integers as the postcard wire format writes them: seven bits a byte,
    low bits first, a set high bit for more to come; a reader takes no more bytes than the
    width needs and refuses a last byte that would overflow it. Signed integers are folded
    onto unsigned ones by zigzag, so that small values of either sign stay short. Shared by
    every field of every message in game/vordar-protocol/src/lib.rs. */
module Varint {

  type byte = x: nat | x < 256

  type Bytes = seq<byte>

  type u16 = x: nat | x < 0x1_0000

  type u32 = x: nat | x < 0x1_0000_0000

  type u64 = x: nat | x < 0x1_0000_0000_0000_0000

  type i32 = x: int | -0x8000_0000 <= x < 0x8000_0000

  /** What a reader makes of a byte string: a value and the bytes after it. */
  datatype Read<+T> = Fail | Got(value: T, rest: Bytes)

  function PutVarint(n: nat): Bytes
  {
    if n < 128 then [n] else [128 + n % 128] + PutVarint(n / 128)
  }

  /** Reads at most `left` bytes; a byte in the last place may not exceed `last`. */
  function TakeVarint(bs: Bytes, left: nat, last: nat): (r: Read<nat>)
    ensures r.Got? ==> r.value < Capacity(left, last) && |r.rest| < |bs|
    decreases left
  {
    if left == 0 || bs == [] then Fail
    else if bs[0] < 128 then
      if left == 1 && bs[0] > last then Fail else FitsOneByte(left, last, bs[0]); Got(bs[0], bs[1..])
    else match TakeVarint(bs[1..], left-1, last)
      case Fail => Fail
      case Got(high, rest) => Got(bs[0] - 128 + 128 * high, rest)
  }

  /** One more than the largest value of `left` bytes. */
  function Capacity(left: nat, last: nat): nat
  {
    if left == 0 then 0 else if left == 1 then Least128(last + 1) else 128 * Capacity(left-1, last)
  }

  function Least128(n: nat): nat { if n < 128 then n else 128 }

  lemma {:induction false} FitsOneByte(left: nat, last: nat, b: nat)
    requires b < 128 && left > 0 && (left == 1 ==> b <= last)
    ensures b < Capacity(left, last)
  {
    if left > 1 {
      FitsOneByte(left-1, last, 0);
    }
  }

  lemma Capacities()
    ensures Capacity(3, 3) == 0x1_0000
    ensures Capacity(5, 15) == 0x1_0000_0000
    ensures Capacity(10, 1) == 0x1_0000_0000_0000_0000
  {
    assert Capacity(3, 1) == 32768;
    assert Capacity(6, 1) == 128 * 128 * 128 * 32768;
    assert Capacity(9, 1) == 128 * 128 * 128 * (128 * 128 * 128 * 32768);
    assert Capacity(3, 15) == 128 * 128 * 16;
  }

  lemma TakesOn(b: byte, bs: Bytes, left: nat, last: nat)
    requires b >= 128 && left > 0
    ensures TakeVarint([b] + bs, left, last)
         == match TakeVarint(bs, left-1, last)
            case Fail => Fail
            case Got(high, rest) => Got(b - 128 + 128 * high, rest)
  {
    assert ([b] + bs)[1..] == bs;
  }

  lemma SevenBits(n: nat, capacity: nat)
    ensures n % 128 + 128 * (n / 128) == n
    ensures n < 128 * capacity ==> n / 128 < capacity
  {
  }

  lemma PutsOn(n: nat, rest: Bytes)
    requires n >= 128
    ensures PutVarint(n) + rest == [128 + n % 128] + (PutVarint(n / 128) + rest)
  {
  }

  /** What was written is read back, with exactly the bytes after it left. */
  lemma {:induction false} VarintRoundTrip(n: nat, rest: Bytes, left: nat, last: nat)
    requires n < Capacity(left, last)
    ensures TakeVarint(PutVarint(n) + rest, left, last) == Got(n, rest)
    decreases left
  {
    if n < 128 {
      assert ([n as byte] + rest)[1..] == rest;
    } else {
      var (low, high) := (n % 128, n / 128);
      SevenBits(n, Capacity(left-1, last));
      VarintRoundTrip(high, rest, left-1, last);
      PutsOn(n, rest);
      TakesOn(128 + low, PutVarint(high) + rest, left, last);
    }
  }

  /** A reading does not depend on what follows. */
  lemma {:induction false} VarintExtends(bs: Bytes, more: Bytes, left: nat, last: nat)
    requires TakeVarint(bs, left, last).Got?
    ensures var r := TakeVarint(bs, left, last); TakeVarint(bs + more, left, last) == Got(r.value, r.rest + more)
    decreases left
  {
    assert (bs + more)[1..] == bs[1..] + more;
    if bs[0] >= 128 {
      VarintExtends(bs[1..], more, left-1, last);
    }
  }

  /** A value takes `k` bytes exactly when it lies between 128^(k-1) and 128^k. */
  lemma {:induction false} VarintLength(n: nat, k: nat)
    requires k > 0
    ensures |PutVarint(n)| <= k <==> n < Capacity(k, 127)
    decreases k
  {
    if k > 1 && n >= 128 {
      VarintLength(n / 128, k-1);
    } else if n < 128 {
      FitsOneByte(k, 127, n);
    }
  }

  function Zigzag(v: i32): u32 { if v >= 0 then 2 * v else -2 * v - 1 }

  function Unzigzag(n: u32): i32 { if n % 2 == 0 then n / 2 else -(n / 2) - 1 }

  lemma ZigzagRoundTrip(v: i32, n: u32)
    ensures Unzigzag(Zigzag(v)) == v && Zigzag(Unzigzag(n)) == n
  {
  }
}
