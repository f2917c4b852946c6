/** Snapshot positions on the wire (game/vordar-protocol/src/lib.rs): 256 units a metre,
    rounded half away from zero, saturating at 32 bits; read back through a 24-bit float. */
module WirePosition {
  import opened Varint

  /** Nearest integer, halves away from zero. */
  function Round(x: real): int
  {
    if x >= 0.0 then (x + 0.5).Floor else -((-x + 0.5).Floor)
  }

  function Saturate(n: int): i32
  {
    if n < -0x8000_0000 then -0x8000_0000 else if n > 0x7fff_ffff then 0x7fff_ffff else n
  }

  function Quantise(x: real): i32 { Saturate(Round(x * 256.0)) }

  // ---- Integers as 32-bit floats ----

  /** Floats hold 24 significant bits. */
  const EXACT: nat := 0x100_0000

  /** The spacing of floats about `a`. */
  function Spacing(a: nat): (s: nat)
    ensures s > 0 && (s == 1 <==> a < EXACT)
  {
    if a < EXACT then 1 else 2 * Spacing(a / 2)
  }

  /** The multiple of `s` nearest to `a`, an even multiple when two are as near. */
  function NearestMultiple(a: nat, s: nat): nat
    requires s > 0
  {
    s * NearestCount(a, s)
  }

  function NearestCount(a: nat, s: nat): nat
    requires s > 0
  {
    var (down, over) := (a / s, a % s);
    if 2 * over < s || (2 * over == s && down % 2 == 0) then down else down + 1
  }

  function FloatOf(a: nat): nat { NearestMultiple(a, Spacing(a)) }

  /** An integer converted to a float. */
  function Size(q: int): nat { if q >= 0 then q else -q }

  function ToFloat(q: int): int { if q >= 0 then FloatOf(Size(q)) else -(FloatOf(Size(q)) as int) }

  function Restore(q: i32): real { ToFloat(q) as real / 256.0 }

  /** A float holds `a` without rounding. */
  predicate Representable(a: nat) { a % Spacing(a) == 0 }

  // ---- Rounding to a float ----

  lemma NearestIs(a: nat, s: nat)
    requires s > 0
    ensures -(s as int) <= 2 * (NearestMultiple(a, s) - a) <= s
    ensures a % s == 0 ==> NearestMultiple(a, s) == a
    ensures a % s != 0 ==> NearestMultiple(a, s) != a
  {
    var (down, over) := (a / s, a % s);
    assert a == s * down + over;
    assert s * (down + 1) == s * down + s;
  }

  lemma FloatExactIff(a: nat)
    ensures FloatOf(a) == a <==> Representable(a)
    ensures -(Spacing(a) as int) <= 2 * (FloatOf(a) - a) <= Spacing(a)
  {
    NearestIs(a, Spacing(a));
  }

  /** 24 bits' worth of spacings reach `a`, 23 bits' worth do not pass it. */
  lemma {:induction false} SpacingFits(a: nat)
    ensures a < EXACT * Spacing(a)
    ensures a >= EXACT ==> a >= 0x80_0000 * Spacing(a)
  {
    if a >= EXACT {
      SpacingFits(a / 2);
    }
  }

  lemma AtLeastOne(s: nat, k: int)
    requires k >= 1
    ensures s * k >= s
  {
  }

  lemma Divides(x: nat, s: nat, m: nat)
    requires s > 0 && x == s * m
    ensures x % s == 0
  {
    var (down, over) := (x / s, x % s);
    assert x == s * down + over;
    assert s * (m - down) == s * m - s * down == over;
    if m > down {
      AtLeastOne(s, m - down);
    }
    if m < down {
      AtLeastOne(s, down - m);
    }
  }

  lemma TimesKeepsOrder(s: nat, a: nat, b: nat)
    requires a <= b
    ensures s * a <= s * b
  {
    assert s * b == s * a + s * (b - a);
  }

  lemma QuotientBelow(a: nat, s: nat, high: nat)
    requires s > 0 && a < high * s
    ensures a / s < high
  {
    var down := a / s;
    assert a == s * down + a % s;
    if down >= high {
      TimesKeepsOrder(s, high, down);
    }
  }

  lemma QuotientAtLeast(a: nat, s: nat, low: nat)
    requires s > 0 && low * s <= a
    ensures low <= a / s
  {
    var down := a / s;
    assert a == s * down + a % s;
    if down < low {
      TimesKeepsOrder(s, down + 1, low);
    }
  }

  lemma DoubleTimes(a: nat, b: nat)
    ensures a * (2 * b) == 2 * (a * b)
  {
  }

  lemma SpacingDoubles(x: nat)
    requires x >= 0x80_0000
    ensures Spacing(2 * x) == 2 * Spacing(x)
  {
    assert (2 * x) / 2 == x;
  }

  /** Scaling by a spacing scales the spacing. */
  lemma {:induction false} SpacingScales(m: nat, a: nat)
    requires m >= 0x80_0000
    ensures Spacing(m * Spacing(a)) == Spacing(m) * Spacing(a)
  {
    if a >= EXACT {
      var t := Spacing(a / 2);
      SpacingScales(m, a / 2);
      DoubleTimes(m, t);
      Grows(m, t);
      SpacingDoubles(m * t);
      DoubleTimes(Spacing(m), t);
    }
  }

  lemma Grows(m: nat, t: nat)
    requires t > 0
    ensures m * t >= m
  {
  }

  /** A rounded integer rounds no further. */
  lemma FloatIsRepresentable(a: nat)
    ensures Representable(FloatOf(a))
  {
    if a >= EXACT {
      var s := Spacing(a);
      var m := NearestCount(a, s);
      SpacingFits(a);
      QuotientBelow(a, s, EXACT);
      QuotientAtLeast(a, s, 0x80_0000);
      SpacingScales(m, a);
      MultipleOfSpacing(m, s);
    } else {
      FloatExactIff(a);
    }
  }

  lemma MultipleOfSpacing(m: nat, s: nat)
    requires s > 0 && 0x80_0000 <= m <= EXACT && Spacing(s * m) == Spacing(m) * s
    ensures Representable(s * m)
  {
    if m < EXACT {
      Divides(s * m, s, m);
    } else {
      assert Spacing(m) == 2 * Spacing(m / 2) == 2;
      assert s * m == (2 * s) * 0x80_0000;
      Divides(s * m, 2 * s, 0x80_0000);
    }
  }

  lemma ToFloatTwice(q: int)
    ensures ToFloat(ToFloat(q)) == ToFloat(q)
  {
    FloatIsRepresentable(Size(q));
    FloatExactIff(FloatOf(Size(q)));
  }

  lemma SpacingHalves(a: nat)
    ensures Spacing(a) <= 2 * Spacing(a / 2)
  {
  }

  /** No 32-bit integer rounds past the lowest. */
  lemma FloatWithin(a: nat)
    requires a <= 0x8000_0000
    ensures FloatOf(a) <= 0x8000_0000
  {
    if a == 0x8000_0000 {
      LowestIsRepresentable();
    } else {
      var (b, c, d) := (a / 2, a / 2 / 2, a / 2 / 2 / 2);
      var (e, f, g) := (d / 2, d / 2 / 2, d / 2 / 2 / 2);
      SpacingHalves(a);
      SpacingHalves(b);
      SpacingHalves(c);
      SpacingHalves(d);
      SpacingHalves(e);
      SpacingHalves(f);
      SpacingHalves(g);
      assert Spacing(g / 2) == 1;
      SpacingFits(a);
      QuotientBelow(a, Spacing(a), EXACT);
      Product(Spacing(a), 128, NearestCount(a, Spacing(a)), EXACT);
    }
  }

  lemma Product(a: nat, x: nat, b: nat, y: nat)
    requires a <= x && b <= y
    ensures a * b <= x * y
  {
    assert x * y == a * b + a * (y - b) + (x - a) * y;
  }

  lemma LowestIsRepresentable()
    ensures FloatOf(0x8000_0000) == 0x8000_0000
  {
    assert Spacing(0x100_0000) == 2;
    assert Spacing(0x200_0000) == 4;
    assert Spacing(0x400_0000) == 8;
    assert Spacing(0x800_0000) == 16;
    assert Spacing(0x1000_0000) == 32;
    assert Spacing(0x2000_0000) == 64;
    assert Spacing(0x4000_0000) == 128;
    assert Spacing(0x8000_0000) == 256;
  }

  lemma HighestRoundsUp()
    ensures FloatOf(0x7fff_ffff) == 0x8000_0000
  {
    assert Spacing(0xff_ffff) == 1;
    assert Spacing(0x1ff_ffff) == 2;
    assert Spacing(0x3ff_ffff) == 4;
    assert Spacing(0x7ff_ffff) == 8;
    assert Spacing(0xfff_ffff) == 16;
    assert Spacing(0x1fff_ffff) == 32;
    assert Spacing(0x3fff_ffff) == 64;
    assert Spacing(0x7fff_ffff) == 128;
  }

  // ---- The round trip ----

  lemma RequantiseIs(q: i32)
    ensures Quantise(Restore(q)) == Saturate(ToFloat(q))
  {
    assert Restore(q) * 256.0 == ToFloat(q) as real;
    RoundWhole(ToFloat(q));
  }

  lemma RoundWhole(n: int)
    ensures Round(n as real) == n
  {
  }

  /** A second round trip sends the same integer exactly when a float holds it, or it is
      the saturated maximum. */
  lemma SameBytesIff(q: i32)
    ensures Quantise(Restore(q)) == q <==> (Representable(Size(q)) || q == 0x7fff_ffff)
  {
    RequantiseIs(q);
    FloatExactIff(Size(q));
    FloatWithin(Size(q));
    HighestRoundsUp();
  }

  /** Requantising settles at once, over the whole range. */
  lemma RequantiseSettles(q: i32)
    ensures var r := Quantise(Restore(q)); Quantise(Restore(r)) == r
  {
    var r := Quantise(Restore(q));
    RequantiseIs(q);
    FloatWithin(Size(q));
    if ToFloat(q) <= 0x7fff_ffff {
      ToFloatTwice(q);
      RequantiseIs(r);
    } else {
      SameBytesIff(0x7fff_ffff);
    }
  }

  lemma RoundIsNear(y: real)
    ensures -0.5 <= Round(y) as real - y <= 0.5
  {
  }

  lemma SmallIsExact(q: int)
    requires -(EXACT as int) <= q <= EXACT
    ensures ToFloat(q) == q
  {
    if Size(q) == EXACT {
      assert Spacing(EXACT) == 2 * Spacing(EXACT / 2) == 2;
    }
    FloatExactIff(Size(q));
  }

  /** Up to 4096 metres an axis takes three bytes at most; near the origin, one. */
  lemma AxisBytes(q: i32)
    ensures |PutVarint(Zigzag(q))| <= 3 <==> -0x10_0000 <= q < 0x10_0000
    ensures |PutVarint(Zigzag(q))| <= 1 <==> -64 <= q < 64
  {
    VarintLength(Zigzag(q), 3);
    VarintLength(Zigzag(q), 1);
    assert Capacity(3, 127) == 128 * 128 * 128;
  }
}
