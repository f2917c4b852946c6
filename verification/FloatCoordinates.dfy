/** The coordinates a snapshot position can hold (game/vordar-protocol/src/lib.rs): 32-bit
    floats, 24 bits scaled by a power of two. Exponents are unbounded here, which only adds
    coordinates. */
module FloatCoordinates {
  import opened Varint
  import opened WirePosition

  /** `x` doubled `k` times. */
  function Scaled(x: real, k: nat): real
  {
    if k == 0 then x else 2.0 * Scaled(x, k-1)
  }

  ghost predicate FloatAs(x: real, m: int, k: nat)
  {
    -(EXACT as int) < m < EXACT && (x == Scaled(m as real, k) || Scaled(x, k) == m as real)
  }

  ghost predicate IsFloat(x: real)
  {
    exists m: int, k: nat :: FloatAs(x, m, k)
  }

  function Origin(): (x: real)
    ensures IsFloat(x)
  {
    assert FloatAs(0.0, 0, 0);
    0.0
  }

  type Coordinate = x: real | IsFloat(x) ghost witness Origin()

  // ---- Doubling ----

  lemma {:induction false} ScaledAdds(x: real, j: nat, k: nat)
    ensures Scaled(Scaled(x, j), k) == Scaled(x, j + k)
  {
    if k > 0 {
      ScaledAdds(x, j, k-1);
      assert j + k - 1 == j + (k - 1);
    }
  }

  lemma {:induction false} ScaledApart(x: real, y: real, k: nat)
    requires Scaled(x, k) == Scaled(y, k)
    ensures x == y
  {
    if k > 0 {
      ScaledApart(x, y, k-1);
    }
  }

  lemma {:induction false} ScaledGrows(x: real, k: nat)
    ensures x >= 0.0 ==> Scaled(x, k) >= x
    ensures x <= 0.0 ==> Scaled(x, k) <= x
  {
    if k > 0 {
      ScaledGrows(x, k-1);
    }
  }

  lemma ByEight(x: real)
    ensures Scaled(x, 8) == x * 256.0
  {
    assert Scaled(x, 1) == 2.0 * x;
    assert Scaled(x, 2) == 4.0 * x;
    assert Scaled(x, 3) == 8.0 * x;
    assert Scaled(x, 4) == 16.0 * x;
    assert Scaled(x, 5) == 32.0 * x;
    assert Scaled(x, 6) == 64.0 * x;
    assert Scaled(x, 7) == 128.0 * x;
  }

  /** An integer doubled `k` times. */
  function Doubled(m: int, k: nat): int
  {
    if k == 0 then m else 2 * Doubled(m, k-1)
  }

  lemma {:induction false} DoubledIsScaled(m: int, k: nat)
    ensures Scaled(m as real, k) == Doubled(m, k) as real
    ensures Doubled(-m, k) == -Doubled(m, k)
  {
    if k > 0 {
      DoubledIsScaled(m, k-1);
    }
  }

  // ---- Any coordinate, in quanta ----

  lemma TwiceRepresentable(b: nat)
    requires Representable(b)
    ensures Representable(2 * b)
  {
    if 2 * b >= EXACT {
      var s := Spacing(b);
      assert (2 * b) / 2 == b && Spacing(2 * b) == 2 * s;
      assert b == s * (b / s);
      assert 2 * b == (2 * s) * (b / s);
      Divides(2 * b, 2 * s, b / s);
    }
  }

  /** 24 bits scaled up are held by a float. */
  lemma {:induction false} DoubledIsHeld(m: int, k: nat)
    requires -(EXACT as int) < m < EXACT
    ensures Representable(Size(Doubled(m, k)))
  {
    if k > 0 {
      DoubledIsHeld(m, k-1);
      TwiceRepresentable(Size(Doubled(m, k-1)));
    }
  }

  ghost predicate HeldWhole(y: real, n: int) { y == n as real && Representable(Size(n)) }

  ghost predicate HeldOrSmall(y: real)
  {
    (exists n: int :: HeldWhole(y, n)) || -(EXACT as real) < y < EXACT as real
  }

  lemma WholeIsHeld(y: real, m: int, k: nat)
    requires y == Scaled(m as real, k) && -(EXACT as int) < m < EXACT
    ensures HeldOrSmall(y)
  {
    DoubledIsScaled(m, k);
    DoubledIsHeld(m, k);
    assert HeldWhole(y, Doubled(m, k));
  }

  lemma QuantaOf(x: real, m: int, k: nat)
    requires FloatAs(x, m, k)
    ensures HeldOrSmall(Scaled(x, 8))
  {
    if x == Scaled(m as real, k) {
      ScaledAdds(m as real, k, 8);
      WholeIsHeld(Scaled(x, 8), m, k + 8);
    } else if k <= 8 {
      ScaledAdds(x, k, 8 - k);
      WholeIsHeld(Scaled(x, 8), m, 8 - k);
    } else {
      ScaledAdds(x, 8, k - 8);
      ScaledGrows(Scaled(x, 8), k - 8);
    }
  }

  lemma CoordinateForm(x: Coordinate) returns (m: int, k: nat)
    ensures FloatAs(x, m, k)
  {
    assert IsFloat(x);
    m, k :| FloatAs(x, m, k);
  }

  /** Scaled to quanta, a coordinate is an integer a float holds, or less than 2^24. */
  lemma ScaledCoordinate(x: Coordinate)
    ensures HeldOrSmall(x * 256.0)
  {
    var m, k := CoordinateForm(x);
    QuantaOf(x, m, k);
    ByEight(x);
  }

  /** A coordinate's quantum is exact in a float, and half a quantum away at most. */
  lemma QuantumIsHeld(x: Coordinate)
    ensures ToFloat(Round(x * 256.0)) == Round(x * 256.0)
    ensures -0.5 <= Round(x * 256.0) as real - x * 256.0 <= 0.5
  {
    var y := x * 256.0;
    ScaledCoordinate(x);
    RoundIsNear(y);
    if n: int :| HeldWhole(y, n) {
      RoundWhole(n);
      FloatExactIff(Size(n));
    } else {
      RoundsWithin(y);
      SmallIsExact(Round(y));
    }
  }

  lemma RoundsWithin(y: real)
    requires -(EXACT as real) < y < EXACT as real
    ensures -(EXACT as int) <= Round(y) <= EXACT
  {
  }

  // ---- The promises ----

  /** Every coordinate whose quantum fits 32 bits comes back within 1/512 metre. */
  lemma CoordinateIsNear(x: Coordinate)
    requires -0x8000_0000 <= Round(x * 256.0) <= 0x7fff_ffff
    ensures -1.0 / 512.0 <= Restore(Quantise(x)) - x <= 1.0 / 512.0
  {
    QuantumIsHeld(x);
    assert Quantise(x) == Round(x * 256.0);
  }

  /** Every coordinate, saturated or not, sends the same integer on its second trip. */
  lemma SecondTripSame(x: Coordinate)
    ensures Quantise(Restore(Quantise(x))) == Quantise(x)
  {
    var n := Round(x * 256.0);
    QuantumIsHeld(x);
    RequantiseIs(Quantise(x));
    SameBytesIff(0x7fff_ffff);
    SameBytesIff(-0x8000_0000);
    LowestIsRepresentable();
    FloatExactIff(0x8000_0000);
  }

  // ---- What comes back is a coordinate ----

  /** A spacing is a power of two. */
  lemma {:induction false} SpacingTimes(a: nat, m: nat) returns (k: nat)
    ensures Spacing(a) * m == Doubled(m, k)
  {
    if a < EXACT {
      k := 0;
    } else {
      var j := SpacingTimes(a / 2, m);
      k := j + 1;
    }
  }

  lemma RoundedIsDoubled(a: nat) returns (m: nat, k: nat)
    ensures FloatOf(a) == Doubled(m, k) && m < EXACT
  {
    m := NearestCount(a, Spacing(a));
    k := SpacingTimes(a, m);
    SpacingFits(a);
    QuotientBelow(a, Spacing(a), EXACT);
    if m == EXACT {
      TopHalves(k);
      m, k := 0x80_0000, k + 1;
    }
  }

  lemma {:induction false} TopHalves(k: nat)
    ensures Doubled(EXACT, k) == Doubled(0x80_0000, k + 1)
  {
    if k > 0 {
      TopHalves(k-1);
    }
  }

  lemma Divided(x: real, m: int, k: nat)
    requires Scaled(x, 8) == Scaled(m as real, k) && -(EXACT as int) < m < EXACT
    ensures IsFloat(x)
  {
    if k >= 8 {
      ScaledAdds(m as real, k - 8, 8);
      ScaledApart(x, Scaled(m as real, k - 8), 8);
      assert FloatAs(x, m, k - 8);
    } else {
      ScaledAdds(x, 8 - k, k);
      ScaledApart(Scaled(x, 8 - k), m as real, k);
      assert FloatAs(x, m, 8 - k);
    }
  }

  /** Every received integer becomes a coordinate. */
  lemma RestoredIsFloat(q: i32)
    ensures IsFloat(Restore(q))
  {
    var a, k := RoundedIsDoubled(Size(q));
    var m: int := a;
    if q < 0 {
      m := -m;
    }
    DoubledIsScaled(a, k);
    DoubledIsScaled(m, k);
    ByEight(Restore(q));
    Divided(Restore(q), m, k);
  }

  function RestoreCoordinate(q: i32): (x: Coordinate)
    ensures x == Restore(q)
  {
    RestoredIsFloat(q);
    Restore(q)
  }

  /** What a position is after its trip. */
  function Requantised(x: Coordinate): Coordinate { RestoreCoordinate(Quantise(x)) }
}
