/** The client's particle randomness (client/vordar-client/src/vfx.rs): a 32-bit generator of
    three shifts, each of them reversible, so that no two states meet; its draws are the
    upper 24 bits of a word as a fraction. Only the particle system draws from it: speeds,
    lifetimes and jitter come from consecutive words, upward directions from as many as the
    rejection loop happens to take, which the particle model leaves open. */
module XorShift {

  function Mix13(x: bv32): bv32 { x ^ (x << 13) }

  function Mix17(x: bv32): bv32 { x ^ (x >> 17) }

  function Mix5(x: bv32): bv32 { x ^ (x << 5) }

  function Compose<T>(h: T -> T, g: T -> T, f: T -> T): T -> T { (x: T) => h(g(f(x))) }

  /** The next state of the generator. */
  function NextWord(): bv32 -> bv32 { Compose(Mix5, Mix17, Mix13) }

  function Undo13(a: bv32): bv32 { a ^ (a << 13) ^ (a << 26) }

  function Undo17(a: bv32): bv32 { a ^ (a >> 17) }

  function Undo5(a: bv32): bv32
  {
    a ^ (a << 5) ^ (a << 10) ^ (a << 15) ^ (a << 20) ^ (a << 25) ^ (a << 30)
  }

  lemma Undoes13(x: bv32)
    ensures Undo13(x ^ (x << 13)) == x
  {
    var a := x ^ (x << 13);
    assert a << 13 == (x << 13) ^ (x << 26);
    assert a << 26 == x << 26;
  }

  lemma Undoes17(x: bv32)
    ensures Undo17(x ^ (x >> 17)) == x
  {
  }

  lemma Undoes5(x: bv32)
    ensures Undo5(x ^ (x << 5)) == x
  {
  }

  ghost predicate Injective<T(!new)>(f: T -> T)
  {
    forall x, y :: f(x) == f(y) ==> x == y
  }

  lemma ComposeInjective<T(!new)>(h: T -> T, g: T -> T, f: T -> T)
    requires Injective(h) && Injective(g) && Injective(f)
    ensures Injective(Compose(h, g, f))
  {
  }

  lemma MixesInjective()
    ensures Injective(Mix13) && Injective(Mix17) && Injective(Mix5)
  {
    forall x: bv32, y: bv32 ensures Mix13(x) == Mix13(y) ==> x == y
    {
      Undoes13(x);
      Undoes13(y);
    }
    forall x: bv32, y: bv32 ensures Mix17(x) == Mix17(y) ==> x == y
    {
      Undoes17(x);
      Undoes17(y);
    }
    forall x: bv32, y: bv32 ensures Mix5(x) == Mix5(y) ==> x == y
    {
      Undoes5(x);
      Undoes5(y);
    }
  }

  /** No two states of the generator lead to the same one. */
  lemma GeneratorInjective()
    ensures Injective(NextWord())
  {
    MixesInjective();
    ComposeInjective(Mix5, Mix17, Mix13);
  }

  /** The generator's words as fractions in [0, 1). */
  function Fraction(x: bv32): (r: real)
    ensures 0.0 <= r < 1.0
  {
    ((x >> 8) as nat) as real / 16777216.0
  }

  /** The state after `k` draws. */
  function After(x: bv32, k: nat): bv32
  {
    if k == 0 then x else NextWord()(After(x, k-1))
  }

  /** A nonzero state never becomes zero, which would stick. */
  lemma {:induction false} NonzeroStays(x: bv32, k: nat)
    requires x != 0
    ensures After(x, k) != 0
  {
    if k > 0 {
      NonzeroStays(x, k-1);
      GeneratorInjective();
      ZeroSticks();
    }
  }

  lemma ZeroSticks()
    ensures NextWord()(0) == 0
  {
    assert Mix13(0) == 0 && Mix17(0) == 0 && Mix5(0) == 0;
  }

  /** The `k`-th draw from state `x`, counting from 1. */
  function Draw(x: bv32, k: nat): (r: real)
    ensures 0.0 <= r < 1.0
  {
    Fraction(After(x, k))
  }
}
