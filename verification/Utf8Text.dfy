/** The text a message may carry (game/vordar-protocol/src/lib.rs): exactly the encodings of
    sequences of Unicode scalar values (section 3 of RFC 3629). */
module Utf8Text {
  import opened Varint
  import opened Codecs

  /** A code point that is no surrogate. */
  type Scalar = c: nat | c < 0xD800 || 0xE000 <= c < 0x11_0000

  function Trail(c: nat): byte { 0x80 + c % 64 }

  function Encode(c: Scalar): Bytes
  {
    if c < 0x80 then [c]
    else if c < 0x800 then [0xC0 + c / 64, Trail(c)]
    else if c < 0x1_0000 then [0xE0 + c / 4096, Trail(c / 64), Trail(c)]
    else [0xF0 + c / 262144, Trail(c / 4096), Trail(c / 64), Trail(c)]
  }

  function EncodeAll(cs: seq<Scalar>): Bytes
  {
    if cs == [] then [] else Encode(cs[0]) + EncodeAll(cs[1..])
  }

  lemma OneIsText(c: Scalar, rest: Bytes)
    ensures Utf8(Encode(c) + rest) == Utf8(rest)
  {
    var s := Encode(c) + rest;
    assert s[|Encode(c)|..] == rest;
    if 0x80 <= c < 0x800 {
      assert 2 <= c / 64 < 32;
    } else if 0x800 <= c < 0x1_0000 {
      ThreeFit(c);
    } else if c >= 0x1_0000 {
      FourFit(c);
    }
  }

  lemma ThreeFit(c: Scalar)
    requires 0x800 <= c < 0x1_0000
    ensures c / 4096 < 16
    ensures c / 4096 == 0 ==> Trail(c / 64) >= 0xA0
    ensures c / 4096 == 13 ==> Trail(c / 64) < 0xA0
  {
    assert c / 64 / 64 == c / 4096;
  }

  lemma FourFit(c: Scalar)
    requires c >= 0x1_0000
    ensures c / 262144 < 5
    ensures c / 262144 == 0 ==> Trail(c / 4096) >= 0x90
    ensures c / 262144 == 4 ==> Trail(c / 4096) < 0x90
  {
    assert c / 4096 / 64 == c / 262144;
  }

  /** Every encoding is text. */
  lemma {:induction false} EncodingsAreText(cs: seq<Scalar>)
    ensures Utf8(EncodeAll(cs))
  {
    if cs != [] {
      EncodingsAreText(cs[1..]);
      OneIsText(cs[0], EncodeAll(cs[1..]));
    }
  }

  /** The six bits of a trailing byte. */
  function Six(b: byte): nat
    requires Tail(b)
  {
    b - 0x80
  }

  lemma Digit(high: nat, low: nat)
    requires low < 64
    ensures (high * 64 + low) / 64 == high && (high * 64 + low) % 64 == low
  {
  }

  lemma EncodeTwo(a: byte, b: byte) returns (c: Scalar)
    requires 0xC2 <= a < 0xE0 && Tail(b)
    ensures Encode(c) == [a, b]
  {
    var high: nat := a - 0xC0;
    c := high * 64 + Six(b);
    Digit(high, Six(b));
  }

  lemma EncodeThree(a: byte, b: byte, d: byte) returns (c: Scalar)
    requires 0xE0 <= a < 0xF0 && Tail(b) && Tail(d) && (a == 0xE0 ==> b >= 0xA0) && (a == 0xED ==> b < 0xA0)
    ensures Encode(c) == [a, b, d]
  {
    var first: nat := a - 0xE0;
    var high := first * 64 + Six(b);
    Digit(first, Six(b));
    Digit(high, Six(d));
    c := high * 64 + Six(d);
    assert c / 4096 == c / 64 / 64;
  }

  lemma EncodeFour(a: byte, b: byte, d: byte, e: byte) returns (c: Scalar)
    requires 0xF0 <= a < 0xF5 && Tail(b) && Tail(d) && Tail(e) && (a == 0xF0 ==> b >= 0x90) && (a == 0xF4 ==> b < 0x90)
    ensures Encode(c) == [a, b, d, e]
  {
    var first: nat := a - 0xF0;
    var upper := first * 64 + Six(b);
    var high := upper * 64 + Six(d);
    Digit(first, Six(b));
    Digit(upper, Six(d));
    Digit(high, Six(e));
    c := high * 64 + Six(e);
    assert c / 4096 == c / 64 / 64 && c / 262144 == c / 64 / 64 / 64;
  }

  /** The first character of a nonempty text. */
  lemma FirstOf(s: Bytes) returns (c: Scalar)
    requires Utf8(s) && s != []
    ensures |Encode(c)| <= |s| && Encode(c) == s[..|Encode(c)|] && Utf8(s[|Encode(c)|..])
  {
    if s[0] < 0x80 {
      c := s[0];
    } else if s[0] < 0xE0 {
      c := EncodeTwo(s[0], s[1]);
    } else if s[0] < 0xF0 {
      c := EncodeThree(s[0], s[1], s[2]);
    } else {
      c := EncodeFour(s[0], s[1], s[2], s[3]);
    }
  }

  /** Every text is an encoding. */
  lemma {:induction false} TextIsEncoding(s: Bytes) returns (cs: seq<Scalar>)
    requires Utf8(s)
    ensures EncodeAll(cs) == s
    decreases |s|
  {
    if s == [] {
      cs := [];
    } else {
      var c := FirstOf(s);
      var rest := TextIsEncoding(s[|Encode(c)|..]);
      cs := [c] + rest;
      assert cs[1..] == rest;
      assert s == s[..|Encode(c)|] + s[|Encode(c)|..];
    }
  }

  /** A text is well formed exactly when it encodes scalar values. */
  lemma Utf8Iff(s: Bytes)
    ensures Utf8(s) <==> exists cs: seq<Scalar> :: EncodeAll(cs) == s
  {
    if Utf8(s) {
      var cs := TextIsEncoding(s);
    }
    if cs: seq<Scalar> :| EncodeAll(cs) == s {
      EncodingsAreText(cs);
    }
  }
}
