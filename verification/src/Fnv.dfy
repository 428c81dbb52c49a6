/** 32-bit FNV-1a, as the log computes it over a record. */
module Fnv {
  import opened Bytes

  const OFFSET_BASIS: nat := 2166136261
  const PRIME: nat := 16777619
  const PRIME_INVERSE: nat := 899433627   // PRIME * PRIME_INVERSE == 1 modulo 2^32

  /** Bitwise exclusive or of natural numbers. */
  function Xor(a: nat, b: nat): nat
    decreases a + b
  {
    if a == 0 && b == 0 then 0 else (a + b) % 2 + 2 * Xor(a / 2, b / 2)
  }

  function Pow2(k: nat): (p: nat)
    ensures p >= 1
  {
    if k == 0 then 1 else 2 * Pow2(k - 1)
  }

  lemma Pow2By8(k: nat)
    ensures Pow2(k + 8) == 256 * Pow2(k)
  {
    assert Pow2(k + 4) == 2 * Pow2(k + 3) == 4 * Pow2(k + 2) == 8 * Pow2(k + 1) == 16 * Pow2(k);
    assert Pow2(k + 8) == 2 * Pow2(k + 7) == 4 * Pow2(k + 6) == 8 * Pow2(k + 5) == 16 * Pow2(k + 4);
  }

  lemma Pow2Words()
    ensures Pow2(32) == TWO32
  {
    hide Pow2;
    Pow2By8(0);
    Pow2By8(8);
    Pow2By8(16);
    Pow2By8(24);
    assert Pow2(0) == 1 by { Pow2Zero(); }
  }

  lemma Pow2Zero()
    ensures Pow2(0) == 1
  {
  }

  lemma {:induction false} XorBound(a: nat, b: nat, k: nat)
    requires a < Pow2(k) && b < Pow2(k)
    ensures Xor(a, b) < Pow2(k)
    decreases k
  {
    if k > 0 { XorBound(a / 2, b / 2, k - 1); }
  }

  lemma WordBound(a: nat, b: nat)
    requires a < TWO32 && b < TWO32
    ensures Xor(a, b) < TWO32
  {
    hide Xor, Pow2;
    Pow2Words();
    XorBound(a, b, 32);
  }

  /** The lowest bit, and all the others. */
  lemma XorBits(a: nat, b: nat)
    ensures Xor(a, b) % 2 == (a + b) % 2 && Xor(a, b) / 2 == Xor(a / 2, b / 2)
  {
    XorUnfolds(a, b);
    hide Xor;
    TwoParts((a + b) % 2, Xor(a / 2, b / 2));
  }

  lemma XorUnfolds(a: nat, b: nat)
    ensures Xor(a, b) == (a + b) % 2 + 2 * Xor(a / 2, b / 2)
  {
  }

  lemma TwoParts(bit: nat, rest: nat)
    requires bit < 2
    ensures (bit + 2 * rest) % 2 == bit && (bit + 2 * rest) / 2 == rest
  {
  }

  lemma ParityCancels(a: nat, b: nat, x: nat)
    requires x % 2 == (a + b) % 2
    ensures (x + b) % 2 == a % 2
  {
  }

  lemma {:induction false} XorCancels(a: nat, b: nat)
    ensures Xor(Xor(a, b), b) == a
    decreases a + b
  {
    var x := Xor(a, b);
    if a > 0 || b > 0 {
      hide Xor;
      XorBits(a, b);
      XorBits(x, b);
      XorCancels(a / 2, b / 2);
      ParityCancels(a, b, x);
    }
  }

  lemma {:induction false} XorCommutes(a: nat, b: nat)
    ensures Xor(a, b) == Xor(b, a)
    decreases a + b
  {
    if a > 0 || b > 0 { XorCommutes(a / 2, b / 2); }
  }

  /** One turn of the hash loop on a 32-bit state. */
  function Step(hash: nat, b: byte): (next: nat)
    ensures next < TWO32
  {
    Xor(hash, b) * PRIME % TWO32
  }

  function Hash(hash: nat, data: Bytes): nat
    decreases |data|
  {
    if data == [] then hash else Hash(Step(hash, data[0]), data[1..])
  }

  /** Multiplying by the prime can be undone modulo 2^32. */
  lemma PrimeInvertible(x: nat)
    requires x < TWO32
    ensures x * PRIME % TWO32 * PRIME_INVERSE % TWO32 == x
  {
    var q, r := x * PRIME / TWO32, x * PRIME % TWO32;
    assert x * PRIME == TWO32 * q + r;
    assert PRIME * PRIME_INVERSE == 1 + TWO32 * 3513497;
    assert r * PRIME_INVERSE == x + TWO32 * (3513497 * x - q * PRIME_INVERSE);
  }

  /** The step is injective in the state. */
  lemma StepInjectiveInHash(g: nat, h: nat, b: byte)
    requires g < TWO32 && h < TWO32 && Step(g, b) == Step(h, b)
    ensures g == h
  {
    hide Xor;
    WordBound(g, b);
    WordBound(h, b);
    PrimeInvertible(Xor(g, b));
    PrimeInvertible(Xor(h, b));
    assert Xor(g, b) == Xor(h, b);
    XorCancels(g, b);
    XorCancels(h, b);
  }

  /** The step is injective in the byte. */
  lemma StepInjectiveInByte(h: nat, a: byte, b: byte)
    requires h < TWO32 && Step(h, a) == Step(h, b)
    ensures a == b
  {
    hide Xor;
    WordBound(h, a);
    WordBound(h, b);
    PrimeInvertible(Xor(h, a));
    PrimeInvertible(Xor(h, b));
    assert Xor(h, a) == Xor(h, b);
    XorCommutes(h, a);
    XorCommutes(h, b);
    XorCancels(a, h);
    XorCancels(b, h);
  }

  /** Different states stay different over the same remaining bytes. */
  lemma {:induction false} HashInjective(g: nat, h: nat, data: Bytes)
    requires g < TWO32 && h < TWO32 && Hash(g, data) == Hash(h, data)
    ensures g == h
    decreases |data|
  {
    hide Step;
    if data != [] {
      HashInjective(Step(g, data[0]), Step(h, data[0]), data[1..]);
      StepInjectiveInHash(g, h, data[0]);
    }
  }

  /** Changing any one byte changes the hash. */
  lemma {:induction false} HashDetects(h: nat, data: Bytes, i: nat, b: byte)
    requires h < TWO32 && i < |data| && data[i] != b
    ensures Hash(h, data[i := b]) != Hash(h, data)
    decreases |data|
  {
    hide Step;
    var changed := data[i := b];
    if i == 0 {
      assert changed[1..] == data[1..];
      if Hash(h, changed) == Hash(h, data) {
        HashInjective(Step(h, b), Step(h, data[0]), data[1..]);
        StepInjectiveInByte(h, b, data[0]);
        assert false;
      }
    } else {
      assert changed[1..] == data[1..][i - 1 := b];
      HashDetects(Step(h, data[0]), data[1..], i - 1, b);
    }
  }

  lemma {:induction false} HashConcat(h: nat, a: Bytes, b: Bytes)
    ensures Hash(h, a + b) == Hash(Hash(h, a), b)
    decreases |a|
  {
    hide Step;
    if a == [] {
      assert a + b == b;
    } else {
      assert (a + b)[1..] == a[1..] + b;
      HashConcat(Step(h, a[0]), a[1..], b);
    }
  }

  lemma {:induction false} HashBound(h: nat, data: Bytes)
    requires h < TWO32
    ensures Hash(h, data) < TWO32
    decreases |data|
  {
    hide Step;
    if data != [] { HashBound(Step(h, data[0]), data[1..]); }
  }

  lemma {:induction false} XorNothing(a: nat)
    ensures Xor(a, 0) == a
  {
    if a > 0 { XorNothing(a / 2); }
  }

  /** The published value of the hash of the letter a. */
  lemma KnownHash()
    ensures Hash(OFFSET_BASIS, [97]) == 0xe40c292c
  {
    hide Xor;
    XorNothing(OFFSET_BASIS / 128);
    assert Xor(OFFSET_BASIS, 97) == 0x811c9da4 by {
      XorUnfolds(33845879, 1);
      XorUnfolds(67691758, 3);
      XorUnfolds(135383516, 6);
      XorUnfolds(270767032, 12);
      XorUnfolds(541534065, 24);
      XorUnfolds(1083068130, 48);
      XorUnfolds(2166136261, 97);
    }
    assert Hash(Step(OFFSET_BASIS, 97), []) == Step(OFFSET_BASIS, 97);
  }

  /** The update lambda of ComputeChecksum. */
  method Update(start: nat, data: Bytes) returns (hash: nat)
    ensures hash == Hash(start, data)
  {
    hide Step;
    hash := start;
    for index := 0 to |data|
      invariant Hash(hash, data[index..]) == Hash(start, data)
    {
      hash := Step(hash, data[index]);
    }
  }
}
