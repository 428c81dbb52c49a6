/** Bytes and byte strings: what the C++ sources call `std::string`. */
module Bytes {

  type byte = b: int | 0 <= b < 256
  type Bytes = seq<byte>

  const TWO32: nat := 0x1_0000_0000
  const TWO64: nat := 0x1_0000_0000_0000_0000

  /** The bytes of an ASCII literal. */
  function Ascii(text: string): Bytes {
    seq(|text|, i requires 0 <= i < |text| => (text[i] as int) % 256)
  }

  // Fixed-width integers as they lie in memory on a little-endian host

  function Le32(n: nat): (b: Bytes)
    ensures |b| == 4
  {
    [n % 256, n / 256 % 256, n / 65536 % 256, n / 16777216 % 256]
  }

  function FromLe32(b: Bytes): (n: nat)
    requires |b| == 4
    ensures n < TWO32
  {
    var b0: int, b1: int, b2: int, b3: int := b[0], b[1], b[2], b[3];
    b0 + 256 * b1 + 65536 * b2 + 16777216 * b3
  }

  lemma Le32RoundTrip(n: nat)
    requires n < TWO32
    ensures FromLe32(Le32(n)) == n
  {
    assert n / 16777216 % 256 == n / 16777216;
    assert n / 65536 == 256 * (n / 16777216) + n / 65536 % 256;
    assert n / 256 == 256 * (n / 65536) + n / 256 % 256;
  }

  lemma Digit(low: nat, high: nat)
    requires low < 256
    ensures (low + 256 * high) % 256 == low && (low + 256 * high) / 256 == high
  {
  }

  lemma DivideTwice(n: nat)
    ensures n / 65536 == n / 256 / 256 && n / 16777216 == n / 65536 / 256
  {
  }

  lemma FromLe32Injective(a: Bytes)
    requires |a| == 4
    ensures Le32(FromLe32(a)) == a
  {
    var a0: int, a1: int, a2: int, a3: int := a[0], a[1], a[2], a[3];
    var n := FromLe32(a);
    Digit(a0, a1 + 256 * a2 + 65536 * a3);
    Digit(a1, a2 + 256 * a3);
    Digit(a2, a3);
    DivideTwice(n);
    assert n == a0 + 256 * (a1 + 256 * a2 + 65536 * a3);
    assert n / 16777216 == a3 == a3 % 256;
  }

  function Le64(n: nat): (b: Bytes)
    ensures |b| == 8
  {
    Le32(n % TWO32) + Le32(n / TWO32 % TWO32)
  }

  function FromLe64(b: Bytes): nat
    requires |b| == 8
  {
    FromLe32(b[..4]) + TWO32 * FromLe32(b[4..])
  }

  lemma Le64RoundTrip(n: nat)
    requires n < TWO64
    ensures FromLe64(Le64(n)) == n
  {
    Le32RoundTrip(n % TWO32);
    Le32RoundTrip(n / TWO32 % TWO32);
    assert Le64(n)[..4] == Le32(n % TWO32) && Le64(n)[4..] == Le32(n / TWO32 % TWO32);
  }

  lemma Halves(low: nat, high: nat)
    requires low < TWO32 && high < TWO32
    ensures var n := low + TWO32 * high; n < TWO64 && n % TWO32 == low && n / TWO32 % TWO32 == high
  {
  }

  lemma FromLe64Injective(a: Bytes)
    requires |a| == 8
    ensures Le64(FromLe64(a)) == a && FromLe64(a) < TWO64
  {
    FromLe32Injective(a[..4]);
    FromLe32Injective(a[4..]);
    hide FromLe32, Le32;
    Halves(FromLe32(a[..4]), FromLe32(a[4..]));
    assert a == a[..4] + a[4..];
  }
}
