/**
 * Machine words, as `longlong.h` assumes them: 16-bit digits, 32-bit `unsigned int`,
 * 64-bit `long long` in two's complement.  Every wrap-around is written out.
 */
module Words {

  const B: int := 0x1_0000
  const W32: int := 0x1_0000_0000
  const W64: int := 0x1_0000_0000_0000_0000

  type digit = x: int | 0 <= x < 0x1_0000
  type uint32 = x: int | 0 <= x < 0x1_0000_0000
  type uint64 = x: int | 0 <= x < 0x1_0000_0000_0000_0000
  type int64 = x: int | -0x8000_0000_0000_0000 <= x < 0x8000_0000_0000_0000

  // The value a C expression of type `unsigned int` has when its mathematical value is x.
  function U32(x: int): uint32 {
    x % W32
  }

  function U64(x: int): uint64 {
    x % W64
  }

  // Conversion of an unsigned 64-bit value to `long long`.
  function ToSigned(x: uint64): int64 {
    if x < 0x8000_0000_0000_0000 then x else x - W64
  }

  function HHalf(x: uint32): digit {
    x / B
  }

  function LHalf(x: uint32): digit {
    x % B
  }

  function LHup(x: uint32): uint32 {
    U32(x * B)
  }

  // COMBINE(a, b) shifts a up half a word and ors in the digit b.  The two operands
  // of the or share no bit, so it is written as a sum.
  function Combine(a: uint32, b: digit): uint32 {
    U32(a * B) + b
  }

  // The union `uu` seen as its two words.
  function High(x: uint64): uint32 {
    x / W32
  }

  function Low(x: uint64): uint32 {
    x % W32
  }

  function Join(h: uint32, l: uint32): uint64 {
    h * W32 + l
  }

  // Nonlinear facts the proofs call by name.

  lemma MulMono(a: int, b: int, c: int)
    requires a <= b && 0 <= c
    ensures a * c <= b * c
  {
  }

  lemma MulDist(a: int, b: int, c: int)
    ensures (a + b) * c == a * c + b * c
    ensures (a - b) * c == a * c - b * c
  {
  }

  lemma MulAssoc(a: int, b: int, c: int)
    ensures a * (b * c) == (a * b) * c
  {
  }

  lemma DivMod(x: int, y: int)
    requires y > 0
    ensures x == (x / y) * y + x % y && 0 <= x % y < y
  {
  }

  // x divided by y gives quotient q and remainder r.
  ghost predicate Divides(x: int, y: int, q: int, r: int) {
    x == q * y + r && 0 <= r < y
  }

  lemma DivModUnique(x: int, y: int, q: int, r: int)
    requires Divides(x, y, q, r)
    ensures q == x / y && r == x % y
  {
    DivMod(x, y);
    var t := x / y;
    MulDist(t, q, y);
    if t > q {
      MulMono(1, t - q, y);
    } else if t < q {
      MulMono(t - q, -1, y);
    }
  }

  lemma NoOverflow(a: digit, b: digit)
    ensures 0 <= a * b <= (B - 1) * (B - 1)
    ensures U32(a * b) == a * b
  {
    MulMono(0, a, b);
    MulMono(a, B - 1, b);
    SmallWord(a * b);
  }

  lemma SmallWord(x: int)
    requires 0 <= x < W32
    ensures U32(x) == x
  {
  }
}
