/** Numeric helpers shared by the report decoder and the command encoders:
    bit tests on report bytes, the greedy power-of-two reduction
    (`reduceNumberFromTo`, and its copy `reduceNumberTo`), JavaScript's
    `Math.round` and the decimal `round` with its `pedalToPercent` user.
    Numbers are exact: `real` for JavaScript numbers, `int` for bytes. */
module Numeric {

  datatype Option<+T> = None | Some(value: T)

  /** An unsigned 8-bit value, as the device delivers report bytes. */
  type byte = x: int | 0 <= x < 256

  /** The bit weights of a byte, 1 up to 128. */
  const Weights: set<int> := {1, 2, 4, 8, 16, 32, 64, 128}

  /** JavaScript `n & w` is non-zero, for a power-of-two weight `w` and `n >= 0`. */
  predicate Bit(n: int, w: int)
    requires w > 0
  {
    (n / w) % 2 == 1
  }

  /** The 0/1 number that `(n & w) ? 1 : 0` (or `n & 1`) yields. */
  function Flag(n: int, w: int): (f: int)
    requires w > 0
    ensures f == 0 || f == 1
  {
    if Bit(n, w) then 1 else 0
  }

  /** The eight flags of a byte are its binary digits: they rebuild it. */
  lemma FlagsRebuildByte(b: byte)
    ensures b == 128 * Flag(b, 128) + 64 * Flag(b, 64) + 32 * Flag(b, 32) + 16 * Flag(b, 16)
               + 8 * Flag(b, 8) + 4 * Flag(b, 4) + 2 * Flag(b, 2) + Flag(b, 1)
  {
    var q1 := b / 2;
    var q2 := q1 / 2;
    var q3 := q2 / 2;
    var q4 := q3 / 2;
    var q5 := q4 / 2;
    var q6 := q5 / 2;
    var q7 := q6 / 2;
    assert b / 4 == q2 && b / 8 == q3 && b / 16 == q4;
    assert b / 32 == q5 && b / 64 == q6 && b / 128 == q7;
    assert b == 2 * q1 + Flag(b, 1);
    assert q1 == 2 * q2 + Flag(b, 2);
    assert q2 == 2 * q3 + Flag(b, 4);
    assert q3 == 2 * q4 + Flag(b, 8);
    assert q4 == 2 * q5 + Flag(b, 16);
    assert q5 == 2 * q6 + Flag(b, 32);
    assert q6 == 2 * q7 + Flag(b, 64);
    assert q7 == Flag(b, 128);
  }

  /** The digit at weight `w` of `w * (2 * hi + d) + lo` is `d`. */
  lemma PackedFlag(b: int, w: int, hi: int, d: int, lo: int)
    requires w > 0 && (d == 0 || d == 1) && 0 <= lo < w
    requires b == w * (2 * hi + d) + lo
    ensures Flag(b, w) == d
  {
    DivModUnique(b, w, 2 * hi + d, lo);
  }

  /** Conversely, eight 0/1 digits packed into a byte are read back by the bit tests. */
  lemma FlagsOfPackedByte(d7: int, d6: int, d5: int, d4: int, d3: int, d2: int, d1: int, d0: int)
    requires 0 <= d7 <= 1 && 0 <= d6 <= 1 && 0 <= d5 <= 1 && 0 <= d4 <= 1
    requires 0 <= d3 <= 1 && 0 <= d2 <= 1 && 0 <= d1 <= 1 && 0 <= d0 <= 1
    ensures var b := 128 * d7 + 64 * d6 + 32 * d5 + 16 * d4 + 8 * d3 + 4 * d2 + 2 * d1 + d0;
            0 <= b < 256 &&
            Flag(b, 128) == d7 && Flag(b, 64) == d6 && Flag(b, 32) == d5 && Flag(b, 16) == d4 &&
            Flag(b, 8) == d3 && Flag(b, 4) == d2 && Flag(b, 2) == d1 && Flag(b, 1) == d0
  {
    var b := 128 * d7 + 64 * d6 + 32 * d5 + 16 * d4 + 8 * d3 + 4 * d2 + 2 * d1 + d0;
    PackedFlag(b, 128, 0, d7, 64 * d6 + 32 * d5 + 16 * d4 + 8 * d3 + 4 * d2 + 2 * d1 + d0);
    PackedFlag(b, 64, d7, d6, 32 * d5 + 16 * d4 + 8 * d3 + 4 * d2 + 2 * d1 + d0);
    PackedFlag(b, 32, 2 * d7 + d6, d5, 16 * d4 + 8 * d3 + 4 * d2 + 2 * d1 + d0);
    PackedFlag(b, 16, 4 * d7 + 2 * d6 + d5, d4, 8 * d3 + 4 * d2 + 2 * d1 + d0);
    PackedFlag(b, 8, 8 * d7 + 4 * d6 + 2 * d5 + d4, d3, 4 * d2 + 2 * d1 + d0);
    PackedFlag(b, 4, 16 * d7 + 8 * d6 + 4 * d5 + 2 * d4 + d3, d2, 2 * d1 + d0);
    PackedFlag(b, 2, 32 * d7 + 16 * d6 + 8 * d5 + 4 * d4 + 2 * d3 + d2, d1, d0);
    PackedFlag(b, 1, 64 * d7 + 32 * d6 + 16 * d5 + 8 * d4 + 4 * d3 + 2 * d2 + d1, d0, 0);
  }

  /** Quotient and remainder are unique: `n == d*q + r` with `0 <= r < d`
      fixes `n / d == q` and `n % d == r`. */
  lemma DivModUnique(n: int, d: int, q: int, r: int)
    requires d > 0 && 0 <= r < d && n == d * q + r
    ensures n / d == q && n % d == r
  {
    var q0, r0 := n / d, n % d;
    assert n == d * q0 + r0;
    assert d * q - d * q0 == r0 - r;
    if q > q0 {
      assert d * (q - q0) == d * q - d * q0;
      MulAtLeast(d, q - q0);
    } else if q < q0 {
      assert d * (q0 - q) == d * q0 - d * q;
      MulAtLeast(d, q0 - q);
    }
  }

  lemma {:induction false} MulAtLeast(d: int, k: int)
    requires d > 0 && k >= 1
    ensures d * k >= d
    decreases k
  {
    if k > 1 {
      MulAtLeast(d, k - 1);
      assert d * k == d * (k - 1) + d;
    }
  }

  /** Taking a residue modulo a power of two and then modulo its half is the
      same as taking the residue modulo the half directly. */
  lemma ModHalf(n: int, y: int)
    requires y in Weights
    ensures (n % (2 * y)) % y == n % y
  {
    var q1, r1 := n / (2 * y), n % (2 * y);
    var q2, r2 := r1 / y, r1 % y;
    assert n == y * (2 * q1 + q2) + r2;
    DivModUnique(n, y, 2 * q1 + q2, r2);
  }

  /** One greedy step at weight `y` turns the residue modulo `2*y` into the residue modulo `y`. */
  lemma GreedyStep(num: int, n: int, y: int)
    requires y in Weights && n == num % (2 * y)
    ensures (if n - y >= 0 then n - y else n) == num % y
  {
    ModHalf(num, y);
    if y == 1 {} else if y == 2 {} else if y == 4 {} else if y == 8 {}
    else if y == 16 {} else if y == 32 {} else if y == 64 {} else {}
  }

  /** For weights `to <= y`, the residue modulo `2*y` keeps the residue modulo `2*to`. */
  lemma {:induction false} ModOfWeights(n: int, y: int, to: int)
    requires y in Weights && to in Weights && to <= y
    ensures (n % (2 * y)) % (2 * to) == n % (2 * to)
    decreases y
  {
    if y != to {
      var m := n % (2 * y);
      assert y / 2 in Weights && to <= y / 2;
      ModOfWeights(m, y / 2, to);
      ModOfWeights(n, y / 2, to);
      ModHalf(n, y);
    }
  }

  lemma SmallResidue(n: int, d: int)
    requires 0 <= n < d
    ensures n % d == n
  {
  }

  /** `reduceNumberFromTo(num, to)` and its duplicate `reduceNumberTo`: subtract
      128, 64, ..., 2 greedily (each only when the result stays non-negative)
      until `num` drops below `2*to`. For a power-of-two `to` this strips every
      bit of weight `2*to` or more, leaving `num % (2*to)`. */
  method ReduceNumberFromTo(num: byte, to: int) returns (r: int)
    ensures 0 <= r <= num
    ensures num < 2 * to ==> r == num
    ensures to >= 1 ==> r < 2 * to
    ensures to in Weights ==> r == num % (2 * to)
  {
    var n := num;
    var limit := to * 2;
    var y := 128;
    while y > 1
      invariant y in Weights
      invariant 0 <= n <= num && n < 2 * y
      invariant n == num % (2 * y)
      invariant num < limit ==> n == num
      invariant to in Weights ==> to <= y
    {
      if n < limit {
        break;
      }
      GreedyStep(num, n, y);
      if n - y >= 0 {
        n := n - y;
      }
      y := y / 2;
    }
    if to in Weights {
      ModOfWeights(num, y, to);
      SmallResidue(n, 2 * to);
    }
    r := n;
  }

  /** JavaScript's `Math.round`: the nearest integer, halves rounded up. */
  function MathRound(x: real): (k: int)
    ensures x - 0.5 < k as real <= x + 0.5
  {
    (x + 0.5).Floor
  }

  /** `10^e` for any integer exponent. */
  function Pow10(e: int): (p: real)
    ensures p > 0.0
    decreases if e < 0 then -e else e
  {
    if e == 0 then 1.0
    else if e > 0 then 10.0 * Pow10(e - 1)
    else Pow10(e + 1) / 10.0
  }

  predicate IsIntegral(x: real) {
    x.Floor as real == x
  }

  /** Shift `num` by a power of ten `p` (`10^exp`), round to an integer, shift back. */
  function ShiftRound(num: real, p: real): (r: real)
    requires p > 0.0
    ensures num * p - 0.5 < r * p <= num * p + 0.5
    ensures IsIntegral(r * p)
  {
    var k := MathRound(num * p);
    var r := k as real / p;
    UnshiftCancels(k as real, p);
    assert r * p == k as real;
    assert (r * p).Floor == k;
    r
  }

  /** Shifting back and forth again returns the shifted value. */
  lemma UnshiftCancels(x: real, p: real)
    requires p > 0.0
    ensures (x / p) * p == x
  {
  }

  /** `round(num, exp)`: with `exp` absent or 0 it is `Math.round(num)`; with a
      non-integral `exp` it is NaN (here `None`); otherwise `num` is shifted by
      `10^exp` decimal places, rounded, and shifted back. The decimal string
      shift of the source computes `num * 10^exp` exactly, which is what is
      modelled here. */
  function Round(num: real, exp: Option<real>): (r: Option<real>)
    ensures (exp == None || exp == Some(0.0)) ==> r == Some(MathRound(num) as real)
    ensures exp.Some? && !IsIntegral(exp.value) ==> r == None
    ensures exp.Some? && exp.value != 0.0 && IsIntegral(exp.value) ==> r == Some(ShiftRound(num, Pow10(exp.value.Floor)))
  {
    if exp == None || exp == Some(0.0) then Some(MathRound(num) as real)
    else if !IsIntegral(exp.value) then None
    else Some(ShiftRound(num, Pow10(exp.value.Floor)))
  }

  /** The zero-place shift is `Math.round` itself, so `exp == 0` is no special case. */
  lemma ShiftRoundZero(num: real)
    ensures ShiftRound(num, Pow10(0)) == MathRound(num) as real
  {
    assert Pow10(0) == 1.0;
    assert num * 1.0 == num;
    assert ShiftRound(num, 1.0) == MathRound(num * 1.0) as real / 1.0;
  }

  /** `round(x, 2)`, the only precision the decoder uses. */
  function Round2(x: real): (r: real)
    ensures x * 100.0 - 0.5 < r * 100.0 <= x * 100.0 + 0.5
    ensures IsIntegral(r * 100.0)
  {
    Round(x, Some(2.0)).value
  }

  /** Rounding to two places a value already at two-place resolution changes nothing. */
  lemma Round2Idempotent(x: real)
    ensures Round2(Round2(x)) == Round2(x)
  {
    var r := Round2(x);
    var k := (r * 100.0).Floor;
    assert r * 100.0 == k as real;
    assert MathRound(r * 100.0) == k;
  }

  /** Decimal rounding is exact: 1.005 rounds to 1.01 (binary floating point
      multiply-round-divide would give 1.00). */
  lemma RoundHalfCentUp()
    ensures Round(1.005, Some(2.0)) == Some(1.01)
  {
    assert MathRound(1.005 * 100.0) == 101;
  }

  /** Rounding to two places never moves a value down past an integer or up past one. */
  lemma Round2Monotonic(x: real, y: real)
    requires x <= y
    ensures Round2(x) <= Round2(y)
  {
    assert MathRound(x * 100.0) <= MathRound(y * 100.0);
  }

  function Abs(x: int): (a: nat)
    ensures a == x || a == -x
  {
    if x < 0 then -x else x
  }

  /** `pedalToPercent`: the raw pedal byte is inverted (0 is full pressure) and
      scaled to a fraction in [0, 1] at two-decimal resolution. */
  function PedalToPercent(raw: byte): (p: real)
    ensures 0.0 <= p <= 1.0
    ensures IsIntegral(p * 100.0)
    ensures raw == 0 ==> p == 1.0
    ensures raw == 255 ==> p == 0.0
    ensures (255 - raw) as real / 255.0 * 100.0 - 0.5 < p * 100.0 <= (255 - raw) as real / 255.0 * 100.0 + 0.5
  {
    var inverted := Abs(raw - 255);
    Round2(inverted as real / 255.0)
  }

  /** More pedal travel (a smaller raw byte) never gives a smaller percentage. */
  lemma PedalToPercentAntitone(raw1: byte, raw2: byte)
    requires raw1 <= raw2
    ensures PedalToPercent(raw1) >= PedalToPercent(raw2)
  {
    Round2Monotonic((255 - raw2) as real / 255.0, (255 - raw1) as real / 255.0);
  }
}
