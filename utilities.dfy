/** Numeric helpers of the page script (`Utilities` in js/main.js): the random
    range mapping, the one- or two-sided clamp, `Math.round`, `roundTo` and the
    unused 32-bit string hash. JavaScript numbers are modelled as exact reals;
    the hash works on integers with its 32-bit wrap-around written out. */
module Utilities {

  datatype Option<T> = None | Some(value: T)

  /** A value `Math.random()` can return. */
  predicate IsUnitDraw(u: real) {
    0.0 <= u < 1.0
  }

  predicate IsInteger(x: real) {
    x.Floor as real == x
  }

  /** `Utilities.random(start, end)`, where `u` is the `Math.random()` draw it makes. */
  function Random(start: real, end: real, u: real): (r: real)
    requires IsUnitDraw(u)
    ensures start < end ==> start <= r < end
    ensures start == end ==> r == start
  {
    var width := end - start;
    if width >= 0.0 then ScaleBelow(u, width); u * width + start
    else u * width + start
  }

  lemma ScaleBelow(u: real, w: real)
    requires IsUnitDraw(u) && w >= 0.0
    ensures 0.0 <= u * w <= w
    ensures w > 0.0 ==> u * w < w
  {
    assert (1.0 - u) * w >= 0.0;
    if w > 0.0 {
      assert (1.0 - u) * w > 0.0;
    }
  }

  /** `Utilities.minMax`: raise to `min`, then lower to `max`, each only when present. */
  function MinMax(value: real, min: Option<real>, max: Option<real>): (r: real)
    ensures max.Some? ==> r <= max.value
    ensures min.Some? && (max.None? || min.value <= max.value) ==> min.value <= r
    ensures (min.None? || min.value <= value) && (max.None? || value <= max.value) ==> r == value
    ensures min.Some? && max.Some? && max.value < min.value ==> r == max.value
    ensures r == value || (min.Some? && r == min.value) || (max.Some? && r == max.value)
  {
    var raised := if min.Some? && value < min.value then min.value else value;
    if max.Some? && raised > max.value then max.value else raised
  }

  lemma IntegerIsInteger(k: int)
    ensures IsInteger(k as real)
  {
  }

  /** `Math.round`: the nearest integer, a half rounding up. */
  function Round(x: real): (k: int)
    ensures x - 0.5 < k as real <= x + 0.5
  {
    (x + 0.5).Floor
  }

  lemma RoundOfInteger(k: int)
    ensures Round(k as real) == k
  {
  }

  lemma {:induction false} RoundMonotone(x: real, y: real)
    requires x <= y
    ensures Round(x) <= Round(y)
  {
    assert x + 0.5 <= y + 0.5;
  }

  /** `Utilities.roundTo(num, decimalPlaces)`: rounds `num` to a multiple of
      1 / (10 * decimalPlaces), the nearest one, a half rounding up. Its
      argument is a multiplier of ten, not a number of decimal places. */
  function RoundTo(num: real, decimalPlaces: int): (r: real)
    requires decimalPlaces > 0
    ensures r * (10 * decimalPlaces) as real == Round(num * (10 * decimalPlaces) as real) as real
    ensures num * (10 * decimalPlaces) as real - 0.5 < r * (10 * decimalPlaces) as real
                                                    <= num * (10 * decimalPlaces) as real + 0.5
  {
    var k := Round(num * (10 * decimalPlaces) as real);
    var q := k as real / (10 * decimalPlaces) as real;
    ScaleBack(q, (10 * decimalPlaces) as real, k);
    q
  }

  lemma ScaleBack(q: real, d: real, k: int)
    requires d > 0.0 && q == k as real / d
    ensures q * d == k as real
  {
  }

  lemma IntegerValued(x: real, k: int)
    requires x == k as real
    ensures IsInteger(x)
  {
  }

  /** With the argument 2 used by the page, `roundTo` snaps to twentieths:
      the result is a multiple of 1/20 and within 1/40 of its input. */
  lemma {:induction false} RoundToTwentieths(x: real)
    ensures IsInteger(20.0 * RoundTo(x, 2))
    ensures x - 0.025 < RoundTo(x, 2) <= x + 0.025
  {
    var r := RoundTo(x, 2);
    assert r * 20.0 == 20.0 * r;
    IntegerValued(20.0 * r, Round(x * 20.0));
    assert x * 20.0 - 0.5 < r * 20.0 <= x * 20.0 + 0.5;
  }

  /** Rounding to twentieths a second time changes nothing. */
  lemma {:induction false} RoundToIdempotent(x: real)
    ensures RoundTo(RoundTo(x, 2), 2) == RoundTo(x, 2)
  {
    var r := RoundTo(x, 2);
    RoundToTwentieths(x);
    var k := (20.0 * r).Floor;
    assert r * 20.0 == k as real;
    RoundOfInteger(k);
    assert Round(r * 20.0) == k;
  }

  /** Rounding to twentieths keeps a value inside an interval whose ends are
      multiples of 1/20. */
  lemma {:induction false} RoundToWithin(x: real, lo: real, hi: real)
    requires lo <= x <= hi
    requires IsInteger(20.0 * lo) && IsInteger(20.0 * hi)
    ensures lo <= RoundTo(x, 2) <= hi
  {
    RoundMonotone(lo * 20.0, x * 20.0);
    RoundMonotone(x * 20.0, hi * 20.0);
    RoundOfInteger((20.0 * lo).Floor);
    RoundOfInteger((20.0 * hi).Floor);
    assert Round(lo * 20.0) as real == lo * 20.0;
    assert Round(hi * 20.0) as real == hi * 20.0;
    var k := Round(x * 20.0);
    assert RoundTo(x, 2) == k as real / 20.0;
  }

  // ---------------------------------------------------------------------
  // `Utilities.toHash`: a 31-multiplier hash over UTF-16 code units with
  // 32-bit wrap-around (the page never calls it).

  /** A UTF-16 code unit, what `charCodeAt` returns. */
  newtype CodeUnit = c: int | 0 <= c < 0x1_0000

  const TWO_32: int := 0x1_0000_0000

  /** JavaScript's ToInt32 on an integer: the signed 32-bit value congruent to `x`. */
  function ToInt32(x: int): (r: int)
    ensures -0x8000_0000 <= r < 0x8000_0000
    ensures (r - x) % TWO_32 == 0
  {
    (x + 0x8000_0000) % TWO_32 - 0x8000_0000
  }

  lemma {:induction false} ToInt32Shift(x: int, k: int)
    ensures ToInt32(x + k * TWO_32) == ToInt32(x)
    decreases if k < 0 then -k else k
  {
    if k > 0 {
      ToInt32Shift(x, k - 1);
      assert x + k * TWO_32 == (x + (k - 1) * TWO_32) + TWO_32;
    } else if k < 0 {
      ToInt32Shift(x, k + 1);
      assert x + k * TWO_32 == (x + (k + 1) * TWO_32) - TWO_32;
    }
  }

  /** Wrapping before or after a step of the hash gives the same value. */
  lemma {:induction false} ToInt32Step(a: int, c: int)
    ensures ToInt32(31 * ToInt32(a) + c) == ToInt32(31 * a + c)
  {
    var q := (a + 0x8000_0000) / TWO_32;
    assert ToInt32(a) == a - q * TWO_32;
    assert 31 * ToInt32(a) + c == (31 * a + c) + (-31 * q) * TWO_32;
    ToInt32Shift(31 * a + c, -31 * q);
  }

  /** The reference hash: `h(s + [c]) = (31 * h(s) + c)` wrapped to 32 bits. */
  function HashOf(s: seq<CodeUnit>): (h: int)
    ensures -0x8000_0000 <= h < 0x8000_0000
  {
    if |s| == 0 then 0 else ToInt32(31 * HashOf(s[..|s| - 1]) + s[|s| - 1] as int)
  }

  /** The hash polynomial without any wrap-around:
      `s[0] * 31^(n-1) + ... + s[n-1]`, in Horner form. */
  function Polynomial(s: seq<CodeUnit>): int {
    if |s| == 0 then 0 else 31 * Polynomial(s[..|s| - 1]) + s[|s| - 1] as int
  }

  /** The wrapped hash is the hash polynomial reduced to a signed 32-bit value. */
  lemma {:induction false} HashIsWrappedPolynomial(s: seq<CodeUnit>)
    ensures HashOf(s) == ToInt32(Polynomial(s))
  {
    if |s| > 0 {
      var p := s[..|s| - 1];
      HashIsWrappedPolynomial(p);
      ToInt32Step(Polynomial(p), s[|s| - 1] as int);
    } else {
      assert ToInt32(0) == 0;
    }
  }

  /** `Utilities.toHash`, with its two-step update: `(hash << 5) - hash + char`
      (the shift wraps `hash * 32` to 32 bits) and then `hash & hash`. */
  method ToHash(str: seq<CodeUnit>) returns (hash: int)
    ensures hash == HashOf(str)
  {
    hash := 0;
    if |str| == 0 {
      return hash;
    }
    var i := 0;
    while i < |str|
      invariant 0 <= i <= |str|
      invariant hash == HashOf(str[..i])
    {
      var code := str[i] as int;
      HashStepAgrees(hash, code);
      hash := ToInt32(hash * 32) - hash + code;
      hash := ToInt32(hash);
      assert str[..i + 1][..i] == str[..i];
      i := i + 1;
    }
    assert str[..i] == str;
  }

  /** One step of `toHash` as written equals one step of the reference hash. */
  lemma {:induction false} HashStepAgrees(h: int, c: int)
    ensures ToInt32(ToInt32(h * 32) - h + c) == ToInt32(31 * h + c)
  {
    var q := (h * 32 + 0x8000_0000) / TWO_32;
    assert ToInt32(h * 32) == h * 32 - q * TWO_32;
    assert ToInt32(h * 32) - h + c == (31 * h + c) + (-q) * TWO_32;
    ToInt32Shift(31 * h + c, -q);
  }
}
