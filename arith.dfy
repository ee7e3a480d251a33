/** Python's math.floor, math.ceil, min, max and numpy's round on real numbers. */
module Arith {

  function Min(a: real, b: real): real { if a <= b then a else b }

  function Max(a: real, b: real): real { if a >= b then a else b }

  function Abs(r: real): real { if r >= 0.0 then r else -r }

  /** math.floor */
  function Floor(r: real): (f: int)
    ensures f as real <= r < f as real + 1.0
  {
    r.Floor
  }

  /** math.ceil */
  function Ceil(r: real): (c: int)
    ensures c as real - 1.0 < r <= c as real
  {
    -((-r).Floor)
  }

  lemma FloorOfInt(n: int)
    ensures Floor(n as real) == n
  {
  }

  lemma CeilOfInt(n: int)
    ensures Ceil(n as real) == n
  {
  }

  /** An integer lies below the ceiling of q exactly when it lies below q. */
  lemma BelowCeil(n: int, q: real)
    ensures n < Ceil(q) <==> n as real < q
  {
  }

  /** An integer lies at or above the floor of q exactly when it lies above q - 1. */
  lemma AboveFloor(n: int, q: real)
    ensures Floor(q) <= n <==> q < n as real + 1.0
  {
  }

  /** Python's int() on a float: truncation toward zero. */
  function Trunc(r: real): (n: int)
    ensures r >= 0.0 ==> n as real <= r < n as real + 1.0
    ensures r < 0.0 ==> n as real - 1.0 < r <= n as real
  {
    if r >= 0.0 then Floor(r) else Ceil(r)
  }

  /** numpy.round: to the nearest integer, ties to the even neighbour. */
  function RoundHalfEven(r: real): (n: int)
    ensures -0.5 <= r - n as real <= 0.5
    ensures (r - n as real == 0.5 || r - n as real == -0.5) ==> n % 2 == 0
  {
    var f := Floor(r);
    var d := r - f as real;
    if d < 0.5 then f
    else if d > 0.5 then f + 1
    else if f % 2 == 0 then f else f + 1
  }

  lemma RoundOfInt(n: int)
    ensures RoundHalfEven(n as real) == n
  {
  }

  /** For t > 0, a < b / t exactly when a * t < b. */
  lemma LtDiv(a: real, b: real, t: real)
    requires t > 0.0
    ensures a < b / t <==> a * t < b
  {
    assert (b / t) * t == b;
    if a < b / t {
      assert a * t < (b / t) * t;
    } else {
      assert a * t >= (b / t) * t;
    }
  }

  lemma MulConv(a: int, b: int)
    ensures (a * b) as real == a as real * b as real
  {
  }
  /** For t > 0, b / t < a exactly when b < a * t. */
  lemma DivLt(a: real, b: real, t: real)
    requires t > 0.0
    ensures b / t < a <==> b < a * t
  {
    assert (b / t) * t == b;
    if b / t < a {
      assert (b / t) * t < a * t;
    } else {
      assert (b / t) * t >= a * t;
    }
  }

  lemma MulDivCancel(v: real, t: real)
    requires t != 0.0
    ensures (v * t) / t == v
  {
  }

  lemma MulLeMono(a: real, b: real, t: real)
    requires t > 0.0 && a <= b
    ensures a * t <= b * t
  {
  }

  lemma MulLtMono(a: real, b: real, t: real)
    requires t > 0.0 && a < b
    ensures a * t < b * t
  {
  }

  lemma MulLeAnti(a: real, b: real, t: real)
    requires t < 0.0 && a <= b
    ensures b * t <= a * t
  {
  }

  lemma MulLtAnti(a: real, b: real, t: real)
    requires t < 0.0 && a < b
    ensures b * t < a * t
  {
  }

  lemma NegMul(a: real, t: real)
    ensures a * t == (-a) * (-t)
  {
  }

  lemma SubMul(a: real, b: real, t: real)
    ensures a * t - b * t == (a - b) * t
  {
  }

  lemma AddOneMul(a: real, t: real)
    ensures (a + 1.0) * t == a * t + t && (a - 1.0) * t == a * t - t
  {
  }

  lemma DivMulCancel(v: real, t: real)
    requires t != 0.0
    ensures (v / t) * t == v
  {
  }

  lemma IntMulStep(a: int, b: int)
    ensures (a + 1) * b == a * b + b
  {
  }

  lemma IntMulLe(a: int, c: int, b: int)
    requires a <= c && b >= 0
    ensures a * b <= c * b
  {
  }
}
