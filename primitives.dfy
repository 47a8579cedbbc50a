/** The scalar primitives of the .NET runtime that the engine relies on:
    MathF's square root and trigonometry, the float limits used as sentinels,
    Math.Abs / MathF.Min / Math.Clamp, C#'s truncating integer division and
    remainder, the truncating float-to-int cast and the float remainder.
    Numbers are modelled as mathematical reals; IEEE-754 rounding is not modelled. */
module Primitives {

  /** MathF.Sqrt, MathF.Sin, MathF.Cos and Math.Tan, left uninterpreted.
      The only facts the model may use about them are the hypotheses
      SqrtLaws() and TrigLaws() below, which a lemma must require explicitly. */
  const Sqrt: real -> real
  const Sin: real -> real
  const Cos: real -> real
  const Tan: real -> real

  /** The square root is non-negative and squares back on non-negative reals. */
  ghost predicate SqrtLaws() {
    forall x: real :: x >= 0.0 ==> Sqrt(x) >= 0.0 && Sqrt(x) * Sqrt(x) == x
  }

  /** sin^2 + cos^2 = 1 at every angle. */
  ghost predicate TrigLaws() {
    forall a: real :: Sin(a) * Sin(a) + Cos(a) * Cos(a) == 1.0
  }

  /** float.MaxValue and float.MinValue, exactly: (2 - 2^-23) * 2^127 and its negation. */
  const FloatMax: real := 340282346638528859811704183484516925440.0
  const FloatMin: real := -FloatMax

  /** MathF.PI, MathHelper.TwoPi and MathHelper.PiOver2 as the float32 values the source uses. */
  const PI: real := 3.1415927410125732421875
  const TwoPi: real := 6.283185482025146484375
  const PiOver2: real := 1.57079637050628662109375

  function Abs(x: real): (r: real)
    ensures r >= 0.0 && (r == x || r == -x)
  {
    if x < 0.0 then -x else x
  }

  /** MathF.Min. */
  function Min(a: real, b: real): (r: real)
    ensures r <= a && r <= b && (r == a || r == b)
  {
    if a < b then a else b
  }

  /** Math.Clamp on floats; the source only calls it with lo <= hi. */
  function Clamp(value: real, lo: real, hi: real): (r: real)
    requires lo <= hi
    ensures lo <= r <= hi
    ensures lo <= value <= hi ==> r == value
    ensures value < lo ==> r == lo
    ensures value > hi ==> r == hi
  {
    if value < lo then lo else if value > hi then hi else value
  }

  /** Math.Clamp on ints. */
  function ClampInt(value: int, lo: int, hi: int): (r: int)
    requires lo <= hi
    ensures lo <= r <= hi
    ensures lo <= value <= hi ==> r == value
    ensures value < lo ==> r == lo
    ensures value > hi ==> r == hi
  {
    if value < lo then lo else if value > hi then hi else value
  }

  /** The C# cast (int)x of a float: truncation toward zero
      (the result for values outside the int range is not modelled). */
  function Truncate(x: real): (r: int)
    ensures x >= 0.0 ==> 0 <= r && r as real <= x < r as real + 1.0
    ensures x <= 0.0 ==> r <= 0 && r as real - 1.0 < x <= r as real
  {
    if x >= 0.0 then x.Floor else -((-x).Floor)
  }

  /** C#'s integer division a / b, which truncates toward zero. */
  function TruncDiv(a: int, b: int): int
    requires b != 0
  {
    var q := (if a < 0 then -a else a) / (if b < 0 then -b else b);
    if (a < 0) != (b < 0) then -q else q
  }

  /** C#'s integer remainder a % b: it has the sign of a, unlike Dafny's Euclidean %. */
  function TruncRem(a: int, b: int): (r: int)
    requires b != 0
    ensures a == b * TruncDiv(a, b) + r
    ensures a >= 0 ==> 0 <= r < (if b < 0 then -b else b)
    ensures a <= 0 ==> -(if b < 0 then -b else b) < r <= 0
  {
    a - b * TruncDiv(a, b)
  }

  /** On a non-negative dividend and a positive divisor, C#'s / and % agree with Dafny's. */
  lemma TruncMatchesEuclidean(a: int, b: int)
    requires a >= 0 && b > 0
    ensures TruncDiv(a, b) == a / b && TruncRem(a, b) == a % b
  {
  }

  /** Euclidean division of a value below twice the divisor. */
  lemma SmallMod(a: int, b: int)
    requires b > 0 && 0 <= a < 2 * b
    ensures a % b == (if a < b then a else a - b)
    ensures a / b == (if a < b then 0 else 1)
  {
    if a < b {
      assert a == b * 0 + a;
    } else {
      assert a == b * 1 + (a - b);
    }
  }

  lemma MulAtLeast(n: int, k: int)
    requires n > 0 && k >= 1
    ensures n * k >= n
  {
  }

  lemma MulAtMost(n: int, k: int)
    requires n > 0 && k <= -1
    ensures n * k <= -n
  {
  }

  /** Euclidean quotient and remainder are the only q, r with a == n * q + r and 0 <= r < n. */
  lemma ModUnique(a: int, n: int, q: int, r: int)
    requires n > 0 && 0 <= r < n && a == n * q + r
    ensures a / n == q && a % n == r
  {
    var k := q - a / n;
    assert n * k == a % n - r;
    if k >= 1 {
      MulAtLeast(n, k);
    } else if k <= -1 {
      MulAtMost(n, k);
    }
  }

  /** The C# float remainder x % y (truncated, with the sign of x). */
  function FloatRem(x: real, y: real): real
    requires y != 0.0
  {
    x - y * Truncate(x / y) as real
  }

  /** The float remainder lies strictly between -|y| and |y| and has the sign of x. */
  lemma FloatRemBounds(x: real, y: real)
    requires y != 0.0
    ensures Abs(FloatRem(x, y)) < Abs(y)
    ensures x >= 0.0 ==> FloatRem(x, y) >= 0.0
    ensures x <= 0.0 ==> FloatRem(x, y) <= 0.0
  {
    var q := x / y;
    var f := q - Truncate(q) as real;
    assert -1.0 < f < 1.0;
    FloatRemAsFraction(x, y);
    calc {
      Abs(FloatRem(x, y));
    ==
      Abs(y * f);
    < { FractionTimes(y, f); }
      Abs(y);
    }
    QuotientSign(x, y);
    assert q >= 0.0 ==> f >= 0.0;
    assert q <= 0.0 ==> f <= 0.0;
    ProductSign(y, f);
  }

  /** x % y is y times the fractional part of x / y. */
  lemma FloatRemAsFraction(x: real, y: real)
    requires y != 0.0
    ensures FloatRem(x, y) == y * (x / y - Truncate(x / y) as real)
  {
    var q := x / y;
    var t := Truncate(q) as real;
    calc {
      FloatRem(x, y);
    ==
      x - y * t;
    == { QuotientTimes(x, y); }
      q * y - y * t;
    ==
      y * (q - t);
    }
  }

  lemma FractionTimes(y: real, f: real)
    requires y != 0.0 && -1.0 < f < 1.0
    ensures Abs(y * f) < Abs(y)
  {
    if y > 0.0 {
      if f >= 0.0 { assert y * f < y * 1.0; } else { assert y * -f < y * 1.0; }
    } else {
      if f >= 0.0 { assert -y * f < -y * 1.0; } else { assert -y * -f < -y * 1.0; }
    }
  }

  /** The sign of a quotient. */
  lemma QuotientSign(x: real, y: real)
    requires y != 0.0
    ensures (x >= 0.0 && y > 0.0) || (x <= 0.0 && y < 0.0) ==> x / y >= 0.0
    ensures (x >= 0.0 && y < 0.0) || (x <= 0.0 && y > 0.0) ==> x / y <= 0.0
  {
  }

  /** The sign of a product. */
  lemma ProductSign(a: real, b: real)
    ensures (a >= 0.0 && b >= 0.0) || (a <= 0.0 && b <= 0.0) ==> a * b >= 0.0
    ensures (a >= 0.0 && b <= 0.0) || (a <= 0.0 && b >= 0.0) ==> a * b <= 0.0
  {
  }

  /** The running minimum of a float loop, seeded with float.MaxValue:
      `min = float.MaxValue; foreach x: if (x < min) min = x;`.
      It is a lower bound of every element and is either the seed or attained. */
  function RunningMin(s: seq<real>): (m: real)
    ensures m <= FloatMax
    ensures forall i :: 0 <= i < |s| ==> m <= s[i]
    ensures m == FloatMax || exists i :: 0 <= i < |s| && m == s[i]
  {
    if |s| == 0 then FloatMax
    else
      var m0 := RunningMin(s[..|s| - 1]);
      assert forall i :: 0 <= i < |s| - 1 ==> s[..|s| - 1][i] == s[i];
      if s[|s| - 1] < m0 then s[|s| - 1] else m0
  }

  /** The running maximum of a float loop, seeded with float.MinValue. */
  function RunningMax(s: seq<real>): (m: real)
    ensures m >= FloatMin
    ensures forall i :: 0 <= i < |s| ==> s[i] <= m
    ensures m == FloatMin || exists i :: 0 <= i < |s| && m == s[i]
  {
    if |s| == 0 then FloatMin
    else
      var m0 := RunningMax(s[..|s| - 1]);
      assert forall i :: 0 <= i < |s| - 1 ==> s[..|s| - 1][i] == s[i];
      if s[|s| - 1] > m0 then s[|s| - 1] else m0
  }

  /** One more element of a running bound: the loop body's update. */
  lemma RunningStep(s: seq<real>, i: int)
    requires 0 <= i < |s|
    ensures RunningMin(s[..i + 1]) == if s[i] < RunningMin(s[..i]) then s[i] else RunningMin(s[..i])
    ensures RunningMax(s[..i + 1]) == if s[i] > RunningMax(s[..i]) then s[i] else RunningMax(s[..i])
  {
    assert s[..i + 1][..i] == s[..i];
  }

  /** Every value lies within the float range. */
  ghost predicate InFloatRange(s: seq<real>) {
    forall i :: 0 <= i < |s| ==> FloatMin <= s[i] <= FloatMax
  }

  /** On a non-empty sequence of in-range values both running bounds are attained. */
  lemma {:induction false} RunningBoundsAttained(s: seq<real>)
    requires |s| > 0 && InFloatRange(s)
    ensures exists i :: 0 <= i < |s| && RunningMin(s) == s[i]
    ensures exists j :: 0 <= j < |s| && RunningMax(s) == s[j]
  {
    if RunningMin(s) == FloatMax {
      assert s[0] <= FloatMax && RunningMin(s) <= s[0];
    }
    if RunningMax(s) == FloatMin {
      assert s[0] >= FloatMin && s[0] <= RunningMax(s);
    }
  }

  // Single steps of real arithmetic that the solver does not combine on its own.

  lemma SquareMonotone(d: real, h: real)
    requires d >= 0.0 && h > 0.0
    ensures d < h <==> d * d < h * h
  {
    if d < h {
      calc {
        d * d;
      <= d * h;
      <  h * h;
      }
    } else {
      calc {
        d * d;
      >= h * d;
      >= h * h;
      }
    }
  }

  lemma ProductPositive(a: real, b: real)
    requires a > 0.0 && b > 0.0
    ensures a * b > 0.0
  {
  }

  lemma NonzeroFactors(a: real, b: real)
    requires a * b != 0.0
    ensures a != 0.0 && b != 0.0
  {
  }

  lemma SquareNonzero(c: real)
    requires c != 0.0
    ensures c * c != 0.0
  {
  }

  lemma QuotientTimes(x: real, l: real)
    requires l != 0.0
    ensures (x / l) * l == x
  {
  }

  lemma ScaleByInverse(x: real, len: real)
    requires len != 0.0
    ensures (x * (1.0 / len)) * len == x
  {
  }

  lemma CancelFactor(x: real, y: real, w: real)
    requires w != 0.0 && x * w == y * w
    ensures x == y
  {
  }

  lemma CancelSquareFactor(x: real, y: real, l: real)
    requires l != 0.0 && x * (l * l) == y * (l * l)
    ensures x == y
  {
    CancelFactor(x * l, y * l, l);
    CancelFactor(x, y, l);
  }

  /** If x * l equals a positive square l * l, then x is positive. */
  lemma PositiveCofactor(x: real, l: real)
    requires l > 0.0 && x * l == l * l
    ensures x > 0.0
  {
    CancelFactor(x, l, l);
  }

  lemma SquareIsZero(x: real)
    requires x * x == 0.0
    ensures x == 0.0
  {
    if x != 0.0 {
      calc {
        0.0;
      ==
        x * x;
      != { SquareNonzero(x); }
        0.0;
      }
    }
  }

  lemma SumOfSquaresIsZero(x: real, y: real)
    ensures x * x + y * y >= 0.0
    ensures x * x + y * y == 0.0 <==> x == 0.0 && y == 0.0
  {
    assert x * x >= 0.0 && y * y >= 0.0;
    if x * x + y * y == 0.0 {
      SquareIsZero(x);
      SquareIsZero(y);
    }
  }

  /** If (nx, ny) * len == (x, y) and len is the (positive) length of (x, y),
      then (nx, ny) is a unit vector parallel to (x, y) pointing the same way. */
  lemma UnitScaling(x: real, y: real, len: real, nx: real, ny: real)
    requires len > 0.0 && len * len == x * x + y * y
    requires nx * len == x && ny * len == y
    ensures nx * nx + ny * ny == 1.0
    ensures nx * x + ny * y > 0.0
    ensures nx * y == ny * x
  {
    var n2 := nx * nx + ny * ny;
    calc {
      n2 * (len * len);
    ==
      (nx * len) * (nx * len) + (ny * len) * (ny * len);
    ==
      x * x + y * y;
    ==
      1.0 * (len * len);
    }
    CancelSquareFactor(n2, 1.0, len);
    var d := nx * x + ny * y;
    calc {
      d * len;
    ==
      (nx * len) * x + (ny * len) * y;
    ==
      len * len;
    }
    PositiveCofactor(d, len);
    calc {
      nx * y;
    ==
      nx * (ny * len);
    ==
      ny * (nx * len);
    ==
      ny * x;
    }
  }

  /** A rotation (c, s with c^2 + s^2 = 1) sends only the zero offset to zero. */
  lemma RotationMovesNonzero(c: real, s: real, dx: real, dy: real)
    requires c * c + s * s == 1.0 && (dx != 0.0 || dy != 0.0)
    ensures c * dx - s * dy != 0.0 || s * dx + c * dy != 0.0
  {
    var u, w := c * dx - s * dy, s * dx + c * dy;
    calc {
      dx;
    ==
      (c * c + s * s) * dx;
    ==
      c * u + s * w;
    }
    calc {
      dy;
    ==
      (c * c + s * s) * dy;
    ==
      c * w - s * u;
    }
  }

  lemma NegatedQuotient(x: real, l: real)
    requires l != 0.0
    ensures (-x) / l == -(x / l)
  {
  }
}
