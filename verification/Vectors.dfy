/** Finite sums, distances and inner products over vectors of reals. */
module Vectors {

  function Sum(x: seq<real>): real {
    if x == [] then 0.0 else x[0] + Sum(x[1..])
  }

  function Dot(x: seq<real>, y: seq<real>): real
    requires |x| == |y|
  {
    if x == [] then 0.0 else x[0] * y[0] + Dot(x[1..], y[1..])
  }

  /** Squared Euclidean distance. */
  function SqDist(x: seq<real>, y: seq<real>): real
    requires |x| == |y|
  {
    if x == [] then 0.0 else (x[0] - y[0]) * (x[0] - y[0]) + SqDist(x[1..], y[1..])
  }

  /** The inner product of `v - w` and `u - w`, that is, of the two sides of the angle at `w`. */
  function Angle(v: seq<real>, w: seq<real>, u: seq<real>): real
    requires |v| == |w| == |u|
  {
    if v == [] then 0.0 else (v[0] - w[0]) * (u[0] - w[0]) + Angle(v[1..], w[1..], u[1..])
  }

  function Sub(x: seq<real>, y: seq<real>): seq<real>
    requires |x| == |y|
  {
    seq(|x|, i requires 0 <= i < |x| => x[i] - y[i])
  }

  function Scale(a: real, x: seq<real>): seq<real> {
    seq(|x|, i requires 0 <= i < |x| => a * x[i])
  }

  lemma {:induction false} SumConcat(x: seq<real>, y: seq<real>)
    ensures Sum(x + y) == Sum(x) + Sum(y)
  {
    if x == [] {
      assert x + y == y;
    } else {
      assert (x + y)[1..] == x[1..] + y;
      SumConcat(x[1..], y);
    }
  }

  lemma SumPrefix(x: seq<real>, k: nat)
    requires k < |x|
    ensures Sum(x[..k + 1]) == Sum(x[..k]) + x[k]
  {
    assert x[..k + 1] == x[..k] + [x[k]];
    SumConcat(x[..k], [x[k]]);
  }

  function Without<T>(x: seq<T>, j: nat): seq<T>
    requires j < |x|
  {
    x[..j] + x[j + 1..]
  }

  lemma SumWithout(x: seq<real>, j: nat)
    requires j < |x|
    ensures Sum(x) == x[j] + Sum(Without(x, j))
  {
    SumConcat(x[..j], x[j + 1..]);
    SumConcat(x[..j], x[j..]);
    assert x == x[..j] + x[j..];
  }

  lemma MultisetWithout<T>(x: seq<T>, j: nat)
    requires j < |x|
    ensures multiset(Without(x, j)) == multiset(x) - multiset{x[j]}
  {
    assert x == x[..j] + [x[j]] + x[j + 1..];
  }

  lemma SplitScale(k: nat, m: nat, x: real)
    requires m <= k
    ensures k as real * x == m as real * x + (k - m) as real * x
  {
  }

  lemma {:induction false} SumAtLeast(x: seq<real>, low: real, n: nat)
    requires n == |x| && forall i :: 0 <= i < |x| ==> x[i] >= low
    ensures Sum(x) >= n as real * low
  {
    if x == [] {
    } else {
      SumAtLeast(x[1..], low, n - 1);
      SplitScale(n, 1, low);
    }
  }

  lemma {:induction false} SumLe(x: seq<real>, y: seq<real>)
    requires |x| == |y|
    requires forall i :: 0 <= i < |x| ==> x[i] <= y[i]
    ensures Sum(x) <= Sum(y)
  {
    if x == [] {
    } else {
      SumLe(x[1..], y[1..]);
    }
  }

  lemma {:induction false} SumLt(x: seq<real>, y: seq<real>, k: nat)
    requires |x| == |y|
    requires forall i :: 0 <= i < |x| ==> x[i] <= y[i]
    requires k < |x| && x[k] < y[k]
    ensures Sum(x) < Sum(y)
  {
    if k == 0 {
      SumLe(x[1..], y[1..]);
    } else {
      SumLt(x[1..], y[1..], k - 1);
    }
  }

  lemma SquareNonNegative(d: real)
    ensures d * d >= 0.0
  {
  }

  lemma SquarePositive(d: real, square: real)
    requires d != 0.0 && square == d * d
    ensures square > 0.0
  {
    var inverse := 1.0 / d;
    assert d * inverse == 1.0;
    assert square * (inverse * inverse) == (d * inverse) * (d * inverse);
    SquareNonNegative(d);
  }

  lemma SquareZero(d: real, rest: real)
    requires d * d + rest <= 0.0 && rest >= 0.0
    ensures d == 0.0 && rest <= 0.0
  {
    var square := d * d;
    SquareNonNegative(d);
    if d != 0.0 {
      SquarePositive(d, square);
    }
  }

  lemma {:induction false} SqDistNonNegative(x: seq<real>, y: seq<real>)
    requires |x| == |y|
    ensures SqDist(x, y) >= 0.0
  {
    if x == [] {
    } else {
      SqDistNonNegative(x[1..], y[1..]);
      SquareNonNegative(x[0] - y[0]);
    }
  }

  lemma {:induction false} SqDistZero(x: seq<real>, y: seq<real>, k: nat)
    requires |x| == |y| && k < |x|
    requires SqDist(x, y) <= 0.0
    ensures x[k] == y[k]
  {
    SqDistNonNegative(x[1..], y[1..]);
    SquareZero(x[0] - y[0], SqDist(x[1..], y[1..]));
    if k == 0 {
    } else {
      SqDistZero(x[1..], y[1..], k - 1);
      assert x[k] == x[1..][k - 1] && y[k] == y[1..][k - 1];
    }
  }

  lemma SquareOfSum(p: real, q: real)
    ensures (p - q) * (p - q) == p * p + q * q - 2.0 * (p * q)
  {
  }

  /** The law of cosines at `w`. */
  lemma {:induction false} Cosines(v: seq<real>, w: seq<real>, u: seq<real>)
    requires |v| == |w| == |u|
    ensures SqDist(v, u) == SqDist(v, w) + SqDist(w, u) - 2.0 * Angle(v, w, u)
  {
    if v == [] {
    } else {
      Cosines(v[1..], w[1..], u[1..]);
      SquareOfSum(v[0] - w[0], u[0] - w[0]);
      assert (v[0] - u[0]) == (v[0] - w[0]) - (u[0] - w[0]);
      assert (w[0] - u[0]) * (w[0] - u[0]) == (u[0] - w[0]) * (u[0] - w[0]);
    }
  }

  lemma ObtuseOnALine(v: real, w: real, v': real, w': real)
    ensures (w - w') * (w - w') <= (v - v') * (v - v') + 2.0 * ((v - w) * (w' - w) + (v' - w') * (w - w'))
  {
    var d, e := v - v', w - w';
    SquareOfSum(d, e);
    assert (v - w) * (w' - w) + (v' - w') * (w - w') == e * e - d * e;
    assert (d - e) * (d - e) >= 0.0;
  }

  /** Two obtuse angles make the far side of a quadrilateral the longer one. */
  lemma {:induction false} ObtuseQuadrilateral(v: seq<real>, w: seq<real>, v': seq<real>, w': seq<real>)
    requires |v| == |w| == |v'| == |w'|
    ensures SqDist(w, w') <= SqDist(v, v') + 2.0 * (Angle(v, w, w') + Angle(v', w', w))
  {
    if v == [] {
    } else {
      ObtuseQuadrilateral(v[1..], w[1..], v'[1..], w'[1..]);
      ObtuseOnALine(v[0], w[0], v'[0], w'[0]);
    }
  }

  lemma ScaleTail(a: real, x: seq<real>)
    requires x != []
    ensures Scale(a, x)[1..] == Scale(a, x[1..])
  {
    forall i | 0 <= i < |x| - 1
      ensures Scale(a, x)[1..][i] == Scale(a, x[1..])[i]
    {
      assert x[1..][i] == x[i + 1];
    }
  }

  lemma {:induction false} DotScale(a: real, x: seq<real>, y: seq<real>)
    requires |x| == |y|
    ensures Dot(Scale(a, x), y) == a * Dot(x, y)
  {
    if x == [] {
    } else {
      DotScale(a, x[1..], y[1..]);
      ScaleTail(a, x);
      DotScaleTerm(a, x[0], y[0], Dot(x[1..], y[1..]));
    }
  }

  lemma DotScaleTerm(a: real, x: real, y: real, rest: real)
    ensures (a * x) * y + a * rest == a * (x * y + rest)
  {
  }

  lemma {:induction false} DotSymmetric(x: seq<real>, y: seq<real>)
    requires |x| == |y|
    ensures Dot(x, y) == Dot(y, x)
  {
    if x == [] {
    } else {
      DotSymmetric(x[1..], y[1..]);
    }
  }

  /** How a step `h` changes the distance to a fixed point. */
  lemma {:induction false} StepDistance(w: seq<real>, h: seq<real>, u: seq<real>)
    requires |w| == |h| == |u|
    ensures SqDist(Sub(w, h), u) == SqDist(w, u) - 2.0 * Dot(h, Sub(w, u)) + Dot(h, h)
  {
    if w == [] {
    } else {
      StepDistance(w[1..], h[1..], u[1..]);
      assert Sub(w, h)[1..] == Sub(w[1..], h[1..]);
      assert Sub(w, u)[1..] == Sub(w[1..], u[1..]);
      SquareOfSum(w[0] - u[0], h[0]);
    }
  }

  /** The angle at `x` between `w` and a step `h` away from it. */
  lemma {:induction false} StepAngle(w: seq<real>, h: seq<real>, x: seq<real>)
    requires |w| == |h| == |x|
    ensures Angle(Sub(w, h), x, w) == SqDist(w, x) - (Dot(h, w) - Dot(h, x))
  {
    if w == [] {
    } else {
      StepAngle(w[1..], h[1..], x[1..]);
      assert Sub(w, h)[1..] == Sub(w[1..], h[1..]);
      StepAngleTerm(w[0], h[0], x[0]);
    }
  }

  lemma StepAngleTerm(w: real, h: real, x: real)
    ensures (w - h - x) * (w - x) == (w - x) * (w - x) - (h * w - h * x)
  {
  }
}
