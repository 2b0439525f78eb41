/**
 * Euclidean projection onto the simplex with a floor: every coordinate at least
 * `MINIMUM_WEIGHT`, all coordinates summing to one.
 */
module Simplex {
  import opened Vectors

  /** The floor under every weight: one percent. */
  const MINIMUM_WEIGHT: real := 0.01

  ghost predicate Feasible(w: seq<real>) {
    (forall i :: 0 <= i < |w| ==> w[i] >= MINIMUM_WEIGHT) && Sum(w) == 1.0
  }

  function Positive(x: real): real {
    if x > 0.0 then x else 0.0
  }

  function Clamp(x: real, tau: real): real {
    Positive(x - MINIMUM_WEIGHT - tau) + MINIMUM_WEIGHT
  }

  /** `w` is `v` with the threshold `tau` taken off every coordinate and clamped to the floor. */
  ghost predicate Thresholded(v: seq<real>, w: seq<real>, tau: real) {
    |v| == |w| && forall i :: 0 <= i < |v| ==> w[i] == Clamp(v[i], tau)
  }

  /** What thresholding leads to when the threshold is right. */
  ghost predicate IsProjection(v: seq<real>, w: seq<real>) {
    (exists tau :: Thresholded(v, w, tau)) && Feasible(w)
  }

  // The threshold search

  ghost predicate Descending(v: seq<real>) {
    forall i, j :: 0 <= i < j < |v| ==> v[i] >= v[j]
  }

  function Excess(v: seq<real>, tau: real): seq<real> {
    seq(|v|, i requires 0 <= i < |v| => Positive(v[i] - tau))
  }

  /** Exactly the first `m` values lie above `tau`. */
  ghost predicate Survivors(v: seq<real>, tau: real, m: nat) {
    && m <= |v|
    && (forall i :: 0 <= i < m ==> v[i] > tau)
    && (forall i :: m <= i < |v| ==> v[i] <= tau)
  }

  /** The loop that looks for the threshold, largest values first. */
  method FindThreshold(v: seq<real>, r: real) returns (tau: real, ghost m: nat)
    requires Descending(v)
    ensures v == [] || r <= 0.0 ==> tau == 0.0
    ensures v != [] && r > 0.0 ==> 0 < m && Survivors(v, tau, m) && Sum(Excess(v, tau)) == r
  {
    var cumsum := 0.0;
    tau := 0.0;
    m := 0;
    for k := 0 to |v|
      invariant cumsum == Sum(v[..k])
      invariant m <= k && (k == 0 ==> tau == 0.0)
      invariant r <= 0.0 ==> m == 0 && tau == 0.0
      invariant r > 0.0 && k > 0 ==> m > 0
      invariant r > 0.0 ==> m as real * tau == Sum(v[..m]) - r || m == 0
      invariant forall i :: 0 <= i < m ==> v[i] > tau
      invariant r > 0.0 && m < k ==> v[m] <= tau
    {
      SumPrefix(v, k);
      cumsum := cumsum + v[k];
      var candidate := (cumsum - r) / (k + 1) as real;
      CandidateBound(v, k, r, tau, m, candidate);
      if v[k] - candidate > 0.0 {
        tau := candidate;
        m := k + 1;
      }
    }
    if v != [] && r > 0.0 {
      assert Survivors(v, tau, m);
      ExcessOfSurvivors(v, tau, m);
    }
  }

  lemma DivisionBound(total: real, n: real, q: real, x: real)
    requires n > 0.0 && q == total / n
    ensures x > q <==> n * x > total
    ensures n * q == total
  {
    assert n * q == total;
    if x > q {
      assert n * (x - q) > 0.0;
    } else {
      assert n * (q - x) >= 0.0;
    }
  }

  /** A value survives its candidate exactly as long as every value before it did. */
  lemma CandidateBound(v: seq<real>, k: nat, r: real, tau: real, m: nat, candidate: real)
    requires Descending(v) && m <= k < |v|
    requires candidate == (Sum(v[..k + 1]) - r) / (k + 1) as real
    requires r > 0.0 && m > 0 ==> m as real * tau == Sum(v[..m]) - r
    requires r > 0.0 && m < k ==> m > 0 && v[m] <= tau
    ensures r <= 0.0 ==> v[k] <= candidate
    ensures r > 0.0 && m < k ==> v[k] <= candidate
    ensures (k + 1) as real * candidate == Sum(v[..k + 1]) - r
    ensures r > 0.0 && m == k > 0 && v[k] <= candidate ==> v[k] <= tau
    ensures r > 0.0 && k == 0 ==> v[k] > candidate
  {
    SumPrefix(v, k);
    SurvivalTest(Sum(v[..k]), v[k], r, k, candidate);
    if r <= 0.0 {
      SumAtLeast(v[..k], v[k], k);
    } else if m < k {
      LaterSum(v, k, tau, m, r);
    } else if m > 0 && v[k] <= candidate {
      CancelLe(k as real, v[k], tau);
    }
  }

  /** The test `v_k - candidate > 0` without its division. */
  lemma SurvivalTest(before: real, x: real, r: real, k: nat, candidate: real)
    requires candidate == (before + x - r) / (k + 1) as real
    ensures x > candidate <==> k as real * x > before - r
    ensures (k + 1) as real * candidate == before + x - r
  {
    var n := (k + 1) as real;
    DivisionBound(before + x - r, n, candidate, x);
    assert n * x == k as real * x + x;
  }

  lemma LaterSum(v: seq<real>, k: nat, tau: real, m: nat, r: real)
    requires Descending(v) && 0 < m < k < |v|
    requires m as real * tau == Sum(v[..m]) - r && v[m] <= tau
    ensures k as real * v[k] <= Sum(v[..k]) - r
  {
    var rest := v[m..k];
    assert v[..k] == v[..m] + rest;
    SumConcat(v[..m], rest);
    SumAtLeast(rest, v[k], k - m);
    LaterArithmetic(k, m, v[k], tau, Sum(v[..m]), Sum(rest), r);
  }

  lemma LaterArithmetic(k: nat, m: nat, x: real, tau: real, first: real, rest: real, r: real)
    requires 0 < m < k && x <= tau
    requires m as real * tau == first - r && rest >= (k - m) as real * x
    ensures k as real * x <= first + rest - r
  {
    ScaleLe(m as real, x, tau);
    SplitScale(k, m, x);
  }

  lemma ScaleLe(a: real, x: real, y: real)
    requires a >= 0.0 && x <= y
    ensures a * x <= a * y
  {
    assert a * (y - x) >= 0.0;
  }

  lemma ScaleLt(a: real, x: real, y: real)
    requires a > 0.0 && x < y
    ensures a * x < a * y
  {
    assert a * (y - x) > 0.0;
  }

  lemma CancelLe(a: real, x: real, y: real)
    requires a > 0.0 && a * x <= a * y
    ensures x <= y
  {
    if x > y {
      ScaleLt(a, y, x);
    }
  }

  lemma {:induction false} SumOfExcess(v: seq<real>, tau: real, n: nat)
    requires n == |v| && forall i :: 0 <= i < |v| ==> v[i] >= tau
    ensures Sum(Excess(v, tau)) == Sum(v) - n as real * tau
  {
    if v == [] {
    } else {
      SumOfExcess(v[1..], tau, n - 1);
      assert Excess(v, tau)[1..] == Excess(v[1..], tau);
      SplitScale(n, 1, tau);
    }
  }

  lemma {:induction false} NoExcess(v: seq<real>, tau: real)
    requires forall i :: 0 <= i < |v| ==> v[i] <= tau
    ensures Sum(Excess(v, tau)) == 0.0
  {
    if v == [] {
    } else {
      NoExcess(v[1..], tau);
      assert Excess(v, tau)[1..] == Excess(v[1..], tau);
    }
  }

  lemma ExcessConcat(v: seq<real>, tau: real, m: nat)
    requires m <= |v|
    ensures Excess(v, tau) == Excess(v[..m], tau) + Excess(v[m..], tau)
  {
  }

  lemma ExcessOfSurvivors(v: seq<real>, tau: real, m: nat)
    requires Survivors(v, tau, m)
    ensures Sum(Excess(v, tau)) == Sum(v[..m]) - m as real * tau
  {
    var above, below := v[..m], v[m..];
    SumOfExcess(above, tau, m);
    NoExcess(below, tau);
    ExcessConcat(v, tau, m);
    SumConcat(Excess(above, tau), Excess(below, tau));
  }

  // What the projection is

  lemma {:induction false} ObtuseAngle(v: seq<real>, w: seq<real>, tau: real, u: seq<real>)
    requires Thresholded(v, w, tau) && |u| == |v|
    requires forall i :: 0 <= i < |u| ==> u[i] >= MINIMUM_WEIGHT
    ensures Angle(v, w, u) <= tau * (Sum(u) - Sum(w))
  {
    if v == [] {
    } else {
      ObtuseAngle(v[1..], w[1..], tau, u[1..]);
      ObtuseTerm(v[0], w[0], tau, u[0], Sum(u[1..]), Sum(w[1..]));
    }
  }

  lemma ObtuseTerm(v: real, w: real, tau: real, u: real, us: real, ws: real)
    requires w == Clamp(v, tau) && u >= MINIMUM_WEIGHT
    ensures (v - w) * (u - w) + tau * (us - ws) <= tau * ((u + us) - (w + ws))
  {
    assert tau * ((u + us) - (w + ws)) == tau * (u - w) + tau * (us - ws);
    if w > MINIMUM_WEIGHT {
      assert v - w == tau;
    } else {
      ScaleLe(u - w, v - w, tau);
    }
  }

  /** At its projection, a point sees every feasible point under an obtuse angle. */
  lemma VariationalInequality(v: seq<real>, w: seq<real>, u: seq<real>)
    requires IsProjection(v, w) && Feasible(u) && |u| == |v|
    ensures Angle(v, w, u) <= 0.0
  {
    var tau :| Thresholded(v, w, tau);
    ObtuseAngle(v, w, tau, u);
  }

  /** The projection is the nearest feasible point, and no other feasible point is as near. */
  lemma ProjectionIsNearest(v: seq<real>, w: seq<real>, u: seq<real>)
    requires IsProjection(v, w) && Feasible(u) && |u| == |v|
    ensures SqDist(v, w) <= SqDist(v, u)
    ensures SqDist(v, u) <= SqDist(v, w) ==> u == w
    ensures SqDist(w, u) <= SqDist(v, u)
  {
    VariationalInequality(v, w, u);
    Cosines(v, w, u);
    SqDistNonNegative(w, u);
    SqDistNonNegative(v, w);
    if SqDist(v, u) <= SqDist(v, w) {
      forall k | 0 <= k < |w|
        ensures w[k] == u[k]
      {
        SqDistZero(w, u, k);
      }
    }
  }

  /** Projecting never moves two points further apart. */
  lemma ProjectionIsNonExpansive(v: seq<real>, w: seq<real>, v': seq<real>, w': seq<real>)
    requires IsProjection(v, w) && IsProjection(v', w') && |v| == |v'|
    ensures SqDist(w, w') <= SqDist(v, v')
  {
    VariationalInequality(v, w, w');
    VariationalInequality(v', w', w);
    ObtuseQuadrilateral(v, w, v', w');
  }

  /** There is only one projection, and feasible points are their own. */
  lemma ProjectionIsUnique(v: seq<real>, w: seq<real>, w': seq<real>)
    requires IsProjection(v, w) && IsProjection(v, w')
    ensures w == w'
  {
    ProjectionIsNearest(v, w, w');
    ProjectionIsNearest(v, w', w);
  }

  lemma FeasibleIsFixed(v: seq<real>, w: seq<real>)
    requires Feasible(v) && IsProjection(v, w)
    ensures w == v
  {
    assert Thresholded(v, v, 0.0);
    ProjectionIsUnique(v, v, w);
  }

  lemma ProjectionKeepsOrder(v: seq<real>, w: seq<real>, i: nat, j: nat)
    requires IsProjection(v, w) && i < |v| && j < |v| && v[i] <= v[j]
    ensures w[i] <= w[j]
    ensures w[i] > MINIMUM_WEIGHT ==> w[j] - w[i] == v[j] - v[i]
  {
  }
}
