/**
 * Turning fractional weights into integers over a fixed denominator: the
 * largest-remainder rule, what it guarantees, and that it is optimal.
 */
module Apportionment {
  import opened Vectors
  import opened Enumerations

  /** All weights of a FIB entry sum to this number. */
  const WEIGHT_DENOMINATOR: nat := 10000

  datatype Weighted<K> = Weighted(nexthop: K, weight: nat)
  datatype Share<K> = Share(nexthop: K, floor: nat, rest: real)

  /** The saturating conversion from a floating-point number to `u16`. */
  function TruncateU16(x: real): nat {
    if x < 0.0 then 0 else if x >= 65536.0 then 65535 else x.Floor
  }

  /** It truncates towards zero inside the range of `u16`, and goes to its ends outside. */
  lemma TruncatesExactly(x: real)
    ensures x < 0.0 ==> TruncateU16(x) == 0
    ensures 0.0 <= x < 65536.0 ==> TruncateU16(x) as real <= x < TruncateU16(x) as real + 1.0
    ensures x >= 65536.0 ==> TruncateU16(x) == 65535
  {
  }

  function Scaled(w: real): real {
    w * WEIGHT_DENOMINATOR as real
  }

  function Floor(w: real): nat {
    TruncateU16(Scaled(w))
  }

  function Rest(w: real): real {
    Scaled(w) - Floor(w) as real
  }

  function NexthopsOf<K>(out: seq<Weighted<K>>): seq<K> {
    seq(|out|, i requires 0 <= i < |out| => out[i].nexthop)
  }

  function Reals(x: seq<int>): seq<real> {
    seq(|x|, i requires 0 <= i < |x| => x[i] as real)
  }

  function WeightsOf<K>(out: seq<Weighted<K>>): seq<int> {
    seq(|out|, i requires 0 <= i < |out| => out[i].weight)
  }

  function SumInt(x: seq<int>): int {
    if x == [] then 0 else x[0] + SumInt(x[1..])
  }

  lemma SumIntPrefix(x: seq<int>, k: nat)
    requires k < |x|
    ensures SumInt(x[..k + 1]) == SumInt(x[..k]) + x[k]
  {
    if k == 0 {
    } else {
      assert x[..k + 1][1..] == x[1..][..k] && x[..k][1..] == x[1..][..k - 1];
      SumIntPrefix(x[1..], k - 1);
    }
  }

  lemma {:induction false} SumIntAsReal(x: seq<int>)
    ensures SumInt(x) as real == Sum(Reals(x))
  {
    if x == [] {
    } else {
      SumIntAsReal(x[1..]);
      assert Reals(x)[1..] == Reals(x[1..]);
    }
  }

  /** Weights that can be apportioned: none negative, all summing to one. */
  ghost predicate Fractions(w: seq<real>) {
    (forall i :: 0 <= i < |w| ==> w[i] >= 0.0) && Sum(w) == 1.0
  }

  /** The largest-remainder rule on a vector of weights. */
  ghost predicate Rounded(w: seq<real>, q: seq<int>) {
    && |w| == |q|
    && SumInt(q) == WEIGHT_DENOMINATOR
    && (forall i :: 0 <= i < |q| ==> q[i] == Floor(w[i]) || q[i] == Floor(w[i]) + 1)
    && (forall i, j :: 0 <= i < |q| && 0 <= j < |q| && q[i] == Floor(w[i]) + 1 && q[j] == Floor(w[j])
          ==> Rest(w[i]) >= Rest(w[j]))
  }

  /** The rule on a map of weights, whatever order the outputs come in. */
  ghost predicate LargestRemainder<K>(weights: map<K, real>, out: seq<Weighted<K>>) {
    && Enumerates(NexthopsOf(out), weights.Keys)
    && Rounded(Values(weights, NexthopsOf(out)), WeightsOf(out))
  }

  // What the rule guarantees

  function Exact(w: seq<real>): seq<real> {
    seq(|w|, i requires 0 <= i < |w| => Scaled(w[i]))
  }

  lemma {:induction false} ExactSum(w: seq<real>)
    ensures Sum(Exact(w)) == Scaled(Sum(w))
  {
    if w == [] {
    } else {
      ExactSum(w[1..]);
      assert Exact(w)[1..] == Exact(w[1..]);
    }
  }

  lemma FractionBound(w: seq<real>, i: nat)
    requires Fractions(w) && i < |w|
    ensures w[i] <= 1.0
    ensures Floor(w[i]) == Scaled(w[i]).Floor <= WEIGHT_DENOMINATOR
    ensures 0.0 <= Rest(w[i]) < 1.0
  {
    var rest := Without(w, i);
    SumWithout(w, i);
    SumAtLeast(rest, 0.0, |rest|);
  }

  /** Every output lies strictly within one unit of its exact share. */
  lemma WithinOneUnit(w: seq<real>, q: seq<int>, i: nat)
    requires Fractions(w) && Rounded(w, q) && i < |q|
    ensures -1.0 < q[i] as real - Scaled(w[i]) < 1.0
  {
    FractionBound(w, i);
    if q[i] as real - Scaled(w[i]) >= 1.0 {
      // Nothing was left over for this output, so nothing was left over for any unraised one.
      var s, r := Exact(w), Reals(q);
      forall j | 0 <= j < |q|
        ensures s[j] <= r[j]
      {
        FractionBound(w, j);
      }
      ExactSum(w);
      SumIntAsReal(q);
      SumLt(s, r, i);
    }
  }

  /** A floor on the weights is a floor on the outputs. */
  lemma KeepsFloor(w: seq<real>, q: seq<int>, i: nat, low: nat)
    requires Fractions(w) && Rounded(w, q) && i < |q| && Scaled(w[i]) >= low as real
    ensures q[i] >= low
  {
    FractionBound(w, i);
  }

  /** A larger weight never gets a smaller share. */
  lemma Monotone(w: seq<real>, q: seq<int>, i: nat, j: nat)
    requires Fractions(w) && Rounded(w, q) && i < |q| && j < |q| && w[i] > w[j]
    ensures q[i] >= q[j]
  {
    FractionBound(w, i);
    FractionBound(w, j);
  }

  // The rule is optimal

  /** A remainder that separates the raised outputs from the others. */
  ghost predicate Separates(w: seq<real>, q: seq<int>, lambda: real)
    requires |w| == |q|
  {
    forall i :: 0 <= i < |q| ==> if q[i] == Floor(w[i]) then Rest(w[i]) <= lambda else Rest(w[i]) >= lambda
  }

  lemma SeparatorExists(w: seq<real>, q: seq<int>) returns (lambda: real)
    requires Fractions(w) && Rounded(w, q)
    ensures Separates(w, q, lambda) && 0.0 <= lambda < 1.0
  {
    forall i | 0 <= i < |q|
      ensures 0.0 <= Rest(w[i]) < 1.0
    {
      FractionBound(w, i);
    }
    lambda := 0.0;
    for i := 0 to |q|
      invariant 0.0 <= lambda < 1.0
      invariant forall j :: 0 <= j < i && q[j] == Floor(w[j]) ==> Rest(w[j]) <= lambda
      invariant forall j :: 0 <= j < |q| && q[j] != Floor(w[j]) ==> Rest(w[j]) >= lambda
    {
      if q[i] == Floor(w[i]) && Rest(w[i]) > lambda {
        lambda := Rest(w[i]);
      }
    }
  }

  function SquaredError(s: real, q: int): real {
    (q as real - s) * (q as real - s)
  }

  function Errors(s: seq<real>, q: seq<int>): seq<real>
    requires |s| == |q|
  {
    seq(|s|, i requires 0 <= i < |s| => SquaredError(s[i], q[i]))
  }

  /** Squared error grows at least linearly from `q` to `z`. */
  ghost predicate ErrorGrows(s: real, q: int, z: int, slope: real) {
    SquaredError(s, q) + slope * (z - q) as real <= SquaredError(s, z)
  }

  lemma ErrorGrowth(s: real, f: int, q: int, z: int, lambda: real)
    requires 0.0 <= s - f as real < 1.0 && 0.0 <= lambda < 1.0
    requires if q == f then s - f as real <= lambda else q == f + 1 && s - f as real >= lambda
    ensures ErrorGrows(s, q, z, 1.0 - 2.0 * lambda)
  {
    var d, e, slope := (z - q) as real, q as real - s, 1.0 - 2.0 * lambda;
    SquareExpands(d, e);
    var gain := d + 2.0 * e - slope;
    if z > q {
      ProductNonNegative(d, gain);
    } else if z < q {
      ProductNonNegative(-d, -gain);
    }
    assert d * gain == d * (d + 2.0 * e) - slope * d;
    assert z as real - s == d + e;
  }

  lemma SquareExpands(d: real, e: real)
    ensures (d + e) * (d + e) == e * e + d * (d + 2.0 * e)
  {
  }

  lemma ProductNonNegative(a: real, b: real)
    requires a >= 0.0 && b >= 0.0
    ensures a * b >= 0.0
    ensures (-a) * (-b) >= 0.0
  {
  }

  lemma {:induction false} SumLeSum(x: seq<real>, d: seq<real>, y: seq<real>)
    requires |x| == |d| == |y| && forall i :: 0 <= i < |x| ==> x[i] + d[i] <= y[i]
    ensures Sum(x) + Sum(d) <= Sum(y)
  {
    if x == [] {
    } else {
      SumLeSum(x[1..], d[1..], y[1..]);
    }
  }

  function Slopes(q: seq<int>, z: seq<int>, slope: real): seq<real>
    requires |q| == |z|
  {
    seq(|q|, i requires 0 <= i < |q| => slope * (z[i] - q[i]) as real)
  }

  lemma SlopesTail(q: seq<int>, z: seq<int>, slope: real)
    requires |q| == |z| > 0
    ensures Slopes(q, z, slope)[1..] == Slopes(q[1..], z[1..], slope)
  {
    forall i | 0 <= i < |q| - 1
      ensures Slopes(q, z, slope)[1..][i] == Slopes(q[1..], z[1..], slope)[i]
    {
      assert q[1..][i] == q[i + 1] && z[1..][i] == z[i + 1];
    }
  }

  /** A slope times the differences of two vectors adds up to the slope times the difference of their sums. */
  lemma {:induction false} SlopesAdd(q: seq<int>, z: seq<int>, slope: real)
    requires |q| == |z|
    ensures Sum(Slopes(q, z, slope)) == slope * (SumInt(z) - SumInt(q)) as real
  {
    if q == [] {
    } else {
      SlopesAdd(q[1..], z[1..], slope);
      SlopesTail(q, z, slope);
      AddSlopes(slope, z[0] - q[0], SumInt(z[1..]) - SumInt(q[1..]));
    }
  }

  lemma AddSlopes(slope: real, d: int, rest: int)
    ensures slope * (d + rest) as real == slope * d as real + slope * rest as real
  {
    assert slope * (d as real + rest as real) == slope * d as real + slope * rest as real;
  }

  lemma ErrorGrowthAt(w: seq<real>, q: seq<int>, z: seq<int>, lambda: real, i: nat)
    requires |w| == |q| == |z| && i < |q| && 0.0 <= lambda < 1.0 && 0.0 <= Rest(w[i]) < 1.0
    requires if q[i] == Floor(w[i]) then Rest(w[i]) <= lambda
             else q[i] == Floor(w[i]) + 1 && Rest(w[i]) >= lambda
    ensures Errors(Exact(w), q)[i] + Slopes(q, z, 1.0 - 2.0 * lambda)[i] <= Errors(Exact(w), z)[i]
  {
    ErrorGrowth(Scaled(w[i]), Floor(w[i]), q[i], z[i], lambda);
    GrowthListed(Exact(w), q, z, 1.0 - 2.0 * lambda, i);
  }

  lemma GrowthListed(s: seq<real>, q: seq<int>, z: seq<int>, slope: real, i: nat)
    requires |s| == |q| == |z| && i < |q| && ErrorGrows(s[i], q[i], z[i], slope)
    ensures Errors(s, q)[i] + Slopes(q, z, slope)[i] <= Errors(s, z)[i]
  {
  }

  /** No integer apportionment of the denominator is closer to the exact shares. */
  lemma LargestRemainderIsOptimal(w: seq<real>, q: seq<int>, z: seq<int>)
    requires Fractions(w) && Rounded(w, q)
    requires |z| == |q| && SumInt(z) == WEIGHT_DENOMINATOR
    ensures Sum(Errors(Exact(w), q)) <= Sum(Errors(Exact(w), z))
  {
    var lambda := SeparatorExists(w, q);
    var before, d, after := Errors(Exact(w), q), Slopes(q, z, 1.0 - 2.0 * lambda), Errors(Exact(w), z);
    forall i | 0 <= i < |q|
      ensures before[i] + d[i] <= after[i]
    {
      FractionBound(w, i);
      ErrorGrowthAt(w, q, z, lambda, i);
    }
    SumLeSum(before, d, after);
    SlopesAdd(q, z, 1.0 - 2.0 * lambda);
  }
}
