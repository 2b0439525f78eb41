/** Projected online gradient descent over the traffic weights of one prefix. */
module Descent {
  import opened Addresses
  import opened Vectors
  import opened Enumerations
  import opened Sorting
  import opened Simplex
  import opened Apportionment
  import opened RttWindows

  type Weights = map<IpAddr, real>
  type Snapshot = map<Nlri, map<IpAddr, Window>>

  /** Step size of the descent. */
  const LEARNING_RATE: real := 0.00000005

  /** The cost of a nexthop: its latency plus how far that is above its best round trip. */
  function Gradient(win: Window): real {
    var congestion := if win.avgSrttUs > win.minRttMin then win.avgSrttUs - win.minRttMin else 0;
    win.avgSrttUs as real + congestion as real
  }

  /**
   * Up to its best round trip a nexthop costs its average; beyond it every microsecond costs two,
   * one as latency and one as congestion.
   */
  lemma CostOfWindow(win: Window, best: nat, above: nat)
    ensures Gradient(win.(avgSrttUs := best + above, minRttMin := best)) == (best + 2 * above) as real
    ensures Gradient(win.(avgSrttUs := best, minRttMin := best + above)) == best as real
  {
  }

  // Reconciling weights with the nexthops of the routing table

  function Reconciled(weights: Weights, nexthops: seq<IpAddr>): Weights {
    if |weights| != |nexthops| || exists nh :: nh in nexthops && nh !in weights
    then map nh | nh in nexthops :: 1.0 / |nexthops| as real
    else weights
  }

  method Reconcile(weights: Weights, nexthops: seq<IpAddr>) returns (reconciled: Weights)
    ensures reconciled == Reconciled(weights, nexthops)
  {
    reconciled := weights;
    var changed := |weights| != |nexthops| || exists nh :: nh in nexthops && nh !in weights;
    if changed {
      reconciled := map[];
      for i := 0 to |nexthops|
        invariant reconciled == map nh | nh in nexthops[..i] :: 1.0 / |nexthops| as real
      {
        assert nexthops[..i + 1] == nexthops[..i] + [nexthops[i]];
        reconciled := reconciled[nexthops[i] := 1.0 / |nexthops| as real];
      }
      assert nexthops[..|nexthops|] == nexthops;
    }
  }

  /**
   * The comparison by length is exact as long as it fires or the nexthops are pairwise distinct;
   * with a repeated nexthop it can leave weight on one that is gone.
   */
  lemma ReconcileIsExact(weights: Weights, nexthops: seq<IpAddr>)
    ensures Reconciled(weights, nexthops).Keys == Members(nexthops)
       <==> |weights| != |nexthops| || !(Members(nexthops) <= weights.Keys) || Distinct(nexthops)
    ensures |Reconciled(weights, nexthops)| <= |nexthops|
    ensures nexthops != [] ==> |Reconciled(weights, nexthops)| > 0
  {
    var w := Reconciled(weights, nexthops);
    DistinctLength(nexthops);
    if |weights| != |nexthops| || exists nh :: nh in nexthops && nh !in weights {
      assert w.Keys == Members(nexthops);
      assert |w| == |w.Keys|;
      assert nexthops != [] ==> nexthops[0] in w;
    } else {
      assert w == weights && Members(nexthops) <= w.Keys;
      if Distinct(nexthops) {
        SubsetOfEqualSize(Members(nexthops), w.Keys);
      }
    }
  }

  /** New nexthops start with equal weights that sum to one. */
  lemma FreshStart(weights: Weights, nexthops: seq<IpAddr>)
    requires Distinct(nexthops) && 0 < |nexthops| <= 100 && weights.Keys != Members(nexthops)
    ensures Reconciled(weights, nexthops).Keys == Members(nexthops) && FeasibleMap(Reconciled(weights, nexthops))
    ensures forall a, b :: a in nexthops && b in nexthops ==> Reconciled(weights, nexthops)[a] == Reconciled(weights, nexthops)[b]
  {
    var share := FreshShare(weights, nexthops);
    UniformIsFeasible(Reconciled(weights, nexthops), nexthops, |nexthops|, share);
  }

  lemma FreshShare(weights: Weights, nexthops: seq<IpAddr>) returns (share: real)
    requires Distinct(nexthops) && 0 < |nexthops| <= 100 && weights.Keys != Members(nexthops)
    ensures Reconciled(weights, nexthops).Keys == Members(nexthops)
    ensures forall nh :: nh in Reconciled(weights, nexthops) ==> Reconciled(weights, nexthops)[nh] == share
    ensures share >= MINIMUM_WEIGHT && |nexthops| as real * share == 1.0
  {
    share := 1.0 / |nexthops| as real;
    ReconcileFires(weights, nexthops);
    PercentOf(|nexthops|);
  }

  lemma UniformIsFeasible(w: Weights, ks: seq<IpAddr>, n: nat, share: real)
    requires Enumerates(ks, w.Keys) && n == |ks| && forall k :: k in w ==> w[k] == share
    requires share >= MINIMUM_WEIGHT && n as real * share == 1.0
    ensures FeasibleMap(w)
  {
    UniformTotal(w, ks, n, share);
  }

  lemma ReconcileFires(weights: Weights, nexthops: seq<IpAddr>)
    requires Distinct(nexthops) && nexthops != [] && weights.Keys != Members(nexthops)
    ensures Reconciled(weights, nexthops) == map nh | nh in nexthops :: 1.0 / |nexthops| as real
  {
    DistinctLength(nexthops);
    assert |weights| == |weights.Keys|;
    if |weights| == |nexthops| && forall nh :: nh in nexthops ==> nh in weights {
      SubsetOfEqualSize(Members(nexthops), weights.Keys);
    }
  }

  lemma UniformTotal(w: Weights, ks: seq<IpAddr>, n: nat, share: real)
    requires Enumerates(ks, w.Keys) && n == |ks| && forall k :: k in w ==> w[k] == share
    ensures Total(w) == n as real * share
  {
    TotalInAnyOrder(w, ks);
    UniformValues(w, ks, share);
    UniformSum(Values(w, ks), n, share);
  }

  lemma UniformValues(w: Weights, ks: seq<IpAddr>, share: real)
    requires (forall k :: k in ks ==> k in w) && forall k :: k in w ==> w[k] == share
    ensures |Values(w, ks)| == |ks| && forall i :: 0 <= i < |ks| ==> Values(w, ks)[i] == share
  {
  }

  lemma {:induction false} UniformSum(x: seq<real>, n: nat, share: real)
    requires |x| == n && forall i :: 0 <= i < n ==> x[i] == share
    ensures Sum(x) == n as real * share
  {
    if x == [] {
    } else {
      UniformSum(x[1..], n - 1, share);
      SplitScale(n, 1, share);
    }
  }

  lemma PercentOf(n: nat)
    requires 0 < n <= 100
    ensures 1.0 / n as real >= MINIMUM_WEIGHT && n as real * (1.0 / n as real) == 1.0
  {
  }

  lemma SubsetOfEqualSize<T>(s: set<T>, t: set<T>)
    requires s <= t && |s| == |t|
    ensures s == t
  {
    assert |t - s| == |t| - |s|;
    assert t == s + (t - s);
  }

  /** Withdrawing B while A is announced twice keeps B in the weights. */
  lemma ReconcileKeepsStale(a: IpAddr, b: IpAddr, x: real, y: real)
    requires a != b
    ensures b in Reconciled(map[a := x, b := y], [a, a]) && b !in Members([a, a])
  {
    var w := map[a := x, b := y];
    assert w.Keys == {a, b};
    assert |w| == |{a, b}| == 2;
  }

  // The gradient step

  function GradientOf(windows: map<IpAddr, Window>, nh: IpAddr): Option<real> {
    if nh in windows then Some(Gradient(windows[nh])) else None
  }

  function MovedOne(weights: Weights, nh: IpAddr, g: Option<real>): Weights {
    if nh !in weights then weights
    else weights[nh := if g.Some? then weights[nh] - LEARNING_RATE * g.value else MINIMUM_WEIGHT]
  }

  /** Each nexthop in turn moves against its cost, or to the floor when nothing is known about it. */
  function Moved(weights: Weights, nexthops: seq<IpAddr>, windows: map<IpAddr, Window>): Weights
    decreases |nexthops|
  {
    if nexthops == [] then weights
    else
      var nh := nexthops[|nexthops| - 1];
      MovedOne(Moved(weights, nexthops[..|nexthops| - 1], windows), nh, GradientOf(windows, nh))
  }

  method Move(weights: Weights, nexthops: seq<IpAddr>, windows: map<IpAddr, Window>) returns (moved: Weights)
    ensures moved == Moved(weights, nexthops, windows)
    ensures moved.Keys == weights.Keys
  {
    moved := weights;
    for i := 0 to |nexthops|
      invariant moved == Moved(weights, nexthops[..i], windows)
      invariant moved.Keys == weights.Keys
    {
      assert nexthops[..i + 1][..i] == nexthops[..i];
      moved := MovedOne(moved, nexthops[i], GradientOf(windows, nexthops[i]));
    }
    assert nexthops[..|nexthops|] == nexthops;
  }

  /**
   * Every nexthop moves once: a measured one by 0.00000005 for each microsecond it costs, one
   * without measurements to the floor of one percent.
   */
  lemma {:induction false} MovedEach(weights: Weights, nexthops: seq<IpAddr>, windows: map<IpAddr, Window>)
    requires Distinct(nexthops) && forall nh :: nh in nexthops ==> nh in weights
    ensures Moved(weights, nexthops, windows).Keys == weights.Keys
    ensures forall nh :: nh in weights ==>
              Moved(weights, nexthops, windows)[nh] ==
                if nh !in nexthops then weights[nh]
                else if nh in windows then weights[nh] - 0.00000005 * Gradient(windows[nh])
                else 0.01
    decreases |nexthops|
  {
    if nexthops == [] {
    } else {
      var init, last := nexthops[..|nexthops| - 1], nexthops[|nexthops| - 1];
      assert nexthops == init + [last];
      MovedEach(weights, init, windows);
    }
  }

  // The projection

  ghost predicate FeasibleMap(w: Weights) {
    (forall nh :: nh in w ==> w[nh] >= MINIMUM_WEIGHT) && Total(w) == 1.0
  }

  ghost predicate ThresholdedMap(v: Weights, w: Weights, tau: real) {
    v.Keys == w.Keys && forall nh :: nh in v ==> w[nh] == Clamp(v[nh], tau)
  }

  ghost predicate IsProjectionMap(v: Weights, w: Weights) {
    (exists tau :: ThresholdedMap(v, w, tau)) && FeasibleMap(w)
  }

  lemma FeasibleValues(w: Weights, ks: seq<IpAddr>)
    requires FeasibleMap(w) && Enumerates(ks, w.Keys)
    ensures Feasible(Values(w, ks)) && Fractions(Values(w, ks))
  {
    TotalInAnyOrder(w, ks);
  }

  /** In whatever order the weights are listed, the projected map is the projection of the vector. */
  lemma ProjectionOfValues(v: Weights, w: Weights, ks: seq<IpAddr>)
    requires IsProjectionMap(v, w) && Enumerates(ks, v.Keys)
    ensures v.Keys == w.Keys && IsProjection(Values(v, ks), Values(w, ks))
  {
    var tau :| ThresholdedMap(v, w, tau);
    assert Thresholded(Values(v, ks), Values(w, ks), tau);
    FeasibleValues(w, ks);
  }

  lemma {:induction false} ExcessPermuted(x: seq<real>, y: seq<real>, tau: real)
    requires multiset(x) == multiset(y)
    ensures Sum(Excess(x, tau)) == Sum(Excess(y, tau))
    decreases |x|
  {
    if x == [] {
      assert |multiset(y)| == 0;
    } else {
      assert x[0] in multiset(y);
      var j :| 0 <= j < |y| && y[j] == x[0];
      MultisetWithout(x, 0);
      MultisetWithout(y, j);
      ExcessPermuted(Without(x, 0), Without(y, j), tau);
      ExcessWithout(x, tau, 0);
      ExcessWithout(y, tau, j);
    }
  }

  lemma ExcessWithout(x: seq<real>, tau: real, j: nat)
    requires j < |x|
    ensures Sum(Excess(x, tau)) == Positive(x[j] - tau) + Sum(Excess(Without(x, j), tau))
  {
    SumWithout(Excess(x, tau), j);
    assert Without(Excess(x, tau), j) == Excess(Without(x, j), tau);
  }

  function Shifted(v: seq<real>): seq<real> {
    seq(|v|, i requires 0 <= i < |v| => v[i] - MINIMUM_WEIGHT)
  }

  /** Clamping adds the floor back to what exceeds the threshold. */
  lemma {:induction false} SumOfClamped(v: seq<real>, w: seq<real>, tau: real, n: nat)
    requires n == |v| && Thresholded(v, w, tau)
    ensures Sum(w) == Sum(Excess(Shifted(v), tau)) + n as real * MINIMUM_WEIGHT
  {
    if v == [] {
    } else {
      SumOfClamped(v[1..], w[1..], tau, n - 1);
      assert Excess(Shifted(v), tau)[1..] == Excess(Shifted(v[1..]), tau);
    }
  }

  /** A threshold that leaves the right excess makes the clamped weights sum to one. */
  lemma ThresholdIsRight(weights: Weights, ks: seq<IpAddr>, sorted: seq<real>, tau: real, projected: Weights)
    requires Enumerates(ks, weights.Keys) && ThresholdedMap(weights, projected, tau)
    requires multiset(sorted) == multiset(Shifted(Values(weights, ks)))
    requires Sum(Excess(sorted, tau)) == 1.0 - |ks| as real * MINIMUM_WEIGHT
    ensures IsProjectionMap(weights, projected)
  {
    ExcessPermuted(Shifted(Values(weights, ks)), sorted, tau);
    assert Thresholded(Values(weights, ks), Values(projected, ks), tau);
    SumOfClamped(Values(weights, ks), Values(projected, ks), tau, |ks|);
    TotalInAnyOrder(projected, ks);
  }

  /** From 100 nexthops on nothing is left to share out, and the threshold stays at zero. */
  ghost predicate Projected(v: Weights, w: Weights) {
    v.Keys == w.Keys && if |v| < 100 then IsProjectionMap(v, w) else ThresholdedMap(v, w, 0.0)
  }

  method Project(weights: Weights) returns (projected: Weights)
    requires weights != map[]
    ensures Projected(weights, projected)
  {
    var n := |weights| as real;
    var r := 1.0 - n * MINIMUM_WEIGHT;
    var ks := Enumerate(weights.Keys);
    EnumerationLength(ks, weights.Keys);
    var v := Shifted(Values(weights, ks));
    var sorted := SortDescending(v);
    var tau, _ := FindThreshold(sorted, r);
    projected := map nh | nh in weights :: Clamp(weights[nh], tau);
    if |weights| < 100 {
      ThresholdIsRight(weights, ks, sorted, tau, projected);
    }
  }

  function SortDescending(v: seq<real>): (sorted: seq<real>)
    ensures multiset(sorted) == multiset(v) && |sorted| == |v| && Descending(sorted)
  {
    var le := (a: real, b: real) => a >= b;
    SortSorts(v, le);
    Sort(v, le)
  }

  // Quantisation

  ghost predicate FractionsMap(w: Weights) {
    (forall nh :: nh in w ==> w[nh] >= 0.0) && Total(w) == 1.0
  }

  function Shares(weights: Weights, ks: seq<IpAddr>): seq<Share<IpAddr>>
    requires forall k :: k in ks ==> k in weights
  {
    seq(|ks|, i requires 0 <= i < |ks| => Share(ks[i], Floor(weights[ks[i]]), Rest(weights[ks[i]])))
  }

  function ShareKeys(s: seq<Share<IpAddr>>): seq<IpAddr> {
    seq(|s|, i requires 0 <= i < |s| => s[i].nexthop)
  }

  function Floors(s: seq<Share<IpAddr>>): seq<int> {
    seq(|s|, i requires 0 <= i < |s| => s[i].floor)
  }

  function Rests(s: seq<Share<IpAddr>>): seq<real> {
    seq(|s|, i requires 0 <= i < |s| => s[i].rest)
  }

  /** The shares of a map of weights, listed in some order. */
  ghost predicate SharesOf(weights: Weights, s: seq<Share<IpAddr>>) {
    Enumerates(ShareKeys(s), weights.Keys) && s == Shares(weights, ShareKeys(s))
  }

  lemma SharesPermuted(weights: Weights, s: seq<Share<IpAddr>>, t: seq<Share<IpAddr>>)
    requires SharesOf(weights, s) && multiset(s) == multiset(t)
    ensures SharesOf(weights, t)
  {
    assert |multiset(s)| == |multiset(t)|;
    forall x | x in t
      ensures x in s
    {
      assert x in multiset(t);
    }
    forall x | x in s
      ensures x in t
    {
      assert x in multiset(s);
    }
    SameKeys(s, t);
    SameKeys(t, s);
    assert Members(ShareKeys(s)) == Members(ShareKeys(t)) == weights.Keys;
    DistinctLength(ShareKeys(s));
    DistinctLength(ShareKeys(t));
    forall i | 0 <= i < |t|
      ensures t[i] == Shares(weights, ShareKeys(t))[i]
    {
      assert t[i] in s;
    }
  }

  lemma SameKeys(s: seq<Share<IpAddr>>, t: seq<Share<IpAddr>>)
    requires forall x :: x in s ==> x in t
    ensures Members(ShareKeys(s)) <= Members(ShareKeys(t))
  {
    forall k | k in ShareKeys(s)
      ensures k in ShareKeys(t)
    {
      var i :| 0 <= i < |s| && s[i].nexthop == k;
      assert s[i] in t;
      var j :| 0 <= j < |t| && t[j] == s[i];
      assert ShareKeys(t)[j] == k;
    }
  }

  lemma {:induction false} SumParts(s: seq<real>, f: seq<int>, r: seq<real>)
    requires |s| == |f| == |r| && forall i :: 0 <= i < |s| ==> s[i] == f[i] as real + r[i]
    ensures Sum(s) == SumInt(f) as real + Sum(r)
  {
    if s == [] {
    } else {
      SumParts(s[1..], f[1..], r[1..]);
    }
  }

  lemma {:induction false} SumBelow(r: seq<real>, n: nat)
    requires n == |r| && forall i :: 0 <= i < |r| ==> 0.0 <= r[i] < 1.0
    ensures 0.0 <= Sum(r) <= n as real
    ensures n > 0 ==> Sum(r) < n as real
  {
    if r == [] {
    } else {
      SumBelow(r[1..], n - 1);
    }
  }

  /** What is left to hand out is the sum of the remainders: not negative, and less than one each. */
  lemma LeftoverBound(weights: Weights, s: seq<Share<IpAddr>>)
    requires FractionsMap(weights) && SharesOf(weights, s)
    ensures Sum(Rests(s)) == (WEIGHT_DENOMINATOR - SumInt(Floors(s))) as real
    ensures 0 <= WEIGHT_DENOMINATOR - SumInt(Floors(s)) < |s|
  {
    var w := Values(weights, ShareKeys(s));
    TotalInAnyOrder(weights, ShareKeys(s));
    assert Fractions(w);
    ExactSum(w);
    SumParts(Exact(w), Floors(s), Rests(s));
    forall i | 0 <= i < |s|
      ensures 0.0 <= Rests(s)[i] < 1.0
    {
      FractionBound(w, i);
    }
    SumBelow(Rests(s), |s|);
  }

  lemma {:induction false} RaisedSum(f: seq<int>, q: seq<int>, k: nat)
    requires |f| == |q| && k <= |f|
    requires forall i :: 0 <= i < |f| ==> q[i] == f[i] + if i < k then 1 else 0
    ensures SumInt(q) == SumInt(f) + k
  {
    if f == [] {
    } else {
      RaisedSum(f[1..], q[1..], if k > 0 then k - 1 else 0);
    }
  }

  ghost predicate ByRest(s: seq<Share<IpAddr>>) {
    forall i, j :: 0 <= i < j < |s| ==> s[i].rest >= s[j].rest
  }

  function SortByRest(s: seq<Share<IpAddr>>): (sorted: seq<Share<IpAddr>>)
    ensures multiset(sorted) == multiset(s) && |sorted| == |s| && ByRest(sorted)
  {
    var le := (a: Share<IpAddr>, b: Share<IpAddr>) => a.rest >= b.rest;
    SortSorts(s, le);
    Sort(s, le)
  }

  /** `out` raises the first `k` floors by one. */
  ghost predicate RaisesFirst(s: seq<Share<IpAddr>>, out: seq<Weighted<IpAddr>>, k: nat) {
    |out| == |s| &&
    forall i :: 0 <= i < |s| ==> out[i] == Weighted(s[i].nexthop, s[i].floor + if i < k then 1 else 0)
  }

  lemma RaisedIsRounded(weights: Weights, s: seq<Share<IpAddr>>, out: seq<Weighted<IpAddr>>, k: nat)
    requires SharesOf(weights, s) && ByRest(s) && k <= |s|
    requires RaisesFirst(s, out, k) && SumInt(Floors(s)) + k == WEIGHT_DENOMINATOR
    ensures LargestRemainder(weights, out)
  {
    assert NexthopsOf(out) == ShareKeys(s);
    RaisedSum(Floors(s), WeightsOf(out), k);
    var w, q := Values(weights, ShareKeys(s)), WeightsOf(out);
    forall i | 0 <= i < |q|
      ensures Floor(w[i]) == s[i].floor && Rest(w[i]) == s[i].rest
    {
      assert s[i] == Shares(weights, ShareKeys(s))[i];
    }
    assert Rounded(w, q);
  }

  method AddFloors(entries: seq<Share<IpAddr>>) returns (total: nat)
    ensures total == SumInt(Floors(entries))
  {
    total := 0;
    for i := 0 to |entries|
      invariant total == SumInt(Floors(entries)[..i])
    {
      SumIntPrefix(Floors(entries), i);
      total := total + entries[i].floor;
    }
    assert Floors(entries)[..|entries|] == Floors(entries);
  }

  method RaiseFirst(sorted: seq<Share<IpAddr>>, leftover: nat) returns (out: seq<Weighted<IpAddr>>)
    ensures RaisesFirst(sorted, out, leftover)
  {
    out := [];
    for i := 0 to |sorted|
      invariant RaisesFirst(sorted[..i], out, leftover)
    {
      out := out + [Weighted(sorted[i].nexthop, sorted[i].floor + if i < leftover then 1 else 0)];
    }
    assert sorted[..|sorted|] == sorted;
  }

  /** Weights that sum to one at least; more than one when there are more floors than one percents. */
  ghost predicate Generous(w: Weights) {
    (forall nh :: nh in w ==> w[nh] >= 0.0) && Total(w) >= 1.0
  }

  /** The floors alone exceed the denominator, and taking them from it leaves the range of `u16`. */
  ghost predicate Overflows(w: Weights) {
    exists s :: SharesOf(w, s) && SumInt(Floors(s)) > WEIGHT_DENOMINATOR
  }

  lemma {:induction false} FloorBelowSum(f: seq<int>, i: nat)
    requires i < |f| && forall j :: 0 <= j < |f| ==> f[j] >= 0
    ensures f[i] <= SumInt(f)
    ensures SumInt(f) >= 0
  {
    if i > 0 {
      FloorBelowSum(f[1..], i - 1);
    } else if |f| > 1 {
      FloorBelowSum(f[1..], 0);
    }
  }

  lemma FloorIsExact(w: real)
    requires w >= 0.0 && Floor(w) <= WEIGHT_DENOMINATOR
    ensures 0.0 <= Rest(w) < 1.0
  {
  }

  /** What is left over is less than one for each, as long as the floors do not exceed the denominator. */
  lemma LeftoverFits(weights: Weights, s: seq<Share<IpAddr>>)
    requires Generous(weights) && SharesOf(weights, s) && SumInt(Floors(s)) <= WEIGHT_DENOMINATOR
    ensures WEIGHT_DENOMINATOR - SumInt(Floors(s)) <= |s|
  {
    var w := Values(weights, ShareKeys(s));
    TotalInAnyOrder(weights, ShareKeys(s));
    ExactSum(w);
    forall i | 0 <= i < |s|
      ensures Exact(w)[i] == Floors(s)[i] as real + Rests(s)[i] && 0.0 <= Rests(s)[i] < 1.0
    {
      FloorBelowSum(Floors(s), i);
      FloorIsExact(w[i]);
    }
    SumParts(Exact(w), Floors(s), Rests(s));
    SumBelow(Rests(s), |s|);
  }

  method Quantise(weights: Weights) returns (out: Option<seq<Weighted<IpAddr>>>)
    requires Generous(weights)
    ensures out.None? <==> Overflows(weights)
    ensures out.Some? ==> LargestRemainder(weights, out.value)
  {
    var ks := Enumerate(weights.Keys);
    var entries := Shares(weights, ks);
    assert ShareKeys(entries) == ks;
    var floorSum := AddFloors(entries);
    if floorSum > WEIGHT_DENOMINATOR {
      return None;
    }
    var leftover := WEIGHT_DENOMINATOR - floorSum;
    LeftoverFits(weights, entries);
    FitsInAnyOrder(weights, entries);
    var sorted := SortByRest(entries);
    SharesPermuted(weights, entries, sorted);
    SameLeftover(weights, entries, sorted);
    var raised := RaiseFirst(sorted, leftover);
    RaisedIsRounded(weights, sorted, raised, leftover);
    out := Some(raised);
  }

  lemma FitsInAnyOrder(weights: Weights, s: seq<Share<IpAddr>>)
    requires SharesOf(weights, s) && SumInt(Floors(s)) <= WEIGHT_DENOMINATOR
    ensures !Overflows(weights)
  {
    forall t | SharesOf(weights, t)
      ensures SumInt(Floors(t)) <= WEIGHT_DENOMINATOR
    {
      SameLeftover(weights, s, t);
    }
  }

  lemma {:induction false} FloorsAdd(f: seq<int>, n: nat)
    requires n == |f| && forall i :: 0 <= i < |f| ==> f[i] >= 100
    ensures SumInt(f) >= 100 * n
    ensures SumInt(f) == 100 * n <==> forall i :: 0 <= i < |f| ==> f[i] == 100
  {
    if f == [] {
    } else {
      FloorsAdd(f[1..], n - 1);
      assert forall i :: 0 < i < |f| ==> f[i] == f[1..][i - 1];
    }
  }

  lemma FloorOfPercent(w: real)
    requires w >= MINIMUM_WEIGHT
    ensures Floor(w) >= 100
    ensures Floor(w) == 100 <==> w < 0.0101
  {
    assert Apportionment.Scaled(w) >= 100.0;
    assert (Apportionment.Scaled(w) < 101.0) == (w < 0.0101);
  }

  lemma SomeShares(weights: Weights) returns (s: seq<Share<IpAddr>>)
    ensures SharesOf(weights, s) && |s| == |weights|
  {
    var ks := SomeOrder(weights.Keys);
    s := Shares(weights, ks);
    assert ShareKeys(s) == ks;
    EnumerationLength(ks, weights.Keys);
    assert |weights| == |weights.Keys|;
  }

  lemma PercentsTotal(w: Weights, ks: seq<IpAddr>)
    requires Enumerates(ks, w.Keys) && |ks| >= 100 && forall nh :: nh in w ==> w[nh] >= MINIMUM_WEIGHT
    ensures Total(w) >= 1.0
  {
    TotalInAnyOrder(w, ks);
    SumAtLeast(Values(w, ks), MINIMUM_WEIGHT, |ks|);
    PercentsAdd(|ks|);
  }

  lemma PercentFloors(w: Weights, s: seq<Share<IpAddr>>)
    requires SharesOf(w, s) && forall nh :: nh in w ==> w[nh] >= MINIMUM_WEIGHT
    ensures SumInt(Floors(s)) >= 100 * |s|
    ensures SumInt(Floors(s)) == 100 * |s| <==> forall nh :: nh in w ==> w[nh] < 0.0101
  {
    var ks := ShareKeys(s);
    forall i | 0 <= i < |s|
      ensures Floors(s)[i] >= 100 && (Floors(s)[i] == 100 <==> w[ks[i]] < 0.0101)
    {
      FloorOfPercent(w[ks[i]]);
    }
    FloorsAdd(Floors(s), |s|);
    forall nh | nh in w
      ensures exists i :: 0 <= i < |s| && ks[i] == nh
    {
      assert nh in ks;
    }
  }

  /**
   * After projecting, quantising never overflows below 100 nexthops and always does above; with
   * exactly 100 it does when one of them holds enough more than its percent for another ticket.
   */
  lemma OverflowsExactly(v: Weights, w: Weights)
    requires Projected(v, w) && v != map[]
    ensures Generous(w)
    ensures |w| < 100 ==> !Overflows(w)
    ensures |w| == 100 ==> (Overflows(w) <==> exists nh :: nh in w && w[nh] >= 0.0101)
    ensures |w| > 100 ==> Overflows(w)
  {
    assert |v| == |v.Keys| == |w.Keys| == |w|;
    var s := SomeShares(w);
    if |w| < 100 {
      LeftoverBound(w, s);
      FitsInAnyOrder(w, s);
    } else {
      PercentsTotal(w, ShareKeys(s));
      PercentFloors(w, s);
      if SumInt(Floors(s)) <= WEIGHT_DENOMINATOR {
        FitsInAnyOrder(w, s);
      }
    }
  }

  lemma PercentsAdd(n: nat)
    requires n >= 100
    ensures n as real * MINIMUM_WEIGHT >= 1.0
  {
  }

  lemma SameLeftover(weights: Weights, s: seq<Share<IpAddr>>, t: seq<Share<IpAddr>>)
    requires SharesOf(weights, s) && SharesOf(weights, t)
    ensures SumInt(Floors(s)) == SumInt(Floors(t))
  {
    var floors := map nh | nh in weights :: Floor(weights[nh]) as real;
    SumOverEnumerations(floors, ShareKeys(s), ShareKeys(t));
    SumIntAsReal(Floors(s));
    SumIntAsReal(Floors(t));
    assert Reals(Floors(s)) == Values(floors, ShareKeys(s));
    assert Reals(Floors(t)) == Values(floors, ShareKeys(t));
  }

  // One step of the descent

  lemma {:induction false} MovedKeys(weights: Weights, nexthops: seq<IpAddr>, windows: map<IpAddr, Window>)
    ensures Moved(weights, nexthops, windows).Keys == weights.Keys
    decreases |nexthops|
  {
    if nexthops == [] {
    } else {
      MovedKeys(weights, nexthops[..|nexthops| - 1], windows);
    }
  }

  /** The weights one step leads to. */
  ghost predicate Stepped(w: Weights, nexthops: seq<IpAddr>, windows: map<IpAddr, Window>, w': Weights) {
    IsProjectionMap(Moved(Reconciled(w, nexthops), nexthops, windows), w')
  }

  function WeightsFor(weights: map<Nlri, Weights>, nlri: Nlri): Weights {
    if nlri in weights then weights[nlri] else map[]
  }

  function WindowsFor(snapshot: Snapshot, nlri: Nlri): map<IpAddr, Window> {
    if nlri in snapshot then snapshot[nlri] else map[]
  }

  /** What one step does to the weights of all prefixes, and what it outputs. */
  ghost predicate StepsTo(weights: map<Nlri, Weights>, nlri: Nlri, nexthops: seq<IpAddr>, snapshot: Snapshot,
                          weights': map<Nlri, Weights>, out: Option<seq<Weighted<IpAddr>>>) {
    if nexthops == [] then out == None && weights' == weights - {nlri}
    else
      && out.Some? && nlri in weights' && weights' == weights[nlri := weights'[nlri]]
      && Stepped(WeightsFor(weights, nlri), nexthops, WindowsFor(snapshot, nlri), weights'[nlri])
      && LargestRemainder(weights'[nlri], out.value)
  }

  class OnlineDescent {
    var weights: map<Nlri, Weights>

    constructor ()
      ensures weights == map[]
    {
      weights := map[];
    }

    /** `ok` is false when the floors overflow, which ends the step after the weights have moved. */
    method Step(nlri: Nlri, nexthops: seq<IpAddr>, snapshot: Snapshot)
      returns (out: Option<seq<Weighted<IpAddr>>>, ok: bool)
      modifies this
      ensures nexthops != [] ==>
                && nlri in weights && weights == old(weights)[nlri := weights[nlri]]
                && Projected(Moved(Reconciled(WeightsFor(old(weights), nlri), nexthops), nexthops, WindowsFor(snapshot, nlri)),
                             weights[nlri])
                && (ok <==> !Overflows(weights[nlri]))
                && (ok ==> out.Some? && LargestRemainder(weights[nlri], out.value))
      ensures |nexthops| < 100 ==> ok && StepsTo(old(weights), nlri, nexthops, snapshot, weights, out)
    {
      if nexthops == [] {
        weights := weights - {nlri};
        return None, true;
      }
      var reconciled := Reconcile(WeightsFor(weights, nlri), nexthops);
      ReconcileIsExact(WeightsFor(weights, nlri), nexthops);
      var moved := Move(reconciled, nexthops, WindowsFor(snapshot, nlri));
      assert |moved| == |moved.Keys| == |reconciled| == |reconciled.Keys|;
      var projected := Project(moved);
      OverflowsExactly(moved, projected);
      assert |projected| == |projected.Keys| == |moved.Keys|;
      weights := weights[nlri := projected];
      out := Quantise(projected);
      ok := out.Some?;
    }
  }
}
