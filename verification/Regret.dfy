/** What the descent is worth: its effect on cost step by step, and its regret over whole runs. */
module Regret {
  import opened Addresses
  import opened Vectors
  import opened Enumerations
  import opened Simplex
  import opened Descent
  import opened RttWindows

  ghost predicate Measured(nexthops: seq<IpAddr>, windows: map<IpAddr, Window>) {
    forall nh :: nh in nexthops ==> nh in windows
  }

  function Costs(nexthops: seq<IpAddr>, windows: map<IpAddr, Window>): seq<real>
    requires Measured(nexthops, windows)
  {
    seq(|nexthops|, i requires 0 <= i < |nexthops| => Gradient(windows[nexthops[i]]))
  }

  /** The weights a step plays: those it has after reconciling. */
  function Played(w: Weights, nexthops: seq<IpAddr>): seq<real>
    requires Reconciled(w, nexthops).Keys == Members(nexthops)
  {
    Values(Reconciled(w, nexthops), nexthops)
  }

  /** A gradient step on vectors. */
  function Descended(x: seq<real>, g: seq<real>): seq<real>
    requires |x| == |g|
  {
    Sub(x, Scale(LEARNING_RATE, g))
  }

  lemma MovedAsVectors(start: Weights, nexthops: seq<IpAddr>, windows: map<IpAddr, Window>)
    requires Distinct(nexthops) && Measured(nexthops, windows) && start.Keys == Members(nexthops)
    ensures Moved(start, nexthops, windows).Keys == start.Keys
    ensures Values(Moved(start, nexthops, windows), nexthops)
         == Descended(Values(start, nexthops), Costs(nexthops, windows))
  {
    MovedEach(start, nexthops, windows);
    var moved := Moved(start, nexthops, windows);
    forall i | 0 <= i < |nexthops|
      ensures Values(moved, nexthops)[i] == Descended(Values(start, nexthops), Costs(nexthops, windows))[i]
    {
      assert nexthops[i] in nexthops;
    }
  }

  lemma ReconciledAlready(w: Weights, nexthops: seq<IpAddr>)
    requires Distinct(nexthops) && w.Keys == Members(nexthops)
    ensures Reconciled(w, nexthops) == w
  {
    DistinctLength(nexthops);
    assert |w| == |w.Keys|;
  }

  /** As vectors, one step is a gradient step followed by a projection. */
  lemma StepAsVectors(w: Weights, nexthops: seq<IpAddr>, windows: map<IpAddr, Window>, w': Weights)
    requires Distinct(nexthops) && Measured(nexthops, windows) && Stepped(w, nexthops, windows, w')
    ensures Reconciled(w, nexthops).Keys == Members(nexthops) == w'.Keys
    ensures IsProjection(Descended(Played(w, nexthops), Costs(nexthops, windows)), Values(w', nexthops))
    ensures Reconciled(w', nexthops) == w' && FeasibleMap(w')
  {
    var start := Reconciled(w, nexthops);
    ReconcileIsExact(w, nexthops);
    MovedAsVectors(start, nexthops, windows);
    ProjectionOfValues(Moved(start, nexthops, windows), w', nexthops);
    ReconciledAlready(w', nexthops);
  }

  // A single step

  lemma DescendedCost(x: seq<real>, g: seq<real>, x': seq<real>)
    requires |x| == |g| && Feasible(x) && IsProjection(Descended(x, g), x')
    ensures LEARNING_RATE * (Dot(g, x) - Dot(g, x')) >= SqDist(x, x')
  {
    var h := Scale(LEARNING_RATE, g);
    VariationalInequality(Sub(x, h), x', x);
    StepAngle(x, h, x');
    DotScale(LEARNING_RATE, g, x);
    DotScale(LEARNING_RATE, g, x');
  }

  /** A step from feasible weights never raises the weighted cost it was computed for. */
  lemma StepLowersCost(w: Weights, nexthops: seq<IpAddr>, windows: map<IpAddr, Window>, w': Weights)
    requires Distinct(nexthops) && Measured(nexthops, windows) && Stepped(w, nexthops, windows, w')
    requires FeasibleMap(w) && w.Keys == Members(nexthops)
    ensures w'.Keys == w.Keys
    ensures LEARNING_RATE * (Dot(Costs(nexthops, windows), Values(w, nexthops))
                             - Dot(Costs(nexthops, windows), Values(w', nexthops)))
              >= SqDist(Values(w, nexthops), Values(w', nexthops))
    ensures Dot(Costs(nexthops, windows), Values(w', nexthops)) <= Dot(Costs(nexthops, windows), Values(w, nexthops))
  {
    StepAsVectors(w, nexthops, windows, w');
    ReconciledAlready(w, nexthops);
    FeasibleValues(w, nexthops);
    DescendedCost(Values(w, nexthops), Costs(nexthops, windows), Values(w', nexthops));
    SqDistNonNegative(Values(w, nexthops), Values(w', nexthops));
  }

  ghost predicate Cheapest(nexthops: seq<IpAddr>, windows: map<IpAddr, Window>, nh: IpAddr)
    requires Measured(nexthops, windows)
  {
    nh in nexthops && forall k :: k in nexthops ==> Gradient(windows[nh]) <= Gradient(windows[k])
  }

  ghost predicate Dearest(nexthops: seq<IpAddr>, windows: map<IpAddr, Window>, nh: IpAddr)
    requires Measured(nexthops, windows)
  {
    nh in nexthops && forall k :: k in nexthops ==> Gradient(windows[k]) <= Gradient(windows[nh])
  }

  /** The threshold a step ended up with, nexthop by nexthop. */
  lemma StepThreshold(w: Weights, nexthops: seq<IpAddr>, windows: map<IpAddr, Window>, w': Weights) returns (tau: real)
    requires Distinct(nexthops) && Measured(nexthops, windows) && Stepped(w, nexthops, windows, w')
    requires FeasibleMap(w) && w.Keys == Members(nexthops)
    ensures w'.Keys == w.Keys
    ensures forall nh :: nh in nexthops ==>
              w'[nh] == Clamp(w[nh] - LEARNING_RATE * Gradient(windows[nh]), tau)
    ensures Sum(Values(w, nexthops)) == Sum(Values(w', nexthops)) == 1.0
  {
    ReconciledAlready(w, nexthops);
    StepAsVectors(w, nexthops, windows, w');
    var moved := Moved(w, nexthops, windows);
    MovedEach(w, nexthops, windows);
    tau :| ThresholdedMap(moved, w', tau);
    FeasibleValues(w, nexthops);
    FeasibleValues(w', nexthops);
  }

  lemma ClampBelow(x: real, d: real, tau: real)
    requires x >= MINIMUM_WEIGHT
    ensures Clamp(x - d, tau) < x ==> d + tau > 0.0
    ensures Clamp(x - d, tau) > x ==> d + tau < 0.0
    ensures d + tau > 0.0 ==> Clamp(x - d, tau) <= x
    ensures d + tau < 0.0 ==> Clamp(x - d, tau) >= x
  {
  }

  lemma LearningRateKeepsOrder(a: real, b: real)
    requires a <= b
    ensures LEARNING_RATE * a <= LEARNING_RATE * b
  {
  }

  /** A step never takes weight from the cheapest nexthop. */
  lemma CheapestNeverLoses(w: Weights, nexthops: seq<IpAddr>, windows: map<IpAddr, Window>, w': Weights, nh: IpAddr)
    requires Distinct(nexthops) && Measured(nexthops, windows) && Stepped(w, nexthops, windows, w')
    requires FeasibleMap(w) && w.Keys == Members(nexthops) && Cheapest(nexthops, windows, nh)
    ensures nh in w && nh in w' && w'[nh] >= w[nh]
  {
    var tau := StepThreshold(w, nexthops, windows, w');
    if w'[nh] < w[nh] {
      ClampBelow(w[nh], LEARNING_RATE * Gradient(windows[nh]), tau);
      forall i | 0 <= i < |nexthops|
        ensures w'[nexthops[i]] <= w[nexthops[i]]
      {
        var k := nexthops[i];
        LearningRateKeepsOrder(Gradient(windows[nh]), Gradient(windows[k]));
        ClampBelow(w[k], LEARNING_RATE * Gradient(windows[k]), tau);
      }
      var i :| 0 <= i < |nexthops| && nexthops[i] == nh;
      SumLt(Values(w', nexthops), Values(w, nexthops), i);
    }
  }

  /** A step never gives weight to the dearest nexthop. */
  lemma DearestNeverGains(w: Weights, nexthops: seq<IpAddr>, windows: map<IpAddr, Window>, w': Weights, nh: IpAddr)
    requires Distinct(nexthops) && Measured(nexthops, windows) && Stepped(w, nexthops, windows, w')
    requires FeasibleMap(w) && w.Keys == Members(nexthops) && Dearest(nexthops, windows, nh)
    ensures nh in w && nh in w' && w'[nh] <= w[nh]
  {
    var tau := StepThreshold(w, nexthops, windows, w');
    if w'[nh] > w[nh] {
      ClampBelow(w[nh], LEARNING_RATE * Gradient(windows[nh]), tau);
      forall i | 0 <= i < |nexthops|
        ensures w[nexthops[i]] <= w'[nexthops[i]]
      {
        var k := nexthops[i];
        LearningRateKeepsOrder(Gradient(windows[k]), Gradient(windows[nh]));
        ClampBelow(w[k], LEARNING_RATE * Gradient(windows[k]), tau);
      }
      var i :| 0 <= i < |nexthops| && nexthops[i] == nh;
      SumLt(Values(w, nexthops), Values(w', nexthops), i);
    }
  }

  /** With equal costs everywhere a step changes nothing. */
  lemma EqualCostsChangeNothing(w: Weights, nexthops: seq<IpAddr>, windows: map<IpAddr, Window>, w': Weights)
    requires Distinct(nexthops) && Measured(nexthops, windows) && Stepped(w, nexthops, windows, w')
    requires FeasibleMap(w) && w.Keys == Members(nexthops)
    requires forall j, k :: j in nexthops && k in nexthops ==> Gradient(windows[j]) == Gradient(windows[k])
    ensures w' == w
  {
    StepAsVectors(w, nexthops, windows, w');
    forall nh | nh in nexthops
      ensures w'[nh] == w[nh]
    {
      CheapestNeverLoses(w, nexthops, windows, w', nh);
      DearestNeverGains(w, nexthops, windows, w', nh);
    }
    assert forall nh :: nh in w ==> nh in nexthops;
  }

  // Whole runs

  /** A run of steps for one prefix with fixed, distinct, fully measured nexthops. */
  ghost predicate Run(ws: seq<Weights>, nexthops: seq<IpAddr>, windows: seq<map<IpAddr, Window>>) {
    && |ws| == |windows| + 1
    && Distinct(nexthops)
    && (forall t :: 0 <= t < |windows| ==> Measured(nexthops, windows[t]))
    && (forall t :: 0 <= t < |windows| ==> Stepped(ws[t], nexthops, windows[t], ws[t + 1]))
  }

  lemma RunTail(ws: seq<Weights>, nexthops: seq<IpAddr>, windows: seq<map<IpAddr, Window>>)
    requires Run(ws, nexthops, windows) && windows != []
    ensures Run(ws[1..], nexthops, windows[1..])
  {
    forall t | 0 <= t < |windows| - 1
      ensures Stepped(ws[1..][t], nexthops, windows[1..][t], ws[1..][t + 1])
    {
      assert Stepped(ws[t + 1], nexthops, windows[t + 1], ws[t + 2]);
    }
  }

  lemma PlayedDefined(w: Weights, nexthops: seq<IpAddr>)
    requires Distinct(nexthops)
    ensures Reconciled(w, nexthops).Keys == Members(nexthops)
  {
    ReconcileIsExact(w, nexthops);
  }

  ghost function PlayedAt(w: Weights, nexthops: seq<IpAddr>): seq<real>
    requires Distinct(nexthops)
  {
    PlayedDefined(w, nexthops);
    Played(w, nexthops)
  }

  /** How much more was paid over a run than the fixed weights `u` would have paid. */
  ghost function RegretOf(ws: seq<Weights>, nexthops: seq<IpAddr>, windows: seq<map<IpAddr, Window>>, u: seq<real>): real
    requires Run(ws, nexthops, windows) && |u| == |nexthops|
    decreases |windows|
  {
    if windows == [] then 0.0 else
      RunTail(ws, nexthops, windows);
      Dot(Costs(nexthops, windows[0]), Sub(PlayedAt(ws[0], nexthops), u))
        + RegretOf(ws[1..], nexthops, windows[1..], u)
  }

  ghost function GradientNorms(nexthops: seq<IpAddr>, windows: seq<map<IpAddr, Window>>): real
    requires forall t :: 0 <= t < |windows| ==> Measured(nexthops, windows[t])
  {
    if windows == [] then 0.0 else
      Dot(Costs(nexthops, windows[0]), Costs(nexthops, windows[0])) + GradientNorms(nexthops, windows[1..])
  }

  /** How the inner products with a scaled gradient scale. */
  lemma ScaledProducts(g: seq<real>, y: seq<real>)
    requires |g| == |y|
    ensures var h := Scale(LEARNING_RATE, g);
            Dot(h, y) == LEARNING_RATE * Dot(g, y) && Dot(h, h) == LEARNING_RATE * (LEARNING_RATE * Dot(g, g))
  {
    var h := Scale(LEARNING_RATE, g);
    DotScale(LEARNING_RATE, g, y);
    DotScale(LEARNING_RATE, g, h);
    DotSymmetric(g, h);
    DotScale(LEARNING_RATE, g, g);
  }

  lemma DescendedDistance(x: seq<real>, g: seq<real>, x': seq<real>, u: seq<real>)
    requires |x| == |g| == |u| && IsProjection(Descended(x, g), x') && Feasible(u)
    ensures SqDist(x', u) <= SqDist(x, u) - 2.0 * (LEARNING_RATE * Dot(g, Sub(x, u)))
                             + LEARNING_RATE * (LEARNING_RATE * Dot(g, g))
  {
    var h := Scale(LEARNING_RATE, g);
    assert SqDist(x', u) <= SqDist(Sub(x, h), u) by {
      ProjectionIsNearest(Sub(x, h), x', u);
    }
    StepDistance(x, h, u);
    ScaledProducts(g, Sub(x, u));
  }

  /** One step brings the weights closer to `u` by as much as it was dearer than `u`. */
  lemma StepTowards(w: Weights, nexthops: seq<IpAddr>, windows: map<IpAddr, Window>, w': Weights, u: seq<real>)
    requires Distinct(nexthops) && Measured(nexthops, windows) && Stepped(w, nexthops, windows, w')
    requires Feasible(u) && |u| == |nexthops|
    ensures SqDist(PlayedAt(w', nexthops), u)
         <= SqDist(PlayedAt(w, nexthops), u)
            - 2.0 * (LEARNING_RATE * Dot(Costs(nexthops, windows), Sub(PlayedAt(w, nexthops), u)))
            + LEARNING_RATE * (LEARNING_RATE * Dot(Costs(nexthops, windows), Costs(nexthops, windows)))
  {
    StepAsVectors(w, nexthops, windows, w');
    DescendedDistance(PlayedAt(w, nexthops), Costs(nexthops, windows), PlayedAt(w', nexthops), u);
  }

  lemma {:induction false} RegretTelescopes(ws: seq<Weights>, nexthops: seq<IpAddr>,
                                            windows: seq<map<IpAddr, Window>>, u: seq<real>)
    requires Run(ws, nexthops, windows) && Feasible(u) && |u| == |nexthops|
    ensures 2.0 * (LEARNING_RATE * RegretOf(ws, nexthops, windows, u))
         <= SqDist(PlayedAt(ws[0], nexthops), u) - SqDist(PlayedAt(ws[|windows|], nexthops), u)
            + LEARNING_RATE * (LEARNING_RATE * GradientNorms(nexthops, windows))
    decreases |windows|
  {
    if windows == [] {
    } else {
      RunTail(ws, nexthops, windows);
      RegretTelescopes(ws[1..], nexthops, windows[1..], u);
      StepTowards(ws[0], nexthops, windows[0], ws[1], u);
    }
  }

  /** The regret bound of projected online gradient descent, over every run and every fixed choice. */
  lemma RegretBound(ws: seq<Weights>, nexthops: seq<IpAddr>, windows: seq<map<IpAddr, Window>>, u: seq<real>)
    requires Run(ws, nexthops, windows) && Feasible(u) && |u| == |nexthops|
    ensures RegretOf(ws, nexthops, windows, u)
         <= SqDist(PlayedAt(ws[0], nexthops), u) / (2.0 * LEARNING_RATE)
            + LEARNING_RATE / 2.0 * GradientNorms(nexthops, windows)
  {
    RegretTelescopes(ws, nexthops, windows, u);
    SqDistNonNegative(PlayedAt(ws[|windows|], nexthops), u);
  }
}
