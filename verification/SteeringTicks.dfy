/** What updates and ticks of the controller do to weights and tickets, in terms of the RTT snapshot they get. */
module SteeringTicks {
  import opened Addresses
  import opened LongestPrefix
  import opened Vectors
  import opened Enumerations
  import opened Simplex
  import opened Apportionment
  import opened RttWindows
  import opened Descent
  import opened Fib
  import opened Rib
  import opened Controller
  import opened SteeringRuns
  import Regret

  // Updates

  /** Any two nexthops of the entry have the same weight, or differ by one ticket. */
  ghost predicate Even(c: CFibEntry) {
    |c.weights| >= c.count && forall i, j :: 0 <= i < c.count && 0 <= j < c.count ==> c.weights[i] <= c.weights[j] + 1
  }

  /** Every slot of an entry holds a nexthop it was built from, as octets, with its own weight. */
  lemma SlotHasSource(nlri: Nlri, ws: seq<Weighted<IpAddr>>, c: CFibEntry, i: nat) returns (j: nat)
    requires Built(nlri, ws, c) && i < c.count
    ensures i < |c.weights| && i < |c.nexthops| && j < |ws|
    ensures c.weights[i] == ws[j].weight && c.nexthops[i] == ToOctets(ws[j].nexthop)
  {
    var e :| WellFormed(e) && multiset(Listed(e)) == multiset(ws) && c == Packed(nlri, e);
    assert Listed(e)[i] in multiset(Listed(e));
    assert Listed(e)[i] in multiset(ws);
    j :| 0 <= j < |ws| && ws[j] == Listed(e)[i];
  }

  /** And every nexthop it was built from has such a slot. */
  lemma SourceHasSlot(nlri: Nlri, ws: seq<Weighted<IpAddr>>, c: CFibEntry, j: nat) returns (i: nat)
    requires Built(nlri, ws, c) && j < |ws|
    ensures i < c.count && i < |c.weights| && i < |c.nexthops|
    ensures c.weights[i] == ws[j].weight && c.nexthops[i] == ToOctets(ws[j].nexthop)
  {
    var e :| WellFormed(e) && multiset(Listed(e)) == multiset(ws) && c == Packed(nlri, e);
    assert ws[j] in multiset(ws);
    assert ws[j] in multiset(Listed(e));
    i :| 0 <= i < |Listed(e)| && Listed(e)[i] == ws[j];
  }

  lemma BalancedEntryIsEven(nlri: Nlri, nexthops: seq<IpAddr>, c: CFibEntry)
    requires 0 < |nexthops| <= MAX_NEXTHOPS && Built(nlri, Balanced(nexthops), c)
    ensures Even(c)
  {
    BuiltIsSound(nlri, Balanced(nexthops), c) by {
      BalancedIsSound(nexthops);
    }
    forall i, j | 0 <= i < c.count && 0 <= j < c.count
      ensures c.weights[i] <= c.weights[j] + 1
    {
      var k := SlotHasSource(nlri, Balanced(nexthops), c, i);
      var l := SlotHasSource(nlri, Balanced(nexthops), c, j);
      BalancedIsEven(nexthops, if k < l then k else l, if k < l then l else k);
    }
  }

  /** After every update of a prefix that keeps a path, the tickets of its entry are spread evenly. */
  lemma UpdatedEntryIsEven(s: State, op: RibOp, s': State)
    requires Rib.Valid(s.table) && Step(s, Routed(op), s') && op.route.nlri in s'.table
    ensures NodeOf(op.route.nlri) in s'.fib && Even(s'.fib[NodeOf(op.route.nlri)])
  {
    var n := op.route.nlri;
    RoutedTable(s.table, op, n);
    BalancedEntryIsEven(n, FirstFour(Nexthops(s'.table, n)), s'.fib[NodeOf(n)]);
  }

  // Ticks

  ghost function WeightsOfPrefix(s: State, n: Nlri): Weights {
    if n in s.weights then s.weights[n] else map[]
  }

  ghost function Offered(s: State, n: Nlri): seq<IpAddr> {
    FirstFour(Nexthops(s.table, n))
  }

  /** The weights of a prefix made one step on what the snapshot holds for it. */
  ghost predicate SteppedOn(s: State, snapshot: Snapshot, s': State, n: Nlri) {
    && n in s'.weights
    && Stepped(WeightsOfPrefix(s, n), Offered(s, n), if n in snapshot then snapshot[n] else map[], s'.weights[n])
  }

  /** The entry hands out its tickets by the weights. */
  ghost predicate Apportions(w: Weights, n: Nlri, c: CFibEntry) {
    exists out :: LargestRemainder(w, out) && Built(n, out, c)
  }

  ghost predicate EntryApportions(s: State, n: Nlri) {
    n in s.weights && NodeOf(n) in s.fib && Apportions(s.weights[n], n, s.fib[NodeOf(n)])
  }

  lemma SteeredSteps(s: State, n: Nlri, snapshot: Snapshot, s': State)
    requires Nexthops(s.table, n) != [] && Steered(s, n, snapshot, s')
    ensures SteppedOn(s, snapshot, s', n)
  {
    var out :| StepsTo(s.weights, n, Offered(s, n), snapshot, s'.weights, out) && Written(s.fib, n, out, s'.fib);
  }

  lemma StepApportions(weights: map<Nlri, Weights>, n: Nlri, nexthops: seq<IpAddr>, snapshot: Snapshot,
                       weights': map<Nlri, Weights>, out: seq<Weighted<IpAddr>>, c: CFibEntry)
    requires nexthops != [] && StepsTo(weights, n, nexthops, snapshot, weights', Some(out)) && Built(n, out, c)
    ensures n in weights' && Apportions(weights'[n], n, c)
  {
  }

  lemma SteeredApportions(s: State, n: Nlri, snapshot: Snapshot, s': State)
    requires Nexthops(s.table, n) != [] && Steered(s, n, snapshot, s')
    ensures EntryApportions(s', n)
  {
    var out :| StepsTo(s.weights, n, Offered(s, n), snapshot, s'.weights, out) && Written(s.fib, n, out, s'.fib);
    StepApportions(s.weights, n, Offered(s, n), snapshot, s'.weights, out.value, s'.fib[NodeOf(n)]);
  }

  /** Steering one prefix leaves the weights of all others and the entries of all other nodes alone. */
  lemma SteeredFrame(s: State, nlri: Nlri, snapshot: Snapshot, s': State)
    requires Nexthops(s.table, nlri) != [] && Steered(s, nlri, snapshot, s')
    ensures nlri in s'.weights && s'.weights == s.weights[nlri := s'.weights[nlri]]
    ensures NodeOf(nlri) in s'.fib && s'.fib == s.fib[NodeOf(nlri) := s'.fib[NodeOf(nlri)]]
  {
    var out :| StepsTo(s.weights, nlri, Offered(s, nlri), snapshot, s'.weights, out) && Written(s.fib, nlri, out, s'.fib);
  }

  lemma FrameKeeps(s: State, nlri: Nlri, s': State, n: Nlri)
    requires nlri in s'.weights && s'.weights == s.weights[nlri := s'.weights[nlri]]
    requires NodeOf(nlri) in s'.fib && s'.fib == s.fib[NodeOf(nlri) := s'.fib[NodeOf(nlri)]]
    ensures n != nlri ==> WeightsOfPrefix(s', n) == WeightsOfPrefix(s, n) && (n in s'.weights <==> n in s.weights)
    ensures NodeOf(n) != NodeOf(nlri) && EntryApportions(s, n) ==> EntryApportions(s', n)
  {
  }

  lemma {:induction false} SteeringSteps(s: State, order: seq<Nlri>, snapshot: Snapshot, s': State, n: Nlri)
    requires SteeredAll(s, order, snapshot, s') && Distinct(order)
    requires forall m :: m in order ==> Nexthops(s.table, m) != []
    ensures n in order ==> SteppedOn(s, snapshot, s', n)
    ensures n !in order ==> WeightsOfPrefix(s', n) == WeightsOfPrefix(s, n) && (n in s'.weights <==> n in s.weights)
    decreases |order|
  {
    if order == [] {
    } else {
      LastOf(order);
      var mid := LastSteered(s, order, snapshot, s');
      SteeringSteps(s, order[..|order| - 1], snapshot, mid, n);
      if n == order[|order| - 1] {
        SteeredSteps(mid, n, snapshot, s');
      } else {
        SteeredFrame(mid, order[|order| - 1], snapshot, s');
        FrameKeeps(mid, order[|order| - 1], s', n);
      }
    }
  }

  /** No other prefix of the order shares the node. */
  ghost predicate Alone(order: seq<Nlri>, n: Nlri) {
    forall m :: m in order && m != n ==> NodeOf(m) != NodeOf(n)
  }

  lemma AloneInTable(t: Table, order: seq<Nlri>, n: Nlri)
    requires (forall m :: m in order <==> m in t) && Sharing(t, NodeOf(n)) == {n}
    ensures Alone(order, n)
  {
    forall m | m in order && m != n
      ensures NodeOf(m) != NodeOf(n)
    {
      assert m !in Sharing(t, NodeOf(n));
    }
  }

  lemma {:induction false} SteeringApportions(s: State, order: seq<Nlri>, snapshot: Snapshot, s': State, n: Nlri)
    requires SteeredAll(s, order, snapshot, s') && n in order && Distinct(order)
    requires forall m :: m in order ==> Nexthops(s.table, m) != []
    requires Alone(order, n)
    ensures EntryApportions(s', n)
    decreases |order|
  {
    LastOf(order);
    var mid := LastSteered(s, order, snapshot, s');
    var last := order[|order| - 1];
    if n == last {
      SteeredApportions(mid, n, snapshot, s');
    } else {
      SteeringApportions(s, order[..|order| - 1], snapshot, mid, n);
      SteeredFrame(mid, last, snapshot, s');
      FrameKeeps(mid, last, s', n);
    }
  }

  lemma TickApportions(s: State, snapshot: Snapshot, s': State, n: Nlri)
    requires Rib.Valid(s.table) && Step(s, Tick(Some(snapshot)), s') && n in s.table
    requires Sharing(s.table, NodeOf(n)) == {n}
    ensures EntryApportions(s', n)
  {
    var order := TickSteers(s, snapshot, s');
    AloneInTable(s.table, order, n);
    SteeringApportions(s, order, snapshot, s', n);
  }

  lemma TickStepsOn(s: State, snapshot: Snapshot, s': State, n: Nlri)
    requires Rib.Valid(s.table) && Step(s, Tick(Some(snapshot)), s') && n in s.table
    ensures s'.table == s.table && SteppedOn(s, snapshot, s', n)
  {
    var order := TickSteers(s, snapshot, s');
    SteeringSteps(s, order, snapshot, s', n);
  }

  /**
   * A tick moves the weights of every prefix with a path by one step on exactly what the snapshot
   * holds for that prefix, and hands out the tickets of its entry by those weights.
   */
  lemma TickSteps(s: State, snapshot: Snapshot, s': State, n: Nlri)
    requires Rib.Valid(s.table) && Step(s, Tick(Some(snapshot)), s') && n in s.table
    ensures n in s'.weights && s'.table == s.table
    ensures Stepped(if n in s.weights then s.weights[n] else map[], FirstFour(Nexthops(s.table, n)),
                    if n in snapshot then snapshot[n] else map[], s'.weights[n])
    ensures Sharing(s.table, NodeOf(n)) == {n} ==> EntryApportions(s', n)
  {
    TickStepsOn(s, snapshot, s', n);
    if Sharing(s.table, NodeOf(n)) == {n} {
      TickApportions(s, snapshot, s', n);
    }
  }

  /** What a nexthop is handed out differs from what its weight is worth by less than one ticket. */
  lemma ShareWithinOne(w: Weights, out: seq<Weighted<IpAddr>>, j: nat)
    requires FeasibleMap(w) && LargestRemainder(w, out) && j < |out|
    ensures out[j].nexthop in w && -1.0 < out[j].weight as real - 10000.0 * w[out[j].nexthop] < 1.0
  {
    var ks := NexthopsOf(out);
    assert ks[j] in ks;
    FeasibleValues(w, ks);
    WithinOneUnit(Values(w, ks), WeightsOf(out), j);
  }

  lemma ShareOf(w: Weights, out: seq<Weighted<IpAddr>>, nh: IpAddr) returns (j: nat)
    requires LargestRemainder(w, out) && nh in w
    ensures j < |out| && out[j].nexthop == nh
  {
    var ks := NexthopsOf(out);
    assert nh in ks;
    j :| 0 <= j < |ks| && ks[j] == nh;
  }

  /** Every nexthop with a weight has a slot with as many tickets, give or take less than one, as its weight is worth. */
  lemma TicketsFollowWeights(w: Weights, n: Nlri, c: CFibEntry, nh: IpAddr) returns (i: nat)
    requires FeasibleMap(w) && Apportions(w, n, c) && nh in w
    ensures i < c.count && i < |c.nexthops| && i < |c.weights| && c.nexthops[i] == ToOctets(nh)
    ensures -1.0 < c.weights[i] as real - 10000.0 * w[nh] < 1.0
  {
    var out: seq<Weighted<IpAddr>> :| LargestRemainder(w, out) && Built(n, out, c);
    var j := ShareOf(w, out, nh);
    ShareWithinOne(w, out, j);
    i := SourceHasSlot(n, out, c, j);
  }

  /** And every slot belongs to such a nexthop. */
  lemma SlotsFollowWeights(w: Weights, n: Nlri, c: CFibEntry, i: nat) returns (nh: IpAddr)
    requires FeasibleMap(w) && Apportions(w, n, c) && i < c.count
    ensures nh in w && i < |c.nexthops| && i < |c.weights| && c.nexthops[i] == ToOctets(nh)
    ensures -1.0 < c.weights[i] as real - 10000.0 * w[nh] < 1.0
  {
    var out: seq<Weighted<IpAddr>> :| LargestRemainder(w, out) && Built(n, out, c);
    var j := SlotHasSource(n, out, c, i);
    ShareWithinOne(w, out, j);
    nh := out[j].nexthop;
  }

  /** After a tick the kernel draws each nexthop of a prefix with a node of its own by the weight the step gave it. */
  lemma TickTickets(s: State, snapshot: Snapshot, s': State, n: Nlri, nh: IpAddr) returns (i: nat)
    requires Rib.Valid(s.table) && Step(s, Tick(Some(snapshot)), s') && n in s.table
    requires Sharing(s.table, NodeOf(n)) == {n} && n in s'.weights && nh in s'.weights[n]
    ensures NodeOf(n) in s'.fib && i < s'.fib[NodeOf(n)].count && i < |s'.fib[NodeOf(n)].nexthops| && i < |s'.fib[NodeOf(n)].weights|
    ensures s'.fib[NodeOf(n)].nexthops[i] == ToOctets(nh)
    ensures -1.0 < s'.fib[NodeOf(n)].weights[i] as real - 10000.0 * s'.weights[n][nh] < 1.0
  {
    TickSteps(s, snapshot, s', n);
    i := TicketsFollowWeights(s'.weights[n], n, s'.fib[NodeOf(n)], nh);
  }

  /** The prefix has distinct nexthops, each measured in the snapshot, and weights for exactly those. */
  ghost predicate Settled(s: State, snapshot: Snapshot, n: Nlri) {
    && n in s.table && n in snapshot && Distinct(Offered(s, n)) && Regret.Measured(Offered(s, n), snapshot[n])
    && n in s.weights && FeasibleMap(s.weights[n]) && s.weights[n].Keys == Members(Offered(s, n))
  }

  lemma StaysSettled(s: State, snapshot: Snapshot, s': State, n: Nlri)
    requires Rib.Valid(s.table) && Step(s, Tick(Some(snapshot)), s') && Settled(s, snapshot, n)
    ensures Settled(s', snapshot, n) && Offered(s', n) == Offered(s, n)
    ensures Stepped(s.weights[n], Offered(s, n), snapshot[n], s'.weights[n])
  {
    TickSteps(s, snapshot, s', n);
    Regret.StepAsVectors(s.weights[n], Offered(s, n), snapshot[n], s'.weights[n]);
  }

  /** What a prefix pays on average under its weights, by the costs the snapshot measured. */
  ghost function Paid(s: State, snapshot: Snapshot, n: Nlri): real
    requires Settled(s, snapshot, n)
  {
    Dot(Regret.Costs(Offered(s, n), snapshot[n]), Values(s.weights[n], Offered(s, n)))
  }

  /** A tick never raises the cost of a settled prefix, and lowers it at least by the squared distance moved over the step size. */
  lemma TickLowersCost(s: State, snapshot: Snapshot, s': State, n: Nlri)
    requires Rib.Valid(s.table) && Step(s, Tick(Some(snapshot)), s') && Settled(s, snapshot, n)
    ensures Settled(s', snapshot, n) && Offered(s', n) == Offered(s, n)
    ensures Paid(s', snapshot, n) <= Paid(s, snapshot, n)
    ensures LEARNING_RATE * (Paid(s, snapshot, n) - Paid(s', snapshot, n))
              >= SqDist(Values(s.weights[n], Offered(s, n)), Values(s'.weights[n], Offered(s, n)))
  {
    StaysSettled(s, snapshot, s', n);
    Regret.StepLowersCost(s.weights[n], Offered(s, n), snapshot[n], s'.weights[n]);
  }

  /** It never takes weight from a nexthop the snapshot has as cheapest. */
  lemma TickKeepsCheapest(s: State, snapshot: Snapshot, s': State, n: Nlri, nh: IpAddr)
    requires Rib.Valid(s.table) && Step(s, Tick(Some(snapshot)), s') && Settled(s, snapshot, n)
    requires Regret.Cheapest(Offered(s, n), snapshot[n], nh)
    ensures n in s'.weights && nh in s.weights[n] && nh in s'.weights[n] && s'.weights[n][nh] >= s.weights[n][nh]
  {
    StaysSettled(s, snapshot, s', n);
    Regret.CheapestNeverLoses(s.weights[n], Offered(s, n), snapshot[n], s'.weights[n], nh);
  }

  /** Nor does it give any to one the snapshot has as dearest. */
  lemma TickKeepsDearest(s: State, snapshot: Snapshot, s': State, n: Nlri, nh: IpAddr)
    requires Rib.Valid(s.table) && Step(s, Tick(Some(snapshot)), s') && Settled(s, snapshot, n)
    requires Regret.Dearest(Offered(s, n), snapshot[n], nh)
    ensures n in s'.weights && nh in s.weights[n] && nh in s'.weights[n] && s'.weights[n][nh] <= s.weights[n][nh]
  {
    StaysSettled(s, snapshot, s', n);
    Regret.DearestNeverGains(s.weights[n], Offered(s, n), snapshot[n], s'.weights[n], nh);
  }

  /** Without any measurement of a prefix its distinct nexthops end with equal weights. */
  lemma UnmeasuredTick(s: State, snapshot: Snapshot, s': State, n: Nlri)
    requires Rib.Valid(s.table) && Step(s, Tick(Some(snapshot)), s') && n in s.table && n !in snapshot
    requires Distinct(Offered(s, n))
    ensures n in s'.weights && s'.weights[n].Keys == Members(Offered(s, n))
    ensures forall a, b :: a in s'.weights[n] && b in s'.weights[n] ==> s'.weights[n][a] == s'.weights[n][b]
  {
    TickSteps(s, snapshot, s', n);
    var w, nexthops := Reconciled(WeightsOfPrefix(s, n), Offered(s, n)), Offered(s, n);
    ReconcileIsExact(WeightsOfPrefix(s, n), nexthops);
    MovedEach(w, nexthops, map[]);
    var tau :| ThresholdedMap(Moved(w, nexthops, map[]), s'.weights[n], tau);
  }

  // Runs of ticks

  /** A trace of the controller: `states[t]` is what event `t` finds. */
  ghost predicate Trace(states: seq<State>, events: seq<Event>) {
    && |states| == |events| + 1 && Rib.Valid(states[0].table)
    && forall t :: 0 <= t < |events| ==> Step(states[t], events[t], states[t + 1])
  }

  predicate Ticks(e: Event) {
    e.Tick? && e.snapshot.Some?
  }

  /** The paths of the prefix stay as they are, and every successful tick comes with measurements of all its nexthops. */
  ghost predicate Undisturbed(states: seq<State>, events: seq<Event>, n: Nlri)
    requires Trace(states, events)
  {
    && n in states[0].table && Distinct(Offered(states[0], n))
    && (forall t :: 0 <= t < |events| && events[t].Routed? ==> events[t].op.route.nlri != n)
    && (forall t :: 0 <= t < |events| && Ticks(events[t]) ==>
          n in events[t].snapshot.value && Regret.Measured(Offered(states[0], n), events[t].snapshot.value[n]))
  }

  /** An event that is no successful tick and does not concern the prefix leaves its paths and weights alone. */
  lemma EventLeaves(s: State, e: Event, s': State, n: Nlri)
    requires Rib.Valid(s.table) && Step(s, e, s') && n in s.table && (e.Routed? ==> e.op.route.nlri != n)
    ensures Rib.Valid(s'.table) && n in s'.table && Offered(s', n) == Offered(s, n)
    ensures !Ticks(e) ==> WeightsOfPrefix(s', n) == WeightsOfPrefix(s, n)
  {
    match e
    case Routed(op) => RoutedTable(s.table, op, n);
    case Tick(None) =>
    case Tick(Some(snapshot)) => var order := TickSteers(s, snapshot, s');
  }

  lemma TraceTail(states: seq<State>, events: seq<Event>, n: Nlri)
    requires Trace(states, events) && events != [] && Undisturbed(states, events, n)
    ensures Trace(states[1..], events[1..]) && Undisturbed(states[1..], events[1..], n)
    ensures Offered(states[1], n) == Offered(states[0], n)
    ensures !Ticks(events[0]) ==> WeightsOfPrefix(states[1], n) == WeightsOfPrefix(states[0], n)
  {
    EventLeaves(states[0], events[0], states[1], n);
    forall t | 0 <= t < |events| - 1
      ensures Step(states[1..][t], events[1..][t], states[1..][t + 1])
    {
      assert Step(states[t + 1], events[t + 1], states[t + 2]);
    }
  }

  /** The weights the prefix has when the ticks of a trace come, and at the end. */
  ghost function Weighings(states: seq<State>, events: seq<Event>, n: Nlri): (ws: seq<Weights>)
    requires Trace(states, events) && Undisturbed(states, events, n)
    ensures ws != [] && ws[0] == WeightsOfPrefix(states[0], n)
    decreases |events|
  {
    if events == [] then [WeightsOfPrefix(states[0], n)] else
      TraceTail(states, events, n);
      var rest := Weighings(states[1..], events[1..], n);
      if Ticks(events[0]) then [WeightsOfPrefix(states[0], n)] + rest else rest
  }

  /** What the snapshots of the ticks hold for the prefix. */
  ghost function Measurements(events: seq<Event>, n: Nlri): seq<map<IpAddr, Window>>
    requires forall t :: 0 <= t < |events| && Ticks(events[t]) ==> n in events[t].snapshot.value
    decreases |events|
  {
    if events == [] then [] else
      var rest := Measurements(events[1..], n);
      if Ticks(events[0]) then [events[0].snapshot.value[n]] + rest else rest
  }

  lemma RunOn(ws: seq<Weights>, nexthops: seq<IpAddr>, windows: seq<map<IpAddr, Window>>, w: Weights, m: map<IpAddr, Window>)
    requires Regret.Run(ws, nexthops, windows) && Regret.Measured(nexthops, m) && Stepped(w, nexthops, m, ws[0])
    ensures Regret.Run([w] + ws, nexthops, [m] + windows)
  {
    forall t | 0 <= t < |windows| + 1
      ensures Stepped(([w] + ws)[t], nexthops, ([m] + windows)[t], ([w] + ws)[t + 1])
    {
      if t > 0 {
        assert Stepped(ws[t - 1], nexthops, windows[t - 1], ws[t]);
      }
    }
  }

  /** As far as one undisturbed prefix is concerned, a trace of the controller is a run of the descent. */
  lemma {:induction false} TraceIsRun(states: seq<State>, events: seq<Event>, n: Nlri)
    requires Trace(states, events) && Undisturbed(states, events, n)
    ensures Regret.Run(Weighings(states, events, n), Offered(states[0], n), Measurements(events, n))
    decreases |events|
  {
    if events == [] {
    } else {
      TraceTail(states, events, n);
      TraceIsRun(states[1..], events[1..], n);
      if Ticks(events[0]) {
        TickSteps(states[0], events[0].snapshot.value, states[1], n);
        RunOn(Weighings(states[1..], events[1..], n), Offered(states[0], n), Measurements(events[1..], n),
              WeightsOfPrefix(states[0], n), events[0].snapshot.value[n]);
      }
    }
  }

  /**
   * The regret bound for the controller: over every trace that leaves the paths of a prefix alone,
   * whatever happens to others, its ticks pay at most a bounded amount more than any fixed feasible
   * weights would have, on the costs the snapshots measured.
   */
  lemma TickRegret(states: seq<State>, events: seq<Event>, n: Nlri, u: seq<real>)
    requires Trace(states, events) && Undisturbed(states, events, n)
    requires Feasible(u) && |u| == |Offered(states[0], n)|
    ensures Regret.Run(Weighings(states, events, n), Offered(states[0], n), Measurements(events, n))
    ensures Regret.RegretOf(Weighings(states, events, n), Offered(states[0], n), Measurements(events, n), u)
         <= SqDist(Regret.PlayedAt(WeightsOfPrefix(states[0], n), Offered(states[0], n)), u) / (2.0 * LEARNING_RATE)
            + LEARNING_RATE / 2.0 * Regret.GradientNorms(Offered(states[0], n), Measurements(events, n))
  {
    TraceIsRun(states, events, n);
    Regret.RegretBound(Weighings(states, events, n), Offered(states[0], n), Measurements(events, n), u);
  }

  // An example

  lemma MovedExample(a: IpAddr, b: IpAddr, near: Window, far: Window)
    requires a != b && near.avgSrttUs == near.minRttMin == 20000 && far.avgSrttUs == far.minRttMin == 220000
    ensures var w := map[a := 0.5, b := 0.5];
            Moved(Reconciled(w, [a, b]), [a, b], map[a := near, b := far]) == map[a := 0.499, b := 0.489]
  {
    var w := map[a := 0.5, b := 0.5];
    assert w.Keys == {a, b} == Members([a, b]);
    Regret.ReconciledAlready(w, [a, b]);
    MovedEach(w, [a, b], map[a := near, b := far]);
  }

  lemma ThresholdExample(x: real, y: real, tau: real)
    requires x == Clamp(0.499, tau) && y == Clamp(0.489, tau) && x + y == 1.0
    ensures x == 0.505 && y == 0.495
  {
    assert Positive(0.489 - tau) + Positive(0.479 - tau) == 0.98;
    assert tau < 0.479;
  }

  lemma SumOfTwo(x: real, y: real)
    ensures Sum([x, y]) == x + y
  {
    assert [x, y][1..] == [y] && [y][1..] == [];
    assert Sum([x, y]) == x + Sum([y]) && Sum([y]) == y + Sum([]);
  }

  lemma ProjectedExample(a: IpAddr, b: IpAddr, w': Weights)
    requires a != b && IsProjectionMap(map[a := 0.499, b := 0.489], w')
    ensures w' == map[a := 0.505, b := 0.495]
  {
    var v: Weights := map[a := 0.499, b := 0.489];
    var tau :| ThresholdedMap(v, w', tau);
    assert v[a] == 0.499 && v[b] == 0.489 && v.Keys == {a, b};
    assert w'.Keys == Members([a, b]);
    TotalInAnyOrder(w', [a, b]);
    assert Values(w', [a, b]) == [w'[a], w'[b]];
    SumOfTwo(w'[a], w'[b]);
    ThresholdExample(w'[a], w'[b], tau);
  }

  lemma WholeExample()
    ensures Floor(0.505) == 5050 && Rest(0.505) == 0.0 && Floor(0.495) == 4950 && Rest(0.495) == 0.0
  {
  }

  /** From equal weights, 20 against 220 milliseconds shift half a percent: 5,050 tickets against 4,950. */
  lemma StepExample(a: IpAddr, b: IpAddr, near: Window, far: Window, w': Weights, out: seq<Weighted<IpAddr>>)
    requires a != b && near.avgSrttUs == near.minRttMin == 20000 && far.avgSrttUs == far.minRttMin == 220000
    requires Stepped(map[a := 0.5, b := 0.5], [a, b], map[a := near, b := far], w') && LargestRemainder(w', out)
    ensures w' == map[a := 0.505, b := 0.495]
    ensures Weighted(a, 5050) in out && Weighted(b, 4950) in out
  {
    MovedExample(a, b, near, far);
    ProjectedExample(a, b, w');
    WholeExample();
    assert w'[a] == 0.505 && w'[b] == 0.495;
    TicketsOf(w', out, a);
    TicketsOf(w', out, b);
  }

  /** A whole number of tickets is handed out as it is. */
  lemma TicketsOf(w: Weights, out: seq<Weighted<IpAddr>>, nh: IpAddr)
    requires LargestRemainder(w, out) && FeasibleMap(w) && nh in w && Rest(w[nh]) == 0.0
    ensures Weighted(nh, Floor(w[nh])) in out
  {
    var ks := NexthopsOf(out);
    assert nh in ks;
    var i :| 0 <= i < |ks| && ks[i] == nh;
    FeasibleValues(w, ks);
    WithinOneUnit(Values(w, ks), WeightsOf(out), i);
    assert out[i] == Weighted(nh, Floor(w[nh]));
  }
}
