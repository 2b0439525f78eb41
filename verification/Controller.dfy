/** The controller: route updates and steering ticks in, kernel FIB entries out. */
module Controller {
  import opened Addresses
  import opened LongestPrefix
  import opened Enumerations
  import opened Apportionment
  import opened Descent
  import opened Fib
  import opened Rib

  datatype State = State(table: Table, weights: map<Nlri, Weights>, fib: map<Node, CFibEntry>)

  /** A steering tick carries the RTT snapshot it could take, if any. */
  datatype Event = Routed(op: RibOp) | Tick(snapshot: Option<Snapshot>)

  // Writing entries

  function FirstFour(nexthops: seq<IpAddr>): seq<IpAddr> {
    if |nexthops| <= MAX_NEXTHOPS then nexthops else nexthops[..MAX_NEXTHOPS]
  }

  /** Equal weights, the remainder spread first to last. */
  function Balanced(nexthops: seq<IpAddr>): seq<Weighted<IpAddr>>
    requires 0 < |nexthops| <= MAX_NEXTHOPS
  {
    var base, remainder := WEIGHT_DENOMINATOR / |nexthops|, WEIGHT_DENOMINATOR % |nexthops|;
    seq(|nexthops|, i requires 0 <= i < |nexthops| => Weighted(nexthops[i], base + if i < remainder then 1 else 0))
  }

  lemma SumUpToFour(q: seq<int>)
    ensures |q| == 1 ==> SumInt(q) == q[0]
    ensures |q| == 2 ==> SumInt(q) == q[0] + q[1]
    ensures |q| == 3 ==> SumInt(q) == q[0] + q[1] + q[2]
    ensures |q| == 4 ==> SumInt(q) == q[0] + q[1] + q[2] + q[3]
  {
    if |q| <= 1 {
    } else {
      SumUpToFour(q[1..]);
    }
  }

  lemma BalancedSum(nexthops: seq<IpAddr>)
    requires 0 < |nexthops| <= MAX_NEXTHOPS
    ensures SumInt(WeightsOf(Balanced(nexthops))) == WEIGHT_DENOMINATOR
  {
    SumUpToFour(WeightsOf(Balanced(nexthops)));
  }

  lemma BalancedIsSound(nexthops: seq<IpAddr>)
    requires 0 < |nexthops| <= MAX_NEXTHOPS
    ensures Defect(Balanced(nexthops)) == None
    ensures forall w :: w in Balanced(nexthops) ==> w.weight >= 2500
  {
    BalancedSum(nexthops);
    assert WEIGHT_DENOMINATOR / |nexthops| >= 2500;
  }

  /** Equal weights are as equal as integers can be: the earlier of two nexthops gets at most one ticket more. */
  lemma BalancedIsEven(nexthops: seq<IpAddr>, i: nat, j: nat)
    requires 0 < |nexthops| <= MAX_NEXTHOPS && i <= j < |nexthops|
    ensures NexthopsOf(Balanced(nexthops)) == nexthops
    ensures 0 <= Balanced(nexthops)[i].weight - Balanced(nexthops)[j].weight <= 1
  {
  }

  /** Of more than four nexthops the first four count. */
  lemma FirstFourAreFirst(nexthops: seq<IpAddr>)
    ensures |nexthops| <= 4 ==> FirstFour(nexthops) == nexthops
    ensures |nexthops| > 4 ==> FirstFour(nexthops) == [nexthops[0], nexthops[1], nexthops[2], nexthops[3]]
  {
  }

  /** `c` is an entry built from `ws` for `nlri`. */
  ghost predicate Built(nlri: Nlri, ws: seq<Weighted<IpAddr>>, c: CFibEntry) {
    exists e :: WellFormed(e) && multiset(Listed(e)) == multiset(ws) && c == Packed(nlri, e)
  }

  /** The FIB after writing `ws` for `nlri`, or deleting its entry when there is nothing to write. */
  ghost predicate Written(fib: map<Node, CFibEntry>, nlri: Nlri, ws: Option<seq<Weighted<IpAddr>>>,
                          fib': map<Node, CFibEntry>) {
    match ws
    case None => fib' == fib - {NodeOf(nlri)}
    case Some(ws) => NodeOf(nlri) in fib' && fib' == fib[NodeOf(nlri) := fib'[NodeOf(nlri)]]
                     && Built(nlri, ws, fib'[NodeOf(nlri)])
  }

  function Balance(nexthops: seq<IpAddr>): Option<seq<Weighted<IpAddr>>> {
    if nexthops == [] then None else Some(Balanced(FirstFour(nexthops)))
  }

  ghost predicate Step(s: State, e: Event, s': State) {
    match e
    case Routed(op) =>
      && s'.table == Applied(s.table, op) && s'.weights == s.weights
      && Written(s.fib, op.route.nlri, Balance(Nexthops(s'.table, op.route.nlri)), s'.fib)
    case Tick(None) => s' == s
    case Tick(Some(snapshot)) =>
      exists order :: Enumerates(order, s.table.Keys) && SteeredAll(s, order, snapshot, s')
  }

  /** Steering one prefix. */
  ghost predicate Steered(s: State, nlri: Nlri, snapshot: Snapshot, s': State) {
    s'.table == s.table &&
    exists out :: StepsTo(s.weights, nlri, FirstFour(Nexthops(s.table, nlri)), snapshot, s'.weights, out)
                  && Written(s.fib, nlri, out, s'.fib)
  }

  /** Steering prefixes one after the other. */
  ghost predicate SteeredAll(s: State, order: seq<Nlri>, snapshot: Snapshot, s': State)
    decreases |order|
  {
    if order == [] then s == s' else
      var init, last := order[..|order| - 1], order[|order| - 1];
      exists mid :: SteeredAll(s, init, snapshot, mid) && Steered(mid, last, snapshot, s')
  }

  // The implementation

  class SteeringController {
    const rib: RoutingTable
    const descent: OnlineDescent
    var fib: map<Node, CFibEntry>

    constructor ()
      ensures fresh(rib) && fresh(descent) && View() == State(map[], map[], map[])
    {
      rib := new RoutingTable();
      descent := new OnlineDescent();
      fib := map[];
    }

    ghost function View(): State
      reads this, rib, descent
    {
      State(rib.table, descent.weights, fib)
    }

    method Write(nlri: Nlri, ws: Option<seq<Weighted<IpAddr>>>)
      requires ws.Some? ==> Defect(ws.value) == None
      modifies this
      ensures Written(old(fib), nlri, ws, fib)
    {
      if ws.None? {
        fib := fib - {NodeOf(nlri)};
      } else {
        var r := NewFibEntry(ws.value);
        var c := Pack(nlri, r.value);
        fib := fib[NodeOf(nlri) := c];
      }
    }

    method UpdateFib(nlri: Nlri)
      modifies this
      ensures Written(old(fib), nlri, Balance(Nexthops(rib.table, nlri)), fib)
    {
      var nexthops := Nexthops(rib.table, nlri);
      if nexthops != [] {
        BalancedIsSound(FirstFour(nexthops));
      }
      Write(nlri, Balance(nexthops));
    }

    method Announce(route: Route, nexthop: IpAddr)
      modifies this, rib
      ensures Step(old(View()), Routed(RibOp.Announce(route, nexthop)), View())
    {
      rib.Insert(route, nexthop);
      UpdateFib(route.nlri);
    }

    method Withdraw(route: Route)
      modifies this, rib
      ensures Step(old(View()), Routed(RibOp.Withdraw(route)), View())
    {
      rib.Remove(route);
      UpdateFib(route.nlri);
    }

    method AnnounceAll(routes: seq<Route>, nexthop: IpAddr, ghost start: State, ghost before: seq<Event>)
      requires Leads(start, before, View())
      modifies this, rib
      ensures Leads(start, before + Announced(routes, nexthop), View())
    {
      assert before + Announced(routes[..0], nexthop) == before;
      for j := 0 to |routes|
        invariant Leads(start, before + Announced(routes[..j], nexthop), View())
      {
        ghost var mid := View();
        Announce(routes[j], nexthop);
        assert routes[..j + 1][..j] == routes[..j];
        LeadsFurther(start, before, Announced(routes[..j], nexthop), mid, Routed(RibOp.Announce(routes[j], nexthop)), View());
      }
      assert routes[..|routes|] == routes;
    }

    method WithdrawAll(routes: seq<Route>, ghost start: State, ghost before: seq<Event>)
      requires Leads(start, before, View())
      modifies this, rib
      ensures Leads(start, before + Withdrawals(routes), View())
    {
      assert before + Withdrawals(routes[..0]) == before;
      for j := 0 to |routes|
        invariant Leads(start, before + Withdrawals(routes[..j]), View())
      {
        ghost var mid := View();
        Withdraw(routes[j]);
        assert routes[..j + 1][..j] == routes[..j];
        LeadsFurther(start, before, Withdrawals(routes[..j]), mid, Routed(RibOp.Withdraw(routes[j])), View());
      }
      assert routes[..|routes|] == routes;
    }

    /** One update message: all announcements, then all withdrawals. */
    method HandleUpdate(announcements: seq<(seq<Route>, IpAddr)>, withdrawals: seq<Route>)
      modifies this, rib
      ensures Leads(old(View()), Announcements(announcements) + Withdrawals(withdrawals), View())
    {
      for i := 0 to |announcements|
        invariant Leads(old(View()), Announcements(announcements[..i]), View())
      {
        AnnounceAll(announcements[i].0, announcements[i].1, old(View()), Announcements(announcements[..i]));
        assert announcements[..i + 1][..i] == announcements[..i];
      }
      assert announcements[..|announcements|] == announcements;
      WithdrawAll(withdrawals, old(View()), Announcements(announcements));
    }

    method Steer(nlri: Nlri, snapshot: Snapshot)
      modifies this, descent
      ensures Steered(old(View()), nlri, snapshot, View())
    {
      var nexthops := FirstFour(Nexthops(rib.table, nlri));
      var out, _ := descent.Step(nlri, nexthops, snapshot);
      SteppedIsSound(old(descent.weights), nlri, nexthops, snapshot, descent.weights, out);
      Write(nlri, out);
    }

    method SteerFib(snapshot: Option<Snapshot>)
      modifies this, descent
      ensures Step(old(View()), Tick(snapshot), View())
    {
      if snapshot.None? {
        return;
      }
      var order := Enumerate(rib.table.Keys);
      for i := 0 to |order|
        invariant SteeredAll(old(View()), order[..i], snapshot.value, View())
      {
        ghost var mid := View();
        Steer(order[i], snapshot.value);
        assert order[..i + 1][..i] == order[..i];
        assert SteeredAll(old(View()), order[..i], snapshot.value, mid);
      }
      assert order[..|order|] == order;
    }
  }

  // Runs

  /** The events lead from one state to the other. */
  ghost predicate Leads(s: State, events: seq<Event>, s': State)
    decreases |events|
  {
    if events == [] then s == s' else
      var init, e := events[..|events| - 1], events[|events| - 1];
      exists mid :: Leads(s, init, mid) && Step(mid, e, s')
  }

  lemma LeadsOn(s: State, events: seq<Event>, mid: State, e: Event, s': State)
    requires Leads(s, events, mid) && Step(mid, e, s')
    ensures Leads(s, events + [e], s')
  {
    assert (events + [e])[..|events|] == events;
  }

  lemma LeadsFurther(s: State, before: seq<Event>, more: seq<Event>, mid: State, e: Event, s': State)
    requires Leads(s, before + more, mid) && Step(mid, e, s')
    ensures Leads(s, before + (more + [e]), s')
  {
    LeadsOn(s, before + more, mid, e, s');
    assert before + more + [e] == before + (more + [e]);
  }

  ghost function Announced(routes: seq<Route>, nexthop: IpAddr): seq<Event> {
    if routes == [] then [] else
      Announced(routes[..|routes| - 1], nexthop) + [Routed(RibOp.Announce(routes[|routes| - 1], nexthop))]
  }

  ghost function Announcements(announcements: seq<(seq<Route>, IpAddr)>): seq<Event> {
    if announcements == [] then [] else
      var last := announcements[|announcements| - 1];
      Announcements(announcements[..|announcements| - 1]) + Announced(last.0, last.1)
  }

  ghost function Withdrawals(routes: seq<Route>): seq<Event> {
    if routes == [] then [] else
      Withdrawals(routes[..|routes| - 1]) + [Routed(RibOp.Withdraw(routes[|routes| - 1]))]
  }

  // Every entry written is sound

  /** Quantised weights of one to four nexthops pass every check, and each keeps at least its one percent. */
  lemma QuantisedIsSound(w: Weights, out: seq<Weighted<IpAddr>>)
    requires FeasibleMap(w) && 0 < |w| <= MAX_NEXTHOPS && LargestRemainder(w, out)
    ensures Defect(out) == None
    ensures forall x :: x in out ==> x.weight >= 100
  {
    var ks := NexthopsOf(out);
    EnumerationLength(ks, w.Keys);
    FeasibleValues(w, ks);
    forall i | 0 <= i < |out|
      ensures out[i].weight >= 100
    {
      KeepsFloor(Values(w, ks), WeightsOf(out), i, 100);
    }
  }

  lemma SteppedIsSound(weights: map<Nlri, Weights>, nlri: Nlri, nexthops: seq<IpAddr>, snapshot: Snapshot,
                       weights': map<Nlri, Weights>, out: Option<seq<Weighted<IpAddr>>>)
    requires |nexthops| <= MAX_NEXTHOPS
    requires StepsTo(weights, nlri, nexthops, snapshot, weights', out)
    ensures out.Some? ==> Defect(out.value) == None && forall x :: x in out.value ==> x.weight >= 100
  {
    if nexthops != [] {
      var reconciled := Reconciled(WeightsFor(weights, nlri), nexthops);
      ReconcileIsExact(WeightsFor(weights, nlri), nexthops);
      MovedKeys(reconciled, nexthops, WindowsFor(snapshot, nlri));
      assert |weights'[nlri]| == |weights'[nlri].Keys| == |reconciled.Keys|;
      QuantisedIsSound(weights'[nlri], out.value);
    }
  }
}
