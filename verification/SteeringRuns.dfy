/** What holds of the kernel's FIB after every history of updates and ticks. */
module SteeringRuns {
  import opened Addresses
  import opened LongestPrefix
  import opened Enumerations
  import opened Apportionment
  import opened Descent
  import opened Fib
  import opened Rib
  import opened Controller

  const INIT: State := State(map[], map[], map[])

  // Every entry is sound

  /** The smallest number of tickets any nexthop of an entry gets. */
  const LEAST_TICKETS: nat := 100

  ghost predicate SoundEntry(node: Node, c: CFibEntry) {
    && c.matched.prefixLen <= 128 && KeyNode(c.matched) == node
    && Drawable(c) && forall i :: 0 <= i < c.count ==> c.weights[i] >= LEAST_TICKETS
  }

  ghost predicate Sound(fib: map<Node, CFibEntry>) {
    forall node :: node in fib ==> SoundEntry(node, fib[node])
  }

  lemma BuiltIsSound(nlri: Nlri, ws: seq<Weighted<IpAddr>>, c: CFibEntry)
    requires Built(nlri, ws, c) && forall w :: w in ws ==> w.weight >= LEAST_TICKETS
    ensures SoundEntry(NodeOf(nlri), c)
  {
    var e :| WellFormed(e) && multiset(Listed(e)) == multiset(ws) && c == Packed(nlri, e);
    PackedIsDrawable(nlri, e);
    forall i | 0 <= i < c.count
      ensures c.weights[i] >= LEAST_TICKETS
    {
      assert Listed(e)[i] in multiset(Listed(e));
    }
  }

  lemma WriteIsSound(fib: map<Node, CFibEntry>, nlri: Nlri, ws: Option<seq<Weighted<IpAddr>>>, fib': map<Node, CFibEntry>)
    requires Sound(fib) && Written(fib, nlri, ws, fib')
    requires ws.Some? ==> forall w :: w in ws.value ==> w.weight >= LEAST_TICKETS
    ensures Sound(fib')
  {
    if ws.Some? {
      BuiltIsSound(nlri, ws.value, fib'[NodeOf(nlri)]);
    }
  }

  lemma BalanceIsSound(nexthops: seq<IpAddr>)
    ensures Balance(nexthops).Some? ==> forall w :: w in Balance(nexthops).value ==> w.weight >= LEAST_TICKETS
  {
    if nexthops != [] {
      BalancedIsSound(FirstFour(nexthops));
    }
  }

  lemma SteeredIsSound(s: State, nlri: Nlri, snapshot: Snapshot, s': State)
    requires Sound(s.fib) && Steered(s, nlri, snapshot, s')
    ensures Sound(s'.fib)
  {
    var nexthops := FirstFour(Nexthops(s.table, nlri));
    var out :| StepsTo(s.weights, nlri, nexthops, snapshot, s'.weights, out) && Written(s.fib, nlri, out, s'.fib);
    SteppedIsSound(s.weights, nlri, nexthops, snapshot, s'.weights, out);
    WriteIsSound(s.fib, nlri, out, s'.fib);
  }

  lemma {:induction false} SteeringIsSound(s: State, order: seq<Nlri>, snapshot: Snapshot, s': State)
    requires SteeredAll(s, order, snapshot, s') && Sound(s.fib)
    ensures Sound(s'.fib)
    decreases |order|
  {
    if order == [] {
    } else {
      var init, last := order[..|order| - 1], order[|order| - 1];
      var mid :| SteeredAll(s, init, snapshot, mid) && Steered(mid, last, snapshot, s');
      SteeringIsSound(s, init, snapshot, mid);
      SteeredIsSound(mid, last, snapshot, s');
    }
  }

  lemma StepIsSound(s: State, e: Event, s': State)
    requires Sound(s.fib) && Step(s, e, s')
    ensures Sound(s'.fib)
  {
    match e
    case Routed(op) =>
      BalanceIsSound(Nexthops(s'.table, op.route.nlri));
      WriteIsSound(s.fib, op.route.nlri, Balance(Nexthops(s'.table, op.route.nlri)), s'.fib);
    case Tick(None) =>
    case Tick(Some(snapshot)) =>
      var order :| Enumerates(order, s.table.Keys) && SteeredAll(s, order, snapshot, s');
      SteeringIsSound(s, order, snapshot, s');
  }

  /** After every history, repeated nexthops included, the kernel accepts every entry. */
  lemma {:induction false} RunsAreSound(events: seq<Event>, s: State)
    requires Leads(INIT, events, s)
    ensures Sound(s.fib)
    decreases |events|
  {
    if events == [] {
    } else {
      var init, e := events[..|events| - 1], events[|events| - 1];
      var mid :| Leads(INIT, init, mid) && Step(mid, e, s);
      RunsAreSound(init, mid);
      StepIsSound(mid, e, s);
    }
  }

  /** A ticket in slot `k` draws the nexthop of slot `k`. */
  lemma DrawsItsSlot(c: CFibEntry, ticket: nat, r: Draw, k: nat)
    requires Drawable(c) && Draws(c, ticket, r) && k < c.count && InSlot(c.weights, ticket, k)
    ensures r == Selected(c.nexthops[k])
  {
    var j :| 0 <= j < c.count && InSlot(c.weights, ticket, j) && r.nexthop == c.nexthops[j];
    if j < k {
      SumIntMonotone(c.weights, j + 1, k);
    } else if k < j {
      SumIntMonotone(c.weights, k + 1, j);
    }
  }

  /**
   * End to end: the kernel draws a nexthop for every ticket; of the 10,000 tickets exactly
   * `weights[k]`, at least one percent, fall to slot `k`, and a ticket of slot `k` draws its nexthop.
   */
  lemma EndToEnd(events: seq<Event>, s: State, node: Node, k: nat, ticket: nat, r: Draw)
    requires Leads(INIT, events, s) && node in s.fib && k < s.fib[node].count
    requires ticket < WEIGHT_DENOMINATOR && Sized(s.fib[node]) && Draws(s.fib[node], ticket, r)
    ensures k < |s.fib[node].weights| && |Tickets(s.fib[node], k)| == s.fib[node].weights[k] >= LEAST_TICKETS
    ensures r.Selected? && (ticket in Tickets(s.fib[node], k) ==> r.nexthop == s.fib[node].nexthops[k])
    ensures r == Selected(s.fib[node].nexthops[k]) && ticket !in Tickets(s.fib[node], k) ==>
              exists j :: 0 <= j < s.fib[node].count && j != k && s.fib[node].nexthops[j] == s.fib[node].nexthops[k]
  {
    RunsAreSound(events, s);
    var c := s.fib[node];
    assert SoundEntry(node, c);
    TicketsPerSlot(c, k);
    if ticket in Tickets(c, k) {
      DrawsItsSlot(c, ticket, r, k);
    } else {
      var j :| 0 <= j < c.count && InSlot(c.weights, ticket, j) && r.nexthop == c.nexthops[j];
      assert j != k;
    }
  }

  // The table after a history

  ghost function OpsOf(events: seq<Event>): seq<RibOp> {
    if events == [] then [] else
      var ops, e := OpsOf(events[..|events| - 1]), events[|events| - 1];
      if e.Routed? then ops + [e.op] else ops
  }

  ghost function TableAfter(events: seq<Event>): Table {
    AfterOps(OpsOf(events))
  }

  /** Some path to the prefix was announced and not withdrawn. */
  ghost predicate HasPath(events: seq<Event>, n: Nlri) {
    exists id :: (n, id) in Meaning(OpsOf(events))
  }

  lemma {:induction false} SteeringKeepsTable(s: State, order: seq<Nlri>, snapshot: Snapshot, s': State)
    requires SteeredAll(s, order, snapshot, s')
    ensures s'.table == s.table
    decreases |order|
  {
    if order == [] {
    } else {
      var init, last := order[..|order| - 1], order[|order| - 1];
      var mid :| SteeredAll(s, init, snapshot, mid) && Steered(mid, last, snapshot, s');
      SteeringKeepsTable(s, init, snapshot, mid);
    }
  }

  lemma {:induction false} TableFollowsOps(events: seq<Event>, s: State)
    requires Leads(INIT, events, s)
    ensures s.table == TableAfter(events)
    decreases |events|
  {
    if events == [] {
    } else {
      var init, e := events[..|events| - 1], events[|events| - 1];
      var mid :| Leads(INIT, init, mid) && Step(mid, e, s);
      TableFollowsOps(init, mid);
      if e.Routed? {
        assert OpsOf(events)[..|OpsOf(events)| - 1] == OpsOf(init);
      } else if e.snapshot.Some? {
        var order :| Enumerates(order, mid.table.Keys) && SteeredAll(mid, order, e.snapshot.value, s);
        SteeringKeepsTable(mid, order, e.snapshot.value, s);
      }
    }
  }

  /** One event further. */
  lemma Back(events: seq<Event>, s: State) returns (mid: State)
    requires Leads(INIT, events, s) && events != []
    ensures Leads(INIT, events[..|events| - 1], mid) && Step(mid, events[|events| - 1], s)
    ensures mid.table == TableAfter(events[..|events| - 1]) && s.table == TableAfter(events)
    ensures Rib.Valid(mid.table) && Rib.Valid(s.table)
  {
    var init, e := events[..|events| - 1], events[|events| - 1];
    mid :| Leads(INIT, init, mid) && Step(mid, e, s);
    TableFollowsOps(init, mid);
    TableFollowsOps(events, s);
    RibRefinesMap(OpsOf(init));
    RibRefinesMap(OpsOf(events));
  }

  lemma PathIffListed(events: seq<Event>, n: Nlri)
    ensures HasPath(events, n) <==> n in TableAfter(events)
  {
    RibRefinesMap(OpsOf(events));
    var t: Table, m := TableAfter(events), Meaning(OpsOf(events));
    if n in t {
      var p: Path := t[n][0];
      assert Holds(t, n, p.pathId, p.nexthop);
      assert (n, p.pathId) in m;
    }
    if id :| (n, id) in m {
      assert Holds(t, n, id, m[(n, id)]);
    }
  }

  lemma RoutedTable(t: Table, op: RibOp, n: Nlri)
    requires Rib.Valid(t)
    ensures Rib.Valid(Applied(t, op))
    ensures n in Applied(t, op) <==> Nexthops(Applied(t, op), n) != []
    ensures n != op.route.nlri ==> (n in t <==> n in Applied(t, op)) && PathsOf(t, n) == PathsOf(Applied(t, op), n)
  {
    StaysValid(t, op.route, if op.Announce? then op.nexthop else V4([0, 0, 0, 0]));
  }

  // Which nodes have an entry

  /** The prefixes of a table that share a node. */
  ghost function Sharing(t: Table, node: Node): set<Nlri> {
    set n | n in t && NodeOf(n) == node
  }

  /** The FIB has an entry for the nodes of the table, and for no others. */
  ghost predicate SameDomain(s: State) {
    Rib.Valid(s.table) && forall node :: node in s.fib <==> Sharing(s.table, node) != {}
  }

  /** The prefix has no path left, while another one with its node has. */
  ghost predicate Clashes(t: Table, n: Nlri) {
    n !in t && Sharing(t, NodeOf(n)) != {}
  }

  /** Prefixes with host bits zero, none of them a mapped IPv6 one, never clash. */
  lemma CanonicalNeverClashes(t: Table, n: Nlri)
    requires forall m :: m in t.Keys + {n} ==> Canonical(ToKey(m)) && !IsMappedV6(m)
    ensures !Clashes(t, n)
  {
    forall m | m in Sharing(t, NodeOf(n))
      ensures m == n
    {
      NodeInjective(n, m);
    }
    assert Sharing(t, NodeOf(n)) <= {n};
  }

  lemma RoutedSharing(t: Table, op: RibOp, node: Node)
    requires Rib.Valid(t) && node != NodeOf(op.route.nlri)
    ensures Sharing(Applied(t, op), node) == Sharing(t, node)
  {
    forall n | NodeOf(n) == node
      ensures n in Applied(t, op) <==> n in t
    {
      RoutedTable(t, op, n);
    }
  }

  /** An announcement or withdrawal keeps the domains equal exactly when it does not clash. */
  lemma RoutedKeepsDomain(s: State, op: RibOp, s': State)
    requires SameDomain(s) && Step(s, Routed(op), s')
    ensures SameDomain(s') <==> !Clashes(s'.table, op.route.nlri)
  {
    var n0 := op.route.nlri;
    RoutedTable(s.table, op, n0);
    assert n0 in s'.table ==> n0 in Sharing(s'.table, NodeOf(n0));
    forall node | node != NodeOf(n0)
      ensures node in s'.fib <==> Sharing(s'.table, node) != {}
    {
      RoutedSharing(s.table, op, node);
    }
  }

  /** Taking the last prefix off an order. */
  lemma LastOf(order: seq<Nlri>)
    requires order != []
    ensures forall n :: n in order <==> n in order[..|order| - 1] || n == order[|order| - 1]
    ensures Distinct(order) ==> Distinct(order[..|order| - 1]) && order[|order| - 1] !in order[..|order| - 1]
  {
    assert order == order[..|order| - 1] + [order[|order| - 1]];
  }

  lemma LastSteered(s: State, order: seq<Nlri>, snapshot: Snapshot, s': State) returns (mid: State)
    requires SteeredAll(s, order, snapshot, s') && order != []
    ensures SteeredAll(s, order[..|order| - 1], snapshot, mid) && mid.table == s.table
    ensures Steered(mid, order[|order| - 1], snapshot, s')
  {
    mid :| SteeredAll(s, order[..|order| - 1], snapshot, mid) && Steered(mid, order[|order| - 1], snapshot, s');
    SteeringKeepsTable(s, order[..|order| - 1], snapshot, mid);
  }

  lemma SteeredWrites(s: State, nlri: Nlri, snapshot: Snapshot, s': State, node: Node)
    requires Nexthops(s.table, nlri) != [] && Steered(s, nlri, snapshot, s')
    ensures node in s'.fib <==> node in s.fib || node == NodeOf(nlri)
  {
  }

  ghost predicate HasNode(order: seq<Nlri>, node: Node) {
    exists n :: n in order && NodeOf(n) == node
  }

  lemma {:induction false} SteeringWrites(s: State, order: seq<Nlri>, snapshot: Snapshot, s': State, node: Node)
    requires SteeredAll(s, order, snapshot, s')
    requires forall n :: n in order ==> Nexthops(s.table, n) != []
    ensures node in s'.fib <==> node in s.fib || HasNode(order, node)
    decreases |order|
  {
    if order == [] {
    } else {
      var init, last := order[..|order| - 1], order[|order| - 1];
      LastOf(order);
      var mid := LastSteered(s, order, snapshot, s');
      SteeringWrites(s, init, snapshot, mid, node);
      SteeredWrites(mid, last, snapshot, s', node);
    }
  }

  lemma TickSteers(s: State, snapshot: Snapshot, s': State) returns (order: seq<Nlri>)
    requires Rib.Valid(s.table) && Step(s, Tick(Some(snapshot)), s')
    ensures Enumerates(order, s.table.Keys) && SteeredAll(s, order, snapshot, s') && Distinct(order)
    ensures forall n :: n in order <==> n in s.table
    ensures forall n :: n in order ==> Nexthops(s.table, n) != []
    ensures s'.table == s.table
  {
    order :| Enumerates(order, s.table.Keys) && SteeredAll(s, order, snapshot, s');
    forall n | n in order
      ensures Nexthops(s.table, n) != []
    {
      assert |Nexthops(s.table, n)| == |s.table[n]|;
    }
    SteeringKeepsTable(s, order, snapshot, s');
  }

  lemma SharingIsHaving(t: Table, order: seq<Nlri>, node: Node)
    requires forall n :: n in order <==> n in t
    ensures HasNode(order, node) <==> Sharing(t, node) != {}
  {
    if n :| n in order && NodeOf(n) == node {
      assert n in Sharing(t, node);
    }
    if n :| n in Sharing(t, node) {
      assert n in order;
    }
  }

  /** A successful tick restores every entry that a clash took, so it keeps the domains equal or makes them so. */
  lemma TickRestoresDomain(s: State, snapshot: Snapshot, s': State)
    requires Rib.Valid(s.table) && Step(s, Tick(Some(snapshot)), s')
    requires forall node :: node in s.fib ==> Sharing(s.table, node) != {}
    ensures s'.table == s.table && SameDomain(s')
  {
    var order := TickSteers(s, snapshot, s');
    forall node
      ensures node in s'.fib <==> Sharing(s'.table, node) != {}
    {
      SteeringWrites(s, order, snapshot, s', node);
      SharingIsHaving(s.table, order, node);
    }
  }

  /** Event `i` deletes the entry of a node that a prefix with a path still needs. */
  ghost predicate LosesAt(events: seq<Event>, i: nat, node: Node)
    requires i < |events|
  {
    && events[i].Routed? && NodeOf(events[i].op.route.nlri) == node
    && Clashes(TableAfter(events[..i + 1]), events[i].op.route.nlri)
  }

  /** The event writes or deletes the entry of the node if any prefix has that node. */
  predicate Touches(e: Event, node: Node) {
    match e
    case Routed(op) => NodeOf(op.route.nlri) == node
    case Tick(snapshot) => snapshot.Some?
  }

  ghost predicate UntouchedSince(events: seq<Event>, i: nat, node: Node) {
    forall j :: i < j < |events| ==> !Touches(events[j], node)
  }

  /** A clash deleted the entry of the node, and nothing has touched the node since. */
  ghost predicate Lost(events: seq<Event>, node: Node) {
    exists i :: 0 <= i < |events| && LosesAt(events, i, node) && UntouchedSince(events, i, node)
  }

  lemma LosesAsBefore(events: seq<Event>, i: nat, node: Node)
    requires i < |events| - 1
    ensures LosesAt(events[..|events| - 1], i, node) <==> LosesAt(events, i, node)
  {
    assert events[..|events| - 1][..i + 1] == events[..i + 1];
  }

  lemma StaysUntouched(events: seq<Event>, i: nat, node: Node)
    requires events != [] && !Touches(events[|events| - 1], node)
    ensures UntouchedSince(events[..|events| - 1], i, node) <==> UntouchedSince(events, i, node)
  {
    var init := events[..|events| - 1];
    assert forall j :: i < j < |init| ==> events[j] == init[j];
  }

  lemma StaysLost(events: seq<Event>, node: Node)
    requires events != [] && !Touches(events[|events| - 1], node) && Lost(events[..|events| - 1], node)
    ensures Lost(events, node)
  {
    var init := events[..|events| - 1];
    var i :| 0 <= i < |init| && LosesAt(init, i, node) && UntouchedSince(init, i, node);
    LosesAsBefore(events, i, node);
    StaysUntouched(events, i, node);
  }

  lemma WasLost(events: seq<Event>, node: Node)
    requires events != [] && !Touches(events[|events| - 1], node) && Lost(events, node)
    ensures Lost(events[..|events| - 1], node)
  {
    var init := events[..|events| - 1];
    var i :| 0 <= i < |events| && LosesAt(events, i, node) && UntouchedSince(events, i, node);
    LosesAsBefore(events, i, node);
    StaysUntouched(events, i, node);
  }

  lemma LostNow(events: seq<Event>, node: Node)
    requires events != [] && Touches(events[|events| - 1], node)
    ensures Lost(events, node) <==> LosesAt(events, |events| - 1, node)
  {
    var last := |events| - 1;
    if Lost(events, node) {
      var i :| 0 <= i < |events| && LosesAt(events, i, node) && UntouchedSince(events, i, node);
      assert i == last;
    }
    assert UntouchedSince(events, last, node);
  }

  lemma Untouched(s: State, e: Event, s': State, node: Node)
    requires Rib.Valid(s.table) && Step(s, e, s') && !Touches(e, node)
    ensures Sharing(s'.table, node) == Sharing(s.table, node)
    ensures node in s'.fib <==> node in s.fib
    ensures node in s.fib ==> s'.fib[node] == s.fib[node]
  {
    if e.Routed? {
      RoutedSharing(s.table, e.op, node);
    }
  }

  /** After a write or deletion the node has an entry exactly when some prefix has the node and there is no clash. */
  lemma Touched(s: State, e: Event, s': State, node: Node)
    requires Rib.Valid(s.table) && Step(s, e, s') && Touches(e, node)
    requires forall k :: k in s.fib ==> Sharing(s.table, k) != {}
    ensures node in s'.fib <==> Sharing(s'.table, node) != {} && !(e.Routed? && Clashes(s'.table, e.op.route.nlri))
  {
    match e
    case Routed(op) =>
      RoutedTable(s.table, op, op.route.nlri);
      assert op.route.nlri in s'.table ==> op.route.nlri in Sharing(s'.table, node);
    case Tick(Some(snapshot)) =>
      TickRestoresDomain(s, snapshot, s');
  }

  /** No history leaves an entry behind whose node no prefix has. */
  lemma {:induction false} NoOrphans(events: seq<Event>, s: State)
    requires Leads(INIT, events, s)
    ensures forall node :: node in s.fib ==> Sharing(s.table, node) != {}
    decreases |events|
  {
    if events == [] {
    } else {
      var init, e := events[..|events| - 1], events[|events| - 1];
      var mid := Back(events, s);
      NoOrphans(init, mid);
      match e
      case Routed(op) =>
        RoutedTable(mid.table, op, op.route.nlri);
        forall node | node in s.fib
          ensures Sharing(s.table, node) != {}
        {
          if node != NodeOf(op.route.nlri) {
            RoutedSharing(mid.table, op, node);
          } else {
            assert op.route.nlri in Sharing(s.table, node);
          }
        }
      case Tick(None) =>
      case Tick(Some(snapshot)) =>
        TickRestoresDomain(mid, snapshot, s);
    }
  }

  lemma LostIsTheSame(events: seq<Event>, node: Node)
    requires events != [] && !Touches(events[|events| - 1], node)
    ensures Lost(events, node) <==> Lost(events[..|events| - 1], node)
  {
    if Lost(events, node) {
      WasLost(events, node);
    }
    if Lost(events[..|events| - 1], node) {
      StaysLost(events, node);
    }
  }

  /** Whether the node is lost now, in terms of the table and the last event alone. */
  lemma LostByClash(events: seq<Event>, node: Node)
    requires events != [] && Touches(events[|events| - 1], node)
    ensures var e := events[|events| - 1];
            Lost(events, node) <==> e.Routed? && Clashes(TableAfter(events), e.op.route.nlri)
  {
    LostNow(events, node);
    assert events[..|events|] == events;
  }

  /** After every history: which nodes have an entry. */
  lemma {:induction false} NodesAfter(events: seq<Event>, s: State, node: Node)
    requires Leads(INIT, events, s)
    ensures node in s.fib <==> Sharing(s.table, node) != {} && !Lost(events, node)
    decreases |events|
  {
    if events == [] {
    } else {
      var init, e := events[..|events| - 1], events[|events| - 1];
      var mid := Back(events, s);
      if !Touches(e, node) {
        NodesAfter(init, mid, node);
        LostIsTheSame(events, node);
        Untouched(mid, e, s, node);
      } else {
        NoOrphans(init, mid);
        Touched(mid, e, s, node);
        LostByClash(events, node);
      }
    }
  }

  /**
   * After every history a prefix with a path has an entry exactly when a clash has not taken it,
   * and a prefix without a path has none exactly when no other prefix lends it one.
   */
  lemma EntryIffPath(events: seq<Event>, s: State, n: Nlri)
    requires Leads(INIT, events, s)
    ensures HasPath(events, n) ==> (NodeOf(n) in s.fib <==> !Lost(events, NodeOf(n)))
    ensures !HasPath(events, n) ==>
              (NodeOf(n) in s.fib <==> (exists m :: HasPath(events, m) && NodeOf(m) == NodeOf(n)) && !Lost(events, NodeOf(n)))
  {
    NodesAfter(events, s, NodeOf(n));
    TableFollowsOps(events, s);
    var t := TableAfter(events);
    PathIffListed(events, n);
    if n in t {
      assert n in Sharing(t, NodeOf(n));
    }
    if m :| m in Sharing(t, NodeOf(n)) {
      PathIffListed(events, m);
    }
    if m :| HasPath(events, m) && NodeOf(m) == NodeOf(n) {
      PathIffListed(events, m);
      assert m in Sharing(t, NodeOf(n));
    }
  }

  /** A history loses no node on its way exactly when none of its updates clashes. */
  lemma NeverLost(events: seq<Event>)
    ensures (forall i, node :: 0 <= i <= |events| ==> !Lost(events[..i], node))
       <==> (forall i :: 0 <= i < |events| && events[i].Routed? ==>
               !Clashes(TableAfter(events[..i + 1]), events[i].op.route.nlri))
  {
    forall i | 0 <= i < |events| && events[i].Routed? && Clashes(TableAfter(events[..i + 1]), events[i].op.route.nlri)
      ensures Lost(events[..i + 1], NodeOf(events[i].op.route.nlri))
    {
      assert events[..i + 1][..i + 1] == events[..i + 1];
      assert LosesAt(events[..i + 1], i, NodeOf(events[i].op.route.nlri));
    }
    forall i, node | 0 <= i <= |events| && Lost(events[..i], node)
      ensures exists j :: 0 <= j < |events| && events[j].Routed?
                && Clashes(TableAfter(events[..j + 1]), events[j].op.route.nlri)
    {
      var j :| 0 <= j < i && LosesAt(events[..i], j, node);
      assert events[..i][..j + 1] == events[..j + 1];
    }
  }

  // Which nexthops an entry names

  ghost function Named(c: CFibEntry): set<Octets16> {
    set i | 0 <= i < c.count && i < |c.nexthops| :: c.nexthops[i]
  }

  ghost function OctetsOf(nexthops: set<IpAddr>): set<Octets16> {
    set nh | nh in nexthops :: ToOctets(nh)
  }

  /** The nexthops the entry of a prefix ought to name. */
  ghost function Due(t: Table, n: Nlri): set<IpAddr> {
    Members(FirstFour(Nexthops(t, n)))
  }

  /** The entry of a prefix names exactly its first four nexthops. */
  ghost predicate Exact(s: State, n: Nlri) {
    NodeOf(n) in s.fib && Named(s.fib[NodeOf(n)]) == OctetsOf(Due(s.table, n))
  }

  /** No two of the addresses are one as octets. */
  ghost predicate DifferAsOctets(addrs: set<IpAddr>) {
    forall a, b :: a in addrs && b in addrs && ToOctets(a) == ToOctets(b) ==> a == b
  }

  lemma SameOctets(a: set<IpAddr>, b: set<IpAddr>)
    requires DifferAsOctets(a + b)
    ensures OctetsOf(a) == OctetsOf(b) <==> a == b
  {
    if OctetsOf(a) == OctetsOf(b) {
      forall nh | nh in a + b
        ensures nh in a && nh in b
      {
        assert ToOctets(nh) in OctetsOf(a) && ToOctets(nh) in OctetsOf(b);
      }
    }
  }

  lemma PackedNames(nlri: Nlri, e: FibEntry)
    requires WellFormed(e)
    ensures Named(Packed(nlri, e)) == OctetsOf(Members(NexthopsOf(Listed(e))))
  {
    var c, nexthops := Packed(nlri, e), NexthopsOf(Listed(e));
    assert |nexthops| == c.count <= |c.nexthops|;
    assert forall i :: 0 <= i < |nexthops| ==> c.nexthops[i] == ToOctets(nexthops[i]) && nexthops[i] in nexthops;
    forall o | o in OctetsOf(Members(nexthops))
      ensures o in Named(c)
    {
      var nh :| nh in nexthops && ToOctets(nh) == o;
      var i :| 0 <= i < |nexthops| && nexthops[i] == nh;
      assert c.nexthops[i] == o;
    }
  }

  lemma {:induction false} MembersPermuted(ws: seq<Weighted<IpAddr>>, vs: seq<Weighted<IpAddr>>)
    requires multiset(ws) == multiset(vs)
    ensures Members(NexthopsOf(ws)) <= Members(NexthopsOf(vs))
  {
    forall nh | nh in NexthopsOf(ws)
      ensures nh in NexthopsOf(vs)
    {
      var i :| 0 <= i < |ws| && ws[i].nexthop == nh;
      assert ws[i] in multiset(vs);
      var j :| 0 <= j < |vs| && vs[j] == ws[i];
      assert NexthopsOf(vs)[j] == nh;
    }
  }

  lemma BuiltNames(nlri: Nlri, ws: seq<Weighted<IpAddr>>, c: CFibEntry)
    requires Built(nlri, ws, c)
    ensures c.matched == ToKey(nlri) && Named(c) == OctetsOf(Members(NexthopsOf(ws)))
  {
    var e :| WellFormed(e) && multiset(Listed(e)) == multiset(ws) && c == Packed(nlri, e);
    PackedNames(nlri, e);
    MembersPermuted(Listed(e), ws);
    MembersPermuted(ws, Listed(e));
  }

  lemma BalancedNames(nexthops: seq<IpAddr>)
    requires 0 < |nexthops| <= MAX_NEXTHOPS
    ensures NexthopsOf(Balanced(nexthops)) == nexthops
  {
  }

  /** Announcing or withdrawing a path makes the entry of a prefix that still has one exact. */
  lemma RoutedIsExact(s: State, op: RibOp, s': State)
    requires Rib.Valid(s.table) && Step(s, Routed(op), s') && op.route.nlri in s'.table
    ensures Exact(s', op.route.nlri) && s'.fib[NodeOf(op.route.nlri)].matched == ToKey(op.route.nlri)
  {
    var n := op.route.nlri;
    RoutedTable(s.table, op, n);
    var nexthops := FirstFour(Nexthops(s'.table, n));
    BuiltNames(n, Balanced(nexthops), s'.fib[NodeOf(n)]);
    BalancedNames(nexthops);
  }

  /** The nexthops that carry weight after reconciling. */
  ghost function KeptKeys(weighed: set<IpAddr>, nexthops: seq<IpAddr>): set<IpAddr> {
    if |weighed| != |nexthops| || !(Members(nexthops) <= weighed) then Members(nexthops) else weighed
  }

  /** A repeated nexthop makes up for one that is gone, and the comparison by length misses it. */
  ghost predicate Misses(weighed: set<IpAddr>, nexthops: seq<IpAddr>) {
    |weighed| == |nexthops| && Members(nexthops) <= weighed && !Distinct(nexthops)
  }

  lemma KeptExactly(weighed: set<IpAddr>, nexthops: seq<IpAddr>)
    ensures KeptKeys(weighed, nexthops) == Members(nexthops) <==> !Misses(weighed, nexthops)
  {
    var weights: Weights := map nh | nh in weighed :: 0.0;
    assert weights.Keys == weighed;
    ReconciledKeys(weights, nexthops);
    ReconcileIsExact(weights, nexthops);
  }

  lemma ReconciledKeys(weights: Weights, nexthops: seq<IpAddr>)
    ensures Reconciled(weights, nexthops).Keys == KeptKeys(weights.Keys, nexthops)
  {
    assert |weights| == |weights.Keys|;
    assert Members(nexthops) <= weights.Keys <==> forall nh :: nh in nexthops ==> nh in weights;
  }

  /** One step hands out weights to the nexthops it keeps. */
  lemma StepKeeps(weights: map<Nlri, Weights>, nlri: Nlri, nexthops: seq<IpAddr>, snapshot: Snapshot,
                  weights': map<Nlri, Weights>, ws: seq<Weighted<IpAddr>>)
    requires nexthops != [] && StepsTo(weights, nlri, nexthops, snapshot, weights', Some(ws))
    ensures weights'[nlri].Keys == Members(NexthopsOf(ws)) == KeptKeys(WeightsFor(weights, nlri).Keys, nexthops)
  {
    var w := WeightsFor(weights, nlri);
    ReconciledKeys(w, nexthops);
    MovedKeys(Reconciled(w, nexthops), nexthops, WindowsFor(snapshot, nlri));
    assert weights'[nlri].Keys == Moved(Reconciled(w, nexthops), nexthops, WindowsFor(snapshot, nlri)).Keys;
  }

  /** Steering one prefix: its entry names what carries weight, and other weights and entries stay. */
  lemma SteeredNames(s: State, nlri: Nlri, snapshot: Snapshot, s': State)
    requires Nexthops(s.table, nlri) != [] && Steered(s, nlri, snapshot, s')
    ensures nlri in s'.weights && s'.weights == s.weights[nlri := s'.weights[nlri]]
    ensures s'.weights[nlri].Keys == KeptKeys(WeightsFor(s.weights, nlri).Keys, FirstFour(Nexthops(s.table, nlri)))
    ensures NodeOf(nlri) in s'.fib && s'.fib[NodeOf(nlri)].matched == ToKey(nlri)
    ensures Named(s'.fib[NodeOf(nlri)]) == OctetsOf(s'.weights[nlri].Keys)
    ensures s'.fib == s.fib[NodeOf(nlri) := s'.fib[NodeOf(nlri)]]
  {
    var nexthops := FirstFour(Nexthops(s.table, nlri));
    var out :| StepsTo(s.weights, nlri, nexthops, snapshot, s'.weights, out) && Written(s.fib, nlri, out, s'.fib);
    StepKeeps(s.weights, nlri, nexthops, snapshot, s'.weights, out.value);
    BuiltNames(nlri, out.value, s'.fib[NodeOf(nlri)]);
  }

  ghost function Reweighed(s: State, n: Nlri): set<IpAddr> {
    KeptKeys(WeightsFor(s.weights, n).Keys, FirstFour(Nexthops(s.table, n)))
  }

  lemma SteeredWeighs(s: State, nlri: Nlri, snapshot: Snapshot, s': State, n: Nlri)
    requires Nexthops(s.table, nlri) != [] && Steered(s, nlri, snapshot, s')
    ensures WeightsFor(s'.weights, n).Keys == if n == nlri then Reweighed(s, n) else WeightsFor(s.weights, n).Keys
  {
    SteeredNames(s, nlri, snapshot, s');
  }

  lemma {:induction false} SteeringWeighs(s: State, order: seq<Nlri>, snapshot: Snapshot, s': State, n: Nlri)
    requires SteeredAll(s, order, snapshot, s') && Distinct(order)
    requires forall m :: m in order ==> Nexthops(s.table, m) != []
    ensures WeightsFor(s'.weights, n).Keys == if n in order then Reweighed(s, n) else WeightsFor(s.weights, n).Keys
    decreases |order|
  {
    if order == [] {
    } else {
      LastOf(order);
      var mid := LastSteered(s, order, snapshot, s');
      SteeringWeighs(s, order[..|order| - 1], snapshot, mid, n);
      SteeredWeighs(mid, order[|order| - 1], snapshot, s', n);
    }
  }

  /** Steering one prefix writes the entry of its node and leaves the others alone. */
  lemma SteeredEntry(s: State, nlri: Nlri, snapshot: Snapshot, s': State, node: Node)
    requires Nexthops(s.table, nlri) != [] && Steered(s, nlri, snapshot, s')
    ensures node == NodeOf(nlri) ==>
              node in s'.fib && s'.fib[node].matched == ToKey(nlri) && Named(s'.fib[node]) == OctetsOf(Reweighed(s, nlri))
    ensures node != NodeOf(nlri) && node in s.fib ==> node in s'.fib && s'.fib[node] == s.fib[node]
  {
    SteeredNames(s, nlri, snapshot, s');
  }

  /** The last prefix steered among those sharing a node leaves its nexthops in the entry. */
  lemma {:induction false} SteeringNames(s: State, order: seq<Nlri>, snapshot: Snapshot, s': State, node: Node)
    returns (owner: Nlri)
    requires SteeredAll(s, order, snapshot, s') && Distinct(order) && HasNode(order, node)
    requires forall m :: m in order ==> Nexthops(s.table, m) != []
    ensures owner in order && NodeOf(owner) == node
    ensures node in s'.fib && s'.fib[node].matched == ToKey(owner)
    ensures Named(s'.fib[node]) == OctetsOf(Reweighed(s, owner))
    decreases |order|
  {
    var init, last := order[..|order| - 1], order[|order| - 1];
    LastOf(order);
    var mid := LastSteered(s, order, snapshot, s');
    SteeredEntry(mid, last, snapshot, s', node);
    if NodeOf(last) == node {
      owner := last;
      SteeringWeighs(s, init, snapshot, mid, last);
    } else {
      owner := SteeringNames(s, init, snapshot, mid, node);
    }
  }

  /** What a tick does to the entry of a node that prefixes have. */
  lemma TickNames(s: State, snapshot: Snapshot, s': State, node: Node) returns (owner: Nlri)
    requires Rib.Valid(s.table) && Step(s, Tick(Some(snapshot)), s') && Sharing(s.table, node) != {}
    ensures owner in Sharing(s.table, node)
    ensures node in s'.fib && s'.fib[node].matched == ToKey(owner)
    ensures Named(s'.fib[node]) == OctetsOf(Reweighed(s, owner))
  {
    var order := TickSteers(s, snapshot, s');
    SharingIsHaving(s.table, order, node);
    owner := SteeringNames(s, order, snapshot, s', node);
  }

  /**
   * A tick makes the entry of a prefix with a node of its own exact, whatever it was before, exactly
   * when the comparison does not miss a nexthop that is gone.
   */
  lemma TickIsExact(s: State, snapshot: Snapshot, s': State, n: Nlri)
    requires Rib.Valid(s.table) && Step(s, Tick(Some(snapshot)), s')
    requires Sharing(s.table, NodeOf(n)) == {n}
    ensures !Misses(WeightsFor(s.weights, n).Keys, FirstFour(Nexthops(s.table, n))) ==> Exact(s', n)
    ensures DifferAsOctets(WeightsFor(s.weights, n).Keys + Due(s.table, n)) ==>
              (Exact(s', n) <==> !Misses(WeightsFor(s.weights, n).Keys, FirstFour(Nexthops(s.table, n))))
  {
    var order := TickSteers(s, snapshot, s');
    var owner := TickNames(s, snapshot, s', NodeOf(n));
    assert owner == n;
    var w := WeightsFor(s.weights, n).Keys;
    KeptExactly(w, FirstFour(Nexthops(s.table, n)));
    if DifferAsOctets(w + Due(s.table, n)) {
      SameOctets(Reweighed(s, n), Due(s.table, n));
    }
  }

  // The entries after every history

  /** The nexthops that carry weight for a prefix after the history. */
  ghost function Weighed(events: seq<Event>, n: Nlri): set<IpAddr>
    decreases |events|
  {
    if events == [] then {} else
      var init, e, t := events[..|events| - 1], events[|events| - 1], TableAfter(events);
      if e.Tick? && e.snapshot.Some? && n in t then KeptKeys(Weighed(init, n), FirstFour(Nexthops(t, n)))
      else Weighed(init, n)
  }

  /** The nexthops last written for a prefix: balanced by an update, or weighed by a tick. */
  ghost function Shown(events: seq<Event>, n: Nlri): set<IpAddr>
    decreases |events|
  {
    if events == [] then {} else
      var init, e, t := events[..|events| - 1], events[|events| - 1], TableAfter(events);
      match e
      case Routed(op) => if op.route.nlri == n then Due(t, n) else Shown(init, n)
      case Tick(snapshot) => if snapshot.Some? && n in t then Weighed(events, n) else Shown(init, n)
  }

  /** The prefixes that may have written the entry of a node last. */
  ghost function Owners(events: seq<Event>, node: Node): set<Nlri>
    decreases |events|
  {
    if events == [] then {} else
      var init, e, t := events[..|events| - 1], events[|events| - 1], TableAfter(events);
      if !Touches(e, node) then Owners(init, node)
      else if e.Tick? then Sharing(t, node)
      else if e.op.route.nlri in t then {e.op.route.nlri}
      else {}
  }

  /** The last write for the prefix was a tick that missed a nexthop that is gone. */
  ghost predicate Stale(events: seq<Event>, n: Nlri)
    decreases |events|
  {
    if events == [] then false else
      var init, e, t := events[..|events| - 1], events[|events| - 1], TableAfter(events);
      match e
      case Routed(op) => op.route.nlri != n && Stale(init, n)
      case Tick(snapshot) =>
        if snapshot.Some? && n in t then Misses(Weighed(init, n), FirstFour(Nexthops(t, n))) else Stale(init, n)
  }

  lemma {:induction false} WeightsFollow(events: seq<Event>, s: State, n: Nlri)
    requires Leads(INIT, events, s)
    ensures WeightsFor(s.weights, n).Keys == Weighed(events, n)
    decreases |events|
  {
    if events == [] {
    } else {
      var init, e := events[..|events| - 1], events[|events| - 1];
      var mid := Back(events, s);
      WeightsFollow(init, mid, n);
      if e.Tick? && e.snapshot.Some? {
        var order := TickSteers(mid, e.snapshot.value, s);
        SteeringWeighs(mid, order, e.snapshot.value, s, n);
      }
    }
  }

  lemma {:induction false} OwnersShare(events: seq<Event>, s: State, node: Node)
    requires Leads(INIT, events, s)
    ensures Owners(events, node) <= Sharing(s.table, node)
    decreases |events|
  {
    if events == [] {
    } else {
      var init, e := events[..|events| - 1], events[|events| - 1];
      var mid := Back(events, s);
      OwnersShare(init, mid, node);
      if e.Routed? && NodeOf(e.op.route.nlri) != node {
        RoutedSharing(mid.table, e.op, node);
      }
    }
  }

  /** The entry names what was last written for one of its owners. */
  ghost predicate NamesOwner(events: seq<Event>, node: Node, c: CFibEntry) {
    exists m :: m in Owners(events, node) && EntryOf(events, c, m)
  }

  /** The entry carries the key of the prefix and names what was last written for it. */
  ghost predicate EntryOf(events: seq<Event>, c: CFibEntry, n: Nlri) {
    c.matched == ToKey(n) && Named(c) == OctetsOf(Shown(events, n))
  }

  ghost predicate Follows(events: seq<Event>, s: State, node: Node) {
    (node in s.fib <==> Owners(events, node) != {}) && (node in s.fib ==> NamesOwner(events, node, s.fib[node]))
  }

  lemma OwnersStay(events: seq<Event>, t: Table, node: Node, c: CFibEntry)
    requires events != [] && !Touches(events[|events| - 1], node)
    requires var init := events[..|events| - 1];
             NamesOwner(init, node, c) && Owners(init, node) <= Sharing(t, node)
    ensures NamesOwner(events, node, c)
  {
    var init := events[..|events| - 1];
    var m :| m in Owners(init, node) && EntryOf(init, c, m);
    assert NodeOf(m) == node;
    assert Shown(events, m) == Shown(init, m) && m in Owners(events, node);
  }

  lemma RoutedFollows(events: seq<Event>, mid: State, s: State)
    requires events != [] && events[|events| - 1].Routed? && Rib.Valid(mid.table)
    requires Step(mid, events[|events| - 1], s) && s.table == TableAfter(events)
    ensures Follows(events, s, NodeOf(events[|events| - 1].op.route.nlri))
  {
    var op := events[|events| - 1].op;
    var n := op.route.nlri;
    RoutedTable(mid.table, op, n);
    if n in s.table {
      RoutedIsExact(mid, op, s);
      assert n in Owners(events, NodeOf(n)) && Shown(events, n) == Due(s.table, n);
    }
  }

  lemma TickShows(events: seq<Event>, n: Nlri)
    requires events != [] && events[|events| - 1].Tick? && events[|events| - 1].snapshot.Some?
    requires n in TableAfter(events)
    ensures Shown(events, n) == KeptKeys(Weighed(events[..|events| - 1], n), FirstFour(Nexthops(TableAfter(events), n)))
  {
  }

  lemma TickFollows(events: seq<Event>, mid: State, s: State, node: Node)
    requires events != [] && events[|events| - 1].Tick? && events[|events| - 1].snapshot.Some?
    requires Leads(INIT, events[..|events| - 1], mid) && Step(mid, events[|events| - 1], s)
    requires Rib.Valid(mid.table) && SameDomain(s) && mid.table == s.table == TableAfter(events)
    ensures Follows(events, s, node)
  {
    if node in s.fib {
      var owner := TickNames(mid, events[|events| - 1].snapshot.value, s, node);
      WeightsFollow(events[..|events| - 1], mid, owner);
      TickShows(events, owner);
      assert owner in Owners(events, node);
    }
  }

  /** After every history: an entry exists exactly when its node has an owner, and names what was last written for one. */
  lemma {:induction false} EntriesFollow(events: seq<Event>, s: State, node: Node)
    requires Leads(INIT, events, s)
    ensures Follows(events, s, node)
    decreases |events|
  {
    if events == [] {
    } else {
      var init, e := events[..|events| - 1], events[|events| - 1];
      var mid := Back(events, s);
      if !Touches(e, node) {
        EntriesFollow(init, mid, node);
        OwnersShare(init, mid, node);
        Untouched(mid, e, s, node);
        if node in s.fib {
          OwnersStay(events, mid.table, node, s.fib[node]);
        }
      } else if e.Routed? {
        RoutedFollows(events, mid, s);
      } else {
        NoOrphans(init, mid);
        TickRestoresDomain(mid, e.snapshot.value, s);
        TickFollows(events, mid, s, node);
      }
    }
  }

  lemma {:induction false} ShownUnlessStale(events: seq<Event>, s: State, n: Nlri)
    requires Leads(INIT, events, s) && n in s.table
    ensures Shown(events, n) == Due(s.table, n) <==> !Stale(events, n)
    decreases |events|
  {
    if events == [] {
    } else {
      var init, e := events[..|events| - 1], events[|events| - 1];
      var mid := Back(events, s);
      match e
      case Routed(op) =>
        if op.route.nlri != n {
          RoutedTable(mid.table, op, n);
          ShownUnlessStale(init, mid, n);
        }
      case Tick(None) =>
        ShownUnlessStale(init, mid, n);
      case Tick(Some(_)) =>
        KeptExactly(Weighed(init, n), FirstFour(Nexthops(s.table, n)));
    }
  }

  /**
   * After every history the entry of a prefix whose node no other prefix wrote last is exact, as
   * long as no clash has taken it and no tick has missed a departed nexthop; and only then, unless
   * two nexthops are one as octets.
   */
  lemma RunsAreExact(events: seq<Event>, s: State, n: Nlri)
    requires Leads(INIT, events, s) && HasPath(events, n) && Owners(events, NodeOf(n)) <= {n}
    ensures !Lost(events, NodeOf(n)) && !Stale(events, n) ==> Exact(s, n)
    ensures NodeOf(n) in s.fib ==> s.fib[NodeOf(n)].matched == ToKey(n)
    ensures DifferAsOctets(Shown(events, n) + Due(s.table, n)) ==>
              (Exact(s, n) <==> !Lost(events, NodeOf(n)) && !Stale(events, n))
  {
    PathIffListed(events, n);
    TableFollowsOps(events, s);
    EntryIffPath(events, s, n);
    EntriesFollow(events, s, NodeOf(n));
    ShownUnlessStale(events, s, n);
    if DifferAsOctets(Shown(events, n) + Due(s.table, n)) {
      SameOctets(Shown(events, n), Due(s.table, n));
    }
  }

  /**
   * Where prefixes share a node, one of them owns the entry. It names what was last written for the
   * owner, and is exact for those that are due the same and for no others.
   */
  lemma ClashedEntry(events: seq<Event>, s: State, node: Node) returns (owner: Nlri)
    requires Leads(INIT, events, s) && node in s.fib
    ensures owner in Owners(events, node) && HasPath(events, owner) && NodeOf(owner) == node
    ensures EntryOf(events, s.fib[node], owner)
    ensures !Stale(events, owner) ==> Shown(events, owner) == Due(s.table, owner)
    ensures forall n {:trigger Exact(s, n)} :: NodeOf(n) == node ==>
              (Exact(s, n) <==> OctetsOf(Due(s.table, n)) == OctetsOf(Shown(events, owner)))
  {
    EntriesFollow(events, s, node);
    owner :| owner in Owners(events, node) && EntryOf(events, s.fib[node], owner);
    OwnersShare(events, s, node);
    TableFollowsOps(events, s);
    PathIffListed(events, owner);
    ShownUnlessStale(events, s, owner);
  }

  // What a lookup finds

  /** No history has taken the entry of a prefix that has a path and matches the destination. */
  ghost predicate NoneLostFor(events: seq<Event>, dest: Octets16) {
    forall n :: HasPath(events, n) && NodeMatches(NodeOf(n), dest) ==> !Lost(events, NodeOf(n))
  }

  lemma NodesListed(events: seq<Event>, s: State, dest: Octets16, m: Nlri)
    requires Leads(INIT, events, s) && NoneLostFor(events, dest) && m in s.table && NodeMatches(NodeOf(m), dest)
    ensures NodeOf(m) in s.fib
  {
    TableFollowsOps(events, s);
    PathIffListed(events, m);
    EntryIffPath(events, s, m);
  }

  /** A lookup in the FIB is a lookup among the prefixes that have a path, unless a clash has taken an entry. */
  lemma LookupFollows(events: seq<Event>, s: State, dest: Octets16, node: Node)
    requires Leads(INIT, events, s) && NoneLostFor(events, dest)
    ensures LongestMatch(s.fib.Keys, dest, node) <==> LongestMatch(Nodes(s.table.Keys), dest, node)
  {
    forall k | NodeMatches(k, dest)
      ensures k in s.fib <==> k in Nodes(s.table.Keys)
    {
      NodesAfter(events, s, k);
      if k in s.fib {
        var n :| n in Sharing(s.table, k);
      }
      if n :| n in s.table && NodeOf(n) == k {
        NodesListed(events, s, dest, n);
      }
    }
  }

  /**
   * After every history with no mapped IPv6 prefix left and no entry taken, what a lookup finds for
   * an IPv4 destination is the entry of the longest IPv4 prefix with a path that covers it, if there
   * is one, and else of an IPv6 prefix shorter than 96 bits; for an IPv6 destination outside the
   * mapped range it is that of the longest IPv6 prefix with a path that covers it. The entry names
   * the nexthops last written for the prefix.
   */
  lemma LookupIsLongest(events: seq<Event>, s: State, dest: IpAddr, node: Node) returns (n: Nlri)
    requires Leads(INIT, events, s) && NoneLostFor(events, ToOctets(dest)) && NoMappedV6(s.table.Keys)
    requires !(dest.V6? && IsMapped(dest.octets6)) && LongestMatch(s.fib.Keys, ToOctets(dest), node)
    ensures HasPath(events, n) && NodeOf(n) == node && EntryOf(events, s.fib[node], n)
    ensures !Stale(events, n) ==> Shown(events, n) == Due(s.table, n)
    ensures Covered(s.table.Keys, dest) || dest.V6? ==> n.addr.V4? == dest.V4? && LongestCover(s.table.Keys, dest, n)
    ensures !Covered(s.table.Keys, dest) ==> dest.V4? && n.addr.V6? && n.len < 96
  {
    n := ClashedEntry(events, s, node);
    TableFollowsOps(events, s);
    PathIffListed(events, n);
    LookupFollows(events, s, ToOctets(dest), node);
    if dest.V4? {
      LookupV4(s.table.Keys, dest, node, n);
    } else {
      LookupV6(s.table.Keys, dest, node, n);
    }
  }

  /** And it finds an entry whenever some prefix with a path covers the destination. */
  lemma CoveredIsFound(events: seq<Event>, s: State, dest: IpAddr)
    requires Leads(INIT, events, s) && NoneLostFor(events, ToOctets(dest)) && NoMappedV6(s.table.Keys)
    requires !(dest.V6? && IsMapped(dest.octets6)) && Covered(s.table.Keys, dest)
    ensures exists k :: k in s.fib && NodeMatches(k, ToOctets(dest))
  {
    var n :| n in s.table.Keys && Covers(n, dest);
    NodeMatchesByFamily(n, dest);
    NodesListed(events, s, ToOctets(dest), n);
  }

  // Where the conditions are needed

  /**
   * Two prefixes with one node: withdrawing one of them takes the entry of the other along,
   * although that prefix still has a path.
   */
  lemma ClashLosesEntry(n: Nlri, m: Nlri, nexthop: IpAddr, s: State, s': State)
    requires n != m && NodeOf(n) == NodeOf(m)
    requires n in s.table && m in s.table && s.table[m] == [Path(None, nexthop)]
    requires Step(s, Routed(Withdraw(Route(None, m))), s')
    ensures n in s'.table && NodeOf(n) !in s'.fib
  {
    OnlyPathRemoved(s.table, m, nexthop);
    assert Balance(Nexthops(s'.table, m)) == None;
  }

  lemma OnlyPathRemoved(t: Table, n: Nlri, nexthop: IpAddr)
    requires n in t && t[n] == [Path(None, nexthop)]
    ensures Removed(t, Route(None, n)) == t - {n}
  {
    assert Retained(t[n], None) == Retained([], None);
  }

  /**
   * With a repeated nexthop a tick can name one that is gone: once A and B carry weight, replacing
   * B by a second path over A leaves B in the entry the next tick writes.
   */
  lemma StaleNexthopIsNamed(n: Nlri, a: IpAddr, b: IpAddr, s: State, snapshot: Snapshot, s': State)
    requires n in s.weights && s.weights[n].Keys == {a, b} && a != b
    requires Nexthops(s.table, n) == [a, a] && Steered(s, n, snapshot, s')
    ensures NodeOf(n) in s'.fib && ToOctets(b) in Named(s'.fib[NodeOf(n)]) && b !in Nexthops(s'.table, n)
  {
    PairIsMissed(a, b);
    SteeredNames(s, n, snapshot, s');
  }

  lemma PairIsMissed(a: IpAddr, b: IpAddr)
    requires a != b
    ensures FirstFour([a, a]) == [a, a] && KeptKeys({a, b}, [a, a]) == {a, b} && b in {a, b}
  {
    assert |{a, b}| == 2;
  }

  lemma TickSteersOne(s: State, snapshot: Snapshot, s': State, n: Nlri)
    requires s.table.Keys == {n} && Step(s, Tick(Some(snapshot)), s')
    ensures Steered(s, n, snapshot, s')
  {
    var order :| Enumerates(order, s.table.Keys) && SteeredAll(s, order, snapshot, s');
    EnumerationLength(order, s.table.Keys);
    assert order[0] in order && order[..0] == [];
    var mid :| SteeredAll(s, order[..|order| - 1], snapshot, mid) && Steered(mid, order[|order| - 1], snapshot, s');
    assert mid == s;
  }

  /** Two paths to one prefix. */
  ghost function Pair(n: Nlri, a: IpAddr, b: IpAddr): Table {
    map[n := [Path(Some(1), a), Path(Some(2), b)]]
  }

  lemma PairRetained(p: Path, q: Path)
    requires p.pathId != q.pathId
    ensures Retained([], p.pathId) == [] && Retained([p], q.pathId) == [p] && Retained([p, q], q.pathId) == [p]
  {
    assert [p][..0] == [] && [p, q][..1] == [p];
    assert Retained([p], q.pathId) == Retained([], q.pathId) + [p];
  }

  /** What one insertion does to a table of one prefix, or to an empty one. */
  lemma InsertedOne(t: Table, n: Nlri, id: PathId, nexthop: IpAddr)
    requires t.Keys <= {n}
    ensures Inserted(t, Route(id, n), nexthop) == map[n := Retained(PathsOf(t, n), id) + [Path(id, nexthop)]]
  {
  }

  lemma PairInserted(n: Nlri, a: IpAddr, b: IpAddr)
    ensures Inserted(Inserted(map[], Route(Some(1), n), a), Route(Some(2), n), b) == Pair(n, a, b)
    ensures Inserted(Pair(n, a, b), Route(Some(2), n), a) == Pair(n, a, a)
  {
    var p, q := Path(Some(1), a), Path(Some(2), b);
    PairRetained(p, q);
    InsertedOne(map[], n, Some(1), a);
    InsertedOne(map[n := [p]], n, Some(2), b);
    InsertedOne(Pair(n, a, b), n, Some(2), a);
    assert [] + [p] == [p] && [p] + [q] == [p, q] && [p] + [Path(Some(2), a)] == [p, Path(Some(2), a)];
  }

  method AnnouncedPair(n: Nlri, a: IpAddr, b: IpAddr) returns (c: SteeringController)
    ensures fresh(c) && fresh(c.rib) && fresh(c.descent)
    ensures c.rib.table == Pair(n, a, b) && c.descent.weights == map[]
  {
    PairInserted(n, a, b);
    c := new SteeringController();
    c.Announce(Route(Some(1), n), a);
    c.Announce(Route(Some(2), n), b);
  }

  lemma FreshWeights(nexthops: seq<IpAddr>)
    requires nexthops != []
    ensures Reconciled(map[], nexthops).Keys == Members(nexthops)
  {
  }

  /** The first steering of a prefix gives weights to exactly its nexthops. */
  lemma FirstSteering(s: State, n: Nlri, nexthops: seq<IpAddr>, snapshot: Snapshot, s': State)
    requires Steered(s, n, snapshot, s') && n !in s.weights
    requires Nexthops(s.table, n) == nexthops && 0 < |nexthops| <= MAX_NEXTHOPS
    ensures n in s'.weights && s'.weights[n].Keys == Members(nexthops)
  {
    SteeredNames(s, n, snapshot, s');
    FreshWeights(nexthops);
  }

  lemma PairNexthops(n: Nlri, a: IpAddr, b: IpAddr)
    ensures Nexthops(Pair(n, a, b), n) == [a, b] && Members([a, b]) == {a, b}
  {
  }

  lemma PairSteered(s: State, n: Nlri, a: IpAddr, b: IpAddr, s': State)
    requires s.table == Pair(n, a, b) && n !in s.weights && Steered(s, n, map[], s')
    ensures n in s'.weights && s'.weights[n].Keys == {a, b}
  {
    PairNexthops(n, a, b);
    FirstSteering(s, n, [a, b], map[], s');
  }

  /** Two nexthops announced and steered once. */
  method SteeredPair(n: Nlri, a: IpAddr, b: IpAddr) returns (c: SteeringController)
    ensures fresh(c) && fresh(c.rib) && fresh(c.descent)
    ensures c.rib.table == Pair(n, a, b) && n in c.descent.weights && c.descent.weights[n].Keys == {a, b}
  {
    c := AnnouncedPair(n, a, b);
    ghost var s := c.View();
    c.SteerFib(Some(map[]));
    TickSteersOne(s, map[], c.View(), n);
    PairSteered(s, n, a, b, c.View());
  }

  /** A run that ends with such an entry: B is gone, and the kernel still draws it. */
  method StaleRun(n: Nlri, a: IpAddr, b: IpAddr) returns (c: SteeringController)
    requires a != b
    ensures b !in Nexthops(c.rib.table, n)
    ensures NodeOf(n) in c.fib && ToOctets(b) in Named(c.fib[NodeOf(n)])
  {
    c := SteeredPair(n, a, b);
    PairInserted(n, a, b);
    PairNexthops(n, a, a);
    c.Announce(Route(Some(2), n), a);
    ghost var s := c.View();
    assert s.table.Keys == {n};
    c.SteerFib(Some(map[]));
    TickSteersOne(s, map[], c.View(), n);
    StaleNexthopIsNamed(n, a, b, s, map[], c.View());
  }

  /** A run that loses an entry to a clash: the first prefix has a path, but its entry is gone. */
  method ClashRun(n: Nlri, m: Nlri, nexthop: IpAddr) returns (c: SteeringController)
    requires n != m && NodeOf(n) == NodeOf(m)
    ensures n in c.rib.table && NodeOf(n) !in c.fib
  {
    c := new SteeringController();
    c.Announce(Route(None, n), nexthop);
    c.Announce(Route(None, m), nexthop);
    ghost var s := c.View();
    c.Withdraw(Route(None, m));
    ClashLosesEntry(n, m, nexthop, s, c.View());
  }

  /** Two inputs for such runs: host bits that the trie does not look at, and a mapped IPv6 prefix. */
  method ClashRuns(nexthop: IpAddr) returns (c: SteeringController, d: SteeringController)
    ensures var n: Nlri := Prefix(V4([10, 1, 32, 0]), 20); n in c.rib.table && NodeOf(n) !in c.fib
    ensures var n: Nlri := Prefix(V4([10, 0, 0, 0]), 8); n in d.rib.table && NodeOf(n) !in d.fib
  {
    HostBitsClash();
    c := ClashRun(Prefix(V4([10, 1, 32, 0]), 20), Prefix(V4([10, 1, 47, 0]), 20), nexthop);
    var n: Nlri := Prefix(V4([10, 0, 0, 0]), 8);
    KeysClash(n);
    d := ClashRun(n, Prefix(V6(ToOctets(n.addr)), 104), nexthop);
  }

  lemma OnePathDue(t: Table, n: Nlri, id: PathId, nexthop: IpAddr)
    requires n in t && t[n] == [Path(id, nexthop)]
    ensures OctetsOf(Due(t, n)) == {ToOctets(nexthop)}
  {
    assert FirstFour(Nexthops(t, n)) == [nexthop] && Members([nexthop]) == {nexthop};
  }

  /** A run that leaves an entry with the nexthop of another prefix: what is sent to the first prefix goes to B. */
  method OverwriteRun(n: Nlri, m: Nlri, a: IpAddr, b: IpAddr) returns (c: SteeringController)
    requires n != m && NodeOf(n) == NodeOf(m) && ToOctets(a) != ToOctets(b)
    ensures OctetsOf(Due(c.rib.table, n)) == {ToOctets(a)}
    ensures NodeOf(n) in c.fib && Named(c.fib[NodeOf(n)]) == {ToOctets(b)}
  {
    c := new SteeringController();
    c.Announce(Route(None, n), a);
    ghost var s := c.View();
    InsertedOne(map[], n, None, a);
    assert s.table[n] == [Path(None, a)] && Rib.Valid(s.table);
    c.Announce(Route(None, m), b);
    assert c.rib.table[m] == Retained([], None) + [Path(None, b)] == [Path(None, b)];
    RoutedIsExact(s, RibOp.Announce(Route(None, m), b), c.View());
    OnePathDue(c.rib.table, n, None, a);
    OnePathDue(c.rib.table, m, None, b);
  }
}
