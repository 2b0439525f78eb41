/** BGP UPDATE messages: what they announce and withdraw, and what that does to the routing table. */
module Updates {
  import opened Addresses
  import opened Rib
  import opened Controller
  import opened SteeringRuns

  /** The path attributes that matter; multiprotocol ones of other address families are `Other`. */
  datatype Attribute =
    | NextHop(addr: Octets4)
    | MpReach(routes: seq<Route>, nexthop: IpAddr)
    | MpReachOther
    | MpUnreach(routes: seq<Route>)
    | MpUnreachOther
    | OtherAttribute

  datatype Message = Message(withdrawn: seq<Route>, attributes: seq<Attribute>, nlri: seq<Route>)

  datatype Update = Update(announcements: seq<(seq<Route>, IpAddr)>, withdrawals: seq<Route>)

  /** The first attribute of a kind; later ones of the kind are not looked at. */
  function Find(attributes: seq<Attribute>, kind: Attribute -> bool): (a: Option<Attribute>)
    ensures a.Some? ==> a.value in attributes && kind(a.value)
    ensures a.None? ==> forall x :: x in attributes ==> !kind(x)
  {
    if attributes == [] then None
    else if kind(attributes[0]) then Some(attributes[0])
    else Find(attributes[1..], kind)
  }

  method FindFirst(attributes: seq<Attribute>, kind: Attribute -> bool) returns (a: Option<Attribute>)
    ensures a == Find(attributes, kind)
  {
    for i := 0 to |attributes|
      invariant Find(attributes, kind) == Find(attributes[i..], kind)
    {
      if kind(attributes[i]) {
        return Some(attributes[i]);
      }
      assert attributes[i..][1..] == attributes[i + 1..];
    }
    return None;
  }

  const IS_NEXT_HOP: Attribute -> bool := (a: Attribute) => a.NextHop?
  const IS_REACH: Attribute -> bool := (a: Attribute) => a.MpReach? || a.MpReachOther?
  const IS_UNREACH: Attribute -> bool := (a: Attribute) => a.MpUnreach? || a.MpUnreachOther?

  ghost predicate Announces(u: Update, route: Route, nexthop: IpAddr) {
    exists a :: a in u.announcements && route in a.0 && a.1 == nexthop
  }

  ghost predicate Offers(m: Message, route: Route, nexthop: IpAddr) {
    var nextHop, reach := Find(m.attributes, IS_NEXT_HOP), Find(m.attributes, IS_REACH);
    || (route in m.nlri && nextHop.Some? && nexthop == V4(nextHop.value.addr))
    || (reach.Some? && reach.value.MpReach? && route in reach.value.routes && nexthop == reach.value.nexthop)
  }

  ghost predicate Retracts(m: Message, route: Route) {
    var unreach := Find(m.attributes, IS_UNREACH);
    route in m.withdrawn || (unreach.Some? && unreach.value.MpUnreach? && route in unreach.value.routes)
  }

  /** The nexthop a message leaves a route with: the multiprotocol attribute overrides the plain field. */
  ghost function Offered(m: Message, route: Route): Option<IpAddr> {
    var nextHop, reach := Find(m.attributes, IS_NEXT_HOP), Find(m.attributes, IS_REACH);
    if reach.Some? && reach.value.MpReach? && route in reach.value.routes then Some(reach.value.nexthop)
    else if route in m.nlri && nextHop.Some? then Some(V4(nextHop.value.addr))
    else None
  }

  /** The nexthop the announcements leave a route with: that of the last one naming it. */
  ghost function LastNexthop(announcements: seq<(seq<Route>, IpAddr)>, route: Route): Option<IpAddr> {
    if announcements == [] then None
    else
      var init, last := announcements[..|announcements| - 1], announcements[|announcements| - 1];
      if route in last.0 then Some(last.1) else LastNexthop(init, route)
  }

  /** The update announces and withdraws what the message does, and announces it in an order that counts. */
  ghost predicate Reads(m: Message, u: Update) {
    && (forall route, nexthop :: Announces(u, route, nexthop) <==> Offers(m, route, nexthop))
    && (forall route :: LastNexthop(u.announcements, route) == Offered(m, route))
    && (forall route :: route in u.withdrawals <==> Retracts(m, route))
  }

  lemma LastOfMore(announcements: seq<(seq<Route>, IpAddr)>, last: (seq<Route>, IpAddr), route: Route)
    ensures LastNexthop(announcements + [last], route) ==
              if route in last.0 then Some(last.1) else LastNexthop(announcements, route)
  {
    assert (announcements + [last])[..|announcements|] == announcements;
  }

  lemma {:induction false} FindsFirst(before: seq<Attribute>, a: Attribute, after: seq<Attribute>, kind: Attribute -> bool)
    requires (forall x :: x in before ==> !kind(x)) && kind(a)
    ensures Find(before + [a] + after, kind) == Some(a)
  {
    if before == [] {
      assert before + [a] + after == [a] + after;
    } else {
      FindsFirst(before[1..], a, after, kind);
      assert (before + [a] + after)[1..] == before[1..] + [a] + after;
    }
  }

  /** The first attribute of reachable routes offers its routes its nexthop, whatever else the message says. */
  lemma FirstReachOffers(m: Message, before: seq<Attribute>, routes: seq<Route>, nexthop: IpAddr, after: seq<Attribute>, route: Route)
    requires m.attributes == before + [MpReach(routes, nexthop)] + after && route in routes
    requires forall x :: x in before ==> !x.MpReach? && !x.MpReachOther?
    ensures Offered(m, route) == Some(nexthop) && Offers(m, route, nexthop)
  {
    FindsFirst(before, MpReach(routes, nexthop), after, IS_REACH);
  }

  lemma PlainNexthop(m: Message, before: seq<Attribute>, addr: Octets4, after: seq<Attribute>, route: Route)
    requires m.attributes == before + [NextHop(addr)] + after && route in m.nlri
    requires forall x :: x in before ==> !x.NextHop?
    requires Find(m.attributes, IS_REACH).Some? ==> Find(m.attributes, IS_REACH).value.MpReachOther?
    ensures Offered(m, route) == Some(V4(addr)) && Offers(m, route, V4(addr))
  {
    FindsFirst(before, NextHop(addr), after, IS_NEXT_HOP);
  }

  /** Without reachable routes in attributes the plain field and the first plain nexthop count. */
  lemma PlainOffers(m: Message, before: seq<Attribute>, addr: Octets4, after: seq<Attribute>, route: Route)
    requires m.attributes == before + [NextHop(addr)] + after && route in m.nlri
    requires forall x :: x in before ==> !x.NextHop?
    requires forall x :: x in m.attributes ==> !x.MpReach? && !x.MpReachOther?
    ensures Offered(m, route) == Some(V4(addr)) && Offers(m, route, V4(addr))
  {
    PlainNexthop(m, before, addr, after, route);
  }

  /** And so they do when the first such attribute is for another address family. */
  lemma OtherFamilyOffers(m: Message, before: seq<Attribute>, addr: Octets4, after: seq<Attribute>, route: Route,
                          first: seq<Attribute>, rest: seq<Attribute>)
    requires m.attributes == before + [NextHop(addr)] + after && route in m.nlri
    requires forall x :: x in before ==> !x.NextHop?
    requires m.attributes == first + [MpReachOther] + rest
    requires forall x :: x in first ==> !x.MpReach? && !x.MpReachOther?
    ensures Offered(m, route) == Some(V4(addr)) && Offers(m, route, V4(addr))
  {
    FindsFirst(first, MpReachOther, rest, IS_REACH);
    PlainNexthop(m, before, addr, after, route);
  }

  /** The first attribute of unreachable routes retracts its routes, and so does the plain field. */
  lemma FirstUnreachRetracts(m: Message, before: seq<Attribute>, routes: seq<Route>, after: seq<Attribute>, route: Route)
    requires m.attributes == before + [MpUnreach(routes)] + after
    requires forall x :: x in before ==> !x.MpUnreach? && !x.MpUnreachOther?
    ensures Retracts(m, route) <==> route in routes || route in m.withdrawn
  {
    FindsFirst(before, MpUnreach(routes), after, IS_UNREACH);
  }

  /** If that is for another address family, the plain field alone counts. */
  lemma OtherFamilyRetracts(m: Message, before: seq<Attribute>, after: seq<Attribute>, route: Route)
    requires m.attributes == before + [MpUnreachOther] + after
    requires forall x :: x in before ==> !x.MpUnreach? && !x.MpUnreachOther?
    ensures Retracts(m, route) <==> route in m.withdrawn
  {
    FindsFirst(before, MpUnreachOther, after, IS_UNREACH);
  }

  /** And so it does if there is none. */
  lemma PlainRetracts(m: Message, route: Route)
    requires forall x :: x in m.attributes ==> !x.MpUnreach? && !x.MpUnreachOther?
    ensures Retracts(m, route) <==> route in m.withdrawn
  {
  }

  /**
   * Reading a message: routes of the plain field go to the plain nexthop, without which the message
   * is refused; those of the first multiprotocol attribute go to its own.
   */
  method FromMessage(m: Message) returns (u: Option<Update>)
    ensures u.None? <==> m.nlri != [] && Find(m.attributes, IS_NEXT_HOP).None?
    ensures u.Some? ==> Reads(m, u.value)
  {
    var announcements: seq<(seq<Route>, IpAddr)> := [];
    var withdrawals: seq<Route> := [];
    if m.nlri != [] {
      var nextHop := FindFirst(m.attributes, IS_NEXT_HOP);
      if nextHop.None? {
        return None;
      }
      announcements := announcements + [(m.nlri, V4(nextHop.value.addr))];
    }
    if m.withdrawn != [] {
      withdrawals := withdrawals + m.withdrawn;
    }
    var reach := FindFirst(m.attributes, IS_REACH);
    ghost var plain := announcements;
    if reach.Some? && reach.value.MpReach? {
      announcements := announcements + [(reach.value.routes, reach.value.nexthop)];
    }
    var unreach := FindFirst(m.attributes, IS_UNREACH);
    if unreach.Some? && unreach.value.MpUnreach? {
      withdrawals := withdrawals + unreach.value.routes;
    }
    u := Some(Update(announcements, withdrawals));
    forall route
      ensures LastNexthop(announcements, route) == Offered(m, route)
    {
      if m.nlri != [] {
        LastOfMore([], plain[0], route);
        assert plain == [] + [plain[0]];
      }
      if reach.Some? && reach.value.MpReach? {
        LastOfMore(plain, (reach.value.routes, reach.value.nexthop), route);
      }
    }
  }

  // What an update means for the table

  ghost function Known(events: seq<Event>): map<(Nlri, PathId), IpAddr> {
    Meaning(OpsOf(events))
  }

  function KeyOf(route: Route): (Nlri, PathId) {
    (route.nlri, route.pathId)
  }

  lemma KnownAfter(events: seq<Event>, op: RibOp)
    ensures Known(events + [Routed(op)]) ==
              if op.Announce? then Known(events)[KeyOf(op.route) := op.nexthop] else Known(events) - {KeyOf(op.route)}
  {
    var more := events + [Routed(op)];
    assert more[..|more| - 1] == events;
    var ops := OpsOf(more);
    assert ops[..|ops| - 1] == OpsOf(events);
  }

  ghost function KeysOf(routes: seq<Route>): set<(Nlri, PathId)> {
    set r | r in routes :: KeyOf(r)
  }

  lemma KeysOfMore(routes: seq<Route>, last: Route)
    ensures KeysOf(routes + [last]) == KeysOf(routes) + {KeyOf(last)}
  {
  }

  lemma {:induction false} WithdrawnAll(before: seq<Event>, routes: seq<Route>, key: (Nlri, PathId))
    ensures var after := Known(before + Withdrawals(routes));
            && (key in after <==> key in Known(before) && key !in KeysOf(routes))
            && (key in after ==> after[key] == Known(before)[key])
    decreases |routes|
  {
    if routes == [] {
      assert before + Withdrawals(routes) == before;
    } else {
      var init, last := routes[..|routes| - 1], routes[|routes| - 1];
      WithdrawnAll(before, init, key);
      KeysOfMore(init, last);
      assert routes == init + [last];
      assert before + Withdrawals(routes) == (before + Withdrawals(init)) + [Routed(Withdraw(last))];
      KnownAfter(before + Withdrawals(init), Withdraw(last));
    }
  }

  /** What is known of a key after a step: a fresh nexthop, or what was known before. */
  ghost predicate Knows(before: seq<Event>, after: seq<Event>, route: Route, latest: Option<IpAddr>) {
    && (KeyOf(route) in Known(after) <==> latest.Some? || KeyOf(route) in Known(before))
    && (KeyOf(route) in Known(after) ==>
          Known(after)[KeyOf(route)] == if latest.Some? then latest.value else Known(before)[KeyOf(route)])
  }

  lemma {:induction false} AnnouncedAll(before: seq<Event>, routes: seq<Route>, nexthop: IpAddr, route: Route)
    ensures Knows(before, before + Announced(routes, nexthop), route, if route in routes then Some(nexthop) else None)
    decreases |routes|
  {
    if routes == [] {
      assert before + Announced(routes, nexthop) == before;
    } else {
      var init, last := routes[..|routes| - 1], routes[|routes| - 1];
      AnnouncedAll(before, init, nexthop, route);
      assert routes == init + [last];
      assert before + Announced(routes, nexthop) == (before + Announced(init, nexthop)) + [Routed(Announce(last, nexthop))];
      KnownAfter(before + Announced(init, nexthop), Announce(last, nexthop));
    }
  }

  lemma KnowsTransitive(first: seq<Event>, mid: seq<Event>, last: seq<Event>, route: Route, x: Option<IpAddr>, y: Option<IpAddr>)
    requires Knows(first, mid, route, x) && Knows(mid, last, route, y)
    ensures Knows(first, last, route, if y.Some? then y else x)
  {
  }

  lemma {:induction false} AnnouncementsAll(before: seq<Event>, announcements: seq<(seq<Route>, IpAddr)>, route: Route)
    ensures Knows(before, before + Announcements(announcements), route, LastNexthop(announcements, route))
    decreases |announcements|
  {
    if announcements == [] {
      assert before + Announcements(announcements) == before;
    } else {
      var init, last := announcements[..|announcements| - 1], announcements[|announcements| - 1];
      var mid := before + Announcements(init);
      AnnouncementsAll(before, init, route);
      AnnouncedAll(mid, last.0, last.1, route);
      KnowsTransitive(before, mid, mid + Announced(last.0, last.1), route, LastNexthop(init, route),
                      if route in last.0 then Some(last.1) else None);
      assert before + Announcements(announcements) == mid + Announced(last.0, last.1);
    }
  }

  lemma SameRoute(routes: seq<Route>, route: Route)
    ensures KeyOf(route) in KeysOf(routes) <==> route in routes
  {
    forall r | KeyOf(r) == KeyOf(route)
      ensures r == route
    {
    }
  }

  /**
   * What one update leaves known: nothing it withdraws, even if it announces it as well; else the
   * nexthop it announces last; else what was known before.
   */
  lemma UpdateMeans(before: seq<Event>, u: Update, route: Route)
    ensures var after := Known(before + (Announcements(u.announcements) + Withdrawals(u.withdrawals)));
            var key, latest := KeyOf(route), LastNexthop(u.announcements, route);
            && (key in after <==> route !in u.withdrawals && (latest.Some? || key in Known(before)))
            && (key in after ==> after[key] == if latest.Some? then latest.value else Known(before)[key])
  {
    var announced := before + Announcements(u.announcements);
    assert before + (Announcements(u.announcements) + Withdrawals(u.withdrawals)) == announced + Withdrawals(u.withdrawals);
    AnnouncementsAll(before, u.announcements, route);
    WithdrawnAll(announced, u.withdrawals, KeyOf(route));
    SameRoute(u.withdrawals, route);
  }

  /**
   * From the message to the table: after one message a route is known unless the message withdraws
   * it; its nexthop is the one of the first multiprotocol attribute if that names the route, else
   * the plain one if the plain field does, else what it was.
   */
  lemma MessageMeans(before: seq<Event>, m: Message, u: Update, route: Route)
    requires Reads(m, u)
    ensures var after := Known(before + (Announcements(u.announcements) + Withdrawals(u.withdrawals)));
            var key, latest := KeyOf(route), Offered(m, route);
            && (key in after <==> !Retracts(m, route) && (latest.Some? || key in Known(before)))
            && (key in after ==> after[key] == if latest.Some? then latest.value else Known(before)[key])
  {
    UpdateMeans(before, u, route);
  }
}
