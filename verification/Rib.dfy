/** The routing information base: paths per prefix, replaced and withdrawn by path identifier. */
module Rib {
  import opened Addresses

  type PathId = Option<nat>
  datatype Route = Route(pathId: PathId, nlri: Nlri)
  datatype Path = Path(pathId: PathId, nexthop: IpAddr)
  type Table = map<Nlri, seq<Path>>

  /** The paths that do not carry the given identifier, in their old order. */
  function Retained(paths: seq<Path>, pathId: PathId): seq<Path> {
    if paths == [] then [] else
      var init, last := paths[..|paths| - 1], paths[|paths| - 1];
      if last.pathId != pathId then Retained(init, pathId) + [last] else Retained(init, pathId)
  }

  function PathsOf(t: Table, nlri: Nlri): seq<Path> {
    if nlri in t then t[nlri] else []
  }

  function Inserted(t: Table, route: Route, nexthop: IpAddr): Table {
    t[route.nlri := Retained(PathsOf(t, route.nlri), route.pathId) + [Path(route.pathId, nexthop)]]
  }

  function Removed(t: Table, route: Route): Table {
    var rest := Retained(PathsOf(t, route.nlri), route.pathId);
    if route.nlri !in t then t
    else if rest == [] then t - {route.nlri}
    else t[route.nlri := rest]
  }

  function Nexthops(t: Table, nlri: Nlri): seq<IpAddr> {
    var paths := PathsOf(t, nlri);
    seq(|paths|, i requires 0 <= i < |paths| => paths[i].nexthop)
  }

  class RoutingTable {
    var table: Table

    constructor ()
      ensures table == map[]
    {
      table := map[];
    }

    method Insert(route: Route, nexthop: IpAddr)
      modifies this
      ensures table == Inserted(old(table), route, nexthop)
    {
      var entries := if route.nlri in table then table[route.nlri] else [];
      entries := RetainOthers(entries, route.pathId);
      entries := entries + [Path(route.pathId, nexthop)];
      table := table[route.nlri := entries];
    }

    method Remove(route: Route)
      modifies this
      ensures table == Removed(old(table), route)
    {
      if route.nlri !in table {
        return;
      }
      var entries := RetainOthers(table[route.nlri], route.pathId);
      table := table[route.nlri := entries];
      if entries == [] {
        table := table - {route.nlri};
        assert table == old(table) - {route.nlri};
      }
    }
  }

  method RetainOthers(paths: seq<Path>, pathId: PathId) returns (kept: seq<Path>)
    ensures kept == Retained(paths, pathId)
  {
    kept := [];
    for i := 0 to |paths|
      invariant kept == Retained(paths[..i], pathId)
    {
      assert paths[..i + 1][..i] == paths[..i];
      if paths[i].pathId != pathId {
        kept := kept + [paths[i]];
      }
    }
    assert paths[..|paths|] == paths;
  }

  // Refinement of a plain map

  /** No prefix without paths, and no identifier twice under one prefix. */
  ghost predicate Valid(t: Table) {
    forall n :: n in t ==> t[n] != [] && OnePerId(t[n])
  }

  ghost predicate OnePerId(paths: seq<Path>) {
    forall i, j :: 0 <= i < j < |paths| ==> paths[i].pathId != paths[j].pathId
  }

  ghost predicate Holds(t: Table, n: Nlri, id: PathId, nexthop: IpAddr) {
    Path(id, nexthop) in PathsOf(t, n)
  }

  /** The table holds exactly the entries of a map from prefix and identifier to nexthop. */
  ghost predicate Refines(t: Table, m: map<(Nlri, PathId), IpAddr>) {
    forall n, id, nexthop :: Holds(t, n, id, nexthop) <==> (n, id) in m && m[(n, id)] == nexthop
  }

  lemma {:induction false} RetainedMembers(paths: seq<Path>, pathId: PathId)
    ensures forall p :: p in Retained(paths, pathId) <==> p in paths && p.pathId != pathId
    ensures OnePerId(paths) ==> OnePerId(Retained(paths, pathId))
  {
    if paths == [] {
    } else {
      var init, last := paths[..|paths| - 1], paths[|paths| - 1];
      RetainedMembers(init, pathId);
      assert paths == init + [last];
    }
  }

  lemma HoldsInserted(t: Table, route: Route, latest: IpAddr, n: Nlri, id: PathId, nexthop: IpAddr)
    ensures Holds(Inserted(t, route, latest), n, id, nexthop) <==>
              if n == route.nlri && id == route.pathId then nexthop == latest else Holds(t, n, id, nexthop)
  {
    RetainedMembers(PathsOf(t, route.nlri), route.pathId);
  }

  lemma HoldsRemoved(t: Table, route: Route, n: Nlri, id: PathId, nexthop: IpAddr)
    ensures Holds(Removed(t, route), n, id, nexthop) <==>
              Holds(t, n, id, nexthop) && !(n == route.nlri && id == route.pathId)
  {
    RetainedMembers(PathsOf(t, route.nlri), route.pathId);
  }

  lemma StaysValid(t: Table, route: Route, nexthop: IpAddr)
    requires Valid(t)
    ensures Valid(Inserted(t, route, nexthop)) && Valid(Removed(t, route))
  {
    RetainedMembers(PathsOf(t, route.nlri), route.pathId);
  }

  lemma InsertRefines(t: Table, m: map<(Nlri, PathId), IpAddr>, route: Route, latest: IpAddr)
    requires Refines(t, m)
    ensures Refines(Inserted(t, route, latest), m[(route.nlri, route.pathId) := latest])
  {
    forall n, id, nexthop {
      HoldsInserted(t, route, latest, n, id, nexthop);
    }
  }

  lemma RemoveRefines(t: Table, m: map<(Nlri, PathId), IpAddr>, route: Route)
    requires Refines(t, m)
    ensures Refines(Removed(t, route), m - {(route.nlri, route.pathId)})
  {
    forall n, id, nexthop {
      HoldsRemoved(t, route, n, id, nexthop);
    }
  }

  datatype RibOp = Announce(route: Route, nexthop: IpAddr) | Withdraw(route: Route)

  function Applied(t: Table, op: RibOp): Table {
    match op
    case Announce(route, nexthop) => Inserted(t, route, nexthop)
    case Withdraw(route) => Removed(t, route)
  }

  ghost function AfterOps(ops: seq<RibOp>): Table {
    if ops == [] then map[] else Applied(AfterOps(ops[..|ops| - 1]), ops[|ops| - 1])
  }

  /** What the operations mean: last announcement wins, withdrawals erase. */
  ghost function Meaning(ops: seq<RibOp>): map<(Nlri, PathId), IpAddr> {
    if ops == [] then map[] else
      var m, key := Meaning(ops[..|ops| - 1]), (ops[|ops| - 1].route.nlri, ops[|ops| - 1].route.pathId);
      if ops[|ops| - 1].Announce? then m[key := ops[|ops| - 1].nexthop] else m - {key}
  }

  /** Over every sequence of operations the table refines the plain map. */
  lemma {:induction false} RibRefinesMap(ops: seq<RibOp>)
    ensures Valid(AfterOps(ops)) && Refines(AfterOps(ops), Meaning(ops))
  {
    if ops == [] {
    } else {
      var init, op := ops[..|ops| - 1], ops[|ops| - 1];
      RibRefinesMap(init);
      StaysValid(AfterOps(init), op.route, if op.Announce? then op.nexthop else V4([0, 0, 0, 0]));
      match op
      case Announce(route, nexthop) => InsertRefines(AfterOps(init), Meaning(init), route, nexthop);
      case Withdraw(route) => RemoveRefines(AfterOps(init), Meaning(init), route);
    }
  }

  // The order of the paths

  /** When the path was announced last, counting operations from zero. */
  ghost function AnnouncedAt(ops: seq<RibOp>, n: Nlri, id: PathId): int {
    if ops == [] then -1
    else if ops[|ops| - 1].Announce? && ops[|ops| - 1].route == Route(id, n) then |ops| - 1
    else AnnouncedAt(ops[..|ops| - 1], n, id)
  }

  /** Paths are listed by age of their last announcement, oldest first. */
  ghost predicate ByAge(paths: seq<Path>, ops: seq<RibOp>, n: Nlri) {
    forall i, j :: 0 <= i < j < |paths| ==> AnnouncedAt(ops, n, paths[i].pathId) < AnnouncedAt(ops, n, paths[j].pathId)
  }

  lemma {:induction false} AnnouncedBefore(ops: seq<RibOp>, n: Nlri, id: PathId)
    ensures -1 <= AnnouncedAt(ops, n, id) < |ops|
  {
    if ops == [] {
    } else {
      AnnouncedBefore(ops[..|ops| - 1], n, id);
    }
  }

  lemma {:induction false} RetainedByAge(paths: seq<Path>, ops: seq<RibOp>, n: Nlri, id: PathId)
    requires ByAge(paths, ops, n)
    ensures ByAge(Retained(paths, id), ops, n)
  {
    if paths == [] {
    } else {
      var init, last := paths[..|paths| - 1], paths[|paths| - 1];
      RetainedByAge(init, ops, n, id);
      RetainedMembers(init, id);
      forall p | p in Retained(init, id)
        ensures AnnouncedAt(ops, n, p.pathId) < AnnouncedAt(ops, n, last.pathId)
      {
        var i :| 0 <= i < |init| && init[i] == p;
        assert paths[i] == p;
      }
    }
  }

  lemma AgesStay(ops: seq<RibOp>, paths: seq<Path>, n: Nlri)
    requires ops != [] && ByAge(paths, ops[..|ops| - 1], n)
    requires forall p :: p in paths ==> ops[|ops| - 1].route != Route(p.pathId, n)
    ensures ByAge(paths, ops, n)
  {
    assert forall p :: p in paths ==> AnnouncedAt(ops, n, p.pathId) == AnnouncedAt(ops[..|ops| - 1], n, p.pathId);
  }

  /** Over every sequence of operations the paths of a prefix are listed oldest announcement first. */
  lemma {:induction false} OldestFirst(ops: seq<RibOp>, n: Nlri)
    ensures ByAge(PathsOf(AfterOps(ops), n), ops, n)
  {
    if ops == [] {
    } else {
      var init, op := ops[..|ops| - 1], ops[|ops| - 1];
      var before := PathsOf(AfterOps(init), n);
      OldestFirst(init, n);
      if op.route.nlri != n {
        AgesStay(ops, before, n);
        assert PathsOf(AfterOps(ops), n) == before;
      } else {
        var kept := Retained(before, op.route.pathId);
        RetainedByAge(before, init, n, op.route.pathId);
        RetainedMembers(before, op.route.pathId);
        AgesStay(ops, kept, n);
        NewestLast(ops, kept, n);
      }
    }
  }

  lemma NewestLast(ops: seq<RibOp>, kept: seq<Path>, n: Nlri)
    requires ops != [] && ops[|ops| - 1].route.nlri == n && ByAge(kept, ops, n)
    requires forall p :: p in kept ==> p.pathId != ops[|ops| - 1].route.pathId
    ensures ops[|ops| - 1].Announce? ==>
              ByAge(kept + [Path(ops[|ops| - 1].route.pathId, ops[|ops| - 1].nexthop)], ops, n)
  {
    forall p | p in kept
      ensures AnnouncedAt(ops, n, p.pathId) < |ops| - 1
    {
      AnnouncedBefore(ops[..|ops| - 1], n, p.pathId);
    }
  }
}
