/** FIB entries: how user space packs them, and how the kernel draws a nexthop from them. */
module Fib {
  import opened Addresses
  import opened Vectors
  import opened Sorting
  import opened Apportionment

  const MAX_NEXTHOPS: nat := 4
  const UNSPECIFIED: Octets16 := [0, 0, 0, 0, 0, 0, 0, 0, 0, 0, 0, 0, 0, 0, 0, 0]

  datatype FibError = NoNexthops | TooManyNexthops | WrongWeightSum | NoWeight
  datatype Result<+T, +E> = Ok(value: T) | Err(error: E)

  datatype FibEntry = FibEntry(count: nat, nexthops: seq<IpAddr>, weights: seq<nat>)

  /** The entry as it lies in the kernel's table. */
  datatype CFibEntry = CFibEntry(matched: CNlri, count: nat, nexthops: seq<Octets16>, weights: seq<nat>)

  // Octets in dictionary order

  predicate OctetsLe(a: seq<Byte>, b: seq<Byte>) {
    a == [] || (b != [] && (a[0] < b[0] || (a[0] == b[0] && OctetsLe(a[1..], b[1..]))))
  }

  lemma {:induction false} OctetsTotal(a: seq<Byte>, b: seq<Byte>)
    ensures OctetsLe(a, b) || OctetsLe(b, a)
    ensures OctetsLe(a, b) && OctetsLe(b, a) ==> a == b
  {
    if a == [] || b == [] {
    } else {
      OctetsTotal(a[1..], b[1..]);
      assert a == [a[0]] + a[1..] && b == [b[0]] + b[1..];
    }
  }

  lemma {:induction false} OctetsTransitive(a: seq<Byte>, b: seq<Byte>, c: seq<Byte>)
    requires OctetsLe(a, b) && OctetsLe(b, c)
    ensures OctetsLe(a, c)
  {
    if a == [] {
    } else if a[0] == b[0] == c[0] {
      OctetsTransitive(a[1..], b[1..], c[1..]);
    }
  }

  /** Dictionary order: a prefix comes first, and otherwise the first octet that differs decides. */
  lemma {:induction false} OctetsLeExactly(a: seq<Byte>, b: seq<Byte>)
    ensures OctetsLe(a, b) <==> a <= b || exists k :: 0 <= k < |a| && k < |b| && a[..k] == b[..k] && a[k] < b[k]
  {
    if a == [] || b == [] {
    } else {
      var s, t := a[1..], b[1..];
      OctetsLeExactly(s, t);
      if a[0] == b[0] {
        assert a == [a[0]] + s && b == [b[0]] + t;
        if k :| 0 <= k < |s| && k < |t| && s[..k] == t[..k] && s[k] < t[k] {
          assert a[..k + 1] == [a[0]] + s[..k] && b[..k + 1] == [b[0]] + t[..k];
          assert a[k + 1] < b[k + 1];
        }
        if k :| 0 <= k < |a| && k < |b| && a[..k] == b[..k] && a[k] < b[k] {
          assert s[..k - 1] == a[..k][1..] && t[..k - 1] == b[..k][1..];
          assert s[k - 1] < t[k - 1];
        }
      } else {
        assert a[..0] == b[..0];
        if k :| 0 <= k < |a| && k < |b| && a[..k] == b[..k] && a[k] < b[k] {
          assert k > 0 ==> a[0] == a[..k][0] == b[..k][0];
        }
      }
    }
  }

  function ByOctets(): (Weighted<IpAddr>, Weighted<IpAddr>) -> bool {
    (a: Weighted<IpAddr>, b: Weighted<IpAddr>) => OctetsLe(ToOctets(a.nexthop), ToOctets(b.nexthop))
  }

  lemma ByOctetsIsOrder()
    ensures TotalOrder(ByOctets())
  {
    var le := ByOctets();
    forall a: Weighted<IpAddr>, b: Weighted<IpAddr>
      ensures le(a, b) || le(b, a)
    {
      OctetsTotal(ToOctets(a.nexthop), ToOctets(b.nexthop));
    }
    forall a: Weighted<IpAddr>, b: Weighted<IpAddr>, c: Weighted<IpAddr> | le(a, b) && le(b, c)
      ensures le(a, c)
    {
      OctetsTransitive(ToOctets(a.nexthop), ToOctets(b.nexthop), ToOctets(c.nexthop));
    }
  }

  // Building an entry

  /** What is wrong with a list of weighted nexthops, checked in this order. */
  function Defect(ws: seq<Weighted<IpAddr>>): Option<FibError> {
    if ws == [] then Some(NoNexthops)
    else if |ws| > MAX_NEXTHOPS then Some(TooManyNexthops)
    else if SumInt(WeightsOf(ws)) != WEIGHT_DENOMINATOR then Some(WrongWeightSum)
    else if exists w :: w in ws && w.weight == 0 then Some(NoWeight)
    else None
  }

  /** A list makes an entry exactly when it has one to four nexthops, each with some of the 10,000 tickets. */
  lemma DefectExactly(ws: seq<Weighted<IpAddr>>)
    ensures Defect(ws) == None <==>
              1 <= |ws| <= 4 && SumInt(WeightsOf(ws)) == 10000 && forall i :: 0 <= i < |ws| ==> ws[i].weight > 0
    ensures Defect(ws) == Some(NoNexthops) <==> |ws| == 0
    ensures Defect(ws) == Some(TooManyNexthops) <==> |ws| > 4
    ensures Defect(ws) == Some(WrongWeightSum) <==> 1 <= |ws| <= 4 && SumInt(WeightsOf(ws)) != 10000
  {
    assert (exists w :: w in ws && w.weight == 0) <==> (exists i :: 0 <= i < |ws| && ws[i].weight == 0);
  }

  /** The weighted nexthops an entry lists. */
  function Listed(e: FibEntry): seq<Weighted<IpAddr>>
    requires e.count <= |e.nexthops| && e.count <= |e.weights|
  {
    seq(e.count, i requires 0 <= i < e.count => Weighted(e.nexthops[i], e.weights[i]))
  }

  ghost predicate WellFormed(e: FibEntry) {
    && 0 < e.count <= MAX_NEXTHOPS == |e.nexthops| == |e.weights|
    && Defect(Listed(e)) == None
    && SortedBy(Listed(e), ByOctets())
    && (forall i :: e.count <= i < MAX_NEXTHOPS ==> e.nexthops[i] == V6(UNSPECIFIED) && e.weights[i] == 0)
  }

  /** Filling the fixed slots of an entry. */
  method Padded(sorted: seq<Weighted<IpAddr>>) returns (e: FibEntry)
    requires |sorted| <= MAX_NEXTHOPS
    ensures e.count == |sorted| && |e.nexthops| == |e.weights| == MAX_NEXTHOPS && Listed(e) == sorted
    ensures forall i :: e.count <= i < MAX_NEXTHOPS ==> e.nexthops[i] == V6(UNSPECIFIED) && e.weights[i] == 0
  {
    var packedNexthops: seq<IpAddr> := seq(MAX_NEXTHOPS, _ => V6(UNSPECIFIED));
    var packedWeights: seq<nat> := seq(MAX_NEXTHOPS, _ => 0);
    for i := 0 to |sorted|
      invariant |packedNexthops| == |packedWeights| == MAX_NEXTHOPS
      invariant forall j :: 0 <= j < i ==> packedNexthops[j] == sorted[j].nexthop && packedWeights[j] == sorted[j].weight
      invariant forall j :: i <= j < MAX_NEXTHOPS ==> packedNexthops[j] == V6(UNSPECIFIED) && packedWeights[j] == 0
    {
      packedNexthops := packedNexthops[i := sorted[i].nexthop];
      packedWeights := packedWeights[i := sorted[i].weight];
    }
    e := FibEntry(|sorted|, packedNexthops, packedWeights);
    assert Listed(e) == sorted;
  }

  method NewFibEntry(ws: seq<Weighted<IpAddr>>) returns (r: Result<FibEntry, FibError>)
    ensures r.Err? ==> Defect(ws) == Some(r.error)
    ensures r.Ok? ==> Defect(ws) == None && WellFormed(r.value) && multiset(Listed(r.value)) == multiset(ws)
  {
    if ws == [] {
      return Err(NoNexthops);
    }
    if |ws| > MAX_NEXTHOPS {
      return Err(TooManyNexthops);
    }
    var weightSum := 0;
    for i := 0 to |ws|
      invariant weightSum == SumInt(WeightsOf(ws)[..i])
    {
      SumIntPrefix(WeightsOf(ws), i);
      weightSum := weightSum + ws[i].weight;
    }
    assert WeightsOf(ws)[..|ws|] == WeightsOf(ws);
    if weightSum != WEIGHT_DENOMINATOR {
      return Err(WrongWeightSum);
    }
    if exists w :: w in ws && w.weight == 0 {
      return Err(NoWeight);
    }
    var sorted := Sort(ws, ByOctets());
    ByOctetsIsOrder();
    SortSorts(ws, ByOctets());
    var e := Padded(sorted);
    DefectPermuted(ws, sorted);
    r := Ok(e);
  }

  lemma {:induction false} WeightSumPermuted(ws: seq<Weighted<IpAddr>>, vs: seq<Weighted<IpAddr>>)
    requires multiset(ws) == multiset(vs)
    ensures SumInt(WeightsOf(ws)) == SumInt(WeightsOf(vs))
    decreases |ws|
  {
    if ws == [] {
      assert |multiset(vs)| == 0;
    } else {
      assert ws[0] in multiset(vs);
      var j :| 0 <= j < |vs| && vs[j] == ws[0];
      MultisetWithout(ws, 0);
      MultisetWithout(vs, j);
      WeightSumPermuted(Without(ws, 0), Without(vs, j));
      WeightSumWithout(ws, 0);
      WeightSumWithout(vs, j);
    }
  }

  lemma {:induction false} WeightSumWithout(ws: seq<Weighted<IpAddr>>, j: nat)
    requires j < |ws|
    ensures SumInt(WeightsOf(ws)) == ws[j].weight + SumInt(WeightsOf(Without(ws, j)))
  {
    assert WeightsOf(ws)[1..] == WeightsOf(ws[1..]);
    if j == 0 {
      assert Without(ws, 0) == ws[1..];
    } else {
      WeightSumWithout(ws[1..], j - 1);
      assert Without(ws, j)[1..] == Without(ws[1..], j - 1);
      assert WeightsOf(Without(ws, j))[1..] == WeightsOf(Without(ws[1..], j - 1));
    }
  }

  lemma DefectPermuted(ws: seq<Weighted<IpAddr>>, vs: seq<Weighted<IpAddr>>)
    requires multiset(ws) == multiset(vs)
    ensures Defect(ws) == Defect(vs)
  {
    assert |multiset(ws)| == |multiset(vs)|;
    WeightSumPermuted(ws, vs);
    assert forall w :: w in ws ==> w in multiset(ws);
    assert forall w :: w in vs ==> w in multiset(vs);
  }

  /**
   * The order of the input does not matter: with nexthops that differ as octets, the same
   * weighted nexthops always give the same entry.
   */
  lemma EntryIsDeterministic(e: FibEntry, e': FibEntry)
    requires WellFormed(e) && WellFormed(e') && multiset(Listed(e)) == multiset(Listed(e'))
    requires forall x, y :: x in Listed(e) && y in Listed(e) && ToOctets(x.nexthop) == ToOctets(y.nexthop) ==> x == y
    ensures e == e'
  {
    var s, t := Listed(e), Listed(e');
    forall x, y | x in s && y in s && ByOctets()(x, y) && ByOctets()(y, x)
      ensures x == y
    {
      OctetsTotal(ToOctets(x.nexthop), ToOctets(y.nexthop));
    }
    SortedUnique(s, t, ByOctets());
    assert |s| == |t|;
    forall i | 0 <= i < MAX_NEXTHOPS
      ensures e.nexthops[i] == e'.nexthops[i] && e.weights[i] == e'.weights[i]
    {
      if i < e.count {
        assert s[i] == t[i];
      }
    }
    assert e.nexthops == e'.nexthops && e.weights == e'.weights;
  }

  /** Converting an entry for the kernel. */
  method Pack(nlri: Nlri, e: FibEntry) returns (c: CFibEntry)
    requires |e.nexthops| == |e.weights| == MAX_NEXTHOPS
    ensures c == Packed(nlri, e)
  {
    var nexthops: seq<Octets16> := seq(MAX_NEXTHOPS, _ => UNSPECIFIED);
    for i := 0 to MAX_NEXTHOPS
      invariant |nexthops| == MAX_NEXTHOPS
      invariant forall j :: 0 <= j < i ==> nexthops[j] == ToOctets(e.nexthops[j])
    {
      nexthops := nexthops[i := ToOctets(e.nexthops[i])];
    }
    c := CFibEntry(ToKey(nlri), e.count, nexthops, e.weights);
    assert nexthops == Packed(nlri, e).nexthops;
  }

  function Packed(nlri: Nlri, e: FibEntry): CFibEntry {
    CFibEntry(ToKey(nlri), e.count, seq(|e.nexthops|, i requires 0 <= i < |e.nexthops| => ToOctets(e.nexthops[i])), e.weights)
  }

  /** Slots behind the last nexthop hold the address of sixteen zeros and no tickets. */
  lemma PaddingIsZero(nlri: Nlri, e: FibEntry, i: nat, k: nat)
    requires WellFormed(e) && e.count <= i < 4 && k < 16
    ensures var c := Packed(nlri, e); |c.nexthops| == |c.weights| == 4 && c.nexthops[i][k] == 0 && c.weights[i] == 0
  {
  }

  // Drawing a nexthop in the kernel

  datatype Draw = Selected(nexthop: Octets16) | InvalidNexthopCount | ZeroWeight | InvalidWeightSum

  /** The tickets that belong to slot `k`. */
  predicate InSlot(weights: seq<nat>, ticket: nat, k: nat)
    requires k < |weights|
  {
    SumInt(weights[..k]) <= ticket < SumInt(weights[..k + 1])
  }

  ghost predicate Drawable(c: CFibEntry) {
    && |c.nexthops| == |c.weights| == MAX_NEXTHOPS
    && 0 < c.count <= MAX_NEXTHOPS
    && (forall i :: 0 <= i < c.count ==> c.weights[i] != 0)
    && SumInt(c.weights[..c.count]) == WEIGHT_DENOMINATOR
  }

  /** The arrays of an entry have the kernel's fixed size. */
  predicate Sized(c: CFibEntry) {
    |c.nexthops| == |c.weights| == MAX_NEXTHOPS
  }

  /** `r` is what the kernel makes of a ticket: the nexthop of its slot, or the first check that fails. */
  ghost predicate Draws(c: CFibEntry, ticket: nat, r: Draw)
    requires Sized(c)
  {
    && (r.Selected? <==> Drawable(c))
    && (r.Selected? ==> exists k :: 0 <= k < c.count && InSlot(c.weights, ticket, k) && r.nexthop == c.nexthops[k])
    && (r.InvalidNexthopCount? <==> c.count == 0 || c.count > MAX_NEXTHOPS)
    && (r.ZeroWeight? <==> 0 < c.count <= MAX_NEXTHOPS && exists i :: 0 <= i < c.count && c.weights[i] == 0)
  }

  method SelectNexthop(c: CFibEntry, random: nat) returns (r: Draw)
    requires Sized(c)
    ensures Draws(c, random % WEIGHT_DENOMINATOR, r)
  {
    if c.count == 0 || c.count > MAX_NEXTHOPS {
      return InvalidNexthopCount;
    }
    var ticket := random % WEIGHT_DENOMINATOR;
    var totalWeight := 0;
    var selected := false;
    var zeroWeight := false;
    var nexthop := UNSPECIFIED;
    ghost var slot := 0;
    for i := 0 to MAX_NEXTHOPS
      invariant totalWeight == SumInt(c.weights[..if i < c.count then i else c.count])
      invariant zeroWeight <==> exists j :: 0 <= j < i && j < c.count && c.weights[j] == 0
      invariant selected <==> ticket < totalWeight
      invariant selected ==> slot < c.count && InSlot(c.weights, ticket, slot) && nexthop == c.nexthops[slot]
    {
      if i < c.count {
        var weight := c.weights[i];
        SumIntPrefix(c.weights, i);
        if weight == 0 {
          zeroWeight := true;
          continue;
        }
        totalWeight := totalWeight + weight;
        if !selected && ticket < totalWeight {
          nexthop := c.nexthops[i];
          selected := true;
          slot := i;
        }
      }
    }
    if zeroWeight {
      return ZeroWeight;
    }
    if totalWeight != WEIGHT_DENOMINATOR {
      return InvalidWeightSum;
    }
    return Selected(nexthop);
  }

  lemma {:induction false} SumIntMonotone(x: seq<nat>, i: nat, j: nat)
    requires i <= j <= |x|
    ensures SumInt(x[..i]) <= SumInt(x[..j])
    decreases j - i
  {
    if i == j {
    } else {
      SumIntMonotone(x, i, j - 1);
      SumIntPrefix(x, j - 1);
    }
  }

  ghost function Interval(lo: nat, hi: nat): (r: set<nat>)
    ensures forall t :: t in r <==> lo <= t < hi
    ensures |r| == if lo < hi then hi - lo else 0
  {
    if lo >= hi then {} else Interval(lo, hi - 1) + {hi - 1}
  }

  ghost function Tickets(c: CFibEntry, k: nat): set<nat>
    requires k < |c.weights|
  {
    set t: nat | 0 <= t < WEIGHT_DENOMINATOR && InSlot(c.weights, t, k)
  }

  /** Exactly `weights[k]` of all tickets fall into slot `k`, and every ticket falls into exactly one. */
  lemma TicketsPerSlot(c: CFibEntry, k: nat)
    requires Drawable(c) && k < c.count
    ensures |Tickets(c, k)| == c.weights[k]
    ensures forall j :: 0 <= j < c.count && j != k ==> Tickets(c, k) !! Tickets(c, j)
  {
    var lo, hi := SumInt(c.weights[..k]), SumInt(c.weights[..k + 1]);
    SumIntMonotone(c.weights, 0, k);
    SumIntMonotone(c.weights, k + 1, c.count);
    SumIntPrefix(c.weights, k);
    assert Tickets(c, k) == Interval(lo, hi);
    forall j | 0 <= j < c.count && j != k
      ensures Tickets(c, k) !! Tickets(c, j)
    {
      SumIntMonotone(c.weights, if j < k then j + 1 else k + 1, if j < k then k else j);
    }
  }

  /** Entries built by user space pass every check of the kernel. */
  lemma PackedIsDrawable(nlri: Nlri, e: FibEntry)
    requires WellFormed(e)
    ensures Drawable(Packed(nlri, e))
  {
    assert WeightsOf(Listed(e)) == e.weights[..e.count];
    forall i | 0 <= i < e.count
      ensures e.weights[i] != 0
    {
      assert Listed(e)[i] in Listed(e);
    }
  }
}
