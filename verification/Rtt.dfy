/** The sliding window of TCP round-trip samples, pruned as it goes. */
module RttWindows {
  import opened Addresses
  import opened Enumerations

  /** A sample counts for ten seconds. */
  const AGGREGATION_WINDOW_NS: nat := 10 * 1_000_000_000

  datatype Sample = Sample(tsNs: nat, srttUs: nat, rttMin: nat)
  datatype RttEvent = RttEvent(matched: CNlri, nexthop: Octets16, sample: Sample)

  /** A summary of the samples of one prefix and nexthop. */
  datatype Window = Window(samples: nat, avgSrttUs: nat, maxSrttUs: nat, minRttMin: nat)

  type Samples = map<Nlri, map<IpAddr, seq<Sample>>>

  predicate Fresh(x: Sample, now: nat) {
    (if now > x.tsNs then now - x.tsNs else 0) <= AGGREGATION_WINDOW_NS
  }

  function Kept(xs: seq<Sample>, now: nat): seq<Sample> {
    if xs == [] then [] else
      var init, last := xs[..|xs| - 1], xs[|xs| - 1];
      if Fresh(last, now) then Kept(init, now) + [last] else Kept(init, now)
  }

  function KeptByNexthop(m: map<IpAddr, seq<Sample>>, now: nat): map<IpAddr, seq<Sample>> {
    map nh | nh in m && Kept(m[nh], now) != [] :: Kept(m[nh], now)
  }

  function Pruned(s: Samples, now: nat): Samples {
    map n | n in s && KeptByNexthop(s[n], now) != map[] :: KeptByNexthop(s[n], now)
  }

  function ByNexthop(s: Samples, n: Nlri): map<IpAddr, seq<Sample>> {
    if n in s then s[n] else map[]
  }

  function Get(s: Samples, n: Nlri, nh: IpAddr): seq<Sample> {
    if nh in ByNexthop(s, n) then ByNexthop(s, n)[nh] else []
  }

  function Pushed(s: Samples, n: Nlri, nh: IpAddr, x: Sample): Samples {
    s[n := ByNexthop(s, n)[nh := Get(s, n, nh) + [x]]]
  }

  function Observed(s: Samples, e: RttEvent, now: nat): Samples {
    if !Fresh(e.sample, now) then s
    else match FromKey(e.matched)
      case None => Pruned(s, now)
      case Some(n) => Pushed(Pruned(s, now), n, FromOctets(e.nexthop), e.sample)
  }

  // Summaries

  function SumSrtt(xs: seq<Sample>): nat {
    if xs == [] then 0 else SumSrtt(xs[..|xs| - 1]) + xs[|xs| - 1].srttUs
  }

  ghost predicate IsMaxSrtt(high: nat, xs: seq<Sample>) {
    (exists x :: x in xs && x.srttUs == high) && (forall x :: x in xs ==> x.srttUs <= high)
  }

  ghost predicate IsMinRtt(low: nat, xs: seq<Sample>) {
    (exists x :: x in xs && x.rttMin == low) && (forall x :: x in xs ==> low <= x.rttMin)
  }

  ghost predicate Summarises(w: Window, xs: seq<Sample>) {
    && w.samples == |xs|
    && (xs == [] ==> w == Window(0, 0, 0, 0))
    && (xs != [] ==> w.avgSrttUs == SumSrtt(xs) / |xs| && IsMaxSrtt(w.maxSrttUs, xs) && IsMinRtt(w.minRttMin, xs))
  }

  method AddSrtt(xs: seq<Sample>) returns (sum: nat)
    ensures sum == SumSrtt(xs)
  {
    sum := 0;
    for i := 0 to |xs|
      invariant sum == SumSrtt(xs[..i])
    {
      assert xs[..i + 1][..i] == xs[..i];
      sum := sum + xs[i].srttUs;
    }
    assert xs[..|xs|] == xs;
  }

  method MaxSrtt(xs: seq<Sample>) returns (high: nat)
    requires xs != []
    ensures IsMaxSrtt(high, xs)
  {
    high := xs[0].srttUs;
    for i := 1 to |xs|
      invariant exists x :: x in xs && x.srttUs == high
      invariant forall j :: 0 <= j < i ==> xs[j].srttUs <= high
    {
      if xs[i].srttUs > high {
        high := xs[i].srttUs;
      }
    }
  }

  method MinRtt(xs: seq<Sample>) returns (low: nat)
    requires xs != []
    ensures IsMinRtt(low, xs)
  {
    low := xs[0].rttMin;
    for i := 1 to |xs|
      invariant exists x :: x in xs && x.rttMin == low
      invariant forall j :: 0 <= j < i ==> low <= xs[j].rttMin
    {
      if xs[i].rttMin < low {
        low := xs[i].rttMin;
      }
    }
  }

  method FromSamples(xs: seq<Sample>) returns (w: Window)
    ensures Summarises(w, xs)
  {
    if xs == [] {
      return Window(0, 0, 0, 0);
    }
    var sum := AddSrtt(xs);
    var high := MaxSrtt(xs);
    var low := MinRtt(xs);
    w := Window(|xs|, sum / |xs|, high, low);
  }

  lemma {:induction false} SumBounds(xs: seq<Sample>, low: nat, high: nat)
    requires forall x :: x in xs ==> low <= x.srttUs <= high
    ensures |xs| * low <= SumSrtt(xs) <= |xs| * high
  {
    if xs == [] {
    } else {
      var init := xs[..|xs| - 1];
      SumBounds(init, low, high);
      OneMore(|init|, low);
      OneMore(|init|, high);
    }
  }

  lemma OneMore(n: nat, a: nat)
    ensures (n + 1) * a == n * a + a
  {
  }

  lemma Scaled(n: nat, a: int, b: int)
    requires a <= b
    ensures n * a <= n * b
    ensures n * a == n * (a - 1) + n
  {
  }

  lemma QuotientAtMost(n: nat, q: int, rest: nat, high: int)
    requires 0 < n && rest < n && n * q + rest <= n * high
    ensures q <= high
  {
    if q > high {
      Scaled(n, high + 1, q);
    }
  }

  lemma DivisionBounds(sum: nat, n: nat, low: nat, high: nat)
    requires n > 0 && n * low <= sum <= n * high
    ensures low <= sum / n <= high
  {
    var q, rest := sum / n, sum % n;
    assert sum == n * q + rest;
    QuotientAtMost(n, q, rest, high);
    QuotientAtLeast(n, q, rest, low);
  }

  lemma QuotientAtLeast(n: nat, q: int, rest: nat, low: int)
    requires 0 < n && rest < n && n * low <= n * q + rest
    ensures low <= q
  {
    if q < low {
      Scaled(n, q + 1, low);
    }
  }

  /** A sample is fresh for ten seconds. */
  lemma FreshExactly(x: Sample, now: nat)
    ensures Fresh(x, now) <==> now <= x.tsNs + 10_000_000_000
  {
  }

  /** Every sample adds its own round trip to the sum, wherever it stands. */
  lemma {:induction false} SumOfParts(xs: seq<Sample>, ys: seq<Sample>, x: Sample)
    ensures SumSrtt(xs + ys) == SumSrtt(xs) + SumSrtt(ys)
    ensures SumSrtt([x]) == x.srttUs
    decreases |ys|
  {
    assert [x][..0] == [];
    if ys == [] {
      assert xs + ys == xs;
    } else {
      SumOfParts(xs, ys[..|ys| - 1], x);
      assert (xs + ys)[..|xs + ys| - 1] == xs + ys[..|ys| - 1];
    }
  }

  /** The average is the sum over the count, rounded down. */
  lemma AverageExactly(w: Window, xs: seq<Sample>)
    requires Summarises(w, xs) && xs != []
    ensures w.samples == |xs| && w.avgSrttUs * |xs| <= SumSrtt(xs) < (w.avgSrttUs + 1) * |xs|
  {
  }

  /** The extremes are samples' own, and no sample goes beyond them. */
  lemma ExtremesExactly(w: Window, xs: seq<Sample>, high: nat, low: nat)
    requires Summarises(w, xs) && xs != []
    ensures w.maxSrttUs <= high <==> forall i :: 0 <= i < |xs| ==> xs[i].srttUs <= high
    ensures w.minRttMin >= low <==> forall i :: 0 <= i < |xs| ==> xs[i].rttMin >= low
  {
    var x :| x in xs && x.srttUs == w.maxSrttUs;
    var y :| y in xs && y.rttMin == w.minRttMin;
    var i :| 0 <= i < |xs| && xs[i] == x;
    var j :| 0 <= j < |xs| && xs[j] == y;
    assert forall k :: 0 <= k < |xs| ==> xs[k] in xs;
  }

  /** The average lies between the least and the greatest sample. */
  lemma AverageInRange(w: Window, xs: seq<Sample>, low: nat)
    requires Summarises(w, xs) && xs != [] && forall x :: x in xs ==> low <= x.srttUs
    ensures low <= w.avgSrttUs <= w.maxSrttUs
  {
    SumBounds(xs, low, w.maxSrttUs);
    DivisionBounds(SumSrtt(xs), |xs|, low, w.maxSrttUs);
  }

  ghost predicate SummaryOf(windows: map<IpAddr, Window>, m: map<IpAddr, seq<Sample>>) {
    windows.Keys == m.Keys && forall nh :: nh in m ==> Summarises(windows[nh], m[nh])
  }

  /** A snapshot summarises every sequence of samples, and nothing else. */
  ghost predicate SnapshotOf(windows: map<Nlri, map<IpAddr, Window>>, s: Samples) {
    windows.Keys == s.Keys && forall n :: n in s ==> SummaryOf(windows[n], s[n])
  }

  // The aggregator

  /** What is left of the prefixes in `done` after pruning. */
  ghost function PrunedAmong(s: Samples, done: set<Nlri>, now: nat): Samples {
    map n | n in s && n in done && KeptByNexthop(s[n], now) != map[] :: KeptByNexthop(s[n], now)
  }

  lemma PrunedOneMore(s: Samples, done: set<Nlri>, n: Nlri, now: nat)
    requires n in s
    ensures PrunedAmong(s, done + {n}, now) ==
              if KeptByNexthop(s[n], now) != map[] then PrunedAmong(s, done, now)[n := KeptByNexthop(s[n], now)]
              else PrunedAmong(s, done, now)
  {
  }

  method RetainFresh(xs: seq<Sample>, now: nat) returns (kept: seq<Sample>)
    ensures kept == Kept(xs, now)
  {
    kept := [];
    for i := 0 to |xs|
      invariant kept == Kept(xs[..i], now)
    {
      assert xs[..i + 1][..i] == xs[..i];
      if Fresh(xs[i], now) {
        kept := kept + [xs[i]];
      }
    }
    assert xs[..|xs|] == xs;
  }

  method RetainByNexthop(m: map<IpAddr, seq<Sample>>, now: nat) returns (kept: map<IpAddr, seq<Sample>>)
    ensures kept == KeptByNexthop(m, now)
  {
    var order := Enumerate(m.Keys);
    kept := map[];
    for i := 0 to |order|
      invariant kept == map nh | nh in m && nh in order[..i] && Kept(m[nh], now) != [] :: Kept(m[nh], now)
    {
      assert order[..i + 1] == order[..i] + [order[i]] && order[i] in order;
      var xs := RetainFresh(m[order[i]], now);
      if xs != [] {
        kept := kept[order[i] := xs];
      }
    }
    assert order[..|order|] == order;
  }

  method SummariseByNexthop(m: map<IpAddr, seq<Sample>>) returns (windows: map<IpAddr, Window>)
    ensures SummaryOf(windows, m)
  {
    var order := Enumerate(m.Keys);
    windows := map[];
    for i := 0 to |order|
      invariant windows.Keys == Members(order[..i])
      invariant forall nh :: nh in order[..i] ==> nh in m && Summarises(windows[nh], m[nh])
    {
      assert order[..i + 1] == order[..i] + [order[i]] && order[i] in order;
      var w := FromSamples(m[order[i]]);
      windows := windows[order[i] := w];
    }
    assert order[..|order|] == order;
  }

  method SummariseAll(s: Samples) returns (windows: map<Nlri, map<IpAddr, Window>>)
    ensures SnapshotOf(windows, s)
  {
    var order := Enumerate(s.Keys);
    windows := map[];
    for i := 0 to |order|
      invariant windows.Keys == Members(order[..i])
      invariant forall n :: n in order[..i] ==> n in s && SummaryOf(windows[n], s[n])
    {
      assert order[..i + 1] == order[..i] + [order[i]] && order[i] in order;
      var inner := SummariseByNexthop(s[order[i]]);
      windows := windows[order[i] := inner];
    }
    assert order[..|order|] == order;
    assert windows.Keys == s.Keys;
  }

  class Aggregator {
    var samples: Samples

    constructor ()
      ensures samples == map[]
    {
      samples := map[];
    }

    method Prune(now: nat)
      modifies this
      ensures samples == Pruned(old(samples), now)
    {
      var order := Enumerate(samples.Keys);
      var kept: Samples := map[];
      for i := 0 to |order|
        invariant samples == old(samples)
        invariant kept == PrunedAmong(samples, Members(order[..i]), now)
      {
        assert order[..i + 1] == order[..i] + [order[i]] && order[i] in order;
        assert Members(order[..i + 1]) == Members(order[..i]) + {order[i]};
        PrunedOneMore(samples, Members(order[..i]), order[i], now);
        var inner := RetainByNexthop(samples[order[i]], now);
        if inner != map[] {
          kept := kept[order[i] := inner];
        }
      }
      assert order[..|order|] == order;
      assert PrunedAmong(samples, samples.Keys, now) == Pruned(samples, now);
      samples := kept;
    }

    /** Fails on an event whose prefix cannot be read, after pruning. */
    method Observe(event: RttEvent, now: nat) returns (ok: bool)
      modifies this
      ensures samples == Observed(old(samples), event, now)
      ensures ok <==> !Fresh(event.sample, now) || FromKey(event.matched).Some?
    {
      if !Fresh(event.sample, now) {
        return true;
      }
      Prune(now);
      var nlri := FromKey(event.matched);
      if nlri.None? {
        return false;
      }
      var nexthop := FromOctets(event.nexthop);
      samples := Pushed(samples, nlri.value, nexthop, event.sample);
      return true;
    }

    method Snapshot(now: nat) returns (windows: map<Nlri, map<IpAddr, Window>>)
      modifies this
      ensures samples == Pruned(old(samples), now)
      ensures SnapshotOf(windows, samples)
    {
      Prune(now);
      windows := SummariseAll(samples);
    }
  }

  // Agreement with the full history

  datatype Action = Observe(event: RttEvent, now: nat) | Snapshot(now: nat)

  ghost function After(history: seq<Action>): Samples {
    if history == [] then map[] else
      var s, last := After(history[..|history| - 1]), history[|history| - 1];
      if last.Observe? then Observed(s, last.event, last.now) else Pruned(s, last.now)
  }

  ghost predicate ConcernsEvent(e: RttEvent, n: Nlri, nh: IpAddr) {
    FromKey(e.matched) == Some(n) && FromOctets(e.nexthop) == nh
  }

  ghost predicate Concerns(a: Action, n: Nlri, nh: IpAddr) {
    a.Observe? && ConcernsEvent(a.event, n, nh)
  }

  /** Every sample ever reported for a prefix and nexthop, however old. */
  ghost function Reported(history: seq<Action>, n: Nlri, nh: IpAddr): seq<Sample> {
    if history == [] then [] else
      var xs, last := Reported(history[..|history| - 1], n, nh), history[|history| - 1];
      if Concerns(last, n, nh) then xs + [last.event.sample] else xs
  }

  ghost predicate ClockRuns(history: seq<Action>, now: nat) {
    && (forall i, j :: 0 <= i < j < |history| ==> history[i].now <= history[j].now)
    && (forall i :: 0 <= i < |history| ==> history[i].now <= now)
  }

  ghost predicate NoEmptyWindows(s: Samples) {
    forall n :: n in s ==> s[n] != map[] && forall nh :: nh in s[n] ==> s[n][nh] != []
  }

  lemma {:induction false} KeptTwice(xs: seq<Sample>, now: nat, later: nat)
    requires now <= later
    ensures Kept(Kept(xs, now), later) == Kept(xs, later)
  {
    if xs == [] {
    } else {
      var init, last := xs[..|xs| - 1], xs[|xs| - 1];
      KeptTwice(init, now, later);
      if Fresh(last, now) {
        assert (Kept(init, now) + [last])[..|Kept(init, now)|] == Kept(init, now);
      }
    }
  }

  lemma GetPruned(s: Samples, now: nat, n: Nlri, nh: IpAddr)
    ensures Get(Pruned(s, now), n, nh) == Kept(Get(s, n, nh), now)
    ensures NoEmptyWindows(Pruned(s, now))
  {
    if n in s && nh in s[n] && Kept(s[n][nh], now) != [] {
      assert nh in KeptByNexthop(s[n], now);
    }
  }

  lemma GetPushed(s: Samples, n0: Nlri, nh0: IpAddr, x: Sample, n: Nlri, nh: IpAddr)
    ensures Get(Pushed(s, n0, nh0, x), n, nh) == if n == n0 && nh == nh0 then Get(s, n, nh) + [x] else Get(s, n, nh)
    ensures NoEmptyWindows(s) ==> NoEmptyWindows(Pushed(s, n0, nh0, x))
  {
    assert nh0 in Pushed(s, n0, nh0, x)[n0];
  }

  lemma ClockRunsBefore(history: seq<Action>, now: nat)
    requires history != [] && ClockRuns(history, now)
    ensures ClockRuns(history[..|history| - 1], history[|history| - 1].now)
    ensures ClockRuns(history[..|history| - 1], now)
  {
  }

  lemma GetObserved(s: Samples, e: RttEvent, now: nat, n: Nlri, nh: IpAddr)
    requires NoEmptyWindows(s)
    ensures NoEmptyWindows(Observed(s, e, now))
    ensures Get(Observed(s, e, now), n, nh) ==
              if !Fresh(e.sample, now) then Get(s, n, nh)
              else if ConcernsEvent(e, n, nh) then Kept(Get(s, n, nh), now) + [e.sample]
              else Kept(Get(s, n, nh), now)
  {
    if Fresh(e.sample, now) {
      GetPruned(s, now, n, nh);
      if FromKey(e.matched).Some? {
        GetPushed(Pruned(s, now), FromKey(e.matched).value, FromOctets(e.nexthop), e.sample, n, nh);
      }
    }
  }

  /** One observation, seen from one window: the kept samples `ys` and all reported samples `xs` stay in step. */
  lemma WindowStaysExact(ys: seq<Sample>, xs: seq<Sample>, x: Sample, now: nat, later: nat)
    requires now <= later && Kept(ys, later) == Kept(xs, later)
    ensures Kept(Kept(ys, now), later) == Kept(xs, later)
    ensures Fresh(x, now) ==> Kept(Kept(ys, now) + [x], later) == Kept(xs + [x], later)
    ensures !Fresh(x, now) ==> Kept(xs + [x], later) == Kept(ys, later)
  {
    KeptTwice(ys, now, later);
    KeptAppend(xs, x, later);
    KeptAppend(Kept(ys, now), x, later);
  }

  /** What incremental pruning leaves differs from the full history only in samples already too old. */
  lemma {:induction false} PruningLosesNothing(history: seq<Action>, now: nat, n: Nlri, nh: IpAddr)
    requires ClockRuns(history, now)
    ensures Kept(Get(After(history), n, nh), now) == Kept(Reported(history, n, nh), now)
    ensures NoEmptyWindows(After(history))
    decreases |history|
  {
    if history == [] {
    } else {
      var init, last := history[..|history| - 1], history[|history| - 1];
      ClockRunsBefore(history, now);
      PruningLosesNothing(init, now, n, nh);
      if last.Observe? {
        GetObserved(After(init), last.event, last.now, n, nh);
        WindowStaysExact(Get(After(init), n, nh), Reported(init, n, nh), last.event.sample, last.now, now);
      } else {
        GetPruned(After(init), last.now, n, nh);
        KeptTwice(Get(After(init), n, nh), last.now, now);
      }
    }
  }

  lemma {:induction false} KeptIsFresh(xs: seq<Sample>, now: nat)
    ensures forall x :: x in Kept(xs, now) <==> x in xs && Fresh(x, now)
  {
    if xs == [] {
    } else {
      var init, last := xs[..|xs| - 1], xs[|xs| - 1];
      KeptIsFresh(init, now);
      assert xs == init + [last];
    }
  }

  lemma KeptAppend(xs: seq<Sample>, x: Sample, now: nat)
    ensures Kept(xs + [x], now) == if Fresh(x, now) then Kept(xs, now) + [x] else Kept(xs, now)
  {
    assert (xs + [x])[..|xs|] == xs;
  }

  /**
   * With a clock that does not run backwards, every snapshot is the summary of exactly those
   * samples of the full history that are at most ten seconds old, with no empty windows.
   */
  lemma SnapshotIsExact(history: seq<Action>, now: nat, windows: map<Nlri, map<IpAddr, Window>>, n: Nlri, nh: IpAddr)
    requires ClockRuns(history, now) && SnapshotOf(windows, Pruned(After(history), now))
    ensures n in windows && nh in windows[n] <==> Kept(Reported(history, n, nh), now) != []
    ensures n in windows && nh in windows[n] ==>
              windows[n][nh].samples > 0 && Summarises(windows[n][nh], Kept(Reported(history, n, nh), now))
    ensures n in windows ==> windows[n] != map[]
  {
    PruningLosesNothing(history, now, n, nh);
    GetPruned(After(history), now, n, nh);
    var s := Pruned(After(history), now);
    if n in s {
      var k :| k in s[n];
      assert k in windows[n];
    }
  }

  lemma {:induction false} KeptEarlier(xs: seq<Sample>, now: nat, later: nat)
    requires now <= later
    ensures Kept(Kept(xs, later), now) == Kept(xs, later)
    ensures |Kept(xs, later)| <= |Kept(xs, now)|
    ensures Kept(xs, later) == Kept(xs, now) <==> forall x :: x in xs && Fresh(x, now) ==> Fresh(x, later)
  {
    if xs == [] {
    } else {
      var init, last := xs[..|xs| - 1], xs[|xs| - 1];
      KeptEarlier(init, now, later);
      assert xs == init + [last];
      if Fresh(last, later) {
        KeptAppend(Kept(init, later), last, now);
      }
    }
  }

  /**
   * A reading earlier than the last pruning sees the window of the later reading; that is the
   * right one exactly when no sample went out of date in between.
   */
  lemma BackwardClock(s: Samples, now: nat, later: nat, n: Nlri, nh: IpAddr)
    requires now <= later
    ensures Get(Pruned(Pruned(s, later), now), n, nh) == Kept(Get(s, n, nh), later)
    ensures Get(Pruned(Pruned(s, later), now), n, nh) == Kept(Get(s, n, nh), now)
       <==> forall x :: x in Get(s, n, nh) && Fresh(x, now) ==> Fresh(x, later)
  {
    GetPruned(s, later, n, nh);
    GetPruned(Pruned(s, later), now, n, nh);
    KeptEarlier(Get(s, n, nh), now, later);
  }
}
