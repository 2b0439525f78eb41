/** What each counter of the kernel programs counts, in terms of what goes in and what comes out. */
module DataPlaneAccounts {
  import opened Addresses
  import opened LongestPrefix
  import opened Apportionment
  import opened Fib
  import opened RttWindows
  import opened Packets
  import opened DataPlane
  import opened DataPlaneRuns

  function One(b: bool): nat {
    if b then 1 else 0
  }

  // Encapsulation

  /** The metric a counter stands for. */
  function EncapCount(m: EncapMetrics, c: EncapCounter): nat {
    match c
    case EncapProcessed => m.processed
    case EncapL3 => m.l3
    case EncapL4Load => m.l4Load
    case EncapL4 => m.l4
    case EncapDestinationLoad => m.destinationLoad
    case EncapFailed => m.failed
    case Encapsulated => m.encapsulated
    case StickyHit => m.stickyHit
    case StickyMiss => m.stickyMiss
    case StickyStore => m.stickyStore
    case FibHit => m.fibHit
    case FibMiss => m.fibMiss
    case InvalidCount => m.invalidCount
    case InvalidZeroWeight => m.invalidZeroWeight
    case InvalidSum => m.invalidSum
  }

  lemma EncapBumps(m: EncapMetrics, c: EncapCounter, d: EncapCounter)
    ensures EncapCount(BumpEncap(m, c), d) == EncapCount(m, d) + One(c == d)
  {
  }

  /** The packet has a destination and no nexthop stored with its socket. */
  predicate Looks(s: State, skb: Skb) {
    ParseEncap(skb.data, skb.protocol).Destined? && !HasSticky(s.sticky, skb.socket)
  }

  /** The lookup finds an entry. */
  ghost predicate Finds(s: State, skb: Skb, entry: CFibEntry) {
    Looks(s, skb) && exists k :: LongestMatch(s.fib.Keys, DestOf(skb), k) && entry == s.fib[k]
  }

  ghost predicate FindsNone(s: State, skb: Skb) {
    Looks(s, skb) && forall k :: k in s.fib ==> !NodeMatches(k, DestOf(skb))
  }

  predicate CountedRight(entry: CFibEntry) {
    0 < entry.count <= 4
  }

  ghost predicate WeightMissing(entry: CFibEntry) {
    exists i :: 0 <= i < entry.count && i < |entry.weights| && entry.weights[i] == 0
  }

  ghost predicate SumsUp(entry: CFibEntry) {
    entry.count <= |entry.weights| && SumInt(entry.weights[..entry.count]) == 10000
  }

  /** What a counter counts: why a packet is skipped, where its nexthop comes from, what is wrong with the entry, what becomes of it. */
  ghost predicate EncapCause(c: EncapCounter, s: State, skb: Skb, s': State, out: TcOutcome) {
    match c
    case EncapProcessed => true
    case EncapL3 | EncapL4Load | EncapL4 | EncapDestinationLoad => ParseEncap(skb.data, skb.protocol) == Skipped(c)
    case StickyHit => ParseEncap(skb.data, skb.protocol).Destined? && HasSticky(s.sticky, skb.socket)
    case StickyMiss => Looks(s, skb)
    case FibMiss => FindsNone(s, skb)
    case FibHit => Looks(s, skb) && !FindsNone(s, skb)
    case InvalidCount => exists entry :: Finds(s, skb, entry) && !CountedRight(entry)
    case InvalidZeroWeight => exists entry :: Finds(s, skb, entry) && CountedRight(entry) && WeightMissing(entry)
    case InvalidSum => exists entry :: Finds(s, skb, entry) && CountedRight(entry) && !WeightMissing(entry) && !SumsUp(entry)
    case StickyStore => s'.sticky != s.sticky
    case Encapsulated => out.Sent?
    case EncapFailed => out.Shot?
  }

  /** What a choice counts. */
  predicate ChoiceCause(c: EncapCounter, skb: Skb, h: TcHelpers, choice: Choice) {
    match c
    case EncapProcessed => true
    case StickyHit => choice.Kept?
    case StickyMiss => !choice.Kept?
    case FibMiss => choice.NoEntry?
    case FibHit => choice.Drawn? || choice.Refused?
    case StickyStore => Stores(skb, h, choice)
    case Encapsulated => (choice.Kept? || choice.Drawn?) && MakesRoom(h)
    case EncapFailed => (choice.Kept? || choice.Drawn?) && !MakesRoom(h)
    case InvalidCount | InvalidZeroWeight | InvalidSum => choice == Refused(c)
    case EncapL3 | EncapL4Load | EncapL4 | EncapDestinationLoad => false
  }

  lemma ThreeBumps(m: EncapMetrics, a: EncapCounter, b: EncapCounter, c: EncapCounter, d: EncapCounter)
    ensures EncapCount(BumpEncap(BumpEncap(BumpEncap(m, a), b), c), d)
         == EncapCount(m, d) + One(a == d) + One(b == d) + One(c == d)
  {
    EncapBumps(m, a, d);
    EncapBumps(BumpEncap(m, a), b, d);
    EncapBumps(BumpEncap(BumpEncap(m, a), b), c, d);
  }

  lemma ChoiceBumps(m: EncapMetrics, skb: Skb, h: TcHelpers, choice: Choice, d: EncapCounter)
    requires choice.Refused? ==> choice.counter in {InvalidCount, InvalidZeroWeight, InvalidSum}
    ensures EncapCount(EncapCounters(m, h, choice, Stores(skb, h, choice)), d) ==
              EncapCount(m, d) + One(ChoiceCause(d, skb, h, choice))
  {
    var final := if MakesRoom(h) then Encapsulated else EncapFailed;
    match choice
    case Kept(_) => ThreeBumps(m, EncapProcessed, StickyHit, final, d);
    case NoEntry => ThreeBumps(m, EncapProcessed, StickyMiss, FibMiss, d);
    case Refused(c) =>
      ThreeBumps(m, EncapProcessed, StickyMiss, FibHit, d);
      EncapBumps(BumpEncap(BumpEncap(BumpEncap(m, EncapProcessed), StickyMiss), FibHit), c, d);
    case Drawn(_, _) => DrawnBumps(m, skb, h, choice, d);
  }

  lemma DrawnBumps(m: EncapMetrics, skb: Skb, h: TcHelpers, choice: Choice, d: EncapCounter)
    requires choice.Drawn?
    ensures EncapCount(EncapCounters(m, h, choice, Stores(skb, h, choice)), d) ==
              EncapCount(m, d) + One(ChoiceCause(d, skb, h, choice))
  {
    var final := if MakesRoom(h) then Encapsulated else EncapFailed;
    var m2 := BumpEncap(BumpEncap(BumpEncap(m, EncapProcessed), StickyMiss), FibHit);
    ThreeBumps(m, EncapProcessed, StickyMiss, FibHit, d);
    if Stores(skb, h, choice) {
      EncapBumps(m2, StickyStore, d);
      EncapBumps(BumpEncap(m2, StickyStore), final, d);
    } else {
      EncapBumps(m2, final, d);
    }
  }

  lemma SkippedAccounts(s: State, skb: Skb, h: TcHelpers, s': State, out: TcOutcome, d: EncapCounter)
    requires EncapStep(s, skb, h, s', out) && h.metrics && ParseEncap(skb.data, skb.protocol).Skipped?
    ensures EncapCount(s'.encap, d) == EncapCount(s.encap, d) + One(EncapCause(d, s, skb, s', out))
  {
    var c := ParseEncap(skb.data, skb.protocol).counter;
    CounterKinds(skb.data, skb.protocol);
    EncapBumps(s.encap, EncapProcessed, d);
    EncapBumps(BumpEncap(s.encap, EncapProcessed), c, d);
  }

  lemma ChosenFound(s: State, skb: Skb, h: TcHelpers, choice: Choice)
    requires Looks(s, skb) && Chosen(s.fib, s.sticky, skb.socket, DestOf(skb), h.random, choice)
    ensures choice.NoEntry? <==> FindsNone(s, skb)
  {
    if !choice.NoEntry? {
      var k :| LongestMatch(s.fib.Keys, DestOf(skb), k) && ChosenFrom(s.fib[k], h.random, choice);
      assert k in s.fib && NodeMatches(k, DestOf(skb));
    }
  }

  /** A refused draw is refused by the first check the entry fails. */
  lemma RefusedRightly(entry: CFibEntry, random: nat, choice: Choice)
    requires Sized(entry) && ChosenFrom(entry, random, choice)
    ensures choice == Refused(InvalidCount) <==> !CountedRight(entry)
    ensures choice == Refused(InvalidZeroWeight) <==> CountedRight(entry) && WeightMissing(entry)
    ensures choice == Refused(InvalidSum) <==> CountedRight(entry) && !WeightMissing(entry) && !SumsUp(entry)
  {
  }

  lemma FoundOnly(s: State, skb: Skb, k: Node, entry: CFibEntry)
    requires Looks(s, skb) && LongestMatch(s.fib.Keys, DestOf(skb), k)
    ensures Finds(s, skb, entry) <==> entry == s.fib[k]
  {
    if Finds(s, skb, entry) {
      var j :| LongestMatch(s.fib.Keys, DestOf(skb), j) && entry == s.fib[j];
      LookupUnique(s.fib.Keys, DestOf(skb), j, k);
    }
  }

  lemma FoundRefused(s: State, skb: Skb, h: TcHelpers, choice: Choice, d: EncapCounter)
    requires ParseEncap(skb.data, skb.protocol).Destined? && d in {InvalidCount, InvalidZeroWeight, InvalidSum}
    requires Chosen(s.fib, s.sticky, skb.socket, DestOf(skb), h.random, choice)
    ensures choice == Refused(d) <==> EncapCause(d, s, skb, s, Passed)
  {
    if Looks(s, skb) && !choice.NoEntry? {
      var k :| LongestMatch(s.fib.Keys, DestOf(skb), k) && ChosenFrom(s.fib[k], h.random, choice);
      forall entry
        ensures Finds(s, skb, entry) <==> entry == s.fib[k]
      {
        FoundOnly(s, skb, k, entry);
      }
      RefusedRightly(s.fib[k], h.random, choice);
    }
  }

  lemma StoredChanges(s: State, skb: Skb, h: TcHelpers, choice: Choice, s': State)
    requires ParseEncap(skb.data, skb.protocol).Destined?
    requires Chosen(s.fib, s.sticky, skb.socket, DestOf(skb), h.random, choice)
    requires s' == AfterEncap(AfterChoice(Counted(s, EncapProcessed), skb, h, choice), h, choice)
    ensures s'.sticky != s.sticky <==> Stores(skb, h, choice)
  {
    if Stores(skb, h, choice) {
      assert skb.socket.value in s'.sticky && skb.socket.value !in s.sticky;
    }
  }

  lemma OutcomeCause(s: State, skb: Skb, h: TcHelpers, choice: Choice, s': State, out: TcOutcome, d: EncapCounter)
    requires ParseEncap(skb.data, skb.protocol).Destined? && d !in {InvalidCount, InvalidZeroWeight, InvalidSum, StickyStore}
    requires Chosen(s.fib, s.sticky, skb.socket, DestOf(skb), h.random, choice)
    requires TcOutcomeOf(skb, ParseEncap(skb.data, skb.protocol).l3, h, choice, out)
    ensures ChoiceCause(d, skb, h, choice) <==> EncapCause(d, s, skb, s', out)
  {
    if Looks(s, skb) {
      ChosenFound(s, skb, h, choice);
    }
  }

  lemma CauseOfChoice(s: State, skb: Skb, h: TcHelpers, choice: Choice, s': State, out: TcOutcome, d: EncapCounter)
    requires ParseEncap(skb.data, skb.protocol).Destined?
    requires EncapOn(s, skb, ParseEncap(skb.data, skb.protocol).l3, DestOf(skb), h, choice, s', out)
    ensures ChoiceCause(d, skb, h, choice) <==> EncapCause(d, s, skb, s', out)
  {
    if d in {InvalidCount, InvalidZeroWeight, InvalidSum} {
      FoundRefused(s, skb, h, choice, d);
    } else if d == StickyStore {
      StoredChanges(s, skb, h, choice, s');
    } else {
      OutcomeCause(s, skb, h, choice, s', out, d);
    }
  }

  lemma DestinedAccounts(s: State, skb: Skb, h: TcHelpers, s': State, out: TcOutcome, d: EncapCounter)
    requires EncapStep(s, skb, h, s', out) && h.metrics && ParseEncap(skb.data, skb.protocol).Destined?
    ensures EncapCount(s'.encap, d) == EncapCount(s.encap, d) + One(EncapCause(d, s, skb, s', out))
  {
    var p := ParseEncap(skb.data, skb.protocol);
    var choice :| EncapOn(s, skb, p.l3, p.dest, h, choice, s', out);
    RefusalKinds(s.fib, s.sticky, skb.socket, p.dest, h.random, choice);
    ChoiceCounts(s, skb, h, choice);
    ChoiceBumps(s.encap, skb, h, choice, d);
    CauseOfChoice(s, skb, h, choice, s', out, d);
  }

  /** Every counter of the encapsulation goes up by one exactly for its cause. */
  lemma EncapAccounts(s: State, skb: Skb, h: TcHelpers, s': State, out: TcOutcome, d: EncapCounter)
    requires EncapStep(s, skb, h, s', out) && h.metrics
    ensures EncapCount(s'.encap, d) == EncapCount(s.encap, d) + One(EncapCause(d, s, skb, s', out))
  {
    if ParseEncap(skb.data, skb.protocol).Skipped? {
      SkippedAccounts(s, skb, h, s', out, d);
    } else {
      DestinedAccounts(s, skb, h, s', out, d);
    }
  }

  /** A packet with a nexthop is sent exactly when the kernel makes room and 58 bytes are accessible. */
  lemma RoomExactly(s: State, skb: Skb, h: TcHelpers, s': State, out: TcOutcome)
    requires EncapStep(s, skb, h, s', out) && h.metrics && !out.Passed?
    ensures out.Sent? <==> h.room.Some? && h.linear >= 58
  {
  }

  // Decapsulation

  function DecapCount(m: DecapMetrics, c: DecapCounter): nat {
    match c
    case DecapProcessed => m.processed
    case DecapShortPacket => m.shortPacket
    case DecapOuterL3 => m.outerL3
    case DecapOuterL4 => m.outerL4
    case DecapInnerL3 => m.innerL3
    case DecapFailed => m.failed
    case Decapsulated => m.decapsulated
    case DecapLookupFailed => m.lookupFailed
    case DecapTtlFailed => m.ttlFailed
    case DecapSameIfindex => m.sameIfindex
    case DecapRedirectFailed => m.redirectFailed
    case DecapRedirected => m.redirected
  }

  lemma DecapBumps(m: DecapMetrics, c: DecapCounter, d: DecapCounter)
    ensures DecapCount(BumpDecap(m, c), d) == DecapCount(m, d) + One(c == d)
  {
  }

  /** The frame is one of ours, and the headers could be taken off. */
  predicate Opens(data: seq<Byte>, x: XdpHelpers) {
    ParseDecap(data).Tunnelled? && x.adjusts
  }

  /** The interface for the inner packet is known. */
  predicate Routes(data: seq<Byte>, x: XdpHelpers) {
    Opens(data, x) && FromOctets(ParseDecap(data).nexthop) in x.routes
  }

  /** And its TTL lasts. */
  predicate Lasts(data: seq<Byte>, x: XdpHelpers) {
    Routes(data, x) && WithLowerTtl(Packets.Decapsulated(data, ParseDecap(data).l3), ParseDecap(data).l3, x.big).Some?
  }

  /** And that interface is not the one the frame came from. */
  predicate Leaves(data: seq<Byte>, x: XdpHelpers) {
    Lasts(data, x) && EgressOf(data, x).ifindex != x.ingress
  }

  function EgressOf(data: seq<Byte>, x: XdpHelpers): Egress
    requires Routes(data, x)
  {
    x.routes[FromOctets(ParseDecap(data).nexthop)]
  }

  predicate DecapCause(c: DecapCounter, data: seq<Byte>, x: XdpHelpers) {
    match c
    case DecapProcessed => true
    case DecapShortPacket => ParseDecap(data) == ShortPacket
    case DecapOuterL3 => ParseDecap(data) == WrongOuterL3
    case DecapOuterL4 => ParseDecap(data) == WrongOuterL4
    case DecapInnerL3 => ParseDecap(data) == WrongInnerL3
    case DecapFailed => ParseDecap(data).Tunnelled? && !x.adjusts
    case Decapsulated => Opens(data, x)
    case DecapLookupFailed => Opens(data, x) && !Routes(data, x)
    case DecapTtlFailed => Routes(data, x) && !Lasts(data, x)
    case DecapSameIfindex => Lasts(data, x) && !Leaves(data, x)
    case DecapRedirectFailed => Leaves(data, x) && !x.redirects
    case DecapRedirected => Leaves(data, x) && x.redirects
  }

  /** The counters of one frame, in order. */
  lemma OpenedCounts(s: State, data: seq<Byte>, x: XdpHelpers) returns (c: DecapCounter)
    requires x.metrics && Opens(data, x)
    ensures Decapped(s, data, x).after.decap == BumpDecap(BumpDecap(BumpDecap(s.decap, DecapProcessed), Decapsulated), c)
    ensures c == if !Routes(data, x) then DecapLookupFailed else if !Lasts(data, x) then DecapTtlFailed
                 else if !Leaves(data, x) then DecapSameIfindex else if !x.redirects then DecapRedirectFailed else DecapRedirected
  {
    var p := ParseDecap(data);
    var entered := DecapCounted(DecapCounted(s, DecapProcessed), Decapsulated);
    c := ForwardCounter(entered, Packets.Decapsulated(data, p.l3), p.l3, p.nexthop, x);
    ForwardedBy(entered, Packets.Decapsulated(data, p.l3), p.l3, p.nexthop, x);
    c := if !Routes(data, x) then DecapLookupFailed else if !Lasts(data, x) then DecapTtlFailed
         else if !Leaves(data, x) then DecapSameIfindex else if !x.redirects then DecapRedirectFailed else DecapRedirected;
  }

  /** The exit forwarding takes. */
  lemma ForwardedBy(s: State, data: seq<Byte>, l3: nat, nexthop: Octets16, x: XdpHelpers)
    ensures var dest := FromOctets(nexthop);
            Forwarded(s, data, l3, nexthop, x).after ==
              DecapCounted(s, if dest !in x.routes then DecapLookupFailed
                              else if WithLowerTtl(data, l3, x.big).None? then DecapTtlFailed
                              else if x.routes[dest].ifindex == x.ingress then DecapSameIfindex
                              else if !x.redirects then DecapRedirectFailed else DecapRedirected)
  {
    if WithLowerTtl(data, l3, x.big).Some? {
      LoweredIsLong(data, l3, x.big);
    }
  }

  /** Every counter of the decapsulation goes up by one exactly for its cause. */
  lemma DecapAccounts(s: State, data: seq<Byte>, x: XdpHelpers, d: DecapCounter)
    requires x.metrics
    ensures DecapCount(Decapped(s, data, x).after.decap, d) == DecapCount(s.decap, d) + One(DecapCause(d, data, x))
  {
    var m1 := BumpDecap(s.decap, DecapProcessed);
    DecapBumps(s.decap, DecapProcessed, d);
    if Opens(data, x) {
      var c := OpenedCounts(s, data, x);
      DecapBumps(m1, Decapsulated, d);
      DecapBumps(BumpDecap(m1, Decapsulated), c, d);
    } else {
      DecapBumps(m1, if ParseDecap(data).Tunnelled? then DecapFailed else ParseCounter(ParseDecap(data)), d);
    }
  }

  /** What becomes of a frame: redirected, aborted, dropped, or passed on. */
  lemma VerdictsExactly(s: State, data: seq<Byte>, x: XdpHelpers)
    ensures var v := Decapped(s, data, x).verdict;
            && (v.XdpRedirect? <==> x.metrics && Leaves(data, x) && x.redirects)
            && (v.XdpRedirect? ==> v.ifindex == EgressOf(data, x).ifindex)
            && (v == XdpAborted <==> !x.metrics || (Leaves(data, x) && !x.redirects))
            && (v == XdpDrop <==> x.metrics && ParseDecap(data).Tunnelled? && !x.adjusts)
    ensures x.metrics && !ParseDecap(data).Tunnelled? ==> Decapped(s, data, x).data == data
  {
    if Lasts(data, x) {
      LoweredIsLong(Packets.Decapsulated(data, ParseDecap(data).l3), ParseDecap(data).l3, x.big);
    }
  }

  // RTT callbacks

  /** The callback reports its sample: IPv4 or IPv6, a socket with a nexthop, and room in the ring buffer. */
  predicate Reports(s: State, op: SockOp) {
    op.RttCallback? && (op.family == 2 || op.family == 10) && HasSticky(s.sticky, op.socket) && op.reserves
  }

  function SockopsCount(m: SockopsMetrics, c: SockopsCounter): nat {
    match c
    case RegistrationOk => m.registrationOk
    case RegistrationFailed => m.registrationFailed
    case RttCallbacks => m.callbacks
    case RttEvents => m.events
    case RttRingbufFull => m.ringbufFull
    case RttStickyMiss => m.stickyMiss
    case RttFamily => m.family
  }

  predicate SockopsCause(c: SockopsCounter, s: State, op: SockOp) {
    match c
    case RegistrationOk => op == Established(true)
    case RegistrationFailed => op == Established(false)
    case RttCallbacks => op.RttCallback?
    case RttFamily => op.RttCallback? && op.family != 2 && op.family != 10
    case RttStickyMiss => op.RttCallback? && (op.family == 2 || op.family == 10) && !HasSticky(s.sticky, op.socket)
    case RttRingbufFull =>
      op.RttCallback? && (op.family == 2 || op.family == 10) && HasSticky(s.sticky, op.socket) && !op.reserves
    case RttEvents => Reports(s, op)
  }

  /** Every counter of the socket program goes up by one exactly for its cause, and every report is one event. */
  lemma SockOpAccounts(s: State, op: SockOp, d: SockopsCounter)
    ensures var s' := OnSockOp(s, op, true);
            && SockopsCount(s'.sockops, d) == SockopsCount(s.sockops, d) + One(SockopsCause(d, s, op))
            && s'.events == (if Reports(s, op)
                             then s.events + [RttEvent(s.sticky[op.socket.value].matched, s.sticky[op.socket.value].nexthop, op.sample)]
                             else s.events)
    ensures OnSockOp(s, op, false) == s
  {
  }
}
