/** What holds of the kernel programs over every sequential run of packets, callbacks and table updates. */
module DataPlaneRuns {
  import opened Addresses
  import opened LongestPrefix
  import opened Apportionment
  import opened Fib
  import opened RttWindows
  import opened Packets
  import opened DataPlane
  import Steering = SteeringRuns

  datatype Input =
    | Packet(skb: Skb, tc: TcHelpers)
    | Frame(data: seq<Byte>, xdp: XdpHelpers)
    | SocketOp(op: SockOp, metrics: bool)
    | Rewrite(fib: KernelFib)
    | Close(socket: Socket)

  datatype Output = FromTc(tc: TcOutcome) | FromXdp(verdict: XdpVerdict, data: seq<Byte>) | Quiet

  ghost predicate Step(s: State, input: Input, s': State, out: Output) {
    match input
    case Packet(skb, h) => out.FromTc? && EncapStep(s, skb, h, s', out.tc)
    case Frame(data, x) => out.FromXdp? && XdpOutcome(out.verdict, out.data, s') == Decapped(s, data, x)
    case SocketOp(op, metrics) => s' == OnSockOp(s, op, metrics) && out == Quiet
    case Rewrite(fib) => s' == s.(fib := fib) && out == Quiet
    case Close(socket) => s' == s.(sticky := s.sticky - {socket}) && out == Quiet
  }

  /** A run from the empty state: `states[t]` is what input `t` finds. */
  ghost predicate Run(states: seq<State>, inputs: seq<Input>, outs: seq<Output>) {
    && |states| == |inputs| + 1 == |outs| + 1
    && Initial(states[0])
    && forall t :: 0 <= t < |inputs| ==> StepAt(states, inputs, outs, t)
  }

  ghost predicate StepAt(states: seq<State>, inputs: seq<Input>, outs: seq<Output>, t: nat)
    requires t < |inputs| && |states| == |inputs| + 1 == |outs| + 1
  {
    Step(states[t], inputs[t], states[t + 1], outs[t])
  }

  // Counters

  function Skips(m: EncapMetrics): nat {
    m.l3 + m.l4Load + m.l4 + m.destinationLoad
  }

  function Refusals(m: EncapMetrics): nat {
    m.invalidCount + m.invalidZeroWeight + m.invalidSum
  }

  /** Every packet offered for encapsulation is accounted for by exactly one outcome. */
  ghost predicate EncapConserved(m: EncapMetrics) {
    && m.processed == Skips(m) + m.fibMiss + Refusals(m) + m.failed + m.encapsulated
    && m.processed == Skips(m) + m.stickyHit + m.stickyMiss
    && m.stickyMiss == m.fibHit + m.fibMiss
    && m.stickyStore + Refusals(m) <= m.fibHit
  }

  /** Every frame received is accounted for, and so is every frame decapsulated. */
  ghost predicate DecapConserved(m: DecapMetrics) {
    && m.processed == m.shortPacket + m.outerL3 + m.outerL4 + m.innerL3
                            + m.failed + m.decapsulated
    && m.decapsulated == m.lookupFailed + m.ttlFailed + m.sameIfindex + m.redirectFailed
                          + m.redirected
  }

  ghost predicate RttConserved(s: State) {
    && s.sockops.callbacks == s.sockops.family + s.sockops.stickyMiss + s.sockops.ringbufFull
                                  + s.sockops.events
    && s.sockops.events == |s.events|
  }

  ghost predicate Conserved(s: State) {
    EncapConserved(s.encap) && DecapConserved(s.decap) && RttConserved(s)
  }

  /** The counter a skipped packet ends on, and the one a refused entry ends on. */
  lemma CounterKinds(data: seq<Byte>, protocol: nat)
    ensures ParseEncap(data, protocol).Skipped? ==>
              ParseEncap(data, protocol).counter in {EncapL3, EncapL4Load, EncapL4, EncapDestinationLoad}
  {
  }

  lemma RefusalKinds(fib: KernelFib, sticky: map<Socket, StickyNexthop>, socket: Option<Socket>, dest: Octets16,
                     random: nat, choice: Choice)
    requires Chosen(fib, sticky, socket, dest, random, choice)
    ensures choice.Refused? ==> choice.counter in {InvalidCount, InvalidZeroWeight, InvalidSum}
  {
  }

  lemma SkipConserves(s: State, c: EncapCounter)
    requires Conserved(s) && c in {EncapL3, EncapL4Load, EncapL4, EncapDestinationLoad}
    ensures Conserved(Counted(Counted(s, EncapProcessed), c))
  {
  }

  /** The counters of one encapsulation, from the packet's arrival to its outcome. */
  function EncapCounters(m: EncapMetrics, h: TcHelpers, choice: Choice, stored: bool): EncapMetrics {
    var m1 := BumpEncap(m, EncapProcessed);
    var final := if MakesRoom(h) then Encapsulated else EncapFailed;
    match choice
    case Kept(_) => BumpEncap(BumpEncap(m1, StickyHit), final)
    case NoEntry => BumpEncap(BumpEncap(m1, StickyMiss), FibMiss)
    case Refused(c) => BumpEncap(BumpEncap(BumpEncap(m1, StickyMiss), FibHit), c)
    case Drawn(_, _) =>
      var m2 := BumpEncap(BumpEncap(m1, StickyMiss), FibHit);
      BumpEncap(if stored then BumpEncap(m2, StickyStore) else m2, final)
  }

  lemma ChoiceCounts(s: State, skb: Skb, h: TcHelpers, choice: Choice)
    ensures var s' := AfterEncap(AfterChoice(Counted(s, EncapProcessed), skb, h, choice), h, choice);
            && s'.encap == EncapCounters(s.encap, h, choice, Stores(skb, h, choice))
            && s'.fib == s.fib && s'.events == s.events && s'.decap == s.decap && s'.sockops == s.sockops
  {
  }

  lemma SentConserves(m: EncapMetrics, drawn: bool, stored: bool, ok: bool)
    requires EncapConserved(m)
    ensures var m1 := BumpEncap(m, EncapProcessed);
            var m2 := if drawn then BumpEncap(BumpEncap(m1, StickyMiss), FibHit) else BumpEncap(m1, StickyHit);
            var m3 := if drawn && stored then BumpEncap(m2, StickyStore) else m2;
            var m4 := BumpEncap(m3, if ok then Encapsulated else EncapFailed);
            EncapConserved(m4) && Refusals(m4) == Refusals(m)
  {
    if drawn && stored {
    } else if drawn {
    } else {
    }
  }

  lemma RefusedConserves(m: EncapMetrics, c: EncapCounter)
    requires EncapConserved(m) && (c == InvalidCount || c == InvalidZeroWeight || c == InvalidSum)
    ensures EncapConserved(BumpEncap(BumpEncap(BumpEncap(BumpEncap(m, EncapProcessed), StickyMiss), FibHit), c))
  {
  }

  lemma EncapCountersConserve(m: EncapMetrics, h: TcHelpers, choice: Choice, stored: bool)
    requires EncapConserved(m)
    requires choice.Refused? ==> choice.counter in {InvalidCount, InvalidZeroWeight, InvalidSum}
    ensures EncapConserved(EncapCounters(m, h, choice, stored))
    ensures !choice.Refused? ==> Refusals(EncapCounters(m, h, choice, stored)) == Refusals(m)
  {
    match choice
    case Kept(_) => SentConserves(m, false, false, MakesRoom(h));
    case NoEntry =>
    case Refused(c) => RefusedConserves(m, c);
    case Drawn(_, _) => SentConserves(m, true, stored, MakesRoom(h));
  }

  lemma ChoiceConserves(s: State, skb: Skb, h: TcHelpers, choice: Choice)
    requires Conserved(s) && (choice.Refused? ==> choice.counter in {InvalidCount, InvalidZeroWeight, InvalidSum})
    ensures Conserved(AfterEncap(AfterChoice(Counted(s, EncapProcessed), skb, h, choice), h, choice))
  {
    ChoiceCounts(s, skb, h, choice);
    EncapCountersConserve(s.encap, h, choice, Stores(skb, h, choice));
  }

  lemma EncapConserves(s: State, skb: Skb, h: TcHelpers, s': State, out: TcOutcome)
    requires Conserved(s) && EncapStep(s, skb, h, s', out)
    ensures Conserved(s')
  {
    CounterKinds(skb.data, skb.protocol);
    var p := ParseEncap(skb.data, skb.protocol);
    if h.metrics && p.Destined? {
      var choice :| EncapOn(s, skb, p.l3, p.dest, h, choice, s', out);
      RefusalKinds(s.fib, s.sticky, skb.socket, p.dest, h.random, choice);
      ChoiceConserves(s, skb, h, choice);
    } else if h.metrics {
      SkipConserves(s, p.counter);
    }
  }

  /** The exit that counts nothing is never taken: a frame whose TTL was lowered has an Ethernet header. */
  lemma LoweredIsLong(data: seq<Byte>, l3: nat, big: bool)
    requires WithLowerTtl(data, l3, big).Some?
    ensures |WithLowerTtl(data, l3, big).value| == |data| >= ETH_HLEN
  {
  }

  const FORWARD_COUNTERS: set<DecapCounter> :=
    {DecapLookupFailed, DecapTtlFailed, DecapSameIfindex, DecapRedirectFailed, DecapRedirected}

  /** Forwarding ends on exactly one counter. */
  lemma ForwardCounter(s: State, data: seq<Byte>, l3: nat, nexthop: Octets16, x: XdpHelpers) returns (c: DecapCounter)
    ensures c in FORWARD_COUNTERS && Forwarded(s, data, l3, nexthop, x).after == DecapCounted(s, c)
  {
    if FromOctets(nexthop) !in x.routes {
      return DecapLookupFailed;
    }
    if WithLowerTtl(data, l3, x.big).None? {
      return DecapTtlFailed;
    }
    LoweredIsLong(data, l3, x.big);
    var e := x.routes[FromOctets(nexthop)];
    return if e.ifindex == x.ingress then DecapSameIfindex else if x.redirects then DecapRedirected else DecapRedirectFailed;
  }

  lemma ForwardConserves(s: State, c: DecapCounter)
    requires Conserved(s) && c in FORWARD_COUNTERS
    ensures Conserved(DecapCounted(DecapCounted(DecapCounted(s, DecapProcessed), Decapsulated), c))
  {
  }

  lemma ParseConserves(s: State, c: DecapCounter)
    requires Conserved(s) && c in {DecapShortPacket, DecapOuterL3, DecapOuterL4, DecapInnerL3, DecapFailed}
    ensures Conserved(DecapCounted(DecapCounted(s, DecapProcessed), c))
  {
  }

  lemma DecapConserves(s: State, data: seq<Byte>, x: XdpHelpers)
    requires Conserved(s)
    ensures Conserved(Decapped(s, data, x).after)
  {
    var p := ParseDecap(data);
    if !x.metrics {
    } else if p.Tunnelled? && x.adjusts {
      var entered := DecapCounted(DecapCounted(s, DecapProcessed), Decapsulated);
      var c := ForwardCounter(entered, Packets.Decapsulated(data, p.l3), p.l3, p.nexthop, x);
      ForwardConserves(s, c);
    } else {
      ParseConserves(s, if p.Tunnelled? then DecapFailed else ParseCounter(p));
    }
  }

  lemma SockOpConserves(s: State, op: SockOp, metrics: bool)
    requires Conserved(s)
    ensures Conserved(OnSockOp(s, op, metrics))
  {
  }

  lemma StepConserves(s: State, input: Input, s': State, out: Output)
    requires Conserved(s) && Step(s, input, s', out)
    ensures Conserved(s')
  {
    match input
    case Packet(skb, h) => EncapConserves(s, skb, h, s', out.tc);
    case Frame(data, x) => DecapConserves(s, data, x);
    case SocketOp(op, metrics) => SockOpConserves(s, op, metrics);
    case Rewrite(fib) =>
    case Close(socket) =>
  }

  lemma ConservedNext(states: seq<State>, inputs: seq<Input>, outs: seq<Output>, t: nat)
    requires Run(states, inputs, outs) && t < |inputs| && Conserved(states[t])
    ensures Conserved(states[t + 1])
  {
    assert StepAt(states, inputs, outs, t);
    StepConserves(states[t], inputs[t], states[t + 1], outs[t]);
  }

  /** Over every run the counters add up. */
  lemma {:induction false} CountersAreConserved(states: seq<State>, inputs: seq<Input>, outs: seq<Output>, t: nat)
    requires Run(states, inputs, outs) && t < |states|
    ensures Conserved(states[t])
  {
    if t == 0 {
    } else {
      CountersAreConserved(states, inputs, outs, t - 1);
      ConservedNext(states, inputs, outs, t - 1);
    }
  }

  // Sticky nexthops

  lemma StepKeepsSticky(s: State, input: Input, s': State, out: Output, socket: Socket)
    requires Step(s, input, s', out) && socket in s.sticky && input != Close(socket)
    ensures socket in s'.sticky && s'.sticky[socket] == s.sticky[socket]
  {
    if input.Frame? {
      DecapKeepsTables(s, input.data, input.xdp);
    } else if input.Packet? && input.tc.metrics && ParseEncap(input.skb.data, input.skb.protocol).Destined? {
      var p := ParseEncap(input.skb.data, input.skb.protocol);
      var choice :| EncapOn(s, input.skb, p.l3, p.dest, input.tc, choice, s', out.tc);
    }
  }

  /** A socket keeps its nexthop as long as it lives, whatever happens to the FIB. */
  lemma {:induction false} StickyPersists(states: seq<State>, inputs: seq<Input>, outs: seq<Output>, socket: Socket, t: nat, u: nat)
    requires Run(states, inputs, outs) && t <= u < |states|
    requires socket in states[t].sticky && forall i :: t <= i < u ==> inputs[i] != Close(socket)
    ensures socket in states[u].sticky && states[u].sticky[socket] == states[t].sticky[socket]
    decreases u - t
  {
    if t == u {
    } else {
      StickyPersists(states, inputs, outs, socket, t, u - 1);
      assert StepAt(states, inputs, outs, u - 1);
      StepKeepsSticky(states[u - 1], inputs[u - 1], states[u], outs[u - 1], socket);
    }
  }

  /** What is sent is a tunnel frame around the packet, and its nexthop is the sticky one if there is one. */
  lemma SentIsTunnelled(s: State, skb: Skb, h: TcHelpers, s': State, out: TcOutcome) returns (source: Octets16, room: Room)
    requires EncapStep(s, skb, h, s', out) && out.Sent?
    ensures SupportedL3(skb.protocol) && Tunnels(out.frame, skb.data, skb.protocol, source, out.nexthop, room)
    ensures HasSticky(s.sticky, skb.socket) ==> out.nexthop == s.sticky[skb.socket.value].nexthop
  {
    var p := ParseEncap(skb.data, skb.protocol);
    var choice :| EncapOn(s, skb, p.l3, p.dest, h, choice, s', out);
    source, room := LoadSource(skb.data, p.l3).value, h.room.value;
  }

  lemma SentToSticky(s: State, skb: Skb, h: TcHelpers, s': State, out: TcOutcome)
    requires EncapStep(s, skb, h, s', out) && out.Sent? && HasSticky(s.sticky, skb.socket)
    ensures ParseDecap(out.frame) == Tunnelled(skb.protocol, s.sticky[skb.socket.value].nexthop)
  {
    var source, room := SentIsTunnelled(s, skb, h, s', out);
    TunnelParses(out.frame, skb.data, skb.protocol, source, out.nexthop, room);
  }

  /** Once a socket has a nexthop, every later packet of it that is encapsulated goes there. */
  lemma StickyPackets(states: seq<State>, inputs: seq<Input>, outs: seq<Output>, socket: Socket, t: nat, u: nat)
    requires Run(states, inputs, outs) && t <= u < |inputs|
    requires socket in states[t].sticky && forall i :: t <= i < u ==> inputs[i] != Close(socket)
    requires inputs[u].Packet? && inputs[u].skb.socket == Some(socket) && outs[u].FromTc? && outs[u].tc.Sent?
    ensures ParseDecap(outs[u].tc.frame) == Tunnelled(inputs[u].skb.protocol, states[t].sticky[socket].nexthop)
  {
    StickyPersists(states, inputs, outs, socket, t, u);
    assert StepAt(states, inputs, outs, u);
    SentToSticky(states[u], inputs[u].skb, inputs[u].tc, states[u + 1], outs[u].tc);
  }

  /** Every RTT event for a socket names the nexthop and prefix stored with it. */
  lemma StickyEvents(states: seq<State>, inputs: seq<Input>, outs: seq<Output>, socket: Socket, t: nat, u: nat)
    requires Run(states, inputs, outs) && t <= u < |inputs|
    requires socket in states[t].sticky && forall i :: t <= i < u ==> inputs[i] != Close(socket)
    requires inputs[u].SocketOp? && inputs[u].op.RttCallback? && inputs[u].op.socket == Some(socket)
    ensures states[u + 1].events == states[u].events
         || states[u + 1].events == states[u].events + [RttEvent(states[t].sticky[socket].matched,
                                                                 states[t].sticky[socket].nexthop, inputs[u].op.sample)]
  {
    StickyPersists(states, inputs, outs, socket, t, u);
    assert StepAt(states, inputs, outs, u);
  }

  /** The destination of a packet that has one. */
  function DestOf(skb: Skb): Octets16
    requires ParseEncap(skb.data, skb.protocol).Destined?
  {
    ParseEncap(skb.data, skb.protocol).dest
  }

  /** The packet that gave a socket its nexthop: it drew it from the entry of its longest matching prefix. */
  ghost predicate StoredBy(s: State, input: Input, socket: Socket, stored: StickyNexthop) {
    && input.Packet? && input.skb.socket == Some(socket) && socket !in s.sticky
    && ParseEncap(input.skb.data, input.skb.protocol).Destined?
    && exists k :: LongestMatch(s.fib.Keys, DestOf(input.skb), k)
         && s.fib[k].matched == stored.matched
         && Draws(s.fib[k], input.tc.random % WEIGHT_DENOMINATOR, Selected(stored.nexthop))
  }

  /** Storing changes the socket of the packet only, and only on a fresh draw. */
  lemma StoreIsFresh(s: State, skb: Skb, l3: nat, dest: Octets16, h: TcHelpers, choice: Choice, s': State, socket: Socket)
    requires s' == AfterEncap(AfterChoice(Counted(s, EncapProcessed), skb, h, choice), h, choice)
    requires socket in s'.sticky && (socket !in s.sticky || s'.sticky[socket] != s.sticky[socket])
    ensures choice.Drawn? && skb.socket == Some(socket)
    ensures s'.sticky[socket] == StickyNexthop(choice.matched, choice.nexthop)
  {
  }

  lemma ChoiceIsDrawn(fib: KernelFib, sticky: map<Socket, StickyNexthop>, socket: Option<Socket>, dest: Octets16,
                      random: nat, choice: Choice) returns (k: Node)
    requires Chosen(fib, sticky, socket, dest, random, choice) && choice.Drawn?
    ensures !HasSticky(sticky, socket) && LongestMatch(fib.Keys, dest, k) && fib[k].matched == choice.matched
    ensures Draws(fib[k], random % WEIGHT_DENOMINATOR, Selected(choice.nexthop))
  {
    k :| LongestMatch(fib.Keys, dest, k) && ChosenFrom(fib[k], random, choice);
    var d :| Draws(fib[k], random % WEIGHT_DENOMINATOR, d) && choice == ChoiceOf(d, fib[k]);
    assert d == Selected(choice.nexthop);
  }

  lemma OnlyPacketsStore(s: State, input: Input, s': State, out: Output, socket: Socket)
    requires Step(s, input, s', out) && !input.Packet? && socket in s'.sticky
    ensures socket in s.sticky && s'.sticky[socket] == s.sticky[socket] && input != Close(socket)
  {
    if input.Frame? {
      DecapKeepsTables(s, input.data, input.xdp);
    }
  }

  lemma StoreIsDrawn(s: State, skb: Skb, h: TcHelpers, s': State, out: TcOutcome, socket: Socket)
    requires EncapStep(s, skb, h, s', out) && socket in s'.sticky
    requires socket !in s.sticky || s'.sticky[socket] != s.sticky[socket]
    ensures StoredBy(s, Packet(skb, h), socket, s'.sticky[socket])
  {
    var p := ParseEncap(skb.data, skb.protocol);
    var choice :| EncapOn(s, skb, p.l3, p.dest, h, choice, s', out);
    StoreIsFresh(s, skb, p.l3, p.dest, h, choice, s', socket);
    var k := ChoiceIsDrawn(s.fib, s.sticky, skb.socket, p.dest, h.random, choice);
  }

  /** Step `t` changed what the socket has stored. */
  ghost predicate StoresAt(states: seq<State>, t: nat, socket: Socket)
    requires t + 1 < |states|
  {
    && socket in states[t + 1].sticky
    && (socket !in states[t].sticky || states[t].sticky[socket] != states[t + 1].sticky[socket])
  }

  /** What a socket has after a step it had before, and has not closed since, unless this step stored it. */
  lemma StoredBefore(states: seq<State>, inputs: seq<Input>, outs: seq<Output>, socket: Socket, t: nat)
    requires Run(states, inputs, outs) && t < |inputs| && socket in states[t + 1].sticky && !StoresAt(states, t, socket)
    ensures inputs[t] != Close(socket)
  {
    assert StepAt(states, inputs, outs, t);
  }

  lemma StoredNow(states: seq<State>, inputs: seq<Input>, outs: seq<Output>, socket: Socket, t: nat)
    requires Run(states, inputs, outs) && t < |inputs| && StoresAt(states, t, socket)
    ensures StoredBy(states[t], inputs[t], socket, states[t + 1].sticky[socket])
  {
    assert StepAt(states, inputs, outs, t);
    if !inputs[t].Packet? {
      OnlyPacketsStore(states[t], inputs[t], states[t + 1], outs[t], socket);
    } else {
      StoreIsDrawn(states[t], inputs[t].skb, inputs[t].tc, states[t + 1], outs[t].tc, socket);
    }
  }

  lemma {:induction false} LastStored(states: seq<State>, inputs: seq<Input>, outs: seq<Output>, socket: Socket, u: nat)
    returns (t: nat)
    requires Run(states, inputs, outs) && u < |states| && socket in states[u].sticky
    ensures t < u && StoresAt(states, t, socket) && states[t + 1].sticky[socket] == states[u].sticky[socket]
    ensures forall i :: t < i < u ==> inputs[i] != Close(socket)
  {
    assert u > 0;
    if StoresAt(states, u - 1, socket) {
      t := u - 1;
    } else {
      StoredBefore(states, inputs, outs, socket, u - 1);
      t := LastStored(states, inputs, outs, socket, u - 1);
    }
  }

  /** Whatever a socket has stored was drawn by an earlier packet of its own, and not closed since. */
  lemma StickyIsAttributed(states: seq<State>, inputs: seq<Input>, outs: seq<Output>, socket: Socket, u: nat) returns (t: nat)
    requires Run(states, inputs, outs) && u < |states| && socket in states[u].sticky
    ensures t < u && StoredBy(states[t], inputs[t], socket, states[u].sticky[socket])
    ensures forall i :: t < i < u ==> inputs[i] != Close(socket)
  {
    t := LastStored(states, inputs, outs, socket, u);
    StoredNow(states, inputs, outs, socket, t);
  }

  // Sound tables

  ghost predicate SoundTables(inputs: seq<Input>) {
    forall t :: 0 <= t < |inputs| && inputs[t].Rewrite? ==> Steering.Sound(inputs[t].fib)
  }

  /** The key lies on the node a lookup finds. */
  ghost predicate LongestMatchKey(table: set<Node>, dest: Octets16, c: CNlri) {
    c.prefixLen <= 128 && LongestMatch(table, dest, KeyNode(c))
  }

  ghost predicate Unrefused(s: State) {
    Steering.Sound(s.fib) && Refusals(s.encap) == 0
  }

  lemma SkipRefusesNothing(m: EncapMetrics, c: EncapCounter)
    requires c in {EncapL3, EncapL4Load, EncapL4, EncapDestinationLoad}
    ensures Refusals(BumpEncap(BumpEncap(m, EncapProcessed), c)) == Refusals(m)
  {
  }

  lemma EncapIsUnrefused(s: State, skb: Skb, h: TcHelpers, s': State, out: TcOutcome)
    requires Unrefused(s) && EncapStep(s, skb, h, s', out) && EncapConserved(s.encap)
    ensures Unrefused(s')
  {
    var p := ParseEncap(skb.data, skb.protocol);
    if h.metrics && p.Destined? {
      var choice :| EncapOn(s, skb, p.l3, p.dest, h, choice, s', out);
      SoundIsDrawn(s, skb, p.dest, h.random, choice);
      ChoiceCounts(s, skb, h, choice);
      EncapCountersConserve(s.encap, h, choice, Stores(skb, h, choice));
    } else if h.metrics {
      CounterKinds(skb.data, skb.protocol);
      SkipRefusesNothing(s.encap, p.counter);
    }
  }

  lemma DecapKeepsTables(s: State, data: seq<Byte>, x: XdpHelpers)
    ensures var s' := Decapped(s, data, x).after;
            s'.fib == s.fib && s'.sticky == s.sticky && s'.encap == s.encap
  {
    var p := ParseDecap(data);
    if p.Tunnelled? {
      var entered := DecapCounted(DecapCounted(s, DecapProcessed), Decapsulated);
      var c := ForwardCounter(entered, Packets.Decapsulated(data, p.l3), p.l3, p.nexthop, x);
    }
  }

  lemma StepIsUnrefused(s: State, input: Input, s': State, out: Output)
    requires Unrefused(s) && Conserved(s) && Step(s, input, s', out) && (input.Rewrite? ==> Steering.Sound(input.fib))
    ensures Unrefused(s')
  {
    match input
    case Packet(skb, h) => EncapIsUnrefused(s, skb, h, s', out.tc);
    case Frame(data, x) => DecapKeepsTables(s, data, x);
    case SocketOp(op, metrics) =>
    case Rewrite(fib) =>
    case Close(socket) =>
  }

  lemma SoundIsDrawn(s: State, skb: Skb, dest: Octets16, random: nat, choice: Choice)
    requires Steering.Sound(s.fib) && Chosen(s.fib, s.sticky, skb.socket, dest, random, choice)
    ensures !choice.Refused?
    ensures choice.Drawn? ==> LongestMatchKey(s.fib.Keys, dest, choice.matched)
  {
    if choice.Refused? || choice.Drawn? {
      var k :| LongestMatch(s.fib.Keys, dest, k) && ChosenFrom(s.fib[k], random, choice);
      assert Steering.SoundEntry(k, s.fib[k]);
    }
  }

  /** With tables from the controller no draw is ever refused. */
  lemma {:induction false} SoundTablesDraw(states: seq<State>, inputs: seq<Input>, outs: seq<Output>, t: nat)
    requires Run(states, inputs, outs) && SoundTables(inputs) && t < |states|
    ensures Unrefused(states[t])
  {
    if t == 0 {
    } else {
      SoundTablesDraw(states, inputs, outs, t - 1);
      CountersAreConserved(states, inputs, outs, t - 1);
      assert StepAt(states, inputs, outs, t - 1);
      StepIsUnrefused(states[t - 1], inputs[t - 1], states[t], outs[t - 1]);
    }
  }

  lemma StoredIsNamed(s: State, input: Input, socket: Socket, stored: StickyNexthop)
    requires Steering.Sound(s.fib) && StoredBy(s, input, socket, stored)
    ensures LongestMatchKey(s.fib.Keys, DestOf(input.skb), stored.matched)
    ensures stored.nexthop in Steering.Named(s.fib[KeyNode(stored.matched)])
  {
    var k :| LongestMatch(s.fib.Keys, DestOf(input.skb), k) && s.fib[k].matched == stored.matched
             && Draws(s.fib[k], input.tc.random % WEIGHT_DENOMINATOR, Selected(stored.nexthop));
    assert Steering.SoundEntry(k, s.fib[k]);
  }

  /** Then what a socket has stored names the longest prefix that matched when it was stored. */
  lemma AttributionIsExact(states: seq<State>, inputs: seq<Input>, outs: seq<Output>, socket: Socket, u: nat)
    returns (t: nat)
    requires Run(states, inputs, outs) && SoundTables(inputs) && u < |states| && socket in states[u].sticky
    ensures t < u && StoredBy(states[t], inputs[t], socket, states[u].sticky[socket])
    ensures LongestMatchKey(states[t].fib.Keys, DestOf(inputs[t].skb), states[u].sticky[socket].matched)
    ensures states[u].sticky[socket].nexthop in Steering.Named(states[t].fib[KeyNode(states[u].sticky[socket].matched)])
  {
    t := StickyIsAttributed(states, inputs, outs, socket, u);
    SoundTablesDraw(states, inputs, outs, t);
    StoredIsNamed(states[t], inputs[t], socket, states[u].sticky[socket]);
  }

  // End to end

  /** The frame that leaves the far end when everything there succeeds. */
  ghost predicate Delivers(s: State, frame: seq<Byte>, x: XdpHelpers, egress: Egress, data: seq<Byte>) {
    var out := Decapped(s, frame, x);
    out.verdict == XdpRedirect(egress.ifindex) && |data| >= ETH_HLEN && out.data == Switched(data, egress)
  }

  /** A frame that parses as a tunnel to a nexthop of an egress interface, and decapsulates to `data`, is delivered there. */
  lemma FarEndDelivers(far: State, frame: seq<Byte>, data: seq<Byte>, l3: nat, nexthop: Octets16, x: XdpHelpers, egress: Egress)
    requires ParseDecap(frame) == Tunnelled(l3, nexthop) && Packets.Decapsulated(frame, l3) == data
    requires x.metrics && x.adjusts && x.redirects && egress.ifindex != x.ingress
    requires FromOctets(nexthop) in x.routes && x.routes[FromOctets(nexthop)] == egress
    requires WithLowerTtl(data, l3, x.big).Some?
    ensures Delivers(far, frame, x, egress, WithLowerTtl(data, l3, x.big).value)
  {
    LoweredIsLong(data, l3, x.big);
  }

  /**
   * The tunnel is transparent: a packet sent to a nexthop at one end leaves the other end, on the
   * interface that end has for the nexthop, as it was except for its TTL and Ethernet addresses.
   */
  lemma TunnelIsTransparent(s: State, skb: Skb, h: TcHelpers, s': State, out: TcOutcome,
                            far: State, x: XdpHelpers, egress: Egress)
    requires EncapStep(s, skb, h, s', out) && out.Sent?
    requires |skb.data| >= ETH_HLEN && ReadU16(skb.data, 12) == skb.protocol
    requires x.metrics && x.adjusts && x.redirects && egress.ifindex != x.ingress
    requires FromOctets(out.nexthop) in x.routes && x.routes[FromOctets(out.nexthop)] == egress
    requires WithLowerTtl(skb.data, skb.protocol, x.big).Some?
    ensures Delivers(far, out.frame, x, egress, WithLowerTtl(skb.data, skb.protocol, x.big).value)
  {
    var source, room := SentIsTunnelled(s, skb, h, s', out);
    TunnelParses(out.frame, skb.data, skb.protocol, source, out.nexthop, room);
    DecapUndoesEncap(out.frame, skb.data, skb.protocol, source, out.nexthop, room);
    FarEndDelivers(far, out.frame, skb.data, skb.protocol, out.nexthop, x, egress);
  }
}
