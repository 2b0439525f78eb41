/** The kernel programs: encapsulation with sticky nexthops, decapsulation, RTT events and counters. */
module DataPlane {
  import opened Addresses
  import opened LongestPrefix
  import opened Apportionment
  import opened Enumerations
  import opened Fib
  import opened RttWindows
  import opened Packets

  datatype DecapCounter =
    | DecapProcessed | DecapShortPacket | DecapOuterL3 | DecapOuterL4 | DecapInnerL3
    | DecapFailed | Decapsulated | DecapLookupFailed | DecapTtlFailed | DecapSameIfindex
    | DecapRedirectFailed | DecapRedirected

  datatype EncapCounter =
    | EncapProcessed | EncapL3 | EncapL4Load | EncapL4 | EncapDestinationLoad | EncapFailed
    | Encapsulated | StickyHit | StickyMiss | StickyStore | FibHit | FibMiss | InvalidCount
    | InvalidZeroWeight | InvalidSum

  datatype SockopsCounter =
    | RegistrationOk | RegistrationFailed | RttCallbacks | RttEvents | RttRingbufFull
    | RttStickyMiss | RttFamily

  datatype DecapMetrics = DecapMetrics(
    processed: nat, shortPacket: nat, outerL3: nat, outerL4: nat, innerL3: nat, failed: nat,
    decapsulated: nat, lookupFailed: nat, ttlFailed: nat, sameIfindex: nat,
    redirectFailed: nat, redirected: nat)

  datatype EncapMetrics = EncapMetrics(
    processed: nat, l3: nat, l4Load: nat, l4: nat, destinationLoad: nat, failed: nat,
    encapsulated: nat, stickyHit: nat, stickyMiss: nat, stickyStore: nat, fibHit: nat,
    fibMiss: nat, invalidCount: nat, invalidZeroWeight: nat, invalidSum: nat)

  datatype SockopsMetrics = SockopsMetrics(
    registrationOk: nat, registrationFailed: nat, callbacks: nat, events: nat,
    ringbufFull: nat, stickyMiss: nat, family: nat)

  function BumpDecap(m: DecapMetrics, c: DecapCounter): DecapMetrics {
    match c
    case DecapProcessed => m.(processed := m.processed + 1)
    case DecapShortPacket => m.(shortPacket := m.shortPacket + 1)
    case DecapOuterL3 => m.(outerL3 := m.outerL3 + 1)
    case DecapOuterL4 => m.(outerL4 := m.outerL4 + 1)
    case DecapInnerL3 => m.(innerL3 := m.innerL3 + 1)
    case DecapFailed => m.(failed := m.failed + 1)
    case Decapsulated => m.(decapsulated := m.decapsulated + 1)
    case DecapLookupFailed => m.(lookupFailed := m.lookupFailed + 1)
    case DecapTtlFailed => m.(ttlFailed := m.ttlFailed + 1)
    case DecapSameIfindex => m.(sameIfindex := m.sameIfindex + 1)
    case DecapRedirectFailed => m.(redirectFailed := m.redirectFailed + 1)
    case DecapRedirected => m.(redirected := m.redirected + 1)
  }

  function BumpEncap(m: EncapMetrics, c: EncapCounter): EncapMetrics {
    match c
    case EncapProcessed => m.(processed := m.processed + 1)
    case EncapL3 => m.(l3 := m.l3 + 1)
    case EncapL4Load => m.(l4Load := m.l4Load + 1)
    case EncapL4 => m.(l4 := m.l4 + 1)
    case EncapDestinationLoad => m.(destinationLoad := m.destinationLoad + 1)
    case EncapFailed => m.(failed := m.failed + 1)
    case Encapsulated => m.(encapsulated := m.encapsulated + 1)
    case StickyHit => m.(stickyHit := m.stickyHit + 1)
    case StickyMiss => m.(stickyMiss := m.stickyMiss + 1)
    case StickyStore => m.(stickyStore := m.stickyStore + 1)
    case FibHit => m.(fibHit := m.fibHit + 1)
    case FibMiss => m.(fibMiss := m.fibMiss + 1)
    case InvalidCount => m.(invalidCount := m.invalidCount + 1)
    case InvalidZeroWeight => m.(invalidZeroWeight := m.invalidZeroWeight + 1)
    case InvalidSum => m.(invalidSum := m.invalidSum + 1)
  }

  function BumpSockops(m: SockopsMetrics, c: SockopsCounter): SockopsMetrics {
    match c
    case RegistrationOk => m.(registrationOk := m.registrationOk + 1)
    case RegistrationFailed => m.(registrationFailed := m.registrationFailed + 1)
    case RttCallbacks => m.(callbacks := m.callbacks + 1)
    case RttEvents => m.(events := m.events + 1)
    case RttRingbufFull => m.(ringbufFull := m.ringbufFull + 1)
    case RttStickyMiss => m.(stickyMiss := m.stickyMiss + 1)
    case RttFamily => m.(family := m.family + 1)
  }

  type Socket = nat
  type KernelFib = f: map<Node, CFibEntry> | forall k :: k in f ==> Sized(f[k]) witness map[]

  datatype StickyNexthop = StickyNexthop(matched: CNlri, nexthop: Octets16)

  datatype State = State(fib: KernelFib, sticky: map<Socket, StickyNexthop>, events: seq<RttEvent>,
                         decap: DecapMetrics, encap: EncapMetrics, sockops: SockopsMetrics)

  /** Nothing stored, nothing counted. */
  ghost predicate Initial(s: State) {
    && s.fib == map[] && s.sticky == map[] && s.events == []
    && s.decap.processed <= 0 && s.decap.shortPacket <= 0 && s.decap.outerL3 <= 0
    && s.decap.outerL4 <= 0 && s.decap.innerL3 <= 0 && s.decap.failed <= 0
    && s.decap.decapsulated <= 0 && s.decap.lookupFailed <= 0 && s.decap.ttlFailed <= 0
    && s.decap.sameIfindex <= 0 && s.decap.redirectFailed <= 0 && s.decap.redirected <= 0
    && s.encap.processed <= 0 && s.encap.l3 <= 0 && s.encap.l4Load <= 0 && s.encap.l4 <= 0
    && s.encap.destinationLoad <= 0 && s.encap.failed <= 0 && s.encap.encapsulated <= 0
    && s.encap.stickyHit <= 0 && s.encap.stickyMiss <= 0 && s.encap.stickyStore <= 0
    && s.encap.fibHit <= 0 && s.encap.fibMiss <= 0 && s.encap.invalidCount <= 0
    && s.encap.invalidZeroWeight <= 0 && s.encap.invalidSum <= 0
    && s.sockops.registrationOk <= 0 && s.sockops.registrationFailed <= 0 && s.sockops.callbacks <= 0
    && s.sockops.events <= 0 && s.sockops.ringbufFull <= 0 && s.sockops.stickyMiss <= 0
    && s.sockops.family <= 0
  }

  function Counted(s: State, c: EncapCounter): State {
    s.(encap := BumpEncap(s.encap, c))
  }

  function DecapCounted(s: State, c: DecapCounter): State {
    s.(decap := BumpDecap(s.decap, c))
  }

  function SockopsCounted(s: State, c: SockopsCounter): State {
    s.(sockops := BumpSockops(s.sockops, c))
  }

  // Encapsulation

  /** A packet on its way out. Its protocol is the kernel's, not read from the frame. */
  datatype Skb = Skb(data: seq<Byte>, protocol: nat, socket: Option<Socket>)

  /** What the kernel helpers answer while one packet is encapsulated. */
  datatype TcHelpers = TcHelpers(metrics: bool, random: nat, stores: bool, room: Option<Room>, linear: nat)

  datatype EncapParse = Skipped(counter: EncapCounter) | Destined(l3: nat, dest: Octets16)

  function ParseEncap(data: seq<Byte>, protocol: nat): EncapParse {
    if !SupportedL3(protocol) then Skipped(EncapL3)
    else match LoadL4(data, protocol)
      case None => Skipped(EncapL4Load)
      case Some(l4) =>
        if !SupportedL4(l4) then Skipped(EncapL4)
        else match LoadDestination(data, protocol)
          case None => Skipped(EncapDestinationLoad)
          case Some(dest) => Destined(protocol, dest)
  }

  /** How a packet gets its nexthop, if it does. */
  datatype Choice = Kept(nexthop: Octets16) | NoEntry | Refused(counter: EncapCounter) | Drawn(nexthop: Octets16, matched: CNlri)

  predicate HasSticky(sticky: map<Socket, StickyNexthop>, socket: Option<Socket>) {
    socket.Some? && socket.value in sticky
  }

  function RefusalCounter(d: Draw): EncapCounter
    requires !d.Selected?
  {
    match d
    case InvalidNexthopCount => InvalidCount
    case ZeroWeight => InvalidZeroWeight
    case InvalidWeightSum => InvalidSum
  }

  function ChoiceOf(d: Draw, entry: CFibEntry): Choice {
    if d.Selected? then Drawn(d.nexthop, entry.matched) else Refused(RefusalCounter(d))
  }

  ghost predicate ChosenFrom(entry: CFibEntry, random: nat, choice: Choice)
    requires Sized(entry)
  {
    exists d :: Draws(entry, random % WEIGHT_DENOMINATOR, d) && choice == ChoiceOf(d, entry)
  }

  /** A sticky nexthop goes first; otherwise one is drawn from the entry of the longest matching prefix. */
  ghost predicate Chosen(fib: KernelFib, sticky: map<Socket, StickyNexthop>, socket: Option<Socket>,
                         dest: Octets16, random: nat, choice: Choice) {
    if HasSticky(sticky, socket) then choice == Kept(sticky[socket.value].nexthop)
    else if choice.NoEntry? then forall k :: k in fib ==> !NodeMatches(k, dest)
    else exists k :: LongestMatch(fib.Keys, dest, k) && ChosenFrom(fib[k], random, choice)
  }

  datatype TcOutcome = Passed | Shot | Sent(nexthop: Octets16, frame: seq<Byte>)

  predicate Stores(skb: Skb, h: TcHelpers, choice: Choice) {
    choice.Drawn? && skb.socket.Some? && h.stores
  }

  function Stuck(s: State, skb: Skb, choice: Choice): State
    requires choice.Drawn? && skb.socket.Some?
  {
    s.(sticky := s.sticky[skb.socket.value := StickyNexthop(choice.matched, choice.nexthop)])
  }

  /** What choosing counts, and what it stores with the socket. */
  function AfterChoice(s: State, skb: Skb, h: TcHelpers, choice: Choice): State {
    match choice
    case Kept(_) => Counted(s, StickyHit)
    case NoEntry => Counted(Counted(s, StickyMiss), FibMiss)
    case Refused(c) => Counted(Counted(Counted(s, StickyMiss), FibHit), c)
    case Drawn(_, _) =>
      var drawn := Counted(Counted(s, StickyMiss), FibHit);
      if Stores(skb, h, choice) then Counted(Stuck(drawn, skb, choice), StickyStore) else drawn
  }

  predicate MakesRoom(h: TcHelpers) {
    h.room.Some? && h.linear >= ETH_HLEN + ENCAP_LEN
  }

  function AfterEncap(s: State, h: TcHelpers, choice: Choice): State {
    if choice.NoEntry? || choice.Refused? then s
    else Counted(s, if MakesRoom(h) then Encapsulated else EncapFailed)
  }

  ghost predicate TcOutcomeOf(skb: Skb, l3: nat, h: TcHelpers, choice: Choice, out: TcOutcome) {
    if choice.NoEntry? || choice.Refused? then out == Passed
    else if !MakesRoom(h) then out == Shot
    else
      && out.Sent? && out.nexthop == choice.nexthop && LoadSource(skb.data, l3).Some?
      && Tunnels(out.frame, skb.data, l3, LoadSource(skb.data, l3).value, choice.nexthop, h.room.value)
  }

  /** Encapsulating on a choice. */
  ghost predicate EncapOn(s: State, skb: Skb, l3: nat, dest: Octets16, h: TcHelpers, choice: Choice,
                          s': State, out: TcOutcome) {
    && Chosen(s.fib, s.sticky, skb.socket, dest, h.random, choice)
    && TcOutcomeOf(skb, l3, h, choice, out)
    && s' == AfterEncap(AfterChoice(Counted(s, EncapProcessed), skb, h, choice), h, choice)
  }

  ghost predicate EncapStep(s: State, skb: Skb, h: TcHelpers, s': State, out: TcOutcome) {
    if !h.metrics then s' == s && out == Shot
    else match ParseEncap(skb.data, skb.protocol)
      case Skipped(c) => s' == Counted(Counted(s, EncapProcessed), c) && out == Passed
      case Destined(l3, dest) =>
        exists choice :: EncapOn(s, skb, l3, dest, h, choice, s', out)
  }

  // Decapsulation

  datatype Egress = Egress(ifindex: nat, dmac: Mac, smac: Mac)

  /** The kernel's answers while one frame is decapsulated; `routes` is its routing table. */
  datatype XdpHelpers = XdpHelpers(metrics: bool, adjusts: bool, routes: map<IpAddr, Egress>, redirects: bool,
                                   ingress: nat, big: bool)

  datatype XdpVerdict = XdpAborted | XdpDrop | XdpPass | XdpRedirect(ifindex: nat)
  datatype XdpOutcome = XdpOutcome(verdict: XdpVerdict, data: seq<Byte>, after: State)

  function Switched(data: seq<Byte>, e: Egress): seq<Byte>
    requires |data| >= ETH_HLEN
  {
    e.dmac + e.smac + data[2 * ETH_ALEN..]
  }

  lemma SwitchedByStores(data: seq<Byte>, e: Egress)
    requires |data| >= ETH_HLEN
    ensures Stored(Stored(data, 0, e.dmac), ETH_ALEN, e.smac) == Switched(data, e)
  {
  }

  /** Forwarding the inner packet. A frame too short for its Ethernet header would pass uncounted. */
  function Forwarded(s: State, data: seq<Byte>, l3: nat, nexthop: Octets16, x: XdpHelpers): XdpOutcome {
    var dest := FromOctets(nexthop);
    if dest !in x.routes then XdpOutcome(XdpPass, data, DecapCounted(s, DecapLookupFailed))
    else match WithLowerTtl(data, l3, x.big)
      case None => XdpOutcome(XdpPass, data, DecapCounted(s, DecapTtlFailed))
      case Some(lowered) =>
        if |lowered| < ETH_HLEN then XdpOutcome(XdpPass, lowered, s)
        else
          var e := x.routes[dest];
          if e.ifindex == x.ingress then XdpOutcome(XdpPass, Switched(lowered, e), DecapCounted(s, DecapSameIfindex))
          else if !x.redirects then XdpOutcome(XdpAborted, Switched(lowered, e), DecapCounted(s, DecapRedirectFailed))
          else XdpOutcome(XdpRedirect(e.ifindex), Switched(lowered, e), DecapCounted(s, DecapRedirected))
  }

  function ParseCounter(p: DecapParse): DecapCounter
    requires !p.Tunnelled?
  {
    match p
    case ShortPacket => DecapShortPacket
    case WrongOuterL3 => DecapOuterL3
    case WrongOuterL4 => DecapOuterL4
    case WrongInnerL3 => DecapInnerL3
  }

  function Decapped(s: State, data: seq<Byte>, x: XdpHelpers): XdpOutcome {
    if !x.metrics then XdpOutcome(XdpAborted, data, s)
    else
      var processed := DecapCounted(s, DecapProcessed);
      match ParseDecap(data)
      case Tunnelled(l3, nexthop) =>
        if !x.adjusts then XdpOutcome(XdpDrop, data, DecapCounted(processed, DecapFailed))
        else Forwarded(DecapCounted(processed, Decapsulated), Packets.Decapsulated(data, l3), l3, nexthop, x)
      case p => XdpOutcome(XdpPass, data, DecapCounted(processed, ParseCounter(p)))
  }

  // RTT callbacks

  const AF_INET: nat := 2
  const AF_INET6: nat := 10

  datatype SockOp =
    | Established(registers: bool)
    | RttCallback(family: nat, socket: Option<Socket>, reserves: bool, sample: Sample)
    | OtherOp

  function OnRtt(s: State, op: SockOp): State
    requires op.RttCallback?
  {
    var called := SockopsCounted(s, RttCallbacks);
    if op.family != AF_INET && op.family != AF_INET6 then SockopsCounted(called, RttFamily)
    else if !HasSticky(s.sticky, op.socket) then SockopsCounted(called, RttStickyMiss)
    else if !op.reserves then SockopsCounted(called, RttRingbufFull)
    else
      var sticky := s.sticky[op.socket.value];
      SockopsCounted(called.(events := s.events + [RttEvent(sticky.matched, sticky.nexthop, op.sample)]), RttEvents)
  }

  function OnSockOp(s: State, op: SockOp, metrics: bool): State {
    if !metrics then s
    else match op
      case Established(registers) => SockopsCounted(s, if registers then RegistrationOk else RegistrationFailed)
      case RttCallback(_, _, _, _) => OnRtt(s, op)
      case OtherOp => s
  }

  // The programs

  class Programs {
    var fib: KernelFib
    var sticky: map<Socket, StickyNexthop>
    var events: seq<RttEvent>
    var decap: DecapMetrics
    var encap: EncapMetrics
    var sockops: SockopsMetrics

    constructor ()
      ensures Initial(View())
    {
      fib, sticky, events := map[], map[], [];
      decap := DecapMetrics(0, 0, 0, 0, 0, 0, 0, 0, 0, 0, 0, 0);
      encap := EncapMetrics(0, 0, 0, 0, 0, 0, 0, 0, 0, 0, 0, 0, 0, 0, 0);
      sockops := SockopsMetrics(0, 0, 0, 0, 0, 0, 0);
    }

    ghost function View(): State
      reads this
    {
      State(fib, sticky, events, decap, encap, sockops)
    }

    method Count(c: EncapCounter)
      modifies this`encap
      ensures View() == Counted(old(View()), c)
    {
      encap := BumpEncap(encap, c);
    }

    method CountDecap(c: DecapCounter)
      modifies this`decap
      ensures View() == DecapCounted(old(View()), c)
    {
      decap := BumpDecap(decap, c);
    }

    method CountSockops(c: SockopsCounter)
      modifies this`sockops
      ensures View() == SockopsCounted(old(View()), c)
    {
      sockops := BumpSockops(sockops, c);
    }

    /** The trie's lookup: the longest prefix that matches. */
    method Lookup(dest: Octets16) returns (node: Option<Node>)
      ensures node.None? ==> forall k :: k in fib ==> !NodeMatches(k, dest)
      ensures node.Some? ==> LongestMatch(fib.Keys, dest, node.value)
    {
      node := None;
      var nodes := Enumerate(fib.Keys);
      for i := 0 to |nodes|
        invariant node.None? ==> forall j :: 0 <= j < i ==> !NodeMatches(nodes[j], dest)
        invariant node.Some? ==> node.value in fib && NodeMatches(node.value, dest)
        invariant node.Some? ==> forall j :: 0 <= j < i && NodeMatches(nodes[j], dest) ==> |nodes[j]| <= |node.value|
      {
        assert nodes[i] in nodes;
        if NodeMatches(nodes[i], dest) && (node.None? || |nodes[i]| > |node.value|) {
          node := Some(nodes[i]);
        }
      }
    }

    method Parse(data: seq<Byte>, protocol: nat) returns (p: EncapParse)
      modifies this`encap
      ensures p == ParseEncap(data, protocol)
      ensures View() == if p.Skipped? then Counted(old(View()), p.counter) else old(View())
    {
      if !SupportedL3(protocol) {
        Count(EncapL3);
        return Skipped(EncapL3);
      }
      var l4 := LoadL4(data, protocol);
      if l4.None? {
        Count(EncapL4Load);
        return Skipped(EncapL4Load);
      }
      if !SupportedL4(l4.value) {
        Count(EncapL4);
        return Skipped(EncapL4);
      }
      var dest := LoadDestination(data, protocol);
      if dest.None? {
        Count(EncapDestinationLoad);
        return Skipped(EncapDestinationLoad);
      }
      return Destined(protocol, dest.value);
    }

    method Choose(skb: Skb, dest: Octets16, h: TcHelpers) returns (choice: Choice)
      modifies this
      ensures Chosen(old(fib), old(sticky), skb.socket, dest, h.random, choice)
      ensures View() == AfterChoice(old(View()), skb, h, choice)
    {
      if skb.socket.Some? && skb.socket.value in sticky {
        Count(StickyHit);
        return Kept(sticky[skb.socket.value].nexthop);
      }
      Count(StickyMiss);
      var node := Lookup(dest);
      if node.None? {
        Count(FibMiss);
        return NoEntry;
      }
      Count(FibHit);
      var entry := fib[node.value];
      var draw := SelectNexthop(entry, h.random);
      choice := ChoiceOf(draw, entry);
      assert ChosenFrom(entry, h.random, choice);
      if choice.Refused? {
        Count(choice.counter);
      } else if skb.socket.Some? && h.stores {
        sticky := sticky[skb.socket.value := StickyNexthop(choice.matched, choice.nexthop)];
        Count(StickyStore);
      }
    }

    method Send(buffer: Buffer, skb: Skb, l3: nat, h: TcHelpers, choice: Choice) returns (out: TcOutcome)
      requires buffer.data == skb.data && LoadDestination(skb.data, l3).Some?
      modifies this`encap, buffer
      ensures TcOutcomeOf(skb, l3, h, choice, out) && View() == AfterEncap(old(View()), h, choice)
      ensures out.Passed? ==> buffer.data == skb.data
      ensures out.Sent? ==> buffer.data == out.frame
    {
      if choice.NoEntry? || choice.Refused? {
        return Passed;
      }
      SourceLoads(skb.data, l3);
      var ok := Encapsulate(buffer, l3, choice.nexthop, h.room, h.linear);
      if !ok {
        Count(EncapFailed);
        return Shot;
      }
      Count(Encapsulated);
      return Sent(choice.nexthop, buffer.data);
    }

    /** The traffic-control program. */
    method Encap(buffer: Buffer, protocol: nat, socket: Option<Socket>, h: TcHelpers) returns (out: TcOutcome)
      modifies this, buffer
      ensures EncapStep(old(View()), Skb(old(buffer.data), protocol, socket), h, View(), out)
      ensures out.Passed? ==> buffer.data == old(buffer.data)
      ensures out.Sent? ==> buffer.data == out.frame
    {
      if !h.metrics {
        return Shot;
      }
      var skb := Skb(buffer.data, protocol, socket);
      Count(EncapProcessed);
      var p := Parse(buffer.data, protocol);
      if p.Skipped? {
        return Passed;
      }
      var choice := Choose(skb, p.dest, h);
      out := Send(buffer, skb, p.l3, h, choice);
      assert EncapOn(old(View()), skb, p.l3, p.dest, h, choice, View(), out);
    }

    method Forward(buffer: Buffer, l3: nat, nexthop: Octets16, x: XdpHelpers) returns (verdict: XdpVerdict)
      modifies this`decap, buffer
      ensures XdpOutcome(verdict, buffer.data, View()) == Forwarded(old(View()), old(buffer.data), l3, nexthop, x)
    {
      var dest := FromOctets(nexthop);
      if dest !in x.routes {
        CountDecap(DecapLookupFailed);
        return XdpPass;
      }
      var lowered := LowerTtl(buffer, l3, x.big);
      if !lowered {
        CountDecap(DecapTtlFailed);
        return XdpPass;
      }
      if |buffer.data| < ETH_HLEN {
        return XdpPass;
      }
      var e := x.routes[dest];
      SwitchedByStores(buffer.data, e);
      buffer.Store(0, e.dmac);
      buffer.Store(ETH_ALEN, e.smac);
      if e.ifindex == x.ingress {
        CountDecap(DecapSameIfindex);
        return XdpPass;
      }
      if !x.redirects {
        CountDecap(DecapRedirectFailed);
        return XdpAborted;
      }
      CountDecap(DecapRedirected);
      return XdpRedirect(e.ifindex);
    }

    /** The receive program. What is left of a dropped frame does not matter. */
    method Decap(buffer: Buffer, x: XdpHelpers) returns (verdict: XdpVerdict)
      modifies this`decap, buffer
      ensures var out := Decapped(old(View()), old(buffer.data), x);
              verdict == out.verdict && View() == out.after && (verdict.XdpDrop? || buffer.data == out.data)
    {
      if !x.metrics {
        return XdpAborted;
      }
      CountDecap(DecapProcessed);
      var p := ParseDecap(buffer.data);
      if !p.Tunnelled? {
        CountDecap(ParseCounter(p));
        return XdpPass;
      }
      var ok := Decapsulate(buffer, p.l3, x.adjusts);
      if !ok {
        CountDecap(DecapFailed);
        return XdpDrop;
      }
      CountDecap(Decapsulated);
      verdict := Forward(buffer, p.l3, p.nexthop, x);
    }

    method EmitRtt(op: SockOp)
      requires op.RttCallback?
      modifies this
      ensures View() == OnRtt(old(View()), op)
    {
      CountSockops(RttCallbacks);
      if op.family != AF_INET && op.family != AF_INET6 {
        CountSockops(RttFamily);
        return;
      }
      if op.socket.None? || op.socket.value !in sticky {
        CountSockops(RttStickyMiss);
        return;
      }
      if !op.reserves {
        CountSockops(RttRingbufFull);
        return;
      }
      var stored := sticky[op.socket.value];
      events := events + [RttEvent(stored.matched, stored.nexthop, op.sample)];
      CountSockops(RttEvents);
    }

    method SockOps(op: SockOp, available: bool)
      modifies this
      ensures View() == OnSockOp(old(View()), op, available)
    {
      if !available {
        return;
      }
      match op
      case Established(registers) => CountSockops(if registers then RegistrationOk else RegistrationFailed);
      case RttCallback(_, _, _, _) => EmitRtt(op);
      case OtherOp =>
    }
  }
}
