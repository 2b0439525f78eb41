/** The loop from the controller's tables through the kernel's packets and RTT events back to the controller. */
module SteeringLoop {
  import opened Addresses
  import opened LongestPrefix
  import opened RttWindows
  import opened DataPlane
  import opened DataPlaneRuns
  import opened Headers
  import Controller
  import Steering = SteeringRuns

  // Tables from the controller

  /** The table is what the controller has written after some history. */
  ghost predicate FromController(fib: KernelFib) {
    exists history, s :: Controller.Leads(Steering.INIT, history, s) && s.fib == fib
  }

  ghost predicate ControllerTables(inputs: seq<Input>) {
    forall t :: 0 <= t < |inputs| && inputs[t].Rewrite? ==> FromController(inputs[t].fib)
  }

  lemma ControllerTablesAreSound(inputs: seq<Input>)
    requires ControllerTables(inputs)
    ensures SoundTables(inputs)
  {
    forall t | 0 <= t < |inputs| && inputs[t].Rewrite?
      ensures Steering.Sound(inputs[t].fib)
    {
      var history, s :| Controller.Leads(Steering.INIT, history, s) && s.fib == inputs[t].fib;
      Steering.RunsAreSound(history, s);
    }
  }

  lemma FibNext(states: seq<State>, inputs: seq<Input>, outs: seq<Output>, t: nat)
    requires Run(states, inputs, outs) && t < |inputs|
    ensures states[t + 1].fib == if inputs[t].Rewrite? then inputs[t].fib else states[t].fib
  {
    assert StepAt(states, inputs, outs, t);
    var s, s' := states[t], states[t + 1];
    if inputs[t].Frame? {
      DecapKeepsTables(s, inputs[t].data, inputs[t].xdp);
    } else if inputs[t].Packet? {
      EncapKeepsFib(s, inputs[t].skb, inputs[t].tc, s', outs[t].tc);
    }
  }

  lemma EncapKeepsFib(s: State, skb: Skb, h: TcHelpers, s': State, out: TcOutcome)
    requires EncapStep(s, skb, h, s', out)
    ensures s'.fib == s.fib && s'.events == s.events
  {
    var p := ParseEncap(skb.data, skb.protocol);
    if h.metrics && p.Destined? {
      var choice :| EncapOn(s, skb, p.l3, p.dest, h, choice, s', out);
      ChoiceCounts(s, skb, h, choice);
    }
  }

  /** The table the kernel uses was written by the controller. */
  lemma {:induction false} FibFromController(states: seq<State>, inputs: seq<Input>, outs: seq<Output>, t: nat)
    requires Run(states, inputs, outs) && ControllerTables(inputs) && t < |states|
    ensures FromController(states[t].fib)
  {
    if t == 0 {
      assert Controller.Leads(Steering.INIT, [], Steering.INIT) && Steering.INIT.fib == states[0].fib;
    } else {
      FibFromController(states, inputs, outs, t - 1);
      FibNext(states, inputs, outs, t - 1);
    }
  }

  /** Event `e` was emitted for a socket that has its prefix and nexthop stored. */
  ghost predicate Emitted(s: State, socket: Socket, e: RttEvent) {
    socket in s.sticky && s.sticky[socket].matched == e.matched && s.sticky[socket].nexthop == e.nexthop
  }

  lemma EventsNext(states: seq<State>, inputs: seq<Input>, outs: seq<Output>, t: nat, e: RttEvent)
    requires Run(states, inputs, outs) && t < |inputs| && e in states[t + 1].events
    ensures e in states[t].events || exists socket :: Emitted(states[t], socket, e)
  {
    assert StepAt(states, inputs, outs, t);
    var s := states[t];
    match inputs[t]
    case Packet(skb, h) => EncapKeepsFib(s, skb, h, states[t + 1], outs[t].tc);
    case Frame(data, x) => DecapKeepsTables(s, data, x);
    case SocketOp(op, metrics) =>
      if e !in s.events {
        assert Emitted(s, op.socket.value, e);
      }
    case Rewrite(fib) =>
    case Close(socket) =>
  }

  lemma {:induction false} EventsAreEmitted(states: seq<State>, inputs: seq<Input>, outs: seq<Output>, u: nat, e: RttEvent)
    returns (t: nat, socket: Socket)
    requires Run(states, inputs, outs) && u < |states| && e in states[u].events
    ensures t < u && Emitted(states[t], socket, e)
  {
    assert u > 0;
    EventsNext(states, inputs, outs, u - 1, e);
    if e in states[u - 1].events {
      t, socket := EventsAreEmitted(states, inputs, outs, u - 1, e);
    } else {
      t := u - 1;
      socket :| Emitted(states[t], socket, e);
    }
  }

  /** A history of the controller that led to the table vouches for a nexthop of a prefix that has a path in it. */
  ghost predicate Vouched(history: seq<Controller.Event>, s: Controller.State, fib: KernelFib, n: Nlri, nexthop: Octets16) {
    && Controller.Leads(Steering.INIT, history, s) && s.fib == fib && Steering.HasPath(history, n)
    && nexthop in Steering.OctetsOf(Steering.Shown(history, n))
    && (!Steering.Stale(history, n) ==> Steering.Shown(history, n) == Steering.Due(s.table, n))
  }

  /**
   * With no mapped IPv6 prefix left and no entry taken by a clash, the prefix is the longest with a
   * path that covers the destination; an IPv4 destination that none covers gets a short IPv6 prefix.
   */
  ghost predicate Preferred(history: seq<Controller.Event>, s: Controller.State, dest: IpAddr, n: Nlri) {
    Steering.NoneLostFor(history, ToOctets(dest)) && NoMappedV6(s.table.Keys) ==>
      if Covered(s.table.Keys, dest) then n.addr.V4? == dest.V4? && LongestCover(s.table.Keys, dest, n)
      else dest.V4? && n.addr.V6? && n.len < 96
  }

  /** What is drawn from the longest match in a table of the controller. */
  lemma DrawnIsVouched(fib: KernelFib, dest: Octets16, k: Node, nexthop: Octets16)
    returns (history: seq<Controller.Event>, s: Controller.State, n: Nlri)
    requires FromController(fib) && LongestMatch(fib.Keys, dest, k) && nexthop in Steering.Named(fib[k])
    ensures Vouched(history, s, fib, n, nexthop) && fib[k].matched == ToKey(n)
    ensures Preferred(history, s, FromOctets(dest), n)
  {
    history, s :| Controller.Leads(Steering.INIT, history, s) && s.fib == fib;
    var addr := FromOctets(dest);
    AddressRoundTrip(V6(dest));
    if Steering.NoneLostFor(history, dest) && NoMappedV6(s.table.Keys) {
      n := Steering.LookupIsLongest(history, s, addr, k);
    } else {
      n := Steering.ClashedEntry(history, s, k);
    }
  }

  /**
   * Every RTT event is attributed: an earlier packet of its socket drew the event's nexthop from the
   * longest match in a table of the controller, which vouches for that nexthop of a prefix with a
   * path, and the event carries the key of that prefix. The collector can read the key, and reads
   * that prefix, unless the prefix lies in the mapped range.
   */
  lemma EventsAreAttributed(states: seq<State>, inputs: seq<Input>, outs: seq<Output>, u: nat, e: RttEvent)
    returns (t: nat, history: seq<Controller.Event>, s: Controller.State, owner: Nlri)
    requires Run(states, inputs, outs) && ControllerTables(inputs) && u < |states| && e in states[u].events
    ensures t < u && inputs[t].Packet? && ParseEncap(inputs[t].skb.data, inputs[t].skb.protocol).Destined?
    ensures LongestMatch(states[t].fib.Keys, DestOf(inputs[t].skb), NodeOf(owner))
    ensures states[t].fib[NodeOf(owner)].matched == e.matched == ToKey(owner)
    ensures Vouched(history, s, states[t].fib, owner, e.nexthop)
    ensures Preferred(history, s, FromOctets(DestOf(inputs[t].skb)), owner)
    ensures FromKey(e.matched) == Some(owner) <==> !IsMappedV6(owner)
    ensures FromKey(e.matched).Some? <==> !(IsMappedV6(owner) && owner.len < 96)
  {
    ControllerTablesAreSound(inputs);
    var v, socket := EventsAreEmitted(states, inputs, outs, u, e);
    t := AttributionIsExact(states, inputs, outs, socket, v);
    SoundTablesDraw(states, inputs, outs, t);
    FibFromController(states, inputs, outs, t);
    var node := KeyNode(e.matched);
    history, s, owner := DrawnIsVouched(states[t].fib, DestOf(inputs[t].skb), node, e.nexthop);
    assert states[t].fib[node].matched == e.matched;
    KeyRoundTrip(owner);
    KeyReadable(owner);
  }

  ghost predicate CanonicalTable(fib: KernelFib) {
    forall k :: k in fib ==> Canonical(fib[k].matched)
  }

  lemma {:induction false} FibIsCanonical(states: seq<State>, inputs: seq<Input>, outs: seq<Output>, t: nat)
    requires Run(states, inputs, outs) && t < |states|
    requires forall i :: 0 <= i < |inputs| && inputs[i].Rewrite? ==> CanonicalTable(inputs[i].fib)
    ensures CanonicalTable(states[t].fib)
  {
    if t == 0 {
    } else {
      FibIsCanonical(states, inputs, outs, t - 1);
      FibNext(states, inputs, outs, t - 1);
    }
  }

  /** With prefixes whose host bits are zero the collector can read every event. */
  lemma EventsAreReadable(states: seq<State>, inputs: seq<Input>, outs: seq<Output>, u: nat, e: RttEvent)
    requires Run(states, inputs, outs) && ControllerTables(inputs) && u < |states| && e in states[u].events
    requires forall i :: 0 <= i < |inputs| && inputs[i].Rewrite? ==> CanonicalTable(inputs[i].fib)
    ensures FromKey(e.matched).Some?
  {
    var t, history, s, owner := EventsAreAttributed(states, inputs, outs, u, e);
    FibIsCanonical(states, inputs, outs, t);
    CanonicalIsReadable(e.matched);
  }

  lemma SentByChoice(fib: KernelFib, sticky: map<Socket, StickyNexthop>, skb: Skb, l3: nat, dest: Octets16, h: TcHelpers,
                     choice: Choice, out: TcOutcome)
    requires Chosen(fib, sticky, skb.socket, dest, h.random, choice) && TcOutcomeOf(skb, l3, h, choice, out)
    requires out.Sent? && !HasSticky(sticky, skb.socket)
    ensures choice.Drawn? && out.nexthop == choice.nexthop
  {
  }

  lemma SentIsDrawn(s: State, skb: Skb, h: TcHelpers, s': State, out: TcOutcome) returns (k: Node)
    requires EncapStep(s, skb, h, s', out) && out.Sent? && !HasSticky(s.sticky, skb.socket)
    ensures ParseEncap(skb.data, skb.protocol).Destined? && LongestMatch(s.fib.Keys, DestOf(skb), k)
    ensures out.nexthop in Steering.Named(s.fib[k])
  {
    var p := ParseEncap(skb.data, skb.protocol);
    var choice :| EncapOn(s, skb, p.l3, p.dest, h, choice, s', out);
    SentByChoice(s.fib, s.sticky, skb, p.l3, p.dest, h, choice, out);
    k := ChoiceIsDrawn(s.fib, s.sticky, skb.socket, p.dest, h.random, choice);
  }

  /**
   * A packet of a socket without a nexthop, if it is sent, goes to one that a table of the controller
   * names for the longest prefix with a path that covers its destination.
   */
  lemma SentToLongest(states: seq<State>, inputs: seq<Input>, outs: seq<Output>, t: nat)
    returns (history: seq<Controller.Event>, s: Controller.State, n: Nlri)
    requires Run(states, inputs, outs) && ControllerTables(inputs) && t < |inputs|
    requires inputs[t].Packet? && outs[t].FromTc? && outs[t].tc.Sent? && !HasSticky(states[t].sticky, inputs[t].skb.socket)
    ensures ParseEncap(inputs[t].skb.data, inputs[t].skb.protocol).Destined?
    ensures LongestMatch(states[t].fib.Keys, DestOf(inputs[t].skb), NodeOf(n))
    ensures Vouched(history, s, states[t].fib, n, outs[t].tc.nexthop)
    ensures Preferred(history, s, FromOctets(DestOf(inputs[t].skb)), n)
  {
    assert StepAt(states, inputs, outs, t);
    ControllerTablesAreSound(inputs);
    SoundTablesDraw(states, inputs, outs, t);
    FibFromController(states, inputs, outs, t);
    var k := SentIsDrawn(states[t], inputs[t].skb, inputs[t].tc, states[t + 1], outs[t].tc);
    history, s, n := DrawnIsVouched(states[t].fib, DestOf(inputs[t].skb), k, outs[t].tc.nexthop);
    assert Steering.SoundEntry(k, states[t].fib[k]);
  }

  /** On records: an IPv4 packet goes where the longest IPv4 prefix with a path that covers its destination sends it. */
  lemma Sent4ToLongest(states: seq<State>, inputs: seq<Input>, outs: seq<Output>, t: nat, e: Ether, h: Ip4, payload: seq<Byte>)
    returns (history: seq<Controller.Event>, s: Controller.State, n: Nlri)
    requires Run(states, inputs, outs) && ControllerTables(inputs) && t < |inputs|
    requires inputs[t].Packet? && outs[t].FromTc? && outs[t].tc.Sent? && !HasSticky(states[t].sticky, inputs[t].skb.socket)
    requires inputs[t].skb.data == Frame4(e, h, payload) && inputs[t].skb.protocol == 0x0800
    ensures Vouched(history, s, states[t].fib, n, outs[t].tc.nexthop) && Preferred(history, s, V4(h.dst), n)
  {
    history, s, n := SentToLongest(states, inputs, outs, t);
    Reads4(e, h, payload);
    AddressRoundTrip(V4(h.dst));
  }

  /** And an IPv6 packet, to the longest IPv6 prefix. */
  lemma Sent6ToLongest(states: seq<State>, inputs: seq<Input>, outs: seq<Output>, t: nat, e: Ether, h: Ip6, payload: seq<Byte>)
    returns (history: seq<Controller.Event>, s: Controller.State, n: Nlri)
    requires Run(states, inputs, outs) && ControllerTables(inputs) && t < |inputs|
    requires inputs[t].Packet? && outs[t].FromTc? && outs[t].tc.Sent? && !HasSticky(states[t].sticky, inputs[t].skb.socket)
    requires inputs[t].skb.data == Frame6(e, h, payload) && inputs[t].skb.protocol == 0x86DD && !IsMapped(h.dst)
    ensures Vouched(history, s, states[t].fib, n, outs[t].tc.nexthop) && Preferred(history, s, V6(h.dst), n)
  {
    history, s, n := SentToLongest(states, inputs, outs, t);
    Reads6(e, h, payload);
  }

  // Back to the controller

  /** The collector observes nothing but what the kernel emits. */
  ghost predicate Collects(actions: seq<Action>, s: State) {
    forall i :: 0 <= i < |actions| && actions[i].Observe? ==> actions[i].event in s.events
  }

  lemma {:induction false} SampleIsObserved(actions: seq<Action>, n: Nlri, nh: IpAddr, x: Sample) returns (i: nat)
    requires x in Reported(actions, n, nh)
    ensures i < |actions| && Concerns(actions[i], n, nh) && actions[i].event.sample == x
    decreases |actions|
  {
    var init, last := actions[..|actions| - 1], actions[|actions| - 1];
    if Concerns(last, n, nh) && last.event.sample == x {
      i := |actions| - 1;
    } else {
      i := SampleIsObserved(init, n, nh, x);
    }
  }

  /**
   * The loop closes: every sample that a window of a snapshot summarises was drawn by a packet from
   * a table of the controller, which vouches for the window's nexthop and for the window's prefix,
   * unless the prefix the packet matched lies in the mapped range.
   */
  lemma WindowsAreVouched(states: seq<State>, inputs: seq<Input>, outs: seq<Output>, u: nat,
                          actions: seq<Action>, now: nat, windows: map<Nlri, map<IpAddr, Window>>,
                          n: Nlri, nh: IpAddr, x: Sample)
    returns (t: nat, history: seq<Controller.Event>, s: Controller.State, owner: Nlri, nexthop: Octets16)
    requires Run(states, inputs, outs) && ControllerTables(inputs) && u < |states| && Collects(actions, states[u])
    requires ClockRuns(actions, now) && SnapshotOf(windows, Pruned(After(actions), now))
    requires n in windows && nh in windows[n] && x in RttWindows.Kept(Reported(actions, n, nh), now)
    ensures windows[n][nh].samples > 0 && Summarises(windows[n][nh], RttWindows.Kept(Reported(actions, n, nh), now)) && Fresh(x, now)
    ensures RttEvent(ToKey(owner), nexthop, x) in states[u].events
    ensures t < u && Vouched(history, s, states[t].fib, owner, nexthop) && FromOctets(nexthop) == nh
    ensures ToKey(n) == ToKey(owner) && !IsMappedV6(n) && (!IsMappedV6(owner) ==> owner == n)
  {
    SnapshotIsExact(actions, now, windows, n, nh);
    KeptIsFresh(Reported(actions, n, nh), now);
    var i := SampleIsObserved(actions, n, nh, x);
    var e := actions[i].event;
    t, history, s, owner := EventsAreAttributed(states, inputs, outs, u, e);
    nexthop := e.nexthop;
    KeyReadsBack(e.matched);
    KeyRoundTrip(n);
  }
}
