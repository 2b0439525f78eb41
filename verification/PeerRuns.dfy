/** What holds of a BGP peer over every run, up to the first error. */
module PeerRuns {
  import opened Addresses
  import opened BgpConnection
  import opened ConnectionInvariants
  import opened BgpPeer

  ghost predicate StepAt(peers: seq<Peer>, inputs: seq<Input>, events: seq<Reported>, t: nat)
    requires t < |inputs| && |peers| == |inputs| + 1 == |events| + 1
  {
    Enabled(peers[t], inputs[t]) && PeerStep(peers[t], inputs[t]) == Continues(peers[t + 1], events[t])
  }

  /** A run of a new peer: `peers[t]` is what input `t` finds. */
  ghost predicate Run(peers: seq<Peer>, inputs: seq<Input>, events: seq<Reported>) {
    && |peers| == |inputs| + 1 == |events| + 1
    && peers[0] == NewPeer(peers[0].props, peers[0].config)
    && forall t :: 0 <= t < |inputs| ==> StepAt(peers, inputs, events, t)
  }

  // The two state machines fit together

  predicate Unsolicited(e: Event) {
    e == TcpConnectionRequestAcked || e == TcpConnectionConfirmed
  }

  lemma ConnectedIsTotal(fsm: Fsm, c: Conn, e: Event, s1: Send, s2: Send)
    requires c.state == Connected && HandledConnected(c, e, s1, s2).ok
    ensures var h := HandledConnected(c, e, s1, s2).conn;
            FromConnected(fsm, h.state, e, h.openDelayTimer).Invalid? <==> Unsolicited(e) && Opening(c.state)
  {
  }

  lemma OpenSentIsTotal(fsm: Fsm, c: Conn, e: Event, s1: Send)
    requires c.state == OpenSent && HandledOpenSent(c, e, s1).ok
    ensures var h := HandledOpenSent(c, e, s1).conn;
            FromOpenSent(fsm, h.state, e).Invalid? <==> Unsolicited(e) && Opening(c.state)
  {
  }

  lemma OpenConfirmIsTotal(fsm: Fsm, c: Conn, e: Event, s1: Send)
    requires c.state == OpenConfirm && HandledOpenConfirm(c, e, s1).ok
    ensures var h := HandledOpenConfirm(c, e, s1).conn;
            FromOpenConfirm(fsm, h.state, e).Invalid? <==> Unsolicited(e) && Opening(c.state)
  {
  }

  lemma EstablishedIsTotal(fsm: Fsm, c: Conn, e: Event, s1: Send)
    requires c.state == Established && HandledEstablished(c, e, s1).ok
    ensures var h := HandledEstablished(c, e, s1).conn;
            FromEstablished(fsm, h.state, e).Invalid? <==> Unsolicited(e) && Opening(c.state)
  {
  }

  /**
   * The peer has a transition for everything a live connection makes of an event, except when a
   * connection that already sent its OPEN is told again that it is connected.
   */
  lemma TransitionsAreTotal(fsm: Fsm, c: Conn, e: Event, s1: Send, s2: Send)
    requires c.state != Terminate && HandledEvent(c, e, s1, s2).ok
    ensures var h := HandledEvent(c, e, s1, s2).conn;
            EffectOf(fsm, c.state, h.state, e, h.openDelayTimer).Invalid? <==> Unsolicited(e) && Opening(c.state)
  {
    match c.state
    case Connected => ConnectedIsTotal(fsm, c, e, s1, s2);
    case OpenSent => OpenSentIsTotal(fsm, c, e, s1);
    case OpenConfirm => OpenConfirmIsTotal(fsm, c, e, s1);
    case Established => EstablishedIsTotal(fsm, c, e, s1);
  }

  /** The event source never reports a connection twice. */
  lemma PolledIsSolicited(c: Conn, stimulus: Stimulus)
    ensures !Unsolicited(PolledEvent(c, stimulus))
  {
  }

  /** A transition the peer allows leads to the state the connection is in, or drops the connection. */
  lemma EffectFollows(fsm: Fsm, before: ConnState, after: ConnState, e: Event, delayed: bool)
    requires EffectOf(fsm, before, after, e, delayed).Effect?
    ensures var effect := EffectOf(fsm, before, after, e, delayed);
            && (!effect.dropped ==> after != Terminate && effect.retry != Arm)
            && (effect.dropped ==> effect.fsm == Idle || effect.fsm == Active)
            && (!effect.dropped && after != before ==> effect.fsm == FsmOf(after, fsm))
            && (!effect.dropped && after == before ==> effect.fsm == fsm)
            && (effect.dropped && after != Terminate ==> before == Established)
  {
    match before
    case Connected =>
    case OpenSent =>
    case OpenConfirm =>
    case Established =>
    case Terminate =>
  }

  /** Whether a poll of the main connection gets to its event, or resolves a collision first. */
  predicate ReachesEvent(p: Peer, i: Input)
    requires i.MainPoll? && p.connection.Some?
  {
    i.inSight ==> CollisionOf(p.props.myBgpId, Some(Polled(p.connection.value, i.stimulus)), p.tracked) == NoCollision
  }

  lemma EventReached(p: Peer, i: Input)
    requires i.MainPoll? && p.connection.Some? && ReachesEvent(p, i)
    ensures MainPolled(p, i) == EventTaken(p, i)
  {
  }

  /** What handling the event of a poll of the main connection comes to. */
  function EventTaken(p: Peer, i: Input): Outcome
    requires i.MainPoll? && p.connection.Some?
  {
    var c := Polled(p.connection.value, i.stimulus);
    EventHandled(p.(connection := Some(c)), c, PolledEvent(p.connection.value, i.stimulus), i.s1, i.s2)
  }

  // Agreement of the peer with its main connection

  /** A live main connection past its OPEN and the peer are in the same state; a tracked one is not Established. */
  ghost predicate Agrees(p: Peer) {
    && (p.connection.Some? ==>
          p.connection.value.state != Terminate && p.fsm == FsmOf(p.connection.value.state, p.fsm))
    && (p.tracked.Some? ==> p.tracked.value.state != Established)
  }

  predicate PastOpen(p: Peer) {
    p.fsm == FsmOpenSent || p.fsm == FsmOpenConfirm || p.fsm == FsmEstablished
  }

  /** The converse: a peer past its OPEN has a main connection in that state. */
  ghost predicate Tied(p: Peer) {
    PastOpen(p) ==> p.connection.Some? && p.fsm == FsmOf(p.connection.value.state, Idle)
  }

  /** And it retries only without a main connection, so that the retry timer has none to take. */
  ghost predicate Backed(p: Peer) {
    Tied(p) && (p.retryTimer ==> p.connection.None?)
  }

  lemma ConcludedAgrees(p: Peer, c: Conn, e: Event, s1: Send, s2: Send)
    requires Agrees(p.(connection := Some(c))) && EventHandled(p, c, e, s1, s2).Continues?
    ensures Agrees(EventHandled(p, c, e, s1, s2).peer)
  {
    var h := HandledEvent(c, e, s1, s2).conn;
    EffectFollows(p.fsm, c.state, h.state, e, h.openDelayTimer);
  }

  lemma ConcludedTied(p: Peer, c: Conn, e: Event, s1: Send, s2: Send)
    requires Agrees(p.(connection := Some(c))) && Tied(p.(connection := Some(c)))
    requires EventHandled(p, c, e, s1, s2).Continues?
    ensures Tied(EventHandled(p, c, e, s1, s2).peer)
  {
    var h := HandledEvent(c, e, s1, s2).conn;
    EffectFollows(p.fsm, c.state, h.state, e, h.openDelayTimer);
  }

  lemma ConcludedBacked(p: Peer, c: Conn, e: Event, s1: Send, s2: Send)
    requires Agrees(p.(connection := Some(c))) && Backed(p.(connection := Some(c)))
    requires EventHandled(p, c, e, s1, s2).Continues?
    ensures Backed(EventHandled(p, c, e, s1, s2).peer)
  {
    var h := HandledEvent(c, e, s1, s2).conn;
    EffectFollows(p.fsm, c.state, h.state, e, h.openDelayTimer);
  }

  /** Polling changes neither the state nor the machine it belongs to. */
  lemma PollKeepsState(c: Conn, stimulus: Stimulus)
    ensures Polled(c, stimulus).state == c.state
  {
  }

  /** A tracked connection does not get from OpenSent to Established in one event. */
  lemma NotYetEstablished(c: Conn, e: Event, s1: Send, s2: Send)
    requires c.state != OpenConfirm && c.state != Established
    ensures HandledEvent(c, e, s1, s2).conn.state != Established
  {
  }

  lemma JoinedAgrees(p: Peer, kind: Kind, jitter: real, e: Event, send: Send)
    requires Agrees(p) && Unsolicited(e) && Joined(p, kind, jitter, e, send).Continues?
    ensures Agrees(Joined(p, kind, jitter, e, send).peer)
  {
    NewIsSound(kind, p.config.conn, Expected(p.props), jitter, e, send, send);
  }

  lemma MainPollAgrees(p: Peer, i: Input)
    requires i.MainPoll? && Enabled(p, i) && Agrees(p) && MainPolled(p, i).Continues?
    ensures Agrees(MainPolled(p, i).peer)
  {
    var c, e := Polled(p.connection.value, i.stimulus), PolledEvent(p.connection.value, i.stimulus);
    PollKeepsState(p.connection.value, i.stimulus);
    var polled := p.(connection := Some(c));
    if EventHandled(polled, c, e, i.s1, i.s2).Continues? {
      ConcludedAgrees(polled, c, e, i.s1, i.s2);
    }
  }

  lemma TrackedPollAgrees(p: Peer, i: Input)
    requires i.TrackedPoll? && Enabled(p, i) && Agrees(p) && TrackedPolled(p, i).Continues?
    ensures Agrees(TrackedPolled(p, i).peer)
  {
    var t := Polled(p.tracked.value, i.stimulus);
    PollKeepsState(p.tracked.value, i.stimulus);
    NotYetEstablished(t, PolledEvent(p.tracked.value, i.stimulus), i.s1, i.s2);
  }

  lemma StepAgrees(p: Peer, i: Input)
    requires Enabled(p, i) && Agrees(p) && PeerStep(p, i).Continues?
    ensures Agrees(PeerStep(p, i).peer)
  {
    match i
    case Start =>
    case Stop(_) =>
    case Accept(jitter, send) =>
      if !Rejects(p) {
        JoinedAgrees(p, PassiveKind, jitter, TcpConnectionConfirmed, send);
      }
    case ConnectOk(jitter, send) =>
      JoinedAgrees(p.(mayConnect := false), ActiveKind, jitter, TcpConnectionRequestAcked, send);
    case ConnectErr =>
    case ConnectAbandoned =>
    case RetryTick =>
    case MainPoll(_, _, _, _) => MainPollAgrees(p, i);
    case TrackedPoll(_, _, _) => TrackedPollAgrees(p, i);
  }

  lemma AgreesNext(peers: seq<Peer>, inputs: seq<Input>, events: seq<Reported>, t: nat)
    requires Run(peers, inputs, events) && t < |inputs| && Agrees(peers[t])
    ensures Agrees(peers[t + 1])
  {
    assert StepAt(peers, inputs, events, t);
    StepAgrees(peers[t], inputs[t]);
  }

  /** Over every run the peer agrees with its main connection. */
  lemma {:induction false} RunsAgree(peers: seq<Peer>, inputs: seq<Input>, events: seq<Reported>, t: nat)
    requires Run(peers, inputs, events) && t < |peers|
    ensures Agrees(peers[t])
  {
    if t == 0 {
    } else {
      RunsAgree(peers, inputs, events, t - 1);
      AgreesNext(peers, inputs, events, t - 1);
    }
  }

  // The converse, and exactly when it holds

  lemma JoinedIsTied(p: Peer, kind: Kind, jitter: real, e: Event, send: Send)
    requires Tied(p) && Unsolicited(e) && Joined(p, kind, jitter, e, send).Continues?
    ensures Tied(Joined(p, kind, jitter, e, send).peer)
  {
    NewIsSound(kind, p.config.conn, Expected(p.props), jitter, e, send, send);
  }

  lemma MainPollIsTied(p: Peer, i: Input)
    requires i.MainPoll? && Enabled(p, i) && Agrees(p) && Tied(p) && MainPolled(p, i).Continues?
    ensures Tied(MainPolled(p, i).peer)
  {
    var c, e := Polled(p.connection.value, i.stimulus), PolledEvent(p.connection.value, i.stimulus);
    PollKeepsState(p.connection.value, i.stimulus);
    var polled := p.(connection := Some(c));
    if EventHandled(polled, c, e, i.s1, i.s2).Continues? {
      ConcludedTied(polled, c, e, i.s1, i.s2);
    }
  }

  lemma TrackedPollIsTied(p: Peer, i: Input)
    requires i.TrackedPoll? && Enabled(p, i) && Tied(p) && TrackedPolled(p, i).Continues?
    ensures Tied(TrackedPolled(p, i).peer)
  {
  }

  /** The retry timer drops the main connection without leaving the state it was in. */
  predicate RetriesPastOpen(p: Peer, i: Input) {
    i.RetryTick? && PastOpen(p)
  }

  /** One step keeps the converse exactly unless it is such a retry. */
  lemma StepTiedExactly(p: Peer, i: Input)
    requires Enabled(p, i) && Agrees(p) && Tied(p) && PeerStep(p, i).Continues?
    ensures Tied(PeerStep(p, i).peer) <==> !RetriesPastOpen(p, i)
  {
    match i
    case Start =>
    case Stop(_) =>
    case Accept(jitter, send) =>
      if !Rejects(p) {
        JoinedIsTied(p, PassiveKind, jitter, TcpConnectionConfirmed, send);
      }
    case ConnectOk(jitter, send) =>
      JoinedIsTied(p.(mayConnect := false), ActiveKind, jitter, TcpConnectionRequestAcked, send);
    case ConnectErr =>
    case ConnectAbandoned =>
    case RetryTick =>
    case MainPoll(_, _, _, _) => MainPollIsTied(p, i);
    case TrackedPoll(_, _, _) => TrackedPollIsTied(p, i);
  }

  lemma TiedNext(peers: seq<Peer>, inputs: seq<Input>, events: seq<Reported>, t: nat)
    requires Run(peers, inputs, events) && t < |inputs| && Agrees(peers[t]) && Tied(peers[t])
    ensures Tied(peers[t + 1]) <==> !RetriesPastOpen(peers[t], inputs[t])
  {
    assert StepAt(peers, inputs, events, t);
    StepTiedExactly(peers[t], inputs[t]);
  }

  lemma {:induction false} TiedUpTo(peers: seq<Peer>, inputs: seq<Input>, events: seq<Reported>, t: nat)
    requires Run(peers, inputs, events) && t < |peers|
    requires forall u :: 0 <= u < t ==> !RetriesPastOpen(peers[u], inputs[u])
    ensures Tied(peers[t])
  {
    if t == 0 {
    } else {
      TiedUpTo(peers, inputs, events, t - 1);
      RunsAgree(peers, inputs, events, t - 1);
      TiedNext(peers, inputs, events, t - 1);
    }
  }

  /**
   * Over a run a peer past its OPEN always has a main connection in that state, too, if and only if
   * the retry timer never goes off past the OPEN.
   */
  lemma RunsTiedExactly(peers: seq<Peer>, inputs: seq<Input>, events: seq<Reported>)
    requires Run(peers, inputs, events)
    ensures (forall t :: 0 <= t < |peers| ==> Tied(peers[t]))
       <==> (forall t :: 0 <= t < |inputs| ==> !RetriesPastOpen(peers[t], inputs[t]))
  {
    if forall t :: 0 <= t < |peers| ==> Tied(peers[t]) {
      forall t | 0 <= t < |inputs|
        ensures !RetriesPastOpen(peers[t], inputs[t])
      {
        RunsAgree(peers, inputs, events, t);
        TiedNext(peers, inputs, events, t);
      }
    }
    if forall t :: 0 <= t < |inputs| ==> !RetriesPastOpen(peers[t], inputs[t]) {
      forall t | 0 <= t < |peers|
        ensures Tied(peers[t])
      {
        TiedUpTo(peers, inputs, events, t);
      }
    }
  }

  // What keeps the retry timer away from the main connection

  lemma JoinedIsBacked(p: Peer, kind: Kind, jitter: real, e: Event, send: Send)
    requires Backed(p) && Unsolicited(e) && Joined(p, kind, jitter, e, send).Continues?
    ensures Backed(Joined(p, kind, jitter, e, send).peer)
  {
    NewIsSound(kind, p.config.conn, Expected(p.props), jitter, e, send, send);
  }

  lemma MainPollIsBacked(p: Peer, i: Input)
    requires i.MainPoll? && Enabled(p, i) && Agrees(p) && Backed(p) && MainPolled(p, i).Continues?
    ensures Backed(MainPolled(p, i).peer)
  {
    var c, e := Polled(p.connection.value, i.stimulus), PolledEvent(p.connection.value, i.stimulus);
    PollKeepsState(p.connection.value, i.stimulus);
    var polled := p.(connection := Some(c));
    if EventHandled(polled, c, e, i.s1, i.s2).Continues? {
      ConcludedBacked(polled, c, e, i.s1, i.s2);
    }
  }

  lemma TrackedPollIsBacked(p: Peer, i: Input)
    requires i.TrackedPoll? && Enabled(p, i) && Backed(p) && TrackedPolled(p, i).Continues?
    ensures Backed(TrackedPolled(p, i).peer)
  {
  }

  /** A start that is honoured, in Idle, while a main connection is held. */
  predicate StartsAbove(p: Peer, i: Input) {
    i.Start? && p.fsm == Idle && p.connection.Some?
  }

  /** One step keeps the retry timer away from the main connection exactly unless it is such a start. */
  lemma StepBackedExactly(p: Peer, i: Input)
    requires Enabled(p, i) && Agrees(p) && Backed(p) && PeerStep(p, i).Continues?
    ensures Backed(PeerStep(p, i).peer) <==> !StartsAbove(p, i)
  {
    match i
    case Start =>
    case Stop(_) =>
    case Accept(jitter, send) =>
      if !Rejects(p) {
        JoinedIsBacked(p, PassiveKind, jitter, TcpConnectionConfirmed, send);
      }
    case ConnectOk(jitter, send) =>
      JoinedIsBacked(p.(mayConnect := false), ActiveKind, jitter, TcpConnectionRequestAcked, send);
    case ConnectErr =>
    case ConnectAbandoned =>
    case RetryTick =>
    case MainPoll(_, _, _, _) => MainPollIsBacked(p, i);
    case TrackedPoll(_, _, _) => TrackedPollIsBacked(p, i);
  }

  lemma BackedNext(peers: seq<Peer>, inputs: seq<Input>, events: seq<Reported>, t: nat)
    requires Run(peers, inputs, events) && t < |inputs| && Agrees(peers[t]) && Backed(peers[t])
    ensures Backed(peers[t + 1]) <==> !StartsAbove(peers[t], inputs[t])
  {
    assert StepAt(peers, inputs, events, t);
    StepBackedExactly(peers[t], inputs[t]);
  }

  lemma {:induction false} BackedUpTo(peers: seq<Peer>, inputs: seq<Input>, events: seq<Reported>, t: nat)
    requires Run(peers, inputs, events) && t < |peers|
    requires forall u :: 0 <= u < t ==> !StartsAbove(peers[u], inputs[u])
    ensures Backed(peers[t])
  {
    if t == 0 {
    } else {
      BackedUpTo(peers, inputs, events, t - 1);
      RunsAgree(peers, inputs, events, t - 1);
      BackedNext(peers, inputs, events, t - 1);
    }
  }

  /**
   * Over a run the peer is tied to its main connection and the retry timer runs only without one, if
   * and only if no start is honoured above a held main connection.
   */
  lemma RunsBackedExactly(peers: seq<Peer>, inputs: seq<Input>, events: seq<Reported>)
    requires Run(peers, inputs, events)
    ensures (forall t :: 0 <= t < |peers| ==> Backed(peers[t]))
       <==> (forall t :: 0 <= t < |inputs| ==> !StartsAbove(peers[t], inputs[t]))
  {
    if forall t :: 0 <= t < |peers| ==> Backed(peers[t]) {
      forall t | 0 <= t < |inputs|
        ensures !StartsAbove(peers[t], inputs[t])
      {
        RunsAgree(peers, inputs, events, t);
        BackedNext(peers, inputs, events, t);
      }
    }
    if forall t :: 0 <= t < |inputs| ==> !StartsAbove(peers[t], inputs[t]) {
      forall t | 0 <= t < |peers|
        ensures Backed(peers[t])
      {
        BackedUpTo(peers, inputs, events, t);
      }
    }
  }

  /** So if no start is honoured above a held connection, no retry goes off past the OPEN and the peer stays tied. */
  lemma StartsDecide(peers: seq<Peer>, inputs: seq<Input>, events: seq<Reported>)
    requires Run(peers, inputs, events)
    requires forall t :: 0 <= t < |inputs| ==> !StartsAbove(peers[t], inputs[t])
    ensures forall t :: 0 <= t < |inputs| ==> !RetriesPastOpen(peers[t], inputs[t])
    ensures forall t :: 0 <= t < |peers| ==> Tied(peers[t])
  {
    RunsBackedExactly(peers, inputs, events);
    forall t | 0 <= t < |inputs|
      ensures !RetriesPastOpen(peers[t], inputs[t])
    {
      assert Backed(peers[t]) && StepAt(peers, inputs, events, t);
    }
  }

  // A run on which the converse fails

  ghost function After(p: Peer, inputs: seq<Input>): Option<Peer>
    decreases |inputs|
  {
    if inputs == [] then Some(p)
    else if Enabled(p, inputs[0]) && PeerStep(p, inputs[0]).Continues? then After(PeerStep(p, inputs[0]).peer, inputs[1..])
    else None
  }

  const ACCEPT: Input := Accept(1.0, Delivered)
  const NOTIFIED: Input := MainPoll(Received(Notification(false)), true, Delivered, Delivered)
  const OPENS: Input := MainPoll(DelayTick, true, Delivered, Delivered)

  /** A connection accepted while Idle, then a start: the peer is in Connect, with a retry timer, above a live connection. */
  lemma StartAboveConnection(props: Props, config: PeerConfig) returns (p: Peer)
    requires config.conn.openDelay > 0 && !config.passive
    ensures After(NewPeer(props, config), [Start, ACCEPT, NOTIFIED, ACCEPT, Start]) == Some(p)
    ensures p.fsm == Connect && p.retryTimer && p.tracked.None?
    ensures p.connection.Some? && p.connection.value.state == Connected && p.connection.value.openDelayTimer
  {
    var p0 := NewPeer(props, config);
    var p1 := PeerStep(p0, Start).peer;
    var p2 := PeerStep(p1, ACCEPT).peer;
    assert p2.connection.value.state == Connected && p2.connection.value.openDelayTimer && p2.fsm == Connect;
    var p3 := PeerStep(p2, NOTIFIED).peer;
    assert p3.fsm == Idle && p3.connection.None? && p3.adminUp && p3.tracked.None?;
    var p4 := PeerStep(p3, ACCEPT).peer;
    assert p4.fsm == Idle && p4.connection.value.state == Connected;
    p := PeerStep(p4, Start).peer;
    AfterOne(p4, Start);
    AfterStep(p3, ACCEPT, [Start]);
    AfterStep(p2, NOTIFIED, [ACCEPT, Start]);
    AfterStep(p1, ACCEPT, [NOTIFIED, ACCEPT, Start]);
    AfterStep(p0, Start, [ACCEPT, NOTIFIED, ACCEPT, Start]);
  }

  lemma AfterOne(p: Peer, i: Input)
    requires Enabled(p, i) && PeerStep(p, i).Continues?
    ensures After(p, [i]) == Some(PeerStep(p, i).peer)
  {
    assert [i][1..] == [];
  }

  lemma AfterStep(p: Peer, i: Input, rest: seq<Input>)
    requires Enabled(p, i) && PeerStep(p, i).Continues? && rest != []
    ensures After(p, [i] + rest) == After(PeerStep(p, i).peer, rest)
  {
    assert ([i] + rest)[1..] == rest;
  }

  lemma {:induction false} AfterMore(p: Peer, inputs: seq<Input>, mid: Peer, more: seq<Input>)
    requires After(p, inputs) == Some(mid)
    ensures After(p, inputs + more) == After(mid, more)
    decreases |inputs|
  {
    if inputs == [] {
      assert inputs + more == more;
    } else {
      assert (inputs + more)[1..] == inputs[1..] + more;
      AfterMore(PeerStep(p, inputs[0]).peer, inputs[1..], mid, more);
    }
  }

  lemma RetryTakesConnection(p: Peer)
    requires p.fsm == Connect && p.retryTimer && p.tracked.None?
    requires p.connection.Some? && p.connection.value.state == Connected && p.connection.value.openDelayTimer
    ensures var after := After(p, [OPENS, RetryTick]);
            after.Some? && after.value.fsm == FsmOpenSent && after.value.connection.None?
  {
    var p1 := PeerStep(p, OPENS).peer;
    assert p1.fsm == FsmOpenSent && p1.retryTimer;
    AfterOne(p1, RetryTick);
    AfterStep(p, OPENS, [RetryTick]);
  }

  /** The connection then sends its OPEN and the retry timer takes it away: OpenSent, with nothing to show for it. */
  lemma OpenSentWithoutConnection(props: Props, config: PeerConfig)
    requires config.conn.openDelay > 0 && !config.passive
    ensures var after := After(NewPeer(props, config), [Start, ACCEPT, NOTIFIED, ACCEPT, Start, OPENS, RetryTick]);
            after.Some? && after.value.fsm == FsmOpenSent && after.value.connection.None?
  {
    var p := StartAboveConnection(props, config);
    RetryTakesConnection(p);
    var inputs := [Start, ACCEPT, NOTIFIED, ACCEPT, Start];
    AfterMore(NewPeer(props, config), inputs, p, [OPENS, RetryTick]);
    assert inputs + [OPENS, RetryTick] == [Start, ACCEPT, NOTIFIED, ACCEPT, Start, OPENS, RetryTick];
  }

  // Errors

  /** A run that ends in an invalid transition ends on the promotion of a tracked connection. */
  ghost predicate PromotesTooSoon(p: Peer, i: Input) {
    match i
    case MainPoll(stimulus, inSight, _, _) =>
      && inSight && p.connection.Some?
      && CollisionOf(p.props.myBgpId, Some(Polled(p.connection.value, stimulus)), p.tracked) == DropMain
      && (p.tracked.value.state == Connected || p.tracked.value.state == Terminate)
    case TrackedPoll(stimulus, s1, s2) =>
      && p.tracked.Some?
      && (var t := HandledEvent(Polled(p.tracked.value, stimulus), PolledEvent(p.tracked.value, stimulus), s1, s2).conn;
          CollisionOf(p.props.myBgpId, p.connection, Some(t)) == DropMain && (t.state == Connected || t.state == Terminate))
    case _ => false
  }

  lemma NeverInvalid(p: Peer, c: Conn, stimulus: Stimulus, s1: Send, s2: Send)
    requires c.state != Terminate
    ensures EventHandled(p, Polled(c, stimulus), PolledEvent(c, stimulus), s1, s2) != Fails(true)
  {
    var polled, e := Polled(c, stimulus), PolledEvent(c, stimulus);
    PollKeepsState(c, stimulus);
    PolledIsSolicited(c, stimulus);
    if HandledEvent(polled, e, s1, s2).ok {
      TransitionsAreTotal(p.fsm, polled, e, s1, s2);
    }
  }

  /** In every run the only invalid transition there can be is such a promotion. */
  lemma InvalidExactly(p: Peer, i: Input)
    requires Enabled(p, i) && Agrees(p)
    ensures PeerStep(p, i) == Fails(true) <==> PromotesTooSoon(p, i)
  {
    if i.MainPoll? {
      NeverInvalid(p.(connection := Some(Polled(p.connection.value, i.stimulus))), p.connection.value, i.stimulus, i.s1, i.s2);
    }
  }

  const CONNECT: Input := ConnectOk(1.0, Delivered)

  function TrackedOpen(open: Open, s: Send): Input {
    TrackedPoll(Received(OpenMessage(open)), s, Delivered)
  }

  function MainOpen(open: Open): Input {
    MainPoll(Received(OpenMessage(open)), true, Delivered, Delivered)
  }

  /** A peer that connected and accepted: two connections in OpenSent, and no OPEN from the peer on either. */
  ghost predicate TwoOpen(p: Peer) {
    && p.fsm == FsmOpenSent
    && p.connection.Some? && p.connection.value.state == OpenSent && p.connection.value.peerBgpId.None?
    && p.tracked.Some? && p.tracked.value.state == OpenSent && p.tracked.value.peerBgpId.None?
    && p.connection.value.peerAsn == p.tracked.value.peerAsn == Expected(p.props)
    && p.tracked.value.keepaliveTimer.None? && p.tracked.value.config == p.config.conn && p.tracked.value.jitter == 1.0
    && !p.connection.value.openDelayTimer && !p.tracked.value.openDelayTimer
  }

  lemma ReachesTwoOpen(props: Props, config: PeerConfig) returns (p: Peer)
    requires config.conn.openDelay == 0 && !config.passive
    ensures After(NewPeer(props, config), [Start, CONNECT, ACCEPT]) == Some(p)
    ensures p.props == props && p.config == config && TwoOpen(p)
  {
    var p0 := NewPeer(props, config);
    var p1 := PeerStep(p0, Start).peer;
    var p2 := PeerStep(p1, CONNECT).peer;
    assert p2.connection.Some? && p2.connection.value.state == OpenSent && p2.fsm == FsmOpenSent && p2.tracked.None?;
    p := PeerStep(p2, ACCEPT).peer;
    AfterOne(p2, ACCEPT);
    AfterStep(p1, CONNECT, [ACCEPT]);
    AfterStep(p0, Start, [CONNECT, ACCEPT]);
  }

  lemma TerminatesTracked(p: Peer, bad: Open)
    requires TwoOpen(p) && !p.props.dynamicAs && bad.asn != p.props.peerAsn
    ensures Enabled(p, TrackedOpen(bad, Delivered)) && PeerStep(p, TrackedOpen(bad, Delivered)).Continues?
    ensures var p1 := PeerStep(p, TrackedOpen(bad, Delivered)).peer;
            && p1.connection == p.connection && p1.props == p.props
            && p1.tracked.Some? && p1.tracked.value.state == Terminate && p1.tracked.value.peerBgpId == Some(bad.bgpId)
  {
  }

  /**
   * A run that ends in an invalid transition: an OPEN from the wrong AS terminates the tracked
   * connection, which stays, and the same identifier on the main connection then promotes it.
   */
  lemma InvalidRun(props: Props, config: PeerConfig, bad: Open, good: Open)
    requires config.conn.openDelay == 0 && !config.passive && !props.dynamicAs
    requires bad.asn != props.peerAsn && good.bgpId == bad.bgpId > props.myBgpId
    ensures var after := After(NewPeer(props, config), [Start, CONNECT, ACCEPT, TrackedOpen(bad, Delivered)]);
            && after.Some? && Enabled(after.value, MainOpen(good))
            && PeerStep(after.value, MainOpen(good)) == Fails(true)
  {
    var p := ReachesTwoOpen(props, config);
    TerminatesTracked(p, bad);
    AfterOne(p, TrackedOpen(bad, Delivered));
    AfterMore(NewPeer(props, config), [Start, CONNECT, ACCEPT], p, [TrackedOpen(bad, Delivered)]);
    assert [Start, CONNECT, ACCEPT] + [TrackedOpen(bad, Delivered)] == [Start, CONNECT, ACCEPT, TrackedOpen(bad, Delivered)];
  }

  /**
   * Once both connections know the peer's identifier, the next event in sight of both leaves one:
   * the tracked connection if the identifier is above our own, the main one otherwise, whatever
   * the event is and whichever side opened them. Different identifiers leave both.
   */
  lemma CollisionByIdentifier(p: Peer, i: Input)
    requires i.MainPoll? && i.inSight && Enabled(p, i) && p.tracked.Some? && Opening(p.tracked.value.state)
    requires Polled(p.connection.value, i.stimulus).peerBgpId.Some? && p.tracked.value.peerBgpId.Some?
    ensures var main, id := Polled(p.connection.value, i.stimulus), p.tracked.value.peerBgpId.value;
            var out := PeerStep(p, i);
            && out.Continues?
            && (out.peer.tracked.None? <==> main.peerBgpId == Some(id))
            && out.peer.connection == (if main.peerBgpId == Some(id) && p.props.myBgpId < id then p.tracked else Some(main))
            && out.peer.retryCounter == p.retryCounter + (if main.peerBgpId == Some(id) && p.props.myBgpId < id then 1 else 0)
            && (out.event == CollisionDump <==> main.peerBgpId == Some(id))
  {
  }

  /** The same for an event of the tracked connection, by the identifiers known once it is handled. */
  lemma TrackedCollisionByIdentifier(p: Peer, i: Input)
    requires i.TrackedPoll? && Enabled(p, i) && p.connection.Some? && Opening(TrackedAfter(p.tracked.value, i).state)
    requires p.connection.value.peerBgpId.Some? && TrackedAfter(p.tracked.value, i).peerBgpId.Some?
    ensures var tracked, id := TrackedAfter(p.tracked.value, i), p.connection.value.peerBgpId.value;
            var out := PeerStep(p, i);
            && out.Continues?
            && (out.peer.tracked.None? <==> tracked.peerBgpId == Some(id))
            && out.peer.connection == (if tracked.peerBgpId == Some(id) && p.props.myBgpId < id then Some(tracked) else p.connection)
            && out.peer.retryCounter == p.retryCounter + (if tracked.peerBgpId == Some(id) && p.props.myBgpId < id then 1 else 0)
            && (out.event == CollisionDump <==> tracked.peerBgpId == Some(id))
  {
  }

  /** An event of the main connection is handled exactly when no collision is in sight. */
  lemma HandledExactly(p: Peer, i: Input)
    requires i.MainPoll? && Enabled(p, i) && Agrees(p)
    ensures PeerStep(p, i) == EventTaken(p, i) <==> ReachesEvent(p, i)
  {
    NeverInvalid(p.(connection := Some(Polled(p.connection.value, i.stimulus))), p.connection.value, i.stimulus, i.s1, i.s2);
    if ReachesEvent(p, i) {
      EventReached(p, i);
    }
  }

  /** Resolving a collision leaves exactly one connection. */
  lemma CollisionLeavesOne(p: Peer, i: Input)
    requires Enabled(p, i) && PeerStep(p, i).Continues? && PeerStep(p, i).event == CollisionDump
    ensures PeerStep(p, i).peer.tracked.None? && PeerStep(p, i).peer.connection.Some?
    ensures p.connection.Some? && p.tracked.Some?
  {
  }

  /** The message that brings a collision to light is lost: the main connection does not act on the peer's OPEN. */
  lemma CollisionLosesOpen(p: Peer, open: Open, s1: Send, s2: Send)
    requires p.connection.Some? && p.connection.value.state == OpenSent && p.tracked.Some?
    requires p.tracked.value.peerBgpId == Some(open.bgpId) && open.bgpId <= p.props.myBgpId
    ensures var out := PeerStep(p, MainPoll(Received(OpenMessage(open)), true, s1, s2));
            out.Continues? && out.peer.connection.Some? && out.peer.connection.value.state == OpenSent
            && out.peer.connection.value.peerHoldTime == p.connection.value.peerHoldTime
  {
  }

  /**
   * After a failed attempt to connect the peer stays in Connect with no timer and no second attempt:
   * without a main connection only a stop or an incoming connection moves it.
   */
  lemma FailedConnectStrands(p: Peer, i: Input)
    requires Enabled(p, ConnectErr) && p.connection.None?
    requires Enabled(PeerStep(p, ConnectErr).peer, i)
    ensures i.Start? || i.Stop? || i.Accept?
    ensures i.Start? ==> PeerStep(PeerStep(p, ConnectErr).peer, i) == Continues(PeerStep(p, ConnectErr).peer, Ignored)
  {
  }

  // What every connection of every run went through

  ghost predicate SoundConn(c: Option<Conn>, expected: Option<nat>) {
    c.Some? ==> Sound(c.value, expected)
  }

  ghost predicate SoundPeer(p: Peer) {
    SoundConn(p.connection, Expected(p.props)) && SoundConn(p.tracked, Expected(p.props))
  }

  lemma PolledAndHandled(c: Conn, expected: Option<nat>, stimulus: Stimulus, s1: Send, s2: Send)
    requires Sound(c, expected) && CanPoll(c, stimulus)
    ensures Sound(Polled(c, stimulus), expected)
    ensures Sound(HandledEvent(Polled(c, stimulus), PolledEvent(c, stimulus), s1, s2).conn, expected)
  {
    PollIsSound(c, expected, stimulus);
    HandleIsSound(Polled(c, stimulus), expected, PolledEvent(c, stimulus), s1, s2);
  }

  lemma JoinedIsSound(p: Peer, kind: Kind, jitter: real, e: Event, send: Send)
    requires SoundPeer(p) && Unsolicited(e) && Joined(p, kind, jitter, e, send).Continues?
    ensures SoundPeer(Joined(p, kind, jitter, e, send).peer) && Joined(p, kind, jitter, e, send).peer.props == p.props
  {
    NewIsSound(kind, p.config.conn, Expected(p.props), jitter, e, send, send);
  }

  lemma ConcludedIsSound(p: Peer, before: ConnState, h: Handled, e: Event)
    requires SoundConn(p.tracked, Expected(p.props)) && SoundConn(Some(h.conn), Expected(p.props))
    requires Concluded(p, before, h, e).Continues?
    ensures SoundPeer(Concluded(p, before, h, e).peer) && Concluded(p, before, h, e).peer.props == p.props
  {
  }

  lemma CollidedIsSound(p: Peer, i: Input)
    requires i.MainPoll? && p.connection.Some? && !ReachesEvent(p, i) && MainPolled(p, i).Continues?
    requires SoundPeer(p) && Sound(Polled(p.connection.value, i.stimulus), Expected(p.props))
    ensures SoundPeer(MainPolled(p, i).peer) && MainPolled(p, i).peer.props == p.props
  {
  }

  lemma MainPollIsSound(p: Peer, i: Input)
    requires i.MainPoll? && Enabled(p, i) && SoundPeer(p) && MainPolled(p, i).Continues?
    ensures SoundPeer(MainPolled(p, i).peer) && MainPolled(p, i).peer.props == p.props
  {
    var c, e := Polled(p.connection.value, i.stimulus), PolledEvent(p.connection.value, i.stimulus);
    PolledAndHandled(p.connection.value, Expected(p.props), i.stimulus, i.s1, i.s2);
    if ReachesEvent(p, i) {
      EventReached(p, i);
      ConcludedIsSound(p.(connection := Some(c)), c.state, HandledEvent(c, e, i.s1, i.s2), e);
    } else {
      CollidedIsSound(p, i);
    }
  }

  lemma TrackedPollIsSound(p: Peer, i: Input)
    requires i.TrackedPoll? && Enabled(p, i) && SoundPeer(p) && TrackedPolled(p, i).Continues?
    ensures SoundPeer(TrackedPolled(p, i).peer) && TrackedPolled(p, i).peer.props == p.props
  {
    PolledAndHandled(p.tracked.value, Expected(p.props), i.stimulus, i.s1, i.s2);
  }

  lemma StepIsSound(p: Peer, i: Input)
    requires Enabled(p, i) && SoundPeer(p) && PeerStep(p, i).Continues?
    ensures SoundPeer(PeerStep(p, i).peer) && PeerStep(p, i).peer.props == p.props
  {
    match i
    case Start =>
    case Stop(_) =>
    case Accept(jitter, send) =>
      if !Rejects(p) {
        JoinedIsSound(p, PassiveKind, jitter, TcpConnectionConfirmed, send);
      }
    case ConnectOk(jitter, send) =>
      JoinedIsSound(p.(mayConnect := false), ActiveKind, jitter, TcpConnectionRequestAcked, send);
    case ConnectErr =>
    case ConnectAbandoned =>
    case RetryTick =>
    case MainPoll(_, _, _, _) => MainPollIsSound(p, i);
    case TrackedPoll(_, _, _) => TrackedPollIsSound(p, i);
  }

  lemma SoundNext(peers: seq<Peer>, inputs: seq<Input>, events: seq<Reported>, t: nat)
    requires Run(peers, inputs, events) && t < |inputs| && SoundPeer(peers[t])
    ensures SoundPeer(peers[t + 1]) && peers[t + 1].props == peers[t].props
  {
    assert StepAt(peers, inputs, events, t);
    StepIsSound(peers[t], inputs[t]);
  }

  /** Over every run both connections are sound. */
  lemma {:induction false} RunsAreSound(peers: seq<Peer>, inputs: seq<Input>, events: seq<Reported>, t: nat)
    requires Run(peers, inputs, events) && t < |peers|
    ensures SoundPeer(peers[t]) && peers[t].props == peers[0].props
  {
    if t == 0 {
    } else {
      RunsAreSound(peers, inputs, events, t - 1);
      SoundNext(peers, inputs, events, t - 1);
    }
  }

  /** What the route filter lets through: an UPDATE reported while the peer is Established. */
  predicate Learned(p: Peer, event: Reported) {
    p.fsm == FsmEstablished && event.OfConnection? && event.event.UpdateMsg? && event.event.normal
  }

  lemma UpdateNeedsEstablished(p: Peer, c: Conn, e: Event, s1: Send, s2: Send)
    requires e.UpdateMsg? && EventHandled(p, c, e, s1, s2).Continues? && EventHandled(p, c, e, s1, s2).peer.fsm == FsmEstablished
    ensures EventHandled(p, c, e, s1, s2).peer.connection == Some(c) && c.state == Established
  {
  }

  lemma LearnedOnMain(p: Peer, i: Input)
    requires Enabled(p, i) && PeerStep(p, i).Continues? && Learned(PeerStep(p, i).peer, PeerStep(p, i).event)
    ensures PeerStep(p, i).peer.connection.Some? && PeerStep(p, i).peer.connection.value.state == Established
  {
    if i.MainPoll? {
      var c := Polled(p.connection.value, i.stimulus);
      var e := PolledEvent(p.connection.value, i.stimulus);
      UpdateNeedsEstablished(p.(connection := Some(c)), c, e, i.s1, i.s2);
    }
  }

  /**
   * Every route learned in any run came over a main connection in the Established state that sent
   * exactly one OPEN, accepted the peer's OPEN, from the configured AS if one is configured, sent
   * a KEEPALIVE and received one.
   */
  lemma LearnedRoutesAreSafe(peers: seq<Peer>, inputs: seq<Input>, events: seq<Reported>, t: nat)
    requires Run(peers, inputs, events) && t < |inputs| && Learned(peers[t + 1], events[t])
    ensures peers[t + 1].connection.Some?
    ensures var c := peers[t + 1].connection.value;
            && c.state == Established && c.stats.openSent == 1 && c.stats.openReceived >= 1
            && c.stats.keepaliveSent >= 1 && c.stats.keepaliveReceived >= 1 && c.peerAsn.Some? && c.peerHoldTime.Some?
            && (!peers[0].props.dynamicAs ==> c.peerAsn == Some(peers[0].props.peerAsn))
  {
    assert StepAt(peers, inputs, events, t);
    LearnedOnMain(peers[t], inputs[t]);
    RunsAreSound(peers, inputs, events, t + 1);
  }

  // Timers

  ghost predicate FittingConn(c: Option<Conn>) {
    c.Some? ==> Fitting(c.value)
  }

  /** Whenever a keepalive timer runs, three of its periods fit in the negotiated hold time. */
  ghost predicate FittingPeer(p: Peer) {
    FittingConn(p.connection) && FittingConn(p.tracked)
  }

  /** The step leaves a connection with an OPEN that turned timers off while its keepalive timer ran. */
  ghost predicate StaleStep(p: Peer, i: Input) {
    match i
    case MainPoll(stimulus, inSight, _, _) =>
      && p.connection.Some? && Stales(Polled(p.connection.value, stimulus), PolledEvent(p.connection.value, stimulus))
      && (inSight ==> CollisionOf(p.props.myBgpId, Some(Polled(p.connection.value, stimulus)), p.tracked) == NoCollision)
    case TrackedPoll(stimulus, s1, s2) =>
      && p.tracked.Some? && Stales(Polled(p.tracked.value, stimulus), PolledEvent(p.tracked.value, stimulus))
      && CollisionOf(p.props.myBgpId, p.connection, Some(TrackedAfter(p.tracked.value, i))) != DropTracked
    case _ => false
  }

  function TrackedAfter(t: Conn, i: Input): Conn
    requires i.TrackedPoll?
  {
    HandledEvent(Polled(t, i.stimulus), PolledEvent(t, i.stimulus), i.s1, i.s2).conn
  }

  lemma PolledIsFitting(c: Conn, expected: Option<nat>, stimulus: Stimulus, s1: Send, s2: Send)
    requires Sound(c, expected) && Fitting(c) && CanPoll(c, stimulus)
    ensures Fitting(Polled(c, stimulus))
    ensures Fitting(HandledEvent(Polled(c, stimulus), PolledEvent(c, stimulus), s1, s2).conn)
       <==> !Stales(Polled(c, stimulus), PolledEvent(c, stimulus))
  {
    PollIsSound(c, expected, stimulus);
    PollIsFitting(c, stimulus);
    HandleIsFitting(Polled(c, stimulus), expected, PolledEvent(c, stimulus), s1, s2);
  }

  lemma JoinedIsFitting(p: Peer, kind: Kind, jitter: real, e: Event, send: Send)
    requires FittingPeer(p) && Jitters(jitter) && Unsolicited(e) && Joined(p, kind, jitter, e, send).Continues?
    ensures FittingPeer(Joined(p, kind, jitter, e, send).peer)
  {
  }

  /** An OPEN that is answered keeps the connection. */
  lemma AnsweredIsKept(p: Peer, c: Conn, e: Event, s1: Send, s2: Send)
    requires Stales(c, e) && EventHandled(p, c, e, s1, s2).Continues?
    ensures EventHandled(p, c, e, s1, s2).peer == p.(connection := Some(HandledEvent(c, e, s1, s2).conn),
                                                     fsm := FsmOpenConfirm, retryTimer := false)
  {
  }

  lemma ConcludedIsFitting(p: Peer, before: ConnState, h: Handled, e: Event)
    requires FittingConn(p.tracked) && Fitting(h.conn) && Concluded(p, before, h, e).Continues?
    ensures FittingPeer(Concluded(p, before, h, e).peer)
  {
  }

  lemma HandledFitsExactly(p: Peer, c: Conn, e: Event, s1: Send, s2: Send)
    requires FittingConn(p.tracked) && (Fitting(HandledEvent(c, e, s1, s2).conn) <==> !Stales(c, e))
    requires EventHandled(p, c, e, s1, s2).Continues?
    ensures FittingPeer(EventHandled(p, c, e, s1, s2).peer) <==> !Stales(c, e)
  {
    if Stales(c, e) {
      AnsweredIsKept(p, c, e, s1, s2);
    } else {
      ConcludedIsFitting(p, c.state, HandledEvent(c, e, s1, s2), e);
    }
  }

  lemma CollidedIsFitting(p: Peer, i: Input)
    requires i.MainPoll? && p.connection.Some? && !ReachesEvent(p, i) && MainPolled(p, i).Continues?
    requires FittingPeer(p) && Fitting(Polled(p.connection.value, i.stimulus))
    ensures FittingPeer(MainPolled(p, i).peer)
  {
  }

  lemma MainPollFitsExactly(p: Peer, i: Input)
    requires i.MainPoll? && Enabled(p, i) && SoundPeer(p) && FittingPeer(p) && MainPolled(p, i).Continues?
    ensures FittingPeer(MainPolled(p, i).peer) <==> !StaleStep(p, i)
  {
    var c, e := Polled(p.connection.value, i.stimulus), PolledEvent(p.connection.value, i.stimulus);
    PolledIsFitting(p.connection.value, Expected(p.props), i.stimulus, i.s1, i.s2);
    if ReachesEvent(p, i) {
      EventReached(p, i);
      HandledFitsExactly(p.(connection := Some(c)), c, e, i.s1, i.s2);
    } else {
      CollidedIsFitting(p, i);
    }
  }

  lemma TrackedPollFitsExactly(p: Peer, i: Input)
    requires i.TrackedPoll? && Enabled(p, i) && SoundPeer(p) && FittingPeer(p) && TrackedPolled(p, i).Continues?
    ensures FittingPeer(TrackedPolled(p, i).peer) <==> !StaleStep(p, i)
  {
    PolledIsFitting(p.tracked.value, Expected(p.props), i.stimulus, i.s1, i.s2);
  }

  /** One step keeps all keepalive timers fitting exactly unless it is such a step. */
  lemma StepFitsExactly(p: Peer, i: Input)
    requires Enabled(p, i) && SoundPeer(p) && FittingPeer(p) && PeerStep(p, i).Continues?
    ensures FittingPeer(PeerStep(p, i).peer) <==> !StaleStep(p, i)
  {
    match i
    case Start =>
    case Stop(_) =>
    case Accept(jitter, send) =>
      if !Rejects(p) {
        JoinedIsFitting(p, PassiveKind, jitter, TcpConnectionConfirmed, send);
      }
    case ConnectOk(jitter, send) =>
      JoinedIsFitting(p.(mayConnect := false), ActiveKind, jitter, TcpConnectionRequestAcked, send);
    case ConnectErr =>
    case ConnectAbandoned =>
    case RetryTick =>
    case MainPoll(_, _, _, _) => MainPollFitsExactly(p, i);
    case TrackedPoll(_, _, _) => TrackedPollFitsExactly(p, i);
  }

  lemma FittingNext(peers: seq<Peer>, inputs: seq<Input>, events: seq<Reported>, t: nat)
    requires Run(peers, inputs, events) && t < |inputs| && SoundPeer(peers[t]) && FittingPeer(peers[t])
    ensures FittingPeer(peers[t + 1]) <==> !StaleStep(peers[t], inputs[t])
  {
    assert StepAt(peers, inputs, events, t);
    StepFitsExactly(peers[t], inputs[t]);
  }

  lemma {:induction false} FittingUpTo(peers: seq<Peer>, inputs: seq<Input>, events: seq<Reported>, t: nat)
    requires Run(peers, inputs, events) && t < |peers|
    requires forall u :: 0 <= u < t ==> !StaleStep(peers[u], inputs[u])
    ensures FittingPeer(peers[t])
  {
    if t == 0 {
    } else {
      FittingUpTo(peers, inputs, events, t - 1);
      RunsAreSound(peers, inputs, events, t - 1);
      FittingNext(peers, inputs, events, t - 1);
    }
  }

  /**
   * Over a run, whichever sends fail, every running keepalive timer fits three times in the hold
   * period, which is the smaller of the two hold times, if and only if no step leaves a connection
   * with an OPEN that turned timers off while its keepalive timer ran.
   */
  lemma KeepaliveFitsExactly(peers: seq<Peer>, inputs: seq<Input>, events: seq<Reported>)
    requires Run(peers, inputs, events)
    ensures (forall t :: 0 <= t < |peers| ==> FittingPeer(peers[t]))
       <==> (forall t :: 0 <= t < |inputs| ==> !StaleStep(peers[t], inputs[t]))
  {
    if forall t :: 0 <= t < |peers| ==> FittingPeer(peers[t]) {
      forall t | 0 <= t < |inputs|
        ensures !StaleStep(peers[t], inputs[t])
      {
        RunsAreSound(peers, inputs, events, t);
        FittingNext(peers, inputs, events, t);
      }
    }
    if forall t :: 0 <= t < |inputs| ==> !StaleStep(peers[t], inputs[t]) {
      forall t | 0 <= t < |peers|
        ensures FittingPeer(peers[t])
      {
        FittingUpTo(peers, inputs, events, t);
      }
    }
  }

  /** The tracked connection answered an OPEN in vain: still in OpenSent, with its keepalive timer running. */
  ghost predicate Unanswered(p: Peer, asn: nat) {
    && p.fsm == FsmOpenSent && p.connection.Some? && p.connection.value.peerBgpId.None?
    && p.tracked.Some? && p.tracked.value.state == OpenSent && p.tracked.value.peerAsn == Some(asn)
    && p.tracked.value.keepaliveTimer.Some? && !p.tracked.value.openDelayTimer
  }

  lemma LosesKeepalive(p: Peer, open: Open)
    requires TwoOpen(p) && p.config.conn.hold > 0 && open.holdTime > 0
    requires !p.props.dynamicAs ==> open.asn == p.props.peerAsn
    ensures Enabled(p, TrackedOpen(open, LostUncounted)) && PeerStep(p, TrackedOpen(open, LostUncounted)).Continues?
    ensures Unanswered(PeerStep(p, TrackedOpen(open, LostUncounted)).peer, open.asn)
  {
    var t := Polled(p.tracked.value, Received(OpenMessage(open)));
    AcceptTimes(t, open);
    assert HandledEvent(t, BgpOpen(open), LostUncounted, Delivered) == Handled(Accepted(t, open), false);
  }

  lemma TurnsTimersOff(p: Peer, open: Open)
    requires Unanswered(p, open.asn) && open.holdTime == 0
    ensures Enabled(p, TrackedOpen(open, Delivered)) && PeerStep(p, TrackedOpen(open, Delivered)).Continues?
    ensures var t := PeerStep(p, TrackedOpen(open, Delivered)).peer.tracked;
            t.Some? && t.value.keepaliveTimer.Some? && t.value.holdDuration == 0.0 && !Fitting(t.value)
  {
    var t := Polled(p.tracked.value, Received(OpenMessage(open)));
    assert HandledEvent(t, BgpOpen(open), Delivered, Delivered).conn
        == SentKeepalive(Accepted(t, open), Delivered).(state := OpenConfirm);
  }

  /**
   * A run with such a step: the tracked connection's KEEPALIVE is lost after its keepalive timer was
   * started, and a second OPEN asks for no timers.
   */
  lemma StaleKeepaliveRun(props: Props, config: PeerConfig, first: Open, second: Open)
    requires config.conn.openDelay == 0 && !config.passive && config.conn.hold > 0
    requires first.holdTime > 0 && second.holdTime == 0
    requires first.asn == second.asn && (!props.dynamicAs ==> first.asn == props.peerAsn)
    ensures var after := After(NewPeer(props, config), [Start, CONNECT, ACCEPT, TrackedOpen(first, LostUncounted),
                                                        TrackedOpen(second, Delivered)]);
            after.Some? && !FittingPeer(after.value)
  {
    var p := ReachesTwoOpen(props, config);
    LosesKeepalive(p, first);
    var p1 := PeerStep(p, TrackedOpen(first, LostUncounted)).peer;
    TurnsTimersOff(p1, second);
    AfterOne(p1, TrackedOpen(second, Delivered));
    AfterStep(p, TrackedOpen(first, LostUncounted), [TrackedOpen(second, Delivered)]);
    AfterMore(NewPeer(props, config), [Start, CONNECT, ACCEPT], p,
              [TrackedOpen(first, LostUncounted), TrackedOpen(second, Delivered)]);
    assert [Start, CONNECT, ACCEPT] + [TrackedOpen(first, LostUncounted), TrackedOpen(second, Delivered)]
        == [Start, CONNECT, ACCEPT, TrackedOpen(first, LostUncounted), TrackedOpen(second, Delivered)];
  }
}
