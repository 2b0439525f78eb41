/** What events do to a peer, told field by field, and what that makes of every run. */
module PeerEffects {
  import opened Addresses
  import opened BgpConnection
  import opened BgpPeer
  import opened PeerRuns
  import Lives = ConnectionLives

  // Transitions of the main connection

  /** The connection fails before the peer's OPEN in a way that lets the peer listen again. */
  predicate Relistens(fsm: Fsm, c: Conn, e: Event) {
    e == TcpConnectionFails && (c.state == OpenSent || (c.state == Connected && c.openDelayTimer && fsm == Connect))
  }

  /** An error the peer is not held accountable for. */
  predicate Forgiven(fsm: Fsm, c: Conn, e: Event) {
    || (e == NotifMsgVerErr && (c.state == OpenSent || c.state == OpenConfirm || (c.state == Connected && c.openDelayTimer)))
    || (e == TcpConnectionFails && (c.state == OpenSent || (c.state == Connected && fsm != Active)))
  }

  /** The peer's side of a transition that does not fail, by effect. */
  ghost predicate EffectIsRight(fsm: Fsm, c: Conn, e: Event, after: Conn, effect: Effect) {
    && effect.Effect?
    && (effect.dropped <==> after.state == Terminate)
    && effect.fsm == (if after.state == Terminate then if Relistens(fsm, c, e) then Active else Idle
                      else FsmOf(after.state, fsm))
    && (effect.counted <==> after.state == Terminate && !Forgiven(fsm, c, e))
    && (effect.retry == Arm <==> after.state == Terminate && Relistens(fsm, c, e))
    && (effect.retry == Keep <==> after.state != Terminate && !(e.BgpOpen? || e.BgpOpenWithDelayOpenTimer?))
  }

  lemma ConnectedEffect(fsm: Fsm, c: Conn, e: Event, s1: Send, s2: Send)
    requires c.state == Connected && !Unsolicited(e) && HandledConnected(c, e, s1, s2).ok
    ensures var h := HandledConnected(c, e, s1, s2).conn;
            EffectIsRight(fsm, c, e, h, FromConnected(fsm, h.state, e, h.openDelayTimer))
  {
  }

  lemma OpenSentEffect(fsm: Fsm, c: Conn, e: Event, s1: Send)
    requires c.state == OpenSent && fsm == FsmOpenSent && !Unsolicited(e) && HandledOpenSent(c, e, s1).ok
    ensures var h := HandledOpenSent(c, e, s1).conn;
            EffectIsRight(fsm, c, e, h, FromOpenSent(fsm, h.state, e))
  {
  }

  lemma OpenConfirmEffect(fsm: Fsm, c: Conn, e: Event, s1: Send)
    requires c.state == OpenConfirm && fsm == FsmOpenConfirm && !Unsolicited(e) && HandledOpenConfirm(c, e, s1).ok
    ensures var h := HandledOpenConfirm(c, e, s1).conn;
            EffectIsRight(fsm, c, e, h, FromOpenConfirm(fsm, h.state, e))
  {
  }

  lemma EstablishedEffect(fsm: Fsm, c: Conn, e: Event, s1: Send)
    requires c.state == Established && fsm == FsmEstablished && !Unsolicited(e) && HandledEstablished(c, e, s1).ok
    ensures var h := HandledEstablished(c, e, s1).conn;
            EffectIsRight(fsm, c, e, h, FromEstablished(fsm, h.state, e))
  {
  }

  /**
   * What every event of a live main connection makes the peer do: drop the connection exactly when it
   * is over, follow its state, count the failure unless it is forgiven, and stop or restart retrying.
   */
  lemma EffectsExactly(fsm: Fsm, c: Conn, e: Event, s1: Send, s2: Send)
    requires c.state != Terminate && fsm == FsmOf(c.state, fsm) && !Unsolicited(e) && HandledEvent(c, e, s1, s2).ok
    ensures var h := HandledEvent(c, e, s1, s2).conn;
            EffectIsRight(fsm, c, e, h, EffectOf(fsm, c.state, h.state, e, h.openDelayTimer))
  {
    match c.state
    case Connected => ConnectedEffect(fsm, c, e, s1, s2);
    case OpenSent => OpenSentEffect(fsm, c, e, s1);
    case OpenConfirm => OpenConfirmEffect(fsm, c, e, s1);
    case Established => EstablishedEffect(fsm, c, e, s1);
  }

  /** And so for every event of the main connection of an agreeing peer that is handled. */
  lemma HandledMeans(p: Peer, i: Input)
    requires i.MainPoll? && Enabled(p, i) && Agrees(p) && ReachesEvent(p, i) && PeerStep(p, i).Continues?
    ensures var c, e := Polled(p.connection.value, i.stimulus), PolledEvent(p.connection.value, i.stimulus);
            var after, p' := HandledEvent(c, e, i.s1, i.s2).conn, PeerStep(p, i).peer;
            && p'.connection == (if after.state == Terminate then None else Some(after))
            && p'.tracked == p.tracked
            && p'.fsm == (if after.state == Terminate then if Relistens(p.fsm, c, e) then Active else Idle
                          else FsmOf(after.state, p.fsm))
            && p'.retryCounter == p.retryCounter + (if after.state == Terminate && !Forgiven(p.fsm, c, e) then 1 else 0)
            && p'.retryTimer == (if after.state == Terminate then Relistens(p.fsm, c, e)
                                 else p.retryTimer && !(e.BgpOpen? || e.BgpOpenWithDelayOpenTimer?))
  {
    var c, e := Polled(p.connection.value, i.stimulus), PolledEvent(p.connection.value, i.stimulus);
    PolledIsSolicited(p.connection.value, i.stimulus);
    PollKeepsState(p.connection.value, i.stimulus);
    EventReached(p, i);
    EffectsExactly(p.fsm, c, e, i.s1, i.s2);
  }

  // Steps, field by field

  predicate Honoured(p: Peer, i: Input) {
    i.Start? && p.fsm == Idle
  }

  ghost predicate SameAdmin(p: Peer, p': Peer) {
    p'.adminUp == p.adminUp && p'.props == p.props && p'.config == p.config
  }

  lemma ConcludedKeepsAdmin(p: Peer, before: ConnState, h: Handled, e: Event)
    requires Concluded(p, before, h, e).Continues?
    ensures SameAdmin(p, Concluded(p, before, h, e).peer)
  {
  }

  lemma MainPollKeepsAdmin(p: Peer, i: Input)
    requires i.MainPoll? && Enabled(p, i) && MainPolled(p, i).Continues?
    ensures SameAdmin(p, MainPolled(p, i).peer)
  {
    var c, e := Polled(p.connection.value, i.stimulus), PolledEvent(p.connection.value, i.stimulus);
    var h := HandledEvent(c, e, i.s1, i.s2);
    if ReachesEvent(p, i) {
      EventReached(p, i);
      ConcludedKeepsAdmin(p.(connection := Some(c)), c.state, h, e);
    }
  }

  lemma TrackedPollKeepsAdmin(p: Peer, i: Input)
    requires i.TrackedPoll? && Enabled(p, i) && TrackedPolled(p, i).Continues?
    ensures SameAdmin(p, TrackedPolled(p, i).peer)
  {
  }

  /** A peer is up from an honoured start to the next stop. */
  lemma AdminExactly(p: Peer, i: Input)
    requires Enabled(p, i) && PeerStep(p, i).Continues?
    ensures PeerStep(p, i).peer.adminUp == ((p.adminUp || Honoured(p, i)) && !i.Stop?)
    ensures PeerStep(p, i).peer.props == p.props && PeerStep(p, i).peer.config == p.config
  {
    match i
    case Start =>
    case Stop(_) =>
    case Accept(jitter, send) =>
    case ConnectOk(jitter, send) =>
    case ConnectErr =>
    case ConnectAbandoned =>
    case RetryTick =>
    case MainPoll(_, _, _, _) => MainPollKeepsAdmin(p, i);
    case TrackedPoll(_, _, _) => TrackedPollKeepsAdmin(p, i);
  }

  /** A start leads to listening or to connecting, as configured. */
  lemma StartDecides(p: Peer, jitter: real, send: Send)
    requires p.fsm == Idle && 0.75 <= jitter <= 1.0
    ensures var p' := PeerStep(p, Start).peer;
            && p'.retryTimer && p'.retryCounter == 0 && p'.connection == p.connection && p'.tracked == p.tracked
            && (Enabled(p', ConnectOk(jitter, send)) <==> !p.config.passive)
            && (p'.fsm == Active <==> p.config.passive)
  {
  }

  /** A new peer does nothing until it is started; a stop takes it back there, counting itself unless it is manual. */
  lemma StopUndoes(p: Peer, manual: bool, i: Input)
    ensures var newPeer, stopped := NewPeer(p.props, p.config), PeerStep(p, Stop(manual)).peer;
            && (Enabled(newPeer, i) ==> i.Start? || i.Stop? || i.Accept?)
            && (Enabled(newPeer, i) && i.Accept? ==> PeerStep(newPeer, i) == Continues(newPeer, Rejected))
            && !newPeer.mayConnect && newPeer.retryCounter == 0
            && stopped == newPeer.(mayConnect := p.mayConnect, retryCounter := if manual then 0 else p.retryCounter + 1)
  {
  }

  /** The retry timer goes off: the main connection goes, and a peer that listened connects. */
  lemma RetriesExactly(p: Peer, jitter: real, send: Send)
    requires Enabled(p, RetryTick) && 0.75 <= jitter <= 1.0
    ensures var p' := PeerStep(p, RetryTick).peer;
            && p'.connection.None? && p'.tracked == p.tracked && p'.retryTimer && p'.retryCounter == p.retryCounter
            && (p'.fsm == Connect <==> p.fsm == Active || p.fsm == Connect) && (p'.fsm != Connect ==> p'.fsm == p.fsm)
            && (Enabled(p', ConnectOk(jitter, send)) <==> p'.fsm == Connect) && (p'.mayConnect <==> p'.fsm == Connect)
  {
  }

  /** An incoming connection is turned away exactly when the peer is down, holds two, or is Established and configured so. */
  lemma RejectsExactly(p: Peer, jitter: real, send: Send)
    requires Enabled(p, Accept(jitter, send))
    ensures PeerStep(p, Accept(jitter, send)) == Continues(p, Rejected) <==>
              || !p.adminUp
              || (p.connection.Some? && p.tracked.Some?)
              || (p.fsm == FsmEstablished && !p.config.collideInEstablished)
  {
  }

  /** A connection that is taken becomes the main one if there is none, and is tracked otherwise. */
  lemma TakenExactly(p: Peer, jitter: real, send: Send)
    requires Enabled(p, Accept(jitter, send)) && PeerStep(p, Accept(jitter, send)).Continues?
    requires PeerStep(p, Accept(jitter, send)).event != Rejected
    ensures var p' := PeerStep(p, Accept(jitter, send)).peer;
            var c := Lives.Born(PassiveKind, p.config.conn, Expected(p.props), jitter, TcpConnectionConfirmed, send);
            && !p'.retryTimer
            && if p.connection.None?
               then p'.connection == Some(c) && p'.tracked == p.tracked && p'.fsm == FsmOf(c.state, p.fsm)
               else p'.connection == p.connection && p'.tracked == Some(c) && p'.fsm == p.fsm
  {
  }

  // A peer that is down

  /** A peer that was never started, or was stopped since, is Idle, holds no connection and waits for nothing. */
  ghost predicate Quiet(p: Peer) {
    !p.adminUp ==> p.fsm == Idle && p.connection.None? && p.tracked.None? && !p.retryTimer
  }

  lemma StepIsQuiet(p: Peer, i: Input)
    requires Enabled(p, i) && Quiet(p) && PeerStep(p, i).Continues?
    ensures Quiet(PeerStep(p, i).peer)
  {
    AdminExactly(p, i);
  }

  lemma QuietNext(peers: seq<Peer>, inputs: seq<Input>, events: seq<Reported>, t: nat)
    requires Run(peers, inputs, events) && t < |inputs| && Quiet(peers[t])
    ensures Quiet(peers[t + 1])
  {
    assert StepAt(peers, inputs, events, t);
    StepIsQuiet(peers[t], inputs[t]);
  }

  lemma {:induction false} RunsAreQuiet(peers: seq<Peer>, inputs: seq<Input>, events: seq<Reported>, t: nat)
    requires Run(peers, inputs, events) && t < |peers|
    ensures Quiet(peers[t])
  {
    if t == 0 {
    } else {
      RunsAreQuiet(peers, inputs, events, t - 1);
      QuietNext(peers, inputs, events, t - 1);
    }
  }

  /** Whether the peer is up, from the inputs of the run alone: a start came after the last stop. */
  ghost predicate UpBy(inputs: seq<Input>, t: nat)
    requires t <= |inputs|
  {
    exists i :: 0 <= i < t && inputs[i].Start? && forall j :: i < j < t ==> !inputs[j].Stop?
  }

  lemma {:induction false} UpExactly(peers: seq<Peer>, inputs: seq<Input>, events: seq<Reported>, t: nat)
    requires Run(peers, inputs, events) && t < |peers|
    ensures peers[t].adminUp <==> UpBy(inputs, t)
  {
    if t == 0 {
    } else {
      UpExactly(peers, inputs, events, t - 1);
      RunsAreQuiet(peers, inputs, events, t - 1);
      UpNext(peers, inputs, events, t - 1);
      UpByNext(inputs, t - 1);
    }
  }

  lemma UpNext(peers: seq<Peer>, inputs: seq<Input>, events: seq<Reported>, t: nat)
    requires Run(peers, inputs, events) && t < |inputs| && Quiet(peers[t])
    ensures peers[t + 1].adminUp == ((peers[t].adminUp || inputs[t].Start?) && !inputs[t].Stop?)
  {
    assert StepAt(peers, inputs, events, t);
    AdminExactly(peers[t], inputs[t]);
  }

  lemma UpByNext(inputs: seq<Input>, t: nat)
    requires t < |inputs|
    ensures UpBy(inputs, t + 1) <==> (UpBy(inputs, t) || inputs[t].Start?) && !inputs[t].Stop?
  {
    if UpBy(inputs, t) && !inputs[t].Stop? {
      var i :| 0 <= i < t && inputs[i].Start? && forall j :: i < j < t ==> !inputs[j].Stop?;
      assert forall j :: i < j < t + 1 ==> !inputs[j].Stop?;
    }
    if UpBy(inputs, t + 1) {
      var i :| 0 <= i < t + 1 && inputs[i].Start? && forall j :: i < j < t + 1 ==> !inputs[j].Stop?;
      assert i < t ==> forall j :: i < j < t ==> !inputs[j].Stop?;
    }
  }
}
