/** What every reachable connection satisfies, whatever arrives and whichever sends fail. */
module ConnectionInvariants {
  import opened Addresses
  import opened BgpConnection

  predicate Opening(s: ConnState) {
    s == OpenSent || s == OpenConfirm || s == Established
  }

  /**
   * How far a session has come shows in what was exchanged: at most one OPEN goes out; from OpenSent
   * on exactly one has; from OpenConfirm on the peer's OPEN was accepted and answered by a KEEPALIVE;
   * Established needs a KEEPALIVE from the peer. `expected` is the configured AS, if there is one.
   */
  ghost predicate Sound(c: Conn, expected: Option<nat>) {
    && c.stats.openSent <= 1
    && (expected.Some? ==> c.peerAsn == expected)
    && (c.openDelayTimer ==> !Opening(c.state) && (c.state == Connected ==> c.stats.openSent == 0 && c.keepaliveTimer.None?))
    && (Opening(c.state) ==> c.stats.openSent == 1)
    && (c.state == OpenConfirm || c.state == Established ==>
          c.peerAsn.Some? && c.peerHoldTime.Some? && c.stats.openReceived >= 1 && c.stats.keepaliveSent >= 1)
    && (c.state == Established ==> c.stats.keepaliveReceived >= 1)
  }

  /** What the event source promises about an event it hands out. */
  ghost predicate Produced(c: Conn, e: Event) {
    match e
    case BgpOpen(open) => (c.peerAsn.Some? ==> c.peerAsn.value == open.asn) && c.stats.openReceived >= 1
    case BgpOpenWithDelayOpenTimer(open) =>
      c.openDelayTimer && (c.peerAsn.Some? ==> c.peerAsn.value == open.asn) && c.stats.openReceived >= 1
    case DelayOpenTimerExpires =>
      !c.openDelayTimer && !Opening(c.state) && (c.state == Connected ==> c.stats.openSent == 0 && c.keepaliveTimer.None?)
    case KeepAliveMsg => c.stats.keepaliveReceived >= 1
    case TcpConnectionRequestAcked | TcpConnectionConfirmed => false
    case _ => true
  }

  lemma PollIsSound(c: Conn, expected: Option<nat>, stimulus: Stimulus)
    requires Sound(c, expected) && CanPoll(c, stimulus)
    ensures Sound(Polled(c, stimulus), expected)
    ensures Produced(Polled(c, stimulus), PolledEvent(c, stimulus))
  {
  }

  lemma HandleConnectedIsSound(c: Conn, expected: Option<nat>, e: Event, s1: Send, s2: Send)
    requires c.state == Connected && Sound(c, expected) && Produced(c, e)
    ensures Sound(HandledConnected(c, e, s1, s2).conn, expected)
  {
  }

  lemma HandleOpenSentIsSound(c: Conn, expected: Option<nat>, e: Event, s1: Send)
    requires c.state == OpenSent && Sound(c, expected) && Produced(c, e)
    ensures Sound(HandledOpenSent(c, e, s1).conn, expected)
  {
  }

  /** Handling an event the source produced keeps the connection sound, even when sends fail. */
  lemma HandleIsSound(c: Conn, expected: Option<nat>, e: Event, s1: Send, s2: Send)
    requires Sound(c, expected) && Produced(c, e)
    ensures Sound(HandledEvent(c, e, s1, s2).conn, expected)
  {
    match c.state
    case Connected => HandleConnectedIsSound(c, expected, e, s1, s2);
    case OpenSent => HandleOpenSentIsSound(c, expected, e, s1);
    case OpenConfirm =>
    case Established =>
    case Terminate =>
  }

  /** A new connection that has seen its first event. */
  lemma NewIsSound(kind: Kind, config: Config, expected: Option<nat>, jitter: real, e: Event, s1: Send, s2: Send)
    requires e == TcpConnectionRequestAcked || e == TcpConnectionConfirmed
    ensures var h := HandledEvent(NewConn(kind, config, expected, jitter), e, s1, s2);
            Sound(h.conn, expected) && (h.ok ==> h.conn.state == Connected || h.conn.state == OpenSent)
  {
  }

  // Timers

  predicate Jitters(jitter: real) {
    0.75 <= jitter <= 1.0
  }

  /** Three keepalive periods fit in the hold period, which is the smaller of the two hold times. */
  ghost predicate KeepaliveFits(c: Conn) {
    && c.keepaliveTimer.Some? && c.peerHoldTime.Some?
    && c.holdDuration == Min(c.config.hold, c.peerHoldTime.value) as real > 0.0
    && c.holdTimer == Some(c.holdDuration)
    && 0.0 < 3.0 * c.keepaliveTimer.value <= c.holdDuration
  }

  /** A running keepalive timer is the negotiated one. */
  ghost predicate Fitting(c: Conn) {
    Jitters(c.jitter) && (c.keepaliveTimer.Some? ==> KeepaliveFits(c))
  }

  /** An OPEN that turns timers off, on a connection whose keepalive timer already runs. */
  predicate Stales(c: Conn, e: Event) {
    c.state == OpenSent && c.keepaliveTimer.Some? && e.BgpOpen? && e.open.holdTime == 0
  }

  lemma JitteredFits(hold: real, jitter: real)
    requires hold > 0.0 && Jitters(jitter)
    ensures 0.0 < 3.0 * Jittered(hold / 3.0, jitter) <= hold
  {
    var third := hold / 3.0;
    assert third * jitter <= third * 1.0 by {
      assert third * (1.0 - jitter) >= 0.0;
    }
    assert third * jitter > 0.0;
  }

  /** Accepting an OPEN starts the keepalive timer with a fitting period, unless timers are off. */
  lemma AcceptTimes(c: Conn, open: Open)
    requires Jitters(c.jitter) && c.keepaliveTimer.None?
    ensures Accepted(c, open).keepaliveTimer.Some? <==> c.config.hold > 0 && open.holdTime > 0
    ensures Fitting(Accepted(c, open))
  {
    var hold := NegotiatedHold(Read(c.(openDelayTimer := false), open));
    if hold > 0.0 {
      JitteredFits(hold, c.jitter);
    }
  }

  /** A second OPEN replaces the keepalive timer by a fitting one, unless it turns timers off. */
  lemma AcceptAgain(c: Conn, open: Open)
    requires Fitting(c) && c.keepaliveTimer.Some?
    ensures Fitting(Accepted(c, open)) <==> open.holdTime > 0
  {
    var hold := NegotiatedHold(Read(c.(openDelayTimer := false), open));
    if hold > 0.0 {
      JitteredFits(hold, c.jitter);
    }
  }

  lemma PollIsFitting(c: Conn, stimulus: Stimulus)
    ensures Fitting(Polled(c, stimulus)) <==> Fitting(c)
  {
  }

  lemma SentIsFitting(c: Conn, s: Send)
    ensures Fitting(SentOpen(c, s)) <==> Fitting(c)
    ensures Fitting(SentKeepalive(c, s)) <==> Fitting(c)
  {
  }

  lemma ConnectedIsFitting(c: Conn, expected: Option<nat>, e: Event, s1: Send, s2: Send)
    requires c.state == Connected && Fitting(c) && Sound(c, expected) && Produced(c, e)
    ensures Fitting(HandledConnected(c, e, s1, s2).conn)
  {
    if e.BgpOpenWithDelayOpenTimer? {
      AcceptTimes(c, e.open);
      SentIsFitting(Accepted(c, e.open), s1);
    }
  }

  lemma OpenSentIsFitting(c: Conn, e: Event, s1: Send)
    requires c.state == OpenSent && Fitting(c)
    ensures Fitting(HandledOpenSent(c, e, s1).conn) <==> !Stales(c, e)
  {
    if e.BgpOpen? {
      if c.keepaliveTimer.Some? {
        AcceptAgain(c, e.open);
      } else {
        AcceptTimes(c, e.open);
      }
      SentIsFitting(Accepted(c, e.open), s1);
    }
  }

  /**
   * Handling an event keeps a running keepalive timer fitting, whichever sends fail, exactly unless
   * an OPEN without timers reaches a connection in OpenSent whose keepalive timer already runs.
   */
  lemma HandleIsFitting(c: Conn, expected: Option<nat>, e: Event, s1: Send, s2: Send)
    requires Fitting(c) && Sound(c, expected) && Produced(c, e)
    ensures Fitting(HandledEvent(c, e, s1, s2).conn) <==> !Stales(c, e)
  {
    match c.state
    case Connected => ConnectedIsFitting(c, expected, e, s1, s2);
    case OpenSent => OpenSentIsFitting(c, e, s1);
    case OpenConfirm =>
    case Established =>
    case Terminate =>
  }

  /**
   * After an OPEN is accepted the hold timer runs with the negotiated period exactly when that is
   * not zero; otherwise the large hold timer of the OpenSent state is left running.
   */
  lemma HoldTimerAfterOpen(c: Conn, open: Open)
    requires c.state == OpenSent && c.holdTimer == Some(c.config.holdLarge as real) && c.config.holdLarge > 0
    ensures var h := HandledEvent(c, BgpOpen(open), Delivered, Delivered).conn;
            if Min(c.config.hold, open.holdTime) > 0 then h.holdTimer == Some(Min(c.config.hold, open.holdTime) as real)
            else h.holdTimer == Some(c.config.holdLarge as real) && h.keepaliveTimer == c.keepaliveTimer
  {
  }
}
