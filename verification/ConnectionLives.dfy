/**
 * A connection's whole life: what its state machine sends, learns and changes, told by effect and
 * not by state, and the ledgers of its messages from its first event on.
 */
module ConnectionLives {
  import opened Addresses
  import opened BgpConnection
  import opened BgpPeer
  import Runs = PeerRuns

  // What an event stands for

  /** Which stimulus lies behind each event the source hands out. */
  lemma EventsExactly(c: Conn, stimulus: Stimulus)
    ensures PolledEvent(c, stimulus) == HoldTimerExpires <==> stimulus == HoldTick
    ensures PolledEvent(c, stimulus) == KeepAliveTimerExpires <==> stimulus == KeepaliveTick
    ensures PolledEvent(c, stimulus) == DelayOpenTimerExpires <==> stimulus == DelayTick
    ensures PolledEvent(c, stimulus) == TcpConnectionFails <==> stimulus == Closed || stimulus == Garbled(IoError)
    ensures PolledEvent(c, stimulus) == BgpHeaderErr <==> stimulus == Garbled(HeaderError)
    ensures PolledEvent(c, stimulus) == NotifMsgErr <==> stimulus == Garbled(NotificationError)
    ensures PolledEvent(c, stimulus) == RouteRefreshErr <==> stimulus == Garbled(RefreshError)
    ensures PolledEvent(c, stimulus) == UpdateMsgErr <==>
              stimulus == Garbled(UpdateError) || stimulus == Received(Update(Malformed))
    ensures PolledEvent(c, stimulus) == KeepAliveMsg <==> stimulus == Received(KeepAlive)
    ensures PolledEvent(c, stimulus) == RouteRefresh <==> stimulus == Received(Refresh)
    ensures PolledEvent(c, stimulus) == NotifMsgVerErr <==> stimulus == Received(Notification(true))
    ensures PolledEvent(c, stimulus) == NotifMsg <==> stimulus == Received(Notification(false))
    ensures PolledEvent(c, stimulus) == BgpOpenMsgErr <==>
              stimulus == Garbled(OpenError) || exists open :: stimulus == Received(OpenMessage(open)) && FromOther(c, open)
  {
  }

  predicate FromOther(c: Conn, open: Open) {
    c.peerAsn.Some? && c.peerAsn != Some(open.asn)
  }

  /** An OPEN is passed on exactly when it is not from another AS, and an UPDATE as it was read. */
  lemma MessagesExactly(c: Conn, stimulus: Stimulus, open: Open, update: nat, normal: bool)
    ensures PolledEvent(c, stimulus) == BgpOpen(open) <==>
              stimulus == Received(OpenMessage(open)) && !FromOther(c, open) && !c.openDelayTimer
    ensures PolledEvent(c, stimulus) == BgpOpenWithDelayOpenTimer(open) <==>
              stimulus == Received(OpenMessage(open)) && !FromOther(c, open) && c.openDelayTimer
    ensures PolledEvent(c, stimulus) == UpdateMsg(update, normal) <==> stimulus == Received(Update(Treated(update, normal)))
  {
  }

  /** Polling counts OPENs and KEEPALIVEs, notes the identifier of every OPEN, and takes the delay timer that fired. */
  lemma PollChanges(c: Conn, stimulus: Stimulus)
    ensures var opens := stimulus.Received? && stimulus.message.OpenMessage?;
            var alive := stimulus == Received(KeepAlive);
            Polled(c, stimulus) ==
              c.(openDelayTimer := c.openDelayTimer && stimulus != DelayTick,
                 peerBgpId := if opens then Some(stimulus.message.open.bgpId) else c.peerBgpId,
                 stats := c.stats.(openReceived := c.stats.openReceived + if opens then 1 else 0,
                                   keepaliveReceived := c.stats.keepaliveReceived + if alive then 1 else 0))
  {
  }

  /** Only timers that run can fire; anything may arrive on the wire. */
  lemma FiresExactly(c: Conn, stimulus: Stimulus)
    ensures !CanPoll(c, stimulus) <==>
              || (stimulus == KeepaliveTick && c.keepaliveTimer == None)
              || (stimulus == HoldTick && c.holdTimer == None)
              || (stimulus == DelayTick && !c.openDelayTimer)
  {
  }

  // What handling an event does, effect by effect

  /** An OPEN goes out of its own accord: the delay is over, or there is none. */
  predicate Greets(c: Conn, e: Event) {
    c.state == Connected &&
    (e == DelayOpenTimerExpires || ((e == TcpConnectionRequestAcked || e == TcpConnectionConfirmed) && c.config.openDelay == 0))
  }

  /** The delay timer is set. */
  predicate Waits(c: Conn, e: Event) {
    c.state == Connected && (e == TcpConnectionRequestAcked || e == TcpConnectionConfirmed) && c.config.openDelay > 0
  }

  /** The peer's OPEN is accepted. */
  predicate Accepts(c: Conn, e: Event) {
    (c.state == Connected && e.BgpOpenWithDelayOpenTimer?) || (c.state == OpenSent && e.BgpOpen?)
  }

  /** The keepalive timer asks for a KEEPALIVE. */
  predicate Beats(c: Conn, e: Event) {
    (c.state == OpenConfirm || c.state == Established) && e == KeepAliveTimerExpires
  }

  /** The send is counted, whether or not it arrives. */
  predicate Counted(s: Send) {
    s == Delivered || s == LostCounted
  }

  predicate SendsAnOpen(c: Conn, e: Event, s1: Send) {
    (Greets(c, e) || (Accepts(c, e) && c.state == Connected)) && Counted(s1)
  }

  /** A KEEPALIVE answers an accepted OPEN, after our own if that had to go out first, and goes out on every expiry. */
  predicate SendsAKeepalive(c: Conn, e: Event, s1: Send, s2: Send) {
    || (Accepts(c, e) && if c.state == Connected then s1 == Delivered && Counted(s2) else Counted(s1))
    || (Beats(c, e) && Counted(s1))
  }

  /** Events that do not end a connection, by event. */
  predicate Tolerates(s: ConnState, e: Event) {
    match e
    case NotifMsgErr => true
    case TcpConnectionRequestAcked | TcpConnectionConfirmed | DelayOpenTimerExpires | BgpOpenWithDelayOpenTimer(_) => s == Connected
    case BgpOpen(_) => s == OpenSent
    case KeepAliveTimerExpires | KeepAliveMsg => s == OpenConfirm || s == Established
    case UpdateMsg(_, _) | RouteRefresh => s == Established
    case _ => false
  }

  ghost predicate SentRightly(c: Conn, e: Event, s1: Send, s2: Send, after: Conn) {
    after.stats == c.stats.(openSent := c.stats.openSent + if SendsAnOpen(c, e, s1) then 1 else 0,
                            keepaliveSent := c.stats.keepaliveSent + if SendsAKeepalive(c, e, s1, s2) then 1 else 0)
  }

  lemma ConnectedSends(c: Conn, e: Event, s1: Send, s2: Send)
    requires c.state == Connected
    ensures SentRightly(c, e, s1, s2, HandledConnected(c, e, s1, s2).conn)
  {
  }

  lemma OpenSentSends(c: Conn, e: Event, s1: Send, s2: Send)
    requires c.state == OpenSent
    ensures SentRightly(c, e, s1, s2, HandledOpenSent(c, e, s1).conn)
  {
  }

  lemma OpenConfirmSends(c: Conn, e: Event, s1: Send, s2: Send)
    requires c.state == OpenConfirm
    ensures SentRightly(c, e, s1, s2, HandledOpenConfirm(c, e, s1).conn)
  {
  }

  lemma EstablishedSends(c: Conn, e: Event, s1: Send, s2: Send)
    requires c.state == Established
    ensures SentRightly(c, e, s1, s2, HandledEstablished(c, e, s1).conn)
  {
  }

  /** What is sent. */
  lemma SendsExactly(c: Conn, e: Event, s1: Send, s2: Send)
    ensures SentRightly(c, e, s1, s2, HandledEvent(c, e, s1, s2).conn)
  {
    match c.state
    case Connected => ConnectedSends(c, e, s1, s2);
    case OpenSent => OpenSentSends(c, e, s1, s2);
    case OpenConfirm => OpenConfirmSends(c, e, s1, s2);
    case Established => EstablishedSends(c, e, s1, s2);
    case Terminate =>
  }

  /** An expiry of the keepalive timer sends one KEEPALIVE and changes nothing else. */
  lemma BeatChangesNothingElse(c: Conn, s1: Send, s2: Send)
    requires Beats(c, KeepAliveTimerExpires) && Counted(s1)
    ensures HandledEvent(c, KeepAliveTimerExpires, s1, s2).conn
         == c.(stats := c.stats.(keepaliveSent := c.stats.keepaliveSent + 1))
  {
  }

  /** A live connection ends on what it does not tolerate, except when it cannot say that the hold time is over. */
  lemma TerminatesExactly(c: Conn, e: Event, s1: Send, s2: Send)
    requires c.state != Terminate
    ensures HandledEvent(c, e, s1, s2).conn.state == Terminate <==>
              !Tolerates(c.state, e) && !(c.state == OpenSent && e == HoldTimerExpires && s1 != Delivered)
  {
  }

  ghost predicate AdvancedRightly(c: Conn, e: Event, s1: Send, s2: Send, after: Conn) {
    && (after.state == OpenSent && c.state != OpenSent <==> Greets(c, e) && s1 == Delivered)
    && (after.state == OpenConfirm && c.state != OpenConfirm <==>
          Accepts(c, e) && s1 == Delivered && (c.state == Connected ==> s2 == Delivered))
    && (after.state == Established && c.state != Established <==> c.state == OpenConfirm && e == KeepAliveMsg)
    && (after.state == Connected ==> c.state == Connected) && (c.state == Terminate ==> after.state == Terminate)
  }

  lemma ConnectedAdvances(c: Conn, e: Event, s1: Send, s2: Send)
    requires c.state == Connected
    ensures AdvancedRightly(c, e, s1, s2, HandledConnected(c, e, s1, s2).conn)
  {
  }

  lemma OpenSentAdvances(c: Conn, e: Event, s1: Send, s2: Send)
    requires c.state == OpenSent
    ensures AdvancedRightly(c, e, s1, s2, HandledOpenSent(c, e, s1).conn)
  {
  }

  lemma OpenConfirmAdvances(c: Conn, e: Event, s1: Send, s2: Send)
    requires c.state == OpenConfirm
    ensures AdvancedRightly(c, e, s1, s2, HandledOpenConfirm(c, e, s1).conn)
  {
  }

  lemma EstablishedAdvances(c: Conn, e: Event, s1: Send, s2: Send)
    requires c.state == Established
    ensures AdvancedRightly(c, e, s1, s2, HandledEstablished(c, e, s1).conn)
  {
  }

  /** Which events move a connection on: an OPEN sent, an OPEN answered, a KEEPALIVE received. */
  lemma AdvancesExactly(c: Conn, e: Event, s1: Send, s2: Send)
    ensures AdvancedRightly(c, e, s1, s2, HandledEvent(c, e, s1, s2).conn)
  {
    match c.state
    case Connected => ConnectedAdvances(c, e, s1, s2);
    case OpenSent => OpenSentAdvances(c, e, s1, s2);
    case OpenConfirm => OpenConfirmAdvances(c, e, s1, s2);
    case Established => EstablishedAdvances(c, e, s1, s2);
    case Terminate =>
  }

  /** Handling fails exactly when a message that the session needs cannot be sent. */
  lemma FailsExactly(c: Conn, e: Event, s1: Send, s2: Send)
    ensures !HandledEvent(c, e, s1, s2).ok <==>
              || ((Greets(c, e) || Accepts(c, e) || Beats(c, e)) && s1 != Delivered)
              || (Accepts(c, e) && c.state == Connected && s2 != Delivered)
              || ((c.state == OpenSent || c.state == OpenConfirm) && e == HoldTimerExpires && s1 != Delivered)
  {
  }

  function OpenOf(e: Event): Open
    requires e.BgpOpen? || e.BgpOpenWithDelayOpenTimer?
  {
    e.open
  }

  ghost predicate LearnedRightly(c: Conn, e: Event, after: Conn) {
    && after.kind == c.kind && after.config == c.config && after.jitter == c.jitter
    && if Accepts(c, e) then
         var open := OpenOf(e);
         after.peerAsn == Some(open.asn) && after.peerBgpId == Some(open.bgpId) && after.peerHoldTime == Some(open.holdTime)
       else after.peerAsn == c.peerAsn && after.peerBgpId == c.peerBgpId && after.peerHoldTime == c.peerHoldTime
  }

  lemma ConnectedLearns(c: Conn, e: Event, s1: Send, s2: Send)
    requires c.state == Connected
    ensures LearnedRightly(c, e, HandledConnected(c, e, s1, s2).conn)
  {
  }

  lemma OpenSentLearns(c: Conn, e: Event, s1: Send)
    requires c.state == OpenSent
    ensures LearnedRightly(c, e, HandledOpenSent(c, e, s1).conn)
  {
  }

  lemma OpenConfirmLearns(c: Conn, e: Event, s1: Send)
    requires c.state == OpenConfirm
    ensures LearnedRightly(c, e, HandledOpenConfirm(c, e, s1).conn)
  {
  }

  lemma EstablishedLearns(c: Conn, e: Event, s1: Send)
    requires c.state == Established
    ensures LearnedRightly(c, e, HandledEstablished(c, e, s1).conn)
  {
  }

  /** What is known of the peer changes with an accepted OPEN only, and becomes what that says. */
  lemma LearnsExactly(c: Conn, e: Event, s1: Send, s2: Send)
    ensures LearnedRightly(c, e, HandledEvent(c, e, s1, s2).conn)
  {
    match c.state
    case Connected => ConnectedLearns(c, e, s1, s2);
    case OpenSent => OpenSentLearns(c, e, s1);
    case OpenConfirm => OpenConfirmLearns(c, e, s1);
    case Established => EstablishedLearns(c, e, s1);
    case Terminate =>
  }

  function Smaller(a: nat, b: nat): nat {
    if b < a then b else a
  }

  /** A third of the hold time, jittered. */
  function KeepaliveOf(hold: nat, jitter: real): real {
    (hold as real / 3.0) * jitter
  }

  ghost predicate TimedRightly(c: Conn, e: Event, after: Conn) {
    && after.openDelayTimer == ((c.openDelayTimer || Waits(c, e)) && !Accepts(c, e))
    && if Accepts(c, e) then
         var hold := Smaller(c.config.hold, OpenOf(e).holdTime);
         && after.keepaliveTimer == (if hold > 0 then Some(KeepaliveOf(hold, c.jitter)) else c.keepaliveTimer)
         && after.holdTimer == (if hold > 0 then Some(hold as real) else c.holdTimer)
       else
         && after.keepaliveTimer == c.keepaliveTimer
         && after.holdTimer == if Greets(c, e) && c.config.holdLarge > 0 then Some(c.config.holdLarge as real) else c.holdTimer
  }

  lemma AcceptedTimers(c: Conn, open: Open)
    ensures var hold := Smaller(c.config.hold, open.holdTime);
            && Accepted(c, open).keepaliveTimer == (if hold > 0 then Some(KeepaliveOf(hold, c.jitter)) else c.keepaliveTimer)
            && Accepted(c, open).holdTimer == (if hold > 0 then Some(hold as real) else c.holdTimer)
            && !Accepted(c, open).openDelayTimer
  {
    var hold := Smaller(c.config.hold, open.holdTime);
    var negotiated := Negotiated(Read(c.(openDelayTimer := false), open));
    assert negotiated.holdDuration == hold as real && negotiated.keepaliveDuration == hold as real / 3.0;
    assert Jittered(negotiated.keepaliveDuration, c.jitter) == KeepaliveOf(hold, c.jitter);
  }

  lemma ConnectedTimes(c: Conn, e: Event, s1: Send, s2: Send)
    requires c.state == Connected
    ensures TimedRightly(c, e, HandledConnected(c, e, s1, s2).conn)
  {
    if e.BgpOpenWithDelayOpenTimer? {
      AcceptedTimers(c, e.open);
    }
  }

  lemma OpenSentTimes(c: Conn, e: Event, s1: Send)
    requires c.state == OpenSent
    ensures TimedRightly(c, e, HandledOpenSent(c, e, s1).conn)
  {
    if e.BgpOpen? {
      AcceptedTimers(c, e.open);
    }
  }

  lemma OpenConfirmTimes(c: Conn, e: Event, s1: Send)
    requires c.state == OpenConfirm
    ensures TimedRightly(c, e, HandledOpenConfirm(c, e, s1).conn)
  {
  }

  lemma EstablishedTimes(c: Conn, e: Event, s1: Send)
    requires c.state == Established
    ensures TimedRightly(c, e, HandledEstablished(c, e, s1).conn)
  {
  }

  /**
   * Timers start with an OPEN only: the large hold timer when ours goes out first; with the peer's,
   * the hold timer of the smaller hold time and a keepalive timer of a jittered third of it, unless
   * that is zero. The delay timer runs from the connection to the peer's OPEN.
   */
  lemma TimersExactly(c: Conn, e: Event, s1: Send, s2: Send)
    ensures TimedRightly(c, e, HandledEvent(c, e, s1, s2).conn)
  {
    match c.state
    case Connected => ConnectedTimes(c, e, s1, s2);
    case OpenSent => OpenSentTimes(c, e, s1);
    case OpenConfirm => OpenConfirmTimes(c, e, s1);
    case Established => EstablishedTimes(c, e, s1);
    case Terminate =>
  }

  // Lives

  /** One poll of a connection. Its event may be lost to a collision, in which case it is not handled. */
  datatype LifeStep = LifeStep(stimulus: Stimulus, handled: bool, s1: Send, s2: Send)

  function Lived(c: Conn, step: LifeStep): Conn {
    if step.handled
    then HandledEvent(Polled(c, step.stimulus), PolledEvent(c, step.stimulus), step.s1, step.s2).conn
    else Polled(c, step.stimulus)
  }

  /** The first event of a connection says that it is connected. */
  function Born(kind: Kind, config: Config, expected: Option<nat>, jitter: real, e: Event, send: Send): Conn {
    HandledEvent(NewConn(kind, config, expected, jitter), e, send, send).conn
  }

  ghost function LifeOf(born: Conn, steps: seq<LifeStep>): Conn
    decreases |steps|
  {
    if steps == [] then born else Lived(LifeOf(born, steps[..|steps| - 1]), steps[|steps| - 1])
  }

  datatype Ledger = OpensSent | KeepalivesSent | OpensReceived | KeepalivesReceived

  /** The step counts for the ledger, as the connection finds it. */
  predicate Books(c: Conn, step: LifeStep, ledger: Ledger) {
    var polled, e := Polled(c, step.stimulus), PolledEvent(c, step.stimulus);
    match ledger
    case OpensSent => step.handled && SendsAnOpen(polled, e, step.s1)
    case KeepalivesSent => step.handled && SendsAKeepalive(polled, e, step.s1, step.s2)
    case OpensReceived => step.stimulus.Received? && step.stimulus.message.OpenMessage?
    case KeepalivesReceived => step.stimulus == Received(KeepAlive)
  }

  /** How many steps of a life count for a ledger. */
  ghost function Tally(born: Conn, steps: seq<LifeStep>, ledger: Ledger): nat
    decreases |steps|
  {
    if steps == [] then 0 else
      var init, last := steps[..|steps| - 1], steps[|steps| - 1];
      Tally(born, init, ledger) + if Books(LifeOf(born, init), last, ledger) then 1 else 0
  }

  lemma LivedStats(c: Conn, step: LifeStep)
    ensures var after := Lived(c, step).stats;
            && after.openSent == c.stats.openSent + (if Books(c, step, OpensSent) then 1 else 0)
            && after.keepaliveSent == c.stats.keepaliveSent + (if Books(c, step, KeepalivesSent) then 1 else 0)
            && after.openReceived == c.stats.openReceived + (if Books(c, step, OpensReceived) then 1 else 0)
            && after.keepaliveReceived == c.stats.keepaliveReceived + (if Books(c, step, KeepalivesReceived) then 1 else 0)
  {
    PollChanges(c, step.stimulus);
    if step.handled {
      SendsExactly(Polled(c, step.stimulus), PolledEvent(c, step.stimulus), step.s1, step.s2);
    }
  }

  /**
   * The ledgers balance over every life: the KEEPALIVEs sent are the OPENs accepted and answered plus
   * the expiries of the keepalive timer in OpenConfirm and Established, less what was lost before it
   * was counted; and likewise for the other messages.
   */
  lemma {:induction false} LedgersBalance(born: Conn, steps: seq<LifeStep>)
    ensures LifeOf(born, steps).stats ==
              Stats(born.stats.openSent + Tally(born, steps, OpensSent),
                    born.stats.keepaliveSent + Tally(born, steps, KeepalivesSent),
                    born.stats.openReceived + Tally(born, steps, OpensReceived),
                    born.stats.keepaliveReceived + Tally(born, steps, KeepalivesReceived))
    decreases |steps|
  {
    if steps == [] {
    } else {
      var init, last := steps[..|steps| - 1], steps[|steps| - 1];
      LedgersBalance(born, init);
      LivedStats(LifeOf(born, init), last);
    }
  }

  /** A newborn connection has sent its OPEN or nothing. */
  lemma BornStats(kind: Kind, config: Config, expected: Option<nat>, jitter: real, e: Event, send: Send)
    requires e == TcpConnectionRequestAcked || e == TcpConnectionConfirmed
    ensures Born(kind, config, expected, jitter, e, send).stats
         == Stats(if config.openDelay == 0 && Counted(send) then 1 else 0, 0, 0, 0)
  {
    SendsExactly(NewConn(kind, config, expected, jitter), e, send, send);
  }

  // Lives within a peer

  /** The connection got where it is by some life under the peer's configuration. */
  ghost predicate HasLife(c: Conn, config: Config, expected: Option<nat>) {
    exists born, steps :: IsBirth(born, config, expected) && c == LifeOf(born, steps)
  }

  ghost predicate IsBirth(born: Conn, config: Config, expected: Option<nat>) {
    exists kind, jitter, e, send ::
      (e == TcpConnectionRequestAcked || e == TcpConnectionConfirmed)
      && born == Born(kind, config, expected, jitter, e, send)
  }

  ghost predicate PeerHasLives(p: Peer) {
    && (p.connection.Some? ==> HasLife(p.connection.value, p.config.conn, Expected(p.props)))
    && (p.tracked.Some? ==> HasLife(p.tracked.value, p.config.conn, Expected(p.props)))
  }

  lemma LifeGoesOn(born: Conn, steps: seq<LifeStep>, step: LifeStep)
    ensures LifeOf(born, steps + [step]) == Lived(LifeOf(born, steps), step)
  {
    assert (steps + [step])[..|steps|] == steps;
  }

  lemma LivesOn(c: Conn, config: Config, expected: Option<nat>, step: LifeStep)
    requires HasLife(c, config, expected)
    ensures HasLife(Lived(c, step), config, expected)
  {
    var born, steps :| IsBirth(born, config, expected) && c == LifeOf(born, steps);
    LifeGoesOn(born, steps, step);
  }

  lemma IsBorn(kind: Kind, config: Config, expected: Option<nat>, jitter: real, e: Event, send: Send)
    requires e == TcpConnectionRequestAcked || e == TcpConnectionConfirmed
    ensures HasLife(Born(kind, config, expected, jitter, e, send), config, expected)
  {
    var born := Born(kind, config, expected, jitter, e, send);
    assert IsBirth(born, config, expected) && born == LifeOf(born, []);
  }

  lemma ConcludedLives(p: Peer, before: ConnState, h: Handled, e: Event)
    requires PeerHasLives(p) && HasLife(h.conn, p.config.conn, Expected(p.props))
    ensures Concluded(p, before, h, e).Continues? ==> PeerHasLives(Concluded(p, before, h, e).peer)
  {
  }

  lemma HandledLives(p: Peer, c: Conn, e: Event, s1: Send, s2: Send)
    requires PeerHasLives(p) && HasLife(HandledEvent(c, e, s1, s2).conn, p.config.conn, Expected(p.props))
    ensures EventHandled(p, c, e, s1, s2).Continues? ==> PeerHasLives(EventHandled(p, c, e, s1, s2).peer)
  {
    ConcludedLives(p, c.state, HandledEvent(c, e, s1, s2), e);
  }

  lemma DroppedLives(p: Peer)
    requires PeerHasLives(p)
    ensures MainDropped(p).Continues? ==> PeerHasLives(MainDropped(p).peer)
    ensures PeerHasLives(TrackedDropped(p).peer)
  {
  }

  lemma MainPollLives(p: Peer, i: Input)
    requires i.MainPoll? && Enabled(p, i) && PeerHasLives(p) && MainPolled(p, i).Continues?
    ensures PeerHasLives(MainPolled(p, i).peer)
  {
    var c, config, expected := p.connection.value, p.config.conn, Expected(p.props);
    LivesOn(c, config, expected, LifeStep(i.stimulus, true, i.s1, i.s2));
    LivesOn(c, config, expected, LifeStep(i.stimulus, false, i.s1, i.s2));
    var polled := p.(connection := Some(Polled(c, i.stimulus)));
    DroppedLives(polled);
    if Runs.ReachesEvent(p, i) {
      Runs.EventReached(p, i);
    }
    HandledLives(polled, Polled(c, i.stimulus), PolledEvent(c, i.stimulus), i.s1, i.s2);
  }

  lemma TrackedPollLives(p: Peer, i: Input)
    requires i.TrackedPoll? && Enabled(p, i) && PeerHasLives(p) && TrackedPolled(p, i).Continues?
    ensures PeerHasLives(TrackedPolled(p, i).peer)
  {
    var t := p.tracked.value;
    LivesOn(t, p.config.conn, Expected(p.props), LifeStep(i.stimulus, true, i.s1, i.s2));
    DroppedLives(p.(tracked := Some(Lived(t, LifeStep(i.stimulus, true, i.s1, i.s2)))));
  }

  lemma AddedLives(p: Peer, c: Conn)
    requires PeerHasLives(p) && HasLife(c, p.config.conn, Expected(p.props))
    ensures PeerHasLives(Added(p.(retryTimer := false), c))
  {
  }

  lemma JoinedLives(p: Peer, kind: Kind, jitter: real, e: Event, send: Send)
    requires PeerHasLives(p) && Joined(p, kind, jitter, e, send).Continues?
    requires e == TcpConnectionRequestAcked || e == TcpConnectionConfirmed
    ensures PeerHasLives(Joined(p, kind, jitter, e, send).peer)
  {
    IsBorn(kind, p.config.conn, Expected(p.props), jitter, e, send);
    AddedLives(p, Born(kind, p.config.conn, Expected(p.props), jitter, e, send));
  }

  lemma StepLives(p: Peer, i: Input)
    requires Enabled(p, i) && PeerHasLives(p) && PeerStep(p, i).Continues?
    ensures PeerHasLives(PeerStep(p, i).peer)
  {
    match i
    case Start =>
    case Stop(_) =>
    case Accept(jitter, send) =>
      if !Rejects(p) {
        JoinedLives(p, PassiveKind, jitter, TcpConnectionConfirmed, send);
      }
    case ConnectOk(jitter, send) =>
      JoinedLives(p.(mayConnect := false), ActiveKind, jitter, TcpConnectionRequestAcked, send);
    case ConnectErr =>
    case ConnectAbandoned =>
    case RetryTick =>
    case MainPoll(_, _, _, _) => MainPollLives(p, i);
    case TrackedPoll(_, _, _) => TrackedPollLives(p, i);
  }

  lemma LivesNext(peers: seq<Peer>, inputs: seq<Input>, events: seq<Reported>, t: nat)
    requires Runs.Run(peers, inputs, events) && t < |inputs| && PeerHasLives(peers[t])
    ensures PeerHasLives(peers[t + 1])
  {
    assert Runs.StepAt(peers, inputs, events, t);
    StepLives(peers[t], inputs[t]);
  }

  lemma {:induction false} RunsHaveLives(peers: seq<Peer>, inputs: seq<Input>, events: seq<Reported>, t: nat)
    requires Runs.Run(peers, inputs, events) && t < |peers|
    ensures PeerHasLives(peers[t])
  {
    if t == 0 {
    } else {
      RunsHaveLives(peers, inputs, events, t - 1);
      LivesNext(peers, inputs, events, t - 1);
    }
  }

  lemma LifeBalances(c: Conn, config: Config, expected: Option<nat>) returns (born: Conn, steps: seq<LifeStep>)
    requires HasLife(c, config, expected)
    ensures c == LifeOf(born, steps) && born.stats.openSent <= 1 && born.stats.keepaliveSent == 0
    ensures c.stats.keepaliveSent == Tally(born, steps, KeepalivesSent)
    ensures c.stats.openSent == born.stats.openSent + Tally(born, steps, OpensSent)
    ensures c.stats.openReceived == Tally(born, steps, OpensReceived)
    ensures c.stats.keepaliveReceived == Tally(born, steps, KeepalivesReceived)
  {
    born, steps :| IsBirth(born, config, expected) && c == LifeOf(born, steps);
    var kind, jitter, e, send :|
      (e == TcpConnectionRequestAcked || e == TcpConnectionConfirmed)
      && born == Born(kind, config, expected, jitter, e, send);
    BornStats(kind, config, expected, jitter, e, send);
    LedgersBalance(born, steps);
  }

  /** Over every run of a peer the ledgers of both its connections balance, each over a life of its own. */
  lemma RunsBalance(peers: seq<Peer>, inputs: seq<Input>, events: seq<Reported>, t: nat, c: Conn)
    returns (born: Conn, steps: seq<LifeStep>)
    requires Runs.Run(peers, inputs, events) && t < |peers|
    requires peers[t].connection == Some(c) || peers[t].tracked == Some(c)
    ensures c == LifeOf(born, steps) && born.stats.openSent <= 1 && born.stats.keepaliveSent == 0
    ensures c.stats.keepaliveSent == Tally(born, steps, KeepalivesSent)
    ensures c.stats.openSent == born.stats.openSent + Tally(born, steps, OpensSent)
    ensures c.stats.openReceived == Tally(born, steps, OpensReceived)
    ensures c.stats.keepaliveReceived == Tally(born, steps, KeepalivesReceived)
  {
    RunsHaveLives(peers, inputs, events, t);
    born, steps := LifeBalances(c, peers[t].config.conn, Expected(peers[t].props));
  }
}
