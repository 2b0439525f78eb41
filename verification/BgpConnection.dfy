/** One BGP connection: its event source, its state machine and its timers (section 8 of RFC 4271). */
module BgpConnection {
  import opened Addresses

  datatype ConnState = Connected | OpenSent | OpenConfirm | Established | Terminate
  datatype Kind = ActiveKind | PassiveKind

  /** Durations are in seconds. */
  datatype Config = Config(openDelay: nat, hold: nat, holdLarge: nat, keepalive: nat)

  datatype Open = Open(asn: nat, bgpId: nat, holdTime: nat)

  datatype Event =
    | HoldTimerExpires | KeepAliveTimerExpires | DelayOpenTimerExpires
    | TcpConnectionRequestAcked | TcpConnectionConfirmed | TcpConnectionFails
    | BgpOpen(open: Open) | BgpOpenWithDelayOpenTimer(open: Open)
    | BgpHeaderErr | BgpOpenMsgErr | NotifMsgVerErr | NotifMsg | NotifMsgErr
    | KeepAliveMsg | UpdateMsg(update: nat, normal: bool) | UpdateMsgErr | RouteRefresh | RouteRefreshErr

  datatype Stats = Stats(openSent: nat, keepaliveSent: nat, openReceived: nat, keepaliveReceived: nat)

  /** A running timer is given by its period. */
  datatype Conn = Conn(
    state: ConnState, kind: Kind, config: Config, jitter: real,
    peerAsn: Option<nat>, peerBgpId: Option<nat>, peerHoldTime: Option<nat>,
    keepaliveTimer: Option<real>, keepaliveDuration: real, openDelayTimer: bool,
    holdTimer: Option<real>, holdDuration: real, stats: Stats)

  function NewConn(kind: Kind, config: Config, peerAsn: Option<nat>, jitter: real): Conn {
    Conn(Connected, kind, config, jitter, peerAsn, None, None, None, config.keepalive as real, false,
         None, config.hold as real, Stats(0, 0, 0, 0))
  }

  // The event source

  datatype UpdateBody = Malformed | Treated(update: nat, normal: bool)
  datatype Message = OpenMessage(open: Open) | Update(body: UpdateBody) | Notification(version: bool) | KeepAlive | Refresh
  datatype DecodeError = IoError | HeaderError | OpenError | UpdateError | NotificationError | RefreshError

  /** What a poll can find: a timer that fired, the end of the stream, or something on the wire. */
  datatype Stimulus = KeepaliveTick | DelayTick | HoldTick | Closed | Garbled(error: DecodeError) | Received(message: Message)

  predicate CanPoll(c: Conn, stimulus: Stimulus) {
    match stimulus
    case KeepaliveTick => c.keepaliveTimer.Some?
    case DelayTick => c.openDelayTimer
    case HoldTick => c.holdTimer.Some?
    case _ => true
  }

  function FromDecodeError(error: DecodeError): Event {
    match error
    case IoError => TcpConnectionFails
    case HeaderError => BgpHeaderErr
    case OpenError => BgpOpenMsgErr
    case UpdateError => UpdateMsgErr
    case NotificationError => NotifMsgErr
    case RefreshError => RouteRefreshErr
  }

  /** An OPEN from the wrong AS is an error; otherwise the event depends on the delay timer. */
  function HandleOpenMessage(open: Open, peerAsn: Option<nat>, delayed: bool): Event {
    if peerAsn.Some? && peerAsn.value != open.asn then BgpOpenMsgErr
    else if delayed then BgpOpenWithDelayOpenTimer(open)
    else BgpOpen(open)
  }

  function PolledEvent(c: Conn, stimulus: Stimulus): Event {
    match stimulus
    case KeepaliveTick => KeepAliveTimerExpires
    case DelayTick => DelayOpenTimerExpires
    case HoldTick => HoldTimerExpires
    case Closed => TcpConnectionFails
    case Garbled(error) => FromDecodeError(error)
    case Received(OpenMessage(open)) => HandleOpenMessage(open, c.peerAsn, c.openDelayTimer)
    case Received(Update(Malformed)) => UpdateMsgErr
    case Received(Update(Treated(update, normal))) => UpdateMsg(update, normal)
    case Received(Notification(version)) => if version then NotifMsgVerErr else NotifMsg
    case Received(KeepAlive) => KeepAliveMsg
    case Received(Refresh) => RouteRefresh
  }

  /** Polling takes the delay timer when it fires, counts messages and notes the identifier of every OPEN. */
  function Polled(c: Conn, stimulus: Stimulus): Conn {
    match stimulus
    case DelayTick => c.(openDelayTimer := false)
    case Received(OpenMessage(open)) =>
      c.(peerBgpId := Some(open.bgpId), stats := c.stats.(openReceived := c.stats.openReceived + 1))
    case Received(KeepAlive) => c.(stats := c.stats.(keepaliveReceived := c.stats.keepaliveReceived + 1))
    case _ => c
  }

  // Timers

  function StartedHold(c: Conn): Conn {
    if c.config.holdLarge == 0 then c
    else c.(holdDuration := c.config.holdLarge as real, holdTimer := Some(c.config.holdLarge as real))
  }

  function Read(c: Conn, open: Open): Conn {
    c.(peerAsn := Some(open.asn), peerBgpId := Some(open.bgpId), peerHoldTime := Some(open.holdTime))
  }

  function Min(a: nat, b: nat): nat {
    if a <= b then a else b
  }

  function NegotiatedHold(c: Conn): real {
    if c.config.hold == 0 then 0.0
    else match c.peerHoldTime
      case Some(received) => Min(c.config.hold, received) as real
      case None => c.config.holdLarge as real
  }

  function Negotiated(c: Conn): Conn {
    c.(holdDuration := NegotiatedHold(c), keepaliveDuration := NegotiatedHold(c) / 3.0)
  }

  function Jittered(duration: real, jitter: real): real {
    duration * jitter
  }

  /** A duration of zero starts no timer, and stops none either. */
  function StartedTimers(c: Conn): Conn {
    c.(keepaliveTimer := if c.keepaliveDuration != 0.0 then Some(Jittered(c.keepaliveDuration, c.jitter)) else c.keepaliveTimer,
       holdTimer := if c.holdDuration != 0.0 then Some(c.holdDuration) else c.holdTimer)
  }

  function Accepted(c: Conn, open: Open): Conn {
    StartedTimers(Negotiated(Read(c.(openDelayTimer := false), open)))
  }

  // The state machine

  /** How a send ends. A failed one may or may not have been counted as sent. */
  datatype Send = Delivered | LostCounted | LostUncounted

  function SentOpen(c: Conn, s: Send): Conn {
    if s == LostUncounted then c else c.(stats := c.stats.(openSent := c.stats.openSent + 1))
  }

  function SentKeepalive(c: Conn, s: Send): Conn {
    if s == LostUncounted then c else c.(stats := c.stats.(keepaliveSent := c.stats.keepaliveSent + 1))
  }

  datatype Handled = Handled(conn: Conn, ok: bool)

  /** A send whose failure is reported: on success the connection moves on. */
  function Moves(c: Conn, s: Send, state: ConnState): Handled {
    if s == Delivered then Handled(c.(state := state), true) else Handled(c, false)
  }

  function Ends(c: Conn): Handled {
    Handled(c.(state := Terminate), true)
  }

  function Stays(c: Conn): Handled {
    Handled(c, true)
  }

  function SendsOpen(c: Conn, s: Send): Handled {
    Moves(SentOpen(StartedHold(c), s), s, OpenSent)
  }

  function HandledConnected(c: Conn, e: Event, s1: Send, s2: Send): Handled {
    match e
    case DelayOpenTimerExpires => SendsOpen(c, s1)
    case TcpConnectionRequestAcked | TcpConnectionConfirmed =>
      if c.config.openDelay == 0 then SendsOpen(c, s1) else Stays(c.(openDelayTimer := true))
    case BgpOpenWithDelayOpenTimer(open) =>
      var answered := SentOpen(Accepted(c, open), s1);
      if s1 != Delivered then Handled(answered, false)
      else Moves(SentKeepalive(answered, s2), s2, OpenConfirm)
    case NotifMsgErr => Stays(c)
    case _ => Ends(c)
  }

  function HandledOpenSent(c: Conn, e: Event, s1: Send): Handled {
    match e
    case HoldTimerExpires => Moves(c, s1, Terminate)
    case BgpOpen(open) => Moves(SentKeepalive(Accepted(c, open), s1), s1, OpenConfirm)
    case NotifMsgErr => Stays(c)
    case _ => Ends(c)
  }

  function HandledOpenConfirm(c: Conn, e: Event, s1: Send): Handled {
    match e
    case HoldTimerExpires => Moves(c.(state := Terminate), s1, Terminate)
    case KeepAliveTimerExpires => Moves(SentKeepalive(c, s1), s1, OpenConfirm)
    case KeepAliveMsg => Handled(c.(state := Established), true)
    case NotifMsgErr => Stays(c)
    case _ => Ends(c)
  }

  function HandledEstablished(c: Conn, e: Event, s1: Send): Handled {
    match e
    case KeepAliveTimerExpires => Moves(SentKeepalive(c, s1), s1, Established)
    case KeepAliveMsg | UpdateMsg(_, _) | RouteRefresh | NotifMsgErr => Stays(c)
    case _ => Ends(c)
  }

  function HandledEvent(c: Conn, e: Event, s1: Send, s2: Send): Handled {
    match c.state
    case Connected => HandledConnected(c, e, s1, s2)
    case OpenSent => HandledOpenSent(c, e, s1)
    case OpenConfirm => HandledOpenConfirm(c, e, s1)
    case Established => HandledEstablished(c, e, s1)
    case Terminate => Stays(c)
  }

  class Connection {
    const kind: Kind
    const config: Config
    const jitter: real
    var state: ConnState
    var peerAsn: Option<nat>
    var peerBgpId: Option<nat>
    var peerHoldTime: Option<nat>
    var keepaliveTimer: Option<real>
    var keepaliveDuration: real
    var openDelayTimer: bool
    var holdTimer: Option<real>
    var holdDuration: real
    var stats: Stats

    constructor (kind: Kind, config: Config, peerAsn: Option<nat>, jitter: real)
      ensures View() == NewConn(kind, config, peerAsn, jitter)
    {
      this.kind, this.config, this.peerAsn, this.jitter := kind, config, peerAsn, jitter;
      state, peerBgpId, peerHoldTime := Connected, None, None;
      keepaliveTimer, keepaliveDuration, openDelayTimer := None, config.keepalive as real, false;
      holdTimer, holdDuration, stats := None, config.hold as real, Stats(0, 0, 0, 0);
    }

    ghost function View(): Conn
      reads this
    {
      Conn(state, kind, config, jitter, peerAsn, peerBgpId, peerHoldTime, keepaliveTimer, keepaliveDuration,
           openDelayTimer, holdTimer, holdDuration, stats)
    }

    method Poll(stimulus: Stimulus) returns (e: Event)
      requires CanPoll(View(), stimulus)
      modifies this
      ensures View() == Polled(old(View()), stimulus) && e == PolledEvent(old(View()), stimulus)
    {
      match stimulus
      case KeepaliveTick => e := KeepAliveTimerExpires;
      case DelayTick =>
        openDelayTimer := false;
        e := DelayOpenTimerExpires;
      case HoldTick => e := HoldTimerExpires;
      case Closed => e := TcpConnectionFails;
      case Garbled(error) => e := FromDecodeError(error);
      case Received(OpenMessage(open)) =>
        stats := stats.(openReceived := stats.openReceived + 1);
        e := HandleOpenMessage(open, peerAsn, openDelayTimer);
        peerBgpId := Some(open.bgpId);
      case Received(Update(Malformed)) => e := UpdateMsgErr;
      case Received(Update(Treated(update, normal))) => e := UpdateMsg(update, normal);
      case Received(Notification(version)) => e := if version then NotifMsgVerErr else NotifMsg;
      case Received(KeepAlive) =>
        stats := stats.(keepaliveReceived := stats.keepaliveReceived + 1);
        e := KeepAliveMsg;
      case Received(Refresh) => e := RouteRefresh;
    }

    method ReadOpen(open: Open)
      modifies this
      ensures View() == Read(old(View()), open)
    {
      peerAsn := Some(open.asn);
      peerBgpId := Some(open.bgpId);
      peerHoldTime := Some(open.holdTime);
    }

    method SetNegotiatedTimers()
      modifies this
      ensures View() == Negotiated(old(View()))
    {
      if config.hold == 0 {
        holdDuration := 0.0;
        keepaliveDuration := 0.0;
        return;
      }
      match peerHoldTime {
        case Some(received) => holdDuration := Min(config.hold, received) as real;
        case None => holdDuration := config.holdLarge as real;
      }
      keepaliveDuration := holdDuration / 3.0;
    }

    method StartHoldTimer()
      modifies this
      ensures View() == StartedHold(old(View()))
    {
      if config.holdLarge != 0 {
        holdDuration := config.holdLarge as real;
        holdTimer := Some(holdDuration);
      }
    }

    method AcceptOpen(open: Open)
      modifies this
      ensures View() == Accepted(old(View()), open)
    {
      openDelayTimer := false;
      ReadOpen(open);
      SetNegotiatedTimers();
      ghost var c := View();
      assert c == Negotiated(Read(old(View()).(openDelayTimer := false), open));
      if keepaliveDuration != 0.0 {
        keepaliveTimer := Some(Jittered(keepaliveDuration, jitter));
      }
      if holdDuration != 0.0 {
        holdTimer := Some(holdDuration);
      }
      assert View() == StartedTimers(c);
    }

    method SendOpen(s: Send) returns (ok: bool)
      modifies this
      ensures ok <==> s == Delivered
      ensures View() == SentOpen(old(View()), s)
    {
      ok := s == Delivered;
      if s != LostUncounted {
        stats := stats.(openSent := stats.openSent + 1);
      }
    }

    method SendKeepalive(s: Send) returns (ok: bool)
      modifies this
      ensures ok <==> s == Delivered
      ensures View() == SentKeepalive(old(View()), s)
    {
      ok := s == Delivered;
      if s != LostUncounted {
        stats := stats.(keepaliveSent := stats.keepaliveSent + 1);
      }
    }

    method OpenSession(s: Send) returns (ok: bool)
      modifies this
      ensures Handled(View(), ok) == SendsOpen(old(View()), s)
    {
      StartHoldTimer();
      ok := SendOpen(s);
      if ok {
        state := OpenSent;
      }
    }

    method HandleConnected(e: Event, s1: Send, s2: Send) returns (ok: bool)
      requires state == Connected
      modifies this
      ensures Handled(View(), ok) == HandledEvent(old(View()), e, s1, s2)
    {
      ok := true;
      match e
      case DelayOpenTimerExpires => ok := OpenSession(s1);
      case TcpConnectionRequestAcked | TcpConnectionConfirmed =>
        if config.openDelay == 0 {
          ok := OpenSession(s1);
        } else {
          openDelayTimer := true;
        }
      case BgpOpenWithDelayOpenTimer(open) =>
        AcceptOpen(open);
        ok := SendOpen(s1);
        if ok {
          ok := SendKeepalive(s2);
          if ok {
            state := OpenConfirm;
          }
        }
      case NotifMsgErr =>
      case _ => state := Terminate;
    }

    method HandleOpenSent(e: Event, s1: Send, ghost s2: Send) returns (ok: bool)
      requires state == OpenSent
      modifies this
      ensures Handled(View(), ok) == HandledEvent(old(View()), e, s1, s2)
    {
      ok := true;
      match e
      case HoldTimerExpires =>
        ok := s1 == Delivered;
        if ok {
          state := Terminate;
        }
      case BgpOpen(open) =>
        AcceptOpen(open);
        ok := SendKeepalive(s1);
        if ok {
          state := OpenConfirm;
        }
      case NotifMsgErr =>
      case _ => state := Terminate;
    }

    method HandleOpenConfirm(e: Event, s1: Send, ghost s2: Send) returns (ok: bool)
      requires state == OpenConfirm
      modifies this
      ensures Handled(View(), ok) == HandledEvent(old(View()), e, s1, s2)
    {
      ok := true;
      match e
      case HoldTimerExpires =>
        state := Terminate;
        ok := s1 == Delivered;
      case KeepAliveTimerExpires => ok := SendKeepalive(s1);
      case KeepAliveMsg => state := Established;
      case NotifMsgErr =>
      case _ => state := Terminate;
    }

    method HandleEstablished(e: Event, s1: Send, ghost s2: Send) returns (ok: bool)
      requires state == Established
      modifies this
      ensures Handled(View(), ok) == HandledEvent(old(View()), e, s1, s2)
    {
      ok := true;
      match e
      case KeepAliveTimerExpires => ok := SendKeepalive(s1);
      case KeepAliveMsg | UpdateMsg(_, _) | RouteRefresh | NotifMsgErr =>
      case _ => state := Terminate;
    }

    method HandleEvent(e: Event, s1: Send, s2: Send) returns (ok: bool)
      modifies this
      ensures Handled(View(), ok) == HandledEvent(old(View()), e, s1, s2)
    {
      match state
      case Connected => ok := HandleConnected(e, s1, s2);
      case OpenSent => ok := HandleOpenSent(e, s1, s2);
      case OpenConfirm => ok := HandleOpenConfirm(e, s1, s2);
      case Established => ok := HandleEstablished(e, s1, s2);
      case Terminate => ok := true;
    }
  }
}
