/** A BGP peer: a main connection, a tracked second one, and the state machine around them. */
module BgpPeer {
  import opened Addresses
  import opened BgpConnection

  datatype Fsm = Idle | Connect | Active | FsmOpenSent | FsmOpenConfirm | FsmEstablished

  datatype Props = Props(peerAsn: nat, myBgpId: nat, dynamicAs: bool)
  datatype PeerConfig = PeerConfig(passive: bool, collideInEstablished: bool, conn: Config)

  datatype Peer = Peer(props: Props, config: PeerConfig, adminUp: bool, fsm: Fsm,
                       connection: Option<Conn>, tracked: Option<Conn>,
                       retryTimer: bool, retryCounter: nat, mayConnect: bool)

  /** The AS a peer must open with, unless it may be any. */
  function Expected(props: Props): Option<nat> {
    if props.dynamicAs then None else Some(props.peerAsn)
  }

  /** One thing that can happen to a peer, with what the network answers and the jitter drawn. */
  datatype Input =
    | Start
    | Stop(manual: bool)
    | Accept(jitter: real, send: Send)
    | ConnectOk(jitter: real, send: Send)
    | ConnectErr
    | ConnectAbandoned
    | RetryTick
    | MainPoll(stimulus: Stimulus, inSight: bool, s1: Send, s2: Send)
    | TrackedPoll(stimulus: Stimulus, s1: Send, s2: Send)

  datatype Reported =
    | Ignored | Started | Stopped | Rejected | ConnectFailed | RetryTimerExpires | CollisionDump | NothingYet
    | OfConnection(event: Event)

  /** A run goes on until the first error. */
  datatype Outcome = Continues(peer: Peer, event: Reported) | Fails(invalidTransition: bool)

  // Starting and stopping

  function AfterStart(p: Peer): Peer {
    p.(adminUp := true, retryCounter := 0, retryTimer := true,
       fsm := if p.config.passive then Active else Connect,
       mayConnect := p.mayConnect || !p.config.passive)
  }

  function ShutDown(p: Peer, manual: bool): Peer {
    p.(retryTimer := false, adminUp := false, fsm := Idle, connection := None, tracked := None,
       retryCounter := if manual then 0 else p.retryCounter + 1)
  }

  // Connections

  function FsmOf(s: ConnState, otherwise: Fsm): Fsm {
    match s
    case OpenSent => FsmOpenSent
    case OpenConfirm => FsmOpenConfirm
    case Established => FsmEstablished
    case Connected | Terminate => otherwise
  }

  /** A second connection is tracked; a first one decides the state. */
  function Added(p: Peer, c: Conn): Peer {
    if p.connection.Some? then p.(tracked := Some(c))
    else p.(fsm := FsmOf(c.state, p.fsm), connection := Some(c))
  }

  predicate Rejects(p: Peer) {
    || !p.adminUp
    || (p.connection.Some? && p.tracked.Some?)
    || (p.fsm == FsmEstablished && !p.config.collideInEstablished)
  }

  /** What a new connection has come to once it is told it is connected decides whether the peer takes it. */
  function Adopted(p: Peer, h: Handled, e: Event): Outcome {
    if h.ok then Continues(Added(p.(retryTimer := false), h.conn), OfConnection(e)) else Fails(false)
  }

  function Joined(p: Peer, kind: Kind, jitter: real, e: Event, send: Send): Outcome {
    Adopted(p, HandledEvent(NewConn(kind, p.config.conn, Expected(p.props), jitter), e, send, send), e)
  }

  // Collisions

  datatype Collision = DropMain | DropTracked | BadTrackedId | NoCollision

  /** The connection with the lower identifier gives way; creation times are never set, so they never decide. */
  function CollisionOf(myBgpId: nat, main: Option<Conn>, tracked: Option<Conn>): Collision {
    if main.Some? && main.value.peerBgpId.Some? && tracked.Some? && tracked.value.peerBgpId.Some? then
      var id := main.value.peerBgpId.value;
      if tracked.value.peerBgpId.value != id then BadTrackedId
      else if myBgpId < id then DropMain
      else DropTracked
    else NoCollision
  }

  function MainDropped(p: Peer): Outcome {
    match p.tracked
    case None => Continues(p, CollisionDump)
    case Some(t) =>
      if t.state == Connected || t.state == Terminate then Fails(true)
      else Continues(p.(tracked := None, retryCounter := p.retryCounter + 1, fsm := FsmOf(t.state, p.fsm),
                        connection := Some(t)), CollisionDump)
  }

  function TrackedDropped(p: Peer): Outcome {
    Continues(p.(tracked := None), CollisionDump)
  }

  // Events of the main connection

  datatype Retry = Keep | Clear | Arm

  /** What the peer makes of a transition of its connection. */
  datatype Effect = Invalid | Effect(retry: Retry, counted: bool, dropped: bool, fsm: Fsm)

  function Failure(counted: bool): Effect {
    Effect(Clear, counted, true, Idle)
  }

  function FromConnected(fsm: Fsm, after: ConnState, e: Event, delayed: bool): Effect {
    match after
    case Connected =>
      (match e
       case TcpConnectionRequestAcked | TcpConnectionConfirmed =>
         if delayed then Effect(Clear, false, false, fsm) else Invalid
       case NotifMsgErr => Effect(Keep, false, false, fsm)
       case _ => Invalid)
    case OpenSent =>
      (match e
       case TcpConnectionRequestAcked | TcpConnectionConfirmed => Effect(Clear, false, false, FsmOpenSent)
       case DelayOpenTimerExpires => Effect(Keep, false, false, FsmOpenSent)
       case _ => Invalid)
    case OpenConfirm =>
      (match e
       case BgpOpen(_) | BgpOpenWithDelayOpenTimer(_) => Effect(Clear, false, false, FsmOpenConfirm)
       case _ => Invalid)
    case Established => Invalid
    case Terminate =>
      match e
      case TcpConnectionFails =>
        if fsm == Connect && delayed then Effect(Arm, false, true, Active) else Failure(fsm == Active)
      case NotifMsgVerErr => Failure(!delayed)
      case BgpHeaderErr | BgpOpenMsgErr | HoldTimerExpires | KeepAliveTimerExpires | BgpOpen(_) | NotifMsg | KeepAliveMsg
         | UpdateMsg(_, _) | UpdateMsgErr | RouteRefresh | RouteRefreshErr => Failure(true)
      case _ => Invalid
  }

  function FromOpenSent(fsm: Fsm, after: ConnState, e: Event): Effect {
    match after
    case OpenSent => if e.NotifMsgErr? then Effect(Keep, false, false, fsm) else Invalid
    case OpenConfirm => if e.BgpOpen? then Effect(Clear, false, false, FsmOpenConfirm) else Invalid
    case Terminate =>
      (match e
       case TcpConnectionFails => Effect(Arm, false, true, Active)
       case NotifMsgVerErr => Failure(false)
       case HoldTimerExpires | BgpHeaderErr | BgpOpenMsgErr | KeepAliveTimerExpires | DelayOpenTimerExpires
          | BgpOpenWithDelayOpenTimer(_) | KeepAliveMsg | NotifMsg | UpdateMsg(_, _) | UpdateMsgErr
          | RouteRefresh | RouteRefreshErr => Failure(true)
       case _ => Invalid)
    case Connected | Established => Invalid
  }

  function FromOpenConfirm(fsm: Fsm, after: ConnState, e: Event): Effect {
    match after
    case OpenConfirm => if e.KeepAliveTimerExpires? || e.NotifMsgErr? then Effect(Keep, false, false, fsm) else Invalid
    case Established => if e.KeepAliveMsg? then Effect(Keep, false, false, FsmEstablished) else Invalid
    case Terminate =>
      (match e
       case NotifMsgVerErr => Failure(false)
       case HoldTimerExpires | TcpConnectionFails | BgpOpen(_) | BgpOpenMsgErr | BgpHeaderErr | DelayOpenTimerExpires
          | BgpOpenWithDelayOpenTimer(_) | NotifMsg | UpdateMsg(_, _) | UpdateMsgErr
          | RouteRefresh | RouteRefreshErr => Failure(true)
       case _ => Invalid)
    case Connected | OpenSent => Invalid
  }

  function FromEstablished(fsm: Fsm, after: ConnState, e: Event): Effect {
    match after
    case Established =>
      (match e
       case KeepAliveTimerExpires | KeepAliveMsg | UpdateMsg(_, _) | RouteRefresh | NotifMsgErr =>
         Effect(Keep, false, false, fsm)
       case NotifMsg | NotifMsgVerErr => Failure(true)
       case _ => Invalid)
    case Terminate =>
      (match e
       case HoldTimerExpires | DelayOpenTimerExpires | TcpConnectionFails | BgpOpen(_) | BgpOpenWithDelayOpenTimer(_)
          | BgpHeaderErr | BgpOpenMsgErr | UpdateMsgErr | RouteRefreshErr | NotifMsg | NotifMsgVerErr => Failure(true)
       case _ => Invalid)
    case Connected | OpenSent | OpenConfirm => Invalid
  }

  function EffectOf(fsm: Fsm, before: ConnState, after: ConnState, e: Event, delayed: bool): Effect {
    match before
    case Connected => FromConnected(fsm, after, e, delayed)
    case OpenSent => FromOpenSent(fsm, after, e)
    case OpenConfirm => FromOpenConfirm(fsm, after, e)
    case Established => FromEstablished(fsm, after, e)
    case Terminate => Invalid
  }

  function Applied(p: Peer, c: Conn, effect: Effect): Peer
    requires effect.Effect?
  {
    p.(connection := if effect.dropped then None else Some(c), fsm := effect.fsm,
       retryTimer := match effect.retry { case Keep => p.retryTimer case Clear => false case Arm => true },
       retryCounter := if effect.counted then p.retryCounter + 1 else p.retryCounter)
  }

  /** What follows once the connection has handled an event it found in state `before`. */
  function Concluded(p: Peer, before: ConnState, h: Handled, e: Event): Outcome {
    if !h.ok then Fails(false)
    else
      var effect := EffectOf(p.fsm, before, h.conn.state, e, h.conn.openDelayTimer);
      if effect.Invalid? then Fails(true) else Continues(Applied(p, h.conn, effect), OfConnection(e))
  }

  function EventHandled(p: Peer, c: Conn, e: Event, s1: Send, s2: Send): Outcome {
    Concluded(p, c.state, HandledEvent(c, e, s1, s2), e)
  }

  // Steps

  predicate Enabled(p: Peer, i: Input) {
    match i
    case Start | Stop(_) => true
    case Accept(jitter, _) => 0.75 <= jitter <= 1.0
    case ConnectOk(jitter, _) => p.fsm == Connect && p.mayConnect && 0.75 <= jitter <= 1.0
    case ConnectErr | ConnectAbandoned => p.fsm == Connect && p.mayConnect
    case RetryTick => p.retryTimer
    case MainPoll(stimulus, _, _, _) => p.connection.Some? && CanPoll(p.connection.value, stimulus)
    case TrackedPoll(stimulus, _, _) =>
      p.tracked.Some? && p.fsm != Connect && p.tracked.value.state != OpenConfirm && CanPoll(p.tracked.value, stimulus)
  }

  /**
   * An event of the main connection first resolves a collision, and is then lost; a tracked
   * connection with another identifier is only put out of sight until the next event.
   */
  function MainPolled(p: Peer, i: Input): Outcome
    requires i.MainPoll? && p.connection.Some?
  {
    var c := Polled(p.connection.value, i.stimulus);
    var e := PolledEvent(p.connection.value, i.stimulus);
    var polled := p.(connection := Some(c));
    if !i.inSight then EventHandled(polled, c, e, i.s1, i.s2)
    else match CollisionOf(p.props.myBgpId, Some(c), p.tracked)
      case DropMain => MainDropped(polled)
      case DropTracked => TrackedDropped(polled)
      case BadTrackedId => Continues(polled, NothingYet)
      case NoCollision => EventHandled(polled, c, e, i.s1, i.s2)
  }

  /** Events of a tracked connection stay with it, failures included. */
  function TrackedPolled(p: Peer, i: Input): Outcome
    requires i.TrackedPoll? && p.tracked.Some?
  {
    var t := Polled(p.tracked.value, i.stimulus);
    var h := HandledEvent(t, PolledEvent(p.tracked.value, i.stimulus), i.s1, i.s2);
    var polled := p.(tracked := Some(h.conn));
    match CollisionOf(p.props.myBgpId, p.connection, Some(h.conn))
    case DropMain => MainDropped(polled)
    case DropTracked => TrackedDropped(polled)
    case BadTrackedId | NoCollision => Continues(polled, NothingYet)
  }

  function PeerStep(p: Peer, i: Input): Outcome
    requires Enabled(p, i)
  {
    match i
    case Start => if p.fsm == Idle then Continues(AfterStart(p), Started) else Continues(p, Ignored)
    case Stop(manual) => Continues(ShutDown(p, manual), Stopped)
    case Accept(jitter, send) =>
      if Rejects(p) then Continues(p, Rejected) else Joined(p, PassiveKind, jitter, TcpConnectionConfirmed, send)
    case ConnectOk(jitter, send) =>
      Joined(p.(mayConnect := false), ActiveKind, jitter, TcpConnectionRequestAcked, send)
    case ConnectErr => Continues(p.(mayConnect := false, retryTimer := false), ConnectFailed)
    case ConnectAbandoned => Continues(p.(mayConnect := false), NothingYet)
    case RetryTick =>
      var fsm := if p.fsm == Active then Connect else p.fsm;
      Continues(p.(fsm := fsm, mayConnect := fsm == Connect, connection := None), RetryTimerExpires)
    case MainPoll(_, _, _, _) => MainPolled(p, i)
    case TrackedPoll(_, _, _) => TrackedPolled(p, i)
  }

  // The implementation

  class PeerMachine {
    const props: Props
    const config: PeerConfig
    var adminUp: bool
    var fsm: Fsm
    var connection: Connection?
    var tracked: Connection?
    var retryTimer: bool
    var retryCounter: nat
    var mayConnect: bool

    constructor (props: Props, config: PeerConfig)
      ensures Valid() && View() == NewPeer(props, config)
    {
      this.props, this.config, adminUp, fsm := props, config, false, Idle;
      connection, tracked, retryTimer, retryCounter, mayConnect := null, null, false, 0, false;
    }

    /** The two connections are different objects. */
    ghost predicate Valid()
      reads this
    {
      connection != null ==> connection != tracked
    }

    ghost function ViewOf(c: Connection?): Option<Conn>
      reads c
    {
      if c == null then None else Some(c.View())
    }

    ghost function View(): Peer
      reads this, connection, tracked
    {
      Peer(props, config, adminUp, fsm, ViewOf(connection), ViewOf(tracked), retryTimer, retryCounter, mayConnect)
    }

    method HandleStart() returns (event: Reported)
      requires Valid()
      modifies this
      ensures Valid() && Continues(View(), event) == PeerStep(old(View()), Start)
    {
      if fsm != Idle {
        return Ignored;
      }
      adminUp := true;
      retryCounter := 0;
      if config.passive {
        fsm := Active;
      } else {
        fsm := Connect;
        mayConnect := true;
      }
      retryTimer := true;
      return Started;
    }

    method HandleStop(manual: bool) returns (event: Reported)
      requires Valid()
      modifies this
      ensures Valid() && Continues(View(), event) == PeerStep(old(View()), Stop(manual))
    {
      retryTimer := false;
      adminUp := false;
      fsm := Idle;
      connection := null;
      tracked := null;
      retryCounter := if manual then 0 else retryCounter + 1;
      return Stopped;
    }

    method AddConnection(c: Connection)
      requires Valid() && c != connection && c != tracked
      modifies this
      ensures Valid() && View() == Added(old(View()), c.View())
      ensures c == connection || c == tracked
    {
      if connection != null {
        tracked := c;
      } else {
        fsm := FsmOf(c.state, fsm);
        connection := c;
      }
    }

    /** A new connection that is told it is connected. */
    method Open(kind: Kind, jitter: real, e: Event, send: Send) returns (c: Connection, ok: bool)
      ensures fresh(c)
      ensures Handled(c.View(), ok) == HandledEvent(NewConn(kind, config.conn, Expected(props), jitter), e, send, send)
    {
      c := new Connection(kind, config.conn, Expected(props), jitter);
      ok := c.HandleEvent(e, send, send);
    }

    method Adopt(c: Connection, ok: bool, ghost e: Event)
      requires Valid() && c != connection && c != tracked
      modifies this
      ensures Valid()
      ensures (if ok then Continues(View(), OfConnection(e)) else Fails(false)) == Adopted(old(View()), Handled(c.View(), ok), e)
    {
      retryTimer := false;
      if ok {
        AddConnection(c);
      }
    }

    /** A stream was accepted or connected. */
    method Join(kind: Kind, jitter: real, e: Event, send: Send) returns (ok: bool)
      requires Valid()
      modifies this
      ensures Valid()
      ensures (if ok then Continues(View(), OfConnection(e)) else Fails(false)) == Joined(old(View()), kind, jitter, e, send)
    {
      var c;
      c, ok := Open(kind, jitter, e, send);
      assert View() == old(View());
      Adopt(c, ok, e);
    }

    method HandleAccept(jitter: real, send: Send) returns (ok: bool, event: Reported)
      requires Valid() && 0.75 <= jitter <= 1.0
      modifies this
      ensures Valid()
      ensures (if ok then Continues(View(), event) else Fails(false)) == PeerStep(old(View()), Accept(jitter, send))
    {
      if !adminUp || (connection != null && tracked != null) || (fsm == FsmEstablished && !config.collideInEstablished) {
        return true, Rejected;
      }
      ok := Join(PassiveKind, jitter, TcpConnectionConfirmed, send);
      event := OfConnection(TcpConnectionConfirmed);
    }

    method HandleRetry() returns (event: Reported)
      requires Valid() && retryTimer
      modifies this
      ensures Valid() && Continues(View(), event) == PeerStep(old(View()), RetryTick)
    {
      if fsm == Active {
        fsm := Connect;
      }
      mayConnect := fsm == Connect;
      connection := null;
      return RetryTimerExpires;
    }

    /** Promotes the tracked connection, unless it is not far enough or already over. */
    method DropMainConnection() returns (ok: bool)
      requires Valid()
      modifies this
      ensures Valid() && (if ok then Continues(View(), CollisionDump) else Fails(true)) == MainDropped(old(View()))
    {
      if tracked == null {
        return true;
      }
      var t := tracked;
      tracked := null;
      retryCounter := retryCounter + 1;
      if t.state == Connected || t.state == Terminate {
        return false;
      }
      fsm := FsmOf(t.state, fsm);
      connection := t;
      return true;
    }

    method Apply(effect: Effect)
      requires Valid() && connection != null && effect.Effect?
      modifies this
      ensures Valid() && View() == Applied(old(View()), old(connection.View()), effect)
    {
      if effect.retry != Keep {
        retryTimer := effect.retry == Arm;
      }
      if effect.counted {
        retryCounter := retryCounter + 1;
      }
      if effect.dropped {
        connection := null;
      }
      fsm := effect.fsm;
    }

    method Conclude(before: ConnState, ok: bool, e: Event) returns (goesOn: bool, invalid: bool)
      requires Valid() && connection != null
      modifies this
      ensures Valid()
      ensures (if goesOn then Continues(View(), OfConnection(e)) else Fails(invalid))
              == Concluded(old(View()), before, Handled(old(connection.View()), ok), e)
    {
      if !ok {
        return false, false;
      }
      var effect := EffectOf(fsm, before, connection.state, e, connection.openDelayTimer);
      if effect.Invalid? {
        return false, true;
      }
      Apply(effect);
      return true, false;
    }

    method HandleConnectionEvent(e: Event, s1: Send, s2: Send) returns (goesOn: bool, invalid: bool)
      requires Valid() && connection != null
      modifies this, connection
      ensures Valid()
      ensures (if goesOn then Continues(View(), OfConnection(e)) else Fails(invalid))
              == EventHandled(old(View()), old(connection.View()), e, s1, s2)
    {
      var before := connection.state;
      var ok := connection.HandleEvent(e, s1, s2);
      ghost var mid := View();
      ghost var h := Handled(connection.View(), ok);
      goesOn, invalid := Conclude(before, ok, e);
      assert mid == old(View()).(connection := Some(h.conn));
      ConnectionReplaced(old(View()), Some(h.conn), before, h, e);
    }

    /** The next event of the main connection. */
    method PollMain(i: Input) returns (goesOn: bool, invalid: bool, event: Reported)
      requires Valid() && i.MainPoll? && Enabled(View(), i)
      modifies this, connection
      ensures Valid()
      ensures (if goesOn then Continues(View(), event) else Fails(invalid)) == MainPolled(old(View()), i)
    {
      ghost var p := View();
      var e := connection.Poll(i.stimulus);
      assert View() == p.(connection := Some(Polled(p.connection.value, i.stimulus)));
      var collision := if i.inSight then CheckCollision() else NoCollision;
      match collision
      case DropMain =>
        goesOn := DropMainConnection();
        invalid, event := true, CollisionDump;
      case DropTracked =>
        tracked := null;
        goesOn, invalid, event := true, false, CollisionDump;
      case BadTrackedId => goesOn, invalid, event := true, false, NothingYet;
      case NoCollision =>
        goesOn, invalid := HandleConnectionEvent(e, i.s1, i.s2);
        event := OfConnection(e);
    }

    /** The next event of the tracked connection. */
    method PollTracked(i: Input) returns (goesOn: bool, event: Reported)
      requires Valid() && i.TrackedPoll? && Enabled(View(), i)
      modifies this, tracked
      ensures Valid()
      ensures (if goesOn then Continues(View(), event) else Fails(true)) == TrackedPolled(old(View()), i)
    {
      ghost var p := View();
      var e := tracked.Poll(i.stimulus);
      var _ := tracked.HandleEvent(e, i.s1, i.s2);
      assert View() == p.(tracked := Some(tracked.View()));
      var collision := CheckCollision();
      match collision
      case DropMain =>
        goesOn := DropMainConnection();
        event := CollisionDump;
      case DropTracked =>
        tracked := null;
        goesOn, event := true, CollisionDump;
      case BadTrackedId | NoCollision => goesOn, event := true, NothingYet;
    }

    function CheckCollision(): (r: Collision)
      reads this, connection, tracked
      ensures r == CollisionOf(props.myBgpId, ViewOf(connection), ViewOf(tracked))
    {
      if connection != null && connection.peerBgpId.Some? && tracked != null && tracked.peerBgpId.Some? then
        if tracked.peerBgpId.value != connection.peerBgpId.value then BadTrackedId
        else if props.myBgpId < connection.peerBgpId.value then DropMain
        else DropTracked
      else NoCollision
    }

    /** One step of a run. */
    method Step(i: Input) returns (goesOn: bool, invalid: bool, event: Reported)
      requires Valid() && Enabled(View(), i)
      modifies this, connection, tracked
      ensures Valid()
      ensures (if goesOn then Continues(View(), event) else Fails(invalid)) == PeerStep(old(View()), i)
    {
      goesOn, invalid := true, false;
      match i
      case Start => event := HandleStart();
      case Stop(manual) => event := HandleStop(manual);
      case Accept(jitter, send) => goesOn, event := HandleAccept(jitter, send);
      case ConnectOk(jitter, send) =>
        mayConnect := false;
        goesOn := Join(ActiveKind, jitter, TcpConnectionRequestAcked, send);
        event := OfConnection(TcpConnectionRequestAcked);
      case ConnectErr =>
        mayConnect := false;
        retryTimer := false;
        event := ConnectFailed;
      case ConnectAbandoned =>
        mayConnect := false;
        event := NothingYet;
      case RetryTick => event := HandleRetry();
      case MainPoll(_, _, _, _) => goesOn, invalid, event := PollMain(i);
      case TrackedPoll(_, _, _) =>
        goesOn, event := PollTracked(i);
        invalid := true;
    }
  }

  /** The conclusion replaces the connection, so it does not depend on the one before. */
  lemma ConnectionReplaced(p: Peer, other: Option<Conn>, before: ConnState, h: Handled, e: Event)
    ensures Concluded(p.(connection := other), before, h, e) == Concluded(p, before, h, e)
  {
  }

  function NewPeer(props: Props, config: PeerConfig): Peer {
    Peer(props, config, false, Idle, None, None, false, 0, false)
  }
}
