/** Connection life cycle of the session manager: connect, disconnect and the reconnect cycle. */
module Reconnects {
  import opened Bytes
  import opened Backoff

  datatype ConnectionState = Disconnected | Connecting | Connected | Reconnecting | Failed

  /** A transport's Disconnected, Connecting, Connected, Ready and Failed, renamed to keep the two types apart. */
  datatype Report = Down | Dialing | Linked | Ready | Lost

  datatype Config = Config(maxAttempts: u32, baseDelay: u32, maxDelay: u32)

  /** The fields, with every call the status callback has had. */
  datatype Session = Session(
    config: Config, state: ConnectionState, reconnecting: bool, attempt: u32, total: u32, manual: bool,
    hasTransport: bool, running: bool, deadline: nat, reported: seq<ConnectionState>, aborted: bool)

  function Fresh(config: Config): Session {
    Session(config, Disconnected, false, 0, 0, false, false, false, 0, [], false)
  }

  function Enter(s: Session, state: ConnectionState): Session {
    s.(state := state, reported := s.reported + [state])
  }

  function DelayOf(s: Session): u32 {
    Delay(s.config.baseDelay, s.config.maxDelay, s.attempt)
  }

  /** The next attempt is put off by the delay. */
  function Scheduled(s: Session, now: nat): Session {
    s.(deadline := now + DelayOf(s))
  }

  /** While reconnecting only Ready and Lost matter. */
  function WhileReconnecting(s: Session, r: Report, now: nat): Session {
    match r
    case Ready => Enter(s.(reconnecting := false, attempt := 0), Connected)
    case Lost =>
      if s.attempt < s.config.maxAttempts then Scheduled(s, now)
      else Enter(s.(reconnecting := false), Failed)
    case _ => s
  }

  function Otherwise(s: Session, r: Report, now: nat): Session {
    match r
    case Down => Enter(s, Disconnected)
    case Dialing => Enter(s, Connecting)
    case Linked => Enter(s, Connecting)
    case Ready => Enter(s.(attempt := 0), Connected)
    case Lost =>
      if s.config.maxAttempts > 0 && !s.manual then
        Enter(s.(reconnecting := true, attempt := 0, deadline := now), Reconnecting)
      else Enter(s, Failed)
  }

  function OnTransport(s: Session, r: Report, now: nat): Session {
    if s.reconnecting then WhileReconnecting(s, r, now) else Otherwise(s, r, now)
  }

  /** Destroying a transport makes it report Down, whether or not it was disconnected before. */
  function Destroyed(s: Session, now: nat): Session {
    if s.hasTransport then OnTransport(s, Down, now).(hasTransport := false) else s
  }

  /** disconnect() and then destruction: two reports. */
  function TornDown(s: Session, now: nat): Session {
    if s.hasTransport then Destroyed(OnTransport(s, Down, now), now) else s
  }

  /** A new transport dials; one that fails to start is destroyed at once. */
  function Dialed(s: Session, initFails: bool, now: nat): Session {
    var d := OnTransport(s.(hasTransport := true), Dialing, now);
    if initFails then Destroyed(OnTransport(d, Lost, now), now) else d
  }

  /** ++ on a 32-bit counter. */
  function Bumped(n: u32): u32 {
    (n + 1) % TWO32
  }

  function NextAttempt(s: Session): u32 {
    Bumped(s.attempt)
  }

  /** Both counters, in 32 bits. */
  function Counted(s: Session): Session {
    s.(attempt := NextAttempt(s), total := Bumped(s.total))
  }

  function AfterAttempt(s: Session, initFails: bool, now: nat): Session {
    var t := Counted(s);
    if t.attempt > t.config.maxAttempts then Enter(t.(reconnecting := false), Failed)
    else
      var d := Dialed(TornDown(t, now), initFails, now);
      if initFails then Scheduled(d, now) else d
  }

  function Due(s: Session, now: nat): bool {
    s.running && s.reconnecting && now >= s.deadline
  }

  /** The timer check at the top of the session thread's loop. */
  function Pass(s: Session, initFails: bool, now: nat): Session {
    if Due(s, now) then AfterAttempt(s, initFails, now) else s
  }

  /** The callbacks process_incoming makes on the session thread. */
  function Event(s: Session, r: Report, now: nat): Session {
    if s.running && s.hasTransport then OnTransport(s, r, now) else s
  }

  function Events(s: Session, rs: seq<Report>, now: nat): Session {
    if rs == [] then s else Event(Events(s, rs[..|rs| - 1], now), rs[|rs| - 1], now)
  }

  predicate Busy(s: Session) {
    s.state == Connecting || s.state == Connected || s.state == Reconnecting
  }

  /** Replacing a joinable thread object ends the process. */
  function ThreadStarted(s: Session): Session {
    if s.running then s.(aborted := true) else s.(running := true)
  }

  /** Reconnection state at the start of connect(). */
  function Renewed(s: Session): Session {
    s.(manual := false, reconnecting := false, attempt := 0, total := 0)
  }

  function AfterConnect(s: Session, urlOk: bool, initFails: bool, now: nat): Session {
    if Busy(s) then s
    else if !urlOk then Enter(s, Failed)
    else
      var d := Dialed(Destroyed(Renewed(s), now), initFails, now);
      if initFails then d else ThreadStarted(d)
  }

  predicate Stopped(s: Session) {
    s.state == Disconnected && !s.running && !s.hasTransport
  }

  function AfterDisconnect(s: Session, now: nat): Session {
    if Stopped(s) then s
    else Enter(TornDown(s.(manual := true, reconnecting := false, running := false), now), Disconnected)
  }

  // ---- The code -------------------------------------------------------------------

  lemma KeepsTransport(s: Session, r: Report, now: nat)
    ensures OnTransport(s, r, now).hasTransport == s.hasTransport
    ensures OnTransport(s, r, now).running == s.running && OnTransport(s, r, now).config == s.config
    ensures OnTransport(s, r, now).aborted == s.aborted && OnTransport(s, r, now).manual == s.manual
  {
    hide Delay;
  }

  /** The session manager's connection state. */
  class Connection {
    var config: Config
    var state: ConnectionState
    var reconnecting: bool
    var reconnectAttempt: u32
    var totalReconnectCount: u32
    var manualDisconnect: bool
    var hasTransport: bool
    var sessionRunning: bool
    var reconnectDeadline: nat
    /** Calls of the status callback. */
    var reported: seq<ConnectionState>
    /** std::terminate was called. */
    var aborted: bool

    function View(): Session
      reads this
    {
      Session(config, state, reconnecting, reconnectAttempt, totalReconnectCount, manualDisconnect, hasTransport,
              sessionRunning, reconnectDeadline, reported, aborted)
    }

    constructor (config: Config)
      ensures View() == Fresh(config) && reconnectAttempt == totalReconnectCount == 0
    {
      this.config, state, reconnecting, reconnectAttempt, totalReconnectCount := config, Disconnected, false, 0, 0;
      manualDisconnect := false;
      hasTransport, sessionRunning, reconnectDeadline, reported, aborted := false, false, 0, [], false;
    }

    method SetState(next: ConnectionState)
      modifies this`state, this`reported
      ensures View() == Enter(old(View()), next)
    {
      state := next;
      reported := reported + [next];
    }

    method Schedule(now: nat)
      modifies this`reconnectDeadline
      ensures View() == Scheduled(old(View()), now)
    {
      var delay := CalculateDelay(config.baseDelay, config.maxDelay, reconnectAttempt);
      reconnectDeadline := now + delay;
    }

    method HandleTransportStateChange(r: Report, now: nat)
      modifies this
      ensures View() == OnTransport(old(View()), r, now)
    {
      if reconnecting {
        match r {
          case Down =>
          case Dialing =>
          case Linked =>
          case Ready =>
            reconnecting, reconnectAttempt := false, 0;
            SetState(Connected);
          case Lost =>
            if reconnectAttempt < config.maxAttempts {
              Schedule(now);
            } else {
              reconnecting := false;
              SetState(Failed);
            }
        }
        return;
      }
      match r {
        case Down => SetState(Disconnected);
        case Dialing => SetState(Connecting);
        case Linked => SetState(Connecting);
        case Ready =>
          reconnectAttempt := 0;
          SetState(Connected);
        case Lost =>
          if config.maxAttempts > 0 && !manualDisconnect {
            reconnecting, reconnectAttempt := true, 0;
            SetState(Reconnecting);
            reconnectDeadline := now;
          } else {
            SetState(Failed);
          }
      }
    }

    /** transport_.reset(). */
    method DestroyTransport(now: nat)
      modifies this
      ensures View() == Destroyed(old(View()), now)
    {
      hide OnTransport;
      if hasTransport {
        HandleTransportStateChange(Down, now);
        hasTransport := false;
      }
    }

    method TearDown(now: nat)
      modifies this
      ensures View() == TornDown(old(View()), now)
    {
      hide OnTransport;
      if hasTransport {
        KeepsTransport(View(), Down, now);
        HandleTransportStateChange(Down, now);
        DestroyTransport(now);
      }
    }

    /** make_unique and connect; `initFails` is what QUIC initialisation does. */
    method Dial(initFails: bool, now: nat)
      modifies this
      ensures View() == Dialed(old(View()), initFails, now)
    {
      hide OnTransport, Destroyed;
      hasTransport := true;
      HandleTransportStateChange(Dialing, now);
      if initFails {
        HandleTransportStateChange(Lost, now);
        DestroyTransport(now);
      }
    }

    method AttemptReconnect(initFails: bool, now: nat)
      modifies this
      ensures View() == AfterAttempt(old(View()), initFails, now)
    {
      hide TornDown, Dialed, Bumped, Scheduled;
      ghost var counted := Counted(View());
      reconnectAttempt := Bumped(reconnectAttempt);
      totalReconnectCount := Bumped(totalReconnectCount);
      assert View() == counted;
      if reconnectAttempt > config.maxAttempts {
        reconnecting := false;
        SetState(Failed);
        return;
      }
      TearDown(now);
      Dial(initFails, now);
      if initFails {
        Schedule(now);
      }
    }

    /** The transport's reports in one turn of the session thread. */
    method ProcessReports(rs: seq<Report>, now: nat)
      modifies this
      ensures View() == Events(old(View()), rs, now)
    {
      hide OnTransport;
      ghost var start := View();
      var i := 0;
      while i < |rs|
        invariant i <= |rs| && View() == Events(start, rs[..i], now)
      {
        if sessionRunning && hasTransport {
          HandleTransportStateChange(rs[i], now);
        }
        assert rs[..i + 1][..i] == rs[..i];
        i := i + 1;
      }
      assert rs[..|rs|] == rs;
    }

    method Connect(urlOk: bool, initFails: bool, now: nat)
      modifies this
      ensures View() == AfterConnect(old(View()), urlOk, initFails, now)
    {
      hide Destroyed, Dialed;
      if state == Connecting || state == Connected || state == Reconnecting {
        return;
      }
      if !urlOk {
        SetState(Failed);
        return;
      }
      ghost var renewed := Renewed(View());
      manualDisconnect, reconnecting, reconnectAttempt, totalReconnectCount := false, false, 0, 0;
      assert View() == renewed;
      DestroyTransport(now);
      Dial(initFails, now);
      if initFails {
        return;
      }
      if sessionRunning {
        aborted := true;
      } else {
        sessionRunning := true;
      }
    }

    method Disconnect(now: nat)
      modifies this
      ensures View() == AfterDisconnect(old(View()), now)
    {
      hide TornDown;
      if state == Disconnected && !sessionRunning && !hasTransport {
        return;
      }
      manualDisconnect, reconnecting := true, false;
      if sessionRunning {
        sessionRunning := false;
      }
      TearDown(now);
      SetState(Disconnected);
    }
  }
}
