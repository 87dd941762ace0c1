/** What holds over every run of the connection life cycle. */
module ReconnectRuns {
  import opened Backoff
  import opened Reconnects

  /** Calls of the host, timer checks of the session thread, and reports of the transport it polls. */
  datatype Step =
    | Configure(config: Config)
    | Connect(urlOk: bool, initFails: bool, now: nat)
    | Disconnect(now: nat)
    | Timer(initFails: bool, now: nat)
    | Reported(report: Report, now: nat)

  /** configure() is only called while stopped; nothing happens after std::terminate. */
  function Next(s: Session, step: Step): Session {
    if s.aborted then s
    else
      match step
      case Configure(config) => if Stopped(s) then s.(config := config) else s
      case Connect(urlOk, initFails, now) => AfterConnect(s, urlOk, initFails, now)
      case Disconnect(now) => AfterDisconnect(s, now)
      case Timer(initFails, now) => Pass(s, initFails, now)
      case Reported(report, now) => Event(s, report, now)
  }

  /** The session, with the attempts of the current or last cycle and the transports they created. */
  datatype Ledger = Ledger(s: Session, attempts: nat, created: nat)

  predicate Attempting(s: Session, step: Step) {
    !s.aborted && step.Timer? && Due(s, step.now)
  }

  function NextLedger(l: Ledger, step: Step): Ledger {
    var s := Next(l.s, step);
    if (step.Configure? && Stopped(l.s)) || (!l.s.reconnecting && s.reconnecting) then Ledger(s, 0, 0)
    else if Attempting(l.s, step) then
      Ledger(s, l.attempts + 1, if NextAttempt(l.s) <= l.s.config.maxAttempts then l.created + 1 else l.created)
    else Ledger(s, l.attempts, l.created)
  }

  function Run(config: Config, steps: seq<Step>): Ledger {
    if steps == [] then Ledger(Fresh(config), 0, 0)
    else NextLedger(Run(config, steps[..|steps| - 1]), steps[|steps| - 1])
  }

  function LastReported(s: Session): ConnectionState {
    if s.reported == [] then Disconnected else s.reported[|s.reported| - 1]
  }

  /** The flag, the state and what the host was last told agree; the attempt count is within its limit. */
  predicate Agree(s: Session) {
    && (s.reconnecting <==> s.state == Reconnecting)
    && LastReported(s) == s.state
    && (s.reconnecting ==> s.attempt <= s.config.maxAttempts)
  }

  /** A transport lives only beside the session thread, which disconnect() stops; an open connection needs both. */
  predicate Alive(s: Session) {
    && (s.hasTransport ==> s.running) && (s.running ==> !s.manual)
    && (s.state == Connecting || s.state == Connected ==> s.hasTransport)
  }

  predicate Bounded(l: Ledger) {
    && l.created <= l.s.config.maxAttempts
    && l.attempts <= l.s.config.maxAttempts + 1
    && (l.s.reconnecting ==> l.attempts == l.created == l.s.attempt)
  }

  predicate Inv(l: Ledger) {
    Agree(l.s) && Alive(l.s) && Bounded(l)
  }

  // ---- One step ---------------------------------------------------------------------

  lemma AgreeKept(s: Session, r: Report, now: nat)
    requires Agree(s)
    ensures var t := OnTransport(s, r, now);
      && Agree(t) && t.config == s.config && t.running == s.running && t.hasTransport == s.hasTransport
      && t.aborted == s.aborted && t.manual == s.manual
  {
    hide Delay;
    KeepsTransport(s, r, now);
  }

  /** An event keeps the attempt count of a running cycle and starts a new one at zero. */
  lemma EventCounts(s: Session, r: Report, now: nat)
    requires Agree(s)
    ensures var t := OnTransport(s, r, now);
      t.reconnecting ==> t.attempt == if s.reconnecting then s.attempt else 0
  {
  }

  lemma TornDownReconnecting(s: Session, now: nat)
    requires s.reconnecting
    ensures TornDown(s, now) == s.(hasTransport := false)
  {
    hide Delay;
  }

  /** While reconnecting only a dial that cannot start is noticed; on the last attempt it ends the cycle. */
  lemma DialedReconnecting(s: Session, now: nat)
    requires s.reconnecting
    ensures Dialed(s, false, now) == s.(hasTransport := true)
    ensures s.attempt < s.config.maxAttempts ==>
              Dialed(s, true, now) == s.(hasTransport := false, deadline := now + DelayOf(s))
    ensures s.attempt >= s.config.maxAttempts ==>
              Dialed(s, true, now)
              == Enter(Enter(s.(reconnecting := false, hasTransport := false), Failed), Disconnected)
  {
    hide Delay;
  }

  /** How a due attempt ends, case by case. */
  lemma {:induction false} AttemptOutcome(s: Session, initFails: bool, now: nat)
    requires Agree(s) && s.reconnecting && s.config.maxAttempts < TWO32 - 1
    ensures var t, n, max := AfterAttempt(s, initFails, now), s.attempt + 1, s.config.maxAttempts;
      && Agree(t) && t.config == s.config && t.running == s.running && t.aborted == s.aborted
      && t.manual == s.manual && t.total == (s.total + 1) % TWO32 && NextAttempt(s) == n
      && (n > max ==> t.state == Failed && t.hasTransport == s.hasTransport)
      && (n <= max && !initFails ==>
            t.reconnecting && t.attempt == n && t.hasTransport && t.deadline == s.deadline)
      && (n < max && initFails ==>
            t.reconnecting && t.attempt == n && !t.hasTransport
            && t.deadline == now + Delay(s.config.baseDelay, s.config.maxDelay, n))
      && (n == max && initFails ==>
            t.state == Disconnected && !t.hasTransport && t.reported == s.reported + [Failed, Disconnected])
  {
    hide Delay, OnTransport, TornDown, Dialed;
    var t := Counted(s);
    TornDownReconnecting(t, now);
    DialedReconnecting(t.(hasTransport := false), now);
    assert s.reported + [Failed] + [Disconnected] == s.reported + [Failed, Disconnected];
  }

  /** How connect() ends when it is not refused. */
  lemma {:induction false} ConnectOutcome(s: Session, initFails: bool, now: nat)
    requires Agree(s) && !Busy(s)
    ensures var t := AfterConnect(s, true, initFails, now);
      && Agree(t) && t.config == s.config && !t.manual
      && (initFails ==> t.running == s.running && !t.hasTransport && t.aborted == s.aborted)
      && (initFails && s.config.maxAttempts > 0 ==> t.state == Reconnecting && t.attempt == 0)
      && (initFails && s.config.maxAttempts == 0 ==> t.state == Disconnected)
      && (!initFails ==> t.state == Connecting && t.hasTransport && t.running
                         && t.aborted == (s.aborted || s.running))
      && |t.reported| > |s.reported| && t.attempt == 0 && t.total == 0
  {
    hide Delay;
  }

  lemma DisconnectOutcome(s: Session, now: nat)
    requires Agree(s)
    ensures var t := AfterDisconnect(s, now);
      && Agree(t) && Stopped(t) && !t.reconnecting && t.config == s.config && t.aborted == s.aborted
      && (!Stopped(s) ==> t.manual)
  {
  }

  /** What the host is told when connect() is not refused: an old transport goes down first. */
  lemma ConnectReports(s: Session, initFails: bool, now: nat)
    requires !Busy(s)
    ensures AfterConnect(s, true, initFails, now).reported
            == s.reported + (if s.hasTransport then [Disconnected] else []) + [Connecting]
               + (if !initFails then []
                  else if s.config.maxAttempts > 0 then [Reconnecting]
                  else [Failed, Disconnected])
  {
    hide Delay;
  }

  /** What it is told by disconnect(): a transport goes down twice before the call reports. */
  lemma DisconnectReports(s: Session, now: nat)
    ensures AfterDisconnect(s, now).reported
            == s.reported + if Stopped(s) then []
                            else if s.hasTransport then [Disconnected, Disconnected, Disconnected]
                            else [Disconnected]
  {
    hide Delay;
  }

  /** And by an attempt: nothing, unless it ends the cycle. */
  lemma AttemptReports(s: Session, initFails: bool, now: nat)
    requires s.reconnecting && s.config.maxAttempts < TWO32 - 1 && s.attempt <= s.config.maxAttempts
    ensures AfterAttempt(s, initFails, now).reported
            == s.reported + if s.attempt == s.config.maxAttempts then [Failed]
                            else if initFails && s.attempt + 1 == s.config.maxAttempts then [Failed, Disconnected]
                            else []
  {
    hide Delay, OnTransport, TornDown, Dialed;
    var t := Counted(s);
    TornDownReconnecting(t, now);
    DialedReconnecting(t.(hasTransport := false), now);
    assert s.reported + [Failed] + [Disconnected] == s.reported + [Failed, Disconnected];
  }

  lemma ConnectKeeps(s: Session, urlOk: bool, initFails: bool, now: nat)
    requires Agree(s) && Alive(s) && !s.aborted
    ensures var t := AfterConnect(s, urlOk, initFails, now);
      && Agree(t) && Alive(t) && t.config == s.config
      && (t.reconnecting ==> (if s.reconnecting then t.attempt == s.attempt else t.attempt == 0))
  {
    if !Busy(s) && urlOk {
      ConnectOutcome(s, initFails, now);
    }
  }

  lemma StepKeepsInv(l: Ledger, step: Step)
    requires Inv(l) && !l.s.aborted && l.s.config.maxAttempts < TWO32 - 1
    ensures NextLedger(l, step).s.aborted || Inv(NextLedger(l, step))
  {
    hide AfterAttempt, AfterConnect, AfterDisconnect, OnTransport;
    match step {
      case Configure(config) =>
      case Connect(urlOk, initFails, now) =>
        ConnectKeeps(l.s, urlOk, initFails, now);
      case Disconnect(now) =>
        DisconnectOutcome(l.s, now);
      case Timer(initFails, now) =>
        if Due(l.s, now) {
          AttemptOutcome(l.s, initFails, now);
        }
      case Reported(report, now) =>
        AgreeKept(l.s, report, now);
        EventCounts(l.s, report, now);
    }
  }

  // ---- Every run -------------------------------------------------------------------

  /** Limits one below the top of 32 bits keep the attempt counter from wrapping past the limit. */
  predicate LimitsFit(config: Config, steps: seq<Step>) {
    config.maxAttempts < TWO32 - 1
    && forall step :: step in steps && step.Configure? ==> step.config.maxAttempts < TWO32 - 1
  }

  lemma DestroyedKeeps(s: Session, now: nat)
    ensures Destroyed(s, now).config == s.config && Destroyed(s, now).aborted == s.aborted
  {
    hide OnTransport;
    KeepsTransport(s, Down, now);
  }

  lemma TornDownKeeps(s: Session, now: nat)
    ensures TornDown(s, now).config == s.config && TornDown(s, now).aborted == s.aborted
  {
    hide OnTransport, Destroyed;
    KeepsTransport(s, Down, now);
    DestroyedKeeps(OnTransport(s, Down, now), now);
  }

  lemma DialedKeeps(s: Session, initFails: bool, now: nat)
    ensures Dialed(s, initFails, now).config == s.config && Dialed(s, initFails, now).aborted == s.aborted
  {
    hide OnTransport, Destroyed;
    var t := s.(hasTransport := true);
    KeepsTransport(t, Dialing, now);
    var d := OnTransport(t, Dialing, now);
    KeepsTransport(d, Lost, now);
    DestroyedKeeps(OnTransport(d, Lost, now), now);
  }

  lemma StepKeepsConfig(s: Session, step: Step)
    ensures Next(s, step).config == s.config || (step.Configure? && Next(s, step).config == step.config)
    ensures s.aborted ==> Next(s, step).aborted
  {
    hide Delay, OnTransport, Destroyed, TornDown, Dialed;
    match step {
      case Configure(config) =>
      case Connect(urlOk, initFails, now) =>
        var t := Renewed(s);
        DestroyedKeeps(t, now);
        DialedKeeps(Destroyed(t, now), initFails, now);
      case Disconnect(now) =>
        TornDownKeeps(s.(manual := true, reconnecting := false, running := false), now);
      case Timer(initFails, now) =>
        var t := Counted(s);
        TornDownKeeps(t, now);
        DialedKeeps(TornDown(t, now), initFails, now);
      case Reported(report, now) =>
        KeepsTransport(s, report, now);
    }
  }

  /**
   * Over every run: the reconnecting flag is exactly the Reconnecting state and what the host was last told, and a
   * cycle makes at most max + 1 attempts and creates at most max transports.
   */
  lemma {:induction false} RunKeepsInv(config: Config, steps: seq<Step>)
    requires LimitsFit(config, steps)
    ensures var l := Run(config, steps);
      l.s.config.maxAttempts < TWO32 - 1 && (l.s.aborted || Inv(l))
  {
    if steps != [] {
      var init, last := steps[..|steps| - 1], steps[|steps| - 1];
      RunKeepsInv(config, init);
      assert last in steps;
      var l := Run(config, init);
      StepKeepsConfig(l.s, last);
      if !l.s.aborted {
        StepKeepsInv(l, last);
      }
    }
  }

  lemma ConnectNotOpen(s: Session, urlOk: bool, initFails: bool, now: nat)
    requires Agree(s)
    ensures AfterConnect(s, urlOk, initFails, now).state == Connected ==> s.state == Connected
  {
    if !Busy(s) && urlOk {
      ConnectOutcome(s, initFails, now);
    }
  }

  /** Only a transport's Ready report opens a connection. */
  lemma OnlyReadyConnects(s: Session, step: Step)
    requires Agree(s) && s.config.maxAttempts < TWO32 - 1
    requires s.state != Connected && Next(s, step).state == Connected
    ensures step.Reported? && step.report == Ready && s.hasTransport
  {
    hide AfterAttempt, AfterConnect, AfterDisconnect, Delay;
    match step {
      case Configure(config) =>
      case Connect(urlOk, initFails, now) =>
        ConnectNotOpen(s, urlOk, initFails, now);
      case Disconnect(now) =>
        DisconnectOutcome(s, now);
      case Timer(initFails, now) =>
        if Due(s, now) {
          AttemptOutcome(s, initFails, now);
        }
      case Reported(report, now) =>
    }
  }

  // ---- What each report does --------------------------------------------------------------

  /** Ready opens the connection, in a cycle or outside one, and tells the host. */
  lemma ReadyOpens(s: Session, now: nat)
    requires s.running && s.hasTransport
    ensures Event(s, Ready, now)
            == s.(state := Connected, reconnecting := false, attempt := 0, reported := s.reported + [Connected])
  {
  }

  /** During a cycle a transport that goes down, dials or links up is not noticed at all. */
  lemma CycleIgnores(s: Session, r: Report, now: nat)
    requires s.reconnecting && r != Ready && r != Lost
    ensures Event(s, r, now) == s
  {
  }

  /** Outside one it is: down is Disconnected, dialing and linked, before MOQ setup, are Connecting. */
  lemma OutsideShows(s: Session, r: Report, now: nat)
    requires s.running && s.hasTransport && !s.reconnecting && r != Ready && r != Lost
    ensures var state := if r == Down then Disconnected else Connecting;
      Event(s, r, now) == s.(state := state, reported := s.reported + [state])
  {
  }

  /** A loss outside a cycle starts one, due at once, unless reconnecting is off or the host is disconnecting. */
  lemma LossOutside(s: Session, now: nat)
    requires s.running && s.hasTransport && !s.reconnecting
    ensures Event(s, Lost, now) ==
            if s.config.maxAttempts > 0 && !s.manual then
              s.(state := Reconnecting, reconnecting := true, attempt := 0, deadline := now,
                 reported := s.reported + [Reconnecting])
            else s.(state := Failed, reported := s.reported + [Failed])
  {
  }

  /** A loss in a cycle puts the next attempt off, or ends the cycle when there is none left. */
  lemma LossInside(s: Session, now: nat)
    requires s.running && s.hasTransport && s.reconnecting
    ensures Event(s, Lost, now) ==
            if s.attempt < s.config.maxAttempts then
              s.(deadline := now + Delay(s.config.baseDelay, s.config.maxDelay, s.attempt))
            else s.(state := Failed, reconnecting := false, reported := s.reported + [Failed])
  {
    hide Delay;
  }

  /** connect() is refused exactly while connecting, connected or reconnecting; a bad URL is a failure. */
  lemma ConnectRefusedExactly(s: Session, urlOk: bool, initFails: bool, now: nat)
    requires Agree(s)
    ensures AfterConnect(s, urlOk, initFails, now) == s
            <==> s.state == Connecting || s.state == Connected || s.state == Reconnecting
    ensures !urlOk && (s.state == Disconnected || s.state == Failed) ==>
              AfterConnect(s, urlOk, initFails, now) == s.(state := Failed, reported := s.reported + [Failed])
  {
    if !Busy(s) && urlOk {
      ConnectOutcome(s, initFails, now);
    } else if !Busy(s) {
      assert |AfterConnect(s, urlOk, initFails, now).reported| == |s.reported| + 1;
    }
  }

  // ---- When the connection is open --------------------------------------------------------

  predicate Opens(s: Session, step: Step) {
    !s.aborted && step.Reported? && step.report == Ready && s.running && s.hasTransport
  }

  /** Only these end an open connection. */
  predicate Disturbs(step: Step) {
    step.Disconnect? || (step.Reported? && step.report != Ready)
  }

  lemma ConnectedStep(s: Session, step: Step)
    requires Agree(s) && Alive(s) && !s.aborted && s.config.maxAttempts < TWO32 - 1
    ensures Next(s, step).state == Connected <==> Opens(s, step) || (s.state == Connected && !Disturbs(step))
  {
    hide AfterAttempt, AfterConnect, AfterDisconnect, Delay;
    match step {
      case Configure(config) =>
      case Connect(urlOk, initFails, now) =>
        ConnectNotOpen(s, urlOk, initFails, now);
        ConnectRefusedExactly(s, urlOk, initFails, now);
      case Disconnect(now) =>
        DisconnectOutcome(s, now);
      case Timer(initFails, now) =>
        if Due(s, now) {
          AttemptOutcome(s, initFails, now);
        }
      case Reported(report, now) =>
    }
  }

  /** The run's last Ready report, delivered, with nothing behind it that ends an open connection. */
  ghost predicate OpenedAt(config: Config, steps: seq<Step>, i: int) {
    && 0 <= i < |steps| && Opens(Run(config, steps[..i]).s, steps[i])
    && forall j :: i < j < |steps| ==> !Disturbs(steps[j])
  }

  lemma OpenedNext(config: Config, steps: seq<Step>, i: int)
    requires steps != [] && i < |steps| - 1
    ensures OpenedAt(config, steps, i)
            <==> OpenedAt(config, steps[..|steps| - 1], i) && !Disturbs(steps[|steps| - 1])
  {
    hide Run, Opens, Disturbs;
    var init := steps[..|steps| - 1];
    if 0 <= i {
      assert init[..i] == steps[..i];
      assert forall j :: 0 <= j < |init| ==> init[j] == steps[j];
    }
  }

  lemma NotOpenedYet(config: Config)
    ensures forall i :: !OpenedAt(config, [], i)
  {
  }

  lemma StillRunning(s: Session, step: Step)
    requires !Next(s, step).aborted
    ensures !s.aborted
  {
  }

  lemma OpenedWithin(config: Config, steps: seq<Step>, i: int)
    requires OpenedAt(config, steps, i)
    ensures 0 <= i < |steps|
  {
  }

  lemma OpenedLast(config: Config, steps: seq<Step>)
    requires steps != []
    ensures var n := |steps| - 1;
      && (OpenedAt(config, steps, n) <==> Opens(Run(config, steps[..n]).s, steps[n]))
      && forall i :: OpenedAt(config, steps, i) ==> i <= n
  {
    hide Run, Opens, Disturbs;
  }

  /** Over every run the state is Connected exactly when a transport reported Ready and nothing has ended that since. */
  lemma {:induction false} ConnectedExactly(config: Config, steps: seq<Step>)
    requires LimitsFit(config, steps) && !Run(config, steps).s.aborted
    ensures Run(config, steps).s.state == Connected <==> exists i :: OpenedAt(config, steps, i)
  {
    hide Next, Agree, Alive, Opens, Disturbs, OpenedAt, Bounded;
    if steps == [] {
      NotOpenedYet(config);
    } else {
      var n := |steps| - 1;
      var init, last := steps[..n], steps[n];
      var s := Run(config, init).s;
      StillRunning(s, last);
      ConnectedExactly(config, init);
      RunKeepsInv(config, init);
      ConnectedStep(s, last);
      forall i | i < n
        ensures OpenedAt(config, steps, i) <==> OpenedAt(config, init, i) && !Disturbs(last)
      {
        OpenedNext(config, steps, i);
      }
      OpenedLast(config, steps);
      if s.state == Connected {
        var i :| OpenedAt(config, init, i);
        OpenedWithin(config, init, i);
      }
    }
  }

  // ---- The step that ends the process ---------------------------------------------------

  /** A connect() that is not refused, dials, and finds the session thread still running. */
  predicate ReplacesThread(s: Session, step: Step) {
    !s.aborted && step.Connect? && step.urlOk && !step.initFails && !Busy(s) && s.running
  }

  lemma ConnectAborts(s: Session, urlOk: bool, initFails: bool, now: nat)
    requires Agree(s)
    ensures AfterConnect(s, urlOk, initFails, now).aborted
            <==> s.aborted || (urlOk && !initFails && !Busy(s) && s.running)
  {
    if !Busy(s) && urlOk {
      ConnectOutcome(s, initFails, now);
    }
  }

  lemma AttemptKeepsProcess(s: Session, initFails: bool, now: nat)
    ensures AfterAttempt(s, initFails, now).aborted == s.aborted
  {
    hide Delay, OnTransport, Destroyed, TornDown, Dialed;
    TornDownKeeps(Counted(s), now);
    DialedKeeps(TornDown(Counted(s), now), initFails, now);
  }

  lemma AbortStep(s: Session, step: Step)
    requires s.aborted || Agree(s)
    ensures Next(s, step).aborted <==> s.aborted || ReplacesThread(s, step)
  {
    hide AfterAttempt, AfterConnect, AfterDisconnect, OnTransport, Agree;
    if !s.aborted {
      match step {
        case Configure(config) =>
        case Connect(urlOk, initFails, now) =>
          ConnectAborts(s, urlOk, initFails, now);
        case Disconnect(now) =>
          DisconnectOutcome(s, now);
        case Timer(initFails, now) =>
          AttemptKeepsProcess(s, initFails, now);
        case Reported(report, now) =>
          AgreeKept(s, report, now);
      }
    }
  }

  lemma InvAgrees(l: Ledger)
    requires l.s.aborted || Inv(l)
    ensures l.s.aborted || Agree(l.s)
  {
  }

  /** Step `i` of the run is such a connect(). */
  ghost predicate ReplacesAt(config: Config, steps: seq<Step>, i: int) {
    0 <= i < |steps| && ReplacesThread(Run(config, steps[..i]).s, steps[i])
  }

  lemma ReplacesBefore(config: Config, steps: seq<Step>, i: int)
    requires steps != [] && i < |steps| - 1
    ensures ReplacesAt(config, steps, i) <==> ReplacesAt(config, steps[..|steps| - 1], i)
  {
    hide Run, ReplacesThread;
    if 0 <= i {
      assert steps[..|steps| - 1][..i] == steps[..i];
    }
  }

  lemma ReplacesLast(config: Config, steps: seq<Step>)
    requires steps != []
    ensures var n := |steps| - 1;
      && (ReplacesAt(config, steps, n) <==> ReplacesThread(Run(config, steps[..n]).s, steps[n]))
      && forall i :: ReplacesAt(config, steps, i) ==> i <= n
  {
    hide Run, ReplacesThread;
  }

  lemma ReplacesWithin(config: Config, steps: seq<Step>, i: int)
    requires ReplacesAt(config, steps, i)
    ensures 0 <= i < |steps|
  {
  }

  lemma NoneReplaced(config: Config)
    ensures forall i :: !ReplacesAt(config, [], i)
  {
  }

  /** A run ends the process exactly when one of its connect() calls finds the thread running. */
  lemma {:induction false} RunAbortsExactly(config: Config, steps: seq<Step>)
    requires LimitsFit(config, steps)
    ensures Run(config, steps).s.aborted <==> exists i :: ReplacesAt(config, steps, i)
  {
    hide Next, Inv, ReplacesThread, ReplacesAt;
    if steps == [] {
      NoneReplaced(config);
    } else {
      var n := |steps| - 1;
      var init := steps[..n];
      RunAbortsExactly(config, init);
      RunKeepsInv(config, init);
      InvAgrees(Run(config, init));
      AbortStep(Run(config, init).s, steps[n]);
      ReplacesLast(config, steps);
      forall i | i < n
        ensures ReplacesAt(config, steps, i) <==> ReplacesAt(config, init, i)
      {
        ReplacesBefore(config, steps, i);
      }
      if Run(config, init).s.aborted {
        var i :| ReplacesAt(config, init, i);
        ReplacesWithin(config, init, i);
      }
    }
  }

  /** It can happen: the first connection is lost with reconnecting off, and the host connects again. */
  lemma ConnectAfterLossAborts(config: Config, now: nat)
    requires config.maxAttempts == 0
    ensures var s := AfterConnect(Fresh(config), true, false, now);
      var lost := Event(s, Lost, now);
      lost.state == Failed && AfterConnect(lost, true, false, now).aborted
  {
    hide Delay;
  }

  // ---- States only the host can leave -------------------------------------------------------

  function RunFrom(s: Session, steps: seq<Step>): Session {
    if steps == [] then s else Next(RunFrom(s, steps[..|steps| - 1]), steps[|steps| - 1])
  }

  lemma StoppedStays(s: Session, step: Step)
    requires Stopped(s) && !step.Connect? && !step.Configure?
    ensures Next(s, step) == s
  {
  }

  /** After disconnect() nothing changes until the next connect() or configure(), and no callback is made. */
  lemma {:induction false} DisconnectIsFinal(s: Session, now: nat, steps: seq<Step>)
    requires Agree(s) && forall step :: step in steps ==> !step.Connect? && !step.Configure?
    ensures RunFrom(AfterDisconnect(s, now), steps) == AfterDisconnect(s, now)
  {
    hide AfterDisconnect;
    if steps != [] {
      var last := steps[|steps| - 1];
      DisconnectIsFinal(s, now, steps[..|steps| - 1]);
      assert last in steps;
      DisconnectOutcome(s, now);
      StoppedStays(AfterDisconnect(s, now), last);
    }
  }

  lemma StuckStays(s: Session, step: Step)
    requires s.state == Reconnecting && !s.running && !step.Disconnect?
    ensures Next(s, step) == s
  {
  }

  /**
   * A first connect() whose dial cannot start, with reconnecting enabled, leaves Reconnecting with no session
   * thread to act on it: nothing but disconnect() gets it out.
   */
  lemma {:induction false} FailedDialIsStuck(s: Session, now: nat, steps: seq<Step>)
    requires Agree(s) && Stopped(s) && !s.aborted && s.config.maxAttempts > 0
    requires forall step :: step in steps ==> !step.Disconnect?
    ensures var t := AfterConnect(s, true, true, now);
      t.state == Reconnecting && !t.running && RunFrom(t, steps) == t
  {
    hide AfterConnect;
    ConnectOutcome(s, true, now);
    if steps != [] {
      var last := steps[|steps| - 1];
      FailedDialIsStuck(s, now, steps[..|steps| - 1]);
      assert last in steps;
      StuckStays(AfterConnect(s, true, true, now), last);
    }
  }
}
