/** When a reconnect cycle backs off, when giving up is final, and how many retries there can be. */
module ReconnectCycles {
  import opened Arith
  import opened Backoff
  import opened Reconnects
  import opened ReconnectRuns

  // ---- One turn of the session thread ---------------------------------------------------

  /** During a cycle, before its last attempt, reports other than Ready change nothing but the deadline. */
  lemma {:induction false} ReportsWithoutReady(s: Session, rs: seq<Report>, now: nat)
    requires s.reconnecting && s.attempt < s.config.maxAttempts && Ready !in rs
    ensures Events(s, rs, now)
            == if s.running && s.hasTransport && Lost in rs then s.(deadline := now + DelayOf(s)) else s
  {
    hide Delay;
    if rs != [] {
      var init, last := rs[..|rs| - 1], rs[|rs| - 1];
      assert rs == init + [last];
      ReportsWithoutReady(s, init, now);
    }
  }

  /**
   * When the promised backoff happens. A turn of the session thread in which an attempt is due, not yet the last
   * one, and the new transport does not get Ready is followed by the configured delay exactly when the dial could
   * not start or a loss was reported in that very turn. A dial that starts and stays silent backs off only if
   * there is no delay to wait for.
   */
  lemma {:induction false} BackoffExactly(s: Session, initFails: bool, rs: seq<Report>, now: nat)
    requires Agree(s) && Due(s, now) && s.attempt + 1 < s.config.maxAttempts < TWO32 - 1 && Ready !in rs
    ensures var t := Events(Pass(s, initFails, now), rs, now);
      && t.reconnecting && t.running && t.attempt == s.attempt + 1
      && ((forall later: nat :: now <= later < now + DelayOf(t) ==> !Due(t, later))
          <==> initFails || Lost in rs || DelayOf(t) == 0)
  {
    hide AfterAttempt, Events, Delay;
    AttemptOutcome(s, initFails, now);
    var p := Pass(s, initFails, now);
    ReportsWithoutReady(p, rs, now);
    var t := Events(p, rs, now);
    if !initFails && Lost !in rs {
      assert Due(t, now);
    }
  }

  /** A loss reported during a cycle does back off: no attempt is made before the intended delay has passed. */
  lemma LossBacksOff(s: Session, now: nat, later: nat, initFails: bool)
    requires Agree(s) && s.reconnecting && s.running && s.hasTransport && s.attempt < s.config.maxAttempts
    requires s.config.baseDelay <= s.config.maxDelay <= 0x8000_0000 && s.config.baseDelay < 0x8000_0000
    ensures var t, delay := Event(s, Lost, now), Min(Power(s.config.baseDelay, s.attempt), s.config.maxDelay);
      && t.reconnecting && t.attempt == s.attempt
      && (Due(t, later) <==> later >= now + delay)
      && (later < now + delay ==> Pass(t, initFails, later) == t)
  {
    hide AfterAttempt, Delay;
    DelayInRange(s.config.baseDelay, s.config.maxDelay, s.attempt);
  }

  // ---- Cycles whose transports stay silent ---------------------------------------------------

  /** Turns of the session thread in which every dial starts and nothing is reported. */
  function Silent(s: Session, times: seq<nat>): Session {
    if times == [] then s else Pass(Silent(s, times[..|times| - 1]), false, times[|times| - 1])
  }

  lemma SilentAttempt(s: Session, now: nat)
    requires Agree(s) && s.reconnecting && s.running && now >= s.deadline
    ensures var t, n := Pass(s, false, now), NextAttempt(s);
      && Agree(t) && t.config == s.config && t.running && t.attempt == n && t.deadline == s.deadline
      && (t.reconnecting <==> n <= s.config.maxAttempts)
      && (!t.reconnecting ==> t.state == Failed && t.hasTransport == s.hasTransport)
      && (t.reconnecting ==> t.hasTransport)
  {
    hide Delay;
  }

  lemma WithinLimit(s: Session)
    requires Agree(s) && s.reconnecting
    ensures s.attempt <= s.config.maxAttempts
  {
  }

  lemma PassIdle(s: Session, now: nat)
    requires !s.reconnecting
    ensures Pass(s, false, now) == s
  {
  }

  lemma WrapStep(n: nat)
    ensures (n % TWO32 + 1) % TWO32 == (n + 1) % TWO32
  {
  }

  /**
   * A started dial does not move the deadline, so the next turn makes the next attempt: the cycle lasts exactly
   * max - attempt further turns however long the configured delays are, and for ever at the 32-bit limit.
   */
  lemma {:induction false} SilentCycle(s: Session, times: seq<nat>)
    requires Agree(s) && s.reconnecting && s.running
    requires forall i :: 0 <= i < |times| ==> times[i] >= s.deadline
    ensures var t, max := Silent(s, times), s.config.maxAttempts;
      && Agree(t) && t.config == s.config && t.running
      && (t.reconnecting <==> max == TWO32 - 1 || s.attempt + |times| <= max)
      && (t.reconnecting ==> t.deadline == s.deadline && t.attempt == (s.attempt + |times|) % TWO32)
      && (!t.reconnecting ==> t.state == Failed)
  {
    hide Agree, Pass;
    WithinLimit(s);
    if times != [] {
      var init, now := times[..|times| - 1], times[|times| - 1];
      SilentCycle(s, init);
      var t := Silent(s, init);
      if t.reconnecting {
        SilentAttempt(t, now);
        WrapStep(s.attempt + |init|);
        WithinLimit(t);
      } else {
        PassIdle(t, now);
      }
    }
  }

  // ---- Giving up -------------------------------------------------------------------

  /** Nothing the host does: timer checks and the transport's reports. */
  predicate HostFree(steps: seq<Step>) {
    forall step :: step in steps ==> step.Timer? || step.Reported?
  }

  lemma {:induction false} WithoutTransportStays(s: Session, steps: seq<Step>)
    requires !s.reconnecting && !s.hasTransport && HostFree(steps)
    ensures RunFrom(s, steps) == s
  {
    if steps != [] {
      WithoutTransportStays(s, steps[..|steps| - 1]);
      assert steps[|steps| - 1] in steps;
    }
  }

  lemma OneStep(s: Session, step: Step)
    ensures RunFrom(s, [step]) == Next(s, step)
  {
    hide Next;
    assert [step][..0] == [] && RunFrom(s, []) == s;
  }

  /** Failed is final, as long as the host does nothing, exactly when no transport was kept. */
  lemma {:induction false} FailedIsFinalExactly(s: Session)
    requires Agree(s) && Alive(s) && s.state == Failed && !s.aborted
    ensures (forall steps :: HostFree(steps) ==> RunFrom(s, steps).state == Failed) <==> !s.hasTransport
  {
    hide RunFrom;
    if s.hasTransport {
      var up := Reported(Ready, 0);
      OneStep(s, up);
      assert HostFree([up]) && RunFrom(s, [up]).state == Connected;
    } else {
      forall steps | HostFree(steps)
        ensures RunFrom(s, steps).state == Failed
      {
        WithoutTransportStays(s, steps);
      }
    }
  }

  /** The timer check that gives up does so for good exactly when there is no transport for it to keep. */
  lemma {:induction false} GivingUpExactly(s: Session, initFails: bool, now: nat)
    requires Agree(s) && Alive(s) && !s.aborted && Due(s, now) && s.attempt == s.config.maxAttempts < TWO32 - 1
    ensures var t := Pass(s, initFails, now);
      && t.state == Failed
      && ((forall steps :: HostFree(steps) ==> RunFrom(t, steps).state == Failed) <==> !s.hasTransport)
  {
    hide RunFrom;
    FailedIsFinalExactly(Pass(s, initFails, now));
  }

  /** Giving up on a reported loss always keeps the transport that reported it, so it is never for good. */
  lemma {:induction false} GivingUpOnLoss(s: Session, now: nat)
    requires Agree(s) && Alive(s) && !s.aborted && s.reconnecting && s.hasTransport
    requires s.attempt == s.config.maxAttempts
    ensures Event(s, Lost, now).state == Failed
    ensures exists steps :: HostFree(steps) && RunFrom(Event(s, Lost, now), steps).state != Failed
  {
    hide RunFrom;
    FailedIsFinalExactly(Event(s, Lost, now));
  }

  /** A loss reported by a kept transport starts a new cycle, from attempt 0 and due at once. */
  lemma LossAfterGivingUpRestarts(s: Session, now: nat)
    requires Agree(s) && Alive(s) && !s.aborted && !s.reconnecting && s.hasTransport && s.config.maxAttempts > 0
    ensures var t := Next(s, Reported(Lost, now));
      t.state == Reconnecting && t.attempt == 0 && Due(t, now) && t.hasTransport
  {
  }

  // ---- The number of retries -----------------------------------------------------------

  /** Calls of attempt_reconnect in a run. */
  function AttemptsIn(s: Session, steps: seq<Step>): nat {
    if steps == [] then 0
    else
      var init, last := steps[..|steps| - 1], steps[|steps| - 1];
      AttemptsIn(s, init) + if Attempting(RunFrom(s, init), last) then 1 else 0
  }

  /** In a cycle whose transport has started and whose next attempt is due. */
  predicate Retrying(s: Session, now: nat) {
    Agree(s) && Alive(s) && !s.aborted && s.hasTransport && Due(s, now) && s.config.maxAttempts > 0
  }

  lemma SilentAlive(s: Session, now: nat)
    requires Retrying(s, now)
    ensures var t := Pass(s, false, now); Alive(t) && !t.aborted && t.hasTransport
  {
    hide Delay, OnTransport, TornDown, Dialed;
    var t := Counted(s);
    TornDownReconnecting(t, now);
    DialedReconnecting(t.(hasTransport := false), now);
  }

  lemma RestartAlive(s: Session, now: nat)
    requires Agree(s) && Alive(s) && !s.aborted && !s.reconnecting && s.hasTransport && s.config.maxAttempts > 0
    ensures Retrying(Next(s, Reported(Lost, now)), now)
  {
    LossAfterGivingUpRestarts(s, now);
    AgreeKept(s, Lost, now);
  }

  /** A silent attempt, and a report of loss if that attempt gave up, and the next attempt is due again. */
  lemma RetryGoesOn(s: Session, now: nat)
    requires Retrying(s, now)
    ensures var t := Next(s, Timer(false, now));
      Retrying(t, now) || (t.hasTransport && Retrying(Next(t, Reported(Lost, now)), now))
  {
    hide AfterAttempt, OnTransport;
    SilentAttempt(s, now);
    SilentAlive(s, now);
    var t := Next(s, Timer(false, now));
    if !t.reconnecting {
      RestartAlive(t, now);
    }
  }

  lemma StepsOn(s: Session, steps: seq<Step>, step: Step)
    ensures RunFrom(s, steps + [step]) == Next(RunFrom(s, steps), step)
    ensures AttemptsIn(s, steps + [step])
            == AttemptsIn(s, steps) + if Attempting(RunFrom(s, steps), step) then 1 else 0
    ensures HostFree(steps) && (step.Timer? || step.Reported?) ==> HostFree(steps + [step])
  {
    hide Next, Attempting;
    assert (steps + [step])[..|steps|] == steps;
  }

  lemma NoSteps(s: Session)
    ensures RunFrom(s, []) == s && AttemptsIn(s, []) == 0 && HostFree([])
  {
  }

  lemma {:induction false} RetriesFrom(s: Session, now: nat, n: nat) returns (steps: seq<Step>)
    requires Retrying(s, now)
    ensures HostFree(steps) && AttemptsIn(s, steps) == n && Retrying(RunFrom(s, steps), now)
  {
    hide Next, AttemptsIn, RunFrom, HostFree, Agree, Alive;
    if n == 0 {
      steps := [];
      NoSteps(s);
    } else {
      var before := RetriesFrom(s, now, n - 1);
      var t := RunFrom(s, before);
      RetryGoesOn(t, now);
      StepsOn(s, before, Timer(false, now));
      steps := before + [Timer(false, now)];
      if !Retrying(Next(t, Timer(false, now)), now) {
        StepsOn(s, steps, Reported(Lost, now));
        steps := steps + [Reported(Lost, now)];
      }
    }
  }

  /** Without reconnecting the host-free steps of a session make no attempt at all. */
  lemma {:induction false} NoRetries(s: Session, steps: seq<Step>)
    requires Agree(s) && !s.reconnecting && s.config.maxAttempts == 0 && HostFree(steps)
    ensures AttemptsIn(s, steps) == 0
    ensures Agree(RunFrom(s, steps)) && !RunFrom(s, steps).reconnecting && RunFrom(s, steps).config == s.config
  {
    hide Agree, AfterAttempt, Delay;
    if steps != [] {
      var init, last := steps[..|steps| - 1], steps[|steps| - 1];
      NoRetries(s, init);
      assert last in steps;
      AgreeKept(RunFrom(s, init), if last.Reported? then last.report else Down, last.now);
    }
  }

  /** Without any call of the host, a session can make `n` attempts. */
  ghost predicate CanRetry(s: Session, n: nat) {
    exists steps :: HostFree(steps) && AttemptsIn(s, steps) >= n
  }

  lemma {:induction false} StepFirst(s: Session, step: Step, more: seq<Step>)
    ensures RunFrom(s, [step] + more) == RunFrom(Next(s, step), more)
    ensures AttemptsIn(s, [step] + more) >= AttemptsIn(Next(s, step), more)
    ensures HostFree(more) && (step.Timer? || step.Reported?) ==> HostFree([step] + more)
  {
    hide Next, Attempting;
    var all := [step] + more;
    if more == [] {
      assert all == [step];
      OneStep(s, step);
    } else {
      var init := more[..|more| - 1];
      assert all[..|all| - 1] == [step] + init && all[|all| - 1] == more[|more| - 1];
      StepFirst(s, step, init);
    }
  }

  lemma RetriesAfterLoss(s: Session, n: nat) returns (steps: seq<Step>)
    requires Retrying(Next(s, Reported(Lost, 0)), 0)
    ensures HostFree(steps) && AttemptsIn(s, steps) >= n
  {
    hide Next, Retrying, HostFree;
    var more := RetriesFrom(Next(s, Reported(Lost, 0)), 0, n);
    steps := [Reported(Lost, 0)] + more;
    StepFirst(s, Reported(Lost, 0), more);
  }

  /**
   * max_reconnect_attempts bounds a cycle, not the retries: in a session whose transport is up or dialing, an
   * unreachable server can cause any number of attempts with no call of the host, unless the limit is 0.
   */
  lemma {:induction false} RetriesUnboundedExactly(s: Session)
    requires Agree(s) && Alive(s) && !s.aborted && !s.reconnecting && s.hasTransport
    ensures (forall n: nat :: CanRetry(s, n)) <==> s.config.maxAttempts > 0
  {
    hide AttemptsIn, RunFrom, Next, HostFree, Agree, Alive, Retrying;
    if s.config.maxAttempts > 0 {
      forall n: nat
        ensures CanRetry(s, n)
      {
        RestartAlive(s, 0);
        var steps := RetriesAfterLoss(s, n);
      }
    } else {
      forall steps | HostFree(steps)
        ensures AttemptsIn(s, steps) < 1
      {
        NoRetries(s, steps);
      }
      assert !CanRetry(s, 1);
    }
  }
}
