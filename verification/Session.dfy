/** The session manager put together: connection, protocol state and outbound rings. */
module Sessions {
  import opened Bytes
  import opened RingBuffers
  import opened Reconnects
  import ReconnectRuns
  import Framing
  import Orchestration
  import OrchestrationLaws
  import Wire

  /** An attempt within the limit, which replaces the transport. */
  predicate WithinLimit(s: Session) {
    NextAttempt(s) <= s.config.maxAttempts
  }

  /** The transport's own state: what it reported last. */
  function LastReport(before: Report, rs: seq<Report>): Report {
    if rs == [] then before else rs[|rs| - 1]
  }

  /** Signalling after a turn: messages are dispatched, and a ready transport not yet used gets the requests. */
  ghost function AfterDrain(s: Orchestration.Session, ms: seq<Framing.Message>, ready: bool, jwt: Str):
      Orchestration.Session
    requires Orchestration.Routed(s)
  {
    var r := Orchestration.HandledAll(s, ms);
    if !r.started && ready then Orchestration.AfterStart(r, jwt) else r
  }

  /**
   * Whatever the first session brought, the attempt that replaces its transport puts the protocol state back, and the
   * next ready transport leaves it as the first session's requests did.
   */
  lemma ReconnectedRequests(s: Orchestration.Session, jwt: Str, ms: seq<Framing.Message>)
    requires OrchestrationLaws.IsReset(s) && 2 * |s.tracks| < Wire.TWO64
    ensures Orchestration.Routed(Orchestration.AfterStart(s, jwt)) && Orchestration.Routed(s)
    ensures var session := Orchestration.HandledAll(Orchestration.AfterStart(s, jwt), ms);
      AfterDrain(Orchestration.AfterReset(session), [], true, jwt) == Orchestration.AfterStart(s, jwt)
  {
    hide Orchestration.AfterStart;
    OrchestrationLaws.ReconnectStartsOver(s, jwt, ms);
  }

  /** An attempt resets the protocol state exactly when it replaces the transport, that is, when the cycle goes on. */
  lemma ResetsExactlyOnDial(s: Session, now: nat)
    requires ReconnectRuns.Agree(s) && s.reconnecting && s.config.maxAttempts < 0xFFFF_FFFF
    ensures WithinLimit(s) <==> AfterAttempt(s, false, now).reconnecting
    ensures !WithinLimit(s) ==> AfterAttempt(s, false, now).hasTransport == s.hasTransport
    ensures WithinLimit(s) <==> s.attempt < s.config.maxAttempts
  {
    hide AfterAttempt;
    ReconnectRuns.AttemptOutcome(s, false, now);
  }

  /**
   * The requests go out once: on a ready transport that has not had them, all of them, numbered on from the next id;
   * otherwise messages are all that happens and no id is used.
   */
  lemma RequestsOnce(s: Orchestration.Session, ms: seq<Framing.Message>, ready: bool, jwt: Str)
    requires Orchestration.Routed(s) && s.nextRequestId + 2 * |s.tracks| < Wire.TWO64
    ensures var r, h := AfterDrain(s, ms, ready, jwt), Orchestration.HandledAll(s, ms);
      var order := Orchestration.Order(h.tracks);
      && (r.started <==> s.started || ready) && |order| == |r.tracks| == |s.tracks|
      && (s.started || !ready ==> r == h && r.nextRequestId == s.nextRequestId && r.requestIds == s.requestIds)
      && (!s.started && ready ==>
            && r.nextRequestId == s.nextRequestId + 2 * |s.tracks|
            && forall k :: 0 <= k < |order| ==> r.tracks[order[k]].requestId == s.nextRequestId + 2 * k)
  {
    hide Orchestration.HandledAll, Orchestration.RequestedAll, Orchestration.Order;
    var h := Orchestration.HandledAll(s, ms);
    var order := Orchestration.Order(h.tracks);
    OrchestrationLaws.MessagesOnlySetAliases(s, ms);
    OrchestrationLaws.OrderIsPermutation(h.tracks);
    OrchestrationLaws.RequestedForm(h.(started := true), order, jwt, |order|);
    OrchestrationLaws.RequestedIds(h.(started := true), order, jwt, |order|);
  }

  class SessionManager {
    const connection: Connection
    const signalling: Orchestration.Signalling
    /** The ring buffers of the outbound audio tracks. */
    const rings: seq<RingBuffer>
    /** What the current transport says of itself. */
    var transportState: Report

    ghost predicate Valid()
      reads this, signalling, rings, set r | r in rings :: r.data
    {
      signalling.Valid() && forall r :: r in rings ==> r.Valid()
    }

    constructor (connection: Connection, signalling: Orchestration.Signalling, rings: seq<RingBuffer>)
      ensures this.connection == connection && this.signalling == signalling && this.rings == rings
      ensures transportState == Down
    {
      this.connection, this.signalling, this.rings, transportState := connection, signalling, rings, Down;
    }

    ghost predicate AllFlushed()
      requires Valid()
      reads this, signalling, rings, set r | r in rings :: r.data
    {
      forall r :: r in rings ==> r.Contents() == []
    }

    /** Discards stale audio. */
    method FlushRings()
      requires Valid()
      modifies rings
      ensures Valid() && AllFlushed()
    {
      for i := 0 to |rings|
        invariant Valid()
        invariant forall j :: 0 <= j < i ==> rings[j].Contents() == []
      {
        rings[i].Flush();
      }
    }

    /** A connect() that is not refused dials a new transport. */
    method Connect(urlOk: bool, initFails: bool, now: nat)
      requires Valid()
      modifies this`transportState, connection
      ensures Valid()
      ensures connection.View() == AfterConnect(old(connection.View()), urlOk, initFails, now)
      ensures transportState == if urlOk && !Busy(old(connection.View())) then Dialing else old(transportState)
    {
      hide AfterConnect;
      if urlOk && !Busy(connection.View()) {
        transportState := Dialing;
      }
      connection.Connect(urlOk, initFails, now);
    }

    /** An attempt within the limit resets the protocol state and flushes the rings before the new dial. */
    method AttemptReconnect(initFails: bool, now: nat)
      requires Valid()
      modifies this, connection, signalling, rings
      ensures Valid()
      ensures connection.View() == AfterAttempt(old(connection.View()), initFails, now)
      ensures if WithinLimit(old(connection.View())) then
                signalling.View() == Orchestration.AfterReset(old(signalling.View())) && AllFlushed()
                && transportState == Dialing
              else
                signalling.View() == old(signalling.View()) && transportState == old(transportState)
                && forall r :: r in rings ==> r.Contents() == old(r.Contents())
    {
      hide AfterAttempt;
      var within := Bumped(connection.reconnectAttempt) <= connection.config.maxAttempts;
      if within {
        signalling.ResetMoqState();
        FlushRings();
        transportState := Dialing;
      }
      connection.AttemptReconnect(initFails, now);
    }

    /** Unless everything is stopped already, disconnect() stops the connection, forgets the session and flushes. */
    method Disconnect(now: nat)
      requires Valid()
      modifies this, connection, signalling, rings
      ensures Valid()
      ensures connection.View() == AfterDisconnect(old(connection.View()), now)
      ensures if Stopped(old(connection.View())) then
                signalling.View() == old(signalling.View())
                && forall r :: r in rings ==> r.Contents() == old(r.Contents())
              else
                signalling.View() == Orchestration.AfterReset(old(signalling.View())) && AllFlushed()
    {
      hide AfterDisconnect;
      var stopped := connection.state == Disconnected && !connection.sessionRunning && !connection.hasTransport;
      connection.Disconnect(now);
      if !stopped {
        signalling.ResetMoqState();
        FlushRings();
      }
    }

    /** Dispatches the messages, and makes the requests on a ready transport that has not had them. */
    method Drain(ms: seq<Framing.Message>, host: nat -> seq<Wire.KvpParam>)
      requires Valid()
      modifies signalling
      ensures signalling.Valid() && Orchestration.Routed(old(signalling.View()))
      ensures signalling.jwt == old(signalling.jwt)
      ensures signalling.View() == AfterDrain(old(signalling.View()), ms, transportState == Ready, signalling.jwt)
    {
      hide Orchestration.HandledAll, Orchestration.AfterStart;
      signalling.HandleControlMessages(ms);
      if !signalling.orchestrationStarted && transportState == Ready {
        signalling.StartOrchestration(host);
      }
    }

    /**
     * A turn of the session thread: the timer check, then what the transport delivers, then the requests once it is
     * ready. Reports touch only the connection and messages only the protocol state, so their order does not matter.
     */
    method SessionTurn(initFails: bool, rs: seq<Report>, ms: seq<Framing.Message>, now: nat,
                       host: nat -> seq<Wire.KvpParam>)
      requires Valid() && connection.sessionRunning
      modifies this, connection, signalling, rings
      ensures Valid()
      ensures connection.View() == Events(Pass(old(connection.View()), initFails, now), rs, now)
      ensures var before := old(connection.View());
        var reset := Due(before, now) && WithinLimit(before);
        var s := if reset then Orchestration.AfterReset(old(signalling.View())) else old(signalling.View());
        && Orchestration.Routed(s)
        && (reset ==> AllFlushed())
        && transportState == (if Pass(before, initFails, now).hasTransport && rs != [] then rs[|rs| - 1]
                              else if reset then Dialing
                              else old(transportState))
        && signalling.View() ==
           if Pass(before, initFails, now).hasTransport then
             AfterDrain(s, ms, transportState == Ready, signalling.jwt)
           else s
    {
      hide AfterAttempt, Events, AfterDrain;
      if connection.reconnecting && now >= connection.reconnectDeadline {
        AttemptReconnect(initFails, now);
      }
      var live := connection.hasTransport;
      connection.ProcessReports(rs, now);
      if live {
        transportState := LastReport(transportState, rs);
        Drain(ms, host);
      }
    }
  }
}
