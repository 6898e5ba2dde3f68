/** Connecting to the upstream: the race between the connect, its timeout and cancellation.

    The kernel is seen through what it still owes: `connectOut`, `timeoutOut` and `cancelsOut` are
    the completions that will arrive, in any order. */
module ProxyConnectors {
  import opened Bytes
  import opened ProxyBridges

  const ECANCELED: int := 125

  /** What the result callback was told. */
  datatype Outcome = Outcome(success: bool, timeout: bool)

  function Count(b: bool): nat { if b then 1 else 0 }

  class ProxyConnector {
    const bridge: ProxyBridge
    const withTimeout: bool
    const willing: bool                 // the kernel takes every request to cancel
    var pendingOps: int
    var connectPending: bool
    var timeoutArmed: bool
    var activeConnect: bool
    var activeTimeout: bool
    var socket: bool
    var finished: bool
    var finishedNotified: bool
    var resultNotified: bool
    var selfRef: bool

    // The worker's books: is the connector in its table, and how many does it count as live.
    var registered: bool
    var live: int

    // The completions the kernel still owes.
    var connectOut: bool
    var timeoutOut: bool
    var cancelsOut: nat

    ghost var started: bool
    ghost var finishedCalls: nat
    ghost var outcomes: seq<Outcome>
    ghost var session: Option<Peer>

    ghost function Outstanding(): nat
      reads this
    {
      Count(connectOut) + Count(timeoutOut) + cancelsOut
    }

    /** The counter and the event pointers agree with the kernel: no pointer outlives its event. */
    ghost predicate Counted()
      reads this
    {
      && pendingOps == Outstanding()
      && connectPending == activeConnect == connectOut
      && activeTimeout == timeoutOut
      && (timeoutArmed ==> timeoutOut)
    }

    /** The race is decided once: as long as it is open the connect is outstanding and nobody has
        been told anything; then the finished callback has run once and either a session was made,
        or the bridge is closed. */
    ghost predicate Decided(closed: bool)
      reads this
    {
      && finishedNotified == finished && finishedCalls == Count(finished)
      && resultNotified == (outcomes != []) && |outcomes| <= 1
      && (started && !finished ==> connectOut && outcomes == [] && session == None && socket)
      && (finished ==> !socket && (session == None ==> closed))
      && (session.Some? <==> outcomes == [Outcome(true, false)])
      && (started ==> registered == !finished && live == Count(!finished))
    }

    /** The connector keeps itself alive exactly as long as the kernel still owes a completion. */
    ghost predicate Own(closed: bool)
      reads this
    {
      && Counted() && Decided(closed)
      && (selfRef <==> Outstanding() > 0)
      && (!started ==> Outstanding() == 0 && !finished && outcomes == [] && session == None && !socket)
      && (!started ==> !registered)
    }

    /** Its session, if there is one, is the bridge's. */
    ghost predicate Joined()
      reads this, bridge
    {
      session.Some? ==> session.value in bridge.attached
    }

    ghost predicate Valid()
      reads this, bridge
    {
      Own(bridge.closed) && Joined() && bridge.Valid()
    }

    constructor (bridge: ProxyBridge, withTimeout: bool, willing: bool)
      requires bridge.Valid()
      ensures Valid() && !started && this.bridge == bridge && !registered && live == 0
      ensures this.withTimeout == withTimeout && this.willing == willing
    {
      this.bridge, this.withTimeout, this.willing := bridge, withTimeout, willing;
      pendingOps := 0;
      connectPending, timeoutArmed, activeConnect, activeTimeout := false, false, false, false;
      socket, finished, finishedNotified, resultNotified, selfRef := false, false, false, false, false;
      registered, live := false, 0;
      started, connectOut, timeoutOut, cancelsOut := false, false, false, 0;
      finishedCalls, outcomes, session := 0, [], None;
    }

    method MaybeRelease()
      modifies this`selfRef
      ensures selfRef == (old(selfRef) && pendingOps != 0)
    {
      if pendingOps == 0 {
        selfRef := false;
      }
    }

    /** The finished callback takes the connector out of the worker's books. */
    method NotifyFinished()
      modifies this`finishedNotified, this`finishedCalls, this`registered, this`live
      ensures finishedNotified
      ensures finishedCalls == old(finishedCalls) + Count(!old(finishedNotified))
      ensures live == old(live) - Count(!old(finishedNotified))
      ensures registered == (old(registered) && old(finishedNotified))
    {
      if finishedNotified {
        return;
      }
      finishedNotified := true;
      finishedCalls := finishedCalls + 1;
      live := live - 1;
      registered := false;
    }

    method NotifyConnectResult(success: bool, timeout: bool)
      modifies this`resultNotified, this`outcomes
      ensures resultNotified
      ensures outcomes == if old(resultNotified) then old(outcomes)
                          else old(outcomes) + [Outcome(success, timeout)]
    {
      if resultNotified {
        return;
      }
      resultNotified := true;
      outcomes := outcomes + [Outcome(success, timeout)];
    }

    /** Asks the kernel to cancel an operation, which may be refused. */
    method RequestCancel()
      modifies this`pendingOps, this`cancelsOut
      ensures pendingOps - cancelsOut == old(pendingOps - cancelsOut) && cancelsOut >= old(cancelsOut)
      ensures willing ==> cancelsOut == old(cancelsOut) + 1
    {
      var ok: bool := *;
      if ok || willing {
        pendingOps := pendingOps + 1;
        cancelsOut := cancelsOut + 1;
      }
    }

    /** A socket, a connect and, if there is a limit, a timeout; without the first two nothing is
        left outstanding. Which of them are to be had is the kernel's answer. */
    method Start(created: bool, prepared: bool, armed: bool) returns (ok: bool)
      requires Counted() && Outstanding() == 0 && !socket
      modifies this`pendingOps, this`connectPending, this`activeConnect, this`timeoutArmed
      modifies this`activeTimeout, this`selfRef, this`connectOut, this`timeoutOut, this`socket
      ensures Counted() && (selfRef <==> Outstanding() > 0)
      ensures ok == connectOut == socket && (!ok ==> Outstanding() == 0)
      ensures (ok <==> created && prepared) && (timeoutOut <==> ok && withTimeout && armed)
    {
      selfRef := true;
      if !created {
        selfRef := false;
        return false;
      }
      socket := true;
      pendingOps := pendingOps + 1;
      connectPending := true;
      if !prepared {
        pendingOps := pendingOps - 1;
        connectPending := false;
        socket := false;
        selfRef := false;
        return false;
      }
      activeConnect, connectOut := true, true;
      if withTimeout {
        if armed {
          pendingOps := pendingOps + 1;
          timeoutArmed, activeTimeout, timeoutOut := true, true, true;
        }
      }
      ok := true;
    }

    /** What the server does for one downstream connection: either the race is on, or the connector
        is off the books and the bridge closed. */
    method StartConnector(created: bool, prepared: bool, armed: bool) returns (ok: bool)
      requires Valid() && !started && !registered && live == 0
      modifies this, bridge`closed, bridge`pending, bridge`pendingBytes, bridge`disconnecting
      modifies bridge`toldNow
      ensures Valid() && started == ok && (ok <==> created && prepared)
      ensures ok ==> (timeoutOut <==> withTimeout && armed) && unchanged(bridge)
      ensures ok ==> live == 1 && registered && connectOut
      ensures !ok ==> live == 0 && !registered && bridge.closed && !selfRef
    {
      ok := Launch(created, prepared, armed);
      if !ok {
        bridge.ClosePair();
      }
    }

    method Launch(created: bool, prepared: bool, armed: bool) returns (ok: bool)
      requires exists closed :: Own(closed)
      requires !started && !registered && live == 0
      modifies this`pendingOps, this`connectPending, this`activeConnect, this`timeoutArmed
      modifies this`activeTimeout, this`selfRef, this`connectOut, this`timeoutOut, this`socket
      modifies this`registered, this`live, this`started
      ensures forall closed :: Own(closed)
      ensures started == ok == connectOut == registered && live == Count(ok) && (!ok ==> !selfRef)
      ensures (ok <==> created && prepared) && (timeoutOut <==> ok && withTimeout && armed)
    {
      registered := true;
      live := live + 1;
      ok := Start(created, prepared, armed);
      started := ok;
      if !ok {
        registered := false;
        live := live - 1;
      }
    }

    method CancelConnect()
      requires Counted()
      modifies this`pendingOps, this`cancelsOut
      ensures Counted() && Outstanding() >= old(Outstanding())
      ensures willing ==> cancelsOut == old(cancelsOut) + Count(connectOut)
    {
      if connectPending && activeConnect {
        RequestCancel();
      }
    }

    method CancelTimeout()
      requires Counted()
      modifies this`pendingOps, this`cancelsOut, this`timeoutArmed
      ensures Counted() && !timeoutArmed && Outstanding() >= old(Outstanding())
      ensures willing ==> cancelsOut == old(cancelsOut) + Count(old(timeoutArmed))
    {
      if timeoutArmed && activeTimeout {
        RequestCancel();
        timeoutArmed := false;
      }
    }

    /** Inside a handler, before anybody has been told anything. */
    ghost predicate Untold()
      reads this
    {
      && Counted() && started && registered && live == 1 && selfRef
      && !finishedNotified && finishedCalls == 0
      && !resultNotified && outcomes == [] && session == None
    }

    /** The outcome is settled and not yet announced. */
    ghost predicate Settled()
      reads this
    {
      && Counted() && started && registered && live == 1 && selfRef
      && finished && !finishedNotified && finishedCalls == 0 && !socket
      && resultNotified == (outcomes != []) && |outcomes| <= 1
      && (session.Some? <==> outcomes == [Outcome(true, false)])
    }

    /** The race is over; only completions remain. */
    method Finish()
      modifies this`finishedNotified, this`finishedCalls, this`registered, this`live, this`selfRef
      ensures old(Settled()) ==> Own(true) && (session.Some? ==> Own(false))
      ensures live == old(live) - Count(!old(finishedNotified))
    {
      NotifyFinished();
      MaybeRelease();
    }

    /** Ends the race in favour of nobody. The worker's count stays right exactly if the connector is
        still in the worker's table; one that failed to start has been taken off both before. */
    method Cancel()
      requires Valid()
      modifies this, bridge`closed, bridge`pending, bridge`pendingBytes, bridge`disconnecting
      modifies bridge`toldNow
      ensures started ==> Valid()
      ensures started == old(started) && finished && live == old(live) - Count(!old(finished))
      ensures old(live == Count(started && !finished) && !finished) ==> (live >= 0 <==> old(registered))
      ensures old(finished) ==> unchanged(this) && unchanged(bridge)
      ensures !old(finished) ==> bridge.closed && session == None && outcomes == []
      ensures !old(finished) && willing ==>
        cancelsOut == old(cancelsOut) + Count(old(connectOut)) + Count(old(timeoutArmed))
    {
      if !finished {
        Stop();
      }
    }

    /** Ends an open race: the bridge is closed and what is outstanding is withdrawn. */
    method Stop()
      requires Valid() && !finished
      modifies this, bridge`closed, bridge`pending, bridge`pendingBytes, bridge`disconnecting
      modifies bridge`toldNow
      ensures started ==> Valid()
      ensures started == old(started) && finished && live == old(live) - 1
      ensures bridge.closed && session == None && outcomes == []
      ensures willing ==> cancelsOut == old(cancelsOut) + Count(old(connectOut)) + Count(old(timeoutArmed))
    {
      finished := true;
      bridge.ClosePair();
      Withdraw();
    }

    method Withdraw()
      requires Counted()
      modifies this`socket, this`pendingOps, this`cancelsOut, this`timeoutArmed
      modifies this`finishedNotified, this`finishedCalls, this`registered, this`live, this`selfRef
      ensures old(Untold() && finished) ==> Own(true)
      ensures live == old(live) - Count(!old(finishedNotified))
      ensures willing ==> cancelsOut == old(cancelsOut) + Count(connectOut) + Count(old(timeoutArmed))
    {
      socket := false;
      CancelConnect();
      CancelTimeout();
      Finish();
    }

    /** The connect completed. Unless the race is already decided, it is now: the new session is
        started, which may make it leave at once, and given to the bridge; or, if the connect
        failed or the pair is gone, the bridge is closed. */
    method OnConnect(result: int, peer: Peer)
      requires Valid() && started && connectOut && peer !in bridge.disconnecting && peer.role == Upstream
      modifies this, bridge
      ensures Valid() && started && finished && !connectOut
      ensures old(finished) ==>
        unchanged(bridge) && outcomes == old(outcomes) && session == old(session)
      ensures !old(finished) ==> session == if result < 0 || old(bridge.closed) then None else Some(peer)
      ensures !old(finished) ==> outcomes == [Outcome(session.Some?, false)]
      ensures !old(finished) && willing ==> cancelsOut == old(cancelsOut) + Count(old(timeoutArmed))
      ensures session == None ==> bridge.closed
    {
      ConnectArrived();
      if finished {
        MaybeRelease();
        return;
      }
      Decide(result, peer);
    }

    method Decide(result: int, peer: Peer)
      requires Untold() && !finished && Joined() && bridge.Valid() && !connectOut
      requires peer !in bridge.disconnecting && peer.role == Upstream
      modifies this, bridge
      ensures Valid() && started && finished && !connectOut
      ensures session == if result < 0 || old(bridge.closed) then None else Some(peer)
      ensures outcomes == [Outcome(session.Some?, false)]
      ensures willing ==> cancelsOut == old(cancelsOut) + Count(old(timeoutArmed))
    {
      CancelTimeout();
      if result < 0 || bridge.closed {
        bridge.ClosePair();
        GiveUp(false);
      } else {
        Attach(peer);
        Succeed(peer);
      }
    }

    method ConnectArrived()
      requires Counted() && connectOut
      modifies this`pendingOps, this`activeConnect, this`connectPending, this`connectOut
      ensures Counted() && !connectOut
    {
      pendingOps := pendingOps - 1;
      activeConnect, connectPending, connectOut := false, false, false;
    }

    /** Reports the failure and ends the race. */
    method GiveUp(timeout: bool)
      requires Untold()
      modifies this`resultNotified, this`outcomes, this`finished, this`socket
      modifies this`finishedNotified, this`finishedCalls, this`registered, this`live, this`selfRef
      ensures Own(true) && finished && outcomes == [Outcome(false, timeout)] && session == None
    {
      NotifyConnectResult(false, timeout);
      assert outcomes[0] != Outcome(true, false);
      finished := true;
      socket := false;
      Finish();
    }

    /** The socket now belongs to the session. */
    method Succeed(peer: Peer)
      requires Untold()
      modifies this`resultNotified, this`outcomes, this`finished, this`socket, this`session
      modifies this`finishedNotified, this`finishedCalls, this`registered, this`live, this`selfRef
      ensures Own(true) && Own(false) && finished && session == Some(peer)
    {
      socket := false;
      session := Some(peer);
      NotifyConnectResult(true, false);
      finished := true;
      Finish();
    }

    method Attach(peer: Peer)
      requires bridge.Valid() && !bridge.closed
      requires peer !in bridge.disconnecting && peer.role == Upstream
      modifies bridge
      ensures bridge.Valid() && peer in bridge.attached
    {
      bridge.Appear(peer);
      if * {
        bridge.OnPeerDisconnected(peer);
      }
      bridge.AttachUpstream(Some(peer));
    }

    /** The timeout completed: it decides the race unless it was cancelled or came too late. */
    method OnTimeout(result: int)
      requires Valid() && started && timeoutOut
      modifies this, bridge`closed, bridge`pending, bridge`pendingBytes, bridge`disconnecting
      modifies bridge`toldNow
      ensures Valid() && started && !timeoutOut
      ensures old(finished) || result == -ECANCELED ==>
        && unchanged(bridge) && finished == old(finished)
        && outcomes == old(outcomes) && session == old(session)
      ensures !old(finished) && result != -ECANCELED ==>
        finished && bridge.closed && outcomes == [Outcome(false, true)]
      ensures !old(finished) && result != -ECANCELED && willing ==> cancelsOut == old(cancelsOut) + 1
    {
      TimeoutArrived();
      if finished || result == -ECANCELED {
        MaybeRelease();
        return;
      }
      Expire();
    }

    /** Ends an open race as a timeout. */
    method Expire()
      requires Untold() && Joined() && bridge.Valid() && !timeoutOut && connectOut
      modifies this, bridge`closed, bridge`pending, bridge`pendingBytes, bridge`disconnecting
      modifies bridge`toldNow
      ensures Valid() && started && finished && bridge.closed && outcomes == [Outcome(false, true)] && !timeoutOut
      ensures willing ==> cancelsOut == old(cancelsOut) + 1
    {
      bridge.ClosePair();
      CancelConnect();
      GiveUp(true);
    }

    method TimeoutArrived()
      requires Counted() && timeoutOut
      modifies this`pendingOps, this`activeTimeout, this`timeoutArmed, this`timeoutOut
      ensures Counted() && !timeoutOut
    {
      pendingOps := pendingOps - 1;
      activeTimeout, timeoutArmed, timeoutOut := false, false, false;
    }

    method OnCancel()
      requires Valid() && started && cancelsOut > 0
      modifies this`pendingOps, this`cancelsOut, this`selfRef
      ensures Valid() && cancelsOut == old(cancelsOut) - 1
    {
      pendingOps := pendingOps - 1;
      cancelsOut := cancelsOut - 1;
      MaybeRelease();
    }

    /** Completions, a cancellation and whatever the bridge's sessions do, in any order. */
    method Step()
      requires Valid() && started
      modifies this, bridge
      ensures Valid() && started
      ensures old(finished) ==> finished && outcomes == old(outcomes) && session == old(session)
    {
      var result: int, peer: Peer := *, *;
      if
      case connectOut && peer !in bridge.disconnecting && peer.role == Upstream => OnConnect(result, peer);
      case timeoutOut => OnTimeout(result);
      case cancelsOut > 0 => OnCancel();
      case true => Cancel();
      case true => BridgeStep();
    }

    /** The sessions use the bridge. */
    method BridgeStep()
      requires Valid()
      modifies bridge
      ensures Valid()
    {
      var peer: Peer, r: Role, ofPeer: bool := *, *, *;
      var d, u := Peer(Downstream, 0), Peer(Upstream, 0);
      if ofPeer {
        bridge.PeerEvent(peer, false, d, u);
      } else {
        bridge.DataEvent(r, false, d, u);
      }
    }

    /** Every run: the finished callback has been called at most once, once everything the kernel
        owes has arrived it has been called exactly once, and then the connector has let go of
        itself and the pair is either joined or closed. */
    method Run(steps: nat)
      requires Valid() && started
      modifies this, bridge
      ensures Valid() && started && finishedCalls <= 1
      ensures old(finished) ==> finished && outcomes == old(outcomes) && session == old(session)
      ensures Outstanding() == 0 ==>
        && finishedCalls == 1 && !selfRef && !socket && live == 0 && !registered
        && (bridge.closed || (session.Some? && session.value in bridge.attached))
      ensures selfRef <==> Outstanding() > 0
    {
      for i := 0 to steps
        invariant Valid() && started
        invariant old(finished) ==> finished && outcomes == old(outcomes) && session == old(session)
      {
        Step();
      }
    }
  }

  /** A server that is stopping cancels every connector it found in the worker's table. One that it
      found there just before its start failed is taken off the live count twice. */
  method CancelledAfterFailedStart(c: ProxyConnector)
    requires c.Valid() && !c.started && !c.registered && c.live == 0
    modifies c, c.bridge
    ensures c.live == -1
  {
    var ok := c.StartConnector(false, false, false);
    c.Cancel();
  }
}
