/** The session engine on its owner thread.

    Every method below is one function of the source. The kernel and the application are the
    environment: a submission may fail (`:= *`), completions carry any result the kernel may
    produce, and every callback may call back into the session any finite number of times.
    Ghost fields record what was accepted, acknowledged, received and delivered. */
module Sessions {
  import opened Bytes
  import opened SendQueues
  import opened SendState

  const MAX_SEND_IOVECS: nat := 1024
  const ENOBUFS: int := 105

  datatype State = Open | Closing | Draining | Closed

  function Rank(s: State): nat {
    match s case Open => 0 case Closing => 1 case Draining => 2 case Closed => 3
  }

  datatype SendResult = Sent | Disconnected | SendFailed

  datatype Config = Config(
    highDepth: nat, lowDepth: nat, highBytes: nat, lowBytes: nat,
    pauseRecvOnBackpressure: bool, disconnectOnHighWatermark: bool, disconnectDelay: nat,
    pausedRecvLimit: nat)
  {
    /** Each configured high watermark is strictly above its low one. */
    ghost predicate Hysteresis() {
      && (highDepth != 0 ==> lowDepth < highDepth)
      && (highBytes != 0 ==> lowBytes < highBytes)
    }

    ghost predicate High(depth: nat, bytes: nat) {
      || (highDepth != 0 && depth >= highDepth)
      || (highBytes != 0 && bytes >= highBytes)
    }

    ghost predicate Low(depth: nat, bytes: nat) {
      && (highDepth == 0 || depth <= lowDepth)
      && (highBytes == 0 || bytes <= lowBytes)
    }
  }

  lemma AckMoves(acked: seq<Byte>, inFlight: seq<Byte>, sent: nat, rest: seq<Byte>)
    requires sent <= |inFlight|
    ensures acked + inFlight + rest == (acked + inFlight[..sent]) + inFlight[sent..] + rest
  {
  }

  /** A batch counts the same in flight as held. */
  lemma Fly(acked: seq<Byte>, batch: seq<Byte>, queued: seq<Byte>)
    ensures acked + [] + batch + queued == acked + batch + [] + queued
  {
  }

  class Session {
    const config: Config
    const willing: bool                 // the kernel takes every submission
    const queue: SendQueue
    var state: State
    var pendingIo: int
    var pendingApp: int
    var active: Option<SendOp>          // active_send_ev_
    var recvArmed: bool                 // active_recv_ev_ is set
    var disconnectAfterFlush: bool
    var recvPaused: bool
    var bpActive: bool
    var pausedQueue: seq<seq<Byte>>
    var pausedBytes: nat
    var appWork: bool                   // what HasPendingAppWork() answers
    var callsLeft: nat                  // how many more calls the application makes in this event

    var started: bool
    var disconnectOps: nat        // shutdown operations the kernel still holds
    var cancelOps: nat            // cancel operations the kernel still holds
    ghost var uncounted: nat            // final completions delivered but not yet subtracted
    ghost var disconnectedCalls: nat    // runs of OnDisconnected
    ghost var accepted: seq<Byte>       // everything SendOnOwner accepted
    ghost var acked: seq<Byte>          // everything the kernel reported as sent
    ghost var held: seq<seq<Byte>>      // a batch drained from the queue and not yet submitted
    ghost var received: seq<seq<Byte>>   // chunks the kernel delivered
    ghost var delivered: seq<seq<Byte>>  // chunks handed to the application
    ghost var bpPaused: bool            // the last pause came from backpressure
    ghost var bpTold: bool              // what OnBackpressure was last called with

    // ---------------------------------------------------------------- invariants

    /** Operations the kernel still owes a final completion for. */
    ghost function Outstanding(): nat
      reads this`active, this`recvArmed, this`disconnectOps, this`cancelOps
    {
      (if active.Some? then 1 else 0) + (if recvArmed then 1 else 0) + disconnectOps + cancelOps
    }

    ghost function InFlight(): seq<Byte>
      reads this`active
    {
      if active.Some? && WellFormed(active.value.iovs, active.value.bufs)
      then Unsent(active.value.iovs, active.value.bufs) else []
    }

    ghost predicate IsHigh()
      reads queue`pending, queue`pendingBytes
    {
      config.High(|queue.pending|, queue.pendingBytes)
    }

    ghost predicate IsLow()
      reads queue`pending, queue`pendingBytes
    {
      config.Low(|queue.pending|, queue.pendingBytes)
    }

    ghost predicate SendShape()
      reads this`state, this`active, this`held, queue
    {
      && queue.Valid()
      && (active.Some? ==> WellFormed(active.value.iovs, active.value.bufs) && queue.registered)
      && (queue.pending != [] ==> queue.registered)
      && (held != [] ==> queue.registered && active.None?)
      && (state == Open && queue.registered && active.None? && held == [] ==> queue.pending != [])
    }

    /** Every accepted byte is acknowledged, in flight, held or queued, in that order. */
    ghost predicate SendConserved()
      reads this`state, this`accepted, this`acked, this`active, this`held, queue`pending
    {
      state == Open ==> accepted == acked + InFlight() + Flatten(held) + Flatten(queue.pending)
    }

    ghost predicate SendInv()
      reads this`state, this`accepted, this`acked, this`active, this`held, queue
    {
      SendShape() && SendConserved()
    }

    /** Every received chunk is delivered or waits behind a pause, in that order. */
    ghost predicate RecvInv()
      reads this`state, this`delivered, this`pausedQueue, this`received, this`pausedBytes, this`bpPaused
    {
      && (state == Open ==> delivered + pausedQueue == received)
      && pausedBytes == |Flatten(pausedQueue)|
      && (config.pausedRecvLimit != 0 ==> pausedBytes <= config.pausedRecvLimit)
      && (bpPaused ==> config.pauseRecvOnBackpressure)
    }

    ghost predicate IoInv()
      reads this`state, this`pendingIo, this`pendingApp, this`uncounted, this`disconnectedCalls,
            this`active, this`recvArmed, this`disconnectOps, this`cancelOps
    {
      && pendingIo == Outstanding() + uncounted
      && pendingApp >= 0
      && (state == Open ==> disconnectOps == 0 && cancelOps == 0)
      && disconnectedCalls == (if state == Closed then 1 else 0)
      && (state == Closed ==> pendingIo == 0)
    }

    /** A closing session still waits for something. */
    ghost predicate Waiting()
      reads this`state, this`pendingIo, this`pendingApp
    {
      state == Closing || state == Draining ==> pendingIo > 0 || pendingApp > 0
    }

    /** The watermarks, and the application knows on which side the queue is. */
    ghost predicate BackpressureInv()
      reads this`bpActive, this`bpTold, queue`pending, queue`pendingBytes
    {
      Watermarks() && bpTold == bpActive
    }

    ghost predicate Watermarks()
      reads this`bpActive, queue`pending, queue`pendingBytes
    {
      && (bpActive ==> queue.pending != [])
      && (config.Hysteresis() ==> if bpActive then !IsLow() else !IsHigh())
    }

    /** Holds whenever the application may be running. */
    ghost predicate Mid()
      reads this, queue
    {
      SendInv() && RecvInv() && IoInv() && Waiting() && BackpressureInv()
    }

    /** An open session with a send cycle has a send in flight. */
    ghost predicate SendArmed()
      reads this`state, this`active, queue`registered
    {
      state == Open && queue.registered ==> active.Some?
    }

    /** An open, unpaused session has no backlog and, once it is started, an armed receive. */
    ghost predicate RecvReady()
      reads this`state, this`recvPaused, this`pausedQueue, this`recvArmed, this`started
    {
      state == Open && !recvPaused ==> pausedQueue == [] && (started ==> recvArmed)
    }

    /** A pause that backpressure asked for lasts only while backpressure does. */
    ghost predicate PauseJustified()
      reads this`recvPaused, this`bpPaused, this`bpActive
    {
      config.Hysteresis() && recvPaused && bpPaused ==> bpActive
    }

    /** Holds between events. */
    ghost predicate Boundary()
      reads this, queue
    {
      && Mid() && SendArmed() && RecvReady() && PauseJustified()
      && held == [] && uncounted == 0
    }

    /** What every call into the session keeps, whoever makes it. */
    twostate predicate Common()
      reads this, queue
    {
      && Rank(old(state)) <= Rank(state)
      && callsLeft <= old(callsLeft)
      && started == old(started)
      && uncounted == old(uncounted)
      && old(accepted) <= accepted
      && (old(state) != Open ==> accepted == old(accepted))
      && acked == old(acked)
      && received == old(received)
      && |pausedQueue| <= |old(pausedQueue)|
      && (old(RecvReady()) ==> RecvReady())
      && (old(PauseJustified()) ==> PauseJustified())
    }

    /** The application has made no call. */
    twostate predicate Alone()
      reads this`callsLeft
    {
      callsLeft == old(callsLeft)
    }

    /** What is to be sent, and the wish to close, are as they were. */
    twostate predicate SameSending()
      reads this, queue
    {
      && unchanged(queue) && accepted == old(accepted) && active == old(active)
      && disconnectAfterFlush == old(disconnectAfterFlush) && appWork == old(appWork)
    }

    /** Reading and backpressure are as they were. */
    twostate predicate SameReading()
      reads this
    {
      && recvPaused == old(recvPaused) && pausedQueue == old(pausedQueue) && delivered == old(delivered)
      && recvArmed == old(recvArmed) && bpActive == old(bpActive)
    }

    /** Reading goes on: what was kept back is delivered, in order, and the receive is armed. */
    twostate predicate ReadsOn()
      reads this
    {
      !recvPaused && recvArmed && pausedQueue == [] && delivered == old(delivered) + old(pausedQueue)
    }

    /** Left alone, backpressure changes reading only when it changes itself: its end lets reading go
        on if its beginning stopped it. */
    twostate predicate ReadingFollows()
      reads this
    {
      && (Alone() && state == Open && bpActive == old(bpActive) ==> SameReading())
      && (Alone() && state == Open && old(bpActive) && !bpActive && config.pauseRecvOnBackpressure ==> ReadsOn())
    }

    /** In addition, a send cycle in progress is left alone: only the queue may grow. */
    twostate predicate Later()
      reads this, queue
    {
      && Common()
      && held == old(held)
      && (old(state) != Open ==> queue.pending == old(queue.pending))
      && (old(SendArmed()) ==> SendArmed())
      && (old(queue.registered) ==>
            && queue.registered && active == old(active)
            && |old(queue.pending)| <= |queue.pending| && old(queue.pendingBytes) <= queue.pendingBytes)
      && (old(queue.registered && bpActive && !IsLow()) ==> bpActive && !IsLow())
    }

    constructor (config: Config, maxPending: nat, willing: bool)
      ensures Boundary() && !started && state == Open
      ensures this.config == config && this.willing == willing && fresh(queue) && queue.maxPending == maxPending
      ensures accepted == acked == [] && received == delivered == []
      ensures active.None? && queue.pending == []
      ensures !bpActive && !recvPaused && !disconnectAfterFlush && !appWork && !queue.registered
      ensures pendingIo == 0 && pendingApp == 0 && pausedQueue == []
    {
      this.config, this.willing := config, willing;
      queue := new SendQueue(maxPending);
      state, pendingIo, pendingApp := Open, 0, 0;
      active, recvArmed, disconnectAfterFlush := None, false, false;
      recvPaused, bpActive, pausedQueue, pausedBytes := false, false, [], 0;
      appWork, callsLeft := false, 0;
      started, disconnectOps, cancelOps, uncounted, disconnectedCalls := false, 0, 0, 0, 0;
      accepted, acked, held, received, delivered, bpPaused, bpTold := [], [], [], [], [], false, false;
    }

    // ---------------------------------------------------------------- pending I/O and release

    method BeginPendingIo()
      modifies this`pendingIo
      ensures pendingIo == old(pendingIo) + 1
    {
      pendingIo := pendingIo + 1;
    }

    method CompletePendingIo()
      modifies this`pendingIo
      ensures pendingIo == if old(pendingIo) > 0 then old(pendingIo) - 1 else old(pendingIo)
    {
      if pendingIo > 0 {
        pendingIo := pendingIo - 1;
      }
    }

    method MarkClosed()
      requires RecvInv() && SendInv() && IoInv() && state != Closed && state != Open && pendingIo == 0
      modifies this`state, this`disconnectedCalls
      ensures state == Closed && disconnectedCalls == old(disconnectedCalls) + 1
      ensures RecvInv() && SendInv() && IoInv()
    {
      state := Closed;
      disconnectedCalls := disconnectedCalls + 1;
    }

    /** Runs OnDisconnected at most once, and only when nothing is outstanding. */
    method TryRelease()
      requires SendInv() && RecvInv() && IoInv() && BackpressureInv()
      modifies this, queue
      ensures Mid() && Later()
      ensures disconnectedCalls > old(disconnectedCalls) ==>
                old(pendingIo) == 0 && old(pendingApp) == 0 && old(Outstanding()) == 0
      ensures old(state == Open || pendingIo != 0 || pendingApp != 0) ==> unchanged(this) && unchanged(queue)
      ensures Alone() ==> bpActive == old(bpActive) && SameSending()
      decreases callsLeft, 2
    {
      if state == Open || pendingIo != 0 || pendingApp != 0 {
        return;
      }
      if state == Closed {
        return;
      }
      MarkClosed();
      Callback();
    }

    /** Allocates and submits one operation: on success the kernel holds it and it is counted,
        otherwise the count is back where it was. */
    method Submit() returns (ok: bool)
      requires pendingIo >= 0
      modifies this`pendingIo
      ensures pendingIo == old(pendingIo) + if ok then 1 else 0
      ensures willing ==> ok
    {
      var hasMemory: bool := *;
      if !hasMemory && !willing {
        return false;
      }
      BeginPendingIo();
      ok := *;
      ok := ok || willing;
      if !ok {
        CompletePendingIo();
      }
    }

    /** The best-effort cancel of an armed receive. */
    method CancelRecv()
      requires pendingIo >= 0
      modifies this`pendingIo, this`cancelOps
      ensures pendingIo - cancelOps == old(pendingIo - cancelOps) && cancelOps >= old(cancelOps)
      ensures !recvArmed ==> cancelOps == old(cancelOps)
      ensures willing && recvArmed ==> cancelOps == old(cancelOps) + 1
    {
      if recvArmed {
        var ok := Submit();
        if ok {
          cancelOps := cancelOps + 1;
        }
      }
    }

    /** Leaves kOpen, submits the shutdown and, best effort, the cancel of an armed receive. */
    method BeginClose()
      requires state == Open && pendingIo >= 0
      modifies this`state, this`pendingIo, this`disconnectOps, this`cancelOps
      ensures state == Closing || state == Draining
      ensures pendingIo - disconnectOps - cancelOps == old(pendingIo - disconnectOps - cancelOps)
      ensures state == Draining <==> disconnectOps == old(disconnectOps) + 1
      ensures state == Closing ==> disconnectOps == old(disconnectOps) && cancelOps == old(cancelOps)
      ensures pendingIo >= old(pendingIo)
      ensures willing ==> state == Draining && cancelOps == old(cancelOps) + if recvArmed then 1 else 0
    {
      state := Closing;
      var ok := Submit();
      if ok {
        disconnectOps := disconnectOps + 1;
        CancelRecv();
        state := Draining;
      }
    }

    method DisconnectOnOwner()
      requires Mid()
      modifies this, queue
      ensures Mid() && Later()
      ensures state != Open
      ensures accepted == old(accepted) && queue.pending == old(queue.pending)
      ensures Alone() ==> bpActive == old(bpActive) && SameSending()
      ensures old(state) == Open && willing ==> ShuttingDown()
      decreases callsLeft, 3
    {
      if state != Open {
        return;
      }
      StartClosing();
      TryRelease();
    }

    /** The kernel has the shutdown, and the cancel of a receive that is armed. */
    ghost predicate ShuttingDown()
      reads this`state, this`disconnectOps, this`cancelOps, this`recvArmed
    {
      state == Draining && disconnectOps == 1 && cancelOps == if recvArmed then 1 else 0
    }

    /** The same, with what a session keeps whose release is still to be tried. */
    method StartClosing()
      requires SendInv() && RecvInv() && IoInv() && BackpressureInv() && state == Open
      modifies this`state, this`pendingIo, this`disconnectOps, this`cancelOps
      ensures SendInv() && RecvInv() && IoInv() && BackpressureInv()
      ensures state == Closing || state == Draining
      ensures willing ==> ShuttingDown()
    {
      BeginClose();
    }

    // ---------------------------------------------------------------- the application

    /** Any callback: the application makes any number of calls, then returns. */
    method Callback()
      requires Mid()
      modifies this, queue
      ensures Mid() && Later()
      ensures Alone() ==> unchanged(this) && unchanged(queue)
      decreases callsLeft, 1
    {
      while callsLeft > 0
        invariant Mid() && Later()
        invariant Alone() ==> unchanged(this) && unchanged(queue)
        decreases callsLeft
      {
        var done: bool := *;
        if done {
          return;
        }
        NextCall();
      }
    }

    method NextCall()
      requires Mid() && callsLeft > 0
      modifies this, queue
      ensures Mid() && Later() && callsLeft < old(callsLeft)
      decreases callsLeft, 0
    {
      callsLeft := callsLeft - 1;
      AppCall();
    }

    /** Any one call the application may make. */
    method AppCall()
      requires Mid()
      modifies this, queue
      ensures Mid() && Later()
      decreases callsLeft, 9
    {
      var choice: nat := *;
      if choice == 0 {
        var buf: seq<Byte> := *;
        var _ := SendOnOwner(buf);
      } else if choice == 1 {
        DisconnectOnOwner();
      } else if choice == 2 {
        DisconnectAfterFlush();
      } else if choice == 3 {
        PauseRecv();
      } else if choice == 4 {
        ResumeRecv();
      } else if choice == 5 {
        BeginAppIo();
      } else if choice == 6 {
        EndAppIo();
      } else {
        appWork := *;
      }
    }

    method BeginAppIo()
      requires Mid()
      modifies this`pendingApp
      ensures Mid() && Later()
      ensures pendingApp == old(pendingApp) + 1
    {
      pendingApp := pendingApp + 1;
    }

    method EndAppIo()
      requires Mid()
      modifies this, queue
      ensures Mid() && Later()
      ensures state == Open && disconnectAfterFlush && active.None? && queue.pending == [] ==> appWork
      ensures old(state) == Open ==>
        (state != Open <==> old(disconnectAfterFlush && active.None? && queue.pending == [] && !appWork))
      decreases callsLeft, 8
    {
      LowerApp();
      TryDisconnectAfterFlush();
      TryRelease();
    }

    method LowerApp()
      requires IoInv()
      modifies this`pendingApp
      ensures IoInv() && pendingApp == if old(pendingApp) > 0 then old(pendingApp) - 1 else 0
    {
      if pendingApp > 0 {
        pendingApp := pendingApp - 1;
      }
    }

    method PauseRecv()
      requires Mid()
      modifies this`recvPaused, this`bpPaused
      ensures Mid() && Later()
      ensures old(state) == Open ==> recvPaused
    {
      if state != Open {
        return;
      }
      recvPaused := true;
      bpPaused := false;
    }

    method ResumeRecv()
      requires Mid()
      modifies this, queue
      ensures Mid() && Later()
      ensures RecvReady()
      ensures old(state) == Open && state == Open && Alone() ==> ReadsOn()
      ensures old(state) == Open && willing && Alone() ==> state == Open
      decreases callsLeft, 8
    {
      if state != Open {
        return;
      }
      ResumeReading();
    }

    method ResumeReading()
      requires Mid()
      modifies this, queue
      ensures Mid() && Later() && RecvReady() && PauseJustified()
      ensures state == Open && Alone() ==> ReadsOn()
      ensures old(state) == Open && willing && Alone() ==> state == Open
      ensures Alone() ==> bpActive == old(bpActive) && SameSending()
      decreases callsLeft, 5, 1
    {
      Unpause();
      DrainPausedRecv();
      RegisterRecv();
    }

    method Unpause()
      requires Mid()
      modifies this`recvPaused, this`bpPaused
      ensures Mid() && !recvPaused && !bpPaused
    {
      recvPaused := false;
      bpPaused := false;
    }

    // ---------------------------------------------------------------- flush, then close

    method DisconnectAfterFlush()
      requires Mid()
      modifies this, queue
      ensures Mid() && Later()
      ensures old(state) == Open ==>
                (state != Open <==> old(active.None? && queue.pending == [] && !appWork))
      ensures old(state) == Open && state != Open ==>
                accepted == old(accepted) == old(acked) + Flatten(old(held))
      ensures old(state) == Open && state != Open ==> (old(held) == [] <==> !old(queue.registered))
      ensures old(state) == Open && state != Open && !old(queue.registered) ==> accepted == acked
      ensures state != Open ==> queue.pending == old(queue.pending)
      decreases callsLeft, 8
    {
      if state != Open {
        return;
      }
      disconnectAfterFlush := true;
      TryDisconnectAfterFlush();
    }

    /** The flush condition looks at the in-flight send and the queue. What it closes has every
        accepted byte acknowledged if no send cycle is registered with the queue; if one is, a batch
        is between drain and submit, and its bytes are the ones missing. */
    method TryDisconnectAfterFlush()
      requires SendInv() && RecvInv() && IoInv() && BackpressureInv()
      modifies this, queue
      ensures SendInv() && RecvInv() && IoInv() && BackpressureInv() && Later()
      ensures old(state == Open || Waiting()) ==> Waiting()
      ensures old(state) == Open ==>
                (state != Open <==>
                 old(disconnectAfterFlush && active.None? && queue.pending == [] && !appWork))
      ensures old(state) == Open && state != Open ==>
                accepted == old(accepted) == old(acked) + Flatten(old(held))
      ensures old(state) == Open && state != Open ==> (old(held) == [] <==> !old(queue.registered))
      ensures old(state) == Open && state != Open && !old(queue.registered) ==> accepted == acked
      ensures state != Open ==> queue.pending == old(queue.pending)
      ensures old(state) != Open || state == Open ==> unchanged(this) && unchanged(queue)
      ensures Alone() ==> bpActive == old(bpActive) && SameSending()
      decreases callsLeft, 4
    {
      if !disconnectAfterFlush || state != Open {
        return;
      }
      if active.Some? || |queue.pending| != 0 || appWork {
        return;
      }
      DisconnectOnOwner();
    }

    // ---------------------------------------------------------------- sending

    method Enqueue(buf: seq<Byte>) returns (r: PushResult)
      requires SendInv() && state == Open
      modifies this`accepted, queue
      ensures SendInv()
      ensures r.overflowed <==> |old(queue.pending)| >= queue.maxPending
      ensures accepted == if r.overflowed then old(accepted) else old(accepted) + buf
      ensures queue.pending == if r.overflowed then old(queue.pending) else old(queue.pending) + [buf]
      ensures queue.pendingBytes == old(queue.pendingBytes) + if r.overflowed then 0 else |buf|
      ensures queue.registered == (old(queue.registered) || !r.overflowed)
      ensures r.needsRegister <==> !old(queue.registered) && !r.overflowed
      ensures r.needsRegister ==> |queue.pending| == 1
    {
      ghost var sent, waiting := acked + InFlight() + Flatten(held), Flatten(queue.pending);
      assert sent + waiting + buf == sent + (waiting + buf);
      r := queue.Push(buf);
      if !r.overflowed {
        accepted := accepted + buf;
      }
    }

    method SendOnOwner(buf: seq<Byte>) returns (r: SendResult)
      requires Mid()
      modifies this, queue
      ensures Mid() && Later()
      ensures r == Disconnected <==> old(state) != Open
      ensures r == Disconnected ==> unchanged(this) && unchanged(queue)
      ensures r == SendFailed <==> old(state) == Open && |old(queue.pending)| >= queue.maxPending
      ensures r == SendFailed ==> state != Open && accepted == old(accepted)
      ensures r == Sent ==> old(accepted) + buf <= accepted
      ensures r == Sent && Alone() ==> accepted == old(accepted) + buf
      ensures r == Sent && Alone() && willing ==>
        (state != Open <==>
          && config.disconnectOnHighWatermark && config.disconnectDelay == 0 && !old(bpActive)
          && config.High(|old(queue.pending)| + 1, old(queue.pendingBytes) + |buf|))
      decreases callsLeft, 8
    {
      if state != Open {
        return Disconnected;
      }
      r := SendOpen(buf);
    }

    method SendOpen(buf: seq<Byte>) returns (r: SendResult)
      requires Mid() && state == Open
      modifies this, queue
      ensures Mid() && Later()
      ensures r == if |old(queue.pending)| >= queue.maxPending then SendFailed else Sent
      ensures r == SendFailed ==> state != Open && accepted == old(accepted)
      ensures r == Sent ==> old(accepted) + buf <= accepted
      ensures r == Sent && Alone() ==> accepted == old(accepted) + buf
      ensures r == Sent && Alone() && willing ==>
        (state != Open <==>
          && config.disconnectOnHighWatermark && config.disconnectDelay == 0 && !old(bpActive)
          && config.High(|old(queue.pending)| + 1, old(queue.pendingBytes) + |buf|))
      decreases callsLeft, 8, 1
    {
      var pushed := Enqueue(buf);
      if pushed.overflowed {
        DisconnectOnOwner();
        return SendFailed;
      }
      AfterPush(pushed.needsRegister);
      return Sent;
    }

    /** What follows a push: backpressure, and a send if no cycle was running. */
    method AfterPush(needsRegister: bool)
      requires SendInv() && RecvInv() && IoInv() && Waiting() && (needsRegister ==> active.None? && held == [])
      requires bpTold == bpActive
      modifies this, queue
      ensures Mid() && Common()
      ensures !needsRegister ==> Later()
      ensures needsRegister ==> held == [] && SendArmed()
      ensures Alone() ==> accepted == old(accepted)
      ensures old(state) == Open && Alone() && willing && (needsRegister ==> |old(queue.pending)| <= MAX_SEND_IOVECS) ==>
        (state != Open <==>
          config.disconnectOnHighWatermark && config.disconnectDelay == 0 && !old(bpActive) && old(IsHigh()))
      decreases callsLeft, 8, 0
    {
      UpdateBackpressure();
      if needsRegister {
        RegisterSend();
      }
    }

    method RegisterSend()
      requires Mid() && held == []
      modifies this, queue
      ensures Mid() && Common() && held == []
      ensures old(active.Some? || queue.pending != [] || !queue.registered) ==> SendArmed()
      ensures Alone() ==> accepted == old(accepted)
      ensures old(state == Open && |queue.pending| <= MAX_SEND_IOVECS) && Alone() && willing ==> state == Open
      decreases callsLeft, 7
    {
      if state != Open {
        return;
      }
      if active.Some? {
        return;
      }
      var bufs := DrainBatch();
      if bufs == [] {
        return;
      }
      SendDrained(bufs);
    }

    /** The drained batch may end backpressure, whose callback runs before the batch is sent. */
    method SendDrained(bufs: seq<seq<Byte>>)
      requires SendInv() && RecvInv() && IoInv() && Waiting() && held == bufs != []
      requires bpTold == bpActive
      modifies this, queue
      ensures Mid() && Common() && SendArmed() && held == []
      ensures state == Open ==> active.Some?
      ensures Alone() ==> accepted == old(accepted)
      ensures old(state == Open && (bpActive || !IsHigh())) && Alone() && willing ==> state == Open
      ensures Alone() && old(!bpActive && !IsHigh()) ==> !bpActive
      ensures ReadingFollows()
      decreases callsLeft, 6, 2
    {
      UpdateBackpressure();
      SendBatch(bufs);
    }

    /** The batch is submitted, or the session is no longer open: it is never dropped because
        another send is in flight. */
    method SendBatch(bufs: seq<seq<Byte>>)
      requires Mid() && queue.registered && held == bufs != []
      modifies this, queue
      ensures Mid() && Common() && SendArmed() && held == []
      ensures state == Open ==> active.Some? && active.value.bufs == bufs
      ensures old(state) != Open ==> active == old(active) && unchanged(queue)
      ensures state == Open ==> Alone() && SameReading()
      ensures Alone() ==> accepted == old(accepted)
      ensures Alone() ==> bpActive == old(bpActive)
      ensures willing ==> state == old(state)
      decreases callsLeft, 5
    {
      if state != Open {
        held := [];
        return;
      }
      if active.Some? {
        assert false;  // a held batch excludes another send in flight, so the guard drops nothing
      }
      var ok := SendInFlightBatch(bufs);
      if !ok {
        FailSend();
      }
    }

    /** A batch that could not be submitted takes the session down with it. */
    method FailSend()
      requires Mid()
      modifies this, queue
      ensures Mid() && Common() && state != Open && held == []
      ensures accepted == old(accepted) && (Alone() ==> bpActive == old(bpActive))
      decreases callsLeft, 4
    {
      DisconnectOnOwner();
      held := [];
    }

    /** Builds the operation over the whole batch and submits it. */
    method SendInFlightBatch(bufs: seq<seq<Byte>>) returns (ok: bool)
      requires active.None? && held == bufs && pendingIo >= 0 && SendInv() && queue.registered
      modifies this`pendingIo, this`active, this`held
      ensures SendInv()
      ensures pendingIo == old(pendingIo) + if ok then 1 else 0
      ensures active.Some? <==> ok
      ensures ok ==> WellFormed(active.value.iovs, active.value.bufs) && active.value.bufs == bufs
      ensures held == if ok then [] else old(held)
      ensures InFlight() == if ok then Flatten(bufs) else []
      ensures willing ==> ok
    {
      var iovs := GatherIoVecs(bufs);
      ok := Submit();
      if ok {
        Fly(acked, Flatten(bufs), Flatten(queue.pending));
        active := Some(SendOp(iovs, bufs));
        held := [];
      }
    }

    method UpdateBackpressure()
      requires SendInv() && RecvInv() && IoInv() && Waiting()
      requires bpTold == bpActive
      modifies this, queue
      ensures Mid() && Later()
      ensures Alone() ==> SameSending()
      ensures Alone() ==> bpActive == if old(bpActive) then !IsLow() else IsHigh()
      ensures Alone() && bpActive == old(bpActive) ==> unchanged(this)
      ensures Alone() && state == Open && old(bpActive) && !bpActive && config.pauseRecvOnBackpressure ==> ReadsOn()
      ensures Alone() && state == Open && !old(bpActive) && bpActive && config.pauseRecvOnBackpressure ==> recvPaused
      ensures old(state) == Open && Alone() && willing ==>
        (state != Open <==> !old(bpActive) && bpActive && config.disconnectOnHighWatermark && config.disconnectDelay == 0)
      decreases callsLeft, 6, 1
    {
      if !bpActive {
        if (config.highDepth != 0 && |queue.pending| >= config.highDepth)
           || (config.highBytes != 0 && queue.pendingBytes >= config.highBytes) {
          CrossHigh();
        }
      } else if (config.highDepth == 0 || |queue.pending| <= config.lowDepth)
                && (config.highBytes == 0 || queue.pendingBytes <= config.lowBytes) {
        LeaveBackpressure();
      }
    }

    /** The queue crossed a high watermark, which may be the end of the session. */
    method CrossHigh()
      requires SendInv() && RecvInv() && IoInv() && Waiting()
      requires !bpActive && IsHigh()
      modifies this, queue
      ensures Mid() && Later()
      ensures Alone() ==> bpActive && SameSending()
      ensures Alone() && state == Open && config.pauseRecvOnBackpressure ==> recvPaused
      ensures old(state) == Open && Alone() ==>
        (state != Open <==> config.disconnectOnHighWatermark && config.disconnectDelay == 0)
      decreases callsLeft, 6, 0, 1
    {
      EnterBackpressure();
      if config.disconnectOnHighWatermark && config.disconnectDelay == 0 {
        DisconnectOnOwner();
      }
    }

    /** Backpressure begins. */
    method EnterBackpressure()
      requires SendInv() && RecvInv() && IoInv() && Waiting()
      requires !bpActive && IsHigh()
      modifies this, queue
      ensures Mid() && Later()
      ensures Alone() ==> state == old(state) && bpActive && SameSending()
      ensures Alone() && config.pauseRecvOnBackpressure ==> recvPaused
      decreases callsLeft, 6, 0, 0
    {
      MarkHigh();
      OnBackpressure(true);
      if config.pauseRecvOnBackpressure {
        PauseForBackpressure();
      }
    }

    method MarkHigh()
      requires SendInv() && RecvInv() && IoInv() && Waiting() && !bpActive && IsHigh()
      modifies this`bpActive
      ensures SendInv() && RecvInv() && IoInv() && Waiting() && Watermarks() && bpActive
    {
      bpActive := true;
    }

    /** The application is told that backpressure has begun or ended. */
    method OnBackpressure(active: bool)
      requires SendInv() && RecvInv() && IoInv() && Waiting() && Watermarks() && bpActive == active
      modifies this, queue
      ensures Mid() && Later()
      ensures Alone() ==> state == old(state) && SameSending() && SameReading()
      decreases callsLeft, 2
    {
      bpTold := active;
      Callback();
    }

    method PauseForBackpressure()
      requires RecvInv() && config.pauseRecvOnBackpressure
      modifies this`recvPaused, this`bpPaused
      ensures RecvInv() && recvPaused && bpPaused
    {
      recvPaused := true;
      bpPaused := true;
    }

    /** The queue is back at its low watermarks. */
    method LeaveBackpressure()
      requires SendInv() && RecvInv() && IoInv() && Waiting()
      requires bpActive && IsLow()
      modifies this, queue
      ensures Mid() && Later()
      ensures Alone() ==> !bpActive && SameSending()
      ensures Alone() && state == Open && config.pauseRecvOnBackpressure ==> ReadsOn()
      ensures old(state) == Open && Alone() && willing ==> state == Open
      decreases callsLeft, 6, 0, 0
    {
      MarkLow();
      OnBackpressure(false);
      if config.pauseRecvOnBackpressure {
        ResumeReading();
      }
    }

    method MarkLow()
      requires SendInv() && RecvInv() && IoInv() && Waiting() && bpActive && IsLow()
      modifies this`bpActive
      ensures SendInv() && RecvInv() && IoInv() && Waiting() && Watermarks() && !bpActive
    {
      bpActive := false;
    }

    // ---------------------------------------------------------------- receiving

    twostate predicate SameButArmed()
      reads this
    {
      recvPaused == old(recvPaused) && pausedQueue == old(pausedQueue) && delivered == old(delivered)
    }

    method RegisterRecv()
      requires Mid()
      modifies this, queue
      ensures Mid() && Later()
      ensures state == Open && !recvPaused ==> recvArmed
      ensures state == Open ==> recvPaused == old(recvPaused) && pausedQueue == old(pausedQueue)
      ensures state == Open ==> delivered == old(delivered) && callsLeft == old(callsLeft)
      ensures Alone() ==> bpActive == old(bpActive) && SameSending()
      ensures willing ==> state == old(state)
      decreases callsLeft, 4
    {
      if state != Open || recvPaused {
        return;
      }
      if recvArmed {
        return;
      }
      ArmRecv();
    }

    method ArmRecv()
      requires Mid() && state == Open && !recvPaused && !recvArmed
      modifies this, queue
      ensures Mid() && Later()
      ensures state == Open ==> recvArmed && SameButArmed() && callsLeft == old(callsLeft)
      ensures Alone() ==> bpActive == old(bpActive) && SameSending()
      ensures willing ==> state == Open
      decreases callsLeft, 4, 0
    {
      var ok := SubmitRecv();
      if !ok {
        DisconnectOnOwner();
      }
    }

    method SubmitRecv() returns (ok: bool)
      requires IoInv() && Waiting() && state == Open && !recvArmed
      modifies this`pendingIo, this`recvArmed
      ensures IoInv() && Waiting() && recvArmed == ok && (willing ==> ok)
    {
      ok := Submit();
      if ok {
        recvArmed := true;
      }
    }

    method QueuePausedRecv(data: seq<Byte>) returns (ok: bool)
      requires pausedBytes == |Flatten(pausedQueue)|
      modifies this`pausedQueue, this`pausedBytes
      ensures ok <==> data == [] || config.pausedRecvLimit == 0
                      || old(pausedBytes) + |data| <= config.pausedRecvLimit
      ensures pausedQueue == old(pausedQueue) + if ok && data != [] then [data] else []
      ensures pausedBytes == |Flatten(pausedQueue)| == old(pausedBytes) + if ok then |data| else 0
    {
      if data == [] {
        return true;
      }
      var nextBytes := pausedBytes + |data|;
      if config.pausedRecvLimit != 0 && nextBytes > config.pausedRecvLimit {
        return false;
      }
      FlattenAppend(pausedQueue, [data]);
      FlattenOne(data);
      pausedBytes := nextBytes;
      pausedQueue := pausedQueue + [data];
      return true;
    }

    /** Nothing has changed but that chunks kept back were delivered. */
    twostate predicate SameButQueue()
      reads this, queue
    {
      && recvPaused == old(recvPaused) && recvArmed == old(recvArmed) && bpActive == old(bpActive)
      && delivered + pausedQueue == old(delivered) + old(pausedQueue) && SameSending()
    }

    method DrainPausedRecv()
      requires Mid()
      modifies this, queue
      ensures Mid() && Later()
      ensures state == Open && !recvPaused ==> pausedQueue == []
      ensures Alone() ==> state == old(state) && SameButQueue()
      decreases callsLeft, 5, 0
    {
      while state == Open && !recvPaused && pausedQueue != []
        invariant Mid() && Later()
        invariant Alone() ==> state == old(state) && SameButQueue()
        decreases |pausedQueue|
      {
        DeliverFront();
      }
    }

    method DeliverFront()
      requires Mid() && state == Open && !recvPaused && pausedQueue != []
      modifies this, queue
      ensures Mid() && Later() && |pausedQueue| < |old(pausedQueue)|
      ensures Alone() ==> state == old(state) && SameButQueue()
      decreases callsLeft, 4
    {
      TakeFront();
      Callback();
    }

    /** The oldest paused chunk goes to the application. */
    method TakeFront()
      requires RecvInv() && state == Open && pausedQueue != []
      modifies this`pausedQueue, this`pausedBytes, this`delivered
      ensures RecvInv() && pausedQueue == old(pausedQueue)[1..]
      ensures delivered == old(delivered) + [old(pausedQueue)[0]]
      ensures delivered + pausedQueue == old(delivered) + old(pausedQueue)
    {
      var chunk := pausedQueue[0];
      assert delivered + pausedQueue == delivered + [chunk] + pausedQueue[1..];
      pausedQueue := pausedQueue[1..];
      pausedBytes := pausedBytes - |chunk|;
      delivered := delivered + [chunk];
    }

    // ---------------------------------------------------------------- completions

    /** A send completion while closing: the operation is gone, nothing is resent. */
    method ReapSend()
      requires active.Some? && IoInv() && state != Open && SendInv()
      modifies this`active, this`pendingIo
      ensures IoInv() && active.None? && SendInv()
    {
      active := None;
      CompletePendingIo();
    }

    /** A failed send: its unsent bytes go nowhere. */
    method AbandonSend()
      requires active.Some? && IoInv() && state == Open && SendInv() && held == []
      modifies this`active, this`pendingIo, this`held
      ensures IoInv() && active.None? && SendInv() && held == [old(InFlight())]
    {
      ghost var rest := InFlight();
      active := None;
      held := [rest];
      FlattenOne(rest);
      CompletePendingIo();
    }

    /** A partial completion: exactly the unsent suffix is left to submit again. */
    method Advance(sent: nat)
      requires active.Some? && SendInv() && sent <= |InFlight()|
      modifies this`active, this`acked
      ensures SendInv() && active.Some?
      ensures acked == old(acked) + old(InFlight())[..sent]
      ensures InFlight() == old(InFlight())[sent..]
    {
      var op := active.value;
      ghost var before := InFlight();
      var iovs, bufs := AdvanceSendState(op.iovs, op.bufs, sent);
      AckMoves(acked, before, sent, Flatten(held) + Flatten(queue.pending));
      acked := acked + before[..sent];
      active := Some(SendOp(iovs, bufs));
    }

    /** A full completion ends the send cycle if nothing waits. */
    method CompleteSend()
      requires active.Some? && IoInv() && state == Open && SendInv() && held == []
      modifies this`active, this`acked, this`pendingIo, queue`registered
      ensures IoInv() && SendInv() && active.None?
      ensures acked == old(acked) + old(InFlight())
      ensures queue.registered <==> queue.pending != []
    {
      acked := acked + InFlight();
      active := None;
      queue.MarkSent();
      CompletePendingIo();
    }

    /** The callbacks of a full completion, up to the flush check. */
    method NotifyDrained()
      requires SendInv() && RecvInv() && IoInv() && Waiting() && BackpressureInv()
      requires active.None? && held == [] && (queue.registered <==> queue.pending != [])
      modifies this, queue
      ensures Mid() && Common() && held == []
      ensures active.None? && state == Open && queue.registered ==> queue.pending != []
      ensures active.Some? ==> SendArmed()
      ensures Alone() ==> SameSending()
      ensures old(state) == Open && Alone() && willing && config.Hysteresis() ==>
        (state != Open <==> disconnectAfterFlush && queue.pending == [] && !appWork)
      ensures Alone() && old(!bpActive && !IsHigh()) ==> !bpActive
      ensures ReadingFollows()
    {
      UpdateBackpressure();
      Callback();
      TryDisconnectAfterFlush();
    }

    method SendNext()
      requires Mid() && active.None? && held == []
      requires state == Open && queue.registered ==> queue.pending != []
      modifies this, queue
      ensures Mid() && Common() && SendArmed() && held == []
      ensures state == Open && disconnectAfterFlush ==> active.Some? || appWork
      ensures old(state) == Open && Alone() && willing && config.Hysteresis() ==>
        (state != Open <==> old(disconnectAfterFlush && queue.pending == [] && !appWork))
      ensures Alone() && old(!bpActive && !IsHigh()) ==> !bpActive
      ensures ReadingFollows()
    {
      var next := DrainBatch();
      SendOrClose(next);
    }

    method SendOrClose(next: seq<seq<Byte>>)
      requires SendInv() && RecvInv() && IoInv() && Waiting() && active.None? && held == next
      requires next == [] ==> BackpressureInv() && queue.pending == []
      requires next == [] && state == Open ==> !queue.registered
      requires bpTold == bpActive
      modifies this, queue
      ensures Mid() && Common() && SendArmed() && held == []
      ensures state == Open && disconnectAfterFlush ==> active.Some? || appWork
      ensures old(state == Open && (bpActive || !IsHigh())) && Alone() && willing ==>
        (state != Open <==> next == [] && old(disconnectAfterFlush && !appWork))
      ensures Alone() && old(!bpActive && !IsHigh()) ==> !bpActive
      ensures ReadingFollows()
    {
      if next != [] {
        SendDrained(next);
      } else {
        TryDisconnectAfterFlush();
      }
    }

    /** Takes the next batch off the queue; until it is submitted it is in neither place. */
    method DrainBatch() returns (bufs: seq<seq<Byte>>)
      requires SendInv() && active.None? && held == []
      modifies this`held, queue`pending, queue`pendingBytes
      ensures SendInv() && held == bufs && bufs + queue.pending == old(queue.pending)
      ensures queue.pendingBytes <= old(queue.pendingBytes) && (old(!IsHigh()) ==> !IsHigh())
      ensures bufs == [] <==> old(queue.pending) == []
      ensures |bufs| == if |old(queue.pending)| <= MAX_SEND_IOVECS then |old(queue.pending)| else MAX_SEND_IOVECS
    {
      bufs := queue.DrainInto(MAX_SEND_IOVECS);
      held := bufs;
    }

    /** One completion of the send in flight, with any result the kernel may report. */
    method OnSend(res: int)
      requires Boundary() && active.Some? && res <= |InFlight()|
      modifies this, queue
      ensures Boundary() && Rank(old(state)) <= Rank(state)
      ensures old(accepted) <= accepted
      ensures old(state) == Open && res >= 0 ==> acked == old(acked) + old(InFlight())[..res]
      ensures old(state) == Open && res < 0 ==> state != Open
      ensures old(state) == Open && 0 <= res < |old(InFlight())| && state == Open ==>
                active.Some? && InFlight() == old(InFlight())[res..]
      ensures state == Open && disconnectAfterFlush && old(state == Open && res == |InFlight()|) ==>
                active.Some? || appWork
      ensures old(state) == Open && res >= 0 && Alone() && willing && config.Hysteresis() ==>
        (state != Open <==>
          old(res == |InFlight()| && disconnectAfterFlush && queue.pending == [] && !appWork))
      ensures old(state) == Open && config.Hysteresis() ==> ReadingFollows()
      ensures old(state) == Open && Alone() && state == Open && old(bpActive) && !bpActive && config.pauseRecvOnBackpressure
        ==> ReadsOn()
    {
      if state != Open {
        OnSendClosing();
      } else if res < 0 {
        OnSendFailed();
      } else {
        var requested := Requested(active.value.iovs, active.value.bufs);
        if res < requested {
          OnSendPartial(res);
        } else {
          assert InFlight()[..res] == InFlight();
          OnSendDone();
        }
      }
    }

    method OnSendClosing()
      requires Boundary() && active.Some? && state != Open
      modifies this, queue
      ensures Boundary() && Rank(old(state)) <= Rank(state) && accepted == old(accepted)
    {
      ReapSend();
      TryRelease();
    }

    method OnSendFailed()
      requires Boundary() && active.Some? && state == Open
      modifies this, queue
      ensures Boundary() && state != Open && old(accepted) <= accepted
    {
      AbandonSend();
      FailSend();
    }

    method OnSendPartial(sent: nat)
      requires Boundary() && active.Some? && state == Open && sent < |InFlight()|
      modifies this, queue
      ensures Boundary() && old(accepted) <= accepted
      ensures acked == old(acked) + old(InFlight())[..sent]
      ensures state == Open ==> active.Some? && InFlight() == old(InFlight())[sent..]
      ensures state == Open ==> Alone() && SameReading()
      ensures willing ==> state == Open
    {
      Advance(sent);
      var resubmitted: bool := *;
      if !resubmitted && !willing {
        AbandonSend();
        FailSend();
      }
    }

    method OnSendDone()
      requires Boundary() && active.Some? && state == Open
      modifies this, queue
      ensures Boundary() && Rank(old(state)) <= Rank(state)
      ensures old(accepted) <= accepted && acked == old(acked) + old(InFlight())
      ensures state == Open && disconnectAfterFlush ==> active.Some? || appWork
      ensures Alone() && willing && config.Hysteresis() ==>
        (state != Open <==> old(disconnectAfterFlush && queue.pending == [] && !appWork))
      ensures config.Hysteresis() ==> ReadingFollows()
      ensures Alone() && state == Open && old(bpActive) && !bpActive && config.pauseRecvOnBackpressure ==> ReadsOn()
    {
      CompleteSend();
      SendOn();
    }

    /** What follows a full completion. */
    method SendOn()
      requires SendInv() && RecvInv() && IoInv() && Waiting() && BackpressureInv() && state == Open
      requires active.None? && held == [] && (queue.registered <==> queue.pending != [])
      modifies this, queue
      ensures Mid() && Common() && SendArmed() && held == []
      ensures state == Open && disconnectAfterFlush ==> active.Some? || appWork
      ensures Alone() && willing && config.Hysteresis() ==>
        (state != Open <==> old(disconnectAfterFlush && queue.pending == [] && !appWork))
      ensures config.Hysteresis() ==> ReadingFollows()
      ensures Alone() && state == Open && old(bpActive) && !bpActive && config.pauseRecvOnBackpressure ==> ReadsOn()
    {
      NotifyDrained();
      if active.Some? {
        return;
      }
      SendNext();
    }

    /** Received bytes join the backlog of a paused session, or close it at the limit. */
    method HoldBack(data: seq<Byte>)
      requires Mid() && state == Open && recvPaused && data != []
      modifies this, queue
      ensures Mid() && Rank(old(state)) <= Rank(state) && callsLeft <= old(callsLeft)
      ensures started == old(started) && uncounted == old(uncounted) && held == old(held)
      ensures accepted == old(accepted) && acked == old(acked) && received == old(received) + [data]
      ensures state == Open ==> recvPaused && active == old(active) && bpActive == old(bpActive)
                                && unchanged(queue) && delivered == old(delivered) && bpPaused == old(bpPaused)
                                && pausedQueue == old(pausedQueue) + [data]
      ensures state == Open <==> config.pausedRecvLimit == 0
                                 || old(pausedBytes) + |data| <= config.pausedRecvLimit
      ensures old(PauseJustified()) ==> PauseJustified()
    {
      var ok := Backlog(data);
      if !ok {
        RefuseRecv(data);
      }
    }

    /** Too much is kept back already: the session closes. */
    method RefuseRecv(data: seq<Byte>)
      requires Mid()
      modifies this, queue
      ensures Mid() && state != Open && Rank(old(state)) <= Rank(state) && callsLeft <= old(callsLeft)
      ensures started == old(started) && uncounted == old(uncounted) && held == old(held)
      ensures accepted == old(accepted) && acked == old(acked) && received == old(received) + [data]
      ensures old(PauseJustified()) ==> PauseJustified()
    {
      DisconnectOnOwner();
      received := received + [data];
    }

    method Backlog(data: seq<Byte>) returns (ok: bool)
      requires RecvInv() && state == Open && data != []
      modifies this`pausedQueue, this`pausedBytes, this`received
      ensures RecvInv()
      ensures ok <==> config.pausedRecvLimit == 0 || old(pausedBytes) + |data| <= config.pausedRecvLimit
      ensures received == if ok then old(received) + [data] else old(received)
      ensures ok ==> pausedQueue == old(pausedQueue) + [data]
    {
      ok := QueuePausedRecv(data);
      if ok {
        received := received + [data];
        assert delivered + (old(pausedQueue) + [data]) == (delivered + old(pausedQueue)) + [data];
      }
    }

    /** Received bytes of an unpaused session go straight to the application. */
    method Deliver(data: seq<Byte>)
      requires Mid() && state == Open && pausedQueue == []
      modifies this, queue
      ensures Mid() && Rank(old(state)) <= Rank(state) && callsLeft <= old(callsLeft)
      ensures started == old(started) && uncounted == old(uncounted) && held == old(held)
      ensures old(accepted) <= accepted && acked == old(acked) && received == old(received) + [data]
      ensures pausedQueue == [] && (old(RecvReady()) ==> RecvReady())
      ensures old(SendArmed()) ==> SendArmed()
      ensures old(PauseJustified()) ==> PauseJustified()
      ensures Alone() ==> state == Open && recvPaused == old(recvPaused) && delivered == old(delivered) + [data]
    {
      received := received + [data];
      delivered := delivered + [data];
      Callback();
    }

    /** The final completion of a receive operation is no longer outstanding, though still counted. */
    method EndRecv(more: bool)
      requires IoInv() && recvArmed
      modifies this`recvArmed, this`uncounted
      ensures IoInv() && recvArmed == more && uncounted == old(uncounted) + if more then 0 else 1
    {
      if !more {
        recvArmed := false;
        uncounted := uncounted + 1;
      }
    }

    method CountRecvEnd()
      requires IoInv() && uncounted == 1
      modifies this`pendingIo, this`uncounted
      ensures IoInv() && uncounted == 0
    {
      CompletePendingIo();
      uncounted := 0;
    }

    /** After the data: settle the count, then close, re-arm, or leave the receive armed. */
    method FinishRecv(res: int, more: bool)
      requires Mid() && held == [] && SendArmed() && PauseJustified()
      requires uncounted == if more then 0 else 1
      requires state == Open && !recvPaused ==> pausedQueue == [] && (more && started ==> recvArmed)
      modifies this, queue
      ensures Boundary() && started == old(started) && Rank(old(state)) <= Rank(state)
      ensures acked == old(acked) && old(accepted) <= accepted && received == old(received)
      ensures old(state) == Open && (res == 0 || (res < 0 && res != -ENOBUFS)) ==> state != Open
      ensures callsLeft <= old(callsLeft)
      ensures old(state) == Open && (res > 0 || res == -ENOBUFS) && Alone() && willing ==> state == Open
      ensures state == Open && Alone() ==> delivered == old(delivered) && pausedQueue == old(pausedQueue)
    {
      if !more {
        CountRecvEnd();
      }
      SettleRecv(res, more);
    }

    method SettleRecv(res: int, more: bool)
      requires SendInv() && RecvInv() && IoInv() && BackpressureInv() && (state == Open ==> Mid())
      requires held == [] && uncounted == 0 && SendArmed() && PauseJustified()
      requires state == Open && !recvPaused ==> pausedQueue == [] && (more && started ==> recvArmed)
      modifies this, queue
      ensures Boundary() && Common() && received == old(received)
      ensures old(state) == Open && (res == 0 || (res < 0 && res != -ENOBUFS)) ==> state != Open
      ensures old(state) == Open && (res > 0 || res == -ENOBUFS) && Alone() && willing ==> state == Open
      ensures state == Open && Alone() ==> delivered == old(delivered) && pausedQueue == old(pausedQueue)
    {
      if state != Open {
        TryRelease();
      } else if res == 0 || (res < 0 && res != -ENOBUFS) {
        DisconnectOnOwner();
      } else if res == -ENOBUFS || !more {
        if !recvPaused {
          RegisterRecv();
        }
      }
    }

    /** One completion of the receive: `more` says whether the kernel keeps it armed. */
    method OnRecv(res: int, more: bool, data: seq<Byte>)
      requires Boundary() && recvArmed && (res > 0 ==> |data| == res)
      modifies this, queue
      ensures Boundary() && started == old(started) && Rank(old(state)) <= Rank(state)
      ensures acked == old(acked) && old(accepted) <= accepted
      ensures received == old(received) + if res > 0 && old(state) == Open then [data] else []
      ensures old(state) == Open && (res == 0 || (res < 0 && res != -ENOBUFS)) ==> state != Open
      ensures old(state) == Open && res == -ENOBUFS && Alone() && willing ==> state == Open
      ensures old(state) == Open && res > 0 && Alone() && willing ==>
        (state != Open <==>
          old(recvPaused) && config.pausedRecvLimit != 0 && old(pausedBytes) + res > config.pausedRecvLimit)
      ensures old(state) == Open && res > 0 && Alone() && state == Open ==>
        if old(recvPaused) then delivered == old(delivered) && pausedQueue == old(pausedQueue) + [data]
        else delivered == old(delivered) + [data] && pausedQueue == []
    {
      EndRecv(more);
      if res > 0 && state == Open {
        if recvPaused {
          HoldBack(data);
        } else {
          Deliver(data);
        }
      }
      FinishRecv(res, more);
    }

    method OnDisconnect()
      requires Boundary() && disconnectOps > 0
      modifies this, queue
      ensures Boundary() && started == old(started) && Rank(old(state)) <= Rank(state)
      ensures accepted == old(accepted) && acked == old(acked)
    {
      disconnectOps := disconnectOps - 1;
      CompletePendingIo();
      TryRelease();
    }

    method OnCancel()
      requires Boundary() && cancelOps > 0
      modifies this, queue
      ensures Boundary() && started == old(started) && Rank(old(state)) <= Rank(state)
      ensures accepted == old(accepted) && acked == old(acked)
    {
      cancelOps := cancelOps - 1;
      CompletePendingIo();
      TryRelease();
    }

    /** The periodic tick; which deadlines have passed is the environment's choice: a timeout is due,
        which the application may have handled; the session is inactive; the delay after a crossed
        watermark is over. */
    method Tick(timeoutDue: bool, handled: bool, inactive: bool, delayOver: bool)
      requires Boundary()
      modifies this, queue
      ensures Boundary() && Common()
      ensures old(state) == Open && Alone() ==>
        (state != Open <==>
          && !(timeoutDue && handled)
          && ((inactive && !old(appWork))
              || (old(bpActive) && config.disconnectOnHighWatermark && config.disconnectDelay > 0 && delayOver)))
    {
      if state != Open {
        TryRelease();
        return;
      }
      if timeoutDue {
        Callback();
        if handled {
          return;
        }
      }
      if (inactive && !appWork)
         || (bpActive && config.disconnectOnHighWatermark && config.disconnectDelay > 0 && delayOver) {
        DisconnectOnOwner();
      }
    }

    method Start()
      requires Boundary() && !started
      modifies this, queue
      ensures Boundary() && started && Rank(old(state)) <= Rank(state)
      ensures old(accepted) <= accepted && acked == old(acked)
      ensures old(state) == Open && Alone() && willing ==> state == Open && (recvArmed || recvPaused)
    {
      Callback();
      started := true;
      RegisterRecv();
    }

    /** Any event that can happen next: a completion the kernel owes, a tick, or a call. */
    method Event()
      requires Boundary()
      modifies this, queue
      ensures Boundary() && Rank(old(state)) <= Rank(state) && old(accepted) <= accepted
    {
      callsLeft := *;
      var choice: nat := *;
      if choice == 0 && active.Some? {
        var res: int := *;
        var requested := Requested(active.value.iovs, active.value.bufs);
        OnSend(if res <= requested then res else requested);
      } else if choice == 1 && recvArmed {
        var data: seq<Byte> := *;
        var res: int := *;
        var more: bool := *;
        OnRecv(if res > 0 then |data| else res, more, data);
      } else if choice == 2 && disconnectOps > 0 {
        OnDisconnect();
      } else if choice == 3 && cancelOps > 0 {
        OnCancel();
      } else if choice == 4 && !started {
        Start();
      } else if choice == 5 {
        var due: bool, handled: bool, inactive: bool, over: bool := *, *, *, *;
        Tick(due, handled, inactive, over);
      } else {
        AppCall();
      }
    }

    /** Over every run the boundary invariant holds, the state only moves forward, and
        OnDisconnected has run at most once: exactly when the session is closed. */
    method Run(events: nat)
      requires Boundary()
      modifies this, queue
      ensures Boundary() && Rank(old(state)) <= Rank(state) && old(accepted) <= accepted
      ensures disconnectedCalls == if state == Closed then 1 else 0
      ensures state == Closed ==> Outstanding() == 0
      ensures state == Closing || state == Draining ==> pendingIo > 0 || pendingApp > 0
    {
      for i := 0 to events
        invariant Boundary() && Rank(old(state)) <= Rank(state) && old(accepted) <= accepted
      {
        Event();
      }
    }
  }

  /** Between events an open session has lost nothing in either direction. */
  lemma {:induction false} NothingLost(s: Session)
    requires s.Boundary() && s.state == Open
    ensures s.accepted == s.acked + s.InFlight() + Flatten(s.queue.pending)
    ensures Flatten(s.received) == Flatten(s.delivered) + Flatten(s.pausedQueue)
    ensures !s.recvPaused ==> Flatten(s.received) == Flatten(s.delivered)
  {
    FlattenAppend(s.delivered, s.pausedQueue);
  }

  /** Reading that backpressure paused always has a send completion coming that can resume it. */
  lemma BackpressureCannotDeadlock(s: Session)
    requires s.Boundary() && s.state == Open && s.config.Hysteresis()
    ensures s.queue.pending != [] ==> s.active.Some?
    ensures s.bpActive ==> s.queue.pending != []
    ensures s.recvPaused && s.bpPaused ==> s.bpActive && s.active.Some? && s.pendingIo > 0
  {
  }

  /** The first half of a SendOnOwner on a fresh session whose high watermark is one buffer, with an
      application that does nothing on entering backpressure: push, then enter. */
  method SendUpToHigh() returns (s: Session)
    ensures fresh(s) && fresh(s.queue)
    ensures s.Mid() && s.state == Open && s.bpActive && s.config == Config(1, 0, 0, 0, false, false, 0, 0)
    ensures s.held == [] && s.active.None? && s.queue.pending == [[7]] && !s.appWork
    ensures s.queue.registered && s.accepted == [7] && s.acked == []
  {
    s := new Session(Config(1, 0, 0, 0, false, false, 0, 0), 4096, true);
    s.callsLeft := 0;
    EnterByPush(s);
  }

  method EnterByPush(s: Session)
    requires s.Mid() && s.state == Open && s.callsLeft == 0 && !s.bpActive && !s.queue.registered
    requires s.config == Config(1, 0, 0, 0, false, false, 0, 0) && s.queue.maxPending == 4096
    requires s.queue.pending == [] && s.accepted == []
    modifies s, s.queue
    ensures s.Mid() && s.bpActive && s.queue.pending == [[7]] && s.queue.registered
    ensures s.accepted == [7] && s.state == Open
    ensures s.held == old(s.held) && s.active == old(s.active) && s.acked == old(s.acked)
    ensures s.appWork == old(s.appWork)
  {
    var pushed := s.Enqueue([7]);
    assert pushed.needsRegister && s.IsHigh();
    s.MarkHigh();
    s.OnBackpressure(true);
  }

  /** The rest of it: the queue is low again, and the application asks for the close when it is told
      so. The close starts with the accepted byte unacknowledged, and when the callback has returned
      the batch is dropped: the byte is nowhere any more. */
  method CloseRequestedInsideDrainWindow() returns (s: Session)
    ensures s.state != Open && s.accepted == [7] && s.acked == []
    ensures s.held == [] && s.active.None? && s.queue.pending == []
  {
    s := SendUpToHigh();
    var bufs := s.DrainBatch();
    assert s.IsLow();
    s.MarkLow();
    s.bpTold := false;  // OnBackpressure, in which the application asks for the close
    s.DisconnectAfterFlush();
    assert s.state != Open && s.held == bufs;
    s.SendBatch(bufs);
  }
}
