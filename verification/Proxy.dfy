/** The byte bridge between the two sessions of a proxied connection.

    Sessions are seen from the bridge: `alive` are those a weak pointer still reaches,
    `disconnecting` those that say so when asked. What a session does when it is sent something is
    the next answer of `script`; while it sends it may report backpressure, and the other session,
    told to read on, forwards what it kept back before the first send returns. */
module ProxyBridges {
  import opened Bytes

  datatype Role = Downstream | Upstream

  datatype Peer = Peer(role: Role, id: nat)

  /** One `SendProxyPayload`: is it accepted, which backpressure does the session report meanwhile,
      and has it gone when the call returns. */
  datatype Answer = Answer(accepts: bool, pressure: seq<bool>, leaves: bool)

  /** What a session does that answers nothing else. */
  function NextAnswer(script: seq<Answer>): Answer {
    if script == [] then Answer(true, [], false) else script[0]
  }

  /** What is received: never nothing. */
  type Data = d: seq<Byte> | d != [] witness [0]

  function Other(r: Role): Role {
    if r == Upstream then Downstream else Upstream
  }

  function Peers(p: Option<Peer>): set<Peer> {
    match p case None => {} case Some(q) => {q}
  }

  /** The bytes that went through, in both directions. */
  datatype Flow = Flow(fromDownstream: seq<Byte>, toUpstream: seq<Byte>,
                       fromUpstream: seq<Byte>, toDownstream: seq<Byte>)
  {
    /** What a session has sent. */
    function From(r: Role): seq<Byte> {
      if r == Downstream then fromDownstream else fromUpstream
    }

    /** Every byte is handed on once and in order: what the upstream was given and what is `waiting`
        are together what the downstream sent. After the close, both sides have a prefix. */
    ghost predicate InOrder(waiting: seq<Byte>, closed: bool) {
      && toUpstream + waiting <= fromDownstream
      && toDownstream <= fromUpstream
      && (!closed ==> toUpstream + waiting == fromDownstream && toDownstream == fromUpstream)
    }
  }

  lemma FlattenFront(chunks: seq<seq<Byte>>)
    requires chunks != []
    ensures Flatten(chunks) == chunks[0] + Flatten(chunks[1..])
  {
  }

  lemma SentFirst(sent: seq<Byte>, kept: seq<Data>)
    requires kept != []
    ensures sent + kept[0] + Flatten(kept[1..]) == sent + Flatten(kept)
  {
    FlattenFront(kept);
  }

  class ProxyBridge {
    const limit: nat
    var closed: bool
    var downstream: Option<Peer>
    var upstream: Option<Peer>
    var pending: seq<seq<Byte>>
    var pendingBytes: nat
    var flushing: seq<seq<Byte>>        // moved out by the flush and not handed over yet

    // The sessions: which the bridge can reach, which are going, whose reading it has paused and
    // what they keep back since.
    var alive: set<Peer>
    var disconnecting: set<Peer>
    var paused: set<Role>
    var keptDown: seq<Data>
    var keptUp: seq<Data>
    var script: seq<Answer>

    ghost var attached: set<Peer>
    ghost var left: set<Peer>
    ghost var toldNow: set<Peer>
    ghost var toldAfterFlush: set<Peer>
    ghost var strays: set<Peer>         // the bridge holds another session in their place

    ghost var flow: Flow
    ghost var overtaken: bool           // something was handed over before what is being flushed

    function Slot(r: Role): Option<Peer>
      reads this`downstream, this`upstream
    {
      if r == Upstream then upstream else downstream
    }

    /** What the weak pointer of that role yields. */
    function Lock(r: Role): Option<Peer>
      reads this`downstream, this`upstream, this`alive
    {
      if Slot(r).Some? && Slot(r).value in alive then Slot(r) else None
    }

    /** Does the bridge throttle that session? */
    ghost predicate Reachable(r: Role)
      reads this`downstream, this`upstream, this`alive, this`disconnecting
    {
      Lock(r).Some? && Lock(r).value !in disconnecting
    }

    function Kept(r: Role): seq<Data>
      reads this`keptDown, this`keptUp
    {
      if r == Upstream then keptUp else keptDown
    }

    /** No attached session is left behind but the strays: while the pair is open the bridge knows
        every other one; once it is closed each was told to disconnect, says that it is
        disconnecting, or is the one that left. */
    ghost predicate NoHalfOpen()
      reads this`downstream, this`upstream, this`alive, this`disconnecting, this`closed
      reads this`attached, this`left, this`toldNow, this`toldAfterFlush, this`strays
    {
      && (downstream.Some? ==> downstream.value in attached && downstream.value.role == Downstream)
      && (upstream.Some? ==> upstream.value in attached && upstream.value.role == Upstream)
      && (forall p :: p in attached ==>
            && (p in alive || p in disconnecting)
            && (!closed ==> downstream == Some(p) || upstream == Some(p) || p in strays)
            && (closed ==> p in toldNow || p in toldAfterFlush || p in disconnecting || p in left || p in strays))
    }

    /** What is being flushed and what is pending. */
    ghost function Waiting(): seq<Byte>
      reads this`pending, this`flushing
    {
      Flatten(flushing) + Flatten(pending)
    }

    ghost predicate InOrder()
      reads this`closed, this`pending, this`flushing, this`flow
    {
      flow.InOrder(Waiting(), closed)
    }

    ghost predicate Bounded()
      reads this`closed, this`pending, this`pendingBytes
    {
      && pendingBytes == |Flatten(pending)|
      && (limit != 0 ==> pendingBytes <= limit)
      && (closed ==> pending == [])
    }

    /** Holds whenever a session may be running. */
    ghost predicate Mid()
      reads this`downstream, this`upstream, this`alive, this`disconnecting, this`closed
      reads this`attached, this`left, this`toldNow, this`toldAfterFlush, this`strays
      reads this`pending, this`pendingBytes, this`flushing, this`flow, this`overtaken
    {
      && NoHalfOpen() && Bounded()
      && (!overtaken ==> InOrder())
      && (Lock(Upstream).Some? ==> pending == [])
      && (flushing != [] ==> Lock(Upstream).Some?)
    }

    ghost predicate Valid()
      reads this
    {
      Mid() && flushing == []
    }

    /** What every call keeps, whoever makes it: closing is permanent, and a closed pair passes
        nothing on. */
    twostate predicate Later()
      reads this
    {
      Lasting() && strays == old(strays)
    }

    twostate predicate Lasting()
      reads this
    {
      && (old(closed) ==> closed && flow == old(flow))
      && old(flow).fromDownstream <= flow.fromDownstream && old(flow).fromUpstream <= flow.fromUpstream
      && old(attached) == attached && old(left) <= left && old(disconnecting) <= disconnecting
      && alive == old(alive) && downstream == old(downstream) && upstream == old(upstream)
      && |script| <= |old(script)| && |keptDown| <= |old(keptDown)| && |keptUp| <= |old(keptUp)|
      && flushing == old(flushing)
      && (old(overtaken) ==> overtaken)
    }

    /** A flush is overtaken only if the downstream has kept something back and can be resumed. */
    twostate predicate Orderly()
      reads this`overtaken
    {
      old(flushing == [] || keptDown == [] || !Reachable(Downstream)) ==> overtaken == old(overtaken)
    }

    /** Data from the downstream would now overtake a flush. */
    ghost predicate Passing()
      reads this`closed, this`downstream, this`upstream, this`alive, this`flushing, this`script
    {
      !closed && flushing != [] && Lock(Upstream).Some? && NextAnswer(script).accepts
    }

    /** And the downstream has some to send when it is resumed. */
    ghost predicate Loose()
      reads this`closed, this`downstream, this`upstream, this`alive, this`disconnecting, this`flushing, this`script
      reads this`keptDown
    {
      Passing() && keptDown != [] && Reachable(Downstream)
    }

    /** Only an upstream session pauses the downstream. */
    twostate predicate Calm()
      reads this`paused
    {
      old(upstream) == None && Downstream in paused ==> Downstream in old(paused)
    }

    constructor (limit: nat)
      ensures Valid() && !closed && !overtaken && this.limit == limit
      ensures attached == {} && strays == {} && downstream == None && upstream == None
      ensures alive == {} && disconnecting == {}
      ensures pending == [] && keptDown == [] && paused == {}
      ensures flow == Flow([], [], [], [])
    {
      this.limit := limit;
      closed, downstream, upstream := false, None, None;
      pending, pendingBytes := [], 0;
      alive, disconnecting, paused, keptDown, keptUp, script := {}, {}, {}, [], [], [];
      attached, left, toldNow, toldAfterFlush, strays := {}, {}, {}, {}, {};
      flow := Flow([], [], [], []);
      flushing, overtaken := [], false;
    }

    // ---------------------------------------------------------------- closing

    /** Tells the session in a slot to disconnect, unless it is going or gone. */
    method Tell(r: Role)
      modifies this`disconnecting, this`toldNow
      ensures old(toldNow) <= toldNow && old(disconnecting) <= disconnecting
      ensures Peers(Lock(r)) <= toldNow + disconnecting
      ensures toldNow + disconnecting <= old(toldNow + disconnecting) + Peers(Lock(r))
    {
      var p := Lock(r);
      if p.Some? && p.value !in disconnecting {
        toldNow := toldNow + {p.value};
        if * {
          disconnecting := disconnecting + {p.value};
        }
      }
    }

    /** Whom a closing bridge still has to reach: those in its slots. */
    ghost predicate Tracked()
      reads this`downstream, this`upstream, this`alive, this`disconnecting, this`attached, this`strays
    {
      && (downstream.Some? ==> downstream.value in attached && downstream.value.role == Downstream)
      && (upstream.Some? ==> upstream.value in attached && upstream.value.role == Upstream)
      && (forall p :: p in attached ==>
            && (p in alive || p in disconnecting)
            && (downstream == Some(p) || upstream == Some(p) || p in strays))
    }

    method TellBoth()
      requires Tracked() && closed
      modifies this`disconnecting, this`toldNow
      ensures NoHalfOpen() && old(disconnecting) <= disconnecting
      ensures toldNow + disconnecting <= old(toldNow + disconnecting) + Peers(downstream) + Peers(upstream)
    {
      Tell(Downstream);
      Tell(Upstream);
    }

    method CloseOnce()
      requires !closed && (!overtaken ==> InOrder())
      modifies this`closed, this`pending, this`pendingBytes
      ensures closed && pending == [] && pendingBytes == 0 && (!overtaken ==> InOrder())
    {
      closed := true;
      pending, pendingBytes := [], 0;
    }

    method ClosePair()
      requires Mid()
      modifies this`closed, this`pending, this`pendingBytes, this`disconnecting, this`toldNow
      ensures Mid() && Later() && closed
      ensures old(closed) ==> unchanged(this)
      ensures toldNow + disconnecting <= old(toldNow + disconnecting) + Peers(downstream) + Peers(upstream)
    {
      if closed {
        return;
      }
      CloseOnce();
      TellBoth();
    }

    /** Session `p` has gone. The session in the other slot is told to go: the downstream after its
        queue is flushed, the upstream at once. A session in the slot of its own role that is not
        `p` becomes a stray. */
    method OnPeerDisconnected(p: Peer)
      requires Mid()
      modifies this`closed, this`pending, this`pendingBytes, this`disconnecting, this`toldNow
      modifies this`toldAfterFlush, this`left, this`strays
      ensures Mid() && Lasting() && closed && left == old(left) + {p}
      ensures strays == if old(closed) then old(strays) else old(strays) + (Peers(Slot(p.role)) - {p})
      ensures old(closed) || p.role == Upstream ==> toldNow == old(toldNow)
      ensures old(closed) || p.role == Downstream ==> toldAfterFlush == old(toldAfterFlush)
      ensures !old(closed) && p.role == Upstream ==>
        Peers(Lock(Downstream)) <= toldAfterFlush + old(disconnecting)
      ensures !old(closed) && p.role == Downstream ==>
        Peers(Lock(Upstream)) <= toldNow + disconnecting
    {
      left := left + {p};
      if closed {
        return;
      }
      CloseAfter(p);
    }

    method CloseAfter(p: Peer)
      requires Tracked() && !closed && (!overtaken ==> InOrder()) && p in left
      modifies this`closed, this`pending, this`pendingBytes, this`disconnecting, this`toldNow
      modifies this`toldAfterFlush, this`strays
      ensures closed && pending == [] && pendingBytes == 0 && NoHalfOpen() && (!overtaken ==> InOrder())
      ensures old(disconnecting) <= disconnecting
      ensures strays == old(strays) + (Peers(Slot(p.role)) - {p})
      ensures p.role == Upstream ==> toldNow == old(toldNow)
      ensures p.role == Downstream ==> toldAfterFlush == old(toldAfterFlush)
      ensures p.role == Upstream ==> Peers(Lock(Downstream)) <= toldAfterFlush + old(disconnecting)
      ensures p.role == Downstream ==> Peers(Lock(Upstream)) <= toldNow + disconnecting
    {
      CloseOnce();
      strays := strays + (Peers(Slot(p.role)) - {p});
      TellOther(p);
    }

    method TellOther(p: Peer)
      requires Tracked() && closed && p in left && Peers(Slot(p.role)) - {p} <= strays
      modifies this`disconnecting, this`toldNow, this`toldAfterFlush
      ensures NoHalfOpen() && old(disconnecting) <= disconnecting
      ensures p.role == Upstream ==> toldNow == old(toldNow)
      ensures p.role == Downstream ==> toldAfterFlush == old(toldAfterFlush)
      ensures p.role == Upstream ==> Peers(Lock(Downstream)) <= toldAfterFlush + old(disconnecting)
      ensures p.role == Downstream ==> Peers(Lock(Upstream)) <= toldNow + disconnecting
    {
      if p.role == Upstream {
        var d := Lock(Downstream);
        if d.Some? && d.value !in disconnecting {
          toldAfterFlush := toldAfterFlush + {d.value};
        }
      } else {
        Tell(Upstream);
      }
    }

    // ---------------------------------------------------------------- sending

    /** `SendProxyPayload` of session `p`, up to the point where it has taken the data or not. */
    method Ask(p: Peer) returns (a: Answer)
      requires Mid() && Slot(p.role) == Some(p)
      modifies this`script, this`closed, this`pending, this`pendingBytes, this`disconnecting
      modifies this`toldNow, this`toldAfterFlush, this`left, this`strays
      ensures Mid() && Later()
      ensures |script| < |old(script)| || (a.accepts && a.pressure == [] && !a.leaves)
      ensures a == NextAnswer(old(script)) && (old(script) != [] ==> script == old(script)[1..])
      ensures a.accepts ==> unchanged(`closed, `pending, `pendingBytes, `disconnecting, `strays)
    {
      if script == [] {
        return Answer(true, [], false);
      }
      a := script[0];
      script := script[1..];
      if !a.accepts && a.leaves {
        OnPeerDisconnected(p);
      }
    }

    /** The rest of it: the backpressure it reports, and perhaps its own end. */
    method Aftermath(p: Peer, a: Answer)
      requires Mid() && Slot(p.role) == Some(p)
      modifies this
      ensures Mid() && Later() && Orderly()
      ensures Calm()
      ensures p.role == Upstream && a.pressure != [] && !a.pressure[0] && old(Loose()) ==> overtaken
      decreases |script|, 4
    {
      Report(p.role, a.pressure);
      if a.leaves {
        OnPeerDisconnected(p);
      }
    }

    /** The backpressure a session reports while it is sent something. */
    method Report(r: Role, pressure: seq<bool>)
      requires Mid() && Slot(r).Some?
      modifies this
      ensures Mid() && Later() && Orderly()
      ensures Calm()
      ensures r == Upstream && pressure != [] && !pressure[0] && old(Loose()) ==> overtaken
      decreases |script|, 4, 0
    {
      for i := 0 to |pressure|
        invariant Mid() && Later() && Orderly()
        invariant Calm()
        invariant if i == 0 then old(Loose()) ==> Loose()
                  else r == Upstream && !pressure[0] && old(Loose()) ==> overtaken
      {
        OnPeerBackpressure(r, pressure[i]);
      }
    }

    /** One session's backpressure pauses the reading of the other; its end makes the other go on with
        what it kept back. */
    method OnPeerBackpressure(r: Role, active: bool)
      requires Mid()
      modifies this
      ensures Mid() && Later() && Orderly()
      ensures old(r == Downstream || upstream.Some?) ==> Calm()
      ensures !old(closed) && old(Reachable(Other(r))) && active
        ==> paused == old(paused) + {Other(r)}
      ensures active ==> SameButPaused()
      ensures r == Upstream && !active && old(Loose()) ==> overtaken
      ensures !active && !old(closed) && old(Reachable(Other(r))) ==> Resumed(Other(r))
      decreases |script|, 3
    {
      if closed {
        return;
      }
      var p := Lock(Other(r));
      if p == None || p.value in disconnecting {
        return;
      }
      if active {
        paused := paused + {Other(r)};
      } else {
        paused := paused - {Other(r)};
        Resume(Other(r));
      }
    }

    /** The session reads on and has forwarded what it kept back, unless the pair closes, it goes, or
        the other one answers what it is sent with more than taking it. */
    twostate predicate Resumed(r: Role)
      reads this
    {
      && (closed || !Reachable(r) || (r !in paused && Kept(r) == []) || |script| < |old(script)|)
      && (old(script) == [] && !closed ==> flow.From(r) == old(flow).From(r) + Flatten(old(Kept(r))))
    }

    /** A session that reads on forwards what it kept back, until it is paused again. */
    method Resume(r: Role)
      requires Mid() && Reachable(r) && r !in paused
      modifies this
      ensures Mid() && Later() && Orderly() && Calm()
      ensures r == Downstream && old(Loose()) ==> overtaken
      ensures Resumed(r)
      decreases |script|, 2
    {
      while Lock(r).Some? && Lock(r).value !in disconnecting && r !in paused && Kept(r) != []
        invariant Mid() && Later() && Orderly() && Calm()
        invariant r == Downstream && old(Loose()) ==> overtaken || (Loose() && r !in paused)
        invariant |script| == |old(script)| ==> r !in paused
        invariant old(script) == [] && !closed ==> Underway(r)
        decreases |Kept(r)|
      {
        SentFirst(flow.From(r), Kept(r));
        ForwardKept(r);
      }
    }

    /** What was sent and what is still kept back are what was to be sent. */
    twostate predicate Underway(r: Role)
      reads this
    {
      && script == [] && Reachable(r)
      && flow.From(r) + Flatten(Kept(r)) == old(flow).From(r) + Flatten(old(Kept(r)))
    }

    /** Forwards the first of what a session kept back. */
    method ForwardKept(r: Role)
      requires Mid() && Reachable(r) && Kept(r) != []
      modifies this
      ensures Mid() && Later() && Orderly() && Calm() && |Kept(r)| < |old(Kept(r))|
      ensures r == Downstream && old(Loose()) ==> overtaken
      ensures |script| == |old(script)| ==> paused == old(paused)
      ensures old(script) == [] && !closed ==>
        && script == [] && Reachable(r) && Kept(r) == old(Kept(r))[1..]
        && flow.From(r) == old(flow).From(r) + old(Kept(r))[0]
      decreases |script|, 2, 0
    {
      var data := TakeKept(r);
      Forward(r, data);
    }

    method TakeKept(r: Role) returns (data: Data)
      requires Mid() && Kept(r) != []
      modifies this`keptDown, this`keptUp
      ensures Mid() && data == old(Kept(r))[0]
      ensures r == Upstream ==> keptUp == old(keptUp)[1..] && keptDown == old(keptDown)
      ensures r == Downstream ==> keptDown == old(keptDown)[1..] && keptUp == old(keptUp)
    {
      if r == Upstream {
        data := keptUp[0];
        keptUp := keptUp[1..];
      } else {
        data := keptDown[0];
        keptDown := keptDown[1..];
      }
    }

    /** There is no upstream yet, and the data fits. */
    ghost predicate Room(data: seq<Byte>)
      reads this`closed, this`downstream, this`upstream, this`alive, this`pendingBytes
    {
      !closed && Lock(Upstream) == None && (limit != 0 ==> pendingBytes + |data| <= limit)
    }

    /** `data` waits behind what is pending, and nothing else has changed. */
    twostate predicate Queued(data: seq<Byte>)
      reads this
    {
      && pending == old(pending) + [data] && pendingBytes == old(pendingBytes) + |data|
      && flow == old(flow).(fromDownstream := old(flow).fromDownstream + data)
      && unchanged(`closed, `downstream, `upstream, `flushing, `alive, `disconnecting, `paused, `keptDown, `keptUp)
      && unchanged(`script, `attached, `strays, `overtaken, `left, `toldNow, `toldAfterFlush)
    }

    twostate predicate SameButPaused()
      reads this
    {
      && unchanged(`closed, `downstream, `upstream, `flushing, `alive, `disconnecting, `keptDown, `keptUp)
      && unchanged(`script, `attached, `strays, `overtaken, `left, `toldNow, `toldAfterFlush)
      && unchanged(`pending, `pendingBytes, `flow)
    }

    /** Keeps `data` for later, or closes the pair if that would exceed the limit. */
    method QueuePendingToUpstream(data: seq<Byte>)
      requires Mid() && !closed && Lock(Upstream) == None
      modifies this`closed, this`pending, this`pendingBytes, this`disconnecting, this`toldNow
      modifies this`flow
      ensures Mid() && Later() && flow == old(flow).(fromDownstream := old(flow).fromDownstream + data)
      ensures closed <==> limit != 0 && old(pendingBytes) + |data| > limit
      ensures !closed ==> Queued(data)
    {
      var nextSize := pendingBytes + |data|;
      if limit != 0 && nextSize > limit {
        Refuse(Downstream, data);
      } else {
        Keep(data);
      }
    }

    /** Keeps `data` behind what is pending. */
    method Keep(data: seq<Byte>)
      requires Mid() && !closed && Lock(Upstream) == None && (limit != 0 ==> pendingBytes + |data| <= limit)
      modifies this`pending, this`pendingBytes, this`flow
      ensures Mid() && pending == old(pending) + [data] && pendingBytes == old(pendingBytes) + |data|
      ensures flow == old(flow).(fromDownstream := old(flow).fromDownstream + data)
    {
      FlattenAppend(pending, [data]);
      FlattenOne(data);
      pendingBytes := pendingBytes + |data|;
      pending := pending + [data];
      flow := flow.(fromDownstream := flow.fromDownstream + data);
    }

    /** The upstream has taken `data`; chunks of a flush in progress are overtaken by it. */
    method PassUp(data: seq<Byte>)
      requires Mid() && !closed && Lock(Upstream).Some?
      modifies this`flow, this`overtaken
      ensures Mid() && overtaken == (old(overtaken) || flushing != [])
      ensures flow == old(flow).(fromDownstream := old(flow).fromDownstream + data,
                                 toUpstream := old(flow).toUpstream + data)
    {
      flow := flow.(fromDownstream := flow.fromDownstream + data, toUpstream := flow.toUpstream + data);
      if flushing != [] {
        overtaken := true;
      }
    }

    method PassDown(data: seq<Byte>)
      requires Mid() && !closed
      modifies this`flow
      ensures Mid()
      ensures flow == old(flow).(fromUpstream := old(flow).fromUpstream + data,
                                 toDownstream := old(flow).toDownstream + data)
    {
      flow := flow.(fromUpstream := flow.fromUpstream + data, toDownstream := flow.toDownstream + data);
    }

    /** Data nobody takes closes the pair. */
    method Refuse(r: Role, data: seq<Byte>)
      requires Mid()
      modifies this`closed, this`pending, this`pendingBytes, this`disconnecting, this`toldNow
      modifies this`flow
      ensures Mid() && closed && old(disconnecting) <= disconnecting
      ensures flow == if r == Downstream then old(flow).(fromDownstream := old(flow).fromDownstream + data)
                      else old(flow).(fromUpstream := old(flow).fromUpstream + data)
    {
      ClosePair();
      if r == Downstream {
        flow := flow.(fromDownstream := flow.fromDownstream + data);
      } else {
        flow := flow.(fromUpstream := flow.fromUpstream + data);
      }
    }

    /** The session has sent `data`, and nothing came of it on this side. */
    twostate predicate Passed(r: Role, data: seq<Byte>)
      reads this
    {
      && flow.From(r) == old(flow).From(r) + data && script == old(script)
      && paused == old(paused) && keptDown == old(keptDown) && keptUp == old(keptUp)
      && disconnecting == old(disconnecting)
    }

    /** Data from one session goes to the other one. Data from the downstream waits if there is no
        upstream yet; data from the upstream with nobody to take it closes the pair. */
    method Forward(r: Role, data: seq<Byte>)
      requires Mid()
      modifies this
      ensures Mid() && Later() && Calm()
      ensures r == Upstream || old(flushing) == [] ==> Orderly()
      ensures old(closed) ==> unchanged(this)
      ensures !old(closed) ==> old(flow).From(r) + data <= flow.From(r)
      ensures |script| == |old(script)| ==> paused == old(paused)
      ensures old(script) == [] && !closed ==> Passed(r, data)
      ensures r == Downstream && data != [] && old(Passing()) ==> overtaken
      ensures r == Downstream && data != [] && old(Room(data)) ==> Queued(data)
      decreases |script|, 1
    {
      if closed || data == [] {
        return;
      }
      var p := Lock(Other(r));
      if p == None {
        ForwardToNobody(r, data);
        return;
      }
      var a := Offer(r, p.value, data);
      if a.accepts && (a.pressure != [] || a.leaves) {
        Aftermath(p.value, a);
      }
    }

    /** The other session takes `data` or, if it does not, the pair closes. */
    method Offer(r: Role, p: Peer, data: seq<Byte>) returns (a: Answer)
      requires Mid() && !closed && Lock(Other(r)) == Some(p)
      modifies this`script, this`closed, this`pending, this`pendingBytes, this`disconnecting
      modifies this`toldNow, this`toldAfterFlush, this`left, this`strays, this`flow, this`overtaken
      ensures Mid() && Later() && closed == !a.accepts && a == NextAnswer(old(script))
      ensures |script| < |old(script)| || (a.pressure == [] && !a.leaves)
      ensures flow.From(r) == old(flow).From(r) + data && flow.From(Other(r)) == old(flow).From(Other(r))
      ensures a.accepts ==> disconnecting == old(disconnecting)
      ensures overtaken == (old(overtaken) || (r == Downstream && a.accepts && flushing != []))
    {
      if r == Downstream {
        a := OfferUp(p, data);
      } else {
        a := OfferDown(p, data);
      }
    }

    method ForwardToNobody(r: Role, data: seq<Byte>)
      requires Mid() && !closed && Lock(Other(r)) == None
      modifies this`closed, this`pending, this`pendingBytes, this`disconnecting, this`toldNow
      modifies this`flow
      ensures Mid() && Later()
      ensures flow == if r == Downstream then old(flow).(fromDownstream := old(flow).fromDownstream + data)
                      else old(flow).(fromUpstream := old(flow).fromUpstream + data)
      ensures r == Upstream ==> closed
      ensures r == Downstream && old(Room(data)) ==> Queued(data)
      ensures r == Downstream ==> (closed <==> limit != 0 && old(pendingBytes) + |data| > limit)
    {
      if r == Downstream {
        QueuePendingToUpstream(data);
      } else {
        Refuse(r, data);
      }
    }

    /** The upstream takes `data` or, if it does not, the pair closes. */
    method OfferUp(p: Peer, data: seq<Byte>) returns (a: Answer)
      requires Mid() && !closed && Lock(Upstream) == Some(p)
      modifies this`script, this`closed, this`pending, this`pendingBytes, this`disconnecting
      modifies this`toldNow, this`toldAfterFlush, this`left, this`strays, this`flow, this`overtaken
      ensures Mid() && Later() && closed == !a.accepts && a == NextAnswer(old(script))
      ensures |script| < |old(script)| || (a.pressure == [] && !a.leaves)
      ensures a.accepts ==> flow == old(flow).(fromDownstream := old(flow).fromDownstream + data,
                                               toUpstream := old(flow).toUpstream + data)
      ensures !a.accepts ==> flow == old(flow).(fromDownstream := old(flow).fromDownstream + data)
      ensures overtaken == (old(overtaken) || (a.accepts && flushing != []))
      ensures a.accepts ==> disconnecting == old(disconnecting)
    {
      a := Ask(p);
      if a.accepts {
        PassUp(data);
      } else {
        Refuse(Downstream, data);
      }
    }

    method OfferDown(p: Peer, data: seq<Byte>) returns (a: Answer)
      requires Mid() && !closed && Lock(Downstream) == Some(p)
      modifies this`script, this`closed, this`pending, this`pendingBytes, this`disconnecting
      modifies this`toldNow, this`toldAfterFlush, this`left, this`strays, this`flow
      ensures Mid() && Later() && closed == !a.accepts
      ensures |script| < |old(script)| || (a.pressure == [] && !a.leaves)
      ensures a.accepts ==> flow == old(flow).(fromUpstream := old(flow).fromUpstream + data,
                                               toDownstream := old(flow).toDownstream + data)
      ensures !a.accepts ==> flow == old(flow).(fromUpstream := old(flow).fromUpstream + data)
      ensures a == NextAnswer(old(script)) && (a.accepts ==> disconnecting == old(disconnecting))
    {
      a := Ask(p);
      if a.accepts {
        PassDown(data);
      } else {
        Refuse(Upstream, data);
      }
    }

    // ---------------------------------------------------------------- attaching

    /** The upstream has taken the first chunk of the flush. */
    method HandOver()
      requires Mid() && flushing != []
      modifies this`flow, this`flushing
      ensures Mid() && flushing == old(flushing)[1..]
      ensures flow == old(flow).(toUpstream := old(flow).toUpstream + old(flushing)[0])
    {
      FlattenFront(flushing);
      assert flow.toUpstream + Waiting() == flow.toUpstream + flushing[0] + (Flatten(flushing[1..]) + Flatten(pending));
      flow := flow.(toUpstream := flow.toUpstream + flushing[0]);
      flushing := flushing[1..];
    }

    /** The flush of `n` chunks is overtaken after the first: the upstream takes it and reports the end
        of backpressure, and then takes what the downstream kept back. */
    ghost predicate Overtakes(n: nat)
      reads this`closed, this`downstream, this`upstream, this`alive, this`disconnecting, this`script, this`keptDown
    {
      && !closed && n >= 2 && keptDown != [] && Reachable(Downstream)
      && NextAnswer(script).accepts && NextAnswer(script).pressure != [] && !NextAnswer(script).pressure[0]
      && NextAnswer(script[1..]).accepts
    }

    /** What a flush keeps. */
    twostate predicate Flushes()
      reads this
    {
      && (old(closed) ==> closed)
      && old(attached) == attached && old(left) <= left
      && alive == old(alive) && downstream == old(downstream) && upstream == old(upstream)
      && |script| <= |old(script)| && |keptDown| <= |old(keptDown)|
      && old(flow).fromDownstream <= flow.fromDownstream
      && strays == old(strays) && old(disconnecting) <= disconnecting && (old(overtaken) ==> overtaken)
    }

    method FlushChunk(p: Peer) returns (ok: bool)
      requires Mid() && flushing != [] && Lock(Upstream) == Some(p)
      modifies this
      ensures Mid() && Flushes() && Lock(Upstream) == Some(p)
      ensures ok ==> flushing == old(flushing)[1..]
      ensures !ok ==> closed && flushing == []
      ensures old(keptDown == [] || |flushing| == 1 || !Reachable(Downstream)) ==> overtaken == old(overtaken)
      ensures old(Overtakes(|flushing|)) ==> overtaken
    {
      var a := Ask(p);
      if !a.accepts {
        GiveUpFlush();
        return false;
      }
      HandOver();
      Aftermath(p, a);
      return true;
    }

    method GiveUpFlush()
      requires Mid()
      modifies this`closed, this`pending, this`pendingBytes, this`disconnecting, this`toldNow, this`flushing
      ensures Valid() && closed && old(disconnecting) <= disconnecting
    {
      ClosePair();
      flushing := [];
    }

    /** The chunks kept while the upstream was connecting are handed over in order. */
    method FlushPendingToUpstream(p: Peer)
      requires Mid() && Lock(Upstream) == Some(p)
      modifies this
      ensures Valid() && Flushes() && Lock(Upstream) == Some(p)
      ensures old(keptDown == [] || |flushing| <= 1 || !Reachable(Downstream)) ==> overtaken == old(overtaken)
      ensures old(Overtakes(|flushing|)) ==> overtaken
      ensures !closed && !overtaken ==> flow.toUpstream == flow.fromDownstream
    {
      while flushing != []
        invariant Mid() && Flushes() && Lock(Upstream) == Some(p)
        invariant |flushing| <= |old(flushing)|
        invariant old(keptDown == [] || |flushing| <= 1 || !Reachable(Downstream)) ==> overtaken == old(overtaken)
        invariant old(Overtakes(|flushing|)) ==> overtaken || Overtakes(|flushing|)
        decreases |flushing|
      {
        var ok := FlushChunk(p);
        if !ok {
          return;
        }
      }
    }

    /** Puts a session into its slot; one that was there before becomes a stray. */
    method Place(r: Role, p: Option<Peer>)
      requires NoHalfOpen() && !closed && Peers(p) <= alive && (p.Some? ==> p.value.role == r)
      modifies this`downstream, this`upstream, this`attached, this`strays
      ensures NoHalfOpen() && Slot(r) == p && Slot(Other(r)) == old(Slot(Other(r)))
      ensures attached == old(attached) + Peers(p) && strays == old(strays) + (old(Peers(Slot(r))) - Peers(p))
    {
      attached := attached + Peers(p);
      strays := strays + (Peers(Slot(r)) - Peers(p));
      if r == Upstream {
        upstream := p;
      } else {
        downstream := p;
      }
    }

    /** The pending chunks are moved out of the bridge. */
    method TakePending()
      requires Bounded() && flushing == [] && (!overtaken ==> InOrder())
      modifies this`pending, this`pendingBytes, this`flushing
      ensures Bounded() && (!overtaken ==> InOrder()) && flushing == old(pending) && pending == []
    {
      flushing, pending, pendingBytes := pending, [], 0;
    }

    /** A session attached to a closed pair is told to go. */
    method AttachLate(p: Option<Peer>)
      requires Valid() && closed && Peers(p) <= alive
      modifies this`disconnecting, this`toldNow, this`attached
      ensures Valid() && attached == old(attached) + Peers(p) && Peers(p) <= toldNow + disconnecting
      ensures old(disconnecting) <= disconnecting
    {
      attached := attached + Peers(p);
      if p.Some? && p.value !in disconnecting {
        toldNow := toldNow + {p.value};
        if * {
          disconnecting := disconnecting + {p.value};
        }
      }
    }

    method AttachDownstream(p: Option<Peer>)
      requires Valid() && Peers(p) <= alive && (p.Some? ==> p.value.role == Downstream)
      modifies this
      ensures Valid() && attached == old(attached) + Peers(p) && alive == old(alive)
      ensures closed == old(closed) && overtaken == old(overtaken)
      ensures closed ==> Peers(p) <= toldNow + disconnecting
      ensures !closed ==> downstream == p && keptDown == [] && unchanged(`toldNow, `toldAfterFlush, `disconnecting)
      ensures closed ==> downstream == old(downstream) && keptDown == old(keptDown)
      ensures upstream == old(upstream) && paused <= old(paused)
      ensures strays == old(strays) + if old(closed) then {} else old(Peers(downstream)) - Peers(p)
      ensures unchanged(`flow, `left, `pending)
    {
      if closed {
        AttachLate(p);
      } else {
        Place(Downstream, p);
        paused, keptDown := paused - {Downstream}, [];
      }
    }

    /** The kept chunks are handed over across the attach, in order unless the downstream keeps back
        data of its own, can be resumed, and two chunks or more are pending. Then it depends on what
        the upstream does when it is sent the first chunk. */
    method AttachUpstream(p: Option<Peer>)
      requires Valid() && Peers(p) <= alive && (p.Some? ==> p.value.role == Upstream)
      modifies this
      ensures Valid() && attached == old(attached) + Peers(p) && alive == old(alive)
      ensures old(closed) ==> closed && Peers(p) <= toldNow + disconnecting
      ensures old(closed) ==> upstream == old(upstream) && unchanged(`flow, `paused, `keptDown)
      ensures !old(closed) ==> upstream == p
      ensures downstream == old(downstream)
      ensures strays == old(strays) + if old(closed) then {} else old(Peers(upstream)) - Peers(p)
      ensures !closed && !overtaken && p.Some? ==> flow.toUpstream == flow.fromDownstream
      ensures old(keptDown == [] || |pending| <= 1 || !Reachable(Downstream)) ==> overtaken == old(overtaken)
      ensures p.Some? && old(Overtakes(|pending|)) ==> overtaken
      ensures old(flow).fromDownstream <= flow.fromDownstream && old(left) <= left
    {
      if closed {
        AttachLate(p);
        return;
      }
      Admit(p);
      if p.Some? {
        FlushPendingToUpstream(p.value);
      }
    }

    /** The upstream is in its slot, and the pending chunks are moved out if it is there. */
    method Admit(p: Option<Peer>)
      requires Valid() && !closed && Peers(p) <= alive && (p.Some? ==> p.value.role == Upstream)
      modifies this`upstream, this`downstream, this`attached, this`strays
      modifies this`paused, this`keptUp, this`pending, this`pendingBytes, this`flushing
      ensures Mid() && upstream == p && downstream == old(downstream)
      ensures attached == old(attached) + Peers(p) && strays == old(strays) + (old(Peers(upstream)) - Peers(p))
      ensures flushing == if p.Some? then old(pending) else []
    {
      Place(Upstream, p);
      paused, keptUp := paused - {Upstream}, [];
      if p.Some? {
        TakePending();
      }
    }

    // ---------------------------------------------------------------- runs

    /** A session of this pair is created. */
    method Appear(p: Peer)
      requires Valid() && p !in disconnecting
      modifies this`alive
      ensures Valid() && alive == old(alive) + {p}
    {
      alive := alive + {p};
    }

    /** A session starts to disconnect by itself; later the last reference to it goes. */
    method PeerStep(p: Peer)
      requires Valid()
      modifies this`alive, this`disconnecting
      ensures Valid() && old(disconnecting) <= disconnecting
    {
      if p in disconnecting {
        alive := alive - {p};
      } else {
        disconnecting := disconnecting + {p};
      }
    }

    twostate predicate SameButKept()
      reads this
    {
      && unchanged(`closed, `downstream, `upstream, `flushing, `alive, `disconnecting, `paused, `keptUp)
      && unchanged(`script, `attached, `strays, `overtaken, `left, `toldNow, `toldAfterFlush)
      && unchanged(`pending, `pendingBytes, `flow)
    }

    /** Data arrives at a session, which keeps it back while its reading is paused. */
    method Receive(r: Role, data: seq<Byte>)
      requires Valid()
      modifies this
      ensures Valid() && Calm() && overtaken == old(overtaken)
      ensures (old(closed) ==> closed && flow == old(flow)) && strays == old(strays)
      ensures attached == old(attached)
      ensures upstream == old(upstream) && downstream == old(downstream)
      ensures r == Upstream || Downstream !in old(paused) ==> |keptDown| <= |old(keptDown)|
      ensures r == Downstream && data != [] && Downstream !in old(paused) && old(Room(data)) ==> Queued(data)
      ensures r == Downstream && data != [] && Downstream in old(paused) ==>
        keptDown == old(keptDown) + [data] && SameButKept()
    {
      if data == [] {
        return;
      }
      if r in paused {
        if r == Upstream {
          keptUp := keptUp + [data];
        } else {
          keptDown := keptDown + [data];
        }
      } else {
        Forward(r, data);
      }
    }

    /** The pair has at most the sessions `d` and `u`, and before there is an upstream nothing has
        paused the downstream. */
    ghost predicate Single(d: Peer, u: Peer)
      reads this`downstream, this`upstream, this`paused, this`keptDown
    {
      && Peers(downstream) <= {d} && Peers(upstream) <= {u}
      && (upstream == None ==> Downstream !in paused && keptDown == [])
    }

    /** Something happens to session `p`, the one of its role if `single`. */
    method PeerEvent(p: Peer, single: bool, d: Peer, u: Peer)
      requires Valid() && d.role == Downstream && u.role == Upstream
      requires single ==> p in {d, u} && Single(d, u)
      modifies this
      ensures Valid() && (old(closed) ==> closed && flow == old(flow)) && old(attached) <= attached
      ensures single ==> Single(d, u) && strays == old(strays) && overtaken == old(overtaken)
    {
      if
      case true => PeerStep(p);
      case true => OnPeerDisconnected(p);
      case p !in disconnecting => Appear(p);
      case p in alive && p.role == Downstream => AttachDownstream(Some(p));
      case p in alive && p.role == Upstream => AttachUpstream(Some(p));
    }

    /** Data arrives at a session or it reports backpressure. An upstream session that has not been
        attached has not been sent anything, so it reports none. */
    method DataEvent(r: Role, single: bool, d: Peer, u: Peer)
      requires Valid() && (single ==> Single(d, u))
      modifies this
      ensures Valid() && (old(closed) ==> closed && flow == old(flow)) && old(attached) <= attached
      ensures single ==> Single(d, u) && strays == old(strays) && overtaken == old(overtaken)
    {
      var data: seq<Byte>, active: bool := *, *;
      if
      case true => Receive(r, data);
      case !single || upstream.Some? || r == Downstream => OnPeerBackpressure(r, active);
      case true => ClosePair();
    }

    /** Over every run of any sessions closing is permanent and nobody but a stray is left half open,
        and the bytes are in order unless a flush was overtaken. With one session per role there are
        no strays and no flush is overtaken. */
    method Run(steps: nat, single: bool, d: Peer, u: Peer)
      requires Valid() && d.role == Downstream && u.role == Upstream && (single ==> Single(d, u))
      modifies this
      ensures Valid() && (old(closed) ==> closed && flow == old(flow))
      ensures single ==> strays == old(strays) && overtaken == old(overtaken)
    {
      for i := 0 to steps
        invariant Valid() && (old(closed) ==> closed && flow == old(flow))
        invariant single ==> Single(d, u) && strays == old(strays) && overtaken == old(overtaken)
      {
        var p: Peer, r: Role, peers: bool := *, *, *;
        script := *;
        if single {
          p := if r == Downstream then d else u;
        }
        if peers {
          PeerEvent(p, single, d, u);
        } else {
          DataEvent(r, single, d, u);
        }
      }
    }
  }

  /** Exactly then: if two chunks or more are pending and a downstream that can be resumed has kept
      something back, an upstream that reports the end of backpressure overtakes the flush. */
  method FlushOvertaken(b: ProxyBridge, u: Peer)
    requires b.Valid() && !b.closed && u.role == Upstream && u in b.alive
    requires |b.pending| >= 2 && b.keptDown != [] && b.Reachable(Downstream)
    modifies b
    ensures b.Valid() && b.overtaken
  {
    b.script := [Answer(true, [false], false)];
    assert b.script[1..] == [];
    b.AttachUpstream(Some(u));
  }

  /** A run that comes to it. Two chunks wait for the upstream; a session that is not attached reports
      backpressure for the upstream and pauses the downstream, which keeps back a third. */
  method TwoPendingOneKept(d: Peer, u: Peer) returns (b: ProxyBridge)
    requires d.role == Downstream && u.role == Upstream
    ensures fresh(b) && b.Valid() && !b.closed && b.alive == {d, u} && b.upstream == None && b.Reachable(Downstream)
    ensures b.pending == [[1], [2]] && b.keptDown == [[3]] && b.flow == Flow([1, 2], [], [], [])
  {
    b := WithDownstream(d, u);
    b.Receive(Downstream, [1]);
    b.Receive(Downstream, [2]);
    KeepBack(b, [3]);
  }

  method WithDownstream(d: Peer, u: Peer) returns (b: ProxyBridge)
    requires d.role == Downstream && u.role == Upstream
    ensures fresh(b) && b.Valid() && !b.closed && b.alive == {d, u} && b.upstream == None && b.Reachable(Downstream)
    ensures b.limit == 0 && b.paused == {} && b.pending == [] && b.keptDown == [] && b.flow == Flow([], [], [], [])
  {
    b := new ProxyBridge(0);
    b.Appear(d);
    b.Appear(u);
    b.AttachDownstream(Some(d));
  }

  method KeepBack(b: ProxyBridge, data: Data)
    requires b.Valid() && !b.closed && b.Reachable(Downstream) && b.keptDown == []
    modifies b
    ensures b.Valid() && b.keptDown == [data] && b.closed == old(b.closed) && b.Reachable(Downstream)
    ensures b.pending == old(b.pending) && b.flow == old(b.flow) && b.alive == old(b.alive) && b.upstream == old(b.upstream)
  {
    b.OnPeerBackpressure(Upstream, true);
    b.Receive(Downstream, data);
  }

  /** The upstream is attached and gets the bytes out of order: it takes the first chunk and reports
      the end of backpressure, the downstream forwards what it kept, the second chunk follows. */
  method OutOfOrder(d: Peer, u: Peer) returns (b: ProxyBridge)
    requires d.role == Downstream && u.role == Upstream
    ensures b.flow == Flow([1, 2, 3], [1, 3, 2], [], []) && b.overtaken && b.flushing == []
  {
    b := TwoPendingOneKept(d, u);
    b.Admit(Some(u));
    b.HandOver();
    var data := b.TakeKept(Downstream);
    b.PassUp(data);
    b.HandOver();
  }

  /** A second downstream attached to an open pair makes the first a stray: the pair closes, and it is
      not told. */
  method StrayIsNotTold(b: ProxyBridge, d1: Peer, d2: Peer)
    requires b.Valid() && !b.closed && b.downstream == Some(d1) && b.upstream == None
    requires d1 != d2 && d2.role == Downstream && d2 in b.alive
    requires d1 !in b.toldNow + b.toldAfterFlush + b.disconnecting + b.left
    modifies b
    ensures b.closed && d1 in b.attached
    ensures d1 !in b.toldNow + b.toldAfterFlush + b.disconnecting + b.left
  {
    b.AttachDownstream(Some(d2));
    b.ClosePair();
  }
}
