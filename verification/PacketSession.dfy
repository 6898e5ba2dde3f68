/** The reassembly buffer: a fixed array with a read and a write position. */
module RecvBuffers {
  import opened Bytes

  class RecvBuffer {
    const buffer: array<Byte>
    var readPos: nat
    var writePos: nat

    ghost predicate Valid()
      reads this
    {
      readPos <= writePos <= buffer.Length
    }

    /** What is readable. */
    ghost function Contents(): seq<Byte>
      requires Valid()
      reads this, buffer
    {
      buffer[readPos..writePos]
    }

    constructor (size: nat)
      ensures Valid() && fresh(buffer) && buffer.Length == size && Contents() == []
    {
      buffer := new Byte[size](_ => 0);
      readPos, writePos := 0, 0;
    }

    function ReadableSize(): nat
      requires Valid()
      reads this
    {
      writePos - readPos
    }

    function WritableSize(): nat
      requires Valid()
      reads this
    {
      buffer.Length - writePos
    }

    /** Moves the readable bytes to the front of the array. */
    method Compact()
      requires Valid()
      modifies this, buffer
      ensures Valid() && readPos == 0 && Contents() == old(Contents())
    {
      if readPos == 0 {
        return;
      }
      var remaining := writePos - readPos;
      forall i | 0 <= i < remaining {
        buffer[i] := buffer[readPos + i];
      }
      readPos := 0;
      writePos := remaining;
    }

    /** Appends all of `data`, compacting if that makes it fit, or refuses all of it. */
    method Append(data: seq<Byte>) returns (ok: bool)
      requires Valid()
      modifies this, buffer
      ensures Valid()
      ensures ok <==> |old(Contents())| + |data| <= buffer.Length
      ensures Contents() == old(Contents()) + if ok then data else []
    {
      if WritableSize() < |data| {
        Compact();
      }
      if WritableSize() < |data| {
        return false;
      }
      forall i | 0 <= i < |data| {
        buffer[writePos + i] := data[i];
      }
      writePos := writePos + |data|;
      return true;
    }

    /** Drops `bytes` bytes. Nothing keeps the read position behind the write position if that is
        more than there is. */
    method OnRead(bytes: nat)
      requires Valid()
      modifies this
      ensures Valid() <==> bytes <= |old(Contents())|
      ensures Valid() ==> Contents() == old(Contents())[bytes..]
    {
      readPos := readPos + bytes;
      if readPos == writePos {
        readPos, writePos := 0, 0;
      }
    }
  }
}

/** Length-prefixed packets: how they are built, and what a byte stream means. */
module Packets {
  import opened Bytes

  const HEADER_SIZE: nat := 4
  const MAX_PACKET_SIZE: nat := 65535

  datatype Packet = Packet(id: nat, payload: seq<Byte>)

  /** The number in two bytes, the low one first. */
  ghost function Le16(s: seq<Byte>, at: nat): nat
    requires at + 2 <= |s|
  {
    (s[at] as int) + 256 * (s[at + 1] as int)
  }

  method ReadLe16(s: seq<Byte>, at: nat) returns (value: nat)
    requires at + 2 <= |s|
    ensures value == Le16(s, at) && value % 256 == s[at] as int && value / 256 == s[at + 1] as int
  {
    value := s[at + 1] as int * 256;
    value := value + s[at] as int;
  }

  predicate Buildable(p: Packet) {
    p.id < 65536 && HEADER_SIZE + |p.payload| <= MAX_PACKET_SIZE
  }

  /** Little-endian size and id, then the payload. */
  function Frame(p: Packet): seq<Byte>
    requires Buildable(p)
  {
    var size := HEADER_SIZE + |p.payload|;
    [size % 256, size / 256, p.id % 256, p.id / 256] + p.payload
  }

  datatype Parsed = Parsed(packets: seq<Packet>, rest: seq<Byte>, ok: bool)

  /** The meaning of a byte stream: its complete packets, the incomplete rest, and whether every
      header met so far was valid. */
  ghost function Parse(s: seq<Byte>): Parsed
    decreases |s|
  {
    if |s| < HEADER_SIZE then Parsed([], s, true)
    else
      var size := Le16(s, 0);
      if size < HEADER_SIZE then Parsed([], s, false)
      else if |s| < size then Parsed([], s, true)
      else
        Cons(Packet(Le16(s, 2), s[HEADER_SIZE..size]), Parse(s[size..]))
  }

  function Cons(p: Packet, q: Parsed): Parsed {
    q.(packets := [p] + q.packets)
  }

  /** A strict prefix of one packet. */
  ghost predicate Incomplete(s: seq<Byte>) {
    |s| < HEADER_SIZE || (HEADER_SIZE <= Le16(s, 0) && |s| < Le16(s, 0))
  }

  lemma {:induction false} RestIsIncomplete(s: seq<Byte>)
    ensures Parse(s).ok ==> Incomplete(Parse(s).rest)
    decreases |s|
  {
    if |s| >= HEADER_SIZE && HEADER_SIZE <= Le16(s, 0) <= |s| {
      RestIsIncomplete(s[Le16(s, 0)..]);
    }
  }

  function Then(p: Parsed, q: Parsed): Parsed {
    Parsed(p.packets + q.packets, q.rest, q.ok)
  }

  /** Reading on is the same as reading anew from the rest. */
  lemma {:induction false} ParseAppend(a: seq<Byte>, b: seq<Byte>)
    ensures Parse(a).ok ==> Parse(a + b) == Then(Parse(a), Parse(Parse(a).rest + b))
    ensures !Parse(a).ok ==> !Parse(a + b).ok && Parse(a + b).packets == Parse(a).packets
    decreases |a|
  {
    if |a| >= HEADER_SIZE && HEADER_SIZE <= Le16(a, 0) <= |a| {
      var tail := a[Le16(a, 0)..];
      ParseAppend(tail, b);
      ParseStep(a, b);
      ParseStep(a, []);
      assert a + [] == a && tail + [] == tail;
      ConsThen(Packet(Le16(a, 2), a[HEADER_SIZE..Le16(a, 0)]), Parse(tail), Parse(Parse(tail).rest + b));
    }
  }

  lemma ConsThen(p: Packet, x: Parsed, y: Parsed)
    ensures Then(Cons(p, x), y) == Cons(p, Then(x, y))
  {
    assert ([p] + x.packets) + y.packets == [p] + (x.packets + y.packets);
  }

  lemma ParseStep(a: seq<Byte>, b: seq<Byte>)
    requires |a| >= HEADER_SIZE && HEADER_SIZE <= Le16(a, 0) <= |a|
    ensures var size := Le16(a, 0);
            var p := Packet(Le16(a, 2), a[HEADER_SIZE..size]);
            Parse(a + b) == Cons(p, Parse(a[size..] + b))
  {
    var size := Le16(a, 0);
    assert Le16(a + b, 0) == size && Le16(a + b, 2) == Le16(a, 2);
    assert (a + b)[size..] == a[size..] + b;
    assert (a + b)[HEADER_SIZE..size] == a[HEADER_SIZE..size];
  }

  /** A frame in front of anything is read as its packet. */
  lemma {:induction false} ParseFrame(p: Packet, rest: seq<Byte>)
    requires Buildable(p)
    ensures Parse(Frame(p) + rest) == Cons(p, Parse(rest))
  {
    var s := Frame(p) + rest;
    assert Le16(s, 0) == |Frame(p)| && Le16(s, 2) == p.id;
    assert s[|Frame(p)|..] == rest;
    assert s[HEADER_SIZE..|Frame(p)|] == p.payload;
  }

  ghost function Stream(ps: seq<Packet>): seq<Byte>
    requires forall p :: p in ps ==> Buildable(p)
  {
    if ps == [] then [] else Frame(ps[0]) + Stream(ps[1..])
  }

  /** Round trip: the packets of a stream of frames are the packets framed. */
  lemma {:induction false} ParseStream(ps: seq<Packet>)
    requires forall p :: p in ps ==> Buildable(p)
    ensures Parse(Stream(ps)) == Parsed(ps, [], true)
  {
    if ps != [] {
      ParseStream(ps[1..]);
      ParseFrame(ps[0], Stream(ps[1..]));
      assert [ps[0]] + ps[1..] == ps;
    }
  }

  /** `PacketBuilder::Build`: fills a buffer, if one is `available`; too large a payload gives none. */
  method Build(id: nat, payload: seq<Byte>, available: bool) returns (r: array?<Byte>)
    requires id < 65536
    ensures r != null ==> fresh(r) && Buildable(Packet(id, payload)) && r[..] == Frame(Packet(id, payload))
    ensures r == null <==> HEADER_SIZE + |payload| > 65535 || !available
  {
    var size := HEADER_SIZE + |payload|;
    if size > MAX_PACKET_SIZE {
      return null;
    }
    if !available {
      return null;
    }
    r := new Byte[size](_ => 0);
    r[0], r[1] := size % 256, size / 256;
    r[2], r[3] := id % 256, id / 256;
    Fill(r, payload);
    assert r[..] == r[..4] + payload;
  }

  /** Copies the payload behind the header. */
  method Fill(r: array<Byte>, payload: seq<Byte>)
    requires r.Length == HEADER_SIZE + |payload|
    modifies r
    ensures r[..] == old(r[..4]) + payload
  {
    forall i | 0 <= i < |payload| {
      r[HEADER_SIZE + i] := payload[i];
    }
    assert r[..4] == old(r[..4]) && r[4..] == payload;
  }
}

/** The session that cuts a received byte stream into packets. */
module PacketSessions {
  import opened Bytes
  import opened RecvBuffers
  import opened Packets

  const RECV_BUFFER_SIZE: nat := 65536

  /** One turn of the loop: a packet was read up to `next`, through the buffer or straight from the
      chunk; or the rest of the chunk is kept; or a header is invalid. */
  datatype Outcome = Taken(next: nat, buffered: bool) | Kept | Invalid

  /** The stream `all` begins with the one packet emitted since `before`, and goes on with `rest`. */
  ghost predicate Emitted(before: seq<Packet>, after: seq<Packet>, all: seq<Byte>, rest: seq<Byte>) {
    && |after| == |before| + 1 && after[..|before|] == before && |rest| < |all|
    && Parse(all) == Cons(after[|before|], Parse(rest))
  }

  /** A complete packet at `offset` is emitted. */
  lemma TakeStep(before: seq<Packet>, data: seq<Byte>, offset: nat)
    requires offset + HEADER_SIZE <= |data| && HEADER_SIZE <= Le16(data, offset) <= |data| - offset
    ensures var size := Le16(data, offset);
      var p := Packet(Le16(data, offset + 2), data[offset + HEADER_SIZE..offset + size]);
      Emitted(before, before + [p], data[offset..], data[offset + size..])
  {
    var all, size := data[offset..], Le16(data, offset);
    assert Le16(all, 0) == size && Le16(all, 2) == Le16(data, offset + 2);
    assert all[size..] == data[offset + size..] && all[HEADER_SIZE..size] == data[offset + HEADER_SIZE..offset + size];
    ParseFirst(all, size);
    EmitOne(before, Packet(Le16(all, 2), all[HEADER_SIZE..size]), all, data[offset + size..]);
  }

  lemma ParseFirst(s: seq<Byte>, size: nat)
    requires HEADER_SIZE <= size <= |s| && Le16(s, 0) == size
    ensures Parse(s) == Cons(Packet(Le16(s, 2), s[HEADER_SIZE..size]), Parse(s[size..]))
  {
  }

  lemma EmitOne(before: seq<Packet>, p: Packet, all: seq<Byte>, rest: seq<Byte>)
    requires Parse(all) == Cons(p, Parse(rest)) && |rest| < |all|
    ensures Emitted(before, before + [p], all, rest)
  {
  }

  /** Since `start` exactly the packets of a stream before those of `todo` were emitted. */
  ghost predicate Between(start: seq<Packet>, now: seq<Packet>, all: Parsed, todo: Parsed) {
    && start <= now
    && all == Then(Parsed(now[|start|..], [], true), todo)
  }

  ghost predicate Reading(start: seq<Packet>, now: seq<Packet>, all: seq<Byte>, todo: seq<Byte>) {
    Between(start, now, Parse(all), Parse(todo))
  }

  /** A stream was read to its end: its packets were emitted since `start`, and either the incomplete
      rest is kept or a header was invalid. */
  ghost predicate Ended(start: seq<Packet>, now: seq<Packet>, connected: bool, held: seq<Byte>, all: Parsed) {
    now == start + all.packets && connected == all.ok && (all.ok ==> held == all.rest)
  }

  ghost predicate Reads(start: seq<Packet>, now: seq<Packet>, connected: bool, held: seq<Byte>, all: seq<Byte>) {
    Ended(start, now, connected, held, Parse(all))
  }

  lemma BetweenEnds(start: seq<Packet>, now: seq<Packet>, all: Parsed, todo: Parsed)
    requires Between(start, now, all, todo) && todo.packets == []
    ensures Ended(start, now, todo.ok, todo.rest, all)
  {
    assert start + now[|start|..] == now;
    assert now[|start|..] + [] == now[|start|..];
  }

  /** Reading is over when what is left is a strict prefix of a packet, or an invalid header. */
  lemma ReadingEnds(start: seq<Packet>, now: seq<Packet>, all: seq<Byte>, todo: seq<Byte>)
    requires Reading(start, now, all, todo)
    requires Incomplete(todo) || (Parse(todo).packets == [] && !Parse(todo).ok)
    ensures Reads(start, now, Incomplete(todo), todo, all)
  {
    BetweenEnds(start, now, Parse(all), Parse(todo));
  }

  lemma BetweenOn(start: seq<Packet>, now: seq<Packet>, next: seq<Packet>, all: Parsed, todo: Parsed, rest: Parsed)
    requires Between(start, now, all, todo)
    requires |next| == |now| + 1 && next[..|now|] == now && todo == Cons(next[|now|], rest)
    ensures Between(start, next, all, rest)
  {
    assert next[|start|..] == now[|start|..] + [next[|now|]];
  }

  lemma ReadOn(start: seq<Packet>, now: seq<Packet>, next: seq<Packet>, all: seq<Byte>, todo: seq<Byte>, rest: seq<Byte>)
    requires Reading(start, now, all, todo) && Emitted(now, next, todo, rest)
    ensures Reading(start, next, all, rest)
  {
    BetweenOn(start, now, next, Parse(all), Parse(todo), Parse(rest));
  }

  // ---------------------------------------------------------------- what handlers do

  /** What the handler of a packet does with its session. */
  datatype Act = Nothing | PauseRecv | ResumeRecv | Disconnect

  /** The session while the handlers of a chunk's packets run, and the handlers still to come. A
      handler that resumes with chunks kept back makes the session deliver them at once: it `resumes`
      if the chunk is used up, otherwise it cuts in. */
  datatype Hands = Hands(connected: bool, paused: bool, script: seq<Act>, cutIn: bool, resumes: bool)

  /** One handler runs. `inPlace`: its packet came straight from the chunk and is the last in it;
      `waiting`: there are chunks kept back. */
  function Handled(h: Hands, inPlace: bool, waiting: bool): Hands {
    if h.script == [] then h
    else
      var next := h.(script := h.script[1..]);
      if !h.connected then next
      else
        match h.script[0]
        case Nothing => next
        case PauseRecv => next.(paused := true)
        case Disconnect => next.(connected := false)
        case ResumeRecv =>
          next.(paused := false, cutIn := waiting && !inPlace, resumes := waiting && inPlace)
  }

  /** The handlers of `n` packets run. `begun`: the first of them was begun in an earlier chunk;
      `clean`: the last of them ends the chunk. */
  ghost function HandledAll(h: Hands, n: nat, clean: bool, begun: bool, waiting: bool): Hands
    decreases n
  {
    if n == 0 || h.cutIn || h.resumes then h
    else HandledAll(Handled(h, n == 1 && clean && !begun, waiting), n - 1, clean, false, waiting)
  }

  /** Handler number `k` resumes an open session. */
  ghost predicate Resumes(script: seq<Act>, k: nat) {
    k < |script| && script[k] == ResumeRecv && Disconnect !in script[..k]
  }

  /** Some handler resumes before the chunk is used up, or with its packet still in the buffer. */
  ghost predicate TooEarly(script: seq<Act>, n: nat, clean: bool, begun: bool) {
    exists k: nat :: k < n && Resumes(script, k) && !(k == n - 1 && clean && !(k == 0 && begun))
  }

  lemma ResumesLater(script: seq<Act>, k: nat)
    requires script != [] && script[0] != Disconnect && k > 0
    ensures Resumes(script, k) <==> Resumes(script[1..], k - 1)
  {
    if k < |script| {
      assert script[..k] == [script[0]] + script[1..][..k - 1];
    }
  }

  /** After the first handler the question is the same about the others. */
  lemma TooEarlyNext(script: seq<Act>, n: nat, clean: bool, begun: bool)
    requires n > 0 && script != [] && script[0] != Disconnect
    ensures TooEarly(script, n, clean, begun)
       <==> (script[0] == ResumeRecv && !(n == 1 && clean && !begun)) || TooEarly(script[1..], n - 1, clean, false)
  {
    var rest := script[1..];
    forall k: nat | 0 < k < n
      ensures Resumes(script, k) <==> Resumes(rest, k - 1)
    {
      ResumesLater(script, k);
    }
    if TooEarly(rest, n - 1, clean, false) {
      var k: nat :| k < n - 1 && Resumes(rest, k) && !(k == n - 2 && clean);
      assert Resumes(script, k + 1);
    }
    assert Resumes(script, 0) <==> script[0] == ResumeRecv;
  }

  /** A closed session is not resumed. */
  lemma {:induction false} HandledClosed(h: Hands, n: nat, clean: bool, begun: bool, waiting: bool)
    requires !h.connected
    ensures HandledAll(h, n, clean, begun, waiting).cutIn == h.cutIn
    ensures HandledAll(h, n, clean, begun, waiting).resumes == h.resumes
    ensures !HandledAll(h, n, clean, begun, waiting).connected
    decreases n
  {
    if n > 0 && !h.cutIn && !h.resumes {
      HandledClosed(Handled(h, n == 1 && clean && !begun, waiting), n - 1, clean, false, waiting);
    }
  }

  /** A handler cuts in exactly if it resumes too early with chunks kept back. */
  lemma {:induction false} CutsInExactly(h: Hands, n: nat, clean: bool, begun: bool, waiting: bool)
    requires h.connected && !h.cutIn && !h.resumes
    ensures HandledAll(h, n, clean, begun, waiting).cutIn <==> waiting && TooEarly(h.script, n, clean, begun)
    decreases n
  {
    if n > 0 && h.script != [] {
      var next := Handled(h, n == 1 && clean && !begun, waiting);
      if h.script[0] == Disconnect {
        HandledClosed(next, n - 1, clean, false, waiting);
        assert forall k: nat | 0 < k < |h.script| :: h.script[..k][0] == Disconnect;
      } else {
        TooEarlyNext(h.script, n, clean, begun);
        if !next.cutIn && !next.resumes {
          CutsInExactly(next, n - 1, clean, false, waiting);
        }
      }
    } else if n > 0 {
      NoHandlers(h, n, clean, begun, waiting);
    }
  }

  lemma {:induction false} NoHandlers(h: Hands, n: nat, clean: bool, begun: bool, waiting: bool)
    requires h.script == []
    ensures HandledAll(h, n, clean, begun, waiting) == h
    decreases n
  {
    if n > 0 && !h.cutIn && !h.resumes {
      NoHandlers(h, n - 1, clean, false, waiting);
    }
  }

  /** What handlers can change. */
  lemma {:induction false} HandledKeeps(h: Hands, n: nat, clean: bool, begun: bool, waiting: bool)
    ensures var r := HandledAll(h, n, clean, begun, waiting);
      && (forall a :: a in r.script ==> a in h.script)
      && (r.connected || !h.connected || Disconnect in h.script)
      && (r.paused ==> h.paused || PauseRecv in h.script)
    decreases n
  {
    if n > 0 && !h.cutIn && !h.resumes {
      var next := Handled(h, n == 1 && clean && !begun, waiting);
      assert forall a :: a in next.script ==> a in h.script;
      HandledKeeps(next, n - 1, clean, false, waiting);
    }
  }

  /** When they read on. */
  lemma {:induction false} HandledReadsOn(h: Hands, n: nat, clean: bool, begun: bool, waiting: bool)
    requires !h.cutIn && !h.resumes
    ensures var r := HandledAll(h, n, clean, begun, waiting);
      && (r.resumes ==> waiting && !r.cutIn)
      && (r.cutIn ==> waiting && ResumeRecv in h.script)
    decreases n
  {
    if n > 0 {
      var next := Handled(h, n == 1 && clean && !begun, waiting);
      if !next.cutIn && !next.resumes {
        HandledReadsOn(next, n - 1, clean, false, waiting);
      }
    }
  }

  // ---------------------------------------------------------------- what a session means

  /** A session as a value: what it emitted, the unread bytes of the buffer, whether every header was
      valid, the chunks kept back, the handlers to come, and what was delivered and what arrived. */
  datatype View = View(emitted: seq<Packet>, held: seq<Byte>, intact: bool, connected: bool, paused: bool,
                       script: seq<Act>, later: seq<seq<Byte>>, cutIn: bool,
                       fed: seq<Byte>, arrived: seq<Byte>)

  ghost function HandsOf(v: View): Hands {
    Hands(v.connected, v.paused, v.script, v.cutIn, false)
  }

  /** The handlers run for the packets of the stream `todo`. */
  ghost function Rest(h: Hands, todo: seq<Byte>, begun: bool, waiting: bool): Hands {
    HandledAll(h, |Parse(todo).packets|, Parse(todo).rest == [], begun, waiting)
  }

  /** One packet is read, and its handler runs before the others. */
  lemma RestNext(h: Hands, p: Packet, todo: seq<Byte>, rest: seq<Byte>, begun: bool, waiting: bool)
    requires !h.cutIn && !h.resumes && Parse(todo) == Cons(p, Parse(rest))
    ensures Rest(h, todo, begun, waiting) == Rest(Handled(h, rest == [] && !begun, waiting), rest, false, waiting)
  {
    assert |Parse(todo).packets| == |Parse(rest).packets| + 1;
    assert rest == [] <==> Parse(rest).packets == [] && Parse(rest).rest == [];
  }

  ghost function HandsAfter(v: View, chunk: seq<Byte>): Hands {
    Rest(HandsOf(v), v.held + chunk, v.held != [], v.later != [])
  }

  /** A session that a handler resumes at the end of a chunk can go on. */
  lemma ResumesOpen(v: View, chunk: seq<Byte>)
    requires HandsAfter(v, chunk).resumes && !v.cutIn
    ensures !HandsAfter(v, chunk).cutIn && v.later != []
  {
    var p := Parse(v.held + chunk);
    HandledReadsOn(HandsOf(v), |p.packets|, p.rest == [], v.held != [], v.later != []);
  }

  /** A chunk is read: its packets are emitted and their handlers run. */
  ghost function Read(v: View, chunk: seq<Byte>): View {
    ReadAs(v, chunk, Parse(v.held + chunk), HandsAfter(v, chunk))
  }

  /** The same for a chunk that with what is held parses as `p` and whose handlers end in `h`. */
  ghost function ReadAs(v: View, chunk: seq<Byte>, p: Parsed, h: Hands): View {
    if h.cutIn then v.(cutIn := true)
    else
      v.(emitted := v.emitted + p.packets, held := if p.ok then p.rest else [], intact := p.ok,
         connected := h.connected && p.ok, paused := h.paused, script := h.script, fed := v.fed + chunk)
  }

  /** The chunks kept back are delivered in order, until the session is paused again or closed. */
  ghost function Drained(v: View): View
    decreases |v.later|
  {
    if v.cutIn || !v.connected || v.paused || v.later == [] then v
    else Drained(Read(v.(later := v.later[1..]), v.later[0]))
  }

  /** A chunk is delivered: if a handler resumes at its end, those kept back follow. */
  ghost function Received(v: View, chunk: seq<Byte>): View {
    if HandsAfter(v, chunk).resumes then Drained(Read(v, chunk)) else Read(v, chunk)
  }

  datatype Event = Chunk(bytes: seq<Byte>) | Pause | Resume | Close

  ghost function Step(v: View, e: Event): View {
    if !v.connected then v
    else
      match e
      case Chunk(bytes) =>
        var w := v.(arrived := v.arrived + bytes);
        if bytes == [] then v
        else if v.paused then w.(later := v.later + [bytes])
        else Received(w, bytes)
      case Pause => v.(paused := true)
      case Resume => Drained(v.(paused := false))
      case Close => v.(connected := false)
  }

  ghost function Course(v: View, events: seq<Event>): View
    decreases |events|
  {
    if events == [] || v.cutIn then v else Course(Step(v, events[0]), events[1..])
  }

  /** The packets emitted are those of the bytes delivered, what is incomplete is kept, and what
      arrived was delivered or is kept back. */
  ghost predicate Faithful(v: View) {
    FaithfulTo(v, Parse(v.fed))
  }

  ghost predicate FaithfulTo(v: View, p: Parsed) {
    && v.emitted == p.packets && v.intact == p.ok
    && (v.intact ==> v.held == p.rest)
    && (v.connected ==> v.intact)
    && v.fed + Flatten(v.later) == v.arrived
  }

  /** Chunks are kept back only while the session is paused. */
  ghost predicate Settled(v: View) {
    v.connected && !v.paused ==> v.later == []
  }

  /** Delivering what was kept back continues the stream. */
  lemma ReadKeeps(v: View, chunk: seq<Byte>, w: View)
    requires Faithful(v) && v.connected && !Read(w, chunk).cutIn
    requires (w == v.(later := w.later) && v.later == [chunk] + w.later)
          || (w == v.(arrived := v.arrived + chunk) && v.later == [])
    ensures Faithful(Read(w, chunk))
  {
    ParseAppend(v.fed, chunk);
    ReadAsKeeps(v, chunk, w, Parse(v.fed), Parse(w.held + chunk), HandsAfter(w, chunk));
  }

  lemma ReadAsKeeps(v: View, chunk: seq<Byte>, w: View, p: Parsed, q: Parsed, h: Hands)
    requires FaithfulTo(v, p) && !h.cutIn
    requires (w == v.(later := w.later) && v.later == [chunk] + w.later)
          || (w == v.(arrived := v.arrived + chunk) && v.later == [])
    ensures FaithfulTo(ReadAs(w, chunk, q, h), Then(p, q))
  {
    FlattenAppend([chunk], w.later);
    FlattenOne(chunk);
    assert v.fed + chunk + Flatten(w.later) == v.fed + (chunk + Flatten(w.later));
  }

  lemma {:induction false} DrainedKeeps(v: View)
    requires Faithful(v)
    ensures !Drained(v).cutIn ==> Faithful(Drained(v)) && Settled(Drained(v))
    decreases |v.later|
  {
    if !v.cutIn && v.connected && !v.paused && v.later != [] {
      var w := v.(later := v.later[1..]);
      if Read(w, v.later[0]).cutIn {
        DrainedAgain(Read(w, v.later[0]));
      } else {
        ReadKeeps(v, v.later[0], w);
        DrainedKeeps(Read(w, v.later[0]));
      }
    }
  }

  /** Draining is complete. */
  lemma {:induction false} DrainedAgain(v: View)
    ensures Drained(Drained(v)) == Drained(v)
    ensures v.cutIn ==> Drained(v) == v
    decreases |v.later|
  {
    if !v.cutIn && v.connected && !v.paused && v.later != [] {
      DrainedAgain(Read(v.(later := v.later[1..]), v.later[0]));
    }
  }

  /** Chunks delivered inside a handler that resumes in place are delivered as by the drain. */
  lemma ReceivedThenDrained(v: View, chunk: seq<Byte>)
    ensures Drained(Received(v, chunk)) == Drained(Read(v, chunk))
  {
    DrainedAgain(Read(v, chunk));
  }

  lemma StepKeeps(v: View, e: Event)
    requires Faithful(v) && Settled(v) && !v.cutIn
    ensures !Step(v, e).cutIn ==> Faithful(Step(v, e)) && Settled(Step(v, e))
  {
    if v.connected {
      match e
      case Chunk(bytes) =>
        if v.paused {
          FlattenAppend(v.later, [bytes]);
          FlattenOne(bytes);
          assert v.fed + (Flatten(v.later) + bytes) == v.arrived + bytes;
        } else if bytes != [] {
          var w := v.(arrived := v.arrived + bytes);
          var p := Parse(w.held + bytes);
          HandledReadsOn(HandsOf(w), |p.packets|, p.rest == [], w.held != [], false);
          if !Read(w, bytes).cutIn {
            ReadKeeps(v, bytes, w);
          }
        }
      case Pause =>
      case Resume => DrainedKeeps(v.(paused := false));
      case Close =>
    }
  }

  /** Over every run in which no handler cuts in, the packets emitted are those of the stream. */
  lemma {:induction false} CourseKeeps(v: View, events: seq<Event>)
    requires Faithful(v) && Settled(v)
    ensures !Course(v, events).cutIn ==> Faithful(Course(v, events)) && Settled(Course(v, events))
    decreases |events|
  {
    if events != [] && !v.cutIn {
      if Step(v, events[0]).cutIn {
        assert Course(Step(v, events[0]), events[1..]).cutIn;
      } else {
        StepKeeps(v, events[0]);
        CourseKeeps(Step(v, events[0]), events[1..]);
      }
    }
  }

  class PacketSession {
    const recv: RecvBuffer
    var connected: bool
    ghost var intact: bool       // every header was valid
    var emitted: seq<Packet>     // the OnPacket calls so far

    // Reading is paused, and the chunks kept back since; the handlers to come; whether one of them
    // made the session read on too early.
    var paused: bool
    var later: seq<seq<Byte>>
    var script: seq<Act>
    var cutIn: bool

    // What was delivered to the session and what arrived for it.
    ghost var fed: seq<Byte>
    ghost var arrived: seq<Byte>

    /** Between chunks the buffer holds a strict prefix of one packet. */
    ghost predicate Valid()
      reads this, recv, recv.buffer
    {
      && recv.Valid() && recv.buffer.Length == RECV_BUFFER_SIZE
      && (intact ==> Incomplete(recv.Contents())) && (connected ==> intact)
    }

    ghost function State(): View
      requires recv.Valid()
      reads this, recv, recv.buffer
    {
      View(emitted, if intact then recv.Contents() else [], intact, connected, paused, script, later, cutIn,
           fed, arrived)
    }

    /** The session is in state `v`, about which nothing more is said once a handler has cut in. */
    ghost predicate Is(v: View)
      reads this, recv, recv.buffer
    {
      cutIn == v.cutIn && (!cutIn ==> Valid() && State() == v)
    }

    constructor (script: seq<Act>)
      ensures Valid() && fresh(recv) && fresh(recv.buffer)
      ensures State() == Fresh(script)
    {
      recv := new RecvBuffer(RECV_BUFFER_SIZE);
      connected, intact, emitted := true, true, [];
      paused, later, cutIn := false, [], false;
      this.script := script;
      fed, arrived := [], [];
    }

    /** The buffer never overflows: it only ever gets bytes of one packet. */
    method AppendToRecvBuffer(data: seq<Byte>)
      requires recv.Valid() && recv.buffer.Length == RECV_BUFFER_SIZE
      requires |recv.Contents()| + |data| <= RECV_BUFFER_SIZE
      modifies recv, recv.buffer
      ensures recv.Valid() && recv.Contents() == old(recv.Contents()) + data
    {
      if data == [] {
        return;
      }
      var ok := recv.Append(data);
      if !ok {
        assert false;
      }
    }

    predicate ValidSize(size: nat) {
      HEADER_SIZE <= size <= MAX_PACKET_SIZE
    }

    /** Completes the header in the buffer as far as `data` reaches. */
    method FillHeader(data: seq<Byte>, offset: nat) returns (offset': nat)
      requires recv.Valid() && recv.buffer.Length == RECV_BUFFER_SIZE && offset <= |data|
      requires |recv.Contents()| < HEADER_SIZE
      modifies recv, recv.buffer
      ensures recv.Valid() && offset <= offset' <= |data|
      ensures recv.Contents() == old(recv.Contents()) + data[offset..offset']
      ensures |recv.Contents()| == HEADER_SIZE || (|recv.Contents()| < HEADER_SIZE && offset' == |data|)
    {
      var needed := HEADER_SIZE - recv.ReadableSize();
      var copied := if needed <= |data| - offset then needed else |data| - offset;
      AppendToRecvBuffer(data[offset..offset + copied]);
      offset' := offset + copied;
    }

    /** Completes the packet in the buffer as far as `data` reaches. */
    method FillPacket(data: seq<Byte>, offset: nat, size: nat) returns (offset': nat)
      requires recv.Valid() && recv.buffer.Length == RECV_BUFFER_SIZE && offset <= |data|
      requires |recv.Contents()| <= size <= MAX_PACKET_SIZE
      modifies recv, recv.buffer
      ensures recv.Valid() && offset <= offset' <= |data|
      ensures recv.Contents() == old(recv.Contents()) + data[offset..offset']
      ensures |recv.Contents()| == size || (|recv.Contents()| < size && offset' == |data|)
    {
      var needed := size - recv.ReadableSize();
      var copied := if needed <= |data| - offset then needed else |data| - offset;
      AppendToRecvBuffer(data[offset..offset + copied]);
      offset' := offset + copied;
    }

    /** The slow path: finish the packet the buffer has begun, or take all of the chunk. */
    method CompleteBufferedPacket(data: seq<Byte>, offset: nat) returns (ok: bool, offset': nat)
      requires Valid() && intact && recv.Contents() != [] && offset <= |data|
      modifies this`connected, this`intact, this`emitted, recv, recv.buffer
      ensures Valid() && offset <= offset' <= |data| && intact == ok && connected == (old(connected) && ok)
      ensures var all := old(recv.Contents()) + data[offset..];
              if !ok then emitted == old(emitted) && Parse(all).packets == [] && !Parse(all).ok
              else if recv.Contents() == [] then Emitted(old(emitted), emitted, all, data[offset'..])
              else emitted == old(emitted) && offset' == |data| && recv.Contents() == all
    {
      offset' := offset;
      if recv.ReadableSize() < HEADER_SIZE {
        offset' := FillHeader(data, offset);
        if recv.ReadableSize() < HEADER_SIZE {
          return true, offset';
        }
      }
      assert recv.Contents() + data[offset'..] == old(recv.Contents()) + data[offset..];
      ok, offset' := CompleteHeadedPacket(data, offset');
    }

    /** The same once the header is complete. */
    method CompleteHeadedPacket(data: seq<Byte>, offset: nat) returns (ok: bool, offset': nat)
      requires recv.Valid() && recv.buffer.Length == RECV_BUFFER_SIZE && intact && offset <= |data|
      requires |recv.Contents()| >= HEADER_SIZE
      requires ValidSize(Le16(recv.Contents(), 0)) ==> |recv.Contents()| <= Le16(recv.Contents(), 0)
      modifies this`connected, this`intact, this`emitted, recv, recv.buffer
      ensures Valid() && offset <= offset' <= |data| && intact == ok && connected == (old(connected) && ok)
      ensures var all := old(recv.Contents()) + data[offset..];
              if !ok then emitted == old(emitted) && Parse(all).packets == [] && !Parse(all).ok
              else if recv.Contents() == [] then Emitted(old(emitted), emitted, all, data[offset'..])
              else emitted == old(emitted) && offset' == |data| && recv.Contents() == all
    {
      ghost var head := recv.Contents();
      ghost var all := head + data[offset..];
      var size := ReadLe16(recv.buffer[recv.readPos..recv.writePos], 0);
      assert Le16(all, 0) == size;
      if !ValidSize(size) {
        connected, intact := false, false;
        return false, offset;
      }
      offset' := FillPacket(data, offset, size);
      assert all == recv.Contents() + data[offset'..];
      if recv.ReadableSize() < size {
        return true, offset';
      }
      EmitBuffered(size, data[offset'..]);
      return true, offset';
    }

    /** `OnPacket` for the packet in the buffer. */
    method Announce(size: nat)
      requires recv.Valid() && |recv.Contents()| == size >= HEADER_SIZE
      modifies this`emitted
      ensures emitted == old(emitted) + [Packet(Le16(recv.Contents(), 2), recv.Contents()[HEADER_SIZE..size])]
    {
      var packet := recv.buffer[recv.readPos..recv.writePos];
      var id := ReadLe16(packet, 2);
      emitted := emitted + [Packet(id, packet[HEADER_SIZE..size])];
    }

    method EmitBuffered(size: nat, ghost rest: seq<Byte>)
      requires recv.Valid() && |recv.Contents()| == size >= HEADER_SIZE && Le16(recv.Contents(), 0) == size
      modifies this`emitted, recv
      ensures recv.Valid() && recv.Contents() == []
      ensures Emitted(old(emitted), emitted, old(recv.Contents()) + rest, rest)
    {
      ghost var packet := recv.Contents();
      ParseStep(packet, rest);
      assert packet[size..] + rest == rest;
      Announce(size);
      recv.OnRead(size);
    }

    /** The fast path: read one packet straight from the chunk, or keep its beginning. */
    method TakePacket(data: seq<Byte>, offset: nat) returns (outcome: Outcome)
      requires Valid() && intact && recv.Contents() == [] && offset < |data|
      modifies this`connected, this`intact, this`emitted, recv, recv.buffer
      ensures Valid() && intact == !outcome.Invalid? && connected == (old(connected) && intact)
      ensures var all := data[offset..];
              match outcome
              case Taken(next, buffered) =>
                !buffered && offset < next <= |data| && recv.Contents() == [] && Emitted(old(emitted), emitted, all, data[next..])
              case Kept => recv.Contents() == all && emitted == old(emitted)
              case Invalid => emitted == old(emitted) && Parse(all).packets == [] && !Parse(all).ok
    {
      ghost var all := data[offset..];
      var remaining := |data| - offset;
      if remaining < HEADER_SIZE {
        AppendToRecvBuffer(data[offset..]);
        return Kept;
      }
      var size := ReadLe16(data, offset);
      assert Le16(all, 0) == size;
      if !ValidSize(size) {
        connected, intact := false, false;
        return Invalid;
      }
      if remaining < size {
        AppendToRecvBuffer(data[offset..]);
        return Kept;
      }
      TakeStep(emitted, data, offset);
      var id := ReadLe16(data, offset + 2);
      emitted := emitted + [Packet(id, data[offset + HEADER_SIZE..offset + size])];
      return Taken(offset + size, false);
    }

    /** One turn of the loop: one packet by the slow or the fast path, or the end of the chunk. */
    method NextPacket(data: seq<Byte>, offset: nat) returns (outcome: Outcome)
      requires Valid() && intact && offset < |data|
      modifies this`connected, this`intact, this`emitted, recv, recv.buffer
      ensures Valid() && intact == !outcome.Invalid? && connected == (old(connected) && intact)
      ensures var all := old(recv.Contents()) + data[offset..];
              match outcome
              case Taken(next, buffered) =>
                && next <= |data| && recv.Contents() == [] && buffered == (old(recv.Contents()) != [])
                && Emitted(old(emitted), emitted, all, data[next..])
              case Kept => recv.Contents() == all && emitted == old(emitted)
              case Invalid => emitted == old(emitted) && Parse(all).packets == [] && !Parse(all).ok
    {
      if recv.ReadableSize() != 0 {
        var ok, next := CompleteBufferedPacket(data, offset);
        return if !ok then Invalid else if recv.ReadableSize() != 0 then Kept else Taken(next, true);
      }
      assert recv.Contents() + data[offset..] == data[offset..];
      outcome := TakePacket(data, offset);
    }

    /** The application's handler. `inPlace` if its packet came straight from the chunk and is the last
        in it. */
    method OnPacket(inPlace: bool) returns (resumes: bool)
      requires !cutIn
      modifies this`script, this`cutIn, this`paused, this`connected
      ensures cutIn <==> old(connected) && !inPlace && old(script) != [] && old(script)[0] == ResumeRecv && later != []
      ensures resumes <==> old(connected) && inPlace && old(script) != [] && old(script)[0] == ResumeRecv && later != []
      ensures Hands(connected, paused, script, cutIn, resumes)
           == Handled(Hands(old(connected), old(paused), old(script), false, false), inPlace, later != [])
    {
      resumes := false;
      if script == [] {
        return;
      }
      var act := script[0];
      script := script[1..];
      if connected {
        match act
        case Nothing =>
        case PauseRecv => paused := true;
        case Disconnect => connected := false;
        case ResumeRecv =>
          paused := false;
          cutIn, resumes := later != [] && !inPlace, later != [] && inPlace;
      }
    }

    /** The handlers to come and what they act on. */
    ghost function Now(resumes: bool): Hands
      reads this`connected, this`paused, this`script, this`cutIn
    {
      Hands(connected, paused, script, cutIn, resumes)
    }

    /** One turn of the loop and the handler of the packet it read. */
    method Turn(data: seq<Byte>, offset: nat) returns (outcome: Outcome, resumes: bool)
      requires Valid() && intact && !cutIn && offset < |data|
      modifies this`connected, this`intact, this`emitted, this`script, this`cutIn, this`paused, recv, recv.buffer
      ensures Valid() && intact == !outcome.Invalid? && (resumes ==> outcome.Taken?)
      ensures var all := old(recv.Contents()) + data[offset..];
              match outcome
              case Taken(next, buffered) =>
                && next <= |data| && recv.Contents() == [] && Emitted(old(emitted), emitted, all, data[next..])
                && Rest(Now(resumes), data[next..], false, later != [])
                   == Rest(old(Now(false)), all, old(recv.Contents()) != [], later != [])
                && (resumes ==> next == |data|)
              case Kept =>
                recv.Contents() == all && emitted == old(emitted) && Now(false) == old(Now(false))
              case Invalid =>
                && emitted == old(emitted) && Parse(all).packets == [] && !Parse(all).ok
                && Now(false) == old(Now(false)).(connected := false)
    {
      ghost var all, begun := recv.Contents() + data[offset..], recv.Contents() != [];
      outcome := NextPacket(data, offset);
      resumes := false;
      if outcome.Taken? {
        var inPlace := !outcome.buffered && outcome.next == |data|;
        ghost var packet := emitted[|old(emitted)|];
        RestNext(Now(false), packet, all, data[outcome.next..], begun, later != []);
        resumes := OnPacket(inPlace);
      }
    }

    /** Of the stream `all` what is before `todo` was read, and the handlers to come end in `h`. */
    ghost predicate Underway(start: seq<Packet>, all: seq<Byte>, todo: seq<Byte>, begun: bool, resumes: bool, h: Hands)
      reads this
    {
      Reading(start, emitted, all, todo) && Rest(Now(resumes), todo, begun, later != []) == h
    }

    /** The stream was read to its end, and the handlers ended in `h`. */
    ghost predicate Over(start: seq<Packet>, all: seq<Byte>, resumes: bool, h: Hands)
      reads this, recv, recv.buffer
    {
      && Valid() && resumes == h.resumes
      && Reads(start, emitted, intact, recv.Contents(), all)
      && Now(resumes) == h.(connected := h.connected && intact)
    }

    /** A turn of the loop over the stream `all`. */
    method TurnOf(data: seq<Byte>, offset: nat, ghost start: seq<Packet>, ghost all: seq<Byte>, ghost h: Hands)
      returns (outcome: Outcome, resumes: bool)
      requires Valid() && intact && !cutIn && offset < |data|
      requires Underway(start, all, recv.Contents() + data[offset..], recv.Contents() != [], false, h)
      modifies this`connected, this`intact, this`emitted, this`script, this`cutIn, this`paused, recv, recv.buffer
      ensures resumes ==> outcome.Taken?
      ensures if outcome.Taken? then
          && Valid() && intact && recv.Contents() == []
          && outcome.next <= |data| && |data[outcome.next..]| < |old(recv.Contents()) + data[offset..]|
          && Underway(start, all, data[outcome.next..], false, resumes, h)
          && (resumes ==> outcome.next == |data|)
        else !cutIn && Over(start, all, resumes, h)
    {
      ghost var before, todo := emitted, recv.Contents() + data[offset..];
      outcome, resumes := Turn(data, offset);
      if outcome.Taken? {
        ReadOn(start, before, emitted, all, todo, data[outcome.next..]);
      } else {
        ReadingEnds(start, emitted, all, todo);
      }
    }

    /** Nothing of the chunk is left. */
    lemma UsedUp(start: seq<Packet>, all: seq<Byte>, begun: bool, resumes: bool, h: Hands)
      requires Valid() && intact && Underway(start, all, recv.Contents(), begun, resumes, h)
      ensures Over(start, all, resumes, h)
    {
      ReadingEnds(start, emitted, all, recv.Contents());
    }

    /** Emits exactly the packets the chunk completes, keeps the incomplete rest, and closes the
        session on an invalid header. With chunks kept back a handler cuts in exactly if it resumes
        before the chunk is used up, or while its packet is in the buffer. */
    method ReadChunk(data: seq<Byte>) returns (resumes: bool)
      requires Valid() && intact && !cutIn
      modifies this`connected, this`intact, this`emitted, this`script, this`cutIn, this`paused, this`fed
      modifies recv, recv.buffer
      ensures Is(Read(old(State()), data)) && resumes == HandsAfter(old(State()), data).resumes
      ensures old(connected) ==>
        (cutIn <==>
          var p := Parse(old(recv.Contents()) + data);
          later != [] && TooEarly(old(script), |p.packets|, p.rest == [], old(recv.Contents()) != []))
    {
      ghost var v, all := State(), recv.Contents() + data;
      if connected {
        CutsInExactly(HandsOf(v), |Parse(all).packets|, Parse(all).rest == [], v.held != [], later != []);
      }
      fed := fed + data;
      resumes := ReadPackets(data);
    }

    /** The loop over the chunk. */
    method ReadPackets(data: seq<Byte>) returns (resumes: bool)
      requires Valid() && intact && !cutIn
      modifies this`connected, this`intact, this`emitted, this`script, this`cutIn, this`paused
      modifies recv, recv.buffer
      ensures var all := old(recv.Contents()) + data;
        var h := Rest(old(Now(false)), all, old(recv.Contents()) != [], later != []);
        cutIn == h.cutIn && resumes == h.resumes && (!cutIn ==> Over(old(emitted), all, resumes, h))
    {
      var offset := 0;
      ghost var start, all := emitted, recv.Contents() + data;
      ghost var h := Rest(Now(false), all, recv.Contents() != [], later != []);
      assert data[0..] == data && emitted[|emitted|..] == [];
      while offset < |data|
        invariant 0 <= offset <= |data| && Valid() && intact && !cutIn
        invariant Underway(start, all, recv.Contents() + data[offset..], recv.Contents() != [], false, h)
        decreases |recv.Contents() + data[offset..]|
      {
        var outcome;
        outcome, resumes := TurnOf(data, offset, start, all, h);
        if !outcome.Taken? {
          return;
        }
        offset := outcome.next;
        assert recv.Contents() + data[offset..] == data[offset..];
        if cutIn {
          return;
        }
        if resumes {
          assert data[offset..] == recv.Contents();
          UsedUp(start, all, false, true, h);
          return;
        }
      }
      assert recv.Contents() + data[offset..] == recv.Contents();
      UsedUp(start, all, recv.Contents() != [], false, h);
      resumes := false;
    }

    /** One received chunk, and then the chunks a handler makes the session deliver when this one is
        used up. */
    method OnRecv(data: seq<Byte>)
      requires Valid() && connected && !cutIn
      modifies this, recv, recv.buffer
      ensures Is(Received(old(State()), data)) && |later| <= |old(later)|
      ensures old(later) == [] ==> !cutIn
      decreases |later|, 2
    {
      var resumes := ReadChunk(data);
      if resumes {
        ResumesOpen(old(State()), data);
        DrainPausedRecv();
      }
      if !cutIn {
        FinishChunk();
      }
    }

    method FinishChunk()
      requires recv.Valid()
      modifies recv, recv.buffer
      ensures recv.Valid() && recv.Contents() == old(recv.Contents())
    {
      if recv.readPos > recv.buffer.Length / 2 {
        recv.Compact();
      }
    }

    /** Delivers the chunks kept back, until the session is paused again or closed. */
    method DrainPausedRecv()
      requires Valid() && !cutIn
      modifies this, recv, recv.buffer
      ensures Is(Drained(old(State()))) && |later| <= |old(later)|
      decreases |later|, 1
    {
      while connected && !paused && later != [] && !cutIn
        invariant |later| <= |old(later)|
        invariant if cutIn then Drained(old(State())).cutIn else Valid() && Drained(State()) == Drained(old(State()))
        decreases |later|
      {
        DeliverNext();
      }
    }

    method DeliverNext()
      requires Valid() && connected && !paused && later != [] && !cutIn
      modifies this, recv, recv.buffer
      ensures |later| < |old(later)|
      ensures if cutIn then Drained(old(State())).cutIn else Valid() && Drained(State()) == Drained(old(State()))
      decreases |later|, 0
    {
      ghost var v := State();
      var chunk := later[0];
      later := later[1..];
      OnRecv(chunk);
      ReceivedThenDrained(v.(later := v.later[1..]), chunk);
      DrainedAgain(Received(v.(later := v.later[1..]), chunk));
    }

    /** What happens to a session: a chunk arrives, the application pauses or resumes it, it closes. */
    method Happens(e: Event)
      requires Valid() && !cutIn
      modifies this, recv, recv.buffer
      ensures Is(Step(old(State()), e))
    {
      if !connected {
        return;
      }
      match e
      case Chunk(bytes) => Arrive(bytes);
      case Pause => paused := true;
      case Resume =>
        paused := false;
        DrainPausedRecv();
      case Close => connected := false;
    }

    /** A chunk is delivered, or kept back while the session is paused. */
    method Arrive(bytes: seq<Byte>)
      requires Valid() && !cutIn && connected
      modifies this, recv, recv.buffer
      ensures Is(Step(old(State()), Chunk(bytes)))
    {
      if bytes == [] {
        return;
      }
      arrived := arrived + bytes;
      if paused {
        later := later + [bytes];
      } else {
        OnRecv(bytes);
      }
    }

    /** However the stream is cut into chunks, whenever the session is paused and whatever its handlers
        do, unless one of them cuts in the packets are those of the stream delivered so far. */
    method Feed(events: seq<Event>)
      requires Valid() && !cutIn && Faithful(State()) && Settled(State())
      modifies this, recv, recv.buffer
      ensures Is(Course(old(State()), events))
      ensures !cutIn ==> Faithful(State()) && Settled(State())
      ensures cutIn ==> ResumeRecv in old(script) && (old(paused) || PauseRecv in old(script) || Pause in events)
    {
      ghost var v := State();
      var i := 0;
      while i < |events| && !cutIn
        invariant 0 <= i <= |events|
        invariant if cutIn then Course(v, events).cutIn else Valid() && Course(State(), events[i..]) == Course(v, events)
      {
        assert events[i..][1..] == events[i + 1..];
        Happens(events[i]);
        i := i + 1;
      }
      CourseKeeps(v, events);
      CutInNeedsBoth(v, events);
    }
  }

  // ---------------------------------------------------------------- whole runs

  /** Handlers cut in only if one resumes and the session was paused. */
  lemma {:induction false} CutInNeedsBoth(v: View, events: seq<Event>)
    requires !v.cutIn && Settled(v)
    ensures Course(v, events).cutIn ==>
      ResumeRecv in v.script && (v.paused || PauseRecv in v.script || Pause in events)
    decreases |events|
  {
    if events != [] {
      var w := Step(v, events[0]);
      StepNeedsBoth(v, events[0]);
      if !w.cutIn {
        CutInNeedsBoth(w, events[1..]);
      }
    }
  }

  lemma StepNeedsBoth(v: View, e: Event)
    requires !v.cutIn && Settled(v)
    ensures var w := Step(v, e);
      && (w.cutIn ==> ResumeRecv in v.script && v.later != [])
      && (!w.cutIn ==>
        && Settled(w) && (forall a :: a in w.script ==> a in v.script)
        && (w.later != [] ==> v.later != [] || v.paused)
        && (w.paused ==> v.paused || PauseRecv in v.script || e == Pause))
  {
    match e
    case Chunk(bytes) =>
      if v.connected && !v.paused && bytes != [] {
        var w := v.(arrived := v.arrived + bytes);
        var p := Parse(w.held + bytes);
        HandledKeeps(HandsOf(w), |p.packets|, p.rest == [], w.held != [], false);
        HandledReadsOn(HandsOf(w), |p.packets|, p.rest == [], w.held != [], false);
      }
    case Pause =>
    case Resume =>
      if v.connected {
        DrainedNeeds(v.(paused := false));
      }
    case Close =>
  }

  lemma {:induction false} DrainedNeeds(v: View)
    requires !v.cutIn
    ensures var w := Drained(v);
      && (w.cutIn ==> ResumeRecv in v.script && v.later != [])
      && (!w.cutIn ==>
        && Settled(w) && (forall a :: a in w.script ==> a in v.script)
        && (w.later != [] ==> v.later != [])
        && (w.paused ==> v.paused || PauseRecv in v.script))
    decreases |v.later|
  {
    if v.connected && !v.paused && v.later != [] {
      var w := v.(later := v.later[1..]);
      var p := Parse(w.held + v.later[0]);
      HandledKeeps(HandsOf(w), |p.packets|, p.rest == [], w.held != [], w.later != []);
      HandledReadsOn(HandsOf(w), |p.packets|, p.rest == [], w.held != [], w.later != []);
      if Read(w, v.later[0]).cutIn {
        DrainedAgain(Read(w, v.later[0]));
      } else {
        DrainedNeeds(Read(w, v.later[0]));
      }
    }
  }

  /** Nothing but the application or an invalid header closes a session. */
  lemma {:induction false} StaysOpen(v: View, events: seq<Event>)
    requires !v.cutIn && v.connected && Disconnect !in v.script && Close !in events
    ensures var w := Course(v, events); w.cutIn || w.connected || !w.intact
    decreases |events|
  {
    if events != [] {
      var w := Step(v, events[0]);
      StepStaysOpen(v, events[0]);
      if !w.cutIn && w.connected {
        StaysOpen(w, events[1..]);
      } else if !w.cutIn {
        ClosedForGood(w, events[1..]);
      }
    }
  }

  lemma {:induction false} ClosedForGood(v: View, events: seq<Event>)
    requires !v.connected
    ensures Course(v, events) == v
    decreases |events|
  {
    if events != [] && !v.cutIn {
      ClosedForGood(v, events[1..]);
    }
  }

  lemma StepStaysOpen(v: View, e: Event)
    requires !v.cutIn && v.connected && Disconnect !in v.script && e != Close
    ensures var w := Step(v, e);
      w.cutIn || (!w.connected && !w.intact) || (w.connected && Disconnect !in w.script)
  {
    match e
    case Chunk(bytes) =>
      if !v.paused && bytes != [] {
        var w := v.(arrived := v.arrived + bytes);
        ReadStaysOpen(w, bytes);
        if HandsAfter(w, bytes).resumes && Read(w, bytes).connected {
          DrainedStaysOpen(Read(w, bytes));
        }
      }
    case Pause =>
    case Resume => DrainedStaysOpen(v.(paused := false));
    case Close =>
  }

  lemma ReadStaysOpen(v: View, chunk: seq<Byte>)
    requires v.connected && Disconnect !in v.script
    ensures var w := Read(v, chunk);
      w.cutIn || (!w.connected && !w.intact) || (w.connected && Disconnect !in w.script)
    ensures !Read(v, chunk).connected ==> Drained(Read(v, chunk)) == Read(v, chunk)
  {
    var p := Parse(v.held + chunk);
    HandledKeeps(HandsOf(v), |p.packets|, p.rest == [], v.held != [], v.later != []);
  }

  lemma {:induction false} DrainedStaysOpen(v: View)
    requires v.connected && Disconnect !in v.script
    ensures var w := Drained(v); w.cutIn || (!w.connected && !w.intact) || (w.connected && Disconnect !in w.script)
    decreases |v.later|
  {
    if !v.cutIn && !v.paused && v.later != [] {
      var w := Read(v.(later := v.later[1..]), v.later[0]);
      ReadStaysOpen(v.(later := v.later[1..]), v.later[0]);
      if w.connected && !w.cutIn {
        DrainedStaysOpen(w);
      } else if w.cutIn {
        DrainedAgain(w);
      }
    }
  }

  /** The bytes of the chunks among `events`. */
  ghost function Sent(events: seq<Event>): seq<Byte> {
    if events == [] then [] else (if events[0].Chunk? then events[0].bytes else []) + Sent(events[1..])
  }

  /** What arrives is what was sent, up to the close. */
  lemma {:induction false} ArrivedIsSent(v: View, events: seq<Event>)
    ensures var w := Course(v, events);
      !w.cutIn ==> w.arrived <= v.arrived + Sent(events) && (w.connected ==> w.arrived == v.arrived + Sent(events))
    decreases |events|
  {
    if events != [] && !v.cutIn {
      StepArrived(v, events[0]);
      ArrivedIsSent(Step(v, events[0]), events[1..]);
      if !Step(v, events[0]).connected {
        ClosedForGood(Step(v, events[0]), events[1..]);
      }
      var first := if events[0].Chunk? then events[0].bytes else [];
      assert v.arrived + Sent(events) == v.arrived + first + Sent(events[1..]);
    }
  }

  lemma StepArrived(v: View, e: Event)
    ensures var w := Step(v, e);
      var first := if e.Chunk? then e.bytes else [];
      w.arrived == v.arrived + (if v.connected then first else [])
  {
    match e
    case Chunk(bytes) =>
      DrainedArrived(Read(v.(arrived := v.arrived + bytes), bytes));
    case Pause =>
    case Resume => DrainedArrived(v.(paused := false));
    case Close =>
  }

  lemma {:induction false} DrainedArrived(v: View)
    ensures Drained(v).arrived == v.arrived
    decreases |v.later|
  {
    if !v.cutIn && v.connected && !v.paused && v.later != [] {
      DrainedArrived(Read(v.(later := v.later[1..]), v.later[0]));
    }
  }

  ghost function Fresh(script: seq<Act>): View {
    View([], [], true, true, false, script, [], false, [], [])
  }

  /** A part of a stream of frames has valid headers and the first packets. */
  lemma PrefixParses(a: seq<Byte>, packets: seq<Packet>)
    requires forall p :: p in packets ==> Buildable(p)
    requires a <= Stream(packets)
    ensures Parse(a).ok && Parse(a).packets <= packets
  {
    var b := Stream(packets)[|a|..];
    assert a + b == Stream(packets);
    ParseStream(packets);
    ParseAppend(a, b);
  }

  /** A fresh session turns any cutting of a stream of frames back into the packets framed, whenever it
      is paused and whatever its handlers do, unless one of them cuts in: none does if no handler
      resumes, or if the session is never paused. */
  method RoundTrip(packets: seq<Packet>, events: seq<Event>, script: seq<Act>) returns (s: PacketSession)
    requires forall p :: p in packets ==> Buildable(p)
    requires Sent(events) == Stream(packets)
    ensures s.cutIn == Course(Fresh(script), events).cutIn
    ensures s.cutIn ==> ResumeRecv in script && (PauseRecv in script || Pause in events)
    ensures !s.cutIn ==> s.emitted <= packets
    ensures !s.cutIn && Disconnect !in script && Close !in events ==> s.connected
    ensures !s.cutIn && s.connected && !s.paused ==> s.emitted == packets
  {
    s := new PacketSession(script);
    ghost var v := Fresh(script);
    CutInNeedsBoth(v, events);
    s.Feed(events);
    if !s.cutIn {
      RoundTripped(v, events, packets);
    }
  }

  lemma RoundTripped(v: View, events: seq<Event>, packets: seq<Packet>)
    requires v == Fresh(v.script) && !Course(v, events).cutIn
    requires forall p :: p in packets ==> Buildable(p)
    requires Sent(events) == Stream(packets)
    ensures var w := Course(v, events);
      && w.emitted <= packets
      && (Disconnect !in v.script && Close !in events ==> w.connected)
      && (w.connected && !w.paused ==> w.emitted == packets)
  {
    var w := Course(v, events);
    CourseKeeps(v, events);
    ArrivedIsSent(v, events);
    assert v.arrived + Sent(events) == Sent(events);
    PrefixParses(w.fed, packets);
    if Disconnect !in v.script && Close !in events {
      StaysOpen(v, events);
    }
    ParseStream(packets);
    assert w.later == [] ==> w.fed + Flatten(w.later) == w.fed;
  }

  // ---------------------------------------------------------------- what cutting in does

  /** Two chunks are kept back, and then the session is resumed. */
  ghost function ResumedWithTwo(first: seq<Byte>, second: seq<Byte>): seq<Event> {
    [Pause] + ([Chunk(first)] + ([Chunk(second)] + ([Resume] + [])))
  }

  /** A run that comes to it: a packet and `rest` arrive while the session is paused, then another
      chunk; the session is resumed, and so does the packet's handler. It cuts in exactly if there is
      a rest. */
  lemma CutInReached(p: Packet, rest: seq<Byte>, chunk: seq<Byte>)
    requires Buildable(p) && chunk != []
    ensures Course(Fresh([ResumeRecv]), ResumedWithTwo(Frame(p) + rest, chunk)).cutIn <==> rest != []
  {
    var first := Frame(p) + rest;
    var v := Fresh([ResumeRecv]);
    var v1 := v.(paused := true);
    var v2 := v1.(arrived := [] + first, later := [] + [first]);
    var v3 := v2.(arrived := [] + first + chunk, later := [first] + [chunk]);
    var v4 := v3.(paused := false);
    assert Step(v, Pause) == v1 && Step(v1, Chunk(first)) == v2 && Step(v2, Chunk(chunk)) == v3;
    CourseFirst(v, Pause, [Chunk(first)] + ([Chunk(chunk)] + ([Resume] + [])));
    CourseFirst(v1, Chunk(first), [Chunk(chunk)] + ([Resume] + []));
    CourseFirst(v2, Chunk(chunk), [Resume] + []);
    CourseFirst(v3, Resume, []);
    assert Course(Drained(v4), []) == Drained(v4);
    DrainTwo(v4, p, rest, chunk);
  }

  lemma CourseFirst(v: View, e: Event, events: seq<Event>)
    requires !v.cutIn
    ensures Course(v, [e] + events) == Course(Step(v, e), events)
  {
    assert ([e] + events)[1..] == events;
  }

  lemma DrainTwo(v: View, p: Packet, rest: seq<Byte>, chunk: seq<Byte>)
    requires Buildable(p) && v.later == [Frame(p) + rest] + [chunk] && v.held == [] && v.connected
    requires !v.paused && !v.cutIn && v.script == [ResumeRecv]
    ensures Drained(v).cutIn <==> rest != []
  {
    var w := v.(later := v.later[1..]);
    var first := Frame(p) + rest;
    assert w.later == [chunk] && v.later[0] == first && [] + first == first;
    ParseFrame(p, rest);
    RestNext(HandsOf(w), p, first, rest, false, true);
    var next := Handled(HandsOf(w), rest == [], true);
    assert HandsAfter(w, first).cutIn <==> rest != [];
    if rest == [] {
      DrainedNeeds(Read(w, first));
    } else {
      DrainedAgain(Read(w, first));
    }
  }

  /** Cutting in on a packet read through the buffer: it is still there when its handler runs, so the
      chunk delivered inside the handler emits it again. When the handler returns, the packet is
      taken off the buffer a second time: the buffer is broken exactly if less than that is left of
      the chunk, and otherwise these bytes of it are lost. */
  method EmittedTwice(p: Packet, chunk: seq<Byte>) returns (s: PacketSession)
    requires Buildable(p) && chunk != [] && Parse(chunk).ok
    ensures s.emitted == [p, p] + Parse(chunk).packets
    ensures s.recv.Valid() <==> |Frame(p)| <= |Parse(chunk).rest|
    ensures s.recv.Valid() ==> s.recv.Contents() == Parse(chunk).rest[|Frame(p)|..]
  {
    s := EmitTwice(p, chunk);
    ReadQuietly(s, chunk, chunk, Parse(chunk));
    TakeOff(s, Parse(chunk).rest, |Frame(p)|);
  }

  method EmitTwice(p: Packet, chunk: seq<Byte>) returns (s: PacketSession)
    requires Buildable(p) && chunk != []
    ensures fresh(s) && fresh(s.recv) && fresh(s.recv.buffer) && s.Valid() && s.intact && !s.cutIn && s.script == []
    ensures s.recv.Contents() == [] && s.emitted == [p, p]
  {
    s := new PacketSession([]);
    BufferFrame(s, p);
    AnnounceFrame(s, p);
    EmitAgain(s, p, chunk);
  }

  method BufferFrame(s: PacketSession, p: Packet)
    requires s.recv.Valid() && s.recv.buffer.Length == RECV_BUFFER_SIZE && s.recv.Contents() == [] && Buildable(p)
    modifies s.recv, s.recv.buffer
    ensures s.recv.Valid() && s.recv.Contents() == Frame(p)
  {
    s.AppendToRecvBuffer(Frame(p));
  }

  method TakeOff(s: PacketSession, ghost held: seq<Byte>, size: nat)
    requires s.recv.Valid() && s.recv.Contents() == held
    modifies s.recv
    ensures s.recv.Valid() <==> size <= |held|
    ensures s.recv.Valid() ==> s.recv.Contents() == held[size..]
  {
    s.recv.OnRead(size);
  }

  /** `OnPacket` for a packet whose frame is in the buffer. */
  method AnnounceFrame(s: PacketSession, p: Packet)
    requires s.recv.Valid() && Buildable(p) && s.recv.Contents() == Frame(p)
    modifies s`emitted
    ensures s.emitted == old(s.emitted) + [p]
  {
    FrameHeader(p);
    s.Announce(|Frame(p)|);
  }

  /** A chunk whose handlers do nothing, and which with what is held makes `all`. */
  method ReadQuietly(s: PacketSession, chunk: seq<Byte>, ghost all: seq<Byte>, ghost p: Parsed)
    requires s.Valid() && s.intact && !s.cutIn && s.script == [] && s.recv.Contents() + chunk == all
    requires p == Parse(all)
    modifies s, s.recv, s.recv.buffer
    ensures !s.cutIn && s.Valid() && s.script == [] && s.intact == p.ok
    ensures s.emitted == old(s.emitted) + p.packets
    ensures s.intact ==> s.recv.Contents() == p.rest
  {
    NoHandlers(HandsOf(s.State()), |p.packets|, p.rest == [], s.recv.Contents() != [], s.later != []);
    var resumes := s.ReadChunk(chunk);
  }

  lemma FrameHeader(p: Packet)
    requires Buildable(p)
    ensures Le16(Frame(p), 0) == |Frame(p)| && Packet(Le16(Frame(p), 2), Frame(p)[HEADER_SIZE..|Frame(p)|]) == p
  {
  }

  /** The chunk finds a complete packet in the buffer. */
  method EmitAgain(s: PacketSession, p: Packet, chunk: seq<Byte>)
    requires s.recv.Valid() && s.recv.buffer.Length == RECV_BUFFER_SIZE && s.connected && s.intact
    requires Buildable(p) && s.recv.Contents() == Frame(p) && chunk != []
    modifies s`connected, s`intact, s`emitted, s.recv, s.recv.buffer
    ensures s.Valid() && s.connected && s.intact && s.recv.Contents() == [] && s.emitted == old(s.emitted) + [p]
  {
    FrameHeader(p);
    assert chunk[0..] == chunk;
    ParseFrame(p, chunk);
    ghost var all := Frame(p) + chunk;
    assert Le16(all, 0) == |Frame(p)|;
    var ok, next := s.CompleteHeadedPacket(chunk, 0);
    assert !Incomplete(all);
    SameFirst(old(s.emitted), s.emitted, all, chunk[next..], p, chunk);
  }

  /** Cutting in on a packet that is not the last of its chunk: the chunk delivered inside the handler
      is read before `rest`, which came first. */
  method EmittedEarly(p: Packet, rest: seq<Byte>, chunk: seq<Byte>) returns (s: PacketSession)
    requires Buildable(p) && rest != [] && Parse(chunk).ok
    ensures s.emitted == [p] + Parse(chunk + rest).packets
  {
    s := EmitFirst(p, rest);
    ReadQuietly(s, chunk, chunk, Parse(chunk));
    ReadQuietly(s, rest, s.recv.Contents() + rest, Parse(s.recv.Contents() + rest));
    InOrder(p, chunk, rest);
  }

  lemma InOrder(p: Packet, chunk: seq<Byte>, rest: seq<Byte>)
    requires Parse(chunk).ok
    ensures [p] + Parse(chunk).packets + Parse(Parse(chunk).rest + rest).packets == [p] + Parse(chunk + rest).packets
  {
    ParseAppend(chunk, rest);
  }

  method EmitFirst(p: Packet, rest: seq<Byte>) returns (s: PacketSession)
    requires Buildable(p)
    ensures fresh(s) && fresh(s.recv) && fresh(s.recv.buffer) && s.Valid() && s.intact && !s.cutIn && s.script == []
    ensures s.recv.Contents() == [] && s.emitted == [p]
  {
    s := new PacketSession([]);
    assert (Frame(p) + rest)[0..] == Frame(p) + rest;
    Emit(s, Frame(p) + rest, 0, p);
  }

  /** The fast path at `offset`, where the frame of `p` is. */
  method Emit(s: PacketSession, data: seq<Byte>, offset: nat, p: Packet)
    requires s.Valid() && s.connected && s.recv.Contents() == [] && Buildable(p)
    requires offset < |data| && Frame(p) <= data[offset..]
    modifies s`connected, s`intact, s`emitted, s.recv, s.recv.buffer
    ensures s.Valid() && s.connected && s.recv.Contents() == [] && s.emitted == old(s.emitted) + [p]
  {
    ghost var rest := data[offset..][|Frame(p)|..];
    assert data[offset..] == Frame(p) + rest;
    ParseFrame(p, rest);
    var outcome := s.TakePacket(data, offset);
    assert !Incomplete(data[offset..]);
    SameFirst(old(s.emitted), s.emitted, data[offset..], data[outcome.next..], p, rest);
  }

  lemma SameFirst(before: seq<Packet>, after: seq<Packet>, all: seq<Byte>, todo: seq<Byte>, p: Packet, rest: seq<Byte>)
    requires Emitted(before, after, all, todo) && Parse(all) == Cons(p, Parse(rest))
    ensures after == before + [p]
  {
    assert Parse(all).packets[0] == p;
    assert after == after[..|before|] + [after[|before|]];
  }
}
