/** Reading frames from a byte stream that arrives in chunks, for any decoder of single frames whose
    answers later bytes do not change. */
module FrameStreams {
  import opened Bytes

  datatype Frame = Frame(opcode: nat, payload: seq<Byte>)

  const CLOSE: nat := 8

  /** What a decoder says of a buffer: the first frame is incomplete, too long, or `used` bytes. */
  datatype Decoded = NeedMore | TooLong | Got(frame: Frame, used: nat)

  type Decoder = seq<Byte> -> Decoded

  /** Bytes `b` behind `a` change neither a complete frame nor a refusal. */
  ghost predicate StableAt(decode: Decoder, a: seq<Byte>, b: seq<Byte>) {
    && (decode(a).Got? ==> decode(a + b) == decode(a) && 0 < decode(a).used <= |a|)
    && (decode(a).TooLong? ==> decode(a + b) == TooLong)
  }

  /** A frame is read from its own bytes. */
  ghost predicate ShortAt(decode: Decoder, s: seq<Byte>, k: nat) {
    decode(s).Got? && decode(s).used <= k <= |s| ==> decode(s[..k]) == decode(s)
  }

  ghost predicate Stable(decode: Decoder) {
    && (forall a, b :: StableAt(decode, a, b))
    && (forall s, k :: ShortAt(decode, s, k))
  }

  // ---------------------------------------------------------------- one buffer

  datatype Stop = Running | Closed | Oversize

  datatype Scanned = Scanned(frames: seq<Frame>, rest: seq<Byte>, stop: Stop)

  /** What is read from a buffer: frames up to an incomplete one, a close frame, or an oversized
      length. */
  ghost function Scan(decode: Decoder, s: seq<Byte>): Scanned
    requires Stable(decode)
    decreases |s|
  {
    match decode(s)
    case NeedMore => Scanned([], s, Running)
    case TooLong => Scanned([], s, Oversize)
    case Got(f, used) =>
      assert StableAt(decode, s, []);
      if f.opcode == CLOSE then Scanned([f], s[used..], Closed) else Prepend(f, Scan(decode, s[used..]))
  }

  ghost function Prepend(f: Frame, r: Scanned): Scanned {
    r.(frames := [f] + r.frames)
  }

  ghost function Then(a: Scanned, b: Scanned): Scanned {
    Scanned(a.frames + b.frames, b.rest, b.stop)
  }

  /** Reading on from the rest is reading the whole; a close frame or an oversized one is final. */
  lemma {:induction false} ScanAppend(decode: Decoder, a: seq<Byte>, b: seq<Byte>)
    requires Stable(decode)
    ensures var r := Scan(decode, a);
      && (r.stop.Running? ==> Scan(decode, a + b) == Then(r, Scan(decode, r.rest + b)))
      && (r.stop.Closed? ==> Scan(decode, a + b) == r.(rest := r.rest + b))
      && (r.stop.Oversize? ==> Scan(decode, a + b) == r.(rest := r.rest + b))
    decreases |a|
  {
    assert StableAt(decode, a, b);
    if decode(a).Got? {
      var f, used := decode(a).frame, decode(a).used;
      assert (a + b)[used..] == a[used..] + b;
      if f.opcode != CLOSE {
        ScanAppend(decode, a[used..], b);
        var tail := Scan(decode, a[used..]);
        PrependThen(f, tail, Scan(decode, tail.rest + b));
      }
    }
  }

  lemma PrependThen(f: Frame, a: Scanned, b: Scanned)
    ensures Then(Prepend(f, a), b) == Prepend(f, Then(a, b))
  {
    assert ([f] + a.frames) + b.frames == [f] + (a.frames + b.frames);
  }

  lemma ThenPrepend(frames: seq<Frame>, f: Frame, r: Scanned)
    ensures Then(Scanned(frames, [], Running), Prepend(f, r)) == Then(Scanned(frames + [f], [], Running), r)
  {
    assert frames + ([f] + r.frames) == (frames + [f]) + r.frames;
  }

  /** One round of a reading loop: what has been read, followed by what the buffer still gives. */
  lemma ScanStep(decode: Decoder, frames: seq<Frame>, buffer: seq<Byte>)
    requires Stable(decode)
    ensures var all := Then(Scanned(frames, [], Running), Scan(decode, buffer));
      var d := decode(buffer);
      && (d.NeedMore? ==> all == Scanned(frames, buffer, Running))
      && (d.TooLong? ==> all == Scanned(frames, buffer, Oversize))
      && (d.Got? ==>
            && 0 < d.used <= |buffer|
            && all == if d.frame.opcode == CLOSE then Scanned(frames + [d.frame], buffer[d.used..], Closed)
                      else Then(Scanned(frames + [d.frame], [], Running), Scan(decode, buffer[d.used..])))
  {
    assert StableAt(decode, buffer, []);
    if decode(buffer).Got? {
      ThenPrepend(frames, decode(buffer).frame, Scan(decode, buffer[decode(buffer).used..]));
    }
  }

  lemma {:induction false} ScanRest(decode: Decoder, s: seq<Byte>)
    requires Stable(decode) && Scan(decode, s).stop.Running?
    ensures decode(Scan(decode, s).rest).NeedMore?
    decreases |s|
  {
    if decode(s).Got? {
      assert StableAt(decode, s, []);
      ScanRest(decode, s[decode(s).used..]);
    }
  }

  lemma SuffixOfSuffix(s: seq<Byte>, used: nat, n: nat)
    requires used <= |s| && n <= |s| - used
    ensures s[|s| - n..] == s[used..][|s| - used - n..]
  {
  }

  lemma {:induction false} ScanSplit(decode: Decoder, s: seq<Byte>, rest: seq<Byte>)
    requires Stable(decode) && rest == Scan(decode, s).rest
    ensures |rest| <= |s| && s[|s| - |rest|..] == rest
    decreases |s|
  {
    if decode(s).Got? {
      assert StableAt(decode, s, []);
      if decode(s).frame.opcode != CLOSE {
        ScanSplit(decode, s[decode(s).used..], rest);
        SuffixOfSuffix(s, decode(s).used, |rest|);
      }
    }
  }

  /** Up to and including the close frame, the stream alone reads the same. */
  lemma {:induction false} ScanHead(decode: Decoder, s: seq<Byte>, k: nat)
    requires Stable(decode) && Scan(decode, s).stop.Closed? && k == |s| - |Scan(decode, s).rest| && k <= |s|
    ensures Scan(decode, s[..k]) == Scanned(Scan(decode, s).frames, [], Closed)
    decreases |s|
  {
    assert StableAt(decode, s, []) && ShortAt(decode, s, k);
    var f, used := decode(s).frame, decode(s).used;
    ScanSplit(decode, s[used..], Scan(decode, s[used..]).rest);
    if f.opcode != CLOSE {
      ScanHead(decode, s[used..], k - used);
      assert s[..k][used..] == s[used..][..k - used];
    } else {
      assert s[..k][used..] == [];
    }
  }

  /** Reading the bytes of the first `n` frames alone. */
  lemma {:induction false} ScanTake(decode: Decoder, s: seq<Byte>, n: nat) returns (k: nat)
    requires Stable(decode) && n <= |Scan(decode, s).frames|
    requires decode([]).NeedMore?
    requires forall f :: f in Scan(decode, s).frames[..n] ==> f.opcode != CLOSE
    ensures k <= |s| && Scan(decode, s[..k]) == Scanned(Scan(decode, s).frames[..n], [], Running)
    decreases n
  {
    if n == 0 {
      return 0;
    }
    var f, used := decode(s).frame, decode(s).used;
    assert StableAt(decode, s, []);
    assert f == Scan(decode, s).frames[..n][0];
    var tail := Scan(decode, s[used..]);
    assert Scan(decode, s).frames[..n] == [f] + tail.frames[..n - 1];
    var j := ScanTake(decode, s[used..], n - 1);
    k := used + j;
    assert ShortAt(decode, s, k);
    assert s[..k][used..] == s[used..][..j];
  }

  /** A close frame is the last one read. */
  lemma {:induction false} CloseIsLast(decode: Decoder, s: seq<Byte>)
    requires Stable(decode)
    ensures var r := Scan(decode, s);
      && (r.stop.Closed? ==> r.frames != [] && r.frames[|r.frames| - 1].opcode == CLOSE)
      && (forall f :: f in (if r.stop.Closed? then r.frames[..|r.frames| - 1] else r.frames) ==> f.opcode != CLOSE)
    decreases |s|
  {
    if decode(s).Got? && decode(s).frame.opcode != CLOSE {
      assert StableAt(decode, s, []);
      CloseIsLast(decode, s[decode(s).used..]);
      CloseIsLastStep(decode(s).frame, Scan(decode, s[decode(s).used..]));
    }
  }

  lemma CloseIsLastStep(f: Frame, tail: Scanned)
    requires f.opcode != CLOSE
    requires tail.stop.Closed? ==> tail.frames != [] && tail.frames[|tail.frames| - 1].opcode == CLOSE
    requires forall g :: g in (if tail.stop.Closed? then tail.frames[..|tail.frames| - 1] else tail.frames) ==> g.opcode != CLOSE
    ensures var r := Prepend(f, tail);
      && (r.stop.Closed? ==> r.frames != [] && r.frames[|r.frames| - 1].opcode == CLOSE)
      && (forall g :: g in (if r.stop.Closed? then r.frames[..|r.frames| - 1] else r.frames) ==> g.opcode != CLOSE)
  {
    var r := Prepend(f, tail);
    if r.stop.Closed? {
      assert r.frames[..|r.frames| - 1] == [f] + tail.frames[..|tail.frames| - 1];
    }
  }

  // ---------------------------------------------------------------- replies

  /** Frames that may make the session send something: a ping and a text. */
  predicate Replies(f: Frame) {
    f.opcode == 9 || f.opcode == 1
  }

  /** Is the reply to `f`, the frame with number `k`, refused? The reply is refused if there is no
      buffer for it or the send queue is full; then the session leaves the open state. */
  predicate Refused(refusals: seq<bool>, k: nat, f: Frame) {
    k < |refusals| && refusals[k] && Replies(f)
  }

  /** A reply to one of `frames`, numbered from `n`, is refused. */
  predicate AnyRefused(refusals: seq<bool>, n: nat, frames: seq<Frame>) {
    exists i: nat :: i < |frames| && Refused(refusals, n + i, frames[i])
  }

  /** One that another frame follows. */
  predicate RefusedBefore(refusals: seq<bool>, n: nat, frames: seq<Frame>) {
    exists i: nat :: i + 1 < |frames| && Refused(refusals, n + i, frames[i])
  }

  lemma AnyRefusedAppend(refusals: seq<bool>, n: nat, a: seq<Frame>, b: seq<Frame>)
    ensures AnyRefused(refusals, n, a + b) <==> AnyRefused(refusals, n, a) || AnyRefused(refusals, n + |a|, b)
  {
    if AnyRefused(refusals, n, a + b) {
      var i: nat :| i < |a + b| && Refused(refusals, n + i, (a + b)[i]);
      assert i >= |a| ==> (a + b)[i] == b[i - |a|] && Refused(refusals, n + |a| + (i - |a|), b[i - |a|]);
    }
    if AnyRefused(refusals, n, a) {
      var i: nat :| i < |a| && Refused(refusals, n + i, a[i]);
      assert (a + b)[i] == a[i];
    }
    if AnyRefused(refusals, n + |a|, b) {
      var i: nat :| i < |b| && Refused(refusals, n + |a| + i, b[i]);
      assert (a + b)[|a| + i] == b[i] && Refused(refusals, n + (|a| + i), (a + b)[|a| + i]);
    }
  }

  /** Nothing follows a refused reply: of two parts, none is in the first or the second is empty. */
  lemma RefusedLast(refusals: seq<bool>, n: nat, a: seq<Frame>, b: seq<Frame>)
    requires !RefusedBefore(refusals, n, a + b)
    ensures AnyRefused(refusals, n, a) ==> b == []
    ensures !RefusedBefore(refusals, n + |a|, b)
  {
    if AnyRefused(refusals, n, a) {
      var i: nat :| i < |a| && Refused(refusals, n + i, a[i]);
      assert (a + b)[i] == a[i];
    }
    forall i: nat | i + 1 < |b|
      ensures !Refused(refusals, n + |a| + i, b[i])
    {
      assert (a + b)[|a| + i] == b[i] && !Refused(refusals, n + (|a| + i), (a + b)[|a| + i]);
    }
  }

  /** Nothing is refused before a close frame that nothing refused precedes. */
  lemma RefusedOrClosed(refusals: seq<bool>, n: nat, frames: seq<Frame>)
    requires frames != [] && frames[|frames| - 1].opcode == CLOSE
    ensures AnyRefused(refusals, n, frames) ==> RefusedBefore(refusals, n, frames)
  {
    if AnyRefused(refusals, n, frames) {
      var i: nat :| i < |frames| && Refused(refusals, n + i, frames[i]);
      assert i + 1 < |frames|;
    }
  }

  // ---------------------------------------------------------------- a stream in chunks

  /** The frames a session reads from a stream in chunks. A close frame asks for the close after the
      flush: if nothing is left to flush the session closes at once and no later chunk is delivered;
      if the close is postponed, it is delivered `lasts` more chunks before the flush is done. After
      a refused reply the chunk is read to its end, and no later one is delivered. `closing` once a
      close frame has been read; `n` frames have been read before. */
  ghost function Session(decode: Decoder, buffer: seq<Byte>, chunks: seq<seq<Byte>>, closing: bool, lasts: nat,
                         refusals: seq<bool>, n: nat): seq<Frame>
    requires Stable(decode)
    decreases |chunks|, 0
  {
    if chunks == [] || (closing && lasts == 0) then []
    else
      var r := Scan(decode, buffer + chunks[0]);
      r.frames + Onward(decode, r, chunks[1..], closing, if closing then lasts - 1 else lasts, refusals, n)
  }

  /** The frames read from the chunks that follow, after `r`. */
  ghost function Onward(decode: Decoder, r: Scanned, chunks: seq<seq<Byte>>, closing: bool, lasts: nat,
                        refusals: seq<bool>, n: nat): seq<Frame>
    requires Stable(decode)
    decreases |chunks|, 1
  {
    if r.stop.Oversize? || AnyRefused(refusals, n, r.frames) then []
    else Session(decode, r.rest, chunks, closing || r.stop.Closed?, lasts, refusals, n + |r.frames|)
  }

  /** Does the session leave the open state where the reading stopped? */
  predicate Ends(stop: Stop, postponed: bool) {
    stop.Oversize? || (stop.Closed? && !postponed)
  }

  /** What one chunk adds to the frames handled before it. */
  lemma SessionStep(decode: Decoder, handled: seq<Frame>, buffer: seq<Byte>, chunks: seq<seq<Byte>>,
                    closing: bool, lasts: nat, refusals: seq<bool>)
    requires Stable(decode) && chunks != [] && !(closing && lasts == 0)
    ensures var r := Scan(decode, buffer + chunks[0]);
      var left := if closing then lasts - 1 else lasts;
      handled + Session(decode, buffer, chunks, closing, lasts, refusals, |handled|)
      == handled + r.frames + if Ends(r.stop, left > 0) || AnyRefused(refusals, |handled|, r.frames) then []
                              else Session(decode, r.rest, chunks[1..], closing || r.stop.Closed?, left,
                                           refusals, |handled + r.frames|)
  {
    var r := Scan(decode, buffer + chunks[0]);
    var left := if closing then lasts - 1 else lasts;
    var later := Onward(decode, r, chunks[1..], closing, left, refusals, |handled|);
    assert handled + (r.frames + later) == handled + r.frames + later;
    if r.stop.Closed? && left == 0 {
      assert Session(decode, r.rest, chunks[1..], true, 0, refusals, |handled + r.frames|) == [];
    }
  }

  /** A complete frame follows the first close frame. */
  ghost predicate FrameAfterClose(decode: Decoder, s: seq<Byte>)
    requires Stable(decode)
  {
    Scan(decode, s).stop.Closed? && decode(Scan(decode, s).rest).Got?
  }

  /** A complete frame follows one whose reply was refused. */
  ghost predicate FrameAfterRefused(decode: Decoder, s: seq<Byte>, refusals: seq<bool>, n: nat)
    requires Stable(decode)
  {
    RefusedBefore(refusals, n, Scan(decode, s).frames)
  }

  lemma FlattenFirst(buffer: seq<Byte>, chunks: seq<seq<Byte>>)
    requires chunks != []
    ensures buffer + Flatten(chunks) == buffer + chunks[0] + Flatten(chunks[1..])
  {
  }

  /** The frames read do not depend on the chunks, unless a frame follows a close frame and the close
      was postponed, or follows one whose reply was refused. */
  lemma {:induction false} ChunksDoNotMatter(decode: Decoder, buffer: seq<Byte>, chunks: seq<seq<Byte>>, lasts: nat,
                                             refusals: seq<bool>, n: nat)
    requires Stable(decode) && decode(buffer).NeedMore?
    requires !FrameAfterClose(decode, buffer + Flatten(chunks)) || lasts == 0
    requires !FrameAfterRefused(decode, buffer + Flatten(chunks), refusals, n)
    ensures Session(decode, buffer, chunks, false, lasts, refusals, n) == Scan(decode, buffer + Flatten(chunks)).frames
    decreases |chunks|
  {
    if chunks == [] {
      assert buffer + Flatten(chunks) == buffer;
    } else {
      var all, later := buffer + chunks[0], Flatten(chunks[1..]);
      FlattenFirst(buffer, chunks);
      ScanAppend(decode, all, later);
      var r := Scan(decode, all);
      if r.stop.Running? {
        ScanRest(decode, all);
        RefusedLast(refusals, n, r.frames, Scan(decode, r.rest + later).frames);
        if !AnyRefused(refusals, n, r.frames) {
          ChunksDoNotMatter(decode, r.rest, chunks[1..], lasts, refusals, n + |r.frames|);
        }
      } else if r.stop.Closed? {
        CloseIsLast(decode, all);
        RefusedOrClosed(refusals, n, r.frames);
        NothingMore(decode, r.rest, chunks[1..], lasts, refusals, n + |r.frames|);
      }
    }
  }

  lemma {:induction false} NothingMore(decode: Decoder, buffer: seq<Byte>, chunks: seq<seq<Byte>>, lasts: nat,
                                       refusals: seq<bool>, n: nat)
    requires Stable(decode) && (!decode(buffer + Flatten(chunks)).Got? || lasts == 0)
    ensures Session(decode, buffer, chunks, true, lasts, refusals, n) == []
    decreases |chunks|
  {
    if chunks != [] && lasts > 0 {
      var all := buffer + chunks[0];
      FlattenFirst(buffer, chunks);
      NothingNow(decode, all, Flatten(chunks[1..]));
      NothingMore(decode, all, chunks[1..], lasts - 1, refusals, n);
      var r := Scan(decode, all);
      assert n + |r.frames| == n && r.frames + Onward(decode, r, chunks[1..], true, lasts - 1, refusals, n) == [];
    }
  }

  lemma NothingNow(decode: Decoder, a: seq<Byte>, b: seq<Byte>)
    requires Stable(decode) && !decode(a + b).Got?
    ensures Scan(decode, a).frames == [] && Scan(decode, a).rest == a
  {
    assert StableAt(decode, a, b);
  }

  /** If one follows a postponed close, they do: cut right after the close frame, at least one more is
      read. */
  lemma {:induction false} ChunksMatterAfterClose(decode: Decoder, s: seq<Byte>, lasts: nat, refusals: seq<bool>, n: nat)
    returns (k: nat)
    requires Stable(decode) && FrameAfterClose(decode, s) && lasts > 0
    requires !FrameAfterRefused(decode, s, refusals, n)
    ensures k <= |s|
    ensures |Session(decode, [], [s[..k], s[k..]], false, lasts, refusals, n)| > |Scan(decode, s).frames|
  {
    var r := Scan(decode, s);
    ScanSplit(decode, s, r.rest);
    k := |s| - |r.rest|;
    ScanHead(decode, s, k);
    CloseIsLast(decode, s);
    RefusedOrClosed(refusals, n, r.frames);
    ReadTwo(decode, s[..k], s[k..], lasts, refusals, n);
    assert |Scan(decode, s[k..]).frames| >= 1;
  }

  lemma ReadTwo(decode: Decoder, a: seq<Byte>, b: seq<Byte>, lasts: nat, refusals: seq<bool>, n: nat)
    requires Stable(decode) && lasts > 0 && !AnyRefused(refusals, n, Scan(decode, a).frames)
    requires Scan(decode, a).rest == [] && Scan(decode, a).stop.Closed?
    ensures Session(decode, [], [a, b], false, lasts, refusals, n) == Scan(decode, a).frames + Scan(decode, b).frames
  {
    assert [] + a == a && [a, b][1..] == [b] && [b][1..] == [] && [] + b == b;
    assert Session(decode, [], [b], true, lasts, refusals, n + |Scan(decode, a).frames|) == Scan(decode, b).frames;
  }

  /** If one follows a refused reply, they do: cut right after the refused frame, the later ones are
      not read. */
  lemma {:induction false} ChunksMatterAfterRefused(decode: Decoder, s: seq<Byte>, lasts: nat, refusals: seq<bool>, n: nat)
    returns (k: nat)
    requires Stable(decode) && decode([]).NeedMore? && FrameAfterRefused(decode, s, refusals, n)
    ensures k <= |s|
    ensures |Session(decode, [], [s[..k], s[k..]], false, lasts, refusals, n)| < |Scan(decode, s).frames|
  {
    var frames := Scan(decode, s).frames;
    var i: nat :| i + 1 < |frames| && Refused(refusals, n + i, frames[i]);
    CloseIsLast(decode, s);
    forall f | f in frames[..i + 1]
      ensures f.opcode != CLOSE
    {
      assert f in frames[..|frames| - 1];
    }
    k := ScanTake(decode, s, i + 1);
    assert frames[..i + 1][i] == frames[i];
    ReadOne(decode, s[..k], s[k..], lasts, refusals, n);
  }

  lemma ReadOne(decode: Decoder, a: seq<Byte>, b: seq<Byte>, lasts: nat, refusals: seq<bool>, n: nat)
    requires Stable(decode) && AnyRefused(refusals, n, Scan(decode, a).frames)
    ensures Session(decode, [], [a, b], false, lasts, refusals, n) == Scan(decode, a).frames
  {
    assert [] + a == a;
  }

  /** Some cutting of `s` reads other frames than the whole. */
  ghost predicate CuttingMatters(decode: Decoder, s: seq<Byte>, lasts: nat, refusals: seq<bool>, n: nat)
    requires Stable(decode)
  {
    exists chunks: seq<seq<Byte>> ::
      Flatten(chunks) == s && Session(decode, [], chunks, false, lasts, refusals, n) != Scan(decode, s).frames
  }

  lemma FlattenTwo(s: seq<Byte>, k: nat)
    requires k <= |s|
    ensures Flatten([s[..k], s[k..]]) == s
  {
    FlattenOne(s[k..]);
    assert [s[..k], s[k..]][1..] == [s[k..]];
  }

  /** How the stream is cut matters exactly if a frame follows the close frame and the close was
      postponed, or a frame follows one whose reply was refused. */
  lemma {:induction false} CuttingMattersExactly(decode: Decoder, s: seq<Byte>, lasts: nat, refusals: seq<bool>, n: nat)
    requires Stable(decode) && decode([]).NeedMore?
    ensures CuttingMatters(decode, s, lasts, refusals, n)
       <==> (FrameAfterClose(decode, s) && lasts > 0) || FrameAfterRefused(decode, s, refusals, n)
  {
    if FrameAfterRefused(decode, s, refusals, n) {
      var k := ChunksMatterAfterRefused(decode, s, lasts, refusals, n);
      FlattenTwo(s, k);
    } else if FrameAfterClose(decode, s) && lasts > 0 {
      var k := ChunksMatterAfterClose(decode, s, lasts, refusals, n);
      FlattenTwo(s, k);
    } else {
      forall chunks: seq<seq<Byte>> | Flatten(chunks) == s
        ensures Session(decode, [], chunks, false, lasts, refusals, n) == Scan(decode, s).frames
      {
        assert [] + s == s;
        ChunksDoNotMatter(decode, [], chunks, lasts, refusals, n);
      }
    }
  }
}
