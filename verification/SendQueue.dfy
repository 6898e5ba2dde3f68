/** The per-session queue of outgoing buffers. */
module SendQueues {
  import opened Bytes

  datatype PushResult = PushResult(needsRegister: bool, overflowed: bool, depth: nat, bytes: nat)

  class SendQueue {
    const maxPending: nat
    var pending: seq<seq<Byte>>
    var registered: bool
    var pendingBytes: nat
    var peakDepth: nat
    var peakBytes: nat
    var overflows: nat

    ghost predicate Valid()
      reads this
    {
      && |pending| <= maxPending
      && pendingBytes == |Flatten(pending)|
      && |pending| <= peakDepth <= maxPending
      && pendingBytes <= peakBytes
    }

    constructor (maxPending: nat)
      ensures Valid() && this.maxPending == maxPending
      ensures pending == [] && !registered && overflows == 0
    {
      this.maxPending := maxPending;
      pending, registered := [], false;
      pendingBytes, peakDepth, peakBytes, overflows := 0, 0, 0, 0;
    }

    /** A full queue refuses the buffer; otherwise the buffer joins the tail, and only the
        first push of a send cycle asks the caller to register a send. */
    method Push(buf: seq<Byte>) returns (r: PushResult)
      requires Valid()
      modifies this
      ensures Valid()
      ensures r.overflowed <==> |old(pending)| >= maxPending
      ensures pending == if r.overflowed then old(pending) else old(pending) + [buf]
      ensures Flatten(pending) == Flatten(old(pending)) + if r.overflowed then [] else buf
      ensures registered == (old(registered) || !r.overflowed)
      ensures r.needsRegister == (!old(registered) && !r.overflowed)
      ensures overflows == old(overflows) + if r.overflowed then 1 else 0
      ensures r.depth == |pending| && r.bytes == pendingBytes
    {
      var overflow := |pending| >= maxPending;
      if overflow {
        overflows := overflows + 1;
        return PushResult(false, true, |pending|, pendingBytes);
      }
      var first := !registered;
      FlattenAppend(pending, [buf]);
      FlattenOne(buf);
      pendingBytes := pendingBytes + |buf|;
      pending := pending + [buf];
      if |pending| > peakDepth {
        peakDepth := |pending|;
      }
      if pendingBytes > peakBytes {
        peakBytes := pendingBytes;
      }
      registered := true;
      return PushResult(first, false, |pending|, pendingBytes);
    }

    /** Moves the first `maxCount` buffers out (all of them when `maxCount` is 0 or too large)
        and keeps the byte count exact. */
    method DrainInto(maxCount: nat) returns (out: seq<seq<Byte>>)
      requires Valid()
      modifies this`pending, this`pendingBytes
      ensures Valid()
      ensures out + pending == old(pending)
      ensures |out| == if maxCount == 0 || maxCount >= |old(pending)| then |old(pending)| else maxCount
      ensures Flatten(out) + Flatten(pending) == Flatten(old(pending))
    {
      if pending == [] {
        return [];
      }
      if maxCount == 0 || maxCount >= |pending| {
        out := pending;
        pending := [];
        pendingBytes := 0;
        assert out + pending == out;
        return;
      }
      var i := 0;
      while i < maxCount
        invariant 0 <= i <= maxCount
        invariant unchanged(this`pending)
        invariant pendingBytes == |Flatten(pending[i..])|
      {
        assert pending[i..][1..] == pending[i + 1..];
        pendingBytes := pendingBytes - |pending[i]|;
        i := i + 1;
      }
      out := pending[..maxCount];
      FlattenAppend(out, pending[maxCount..]);
      assert out + pending[maxCount..] == pending;
      pending := pending[maxCount..];
    }

    /** Ends a send cycle: the next push registers again only if nothing is waiting. */
    method MarkSent()
      requires Valid()
      modifies this`registered
      ensures Valid()
      ensures registered == (old(registered) && pending != [])
    {
      if pending == [] {
        registered := false;
      }
    }

  }
}

/** Progress of one scatter/gather send across partial completions. */
module SendState {
  import opened Bytes

  /** One iovec: `len` bytes starting `base` bytes into the buffer with the same index. */
  datatype IoVec = IoVec(base: nat, len: nat)

  datatype SendOp = SendOp(iovs: seq<IoVec>, bufs: seq<seq<Byte>>)

  ghost predicate WellFormed(iovs: seq<IoVec>, bufs: seq<seq<Byte>>) {
    && |iovs| == |bufs|
    && forall i :: 0 <= i < |iovs| ==> iovs[i].base + iovs[i].len <= |bufs[i]|
  }

  /** The bytes an operation still has to hand to the kernel. */
  ghost function Unsent(iovs: seq<IoVec>, bufs: seq<seq<Byte>>): seq<Byte>
    requires WellFormed(iovs, bufs)
  {
    if iovs == [] then []
    else bufs[0][iovs[0].base..iovs[0].base + iovs[0].len] + Unsent(iovs[1..], bufs[1..])
  }

  lemma {:induction false} UnsentSplit(iovs: seq<IoVec>, bufs: seq<seq<Byte>>, k: nat)
    requires WellFormed(iovs, bufs) && k < |iovs|
    ensures Unsent(iovs[k..], bufs[k..])
         == bufs[k][iovs[k].base..iovs[k].base + iovs[k].len] + Unsent(iovs[k + 1..], bufs[k + 1..])
  {
    assert iovs[k..][1..] == iovs[k + 1..] && bufs[k..][1..] == bufs[k + 1..];
    assert iovs[k..][0] == iovs[k] && bufs[k..][0] == bufs[k];
  }

  /** The loop that fills the iovecs of a fresh batch: each covers its whole buffer. */
  method GatherIoVecs(bufs: seq<seq<Byte>>) returns (iovs: seq<IoVec>)
    ensures WellFormed(iovs, bufs)
    ensures Unsent(iovs, bufs) == Flatten(bufs)
  {
    iovs := [];
    while |iovs| < |bufs|
      invariant |iovs| <= |bufs|
      invariant forall i :: 0 <= i < |iovs| ==> iovs[i] == IoVec(0, |bufs[i]|)
    {
      iovs := iovs + [IoVec(0, |bufs[|iovs|]|)];
    }
    UnsentWhole(iovs, bufs);
  }

  lemma {:induction false} UnsentWhole(iovs: seq<IoVec>, bufs: seq<seq<Byte>>)
    requires |iovs| == |bufs|
    requires forall i :: 0 <= i < |iovs| ==> iovs[i] == IoVec(0, |bufs[i]|)
    ensures Unsent(iovs, bufs) == Flatten(bufs)
  {
    if iovs != [] {
      UnsentWhole(iovs[1..], bufs[1..]);
    }
  }

  /** The number of bytes an operation still asks the kernel to send. */
  method Requested(iovs: seq<IoVec>, ghost bufs: seq<seq<Byte>>) returns (n: nat)
    requires WellFormed(iovs, bufs)
    ensures n == |Unsent(iovs, bufs)|
  {
    n := 0;
    var i := 0;
    assert iovs[0..] == iovs && bufs[0..] == bufs;
    while i < |iovs|
      invariant 0 <= i <= |iovs|
      invariant n + |Unsent(iovs[i..], bufs[i..])| == |Unsent(iovs, bufs)|
    {
      UnsentSplit(iovs, bufs, i);
      n := n + iovs[i].len;
      i := i + 1;
    }
  }

  lemma {:induction false} TrimFront(iovs: seq<IoVec>, bufs: seq<seq<Byte>>, n: nat)
    requires WellFormed(iovs, bufs) && iovs != [] && n <= iovs[0].len
    ensures var trimmed := [IoVec(iovs[0].base + n, iovs[0].len - n)] + iovs[1..];
            && WellFormed(trimmed, bufs)
            && n <= |Unsent(iovs, bufs)|
            && Unsent(trimmed, bufs) == Unsent(iovs, bufs)[n..]
  {
    var v := iovs[0];
    var trimmed := [IoVec(v.base + n, v.len - n)] + iovs[1..];
    assert trimmed[1..] == iovs[1..];
    assert bufs[0][v.base..v.base + v.len][n..] == bufs[0][v.base + n..v.base + v.len];
  }

  /** `AdvanceSendState`: after a partial completion of `advanced` bytes exactly the unsent
      suffix is left, whole buffers being dropped and the front one trimmed. */
  method AdvanceSendState(iovs: seq<IoVec>, bufs: seq<seq<Byte>>, advanced: nat)
    returns (iovs': seq<IoVec>, bufs': seq<seq<Byte>>)
    requires WellFormed(iovs, bufs)
    ensures WellFormed(iovs', bufs')
    ensures |bufs'| <= |bufs| && bufs' == bufs[|bufs| - |bufs'|..]
    ensures var all := Unsent(iovs, bufs);
            if advanced <= |all| then Unsent(iovs', bufs') == all[advanced..] else iovs' == []
    ensures iovs' != [] ==> iovs'[0].len > 0
  {
    var left := advanced;
    var consumed := 0;
    ghost var all := Unsent(iovs, bufs);
    assert iovs[0..] == iovs && bufs[0..] == bufs;
    while consumed < |iovs| && left >= iovs[consumed].len
      invariant consumed <= |iovs|
      invariant 0 <= left <= advanced
      invariant advanced - left <= |all|
      invariant Unsent(iovs[consumed..], bufs[consumed..]) == all[advanced - left..]
      decreases |iovs| - consumed
    {
      UnsentSplit(iovs, bufs, consumed);
      left := left - iovs[consumed].len;
      consumed := consumed + 1;
    }
    iovs', bufs' := iovs[consumed..], bufs[consumed..];
    if left > 0 && iovs' != [] {
      TrimFront(iovs', bufs', left);
      assert all[advanced - left..][left..] == all[advanced..];
      iovs' := [IoVec(iovs'[0].base + left, iovs'[0].len - left)] + iovs'[1..];
    }
  }
}
