/** An upload written to a temporary file by positioned writes that complete in any order.

    The kernel may write fewer bytes than asked, and more than it reports; what it writes are the
    bytes it was given, where it was told to put them. */
module Uploads {
  import opened Bytes

  /** A chunk being written: `written` bytes of `buffer` are reported as done. */
  datatype Write = Write(buffer: seq<Byte>, written: nat, offset: nat)

  type Id = nat
  type File = map<nat, Byte>

  /** Where chunk number `i` starts in the file. */
  function Offset(chunks: seq<seq<Byte>>, i: nat): nat
    requires i <= |chunks|
  {
    |Flatten(chunks[..i])|
  }

  /** The regions of the chunks tile the file: each starts where the one before it ends, the last
      one ends at the number of bytes submitted, and each holds its chunk. */
  lemma {:induction false} RegionsTile(chunks: seq<seq<Byte>>, i: nat)
    requires i < |chunks|
    ensures Offset(chunks, 0) == 0 && Offset(chunks, |chunks|) == |Flatten(chunks)|
    ensures Offset(chunks, i + 1) == Offset(chunks, i) + |chunks[i]| <= |Flatten(chunks)|
    ensures Flatten(chunks)[Offset(chunks, i)..Offset(chunks, i + 1)] == chunks[i]
  {
    assert chunks[..|chunks|] == chunks;
    assert chunks[..i + 1] == chunks[..i] + [chunks[i]];
    assert chunks == chunks[..i + 1] + chunks[i + 1..];
    FlattenAppend(chunks[..i], [chunks[i]]);
    FlattenOne(chunks[i]);
    FlattenAppend(chunks[..i + 1], chunks[i + 1..]);
  }

  lemma RegionByte(chunks: seq<seq<Byte>>, i: nat, d: nat)
    requires i < |chunks| && d < |chunks[i]|
    ensures Offset(chunks, i) + d < |Flatten(chunks)|
    ensures Flatten(chunks)[Offset(chunks, i) + d] == chunks[i][d]
  {
    RegionsTile(chunks, i);
    assert chunks[i][d] == Flatten(chunks)[Offset(chunks, i)..Offset(chunks, i + 1)][d];
  }

  /** The writes outstanding are chunks at their own offsets. */
  ghost predicate Placed(chunks: seq<seq<Byte>>, pending: map<Id, Write>) {
    forall id :: id in pending ==>
      && id < |chunks|
      && pending[id].buffer == chunks[id]
      && pending[id].written <= |chunks[id]|
      && pending[id].offset == Offset(chunks, id)
  }

  /** Position `pos` is still to be written. */
  ghost predicate Awaited(pending: map<Id, Write>, pos: nat) {
    exists id :: id in pending &&
      pending[id].offset + pending[id].written <= pos < pending[id].offset + |pending[id].buffer|
  }

  /** Whatever is in the file is right. */
  ghost predicate Sound(file: File, all: seq<Byte>) {
    forall pos :: pos in file ==> pos < |all| && file[pos] == all[pos]
  }

  /** Whatever is not in the file is still being written. */
  ghost predicate Covered(file: File, pending: map<Id, Write>, n: nat) {
    forall pos: nat :: pos < n ==> pos in file || Awaited(pending, pos)
  }

  /** The file holds exactly these bytes. */
  ghost predicate Holds(file: File, all: seq<Byte>) {
    && (forall pos: nat :: pos in file <==> pos < |all|)
    && (forall pos :: pos in file ==> file[pos] == all[pos])
  }

  lemma SoundLonger(file: File, all: seq<Byte>, more: seq<Byte>)
    requires Sound(file, all)
    ensures Sound(file, all + more)
  {
  }

  lemma AllWritten(file: File, all: seq<Byte>)
    requires Sound(file, all) && Covered(file, map[], |all|)
    ensures Holds(file, all)
  {
    forall pos: nat | pos < |all|
      ensures pos in file
    {
      assert !Awaited(map[], pos);
    }
  }

  /** The file after the kernel has written the next `k` bytes of `w`. */
  function Wrote(file: File, w: Write, k: nat): (r: File)
    requires w.written + k <= |w.buffer|
    ensures forall pos :: pos in r <==>
      pos in file || w.offset + w.written <= pos < w.offset + w.written + k
    ensures forall pos :: pos in r ==>
      r[pos] == if w.offset + w.written <= pos < w.offset + w.written + k
                then w.buffer[pos - w.offset] else file[pos]
  {
    if k == 0 then file
    else Wrote(file, w, k - 1)[w.offset + w.written + k - 1 := w.buffer[w.written + k - 1]]
  }

  lemma WroteSound(file: File, chunks: seq<seq<Byte>>, w: Write, i: nat, k: nat)
    requires Sound(file, Flatten(chunks)) && i < |chunks|
    requires w.buffer == chunks[i] && w.offset == Offset(chunks, i) && w.written + k <= |chunks[i]|
    ensures Sound(Wrote(file, w, k), Flatten(chunks))
  {
    var all, r := Flatten(chunks), Wrote(file, w, k);
    forall pos | pos in r
      ensures pos < |all| && r[pos] == all[pos]
    {
      if w.offset + w.written <= pos < w.offset + w.written + k {
        RegionByte(chunks, i, pos - w.offset);
      }
    }
  }

  /** After a write of which `n` bytes are reported, the rest of the chunk is still awaited. */
  lemma Progress(file: File, pending: map<Id, Write>, all: nat, id: Id, n: nat, k: nat)
    requires Covered(file, pending, all) && id in pending
    requires pending[id].written + n <= pending[id].written + k <= |pending[id].buffer|
    ensures var w := pending[id];
      var r := Wrote(file, w, k);
      && Covered(r, pending[id := w.(written := w.written + n)], all)
      && (w.written + n == |w.buffer| ==> Covered(r, pending - {id}, all))
  {
    var w := pending[id];
    var r := Wrote(file, w, k);
    var on, off := pending[id := w.(written := w.written + n)], pending - {id};
    forall pos: nat | pos < all && pos !in r
      ensures Awaited(on, pos)
      ensures w.written + n == |w.buffer| ==> Awaited(off, pos)
    {
      var j :| j in pending &&
        pending[j].offset + pending[j].written <= pos < pending[j].offset + |pending[j].buffer|;
      assert j in on;
      if j != id {
        assert on[j] == pending[j] && off[j] == pending[j];
      } else {
        assert on[j].offset + on[j].written <= pos;
      }
    }
  }

  /** How many bytes the outstanding writes carry. */
  function Carried(chunks: seq<seq<Byte>>, ids: set<Id>): nat {
    if chunks == [] then 0
    else
      var n := |chunks| - 1;
      Carried(chunks[..n], ids) + if n in ids then |chunks[n]| else 0
  }

  lemma {:induction false} CarriedWithout(chunks: seq<seq<Byte>>, ids: set<Id>, id: Id)
    requires id in ids
    ensures Carried(chunks, ids - {id}) ==
      Carried(chunks, ids) - if id < |chunks| then |chunks[id]| else 0
  {
    if chunks != [] {
      CarriedWithout(chunks[..|chunks| - 1], ids, id);
    }
  }

  lemma CarriedNone(chunks: seq<seq<Byte>>)
    ensures Carried(chunks, {}) == 0
  {
  }

  lemma CarriedNew(chunks: seq<seq<Byte>>, chunk: seq<Byte>, ids: set<Id>)
    requires forall id :: id in ids ==> id < |chunks|
    ensures Carried(chunks + [chunk], ids + {|chunks|}) == Carried(chunks, ids) + |chunk|
  {
    assert (chunks + [chunk])[..|chunks|] == chunks;
    CarriedOutside(chunks, ids, |chunks|);
  }

  lemma {:induction false} CarriedOutside(chunks: seq<seq<Byte>>, ids: set<Id>, id: Id)
    requires |chunks| <= id
    ensures Carried(chunks, ids + {id}) == Carried(chunks, ids)
  {
    if chunks != [] {
      CarriedOutside(chunks[..|chunks| - 1], ids, id);
    }
  }

  /** A new chunk goes behind all the others. */
  function NewWrite(chunks: seq<seq<Byte>>, chunk: seq<Byte>): Write {
    Write(chunk, 0, |Flatten(chunks)|)
  }

  lemma ExtendPlaced(chunks: seq<seq<Byte>>, pending: map<Id, Write>, chunk: seq<Byte>)
    requires Placed(chunks, pending)
    ensures Flatten(chunks + [chunk]) == Flatten(chunks) + chunk
    ensures Placed(chunks + [chunk], pending[|chunks| := NewWrite(chunks, chunk)])
  {
    FlattenAppend(chunks, [chunk]);
    FlattenOne(chunk);
    var more, on := chunks + [chunk], pending[|chunks| := NewWrite(chunks, chunk)];
    forall id | id in on
      ensures id < |more| && on[id].buffer == more[id] && on[id].written <= |more[id]|
      ensures on[id].offset == Offset(more, id)
    {
      if id == |chunks| {
        assert more[..id] == chunks;
      } else {
        assert on[id] == pending[id] && more[..id] == chunks[..id];
      }
    }
  }

  lemma ExtendCovered(file: File, chunks: seq<seq<Byte>>, pending: map<Id, Write>, chunk: seq<Byte>)
    requires Placed(chunks, pending) && Covered(file, pending, |Flatten(chunks)|)
    ensures Covered(file, pending[|chunks| := NewWrite(chunks, chunk)], |Flatten(chunks)| + |chunk|)
  {
    var n, on := |Flatten(chunks)|, pending[|chunks| := NewWrite(chunks, chunk)];
    forall pos: nat | pos < n + |chunk| && pos !in file
      ensures Awaited(on, pos)
    {
      if pos < n {
        var j :| j in pending &&
          pending[j].offset + pending[j].written <= pos < pending[j].offset + |pending[j].buffer|;
        assert on[j] == pending[j];
      } else {
        assert on[|chunks|].offset + on[|chunks|].written <= pos;
      }
    }
  }

  /** Every write goes to its own place, and what is in the file is right. */
  ghost predicate InPlaceOf(file: File, chunks: seq<seq<Byte>>, pending: map<Id, Write>, submitted: nat, nextId: Id) {
    && submitted == |Flatten(chunks)| && nextId == |chunks|
    && Placed(chunks, pending)
    && Sound(file, Flatten(chunks))
  }

  /** Every byte is in the file or on its way, and the counts agree. */
  ghost predicate OnItsWay(file: File, chunks: seq<seq<Byte>>, pending: map<Id, Write>, submitted: nat, written: nat) {
    && Covered(file, pending, submitted)
    && written + Carried(chunks, pending.Keys) == submitted
  }

  lemma ExtendInPlace(file: File, chunks: seq<seq<Byte>>, pending: map<Id, Write>, submitted: nat, chunk: seq<Byte>)
    requires InPlaceOf(file, chunks, pending, submitted, |chunks|)
    ensures InPlaceOf(file, chunks + [chunk], pending[|chunks| := Write(chunk, 0, submitted)], submitted + |chunk|,
                      |chunks| + 1)
    ensures Flatten(chunks + [chunk]) == Flatten(chunks) + chunk
  {
    ExtendPlaced(chunks, pending, chunk);
    SoundLonger(file, Flatten(chunks), chunk);
  }

  lemma ExtendOnItsWay(file: File, chunks: seq<seq<Byte>>, pending: map<Id, Write>, submitted: nat, written: nat,
                       chunk: seq<Byte>)
    requires InPlaceOf(file, chunks, pending, submitted, |chunks|) && OnItsWay(file, chunks, pending, submitted, written)
    ensures OnItsWay(file, chunks + [chunk], pending[|chunks| := Write(chunk, 0, submitted)], submitted + |chunk|, written)
  {
    ExtendCovered(file, chunks, pending, chunk);
    CarriedNew(chunks, chunk, pending.Keys);
    assert pending[|chunks| := NewWrite(chunks, chunk)].Keys == pending.Keys + {|chunks|};
  }

  class AsyncUpload {
    const expected: nat
    const ring: bool
    const renames: bool  // whether the file system will carry out the final rename
    const hasFile: bool   // whether it gave the upload its temporary file
    var fdOpen: bool
    var submitted: nat
    var written: nat
    var failed: bool
    var aborted: bool
    var requestComplete: bool
    var finished: bool
    var deferred: bool
    var pending: map<Id, Write>
    var nextId: Id
    var cleanup: bool

    // The file system: the temporary file, and what was published under the final name.
    var file: File
    var temp: bool
    var published: Option<File>

    ghost var chunks: seq<seq<Byte>>
    ghost var request: seq<Byte>
    ghost var cleanups: nat
    ghost var statuses: seq<nat>

    /** Every write goes to its own place, and what is in the file is right. */
    ghost predicate InPlace()
      reads this`submitted, this`pending, this`nextId, this`file, this`chunks
    {
      InPlaceOf(file, chunks, pending, submitted, nextId)
    }

    /** And unless the upload is lost, every byte of the request is in the file or on its way. */
    ghost predicate Layout()
      reads this`submitted, this`written, this`failed, this`aborted, this`pending, this`nextId
      reads this`file, this`chunks, this`request
    {
      && InPlace()
      && (!failed && !aborted ==> OnItsWay(file, chunks, pending, submitted, written))
      && (!failed ==> request == Flatten(chunks))
    }

    /** The answer an upload that was not aborted ends with. */
    ghost function Answer(): nat
      reads this`failed, this`submitted
    {
      if !failed && (expected == 0 || submitted == expected) && renames then 201 else 500
    }

    /** Before the end: nothing cleaned up, answered or published. */
    ghost predicate Running()
      reads this`finished, this`cleanups, this`cleanup, this`statuses, this`published, this`aborted
      reads this`fdOpen, this`temp, this`requestComplete, this`deferred
    {
      && !finished && cleanups == 0 && cleanup && statuses == [] && published == None
      && (aborted ==> !fdOpen && !temp) && (!aborted ==> fdOpen == hasFile)
      && (requestComplete ==> deferred)
    }

    /** The upload finishes once: with no write outstanding, one cleanup, the right answer unless it
        was aborted, and the file published exactly if the answer was 201. */
    ghost predicate Over()
      reads this
    {
      && finished && cleanups == 1 && !cleanup && pending == map[] && !fdOpen && !temp
      && statuses == (if aborted then [] else [Answer()])
      && (published.Some? <==> statuses == [201])
      && (published.Some? ==> Holds(published.value, request))
    }

    ghost predicate Lifecycle()
      reads this
    {
      Running() || Over()
    }

    /** Nothing is put off: with the request complete or aborted and no write left, it is over. */
    ghost predicate Settled()
      reads this`requestComplete, this`aborted, this`pending, this`finished
    {
      (requestComplete || aborted) && pending == map[] ==> finished
    }

    ghost predicate Valid()
      reads this
    {
      Layout() && Lifecycle() && Settled()
    }

    constructor (expected: nat, ring: bool, renames: bool, hasFile: bool)
      ensures Valid() && request == [] && !failed && !finished && !aborted && !requestComplete
      ensures this.expected == expected && this.ring == ring && this.renames == renames && this.hasFile == hasFile
    {
      this.expected, this.ring, this.renames, this.hasFile := expected, ring, renames, hasFile;
      fdOpen := hasFile;
      submitted, written := 0, 0;
      failed, aborted, requestComplete, finished, deferred := false, false, false, false, false;
      pending, nextId, cleanup := map[], 0, true;
      temp := hasFile;
      file, published := map[], None;
      chunks, request, cleanups, statuses := [], [], 0, [];
      new;
      CarriedNone(chunks);
    }

    method Close()
      modifies this`fdOpen
      ensures !fdOpen
    {
      fdOpen := false;
    }

    method Cleanup()
      modifies this`cleanup, this`cleanups
      ensures !cleanup && cleanups == old(cleanups) + if old(cleanup) then 1 else 0
    {
      if cleanup {
        cleanup := false;
        cleanups := cleanups + 1;
      }
    }

    /** Can the ring take a write, if it has `room`? */
    ghost predicate Accepts(room: bool)
      reads this`fdOpen
    {
      ring && fdOpen && room
    }

    /** Hands a write to the ring, which may be missing or full. */
    method SubmitPendingWrite(room: bool) returns (ok: bool)
      modifies this`failed
      ensures ok <==> Accepts(room)
      ensures failed == (old(failed) || !ok)
    {
      if !ring || !fdOpen {
        failed := true;
        return false;
      }
      if !room {
        failed := true;
        return false;
      }
      return true;
    }

    method Respond(status: nat)
      modifies this`statuses, this`cleanup, this`cleanups, this`deferred
      ensures statuses == old(statuses) + [status]
      ensures !cleanup && cleanups == old(cleanups) + if old(cleanup) then 1 else 0
    {
      statuses := statuses + [status];
      Cleanup();
      deferred := false;
    }

    method TryFinish()
      requires Layout() && Lifecycle()
      modifies this`finished, this`cleanup, this`cleanups, this`fdOpen, this`published
      modifies this`temp, this`statuses, this`deferred
      ensures Valid()
      ensures old(finished) ==> unchanged(this)
      ensures finished == (old(finished) || ((requestComplete || aborted) && pending == map[]))
    {
      if finished {
        return;
      }
      if aborted {
        if pending == map[] {
          FinishAborted();
        }
        return;
      }
      if !requestComplete || !deferred || pending != map[] {
        return;
      }
      var ok := Intact();
      Conclude(ok);
    }

    /** With no write outstanding, an upload that did not fail is in the file, and the count of
        written bytes agrees. */
    method Intact() returns (ok: bool)
      requires Layout() && !aborted && pending == map[]
      ensures ok == (!failed && (expected == 0 || submitted == expected))
      ensures ok ==> Holds(file, request)
    {
      assert pending.Keys == {};
      CarriedNone(chunks);
      ok := !(failed || (expected != 0 && submitted != expected) || written != submitted);
      if ok {
        AllWritten(file, request);
      }
    }

    /** Publishes the file and answers 201, or answers 500. */
    method Conclude(ok: bool)
      requires Running() && !aborted && pending == map[]
      requires ok == (!failed && (expected == 0 || submitted == expected))
      requires ok ==> Holds(file, request)
      modifies this`finished, this`cleanup, this`cleanups, this`fdOpen, this`published
      modifies this`temp, this`statuses, this`deferred
      ensures Over()
    {
      finished := true;
      Close();
      if ok && renames {
        published := Some(file);
        Respond(201);
      } else {
        Respond(500);
      }
      temp := false;
    }

    /** The next chunk becomes a write behind all the others. */
    method AddChunk(chunk: seq<Byte>)
      requires Layout() && !failed
      modifies this`submitted, this`pending, this`chunks, this`request, this`nextId
      ensures Layout() && request == old(request) + chunk
      ensures nextId == old(nextId) + 1 && pending.Keys == old(pending.Keys) + {old(nextId)}
    {
      ExtendInPlace(file, chunks, pending, submitted, chunk);
      if !aborted {
        ExtendOnItsWay(file, chunks, pending, submitted, written, chunk);
      }
      pending := pending[nextId := Write(chunk, 0, submitted)];
      nextId := nextId + 1;
      submitted := submitted + |chunk|;
      chunks := chunks + [chunk];
      request := request + chunk;
    }

    /** Forgets a write that will not be completed. */
    method DropWrite(id: Id)
      requires Layout() && (failed || aborted)
      modifies this`pending
      ensures Layout() && pending == old(pending) - {id}
    {
      pending := pending - {id};
    }

    /** Hands write `id` to the ring, for the first time or again for what is left of it. */
    method SubmitOrDrop(id: Id, room: bool)
      requires Layout() && Running() && id in pending
      modifies this`failed, this`pending, this`finished, this`cleanup, this`cleanups
      modifies this`fdOpen, this`published, this`temp, this`statuses, this`deferred
      ensures Valid() && failed == (old(failed) || !old(Accepts(room)))
      ensures pending == if old(Accepts(room)) then old(pending) else old(pending) - {id}
    {
      var ok := SubmitPendingWrite(room);
      if !ok {
        DropWrite(id);
        TryFinish();
      }
    }

    /** A write completed with nothing done, or for an upload that was aborted meanwhile. */
    method LoseWrite(id: Id, k: nat)
      requires Layout() && Running() && id in pending
      requires pending[id].written + k <= |pending[id].buffer|
      modifies this`file, this`failed, this`pending, this`finished, this`cleanup, this`cleanups
      modifies this`fdOpen, this`published, this`temp, this`statuses, this`deferred
      ensures Valid() && failed == (old(failed) || !aborted) && pending == old(pending) - {id}
    {
      ForgetWrite(id, k);
      TryFinish();
    }

    /** What the kernel wrote no longer matters. */
    method ForgetWrite(id: Id, k: nat)
      requires Layout() && id in pending && pending[id].written + k <= |pending[id].buffer|
      modifies this`file, this`failed, this`pending
      ensures Layout() && pending == old(pending) - {id} && failed == (old(failed) || !aborted)
    {
      WroteSound(file, chunks, pending[id], id, k);
      file := Wrote(file, pending[id], k);
      if !aborted {
        failed := true;
      }
      pending := pending - {id};
    }

    /** A failed upload takes nothing more. */
    method IgnoreChunk(chunk: seq<Byte>)
      requires Valid() && failed && !finished
      modifies this`request
      ensures Valid() && request == old(request) + chunk
    {
      request := request + chunk;
    }

    method TakeChunk(chunk: seq<Byte>, room: bool)
      requires Layout() && Running() && !failed
      modifies this`submitted, this`pending, this`failed, this`finished, this`cleanup, this`cleanups
      modifies this`fdOpen, this`published, this`temp, this`statuses, this`deferred
      modifies this`chunks, this`request, this`nextId
      ensures Valid() && request == old(request) + chunk && failed == !old(Accepts(room))
      ensures !failed ==> nextId == old(nextId) + 1 && pending.Keys == old(pending.Keys) + {old(nextId)}
    {
      AddChunk(chunk);
      SubmitOrDrop(nextId - 1, room);
    }

    /** `room`: the ring takes the write. */
    method SubmitChunk(chunk: seq<Byte>, room: bool)
      requires Valid() && !requestComplete
      modifies this`submitted, this`pending, this`failed, this`finished, this`cleanup, this`cleanups
      modifies this`fdOpen, this`published, this`temp, this`statuses, this`deferred
      modifies this`chunks, this`request, this`nextId
      ensures Valid()
      ensures old(finished) ==> unchanged(this)
      ensures !old(finished) ==> request == old(request) + chunk
      ensures !old(finished) ==> failed == (old(failed) || !old(Accepts(room)))
      ensures !old(finished) && !failed ==> pending.Keys == old(pending.Keys) + {old(nextId)}
    {
      if finished {
        return;
      }
      if failed {
        IgnoreChunk(chunk);
      } else {
        TakeChunk(chunk, room);
      }
    }

    method MarkRequestComplete()
      requires Valid()
      modifies this`requestComplete, this`finished, this`cleanup, this`cleanups
      modifies this`fdOpen, this`published, this`temp, this`statuses, this`deferred
      ensures Valid() && requestComplete
      ensures old(finished) ==> finished && published == old(published)
    {
      deferred := true;
      requestComplete := true;
      assert Layout() && Lifecycle();
      TryFinish();
    }

    /** The client is gone: the file is removed, and the upload ends when the last write has. */
    method Abort()
      requires Valid()
      modifies this`aborted, this`finished, this`cleanup, this`cleanups, this`fdOpen, this`temp
      ensures Valid()
      ensures old(finished) ==> unchanged(this)
      ensures !old(finished) ==> aborted && !temp && (finished <==> pending == map[])
    {
      if finished || aborted {
        return;
      }
      RemoveTemp();
      if pending == map[] {
        FinishAborted();
      }
    }

    method RemoveTemp()
      requires Layout() && Running()
      modifies this`aborted, this`fdOpen, this`temp
      ensures Layout() && Running() && aborted && !temp
    {
      aborted := true;
      Close();
      temp := false;
    }

    method FinishAborted()
      requires Running() && aborted && pending == map[]
      modifies this`finished, this`cleanup, this`cleanups
      ensures Over()
    {
      finished := true;
      Cleanup();
    }

    /** The kernel has written the next `k` bytes of a write. */
    method KernelWrites(id: Id, k: nat)
      requires Layout() && id in pending && pending[id].written + k <= |pending[id].buffer|
      modifies this`file
      ensures file == Wrote(old(file), pending[id], k) && InPlace()
    {
      WroteSound(file, chunks, pending[id], id, k);
      file := Wrote(file, pending[id], k);
    }

    /** Counts `n` more bytes of a write as done. */
    method Advance(id: Id, n: nat, k: nat)
      requires Layout() && id in pending && !aborted
      requires n <= k && pending[id].written + k <= |pending[id].buffer|
      modifies this`file, this`pending
      ensures Layout() && pending.Keys == old(pending.Keys)
      ensures pending == old(pending)[id := old(pending)[id].(written := old(pending)[id].written + n)]
    {
      if !failed {
        Progress(file, pending, submitted, id, n, k);
      }
      KernelWrites(id, k);
      var op := pending[id].(written := pending[id].written + n);
      assert pending[id := op].Keys == pending.Keys;
      pending := pending[id := op];
    }

    /** The write is complete and leaves the table. */
    method Complete(id: Id, k: nat)
      requires Layout() && id in pending && !aborted
      requires pending[id].written + k == |pending[id].buffer|
      modifies this`file, this`pending, this`written
      ensures Layout() && pending == old(pending) - {id} && written == old(written) + |old(pending)[id].buffer|
    {
      if !failed {
        Progress(file, pending, submitted, id, k, k);
        CarriedWithout(chunks, pending.Keys, id);
      }
      KernelWrites(id, k);
      assert (pending - {id}).Keys == pending.Keys - {id};
      written := written + |pending[id].buffer|;
      pending := pending - {id};
    }

    /** Does a completion with this result leave something of the chunk to be written? */
    ghost predicate Short(id: Id, result: int)
      requires id in pending
      reads this`pending
    {
      pending[id].written + result < |pending[id].buffer|
    }

    /** A write completed: `result` is what the kernel reports, `k` what it wrote. What is left of the
        chunk is handed to the ring again, which takes it if it has `room`. */
    method OnWrite(id: Id, result: int, k: nat, room: bool)
      requires Valid()
      requires id in pending ==> result <= k && pending[id].written + k <= |pending[id].buffer|
      modifies this`file, this`pending, this`written, this`failed
      modifies this`finished, this`cleanup, this`cleanups
      modifies this`fdOpen, this`published, this`temp, this`statuses, this`deferred
      ensures Valid() && (old(failed) ==> failed)
      ensures id !in old(pending) ==> unchanged(this)
      ensures id in old(pending) ==>
        (failed <==> old(failed) || (!aborted && (result <= 0 || (old(Short(id, result)) && !old(Accepts(room))))))
      ensures id in old(pending) && (aborted || result <= 0) ==> pending == old(pending) - {id} && written == old(written)
      ensures id in old(pending) && !aborted && result > 0 && !old(Short(id, result)) ==>
        pending == old(pending) - {id} && written == old(written) + |old(pending)[id].buffer|
      ensures id in old(pending) && !aborted && result > 0 && old(Short(id, result)) && old(Accepts(room)) ==>
        written == old(written)
        && pending == old(pending)[id := old(pending)[id].(written := old(pending)[id].written + result)]
    {
      if id !in pending {
        return;
      }
      if aborted || result <= 0 {
        LoseWrite(id, k);
        return;
      }
      CountWritten(id, result, k, room);
    }

    method CountWritten(id: Id, n: nat, k: nat, room: bool)
      requires Layout() && Running() && id in pending && !aborted
      requires n <= k && pending[id].written + k <= |pending[id].buffer|
      modifies this`file, this`pending, this`written, this`failed
      modifies this`finished, this`cleanup, this`cleanups
      modifies this`fdOpen, this`published, this`temp, this`statuses, this`deferred
      ensures Valid() && failed == (old(failed) || (old(Short(id, n)) && !old(Accepts(room))))
      ensures !old(Short(id, n)) ==>
        pending == old(pending) - {id} && written == old(written) + |old(pending)[id].buffer|
      ensures old(Short(id, n)) && old(Accepts(room)) ==>
        written == old(written)
        && pending == old(pending)[id := old(pending)[id].(written := old(pending)[id].written + n)]
    {
      if pending[id].written + n < |pending[id].buffer| {
        WriteOn(id, n, k, room);
      } else {
        EndWrite(id, k);
      }
    }

    /** What is left of the chunk is handed to the ring again. */
    method WriteOn(id: Id, n: nat, k: nat, room: bool)
      requires Layout() && Running() && id in pending && !aborted
      requires n <= k && pending[id].written + k <= |pending[id].buffer|
      modifies this`file, this`pending, this`failed
      modifies this`finished, this`cleanup, this`cleanups
      modifies this`fdOpen, this`published, this`temp, this`statuses, this`deferred
      ensures Valid() && failed == (old(failed) || !old(Accepts(room)))
      ensures old(Accepts(room)) ==>
        pending == old(pending)[id := old(pending)[id].(written := old(pending)[id].written + n)]
    {
      Advance(id, n, k);
      SubmitOrDrop(id, room);
    }

    method EndWrite(id: Id, k: nat)
      requires Layout() && Running() && id in pending && !aborted
      requires pending[id].written + k == |pending[id].buffer|
      modifies this`file, this`pending, this`written
      modifies this`finished, this`cleanup, this`cleanups
      modifies this`fdOpen, this`published, this`temp, this`statuses, this`deferred
      ensures Valid() && pending == old(pending) - {id} && written == old(written) + |old(pending)[id].buffer|
    {
      Complete(id, k);
      TryFinish();
    }

    /** Every run, with completions in any order, partial or failed, and the client leaving at any
        time: a file is published, and 201 answered, only if it is exactly the request; the upload
        ends once; nothing is left in the way. If the environment is `kind`, which means that the ring
        takes every write, every completion makes progress and the client stays, the upload does not
        fail: it ends with 201 and the file exactly if its length and the final rename are right. */
    method Run(steps: nat, kind: bool)
      requires Valid() && (kind ==> ring && hasFile && !failed && !aborted)
      modifies this
      ensures Valid()
      ensures published.Some? ==> Holds(published.value, request) && statuses == [201]
      ensures finished ==> cleanups == 1 && pending == map[] && !temp && !fdOpen
      ensures !finished ==> cleanups == 0 && published == None && statuses == []
      ensures finished && !aborted ==> statuses == [Answer()]
      ensures old(finished) ==> finished && published == old(published) && request == old(request)
      ensures kind ==> !failed && !aborted
      ensures kind && finished ==>
        (statuses == [201] && published.Some? <==> renames && (expected == 0 || |request| == expected))
    {
      for i := 0 to steps
        invariant Valid() && (kind ==> !failed && !aborted)
        invariant old(finished) ==> finished && published == old(published) && request == old(request)
      {
        Step(kind);
      }
    }

    /** A chunk, the end of the request, the client leaving, or a completion. */
    method Step(kind: bool)
      requires Valid() && (kind ==> ring && hasFile && !failed && !aborted)
      modifies this
      ensures Valid() && (kind ==> !failed && !aborted)
      ensures old(finished) ==> finished && published == old(published) && request == old(request)
    {
      var chunk: seq<Byte>, id: Id, result: int, k: nat, room: bool := *, *, *, *, *;
      if
      case !requestComplete => SubmitChunk(chunk, room || kind);
      case true => MarkRequestComplete();
      case !kind => Abort();
      case id in pending && result <= k && pending[id].written + k <= |pending[id].buffer| && (kind ==> result > 0) =>
        OnWrite(id, result, k, room || kind);
    }
  }
}
