/** Send buffers carved out of chunks.

    A chunk is an identity here, its memory the offsets below `chunkSize`; `live` records which
    buffers have been handed out and not dropped, and where they lie. A thread that drops the last
    buffer of a chunk reports the chunk in a later step: under the pool's lock, or, if the lock is
    taken, through the list that the next request works off. */
module BufferPools {
  import opened Bytes

  type Chunk = nat
  type Buffer = nat

  const UINT32: nat := 0x1_0000_0000
  const MAX_FREE_CHUNKS: nat := 8

  datatype Region = Region(chunk: Chunk, start: nat, size: nat)

  /** The fill mark of a chunk and its reference count. */
  datatype Fill = Fill(offset: nat, refs: nat)

  predicate Apart(a: Region, b: Region) {
    a.chunk != b.chunk || a.start + a.size <= b.start || b.start + b.size <= a.start
  }

  predicate Distinct(s: seq<Chunk>) {
    forall i, j :: 0 <= i < j < |s| ==> s[i] != s[j]
  }

  /** A sum of two 32-bit numbers, 32 bits wide. */
  function Add32(x: nat, y: nat): nat
    requires x < UINT32 && y < UINT32
  {
    if x + y < UINT32 then x + y else x + y - UINT32
  }

  lemma Add32Wraps(x: nat, y: nat)
    requires x < UINT32 && y < UINT32
    ensures Add32(x, y) == (x + y) % 0x1_0000_0000
  {
  }

  /** The live buffers of a chunk. */
  function InChunk(live: map<Buffer, Region>, c: Chunk): set<Buffer> {
    set b | b in live && live[b].chunk == c
  }

  lemma InChunkAdd(live: map<Buffer, Region>, b: Buffer, r: Region, c: Chunk)
    requires b !in live
    ensures |InChunk(live[b := r], c)| == |InChunk(live, c)| + (if r.chunk == c then 1 else 0)
  {
    assert InChunk(live[b := r], c) == InChunk(live, c) + (if r.chunk == c then {b} else {});
  }

  lemma InChunkDrop(live: map<Buffer, Region>, b: Buffer, c: Chunk)
    requires b in live
    ensures |InChunk(live - {b}, c)| == |InChunk(live, c)| - (if live[b].chunk == c then 1 else 0)
  {
    assert InChunk(live - {b}, c) == InChunk(live, c) - (if live[b].chunk == c then {b} else {});
  }

  lemma InChunkNone(live: map<Buffer, Region>, c: Chunk)
    requires forall b :: b in live ==> live[b].chunk != c
    ensures |InChunk(live, c)| == 0
  {
    assert InChunk(live, c) == {};
  }

  /** `s` without the element at `i`. */
  function Without(s: seq<Chunk>, i: nat): (r: seq<Chunk>)
    requires i < |s| && Distinct(s)
    ensures |r| == |s| - 1 && Distinct(r)
    ensures forall c :: c in r <==> c in s && c != s[i]
  {
    assert forall c :: c in s[..i] + s[i + 1..] ==> c in s && c != s[i];
    assert forall c :: c in s && c != s[i] ==> c in s[..i] || c in s[i + 1..];
    s[..i] + s[i + 1..]
  }

  // ---------------------------------------------------------------- what is kept

  /** Every buffer lies in its own part of an active chunk, below the chunk's fill mark. */
  ghost predicate Laid(active: seq<Chunk>, chunks: map<Chunk, Fill>, live: map<Buffer, Region>) {
    && (forall b :: b in live ==>
          && live[b].chunk in active && live[b].chunk in chunks
          && live[b].start + live[b].size <= chunks[live[b].chunk].offset)
    && (forall a, b :: a in live && b in live && a != b ==> Apart(live[a], live[b]))
  }

  /** A chunk's reference count is the number of its live buffers. */
  ghost predicate Counted(active: seq<Chunk>, chunks: map<Chunk, Fill>, live: map<Buffer, Region>) {
    forall c :: c in active ==> c in chunks && chunks[c].refs == |InChunk(live, c)|
  }

  ghost predicate Numbered(live: map<Buffer, Region>, next: Buffer) {
    forall b :: b in live ==> b < next
  }

  /** Chunks are active or free, never both; a free one is empty. */
  ghost predicate Sorted(active: seq<Chunk>, free: seq<Chunk>, chunks: map<Chunk, Fill>,
                         chunkSize: nat, next: Chunk) {
    && Distinct(active) && Distinct(free) && (forall c :: c in active ==> c !in free)
    && |free| <= MAX_FREE_CHUNKS
    && (forall c :: c in active ==> c in chunks && chunks[c].offset <= chunkSize && c < next)
    && (forall c :: c in free ==> c in chunks && chunks[c] == Fill(0, 0) && c < next)
  }

  lemma ActivateKeeps(active: seq<Chunk>, chunks: map<Chunk, Fill>, live: map<Buffer, Region>, c: Chunk)
    requires Laid(active, chunks, live) && Counted(active, chunks, live) && c !in active
    ensures Laid(active + [c], chunks[c := Fill(0, 0)], live)
    ensures Counted(active + [c], chunks[c := Fill(0, 0)], live)
  {
    InChunkNone(live, c);
  }

  /** The chunks `c` fills with one more buffer of `size` bytes, at the fill mark. */
  function Opened(chunks: map<Chunk, Fill>, c: Chunk, next: nat): map<Chunk, Fill>
    requires c in chunks
  {
    chunks[c := Fill(next, chunks[c].refs + 1)]
  }

  /** A buffer above the fill mark of its chunk is apart from all others, and the mark moves up. */
  lemma OpenKeeps(active: seq<Chunk>, chunks: map<Chunk, Fill>, live: map<Buffer, Region>,
                  c: Chunk, size: nat, b: Buffer)
    requires Laid(active, chunks, live) && Counted(active, chunks, live)
    requires c in active && c in chunks && b !in live
    ensures var more := live[b := Region(c, chunks[c].offset, size)];
      && Laid(active, Opened(chunks, c, chunks[c].offset + size), more)
      && Counted(active, Opened(chunks, c, chunks[c].offset + size), more)
  {
    forall d
      ensures |InChunk(live[b := Region(c, chunks[c].offset, size)], d)|
           == |InChunk(live, d)| + if c == d then 1 else 0
    {
      InChunkAdd(live, b, Region(c, chunks[c].offset, size), d);
    }
  }

  lemma OpenSorted(active: seq<Chunk>, free: seq<Chunk>, chunks: map<Chunk, Fill>, chunkSize: nat,
                   next: Chunk, c: Chunk, mark: nat)
    requires Sorted(active, free, chunks, chunkSize, next) && c in active && mark <= chunkSize
    ensures Sorted(active, free, Opened(chunks, c, mark), chunkSize, next)
  {
  }

  /** If the mark wraps around, the buffer reaches beyond it. */
  lemma OpenWrapped(active: seq<Chunk>, chunks: map<Chunk, Fill>, live: map<Buffer, Region>,
                    c: Chunk, size: nat, b: Buffer)
    requires c in chunks && chunks[c].offset < UINT32 && size < UINT32 && chunks[c].offset + size >= UINT32
    ensures !Laid(active, Opened(chunks, c, Add32(chunks[c].offset, size)),
                  live[b := Region(c, chunks[c].offset, size)])
  {
    var more := live[b := Region(c, chunks[c].offset, size)];
    assert b in more && more[b].chunk == c;
  }

  lemma DropKeeps(active: seq<Chunk>, chunks: map<Chunk, Fill>, live: map<Buffer, Region>, b: Buffer)
    requires Laid(active, chunks, live) && Counted(active, chunks, live) && b in live
    ensures var c := live[b].chunk;
      && c in chunks && chunks[c].refs > 0
      && Laid(active, chunks[c := chunks[c].(refs := chunks[c].refs - 1)], live - {b})
      && Counted(active, chunks[c := chunks[c].(refs := chunks[c].refs - 1)], live - {b})
  {
    var c := live[b].chunk;
    assert b in InChunk(live, c);
    forall d
      ensures |InChunk(live - {b}, d)| == |InChunk(live, d)| - if c == d then 1 else 0
    {
      InChunkDrop(live, b, d);
    }
  }

  /** Taking chunk number `i` out of use is safe exactly if it has no live buffer. */
  lemma RetireKeeps(active: seq<Chunk>, chunks: map<Chunk, Fill>, live: map<Buffer, Region>, i: nat)
    requires Laid(active, chunks, live) && Counted(active, chunks, live)
    requires i < |active| && Distinct(active)
    ensures var c := active[i];
      var reset := chunks[c := chunks[c].(offset := 0)];
      && (Laid(Without(active, i), reset, live) <==> chunks[c].refs == 0)
      && Counted(Without(active, i), reset, live)
  {
    var c := active[i];
    if chunks[c].refs == 0 {
      assert InChunk(live, c) == {};
      forall b | b in live
        ensures live[b].chunk != c
      {
        assert b !in InChunk(live, c);
      }
    } else {
      var b :| b in InChunk(live, c);
      assert live[b].chunk !in Without(active, i);
    }
  }

  /** Sorting a chunk that was put aside. */
  lemma RetireSorted(active: seq<Chunk>, free: seq<Chunk>, chunks: map<Chunk, Fill>, chunkSize: nat,
                     next: Chunk, i: nat)
    requires Sorted(active, free, chunks, chunkSize, next) && i < |active| && chunks[active[i]].refs == 0
    ensures var c := active[i];
      var reset := chunks[c := chunks[c].(offset := 0)];
      && Sorted(Without(active, i), free, reset, chunkSize, next)
      && (|free| < MAX_FREE_CHUNKS ==> Sorted(Without(active, i), free + [c], reset, chunkSize, next))
  {
  }

  lemma SameMap(m: map<Chunk, Fill>, c: Chunk, v: Fill)
    requires c in m && m[c] == v
    ensures m[c := v] == m
  {
  }

  class BufferPool {
    const chunkSize: nat
    const maxChunks: nat
    var active: seq<Chunk>
    var free: seq<Chunk>
    var chunks: map<Chunk, Fill>
    var live: map<Buffer, Region>
    var nextChunk: Chunk
    var nextBuffer: Buffer

    // Chunks whose last buffer is gone: those a thread is about to report, and those reported while
    // the lock was taken, which are carried out in any order.
    var reporting: set<Chunk>
    var pendingGc: set<Chunk>

    ghost predicate Valid()
      reads this`active, this`free, this`chunks, this`live, this`nextChunk, this`nextBuffer
    {
      && chunkSize < UINT32 && |active| + |free| <= maxChunks
      && Sorted(active, free, chunks, chunkSize, nextChunk)
      && Laid(active, chunks, live) && Counted(active, chunks, live)
      && Numbered(live, nextBuffer)
    }

    /** An active chunk without a live buffer. */
    ghost predicate Idle(c: Chunk)
      reads this`active, this`chunks
    {
      c in active && c in chunks && chunks[c].refs == 0
    }

    /** Every report is about an active chunk without a live buffer, and there is one report for it. */
    ghost predicate Safe()
      reads this`active, this`chunks, this`reporting, this`pendingGc
    {
      && (forall c :: c in reporting ==> Idle(c) && c !in pendingGc)
      && (forall c :: c in pendingGc ==> Idle(c))
    }

    /** Every active chunk has a live buffer or a report. */
    ghost predicate NoneIdle()
      reads this`active, this`chunks, this`reporting, this`pendingGc
    {
      forall c :: Idle(c) ==> c in reporting || c in pendingGc
    }

    ghost predicate NoneIdleBut(c: Chunk)
      reads this`active, this`chunks, this`reporting, this`pendingGc
    {
      forall d :: Idle(d) && d != c ==> d in reporting || d in pendingGc
    }

    ghost predicate Unreported(c: Chunk)
      reads this`reporting, this`pendingGc
    {
      c !in reporting && c !in pendingGc
    }

    constructor (chunkSize: nat, maxChunks: nat)
      requires chunkSize < UINT32
      ensures Valid() && Safe() && NoneIdle() && live == map[] && active == [] && free == []
      ensures this.chunkSize == chunkSize && this.maxChunks == maxChunks && reporting == {} && pendingGc == {}
    {
      this.chunkSize, this.maxChunks := chunkSize, maxChunks;
      active, free, chunks, live := [], [], map[], map[];
      nextChunk, nextBuffer := 0, 0;
      reporting, pendingGc := {}, {};
      new;
      assert Sorted(active, free, chunks, chunkSize, nextChunk);
      assert Laid(active, chunks, live);
      assert Counted(active, chunks, live);
      assert Numbered(live, nextBuffer);
    }

    // ---------------------------------------------------------------- requests

    /** Carves `size` bytes out of an active chunk. The sum is 32 bits wide: if it wraps around, the
        buffer reaches beyond the chunk. */
    method Open(c: Chunk, size: nat) returns (r: Option<Buffer>)
      requires Valid() && c in active && size < UINT32
      modifies this`chunks, this`live, this`nextBuffer
      ensures r.Some? <==> Add32(old(chunks[c].offset), size) <= chunkSize
      ensures r == None ==> unchanged(this)
      ensures r.Some? ==> r.value == old(nextBuffer) && nextBuffer == r.value + 1
      ensures r.Some? ==> live == old(live)[r.value := Region(c, old(chunks[c].offset), size)]
      ensures r.Some? ==> chunks == Opened(old(chunks), c, Add32(old(chunks[c].offset), size))
      ensures Valid() <==> r == None || old(chunks[c].offset) + size < UINT32
    {
      var next := Add32(chunks[c].offset, size);
      if next > chunkSize {
        return None;
      }
      OpenSorted(active, free, chunks, chunkSize, nextChunk, c, next);
      if chunks[c].offset + size < UINT32 {
        OpenKeeps(active, chunks, live, c, size, nextBuffer);
      } else {
        OpenWrapped(active, chunks, live, c, size, nextBuffer);
      }
      r := Carve(c, size, next);
    }

    method Carve(c: Chunk, size: nat, next: nat) returns (r: Option<Buffer>)
      requires c in chunks && Numbered(live, nextBuffer)
      modifies this`chunks, this`live, this`nextBuffer
      ensures r == Some(old(nextBuffer)) && nextBuffer == old(nextBuffer) + 1 && Numbered(live, nextBuffer)
      ensures live == old(live)[old(nextBuffer) := Region(c, old(chunks[c].offset), size)]
      ensures chunks == Opened(old(chunks), c, next)
    {
      r := Some(nextBuffer);
      live := live[nextBuffer := Region(c, chunks[c].offset, size)];
      nextBuffer := nextBuffer + 1;
      chunks := Opened(chunks, c, next);
    }

    /** The last active chunk is `c`, empty; the others are as they were. */
    twostate predicate Acquired(c: Chunk)
      reads this
    {
      && active == old(active) + [c] && c !in old(active)
      && chunks == old(chunks)[c := Fill(0, 0)]
    }

    method Reuse()
      requires Valid() && free != []
      modifies this`active, this`free
      ensures Valid() && Acquired(old(free[|free| - 1])) && |free| == |old(free)| - 1
    {
      var c := free[|free| - 1];
      ActivateKeeps(active, chunks, live, c);
      SameMap(chunks, c, Fill(0, 0));
      free := free[..|free| - 1];
      active := active + [c];
    }

    method Fresh()
      requires Valid() && |active| + |free| < maxChunks
      modifies this`active, this`chunks, this`nextChunk
      ensures Valid() && Acquired(old(nextChunk))
    {
      ActivateKeeps(active, chunks, live, nextChunk);
      assert forall c :: c in active + [nextChunk] <==> c in active || c == nextChunk;
      chunks := chunks[nextChunk := Fill(0, 0)];
      active := active + [nextChunk];
      nextChunk := nextChunk + 1;
    }

    /** A reused chunk or a new one, unless there are too many; it becomes the last active one. */
    method AcquireChunk() returns (ok: bool)
      requires Valid()
      modifies this`active, this`free, this`chunks, this`nextChunk
      ensures Valid()
      ensures ok <==> old(free) != [] || |old(active)| < maxChunks
      ensures !ok ==> unchanged(this)
      ensures ok ==> |active| > 0 && Acquired(active[|active| - 1])
      ensures |free| <= |old(free)| && (old(free) == [] ==> free == [])
      ensures old(free) != [] ==> active == old(active) + [old(free)[|old(free)| - 1]] && |free| == |old(free)| - 1
      ensures ok && old(free) == [] ==> active == old(active) + [old(nextChunk)]
    {
      if free != [] {
        Reuse();
        return true;
      }
      if |active| >= maxChunks {
        return false;
      }
      Fresh();
      ok := true;
    }

    /** Does a request of this size wrap around in the last active chunk? */
    predicate Wraps(size: nat)
      requires Valid() && size < UINT32
      reads this
    {
      && active != []
      && chunks[active[|active| - 1]].offset + size >= UINT32
      && chunks[active[|active| - 1]].offset + size - UINT32 <= chunkSize
    }

    /** Does it fit into the last active chunk, as the 32-bit sum has it? */
    ghost predicate FitsLast(size: nat)
      requires size < UINT32
      reads this
    {
      && active != [] && active[|active| - 1] in chunks && chunks[active[|active| - 1]].offset < UINT32
      && Add32(chunks[active[|active| - 1]].offset, size) <= chunkSize
    }

    /** Would it be served from a chunk whose report is under way? */
    predicate Hits(size: nat)
      requires Valid() && size < UINT32
      reads this
    {
      && active != [] && (active[|active| - 1] in reporting || active[|active| - 1] in pendingGc)
      && Add32(chunks[active[|active| - 1]].offset, size) <= chunkSize
    }

    /** A buffer of `size` bytes in the last active chunk, or else in another one. */
    method Serve(size: nat) returns (r: Option<Buffer>)
      requires Valid() && size < UINT32
      modifies this`active, this`free, this`chunks, this`live, this`nextChunk, this`nextBuffer
      ensures Valid() <==> !old(Wraps(size))
      ensures r.Some? ==> r.value in live && live[r.value].size == size
      ensures r.Some? ==> r.value !in old(live) && live == old(live)[r.value := live[r.value]]
      ensures r == None ==> live == old(live)
      ensures r.Some? <==> old(FitsLast(size)) || (size <= chunkSize && (old(free) != [] || |old(active)| < maxChunks))
      ensures r == None ==> !FitsLast(size) && (size <= chunkSize ==> free == [] && |active| >= maxChunks)
      ensures !old(Wraps(size)) && old(Safe()) ==> (Safe() <==> !old(Hits(size)))
      ensures old(Hits(size)) ==> Endangered()
      ensures !old(Wraps(size)) && old(Safe() && NoneIdle()) ==>
        (NoneIdle() <==> size <= chunkSize || (old(free) == [] && |old(active)| >= maxChunks))
    {
      if active != [] {
        r := ServeFromLast(size);
        if r.Some? {
          return;
        }
      }
      r := ServeFromNew(size);
    }

    method ServeFromLast(size: nat) returns (r: Option<Buffer>)
      requires Valid() && size < UINT32 && active != []
      modifies this`chunks, this`live, this`nextBuffer
      ensures Valid() <==> !old(Wraps(size))
      ensures r == None ==> unchanged(this) && !old(Wraps(size) || Hits(size))
      ensures r.Some? <==> old(FitsLast(size))
      ensures r.Some? ==> r.value !in old(live) && r.value in live
      ensures r.Some? ==> live == old(live)[r.value := live[r.value]] && live[r.value].size == size
      ensures r.Some? && old(Safe()) ==> (Safe() <==> !old(Hits(size)))
      ensures old(Hits(size)) ==> Endangered()
      ensures old(NoneIdle()) ==> NoneIdle()
    {
      var c := active[|active| - 1];
      r := Open(c, size);
      assert r.Some? ==> !Idle(c) && forall d :: d != c ==> Idle(d) == old(Idle(d));
    }

    method ServeFromNew(size: nat) returns (r: Option<Buffer>)
      requires Valid() && size < UINT32
      modifies this`active, this`free, this`chunks, this`live, this`nextChunk, this`nextBuffer
      ensures Valid()
      ensures r.Some? <==> size <= chunkSize && (old(free) != [] || |old(active)| < maxChunks)
      ensures r.Some? ==> r.value !in old(live) && r.value in live
      ensures r.Some? ==> live == old(live)[r.value := live[r.value]] && live[r.value].size == size
      ensures r == None ==> live == old(live)
      ensures r == None && size <= chunkSize ==> unchanged(this)
      ensures r == None ==> unchanged(this) || !FitsLast(size)
      ensures old(Safe()) ==> Safe()
      ensures old(Safe() && NoneIdle()) ==>
        (NoneIdle() <==> size <= chunkSize || (old(free) == [] && |old(active)| >= maxChunks))
    {
      var ok := AcquireChunk();
      if !ok {
        return None;
      }
      var c := active[|active| - 1];
      r := Open(c, size);
      assert forall d :: d != c ==> Idle(d) == old(Idle(d));
      assert Idle(c) == (r == None);
    }

    // ---------------------------------------------------------------- releases

    /** The last handle to a buffer goes; if it was its chunk's last buffer, the chunk will be
        reported. */
    method DropBuffer(b: Buffer) returns (c: Chunk, last: bool)
      requires Valid() && b in live
      modifies this`chunks, this`live, this`reporting
      ensures Valid() && live == old(live) - {b}
      ensures c == old(live[b].chunk) && c in old(chunks) && old(chunks[c]).refs > 0
      ensures chunks == old(chunks)[c := old(chunks[c]).(refs := old(chunks[c]).refs - 1)]
      ensures last <==> chunks[c].refs == 0
      ensures reporting == if last then old(reporting) + {c} else old(reporting)
      ensures old(Safe()) ==> Safe()
      ensures old(NoneIdle()) ==> NoneIdle()
      ensures forall d :: d != c ==> Idle(d) == old(Idle(d))
    {
      c, last := DropRef(b);
      if last {
        reporting := reporting + {c};
      }
    }

    method DropRef(b: Buffer) returns (c: Chunk, last: bool)
      requires Valid() && b in live
      modifies this`chunks, this`live
      ensures Valid() && live == old(live) - {b}
      ensures c == old(live[b].chunk) && c in active && c in old(chunks) && old(chunks[c]).refs > 0
      ensures chunks == old(chunks)[c := old(chunks[c]).(refs := old(chunks[c]).refs - 1)]
      ensures last <==> chunks[c].refs == 0
      ensures (Idle(c) <==> last) && !old(Idle(c)) && forall d :: d != c ==> Idle(d) == old(Idle(d))
    {
      DropKeeps(active, chunks, live, b);
      c := live[b].chunk;
      live := live - {b};
      chunks := chunks[c := chunks[c].(refs := chunks[c].refs - 1)];
      last := chunks[c].refs == 0;
    }

    /** Where a chunk is among the active ones. */
    method Find(c: Chunk) returns (i: nat)
      ensures i <= |active| && c !in active[..i]
      ensures i < |active| ==> active[i] == c
    {
      i := 0;
      while i < |active| && active[i] != c
        invariant i <= |active| && c !in active[..i]
      {
        i := i + 1;
      }
    }

    /** Resets a chunk and puts it aside, or destroys it if enough are. The report that it is unused
        is taken at its word: the pool stays sound exactly if it is true. */
    method MoveToFree(c: Chunk)
      requires Valid()
      modifies this`active, this`free, this`chunks
      ensures Valid() <==> c !in old(active) || old(chunks[c]).refs == 0
      ensures c !in old(active) ==> unchanged(this)
      ensures c in old(active) ==> (forall d :: d in active <==> d in old(active) && d != c)
      ensures c in old(active) && |old(free)| < 8 ==> free == old(free) + [c]
      ensures c !in old(active) || |old(free)| >= 8 ==> free == old(free)
      ensures c in old(active) ==> chunks == old(chunks)[c := old(chunks[c]).(offset := 0)]
    {
      var i := Find(c);
      if i < |active| {
        RetireKeeps(active, chunks, live, i);
        if chunks[c].refs == 0 {
          RetireSorted(active, free, chunks, chunkSize, nextChunk, i);
        }
        chunks := chunks[c := chunks[c].(offset := 0)];
        if |free| < MAX_FREE_CHUNKS {
          free := free + [c];
        }
        active := Without(active, i);
      }
    }

    /** Puts an idle chunk aside: it is no longer idle, and the others are as they were. */
    method Retire(c: Chunk)
      requires Valid() && Idle(c)
      modifies this`active, this`free, this`chunks
      ensures Valid() && c !in active
      ensures forall d :: Idle(d) == (old(Idle(d)) && d != c)
    {
      MoveToFree(c);
    }

    /** A report arrives: under the lock it is carried out, otherwise it is put on the list. */
    method OnChunkUnused(c: Chunk, locked: bool)
      requires Valid() && Safe() && c in reporting
      modifies this`active, this`free, this`chunks, this`reporting, this`pendingGc
      ensures Valid() && Safe() && reporting == old(reporting) - {c}
      ensures old(NoneIdle()) ==> NoneIdle()
      ensures locked ==> pendingGc == old(pendingGc) && c !in active
      ensures !locked ==> pendingGc == old(pendingGc) + {c} && unchanged(`active, `free, `chunks)
    {
      reporting := reporting - {c};
      if locked {
        Retire(c);
      } else {
        pendingGc := pendingGc + {c};
      }
    }

    /** Carries out reports on the list: all of them, or only some while a thread is reporting,
        because the list cannot be read past an entry that is being pushed. */
    method FlushPendingGc()
      requires Valid() && Safe()
      modifies this`active, this`free, this`chunks, this`pendingGc
      ensures Valid() && Safe() && pendingGc <= old(pendingGc)
      ensures reporting == {} ==> pendingGc == {}
      ensures old(NoneIdle()) ==> NoneIdle()
    {
      var stopped := false;
      while pendingGc != {} && !stopped
        invariant Valid() && Safe() && pendingGc <= old(pendingGc)
        invariant stopped ==> reporting != {}
        invariant old(NoneIdle()) ==> NoneIdle()
        decreases pendingGc, !stopped
      {
        var pushing: bool := *;
        if pushing && reporting != {} {
          stopped := true;
        } else {
          var c :| c in pendingGc;
          Collect(c);
        }
      }
    }

    /** Carries out one report on the list. */
    method Collect(c: Chunk)
      requires Valid() && Safe() && c in pendingGc
      modifies this`active, this`free, this`chunks, this`pendingGc
      ensures Valid() && Safe() && pendingGc == old(pendingGc) - {c} && c !in active
      ensures old(NoneIdle()) ==> NoneIdle()
    {
      Unlist(c);
      Retire(c);
    }

    /** Takes a report off the list; it is still to be carried out. */
    method Unlist(c: Chunk)
      requires Safe() && c in pendingGc
      modifies this`pendingGc
      ensures Safe() && pendingGc == old(pendingGc) - {c} && Unreported(c)
      ensures old(NoneIdle()) ==> NoneIdleBut(c)
    {
      pendingGc := pendingGc - {c};
    }

    /** A live buffer lies in a chunk that is reported as unused, or about to be. */
    ghost predicate Endangered()
      reads this`live, this`reporting, this`pendingGc
    {
      exists b :: b in live && (live[b].chunk in reporting || live[b].chunk in pendingGc)
    }

    /** True reports endanger nobody. */
    lemma SafeMeansNobody()
      requires Valid() && Safe()
      ensures !Endangered()
    {
      forall b | b in live
        ensures !Idle(live[b].chunk)
      {
        assert b in InChunk(live, live[b].chunk);
      }
    }

    /** An active chunk without a report has a live buffer. */
    lemma NoneForgotten()
      requires Valid() && NoneIdle()
      ensures forall c :: c in active && c !in reporting && c !in pendingGc ==> InChunk(live, c) != {}
    {
      forall c | c in active && c !in reporting && c !in pendingGc
        ensures InChunk(live, c) != {}
      {
        assert !Idle(c);
      }
    }

    /** A request: first the reports on the list, then a buffer. The buffer lies in memory of its own
        exactly if the sum does not wrap around. The reports stay true exactly if it is not served
        from a chunk that is reported or about to be; otherwise it is endangered. A chunk is left
        idle exactly if the request is larger than a chunk and one was acquired for it. */
    method Allocate(size: nat) returns (r: Option<Buffer>, wraps: bool, hits: bool)
      requires Valid() && Safe() && size < UINT32
      modifies this`active, this`free, this`chunks, this`live
      modifies this`nextChunk, this`nextBuffer, this`pendingGc
      ensures Valid() <==> !wraps
      ensures wraps ==> chunkSize + size >= UINT32
      ensures !wraps ==> (Safe() <==> !hits) && (Endangered() <==> hits)
      ensures hits ==> reporting != {}
      ensures r.Some? ==> r.value in live && live[r.value].size == size
      ensures r.Some? ==> r.value !in old(live) && live == old(live)[r.value := live[r.value]]
      ensures r == None ==> live == old(live)
      ensures r == None ==> !FitsLast(size) && (size <= chunkSize ==> free == [] && |active| >= maxChunks)
      ensures !wraps && size <= chunkSize && old(NoneIdle()) ==> NoneIdle()
    {
      FlushPendingGc();
      wraps, hits := Wraps(size), Hits(size);
      r := Serve(size);
      if !wraps && !hits {
        SafeMeansNobody();
      }
    }

    /** The last handle to a buffer goes, and if the chunk is to be reported that happens at once. */
    method DropAndReport(b: Buffer, locked: bool)
      requires Valid() && Safe() && reporting == {} && b in live
      modifies this`active, this`free, this`chunks, this`live, this`reporting, this`pendingGc
      ensures Valid() && Safe() && reporting == {} && live == old(live) - {b}
      ensures old(NoneIdle()) ==> NoneIdle()
    {
      var c, last := DropBuffer(b);
      if last {
        OnChunkUnused(c, locked);
      }
    }

    /** Any sequence of requests of at most `limit` bytes, of releases, and of reports that arrive
        late or are put off, up to the first request whose sum wraps around or that is served from a
        chunk reported as unused. If each report follows its drop at once (`prompt`) there is no such
        request, whether or not a report finds the lock taken. */
    method Run(steps: nat, limit: nat, prompt: bool) returns (raced: bool, wrapped: bool)
      requires Valid() && Safe() && limit < UINT32 && (prompt ==> reporting == {})
      modifies this
      ensures wrapped <==> !Valid()
      ensures chunkSize + limit < UINT32 ==> !wrapped
      ensures !wrapped ==> (raced <==> Endangered()) && (raced <==> !Safe())
      ensures prompt ==> !raced && reporting == {}
      ensures !wrapped && limit <= chunkSize && old(NoneIdle()) ==> NoneIdle()
      ensures !wrapped && limit <= chunkSize && old(NoneIdle()) ==>
        forall c :: c in active && c !in reporting && c !in pendingGc ==> InChunk(live, c) != {}
    {
      raced, wrapped := false, false;
      SafeMeansNobody();
      var i := 0;
      while i < steps && !raced && !wrapped
        invariant wrapped <==> !Valid()
        invariant chunkSize + limit < UINT32 ==> !wrapped
        invariant !wrapped ==> (raced <==> Endangered()) && (raced <==> !Safe())
        invariant prompt ==> !raced && reporting == {}
        invariant !wrapped && limit <= chunkSize && old(NoneIdle()) ==> NoneIdle()
      {
        raced, wrapped := Step(limit, prompt);
        i := i + 1;
      }
      if !wrapped && limit <= chunkSize && old(NoneIdle()) {
        NoneForgotten();
      }
    }

    /** A request, a release, or a report. */
    method Step(limit: nat, prompt: bool) returns (raced: bool, wrapped: bool)
      requires Valid() && Safe() && limit < UINT32 && (prompt ==> reporting == {})
      modifies this
      ensures wrapped <==> !Valid()
      ensures chunkSize + limit < UINT32 ==> !wrapped
      ensures !wrapped ==> (raced <==> Endangered()) && (raced <==> !Safe())
      ensures prompt ==> !raced && reporting == {}
      ensures !wrapped && limit <= chunkSize && old(NoneIdle()) ==> NoneIdle()
    {
      var size: nat, b: Buffer := *, *;
      if size <= limit {
        var r;
        r, wrapped, raced := Allocate(size);
      } else {
        raced, wrapped := false, false;
        if b in live && prompt {
          var locked: bool := *;
          DropAndReport(b, locked);
        } else if b in live {
          var c, last := DropBuffer(b);
        } else {
          LateReport();
        }
        SafeMeansNobody();
      }
    }

    /** A report that is under way arrives, if there is one. */
    method LateReport()
      requires Valid() && Safe()
      modifies this`active, this`free, this`chunks, this`reporting, this`pendingGc
      ensures Valid() && Safe() && reporting <= old(reporting) && (old(NoneIdle()) ==> NoneIdle())
    {
      var c: Chunk, locked: bool := *, *;
      if c in reporting {
        OnChunkUnused(c, locked);
      }
    }
  }

  /** A request between the drop of a chunk's last buffer and its report is served from that chunk.
      When the report arrives the chunk is reset with the buffer in it: a live buffer lies in a free
      chunk whose fill mark is 0, and the next request for that chunk gets the same bytes. */
  method ReusedWhileLive(pool: BufferPool, size: nat) returns (b: Buffer)
    requires pool.Valid() && pool.active == [] && pool.free == [] && pool.maxChunks > 0
    requires 2 * size <= pool.chunkSize
    modifies pool
    ensures b in pool.live && pool.live[b].chunk in pool.free
    ensures pool.live[b].chunk in pool.chunks && pool.chunks[pool.live[b].chunk].offset == 0
    ensures !pool.Valid()
  {
    var ok := pool.AcquireChunk();
    var c := pool.active[0];
    var first := pool.Open(c, size);
    var last;
    c, last := pool.DropBuffer(first.value);
    var second := pool.Open(c, size);
    b := second.value;
    pool.MoveToFree(c);
  }
}
