/** The WebSocket frame codec of the activity server (RFC 6455, sections 5.2 and 5.3). */
module WebSocket {
  import opened Bytes
  import opened FrameStreams

  const MAX_PAYLOAD: nat := 1024 * 1024

  // ---------------------------------------------------------------- bytes and masks

  /** Exclusive or of the low `bits` bits. */
  function XorBits(a: nat, b: nat, bits: nat): nat {
    if bits == 0 then 0
    else (if a % 2 == b % 2 then 0 else 1) + 2 * XorBits(a / 2, b / 2, bits - 1)
  }

  function Pow2(k: nat): (r: nat)
    ensures r > 0
  {
    if k == 0 then 1 else 2 * Pow2(k - 1)
  }

  lemma {:induction false} XorRange(a: nat, b: nat, bits: nat)
    ensures XorBits(a, b, bits) < Pow2(bits)
  {
    if bits > 0 {
      XorRange(a / 2, b / 2, bits - 1);
    }
  }

  lemma {:induction false} XorTwice(a: nat, b: nat, bits: nat)
    requires a < Pow2(bits)
    ensures XorBits(XorBits(a, b, bits), b, bits) == a
  {
    if bits > 0 {
      var rest := XorBits(a / 2, b / 2, bits - 1);
      XorTwice(a / 2, b / 2, bits - 1);
      assert XorBits(a, b, bits) / 2 == rest;
    }
  }

  function Xor(a: Byte, b: Byte): Byte {
    XorRange(a, b, 8);
    assert Pow2(8) == 256;
    XorBits(a, b, 8)
  }

  /** Bit number `j` of `n`. */
  function Bit(n: nat, j: nat): nat {
    n / Pow2(j) % 2
  }

  lemma DivTwice(n: nat, k: nat)
    requires k > 0
    ensures n / (2 * k) == n / 2 / k
  {
    var q, r := n / 2 / k, n / 2 % k;
    assert n / 2 == q * k + r;
    assert n == (2 * k) * q + (2 * r + n % 2);
    QuotientIs(n, 2 * k, q, 2 * r + n % 2);
  }

  lemma QuotientIs(n: nat, d: nat, q: nat, r: nat)
    requires n == d * q + r && r < d
    ensures n / d == q
  {
    AtLeastOnce(d, n / d - q);
    assert d * (n / d - q) == d * (n / d) - d * q == r - n % d;
  }

  lemma AtLeastOnce(d: nat, x: int)
    ensures x >= 1 ==> d * x >= d
    ensures x <= -1 ==> d * x + d <= 0
  {
  }

  lemma BitNext(n: nat, j: nat)
    ensures Bit(n, j + 1) == Bit(n / 2, j)
  {
    DivTwice(n, Pow2(j));
  }

  /** Each bit of the exclusive or is set exactly if the two bits differ. */
  lemma {:induction false} XorSetsBit(a: nat, b: nat, bits: nat, j: nat)
    requires j < bits
    ensures Bit(XorBits(a, b, bits), j) == 1 <==> Bit(a, j) != Bit(b, j)
    decreases bits
  {
    var x, rest := XorBits(a, b, bits), XorBits(a / 2, b / 2, bits - 1);
    assert x / 2 == rest && x % 2 == if a % 2 == b % 2 then 0 else 1;
    if j > 0 {
      BitNext(x, j - 1);
      BitNext(a, j - 1);
      BitNext(b, j - 1);
      XorSetsBit(a / 2, b / 2, bits - 1, j - 1);
    } else {
      assert Bit(x, 0) == x % 2 && Bit(a, 0) == a % 2 && Bit(b, 0) == b % 2;
    }
  }

  /** The bits of `r` are set where those of `a` and `b` differ. */
  ghost predicate BitsDiffer(r: Byte, a: Byte, b: Byte) {
    forall j :: 0 <= j < 8 ==> (Bit(r, j) == 1 <==> Bit(a, j) != Bit(b, j))
  }

  type Mask = m: seq<Byte> | |m| == 4 witness [0, 0, 0, 0]

  function Masked(payload: seq<Byte>, mask: Mask): (r: seq<Byte>)
    ensures |r| == |payload|
  {
    seq(|payload|, i requires 0 <= i < |payload| => Xor(payload[i], mask[i % 4]))
  }

  /** Section 5.3 of RFC 6455: byte `k` is combined with byte `k % 4` of the key, bit by bit. */
  lemma MaskedBits(payload: seq<Byte>, mask: Mask, k: nat)
    requires k < |payload|
    ensures BitsDiffer(Masked(payload, mask)[k], payload[k], mask[k % 4])
  {
    forall j | 0 <= j < 8
      ensures Bit(Xor(payload[k], mask[k % 4]), j) == 1 <==> Bit(payload[k], j) != Bit(mask[k % 4], j)
    {
      XorSetsBit(payload[k], mask[k % 4], 8, j);
    }
  }

  /** Section 5.3 of RFC 6455: masking twice with one key gives the payload back. */
  lemma MaskedTwice(payload: seq<Byte>, mask: Mask)
    ensures Masked(Masked(payload, mask), mask) == payload
  {
    forall i | 0 <= i < |payload|
      ensures Masked(Masked(payload, mask), mask)[i] == payload[i]
    {
      assert Pow2(8) == 256;
      XorTwice(payload[i], mask[i % 4], 8);
    }
  }

  /** `n >> (8 * i)`. */
  function Shift(n: nat, i: nat): nat {
    if i == 0 then n else Shift(n, i - 1) / 256
  }

  /** Big-endian value. */
  function Be(s: seq<Byte>): nat {
    if s == [] then 0 else 256 * Be(s[..|s| - 1]) + s[|s| - 1] as int
  }

  /** The low `k` bytes of `n`, big-endian. */
  function ToBe(n: nat, k: nat): (r: seq<Byte>)
    ensures |r| == k
  {
    if k == 0 then [] else ToBe(n / 256, k - 1) + [n % 256]
  }

  lemma {:induction false} BeToBe(n: nat, k: nat)
    requires Shift(n, k) == 0
    ensures Be(ToBe(n, k)) == n
  {
    if k > 0 {
      ShiftFirst(n, k - 1);
      BeToBe(n / 256, k - 1);
      assert ToBe(n, k)[..k - 1] == ToBe(n / 256, k - 1);
    }
  }

  lemma {:induction false} ShiftFirst(n: nat, i: nat)
    ensures Shift(n, i + 1) == Shift(n / 256, i)
  {
    if i > 0 {
      ShiftFirst(n, i - 1);
    }
  }

  // ---------------------------------------------------------------- frames

  /** The length field after the first byte; `flag` is the mask bit's value, 0 or 128. */
  function LengthField(n: nat, flag: nat): seq<Byte>
    requires flag == 0 || flag == 128
  {
    if n < 126 then [flag + n]
    else if n <= 65535 then [flag + 126] + ToBe(n, 2)
    else [flag + 127] + ToBe(n, 8)
  }

  /** Section 5.2 of RFC 6455: a final frame, masked if a key is given. */
  function Encode(f: Frame, mask: Option<Mask>): seq<Byte>
    requires f.opcode < 16
  {
    match mask
    case None => [128 + f.opcode] + LengthField(|f.payload|, 0) + f.payload
    case Some(m) => [128 + f.opcode] + LengthField(|f.payload|, 128) + m + Masked(f.payload, m)
  }

  /** Value of the length field and the position after it, if it is all there. */
  function ReadLength(s: seq<Byte>): Option<(nat, nat)>
    requires |s| >= 2
  {
    var len := s[1] as int % 128;
    if len == 126 then if |s| < 4 then None else Some((Be(s[2..4]), 4))
    else if len == 127 then if |s| < 10 then None else Some((Be(s[2..10]), 10))
    else Some((len, 2))
  }

  /** The first frame of a buffer, as `ProcessWsBuffer` reads it. */
  function Decode(s: seq<Byte>): Decoded {
    if |s| < 2 then NeedMore
    else match ReadLength(s)
      case None => NeedMore
      case Some((len, pos)) => DecodeBody(s, len, pos)
  }

  /** The frame, once its length has been read up to `pos`. */
  function DecodeBody(s: seq<Byte>, len: nat, pos: nat): Decoded
    requires 2 <= pos && |s| >= 2
  {
    if len > MAX_PAYLOAD then TooLong
    else
      var masked := s[1] as int >= 128;
      var start := if masked then pos + 4 else pos;
      if |s| < start + len then NeedMore
      else Got(Frame(s[0] as int % 16, Payload(s, len, pos, masked)), start + len)
  }

  /** The payload behind `pos`, after its key if it is masked. */
  function Payload(s: seq<Byte>, len: nat, pos: nat, masked: bool): seq<Byte>
    requires pos + len + (if masked then 4 else 0) <= |s|
  {
    if masked then Masked(s[pos + 4..pos + 4 + len], s[pos..pos + 4]) else s[pos..pos + len]
  }

  lemma PayloadAppend(a: seq<Byte>, b: seq<Byte>, len: nat, pos: nat, masked: bool)
    requires pos + len + (if masked then 4 else 0) <= |a|
    ensures Payload(a + b, len, pos, masked) == Payload(a, len, pos, masked)
  {
    if masked {
      SliceAppend(a, b, pos, pos + 4);
      SliceAppend(a, b, pos + 4, pos + 4 + len);
    } else {
      SliceAppend(a, b, pos, pos + len);
    }
  }

  /** The length field reads back, whatever follows it. */
  lemma ReadLengthField(head: Byte, n: nat, flag: nat, rest: seq<Byte>)
    requires flag == 0 || flag == 128
    requires Shift(n, 8) == 0
    ensures var s := [head] + LengthField(n, flag) + rest;
            ReadLength(s) == Some((n, 1 + |LengthField(n, flag)|)) && (s[1] as int >= 128 <==> flag == 128)
  {
    var s := [head] + LengthField(n, flag) + rest;
    if 126 <= n <= 65535 {
      assert s[2..4] == ToBe(n, 2);
      assert Shift(n, 2) == Shift(n, 1) / 256 && Shift(n, 1) == n / 256;
      BeToBe(n, 2);
    } else if n > 65535 {
      assert s[2..10] == ToBe(n, 8);
      BeToBe(n, 8);
    }
  }

  /** A part in the middle of a sequence. */
  lemma Middle(a: seq<Byte>, b: seq<Byte>, c: seq<Byte>)
    ensures (a + b + c)[|a|..|a| + |b|] == b
  {
  }

  /** Decoding undoes encoding in every length form, masked or not, and leaves what follows. */
  lemma {:induction false} DecodeEncode(f: Frame, mask: Option<Mask>, rest: seq<Byte>)
    requires f.opcode < 16 && Shift(|f.payload|, 8) == 0
    ensures Decode(Encode(f, mask) + rest)
         == if |f.payload| <= MAX_PAYLOAD then Got(f, |Encode(f, mask)|) else TooLong
  {
    match mask
    case None =>
      DecodePlain(f, rest);
      assert Encode(f, mask) == Head(f, 0) + f.payload;
    case Some(m) =>
      DecodeMasked(f, m, rest);
      assert Encode(f, mask) == Head(f, 128) + m + Masked(f.payload, m);
  }

  /** A frame up to its mask or payload. */
  function Head(f: Frame, flag: nat): seq<Byte>
    requires f.opcode < 16 && (flag == 0 || flag == 128)
  {
    [128 + f.opcode] + LengthField(|f.payload|, flag)
  }

  /** A frame whose length has been read and whose bytes are all there. */
  lemma DecodeIs(s: seq<Byte>, len: nat, pos: nat)
    requires |s| >= 2 && ReadLength(s) == Some((len, pos))
    requires |s| >= pos + len + if s[1] as int >= 128 then 4 else 0
    ensures len > MAX_PAYLOAD ==> Decode(s) == TooLong
    ensures len <= MAX_PAYLOAD && s[1] as int >= 128 ==>
      Decode(s) == Got(Frame(s[0] as int % 16, Masked(s[pos + 4..pos + 4 + len], s[pos..pos + 4])), pos + 4 + len)
    ensures len <= MAX_PAYLOAD && s[1] as int < 128 ==>
      Decode(s) == Got(Frame(s[0] as int % 16, s[pos..pos + len]), pos + len)
  {
  }

  lemma DecodePlain(f: Frame, rest: seq<Byte>)
    requires f.opcode < 16 && Shift(|f.payload|, 8) == 0
    ensures Decode(Head(f, 0) + f.payload + rest)
         == if |f.payload| <= MAX_PAYLOAD then Got(f, |Head(f, 0)| + |f.payload|) else TooLong
  {
    var head, s := Head(f, 0), Head(f, 0) + f.payload + rest;
    assert s == head + (f.payload + rest) && s[0] == 128 + f.opcode;
    ReadLengthField(128 + f.opcode, |f.payload|, 0, f.payload + rest);
    Middle(head, f.payload, rest);
    DecodeIs(s, |f.payload|, |head|);
  }

  /** Where the parts of a masked frame are. */
  lemma Parts(head: seq<Byte>, m: Mask, raw: seq<Byte>, rest: seq<Byte>)
    ensures var s := head + m + raw + rest;
      && s == head + (m + (raw + rest))
      && s[|head|..|head| + 4] == m
      && s[|head| + 4..|head| + 4 + |raw|] == raw
  {
    assert head + m + raw + rest == head + m + (raw + rest) == head + (m + (raw + rest));
    Middle(head, m, raw + rest);
    Middle(head + m, raw, rest);
  }

  lemma DecodeMasked(f: Frame, m: Mask, rest: seq<Byte>)
    requires f.opcode < 16 && Shift(|f.payload|, 8) == 0
    ensures Decode(Head(f, 128) + m + Masked(f.payload, m) + rest)
         == if |f.payload| <= MAX_PAYLOAD then Got(f, |Head(f, 128)| + 4 + |f.payload|) else TooLong
  {
    var head, raw := Head(f, 128), Masked(f.payload, m);
    var s := head + m + raw + rest;
    Parts(head, m, raw, rest);
    ReadLengthField(128 + f.opcode, |f.payload|, 128, m + (raw + rest));
    assert s[0] == 128 + f.opcode;
    MaskedTwice(f.payload, m);
    DecodeIs(s, |f.payload|, |head|);
  }

  lemma SliceAppend(a: seq<Byte>, b: seq<Byte>, i: nat, j: nat)
    requires i <= j <= |a|
    ensures (a + b)[i..j] == a[i..j]
  {
  }

  lemma ReadLengthAppend(a: seq<Byte>, b: seq<Byte>)
    requires |a| >= 2 && ReadLength(a).Some?
    ensures ReadLength(a + b) == ReadLength(a) && 2 <= ReadLength(a).value.1 <= |a|
  {
    if |a| >= 4 {
      SliceAppend(a, b, 2, 4);
    }
    if |a| >= 10 {
      SliceAppend(a, b, 2, 10);
    }
  }

  /** A frame once complete is not changed by later bytes, and an oversized length is final. */
  lemma DecodeAppend(a: seq<Byte>, b: seq<Byte>)
    ensures Decode(a).Got? ==> Decode(a + b) == Decode(a) && 2 <= Decode(a).used <= |a|
    ensures Decode(a).TooLong? ==> Decode(a + b).TooLong?
  {
    if |a| >= 2 && ReadLength(a).Some? {
      ReadLengthAppend(a, b);
      DecodeBodyAppend(a, b, ReadLength(a).value.0, ReadLength(a).value.1);
    }
  }

  lemma DecodeBodyAppend(a: seq<Byte>, b: seq<Byte>, len: nat, pos: nat)
    requires 2 <= pos && |a| >= 2
    ensures var d := DecodeBody(a, len, pos);
      && (d.Got? ==> DecodeBody(a + b, len, pos) == d && 2 <= d.used <= |a|)
      && (d.TooLong? ==> DecodeBody(a + b, len, pos).TooLong?)
  {
    var start := if a[1] as int >= 128 then pos + 4 else pos;
    if len <= MAX_PAYLOAD && start + len <= |a| {
      PayloadAppend(a, b, len, pos, a[1] as int >= 128);
    }
  }

  lemma ReadLengthPrefix(s: seq<Byte>, k: nat)
    requires |s| >= 2 && ReadLength(s).Some? && ReadLength(s).value.1 <= k <= |s|
    ensures ReadLength(s[..k]) == ReadLength(s)
  {
    assert s[..k] + s[k..] == s;
    if ReadLength(s[..k]).Some? {
      ReadLengthAppend(s[..k], s[k..]);
    }
  }

  lemma DecodePrefix(s: seq<Byte>, used: nat, k: nat)
    requires Decode(s).Got? && Decode(s).used == used <= k <= |s|
    ensures Decode(s[..k]) == Decode(s)
  {
    ReadLengthPrefix(s, k);
    DecodeAppend(s[..k], s[k..]);
    assert s[..k] + s[k..] == s;
  }

  lemma {:induction false} DecodeIsStable()
    ensures Stable(Decode) && Decode([]).NeedMore?
  {
    forall a, b
      ensures StableAt(Decode, a, b)
    {
      DecodeAppend(a, b);
    }
    forall s, k: nat
      ensures ShortAt(Decode, s, k)
    {
      if Decode(s).Got? && Decode(s).used <= k <= |s| {
        DecodePrefix(s, Decode(s).used, k);
      }
    }
  }

  /** What one call of `ProcessWsBuffer` reads. */
  ghost function Read(s: seq<Byte>): Scanned {
    DecodeIsStable();
    Scan(Decode, s)
  }

  /** What is read from chunks, if the session is delivered `lasts` chunks after a close frame and
      `refusals` says which replies are refused, `n` frames having been read before. */
  ghost function ReadChunks(buffer: seq<Byte>, chunks: seq<seq<Byte>>, closing: bool, lasts: nat,
                            refusals: seq<bool>, n: nat): seq<Frame> {
    DecodeIsStable();
    Session(Decode, buffer, chunks, closing, lasts, refusals, n)
  }

  ghost predicate FollowsClose(s: seq<Byte>) {
    DecodeIsStable();
    FrameAfterClose(Decode, s)
  }

  ghost predicate FollowsRefused(s: seq<Byte>, refusals: seq<bool>, n: nat) {
    DecodeIsStable();
    FrameAfterRefused(Decode, s, refusals, n)
  }

  /** However a stream of frames is cut, the frames read are the same, except exactly if a complete
      frame follows a close frame whose close was postponed, or one whose reply was refused. */
  lemma {:induction false} CuttingMattersExactly(s: seq<Byte>, lasts: nat, refusals: seq<bool>)
    ensures (exists chunks: seq<seq<Byte>> ::
               Flatten(chunks) == s && ReadChunks([], chunks, false, lasts, refusals, 0) != Read(s).frames)
            <==> (FollowsClose(s) && lasts > 0) || FollowsRefused(s, refusals, 0)
  {
    DecodeIsStable();
    FrameStreams.CuttingMattersExactly(Decode, s, lasts, refusals, 0);
    if CuttingMatters(Decode, s, lasts, refusals, 0) {
      var chunks: seq<seq<Byte>> :|
        Flatten(chunks) == s && Session(Decode, [], chunks, false, lasts, refusals, 0) != Scan(Decode, s).frames;
      assert ReadChunks([], chunks, false, lasts, refusals, 0) != Read(s).frames;
    }
  }

  // ---------------------------------------------------------------- the session's own code

  /** The unmasking loop. */
  method Unmask(payload: seq<Byte>, mask: Mask) returns (r: seq<Byte>)
    ensures r == Masked(payload, mask)
  {
    r := payload;
    for i := 0 to |payload|
      invariant |r| == |payload|
      invariant forall k :: 0 <= k < i ==> r[k] == Xor(payload[k], mask[k % 4])
      invariant forall k :: i <= k < |r| ==> r[k] == payload[k]
    {
      r := r[i := Xor(r[i], mask[i % 4])];
    }
  }

  /** The loop over the eight length bytes; they fill a 64-bit word exactly. */
  method ReadWide(s: seq<Byte>, pos: nat) returns (len: nat)
    requires pos + 8 <= |s|
    ensures len == Be(s[pos..pos + 8])
  {
    len := 0;
    for i := 0 to 8
      invariant len == Be(s[pos..pos + i])
    {
      assert s[pos..pos + i + 1][..i] == s[pos..pos + i];
      len := 256 * len + s[pos + i] as int;
    }
  }

  lemma BeTwo(s: seq<Byte>)
    requires |s| == 2
    ensures Be(s) == 256 * s[0] as int + s[1] as int
  {
    assert s[..1] == [s[0]] && [s[0]][..0] == [];
    assert Be([s[0]]) == 256 * Be([]) + s[0] as int;
  }

  /** The length field: seven bits, two bytes or eight. */
  method NextLength(s: seq<Byte>) returns (r: Option<(nat, nat)>)
    requires |s| >= 2
    ensures r == ReadLength(s)
  {
    var len: nat := s[1] as int % 128;
    var pos := 2;
    if len == 126 {
      if |s| < pos + 2 {
        return None;
      }
      BeTwo(s[2..4]);
      len := 256 * s[pos] as int + s[pos + 1] as int;
      pos := pos + 2;
    } else if len == 127 {
      if |s| < pos + 8 {
        return None;
      }
      len := ReadWide(s, pos);
      pos := pos + 8;
    }
    return Some((len, pos));
  }

  /** Section 5.2 of RFC 6455, in the bytes of the buffer: a payload of `len` bytes follows the `pos`
      bytes of opcode and length, and a key of four bytes if the mask bit is set. Payloads of more
      than 1 MiB are refused. */
  ghost predicate Reads(s: seq<Byte>, d: Decoded, pos: nat, len: nat)
    requires |s| >= 2
  {
    var start := pos + if s[1] as int >= 128 then 4 else 0;
    && (d.TooLong? <==> len > 1048576)
    && (d.NeedMore? <==> len <= 1048576 && |s| < start + len)
    && (d.Got? ==>
      && start + len <= |s| && d.used == start + len
      && d.frame.opcode == s[0] as int % 16 && |d.frame.payload| == len
      && forall k: nat | k < len ::
        if s[1] as int >= 128 then BitsDiffer(d.frame.payload[k], s[start + k], s[pos + k % 4])
        else d.frame.payload[k] == s[start + k])
  }

  /** Four bytes, the first one the highest. */
  ghost function Word(s: seq<Byte>, at: nat): nat
    requires at + 4 <= |s|
  {
    0x100_0000 * s[at] as int + 0x1_0000 * s[at + 1] as int + 0x100 * s[at + 2] as int + s[at + 3] as int
  }

  /** What the first frame of `s` is, with its length in seven bits, two bytes or eight. */
  ghost predicate ReadsFirst(s: seq<Byte>, d: Decoded) {
    if |s| < 2 then d.NeedMore?
    else
      var short := s[1] as int % 128;
      if short < 126 then Reads(s, d, 2, short)
      else if |s| < (if short == 126 then 4 else 10) then d.NeedMore?
      else if short == 126 then Reads(s, d, 4, 0x100 * s[2] as int + s[3] as int)
      else Reads(s, d, 10, 0x1_0000_0000 * Word(s, 2) + Word(s, 6))
  }

  lemma DecodeBodyReads(s: seq<Byte>, len: nat, pos: nat)
    requires 2 <= pos && |s| >= 2
    ensures Reads(s, DecodeBody(s, len, pos), pos, len)
  {
    var d := DecodeBody(s, len, pos);
    if d.Got? && s[1] as int >= 128 {
      forall k: nat | k < len
        ensures BitsDiffer(d.frame.payload[k], s[pos + 4 + k], s[pos + k % 4])
      {
        MaskedBits(s[pos + 4..pos + 4 + len], s[pos..pos + 4], k);
      }
    }
  }

  lemma BeNext(s: seq<Byte>, pos: nat, k: nat)
    requires pos + k + 1 <= |s|
    ensures Be(s[pos..pos + k + 1]) == 256 * Be(s[pos..pos + k]) + s[pos + k] as int
  {
    assert s[pos..pos + k + 1][..k] == s[pos..pos + k];
  }

  lemma BeWide(s: seq<Byte>)
    requires |s| >= 10
    ensures Be(s[2..10]) == 0x1_0000_0000 * Word(s, 2) + Word(s, 6)
  {
    assert s[2..2] == [];
    BeNext(s, 2, 0);
    BeNext(s, 2, 1);
    BeNext(s, 2, 2);
    BeNext(s, 2, 3);
    BeNext(s, 2, 4);
    BeNext(s, 2, 5);
    BeNext(s, 2, 6);
    BeNext(s, 2, 7);
  }

  lemma DecodeReads(s: seq<Byte>)
    ensures ReadsFirst(s, Decode(s))
  {
    if |s| >= 2 && ReadLength(s).Some? {
      DecodeBodyReads(s, ReadLength(s).value.0, ReadLength(s).value.1);
      if s[1] as int % 128 == 126 {
        BeTwo(s[2..4]);
      } else if s[1] as int % 128 == 127 {
        BeWide(s);
      }
    }
  }

  /** The first frame of the buffer. */
  method NextFrame(s: seq<Byte>) returns (d: Decoded)
    ensures d == Decode(s) && ReadsFirst(s, d)
  {
    DecodeReads(s);
    if |s| < 2 {
      return NeedMore;
    }
    var length := NextLength(s);
    if length.None? {
      return NeedMore;
    }
    d := NextBody(s, length.value.0, length.value.1);
  }

  method DecodeNext(s: seq<Byte>) returns (d: Decoded)
    ensures d == Decode(s)
  {
    d := NextFrame(s);
  }

  method NextBody(s: seq<Byte>, len: nat, pos: nat) returns (d: Decoded)
    requires 2 <= pos && |s| >= 2
    ensures d == DecodeBody(s, len, pos)
  {
    if len > 1024 * 1024 {
      return TooLong;
    }
    var masked := s[1] as int >= 128;
    var start := if masked then pos + 4 else pos;
    if |s| < start + len {
      return NeedMore;
    }
    var payload := s[start..start + len];
    if masked {
      payload := Unmask(payload, s[pos..pos + 4]);
    }
    return Got(Frame(s[0] as int % 16, payload), start + len);
  }

  /** `SendWsFrame`: the frame is built byte by byte. */
  method BuildFrame(opcode: nat, payload: seq<Byte>) returns (frame: seq<Byte>)
    requires opcode < 16
    ensures frame == Encode(Frame(opcode, payload), None)
  {
    var n := |payload|;
    frame := [128 + opcode];
    if n < 126 {
      frame := frame + [n];
    } else if n <= 65535 {
      frame := frame + [126] + [n / 256 % 256] + [n % 256];
      assert ToBe(n, 2) == ToBe(n / 256, 1) + [n % 256] && ToBe(n / 256, 1) == ToBe(n / 256 / 256, 0) + [n / 256 % 256];
      assert frame == [128 + opcode] + LengthField(n, 0);
    } else {
      frame := frame + [127];
      var i := 8;
      ghost var head := frame;
      while i > 0
        invariant 0 <= i <= 8
        invariant frame == head + ToBe(Shift(n, i), 8 - i)
      {
        i := i - 1;
        assert Shift(n, i + 1) == Shift(n, i) / 256;
        frame := frame + [Shift(n, i) % 256];
      }
      assert frame == [128 + opcode] + LengthField(n, 0);
    }
    frame := frame + payload;
  }

  /** `out` of each frame with this opcode, in order. */
  function Collect<T>(frames: seq<Frame>, opcode: nat, out: Frame -> T): seq<T> {
    if frames == [] then []
    else
      var n := |frames| - 1;
      Collect(frames[..n], opcode, out) + if frames[n].opcode == opcode then [out(frames[n])] else []
  }

  lemma CollectNext<T>(frames: seq<Frame>, f: Frame, opcode: nat, out: Frame -> T)
    ensures Collect(frames + [f], opcode, out)
         == Collect(frames, opcode, out) + if f.opcode == opcode then [out(f)] else []
  {
    assert (frames + [f])[..|frames|] == frames;
  }

  function Text(f: Frame): seq<Byte> {
    f.payload
  }

  function Pong(f: Frame): seq<Byte> {
    Encode(Frame(10, f.payload), None)
  }

  /** The longest beginning in which no reply is refused. */
  ghost function Accepted(refusals: seq<bool>, frames: seq<Frame>): seq<Frame> {
    if AnyRefused(refusals, 0, frames) then Accepted(refusals, frames[..|frames| - 1]) else frames
  }

  lemma AcceptedNext(refusals: seq<bool>, frames: seq<Frame>, f: Frame)
    ensures AnyRefused(refusals, 0, frames + [f]) <==> AnyRefused(refusals, 0, frames) || Refused(refusals, |frames|, f)
    ensures Accepted(refusals, frames + [f])
         == if AnyRefused(refusals, 0, frames + [f]) then Accepted(refusals, frames) else frames + [f]
  {
    AnyRefusedAppend(refusals, 0, frames, [f]);
    assert AnyRefused(refusals, |frames|, [f]) <==> Refused(refusals, |frames| + 0, [f][0]);
    assert (frames + [f])[..|frames|] == frames;
  }

  class ActivitySocket {
    // Which replies the session refuses: for want of a buffer or of room in the send queue.
    const refusals: seq<bool>

    var buffer: seq<Byte>
    var count: nat                   // the number of frames read
    var texts: seq<seq<Byte>>        // text payloads handed to HandleWsText
    var sent: seq<seq<Byte>>         // pongs sent
    var closeAfterFlush: bool
    var disconnected: bool

    ghost var handled: seq<Frame>    // the frames read so far

    /** Text frames are handled in order. Each ping is answered with its own payload, until the reply
        to some frame is refused; then the session has left the open state. */
    ghost predicate Valid()
      reads this`count, this`texts, this`sent, this`handled, this`disconnected
    {
      && texts == Collect(handled, 1, Text)
      && sent == Collect(Accepted(refusals, handled), 9, Pong)
      && count == |handled|
      && (Lost() ==> disconnected)
    }

    ghost predicate Lost()
      reads this`handled
    {
      AnyRefused(refusals, 0, handled)
    }

    constructor (refusals: seq<bool>)
      ensures Valid() && buffer == [] && handled == [] && !closeAfterFlush && !disconnected
      ensures this.refusals == refusals
    {
      this.refusals := refusals;
      buffer, count, texts, sent, closeAfterFlush, disconnected := [], 0, [], [], false, false;
      handled := [];
    }

    /** What the socket will have read when the buffer has been processed. */
    ghost function Total(): Scanned
      reads this`handled, this`buffer
    {
      Then(Scanned(handled, [], Running), Read(buffer))
    }

    /** The buffer was processed, which gave `all`. */
    ghost predicate Processed(all: Scanned, postponed: bool, closing: bool)
      reads this`handled, this`buffer, this`closeAfterFlush, this`disconnected
    {
      && all.frames == handled && all.rest == buffer
      && closeAfterFlush == (closing || (all.stop.Closed? && !Lost()))
      && disconnected == (Lost() || Ends(all.stop, postponed))
    }

    /** Reads every complete frame; a close frame stops the reading and asks for the close after the
        flush, which is carried out at once unless it is `postponed`; an oversized length disconnects,
        and so does a refused reply, after which the buffer is read to its end all the same. */
    method ProcessWsBuffer(postponed: bool)
      requires Valid() && !disconnected
      modifies this
      ensures Valid() && handled == old(handled) + Read(old(buffer)).frames && buffer == Read(old(buffer)).rest
      ensures var r := Read(old(buffer));
              var refused := AnyRefused(refusals, |old(handled)|, r.frames);
              && closeAfterFlush == (old(closeAfterFlush) || (r.stop.Closed? && !refused))
              && disconnected == (refused || Ends(r.stop, postponed))
    {
      ghost var all := Total();
      AnyRefusedAppend(refusals, 0, handled, Read(buffer).frames);
      var more := true;
      while more
        invariant Valid()
        invariant more ==> Total() == all && disconnected == Lost() && closeAfterFlush == old(closeAfterFlush)
        invariant !more ==> Processed(all, postponed, old(closeAfterFlush))
        decreases more, |buffer|
      {
        more := ProcessFrame(postponed, all);
      }
    }

    /** One round of the loop. */
    method ProcessFrame(postponed: bool, ghost all: Scanned) returns (more: bool)
      requires Valid() && Total() == all && disconnected == Lost()
      modifies this
      ensures Valid()
      ensures more ==> Total() == all && |buffer| < |old(buffer)| && disconnected == Lost()
      ensures more ==> closeAfterFlush == old(closeAfterFlush)
      ensures !more ==> Processed(all, postponed, old(closeAfterFlush))
    {
      var d := DecodeNext(buffer);
      NextRound(handled, buffer, all);
      if d.NeedMore? {
        return false;
      }
      if d.TooLong? {
        disconnected := true;
        return false;
      }
      buffer := buffer[d.used..];
      Handle(d.frame);
      more := d.frame.opcode != 8;
      if !more {
        DisconnectAfterFlush(postponed);
      }
    }

    /** A frame is handled, unless it is a close frame. */
    method Handle(f: Frame)
      requires Valid() && disconnected == Lost()
      modifies this`count, this`texts, this`sent, this`handled, this`disconnected
      ensures Valid() && handled == old(handled) + [f] && disconnected == Lost()
    {
      CollectNext(handled, f, 1, Text);
      AcceptedNext(refusals, handled, f);
      if !AnyRefused(refusals, 0, handled + [f]) {
        CollectNext(handled, f, 9, Pong);
      }
      Reply(f);
      handled := handled + [f];
      count := count + 1;
    }

    /** What a frame makes the session do. A reply to a session that is no longer open goes nowhere. */
    method Reply(f: Frame)
      modifies this`texts, this`sent, this`disconnected
      ensures texts == old(texts) + if f.opcode == 1 then [f.payload] else []
      ensures sent == old(sent) + if f.opcode == 9 && !disconnected then [Pong(f)] else []
      ensures disconnected == (old(disconnected) || Refused(refusals, count, f))
    {
      if (f.opcode == 9 || f.opcode == 1) && count < |refusals| && refusals[count] {
        disconnected := true;
      }
      if f.opcode == 9 {
        var pong := BuildFrame(10, f.payload);
        if !disconnected {
          sent := sent + [pong];
        }
      } else if f.opcode == 1 {
        texts := texts + [f.payload];
      }
    }

    /** The session's answer: nothing if it is no longer open; postponed while a send is in flight,
        bytes are queued or application work is pending. */
    method DisconnectAfterFlush(postponed: bool)
      modifies this`closeAfterFlush, this`disconnected
      ensures closeAfterFlush == (old(closeAfterFlush) || !old(disconnected))
      ensures disconnected == (old(disconnected) || !postponed)
    {
      if disconnected {
        return;
      }
      closeAfterFlush := true;
      if !postponed {
        disconnected := true;
      }
    }

    /** A chunk, which is delivered to an open session only. */
    method OnRecv(data: seq<Byte>, postponed: bool)
      requires Valid() && !disconnected
      modifies this
      ensures Valid() && handled == old(handled) + Read(old(buffer) + data).frames
      ensures var r := Read(old(buffer) + data);
              var refused := AnyRefused(refusals, |old(handled)|, r.frames);
              && buffer == r.rest
              && closeAfterFlush == (old(closeAfterFlush) || (r.stop.Closed? && !refused))
              && disconnected == (refused || Ends(r.stop, postponed))
    {
      buffer := buffer + data;
      ProcessWsBuffer(postponed);
    }

    /** A stream in chunks: the frames handled are those read chunk by chunk, and those of the whole
        stream unless a frame follows a close frame and the close was postponed, or follows one whose
        reply was refused. */
    method Feed(chunks: seq<seq<Byte>>, lasts: nat)
      requires Valid() && !disconnected && !closeAfterFlush && Decode(buffer).NeedMore?
      modifies this
      ensures Valid()
      ensures handled == old(handled) + ReadChunks(old(buffer), chunks, false, lasts, refusals, |old(handled)|)
      ensures var all := old(buffer) + Flatten(chunks);
              (!FollowsClose(all) || lasts == 0) && !FollowsRefused(all, refusals, |old(handled)|) ==>
              handled == old(handled) + Read(all).frames
    {
      ghost var all := buffer + Flatten(chunks);
      if (!FollowsClose(all) || lasts == 0) && !FollowsRefused(all, refusals, |handled|) {
        DecodeIsStable();
        ChunksDoNotMatter(Decode, buffer, chunks, lasts, refusals, |handled|);
      }
      FeedChunks(chunks, lasts);
    }

    /** Chunks arrive until the session leaves the open state. */
    method FeedChunks(chunks: seq<seq<Byte>>, lasts: nat)
      requires Valid() && !disconnected
      modifies this
      ensures Valid()
      ensures handled
           == old(handled) + ReadChunks(old(buffer), chunks, old(closeAfterFlush), lasts, refusals, |old(handled)|)
      decreases |chunks|
    {
      if chunks == [] {
        return;
      }
      if closeAfterFlush && lasts == 0 {
        disconnected := true;
        return;
      }
      var left := if closeAfterFlush then lasts - 1 else lasts;
      DecodeIsStable();
      SessionStep(Decode, handled, buffer, chunks, closeAfterFlush, lasts, refusals);
      OnRecv(chunks[0], left > 0);
      if !disconnected {
        FeedChunks(chunks[1..], left);
      }
    }
  }

  /** One round of the loop, in values: what has been read and what the buffer still gives. */
  lemma NextRound(handled: seq<Frame>, buffer: seq<Byte>, all: Scanned)
    requires Then(Scanned(handled, [], Running), Read(buffer)) == all
    ensures var d := Decode(buffer);
      && (d.NeedMore? ==> all == Scanned(handled, buffer, Running))
      && (d.TooLong? ==> all == Scanned(handled, buffer, Oversize))
      && (d.Got? ==>
            && 0 < d.used <= |buffer|
            && all == if d.frame.opcode == CLOSE then Scanned(handled + [d.frame], buffer[d.used..], Closed)
                      else Then(Scanned(handled + [d.frame], [], Running), Read(buffer[d.used..])))
  {
    DecodeIsStable();
    ScanStep(Decode, handled, buffer);
  }
}
