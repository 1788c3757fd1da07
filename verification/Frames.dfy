/** QP/1 QR frames: cutting a payload into numbered frames and putting it together again (qrframe.go). */
module Frames {
  import opened Protocol

  const HEADER_LEN := 12
  const DEFAULT_CHUNK := 400
  const MAX_FRAMES := 65535
  const MAGIC: Bytes := [0x4A, 0x53, 0x49, 0x31] // "JSI1"

  type Word = n: int | 0 <= n < 0x1_0000_0000

  /** The libraries below the codec: compression with its JSON text, and the checksum. */
  datatype Codec<!D> = Codec(deflate: D -> Option<Bytes>, inflate: Bytes -> Option<D>, crc: Bytes -> Word)

  datatype FrameError =
    | DeflateFailed
    | TooManyFrames
    | NoFrames
    | Truncated(i: nat)
    | BadMagic(i: nat)
    | ZeroTotal(i: nat)
    | SeqOutside(i: nat)
    | MixedTotal(i: nat)
    | MixedCrc(i: nat)
    | Missing(seqs: seq<int>)
    | CrcMismatch
    | InflateFailed

  datatype Result<+T> = Ok(value: T) | Err(error: FrameError)

  // ----- Big-endian fields ----------------------------------------------------------------------

  /** PutUint16 of a truncating conversion. */
  function Put16(n: nat): (b: Bytes)
    ensures |b| == 2
  {
    [n / 256 % 256, n % 256]
  }

  function Get16(b: Bytes): (n: nat)
    requires |b| >= 2
    ensures n <= MAX_FRAMES
  {
    (b[0] as int) * 256 + b[1]
  }

  function Put32(n: Word): (b: Bytes)
    ensures |b| == 4
  {
    [n / 256 / 256 / 256, n / 256 / 256 % 256, n / 256 % 256, n % 256]
  }

  function Get32(b: Bytes): (n: Word)
    requires |b| >= 4
  {
    (b[0] as int) * 0x100_0000 + (b[1] as int) * 0x1_0000 + (b[2] as int) * 256 + b[3]
  }

  /** A 16-bit field reads back exactly when the number fits. */
  lemma Field16(n: nat)
    ensures Get16(Put16(n)) == n <==> n <= MAX_FRAMES
  {
  }

  lemma Field32(n: Word)
    ensures Get32(Put32(n)) == n
  {
  }

  // ----- Cutting ----------------------------------------------------------------------------------

  /** How many frames a payload of n bytes needs. */
  function Total(n: nat, chunk: nat): (t: nat)
    requires chunk > 0
    ensures t >= 1
  {
    var t := (n + chunk - 1) / chunk;
    if t > 1 then t else 1
  }

  /** Enough, and not one too many. */
  lemma TotalIsCeiling(n: nat, chunk: nat)
    requires chunk > 0
    ensures n <= Total(n, chunk) * chunk
    ensures Total(n, chunk) > 1 ==> (Total(n, chunk) - 1) * chunk < n
  {
    var m := n + chunk - 1;
    assert m == (m / chunk) * chunk + m % chunk;
  }

  function Min(a: int, b: int): int {
    if a < b then a else b
  }

  /** The bytes of the frame with the given 1-based number. */
  function Slice(payload: Bytes, chunk: nat, i: nat): Bytes
    requires chunk > 0 && i >= 1
  {
    var start := (i - 1) * chunk;
    if start >= |payload| then [] else payload[start..Min(start + chunk, |payload|)]
  }

  function Header(i: nat, total: nat, crc: Word): (h: Bytes)
    ensures |h| == HEADER_LEN
  {
    MAGIC + Put16(i) + Put16(total) + Put32(crc)
  }

  function Frame(payload: Bytes, chunk: nat, crc: Word, i: nat): Bytes
    requires chunk > 0 && i >= 1
  {
    Header(i, Total(|payload|, chunk), crc) + Slice(payload, chunk, i)
  }

  /** The frames of a payload, numbers 1 to total in order. */
  ghost predicate IsSplit(payload: Bytes, chunk: nat, crc: Word, frames: seq<Bytes>)
    requires chunk > 0
  {
    && |frames| == Total(|payload|, chunk) <= MAX_FRAMES
    && forall i | 0 <= i < |frames| :: frames[i] == Frame(payload, chunk, crc, i + 1)
  }

  function ChunkOf(chunkSize: int): (chunk: nat)
    ensures chunk > 0
  {
    if chunkSize <= 0 then DEFAULT_CHUNK else chunkSize
  }

  lemma SliceFits(payload: Bytes, chunk: nat, i: nat)
    requires chunk > 0 && 1 <= i <= Total(|payload|, chunk)
    ensures 0 <= (i - 1) * chunk <= |payload|
    ensures Slice(payload, chunk, i) == payload[(i - 1) * chunk..Min((i - 1) * chunk + chunk, |payload|)]
  {
    TotalIsCeiling(|payload|, chunk);
    var t := Total(|payload|, chunk);
    hide Total;
    TimesMonotone(i - 1, t - 1, chunk);
  }

  lemma TimesMonotone(a: nat, b: nat, c: nat)
    requires a <= b
    ensures 0 <= a * c <= b * c
  {
  }

  /** SplitFrames. */
  method SplitFrames<D>(codec: Codec<D>, desc: D, chunkSize: int) returns (r: Result<seq<Bytes>>)
    ensures codec.deflate(desc).None? ==> r == Err(DeflateFailed)
    ensures codec.deflate(desc).Some? ==>
      var payload, chunk := codec.deflate(desc).value, ChunkOf(chunkSize);
      if Total(|payload|, chunk) > MAX_FRAMES then r == Err(TooManyFrames)
      else r.Ok? && IsSplit(payload, chunk, codec.crc(payload), r.value)
  {
    var chunk := if chunkSize <= 0 then DEFAULT_CHUNK else chunkSize;
    var deflated := codec.deflate(desc);
    if deflated.None? {
      return Err(DeflateFailed);
    }
    var payload := deflated.value;
    var total := (|payload| + chunk - 1) / chunk;
    if total < 1 {
      total := 1;
    }
    if total > MAX_FRAMES {
      return Err(TooManyFrames);
    }
    var crc := codec.crc(payload);
    var frames: seq<Bytes> := [];
    var i := 1;
    while i <= total
      invariant 1 <= i <= total + 1 && |frames| == i - 1
      invariant forall j | 0 <= j < |frames| :: frames[j] == Frame(payload, chunk, crc, j + 1)
    {
      var start := (i - 1) * chunk;
      SliceFits(payload, chunk, i);
      var end := Min(start + chunk, |payload|);
      var f := MAGIC + Put16(i) + Put16(total) + Put32(crc) + payload[start..end];
      frames := frames + [f];
      i := i + 1;
    }
    return Ok(frames);
  }

  // ----- Joining --------------------------------------------------------------------------------

  /** What has been collected: the first frame's total and checksum, and the first chunk seen per number. */
  datatype Parts = Parts(total: nat, crc: Word, chunks: map<int, Bytes>)

  function TakeFrame(p: Parts, i: nat, f: Bytes): Result<Parts> {
    if |f| < HEADER_LEN then Err(Truncated(i))
    else if f[..4] != MAGIC then Err(BadMagic(i))
    else
      var n, total, crc := Get16(f[4..]), Get16(f[6..]), Get32(f[8..]);
      if total == 0 then Err(ZeroTotal(i))
      else if n < 1 || n > total then Err(SeqOutside(i))
      else if i > 0 && total != p.total then Err(MixedTotal(i))
      else if i > 0 && crc != p.crc then Err(MixedCrc(i))
      else Ok(Parts(total, crc, if n in p.chunks then p.chunks else p.chunks[n := f[HEADER_LEN..]]))
  }

  /** The first n frames, or the first error among them. */
  function Collect(frames: seq<Bytes>, n: nat): Result<Parts>
    requires n <= |frames|
  {
    if n == 0 then Ok(Parts(0, 0, map[]))
    else
      match Collect(frames, n - 1)
      case Err(e) => Err(e)
      case Ok(p) => TakeFrame(p, n - 1, frames[n - 1])
  }

  /** The numbers from i to total that are not there, ascending. */
  function Absent(chunks: map<int, Bytes>, i: nat, total: nat): (seqs: seq<int>)
    decreases total + 1 - i
  {
    if i > total then []
    else (if i in chunks then [] else [i]) + Absent(chunks, i + 1, total)
  }

  function Gather(chunks: map<int, Bytes>, n: nat): Bytes
    requires forall i | 1 <= i <= n :: i in chunks
  {
    if n == 0 then [] else Gather(chunks, n - 1) + chunks[n]
  }

  lemma AbsentMeaning(chunks: map<int, Bytes>, i: nat, total: nat)
    ensures forall n :: n in Absent(chunks, i, total) <==> i <= n <= total && n !in chunks
    ensures forall j, k | 0 <= j < k < |Absent(chunks, i, total)| ::
      Absent(chunks, i, total)[j] < Absent(chunks, i, total)[k]
    decreases total + 1 - i
  {
    if i <= total {
      AbsentMeaning(chunks, i + 1, total);
      var rest := Absent(chunks, i + 1, total);
      assert forall j | 0 <= j < |rest| :: rest[j] in rest;
    }
  }

  function Assemble<D>(codec: Codec<D>, p: Parts): Result<D> {
    var seqs := Absent(p.chunks, 1, p.total);
    AbsentMeaning(p.chunks, 1, p.total);
    if seqs != [] then Err(Missing(seqs))
    else
      NothingAbsent(p.chunks, p.total);
      var payload := Gather(p.chunks, p.total);
      if codec.crc(payload) != p.crc then Err(CrcMismatch)
      else
        match codec.inflate(payload)
        case None => Err(InflateFailed)
        case Some(desc) => Ok(desc)
  }

  lemma NothingAbsent(chunks: map<int, Bytes>, total: nat)
    requires Absent(chunks, 1, total) == []
    ensures forall i | 1 <= i <= total :: i in chunks
  {
    AbsentMeaning(chunks, 1, total);
    forall i | 1 <= i <= total
      ensures i in chunks
    {
      assert i !in Absent(chunks, 1, total);
    }
  }

  function Join<D>(codec: Codec<D>, frames: seq<Bytes>): Result<D> {
    if frames == [] then Err(NoFrames)
    else
      match Collect(frames, |frames|)
      case Err(e) => Err(e)
      case Ok(p) => Assemble(codec, p)
  }

  /** An error among the first frames is the error of all of them. */
  lemma FirstErrorStays(frames: seq<Bytes>, n: nat, m: nat)
    requires n <= m <= |frames| && Collect(frames, n).Err?
    ensures Collect(frames, m) == Collect(frames, n)
  {
  }

  /** JoinFrames: one pass over the frames, one over the numbers, one over the chunks. */
  method JoinFrames<D>(codec: Codec<D>, frames: seq<Bytes>) returns (r: Result<D>)
    ensures r == Join(codec, frames)
  {
    if |frames| == 0 {
      return Err(NoFrames);
    }
    var collected := CollectFrames(frames);
    hide Collect, Absent;
    if collected.Err? {
      return Err(collected.error);
    }
    var Parts(total, crc, chunks) := collected.value;
    var missing := FindMissing(chunks, total);
    if |missing| > 0 {
      return Err(Missing(missing));
    }
    NothingAbsent(chunks, total);
    var payload: Bytes := [];
    var k := 1;
    while k <= total
      invariant 1 <= k <= total + 1
      invariant payload == Gather(chunks, k - 1)
    {
      payload := payload + chunks[k];
      k := k + 1;
    }
    hide Gather;
    if codec.crc(payload) != crc {
      return Err(CrcMismatch);
    }
    var desc := codec.inflate(payload);
    if desc.None? {
      return Err(InflateFailed);
    }
    return Ok(desc.value);
  }

  /** The loop over the frames. */
  method CollectFrames(frames: seq<Bytes>) returns (r: Result<Parts>)
    ensures r == Collect(frames, |frames|)
  {
    hide TakeFrame;
    var p := Parts(0, 0, map[]);
    for i := 0 to |frames|
      invariant Collect(frames, i) == Ok(p)
    {
      var step := CheckFrame(p, i, frames[i]);
      if step.Err? {
        FirstErrorStays(frames, i + 1, |frames|);
        return Err(step.error);
      }
      p := step.value;
    }
    return Ok(p);
  }

  /** The checks on one frame, in the order they are made. */
  method CheckFrame(p: Parts, i: nat, f: Bytes) returns (r: Result<Parts>)
    ensures r == TakeFrame(p, i, f)
  {
    if |f| < HEADER_LEN {
      return Err(Truncated(i));
    }
    if f[..4] != MAGIC {
      return Err(BadMagic(i));
    }
    var n := Get16(f[4..]);
    var tot := Get16(f[6..]);
    var c := Get32(f[8..]);
    if tot == 0 {
      return Err(ZeroTotal(i));
    }
    if n < 1 || n > tot {
      return Err(SeqOutside(i));
    }
    var total, crc := p.total, p.crc;
    if i == 0 {
      total, crc := tot, c;
    } else if tot != total {
      return Err(MixedTotal(i));
    } else if c != crc {
      return Err(MixedCrc(i));
    }
    var chunks := p.chunks;
    if n !in chunks {
      chunks := chunks[n := f[HEADER_LEN..]];
    }
    return Ok(Parts(total, crc, chunks));
  }

  lemma NothingPast(chunks: map<int, Bytes>, total: nat)
    ensures Absent(chunks, total + 1, total) == []
  {
  }

  lemma AbsentFrom(missing: seq<int>, chunks: map<int, Bytes>, i: nat, total: nat)
    requires i <= total
    ensures missing + Absent(chunks, i, total)
         == missing + (if i in chunks then [] else [i]) + Absent(chunks, i + 1, total)
  {
    var here, rest := if i in chunks then [] else [i], Absent(chunks, i + 1, total);
    assert Absent(chunks, i, total) == here + rest;
    hide Absent;
    assert missing + (here + rest) == missing + here + rest;
  }

  method FindMissing(chunks: map<int, Bytes>, total: nat) returns (missing: seq<int>)
    ensures missing == Absent(chunks, 1, total)
  {
    NothingPast(chunks, total);
    hide Absent;
    missing := [];
    var i := 1;
    while i <= total
      invariant 1 <= i <= total + 1
      invariant missing + Absent(chunks, i, total) == Absent(chunks, 1, total)
    {
      AbsentFrom(missing, chunks, i, total);
      if i !in chunks {
        missing := missing + [i];
      }
      i := i + 1;
    }
  }

  // ----- The two undo each other ------------------------------------------------------------------

  /** Every frame comes from the one split; order and repetition are free. */
  ghost predicate DrawnFrom(frames: seq<Bytes>, all: seq<Bytes>) {
    forall i | 0 <= i < |frames| :: frames[i] in all
  }

  /** What the header of a split frame says. */
  lemma ReadFrame(payload: Bytes, chunk: nat, crc: Word, i: nat)
    requires chunk > 0 && 1 <= i <= Total(|payload|, chunk) <= MAX_FRAMES
    ensures var f := Frame(payload, chunk, crc, i);
      && |f| >= HEADER_LEN && f[..4] == MAGIC
      && Get16(f[4..]) == i && Get16(f[6..]) == Total(|payload|, chunk) && Get32(f[8..]) == crc
      && f[HEADER_LEN..] == Slice(payload, chunk, i)
  {
    var f := Frame(payload, chunk, crc, i);
    var total := Total(|payload|, chunk);
    Field16(i);
    Field16(total);
    Field32(crc);
    assert f[4] == Put16(i)[0] && f[5] == Put16(i)[1];
    assert f[6] == Put16(total)[0] && f[7] == Put16(total)[1];
    assert f[8] == Put32(crc)[0] && f[9] == Put32(crc)[1] && f[10] == Put32(crc)[2] && f[11] == Put32(crc)[3];
  }

  /** The slices in order are the payload. */
  lemma {:induction false} SlicesPartition(payload: Bytes, chunk: nat, chunks: map<int, Bytes>, n: nat)
    requires chunk > 0 && n <= Total(|payload|, chunk)
    requires forall i | 1 <= i <= n :: i in chunks && chunks[i] == Slice(payload, chunk, i)
    ensures Gather(chunks, n) == payload[..Min(n * chunk, |payload|)]
  {
    if n > 0 {
      SlicesPartition(payload, chunk, chunks, n - 1);
      SliceFits(payload, chunk, n);
      hide Total, Slice;
      assert Gather(chunks, n) == Gather(chunks, n - 1) + chunks[n];
      hide Gather;
      Distribute(n, chunk);
      PrefixGrows(payload, (n - 1) * chunk, chunk);
    }
  }

  lemma PrefixGrows(payload: Bytes, start: nat, chunk: nat)
    requires start <= |payload|
    ensures payload[..start] + payload[start..Min(start + chunk, |payload|)] == payload[..Min(start + chunk, |payload|)]
  {
  }

  lemma Distribute(n: nat, chunk: nat)
    requires n > 0
    ensures n * chunk == (n - 1) * chunk + chunk
  {
  }

  /** Collecting frames of one split never fails, and keeps for each number its slice. */
  ghost predicate Partial(payload: Bytes, chunk: nat, crc: Word, frames: seq<Bytes>, n: nat, p: Parts)
    requires chunk > 0 && n <= |frames|
  {
    && (n > 0 ==> p.total == Total(|payload|, chunk) && p.crc == crc)
    && (forall i :: i in p.chunks ==>
          1 <= i <= Total(|payload|, chunk) && p.chunks[i] == Slice(payload, chunk, i)
          && Frame(payload, chunk, crc, i) in frames[..n])
    && (forall i | 1 <= i <= Total(|payload|, chunk) :: Frame(payload, chunk, crc, i) in frames[..n] ==> i in p.chunks)
  }

  /** Frames with different numbers are different. */
  lemma FramesDiffer(payload: Bytes, chunk: nat, crc: Word, i: nat, j: nat)
    requires chunk > 0 && 1 <= i <= Total(|payload|, chunk) <= MAX_FRAMES && 1 <= j <= Total(|payload|, chunk)
    requires Frame(payload, chunk, crc, i) == Frame(payload, chunk, crc, j)
    ensures i == j
  {
    ReadFrame(payload, chunk, crc, i);
    ReadFrame(payload, chunk, crc, j);
  }

  lemma {:induction false} CollectDrawn(
    payload: Bytes, chunk: nat, crc: Word, all: seq<Bytes>, frames: seq<Bytes>, n: nat)
    requires chunk > 0 && IsSplit(payload, chunk, crc, all) && DrawnFrom(frames, all) && n <= |frames|
    ensures Collect(frames, n).Ok? && Partial(payload, chunk, crc, frames, n, Collect(frames, n).value)
  {
    hide Frame, Slice, Total, Partial, TakeFrame;
    if n == 0 {
      NothingTaken(payload, chunk, crc, frames);
    } else {
      CollectDrawn(payload, chunk, crc, all, frames, n - 1);
      var p := Collect(frames, n - 1).value;
      assert Collect(frames, n) == TakeFrame(p, n - 1, frames[n - 1]);
      hide Collect;
      assert frames[n - 1] in all;
      hide DrawnFrom;
      var i := NumberOf(payload, chunk, crc, all, frames[n - 1]);
      TakeDrawn(payload, chunk, crc, frames, n, p, i);
    }
  }

  lemma NothingTaken(payload: Bytes, chunk: nat, crc: Word, frames: seq<Bytes>)
    requires chunk > 0
    ensures Partial(payload, chunk, crc, frames, 0, Parts(0, 0, map[]))
  {
  }

  lemma NumberOf(payload: Bytes, chunk: nat, crc: Word, all: seq<Bytes>, f: Bytes) returns (i: nat)
    requires chunk > 0 && IsSplit(payload, chunk, crc, all) && f in all
    ensures 1 <= i <= Total(|payload|, chunk) && f == Frame(payload, chunk, crc, i)
  {
    hide Frame, Total;
    var k :| 0 <= k < |all| && all[k] == f;
    i := k + 1;
  }

  lemma TakeDrawn(payload: Bytes, chunk: nat, crc: Word, frames: seq<Bytes>, n: nat, p: Parts, i: nat)
    requires chunk > 0 && 0 < n <= |frames| && Partial(payload, chunk, crc, frames, n - 1, p)
    requires 1 <= i <= Total(|payload|, chunk) <= MAX_FRAMES && frames[n - 1] == Frame(payload, chunk, crc, i)
    ensures var r := TakeFrame(p, n - 1, frames[n - 1]);
            r.Ok? && Partial(payload, chunk, crc, frames, n, r.value)
  {
    ReadFrame(payload, chunk, crc, i);
    hide Frame, Slice, Total, Get16, Get32;
    var f := frames[n - 1];
    var r := TakeFrame(p, n - 1, f);
    assert r.Ok? && r.value.total == Total(|payload|, chunk) && r.value.crc == crc;
    assert r.value.chunks == if i in p.chunks then p.chunks else p.chunks[i := Slice(payload, chunk, i)];
    hide TakeFrame;
    assert frames[..n] == frames[..n - 1] + [f];
    forall j | 1 <= j <= Total(|payload|, chunk) && Frame(payload, chunk, crc, j) == f
      ensures j == i
    {
      FramesDiffer(payload, chunk, crc, j, i);
    }
  }

  /** The numbers whose frames are not among those given, ascending. */
  ghost predicate IsLoss(payload: Bytes, chunk: nat, crc: Word, frames: seq<Bytes>, seqs: seq<int>)
    requires chunk > 0
  {
    && (forall i :: i in seqs <==>
          1 <= i <= Total(|payload|, chunk) && Frame(payload, chunk, crc, i) !in frames)
    && forall j, k | 0 <= j < k < |seqs| :: seqs[j] < seqs[k]
  }

  /**
   * Frames drawn from one split, in any order and with any repetitions: with none missing the result is
   * the payload inflated; otherwise the error lists exactly the missing numbers in ascending order.
   */
  lemma JoinOfDrawn<D>(codec: Codec<D>, payload: Bytes, chunk: nat, all: seq<Bytes>, frames: seq<Bytes>)
    requires chunk > 0 && IsSplit(payload, chunk, codec.crc(payload), all)
    requires frames != [] && DrawnFrom(frames, all)
    ensures if DrawnFrom(all, frames)
      then Join(codec, frames) ==
        match codec.inflate(payload) { case None => Err(InflateFailed) case Some(desc) => Ok(desc) }
      else
        var r := Join(codec, frames);
        r.Err? && r.error.Missing? && r.error.seqs != []
        && IsLoss(payload, chunk, codec.crc(payload), frames, r.error.seqs)
  {
    var crc := codec.crc(payload);
    CollectDrawn(payload, chunk, crc, all, frames, |frames|);
    assert frames[..|frames|] == frames;
    var p := Collect(frames, |frames|).value;
    AbsentMeaning(p.chunks, 1, p.total);
    var absent := Absent(p.chunks, 1, p.total);
    hide Frame, Collect, Absent, Slice, Total;
    if DrawnFrom(all, frames) {
      hide IsLoss;
      NoneAbsent(payload, chunk, crc, all, frames, p);
      WholePayload(payload, chunk, p.chunks);
    } else {
      SomeAbsent(payload, chunk, crc, all, frames, p);
    }
  }

  lemma WholePayload(payload: Bytes, chunk: nat, chunks: map<int, Bytes>)
    requires chunk > 0
    requires forall i | 1 <= i <= Total(|payload|, chunk) :: i in chunks && chunks[i] == Slice(payload, chunk, i)
    ensures Gather(chunks, Total(|payload|, chunk)) == payload
  {
    var n := Total(|payload|, chunk);
    TotalIsCeiling(|payload|, chunk);
    hide Total, Slice;
    SlicesPartition(payload, chunk, chunks, n);
    assert payload[..|payload|] == payload;
  }

  lemma SomeAbsent(payload: Bytes, chunk: nat, crc: Word, all: seq<Bytes>, frames: seq<Bytes>, p: Parts)
    requires chunk > 0 && IsSplit(payload, chunk, crc, all) && !DrawnFrom(all, frames)
    requires Partial(payload, chunk, crc, frames, |frames|, p) && p.total == Total(|payload|, chunk)
    ensures Absent(p.chunks, 1, p.total) != []
    ensures IsLoss(payload, chunk, crc, frames, Absent(p.chunks, 1, p.total))
  {
    AbsentMeaning(p.chunks, 1, p.total);
    assert frames[..|frames|] == frames;
    hide Frame, Slice, Total, Absent;
    var k :| 0 <= k < |all| && all[k] !in frames;
    assert all[k] == Frame(payload, chunk, crc, k + 1);
    assert k + 1 in Absent(p.chunks, 1, p.total);
  }

  lemma NoneAbsent(payload: Bytes, chunk: nat, crc: Word, all: seq<Bytes>, frames: seq<Bytes>, p: Parts)
    requires chunk > 0 && IsSplit(payload, chunk, crc, all) && DrawnFrom(all, frames)
    requires Partial(payload, chunk, crc, frames, |frames|, p) && p.total == Total(|payload|, chunk)
    ensures Absent(p.chunks, 1, p.total) == []
    ensures forall i | 1 <= i <= p.total :: i in p.chunks && p.chunks[i] == Slice(payload, chunk, i)
  {
    assert frames[..|frames|] == frames;
    hide Frame, Slice, Total;
    forall i | 1 <= i <= p.total
      ensures i in p.chunks
    {
      assert all[i - 1] == Frame(payload, chunk, crc, i);
    }
    hide IsSplit, DrawnFrom, Partial;
    AllThere(p.chunks, p.total);
  }

  lemma AllThere(chunks: map<int, Bytes>, total: nat)
    requires forall i | 1 <= i <= total :: i in chunks
    ensures Absent(chunks, 1, total) == []
  {
    AbsentMeaning(chunks, 1, total);
    hide Absent;
    var absent := Absent(chunks, 1, total);
    forall i
      ensures i !in absent
    {
      assert i in absent <==> 1 <= i <= total && i !in chunks;
    }
    NoElements(absent);
  }

  /** The library assumption on one description: what deflate made of it, inflate restores. */
  ghost predicate Restores<D>(codec: Codec<D>, desc: D) {
    codec.deflate(desc).Some? && codec.inflate(codec.deflate(desc).value) == Some(desc)
  }

  /** Splitting then joining in any order with any duplicates gives back the description. */
  lemma RoundTrip<D>(codec: Codec<D>, desc: D, chunkSize: int, all: seq<Bytes>, frames: seq<Bytes>)
    requires Restores(codec, desc)
    requires var payload := codec.deflate(desc).value;
      IsSplit(payload, ChunkOf(chunkSize), codec.crc(payload), all)
    requires DrawnFrom(frames, all) && DrawnFrom(all, frames)
    ensures Join(codec, frames) == Ok(desc)
  {
    var payload := codec.deflate(desc).value;
    assert all[0] in frames;
    JoinOfDrawn(codec, payload, ChunkOf(chunkSize), all, frames);
  }

  /**
   * Frames drawn from one split of a description: joining fails if and only if some frame is absent, and then
   * names exactly the absent numbers.
   */
  lemma FrameLoss<D>(codec: Codec<D>, desc: D, chunkSize: int, all: seq<Bytes>, frames: seq<Bytes>)
    requires Restores(codec, desc)
    requires var payload := codec.deflate(desc).value;
      IsSplit(payload, ChunkOf(chunkSize), codec.crc(payload), all)
    requires frames != [] && DrawnFrom(frames, all)
    ensures Join(codec, frames).Err? <==> exists k :: 0 <= k < |all| && all[k] !in frames
    ensures Join(codec, frames).Err? ==>
      var payload, r := codec.deflate(desc).value, Join(codec, frames);
      r.error.Missing? && IsLoss(payload, ChunkOf(chunkSize), codec.crc(payload), frames, r.error.seqs)
  {
    hide Join, IsLoss, IsSplit;
    JoinOfDrawn(codec, codec.deflate(desc).value, ChunkOf(chunkSize), all, frames);
  }

  /** Splitting is refused exactly for payloads longer than 65535 chunks. */
  lemma SplittableIff(n: nat, chunk: nat)
    requires chunk > 0
    ensures Total(n, chunk) <= MAX_FRAMES <==> n <= MAX_FRAMES * chunk
  {
    TotalIsCeiling(n, chunk);
    var t := Total(n, chunk);
    if t > MAX_FRAMES {
      assert (t - 1) * chunk >= MAX_FRAMES * chunk;
    } else {
      assert t * chunk <= MAX_FRAMES * chunk;
    }
  }
}
