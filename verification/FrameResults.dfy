/**
 * What the QP/1 frames look like byte by byte, and what joining any list of byte strings gives: each result
 * on exactly the inputs listed for it.
 */
module FrameResults {
  import opened Protocol
  import opened Acceptance
  import opened Frames

  // ----- One frame, byte by byte ------------------------------------------------------------------

  predicate Marked(f: Bytes) {
    |f| >= 12 && f[0] == 'J' as int && f[1] == 'S' as int && f[2] == 'I' as int && f[3] == '1' as int
  }

  function Number(f: Bytes): (n: int)
    requires |f| >= 12
  {
    (f[4] as int) * 256 + f[5]
  }

  function Count(f: Bytes): (n: int)
    requires |f| >= 12
  {
    (f[6] as int) * 256 + f[7]
  }

  function Sum(f: Bytes): (n: int)
    requires |f| >= 12
  {
    (((f[8] as int) * 256 + f[9]) * 256 + f[10]) * 256 + f[11]
  }

  predicate InOrder(f: Bytes) {
    Marked(f) && 1 <= Number(f) <= Count(f)
  }

  /** A frame that belongs with the first one. */
  predicate Fits(frames: seq<Bytes>, i: nat)
    requires i < |frames|
  {
    InOrder(frames[i]) && InOrder(frames[0]) && Count(frames[i]) == Count(frames[0]) && Sum(frames[i]) == Sum(frames[0])
  }

  predicate FitUpTo(frames: seq<Bytes>, n: nat)
    requires n <= |frames|
  {
    && (n > 0 ==> InOrder(frames[0]))
    && forall j | 0 <= j < n :: Fits(frames, j)
  }

  /** The first frame that does not fit, and what is wrong with it. */
  predicate Fault(frames: seq<Bytes>, i: nat, e: FrameError)
    requires i < |frames|
  {
    var f := frames[i];
    && FitUpTo(frames, i)
    && match e
       case Truncated(j) => j == i && |f| < 12
       case BadMagic(j) => j == i && |f| >= 12 && !Marked(f)
       case ZeroTotal(j) => j == i && Marked(f) && f[6] == 0 && f[7] == 0
       case SeqOutside(j) => j == i && Marked(f) && Count(f) > 0 && (Number(f) == 0 || Number(f) > Count(f))
       case MixedTotal(j) => j == i && i > 0 && InOrder(f) && Count(f) != Count(frames[0])
       case MixedCrc(j) => j == i && i > 0 && InOrder(f) && Count(f) == Count(frames[0]) && Sum(f) != Sum(frames[0])
       case _ => false
  }

  /** Some frame among the first n carries the number m. */
  ghost predicate Carried(frames: seq<Bytes>, n: nat, m: int)
    requires n <= |frames|
  {
    exists j :: 0 <= j < n && |frames[j]| >= 12 && Number(frames[j]) == m
  }

  /** The chunk of the earliest frame with the number m. */
  ghost predicate IsChunk(frames: seq<Bytes>, n: nat, m: int, chunk: Bytes)
    requires n <= |frames|
  {
    exists j ::
      && 0 <= j < n && |frames[j]| >= 12 && Number(frames[j]) == m && chunk == frames[j][12..]
      && !Carried(frames, j, m)
  }

  function Flat(parts: seq<Bytes>): Bytes {
    if parts == [] then [] else Flat(parts[..|parts| - 1]) + parts[|parts| - 1]
  }

  /** One chunk for every number, in ascending order of the numbers. */
  ghost predicate AreParts(frames: seq<Bytes>, parts: seq<Bytes>)
    requires frames != [] && |frames[0]| >= 12
  {
    && |parts| == Count(frames[0])
    && forall k | 0 <= k < |parts| :: IsChunk(frames, |frames|, k + 1, parts[k])
  }

  ghost predicate AreAbsent(frames: seq<Bytes>, seqs: seq<int>)
    requires frames != [] && |frames[0]| >= 12
  {
    && (forall m :: m in seqs <==> 1 <= m <= Count(frames[0]) && !Carried(frames, |frames|, m))
    && forall j, k | 0 <= j < k < |seqs| :: seqs[j] < seqs[k]
  }

  /** Joining these byte strings gives this result. */
  ghost predicate JoinsTo<D>(codec: Codec<D>, frames: seq<Bytes>, r: Result<D>) {
    if frames == [] then r == Err(NoFrames)
    else if !FitUpTo(frames, |frames|) then r.Err? && exists i :: 0 <= i < |frames| && Fault(frames, i, r.error)
    else if exists m :: 1 <= m <= Count(frames[0]) && !Carried(frames, |frames|, m) then
      r.Err? && r.error.Missing? && AreAbsent(frames, r.error.seqs)
    else
      exists parts ::
        && AreParts(frames, parts)
        && if codec.crc(Flat(parts)) != Sum(frames[0]) then r == Err(CrcMismatch)
           else match codec.inflate(Flat(parts)) { case None => r == Err(InflateFailed) case Some(d) => r == Ok(d) }
  }

  // ----- Reading one frame ------------------------------------------------------------------------

  lemma MarkedIsMagic(f: Bytes)
    requires |f| >= 12
    ensures f[..4] == MAGIC <==> Marked(f)
  {
    if f[..4] == MAGIC {
      assert f[0] == f[..4][0] && f[1] == f[..4][1] && f[2] == f[..4][2] && f[3] == f[..4][3];
    }
  }

  lemma FieldsAre(f: Bytes)
    requires |f| >= 12
    ensures Get16(f[4..]) == Number(f) && Get16(f[6..]) == Count(f) && Get32(f[8..]) == Sum(f)
  {
    assert f[4..][0] == f[4] && f[4..][1] == f[5];
    assert f[6..][0] == f[6] && f[6..][1] == f[7];
    assert f[8..][0] == f[8] && f[8..][1] == f[9] && f[8..][2] == f[10] && f[8..][3] == f[11];
  }

  /** What has been collected from the first n frames, when they all fit. */
  ghost predicate Collected(frames: seq<Bytes>, n: nat, p: Parts)
    requires n <= |frames|
  {
    && FitUpTo(frames, n)
    && (n > 0 ==> p.total == Count(frames[0]) && p.crc == Sum(frames[0]))
    && (forall m :: m in p.chunks <==> Carried(frames, n, m))
    && forall m | m in p.chunks :: IsChunk(frames, n, m, p.chunks[m])
  }

  lemma TakeExactly(frames: seq<Bytes>, n: nat, p: Parts)
    requires n < |frames| && Collected(frames, n, p)
    ensures var r := TakeFrame(p, n, frames[n]);
      if Fits(frames, n) then
        && r.Ok? && r.value.total == Count(frames[0]) && r.value.crc == Sum(frames[0])
        && r.value.chunks == if Number(frames[n]) in p.chunks then p.chunks
                             else p.chunks[Number(frames[n]) := frames[n][12..]]
      else
        r.Err? && Fault(frames, n, r.error)
  {
    hide Carried, IsChunk, Get16, Get32;
    if |frames[n]| >= 12 {
      MarkedIsMagic(frames[n]);
      FieldsAre(frames[n]);
    }
    assert n > 0 ==> Fits(frames, 0);
  }

  lemma GrowCollected(frames: seq<Bytes>, n: nat, p: Parts, q: Parts)
    requires n < |frames| && Collected(frames, n, p) && Fits(frames, n)
    requires q.total == Count(frames[0]) && q.crc == Sum(frames[0])
    requires q.chunks == if Number(frames[n]) in p.chunks then p.chunks
                         else p.chunks[Number(frames[n]) := frames[n][12..]]
    ensures Collected(frames, n + 1, q) && FitUpTo(frames, n + 1)
  {
    var here := Number(frames[n]);
    assert FitUpTo(frames, n + 1);
    forall m
      ensures Carried(frames, n + 1, m) <==> Carried(frames, n, m) || m == here
    {
      CarriedGrows(frames, n, m);
    }
    hide Fits;
    forall m | m in q.chunks
      ensures IsChunk(frames, n + 1, m, q.chunks[m])
    {
      if m !in p.chunks {
        assert !Carried(frames, n, m) && Number(frames[n]) == m && q.chunks[m] == frames[n][12..];
      } else {
        ChunkStays(frames, n, m, p.chunks[m]);
      }
    }
  }

  lemma CarriedGrows(frames: seq<Bytes>, n: nat, m: int)
    requires n < |frames| && |frames[n]| >= 12
    ensures Carried(frames, n + 1, m) <==> Carried(frames, n, m) || m == Number(frames[n])
  {
  }

  lemma ChunkStays(frames: seq<Bytes>, n: nat, m: int, chunk: Bytes)
    requires n < |frames| && IsChunk(frames, n, m, chunk)
    ensures IsChunk(frames, n + 1, m, chunk)
  {
    hide Carried;
    var j :| 0 <= j < n && |frames[j]| >= 12 && Number(frames[j]) == m && chunk == frames[j][12..]
             && !Carried(frames, j, m);
    assert 0 <= j < n + 1;
  }

  lemma {:induction false} CollectExactly(frames: seq<Bytes>, n: nat)
    requires n <= |frames|
    ensures FitUpTo(frames, n) ==> Collect(frames, n).Ok? && Collected(frames, n, Collect(frames, n).value)
    ensures !FitUpTo(frames, n) ==>
              Collect(frames, n).Err? && exists i :: 0 <= i < n && Fault(frames, i, Collect(frames, n).error)
  {
    hide Fits, Fault, TakeFrame, Collected;
    if n == 0 {
      NothingCollected(frames);
    } else {
      CollectExactly(frames, n - 1);
      if FitUpTo(frames, n - 1) {
        var p := Collect(frames, n - 1).value;
        TakeExactly(frames, n - 1, p);
        if Fits(frames, n - 1) {
          GrowCollected(frames, n - 1, p, TakeFrame(p, n - 1, frames[n - 1]).value);
        }
      }
    }
  }

  lemma NothingCollected(frames: seq<Bytes>)
    ensures Collected(frames, 0, Parts(0, 0, map[]))
  {
  }

  // ----- Putting together -------------------------------------------------------------------------

  lemma {:induction false} GatherIsFlat(chunks: map<int, Bytes>, parts: seq<Bytes>)
    requires forall k | 0 <= k < |parts| :: k + 1 in chunks && chunks[k + 1] == parts[k]
    ensures forall k | 1 <= k <= |parts| :: k in chunks
    ensures Gather(chunks, |parts|) == Flat(parts)
  {
    forall k | 1 <= k <= |parts|
      ensures k in chunks
    {
      var part := parts[k - 1];
    }
    if parts != [] {
      GatherIsFlat(chunks, parts[..|parts| - 1]);
    }
  }

  function PartsOf(chunks: map<int, Bytes>, total: nat): (parts: seq<Bytes>)
    requires forall m | 1 <= m <= total :: m in chunks
    ensures |parts| == total && forall k | 0 <= k < total :: parts[k] == chunks[k + 1]
  {
    seq(total, k requires 0 <= k < total => chunks[k + 1])
  }

  lemma AssembleExactly<D>(codec: Codec<D>, frames: seq<Bytes>, p: Parts)
    requires frames != [] && Collected(frames, |frames|, p)
    ensures JoinsTo(codec, frames, Assemble(codec, p))
  {
    hide Absent, Fault, Fits, Carried, IsChunk, Gather, Flat;
    AbsentMeaning(p.chunks, 1, p.total);
    var seqs := Absent(p.chunks, 1, p.total);
    if seqs != [] {
      assert seqs[0] in seqs;
      assert 1 <= seqs[0] <= Count(frames[0]) && !Carried(frames, |frames|, seqs[0]);
    } else {
      NothingAbsent(p.chunks, p.total);
      var parts := PartsOf(p.chunks, p.total);
      GatherIsFlat(p.chunks, parts);
      PartsMeet(frames, p);
    }
  }

  lemma PartsMeet(frames: seq<Bytes>, p: Parts)
    requires frames != [] && Collected(frames, |frames|, p)
    requires forall m | 1 <= m <= p.total :: m in p.chunks
    ensures AreParts(frames, PartsOf(p.chunks, p.total))
    ensures !exists m :: 1 <= m <= Count(frames[0]) && !Carried(frames, |frames|, m)
  {
    hide Fits, Carried, IsChunk;
  }

  lemma JoinMeets<D>(codec: Codec<D>, frames: seq<Bytes>)
    ensures JoinsTo(codec, frames, Join(codec, frames))
  {
    hide Fault, Fits, Carried, IsChunk, Collected, Assemble;
    CollectExactly(frames, |frames|);
    if frames != [] && FitUpTo(frames, |frames|) {
      AssembleExactly(codec, frames, Collect(frames, |frames|).value);
    }
  }

  lemma OneFault(frames: seq<Bytes>, i: nat, j: nat, d: FrameError, e: FrameError)
    requires i < |frames| && j < |frames| && Fault(frames, i, d) && Fault(frames, j, e)
    ensures i == j && d == e
  {
    FaultyFrame(frames, i, d);
    FaultyFrame(frames, j, e);
  }

  lemma FaultyFrame(frames: seq<Bytes>, i: nat, e: FrameError)
    requires i < |frames| && Fault(frames, i, e)
    ensures !Fits(frames, i)
  {
  }

  lemma OneChunk(frames: seq<Bytes>, n: nat, m: int, a: Bytes, b: Bytes)
    requires n <= |frames| && IsChunk(frames, n, m, a) && IsChunk(frames, n, m, b)
    ensures a == b
  {
    var i :| 0 <= i < n && |frames[i]| >= 12 && Number(frames[i]) == m && a == frames[i][12..] && !Carried(frames, i, m);
    var j :| 0 <= j < n && |frames[j]| >= 12 && Number(frames[j]) == m && b == frames[j][12..] && !Carried(frames, j, m);
  }

  lemma OnePayload(frames: seq<Bytes>, a: seq<Bytes>, b: seq<Bytes>)
    requires frames != [] && |frames[0]| >= 12 && AreParts(frames, a) && AreParts(frames, b)
    ensures a == b
  {
    hide IsChunk;
    forall k | 0 <= k < |a|
      ensures a[k] == b[k]
    {
      OneChunk(frames, |frames|, k + 1, a[k], b[k]);
    }
  }

  lemma OneResult<D>(codec: Codec<D>, frames: seq<Bytes>, a: Result<D>, b: Result<D>)
    requires JoinsTo(codec, frames, a) && JoinsTo(codec, frames, b)
    ensures a == b
  {
    hide Fault, Fits, Carried, IsChunk, Flat, AreParts;
    if frames == [] {
    } else if !FitUpTo(frames, |frames|) {
      var i :| 0 <= i < |frames| && Fault(frames, i, a.error);
      var j :| 0 <= j < |frames| && Fault(frames, j, b.error);
      OneFault(frames, i, j, a.error, b.error);
    } else if exists m :: 1 <= m <= Count(frames[0]) && !Carried(frames, |frames|, m) {
      AscendingUnique(a.error.seqs, b.error.seqs);
    } else {
      forall p, q | AreParts(frames, p) && AreParts(frames, q)
        ensures p == q
      {
        OnePayload(frames, p, q);
      }
    }
  }

  /**
   * Joining any list of byte strings: the result is the one listed for it and no other. All frames fit the
   * first, every number is carried, the first chunks in order have the stated checksum and inflate; or else
   * the first frame that does not fit is named with what is wrong, or the absent numbers are.
   */
  lemma JoinExactly<D>(codec: Codec<D>, frames: seq<Bytes>, r: Result<D>)
    ensures Join(codec, frames) == r <==> JoinsTo(codec, frames, r)
  {
    hide JoinsTo;
    JoinMeets(codec, frames);
    if JoinsTo(codec, frames, r) {
      OneResult(codec, frames, r, Join(codec, frames));
    }
  }

  // ----- Splitting, byte by byte --------------------------------------------------------------------

  /** The chunks of these frames, one after the other. */
  function Chunks(frames: seq<Bytes>): (parts: seq<Bytes>)
    requires forall i | 0 <= i < |frames| :: |frames[i]| >= 12
    ensures |parts| == |frames|
  {
    seq(|frames|, i requires 0 <= i < |frames| => frames[i][12..])
  }

  lemma FrameBytes(payload: Bytes, chunk: nat, crc: Word, i: nat)
    requires chunk > 0 && 1 <= i <= Total(|payload|, chunk) <= MAX_FRAMES
    ensures var f := Frame(payload, chunk, crc, i);
      && InOrder(f) && Number(f) == i && Count(f) == Total(|payload|, chunk) && Sum(f) == crc
      && f[12..] == Slice(payload, chunk, i)
  {
    ReadFrame(payload, chunk, crc, i);
    var f := Frame(payload, chunk, crc, i);
    hide Frame, Slice, Total, Get16, Get32;
    MarkedIsMagic(f);
    FieldsAre(f);
  }

  lemma SliceSize(payload: Bytes, chunk: nat, i: nat)
    requires chunk > 0 && 1 <= i <= Total(|payload|, chunk)
    ensures i < Total(|payload|, chunk) ==> |Slice(payload, chunk, i)| == chunk
    ensures |Slice(payload, chunk, i)| <= chunk
    ensures payload != [] ==> Slice(payload, chunk, i) != []
  {
    SliceFits(payload, chunk, i);
    TotalIsCeiling(|payload|, chunk);
    var total := Total(|payload|, chunk);
    OneIfEmpty(payload, chunk);
    hide Slice, Total;
    Distribute(i, chunk);
    if i < total {
      TimesMonotone(i, total - 1, chunk);
    }
  }

  lemma OneIfEmpty(payload: Bytes, chunk: nat)
    requires chunk > 0
    ensures payload == [] ==> Total(|payload|, chunk) == 1
  {
    assert payload == [] ==> (chunk - 1) / chunk == 0;
  }

  /**
   * The frames of a split: "JSI1", the number, how many there are and the checksum, each big-endian, and
   * then the payload in pieces of the chosen size, the last one no longer.
   */
  lemma SplitBytes(payload: Bytes, chunk: nat, crc: Word, frames: seq<Bytes>)
    requires chunk > 0 && IsSplit(payload, chunk, crc, frames)
    ensures frames != []
    ensures forall i: nat | i < |frames| ::
      && InOrder(frames[i]) && Number(frames[i]) == i + 1 && Count(frames[i]) == |frames| && Sum(frames[i]) == crc
      && |frames[i]| <= 12 + chunk
      && (i + 1 < |frames| ==> |frames[i]| == 12 + chunk)
      && (payload != [] ==> |frames[i]| > 12)
    ensures Flat(Chunks(frames)) == payload
  {
    hide Frame, Slice, Total;
    forall i: nat | i < |frames|
      ensures InOrder(frames[i]) && Number(frames[i]) == i + 1 && Count(frames[i]) == |frames| && Sum(frames[i]) == crc
      ensures |frames[i]| == 12 + |Slice(payload, chunk, i + 1)| && frames[i][12..] == Slice(payload, chunk, i + 1)
    {
      FrameBytes(payload, chunk, crc, i + 1);
    }
    forall i: nat | i < |frames|
      ensures |frames[i]| <= 12 + chunk
      ensures i + 1 < |frames| ==> |frames[i]| == 12 + chunk
      ensures payload != [] ==> |frames[i]| > 12
    {
      SliceSize(payload, chunk, i + 1);
    }
    ChunksJoin(payload, chunk, frames);
  }

  function ChunkAt(frames: seq<Bytes>, m: int): Bytes
    requires 1 <= m <= |frames| && |frames[m - 1]| >= 12
  {
    frames[m - 1][12..]
  }

  lemma ChunksJoin(payload: Bytes, chunk: nat, frames: seq<Bytes>)
    requires chunk > 0 && |frames| == Total(|payload|, chunk)
    requires forall i | 0 <= i < |frames| :: |frames[i]| >= 12 && frames[i][12..] == Slice(payload, chunk, i + 1)
    ensures Flat(Chunks(frames)) == payload
  {
    hide Slice, Total;
    var chunks := map m: int | 1 <= m <= |frames| :: ChunkAt(frames, m);
    GatherIsFlat(chunks, Chunks(frames));
    WholePayload(payload, chunk, chunks);
  }

  /** The size used when none is given. */
  lemma DefaultChunk(chunkSize: int)
    ensures ChunkOf(chunkSize) == if chunkSize <= 0 then 400 else chunkSize
  {
  }
}
