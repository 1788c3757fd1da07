/**
 * The browser's send as a peer of the Go receiver (pwa/src/rtc/transfer.ts): its inbox, its splitting of
 * reads into chunks, and the messages it emits on a run that it completes.
 */
module Browser {
  import opened Protocol
  import opened Directory
  import opened Acceptance
  import opened Session
  import opened Recogniser
  import opened ReceiverReplies
  import R = Receiver
  import RS = ReceiverSafety
  import JointLink

  // ----- The inbox ------------------------------------------------------------------------------

  datatype NextResult = Got(m: Msg) | Waits | PeerGone

  /** A queue, at most one waiting reader, and a closed flag. */
  class Inbox {
    var queue: seq<Msg>
    var waiter: bool
    var closed: bool

    ghost var arrived: seq<Msg>
    ghost var delivered: seq<Msg>

    /** Everything accepted has been delivered or is queued, in order; a reader waits only on an empty queue. */
    ghost predicate Valid()
      reads this
    {
      arrived == delivered + queue && (waiter ==> queue == []) && (closed ==> !waiter)
    }

    constructor ()
      ensures Valid() && arrived == [] && delivered == [] && !waiter && !closed
    {
      queue, waiter, closed, arrived, delivered := [], false, false, [], [];
    }

    /** onmessage and inject: to the waiting reader if there is one. Malformed text is ignored. */
    method Accept(m: Msg)
      requires Valid()
      modifies this
      ensures Valid() && closed == old(closed)
      ensures if closed || m.Malformed? then
          arrived == old(arrived) && delivered == old(delivered) && waiter == old(waiter)
        else
          arrived == old(arrived) + [m] && !waiter
          && delivered == if old(waiter) then old(delivered) + [m] else old(delivered)
    {
      if closed {
        return;
      }
      if m.Malformed? {
        return;
      }
      arrived := arrived + [m];
      if waiter {
        delivered := delivered + [m];
        waiter := false;
      } else {
        queue := queue + [m];
      }
    }

    /** next: the head of the queue; with nothing queued, wait, or report the close. */
    method Next() returns (r: NextResult)
      requires Valid() && !waiter
      modifies this
      ensures Valid() && arrived == old(arrived) && closed == old(closed)
      ensures r.Got? ==> delivered == old(delivered) + [r.m] && !waiter
      ensures !r.Got? ==> delivered == old(delivered) == arrived
      ensures r.PeerGone? ==> closed && !waiter
      ensures r.Waits? ==> !closed && waiter
    {
      if |queue| > 0 {
        var m := queue[0];
        queue := queue[1..];
        delivered := delivered + [m];
        return Got(m);
      }
      if closed {
        return PeerGone;
      }
      waiter := true;
      return Waits;
    }

    /** onclose: a waiting reader is woken with a cancel. */
    method OnClose() returns (cancelled: bool)
      requires Valid()
      modifies this
      ensures Valid() && closed && !waiter && cancelled == old(waiter)
      ensures arrived == old(arrived) && delivered == old(delivered) && queue == old(queue)
    {
      closed := true;
      cancelled := waiter;
      waiter := false;
    }
  }

  // ----- Splitting reads ----------------------------------------------------------------------------

  /** One read cut into pieces of at most a chunk. */
  function Pieces(value: Bytes): (pieces: seq<Bytes>)
    decreases |value|
  {
    if value == [] then []
    else if |value| <= CHUNK_SIZE then [value]
    else [value[..CHUNK_SIZE]] + Pieces(value[CHUNK_SIZE..])
  }

  function AllPieces(values: seq<Bytes>): seq<Bytes> {
    if values == [] then [] else AllPieces(values[..|values| - 1]) + Pieces(values[|values| - 1])
  }

  ghost predicate ChunkSized(pieces: seq<Bytes>) {
    forall i | 0 <= i < |pieces| :: 1 <= |pieces[i]| <= CHUNK_SIZE
  }

  lemma {:induction false} ConcatSplits(a: seq<Bytes>, b: seq<Bytes>)
    ensures Concat(a + b) == Concat(a) + Concat(b)
  {
    if a == [] {
      assert a + b == b;
    } else {
      assert (a + b)[1..] == a[1..] + b;
      ConcatSplits(a[1..], b);
    }
  }

  lemma ConcatOne(d: Bytes)
    ensures Concat([d]) == d
  {
    assert [d][1..] == [];
  }

  lemma {:induction false} PiecesOfRead(value: Bytes)
    ensures ChunkSized(Pieces(value)) && Concat(Pieces(value)) == value
    decreases |value|
  {
    if value != [] && |value| <= CHUNK_SIZE {
      ConcatOne(value);
    } else if |value| > CHUNK_SIZE {
      var rest := value[CHUNK_SIZE..];
      PiecesOfRead(rest);
      assert Pieces(value)[1..] == Pieces(rest);
      assert value == value[..CHUNK_SIZE] + rest;
    }
  }

  /** However the blob is read, the chunks have 1 to 16384 bytes and make up the reads. */
  lemma {:induction false} PiecesOfAll(values: seq<Bytes>)
    ensures ChunkSized(AllPieces(values)) && Concat(AllPieces(values)) == Concat(values)
  {
    if values != [] {
      var front, last := values[..|values| - 1], values[|values| - 1];
      PiecesOfAll(front);
      PiecesOfRead(last);
      assert AllPieces(values) == AllPieces(front) + Pieces(last);
      assert values == front + [last];
      hide AllPieces, Pieces, Concat;
      ConcatSplits(AllPieces(front), Pieces(last));
      ConcatOne(last);
      ConcatSplits(front, [last]);
      ChunkSizedConcat(AllPieces(front), Pieces(last));
    }
  }

  lemma ChunkSizedConcat(a: seq<Bytes>, b: seq<Bytes>)
    requires ChunkSized(a) && ChunkSized(b)
    ensures ChunkSized(a + b)
  {
  }

  /** The inner loop: offsets in steps of a chunk. */
  method SplitRead(value: Bytes) returns (pieces: seq<Bytes>)
    ensures pieces == Pieces(value)
  {
    pieces := [];
    var off := 0;
    while off < |value|
      invariant 0 <= off && (off <= |value| || pieces == Pieces(value))
      invariant off <= |value| ==> pieces + Pieces(value[off..]) == Pieces(value)
    {
      var end := if off + CHUNK_SIZE < |value| then off + CHUNK_SIZE else |value|;
      OnePiece(value, off, end);
      assert pieces + ([value[off..end]] + Pieces(value[end..])) == pieces + [value[off..end]] + Pieces(value[end..]);
      pieces := pieces + [value[off..end]];
      off := off + CHUNK_SIZE;
      assert end == |value| ==> Pieces(value[end..]) == [];
    }
    assert off == |value| ==> Pieces(value[off..]) == [];
  }

  lemma OnePiece(value: Bytes, off: nat, end: nat)
    requires off < |value| && end == if off + CHUNK_SIZE < |value| then off + CHUNK_SIZE else |value|
    ensures Pieces(value[off..]) == [value[off..end]] + Pieces(value[end..])
  {
    var rest := value[off..];
    if |rest| <= CHUNK_SIZE {
      assert value[off..end] == rest && value[end..] == [];
    } else {
      assert rest[CHUNK_SIZE..] == value[end..] && rest[..CHUNK_SIZE] == value[off..end];
    }
  }

  // ----- send ---------------------------------------------------------------------------------------

  /** A file as the page has it: the blob comes in reads of any size. */
  datatype File = File(name: string, size: int, values: seq<Bytes>)

  predicate Named(files: seq<File>) {
    forall i | 0 <= i < |files| :: BrowserSanitize(files[i].name).NameOk?
  }

  function Metas(files: seq<File>): (metas: seq<FileMeta>)
    requires Named(files)
    ensures |metas| == |files|
    ensures forall i | 0 <= i < |files| ::
      metas[i] == FileMeta(i, BrowserSanitize(files[i].name).name, files[i].size)
  {
    seq(|files|, i requires 0 <= i < |files| =>
      FileMeta(i, BrowserSanitize(files[i].name).name, files[i].size))
  }

  /** The messages for one file. */
  function FileMessages(sha: Bytes -> string, id: int, file: File): seq<Msg> {
    [Text(FileStart(id))] + Binaries(AllPieces(file.values)) + [Text(FileEnd(id, sha(Concat(file.values))))]
  }

  function Binaries(pieces: seq<Bytes>): (msgs: seq<Msg>)
    ensures |msgs| == |pieces|
  {
    seq(|pieces|, i requires 0 <= i < |pieces| => Binary(pieces[i]))
  }

  /** The messages for the first n of the accepted ids. */
  function Blocks(sha: Bytes -> string, files: seq<File>, ids: seq<int>, n: nat): seq<Msg>
    requires n <= |ids| && InRange(ids, |files|)
  {
    if n == 0 then [] else Blocks(sha, files, ids, n - 1) + FileMessages(sha, ids[n - 1], files[ids[n - 1]])
  }

  function Opening(files: seq<File>): seq<Msg>
    requires Named(files)
  {
    [Text(Hello(VERSION)), Text(Manifest(Metas(files)))]
  }

  function AcceptedIds(wire: seq<int>, n: nat): seq<int> {
    if wire != [] then wire else UpTo(n)
  }

  datatype SendResult =
    Completed | Rejected | ProtocolFault | HashMismatch | BadName | BadId | Aborted | NotYet

  /** What one turn of the loop over reads meets: nothing, the abort signal, or the signal while the buffer is full. */
  datatype Turn = Goes | SeesAbort | AbortsWhileFull

  /** The abort signal: per file and turn of its loop, and per wait on an empty inbox (the reply is wait 0). */
  datatype Signal = Signal(turn: (nat, nat) -> Turn, waiting: nat -> bool)

  predicate IsHello(m: Msg) {
    m.Text? && m.control.Hello?
  }

  /** Position a is the first message that is no hello. */
  ghost predicate FirstReply(ins: seq<Msg>, a: nat) {
    && a <= |ins|
    && (forall i | 0 <= i < a :: IsHello(ins[i]))
    && (a < |ins| ==> !IsHello(ins[a]))
  }

  /** Skips the receiver's hello, which may have been buffered. */
  method WaitReply(ins: seq<Msg>) returns (a: nat)
    ensures FirstReply(ins, a)
  {
    a := 0;
    while a < |ins| && IsHello(ins[a])
      invariant a <= |ins| && forall i | 0 <= i < a :: IsHello(ins[i])
    {
      a := a + 1;
    }
  }

  method BuildManifest(files: seq<File>) returns (metas: Option<seq<FileMeta>>)
    ensures metas.Some? <==> forall i | 0 <= i < |files| :: BrowserSanitize(files[i].name).NameOk?
    ensures metas.Some? ==>
      && |metas.value| == |files|
      && forall i | 0 <= i < |files| ::
           && BrowserSanitize(files[i].name) == NameOk(metas.value[i].name)
           && metas.value[i].id == i && metas.value[i].size == files[i].size
    ensures metas == if Named(files) then Some(Metas(files)) else None
  {
    hide BrowserSanitize;
    var built: seq<FileMeta> := [];
    for i := 0 to |files|
      invariant |built| == i
      invariant forall j | 0 <= j < i :: BrowserSanitize(files[j].name).NameOk?
      invariant forall j | 0 <= j < i ::
        built[j] == FileMeta(j, BrowserSanitize(files[j].name).name, files[j].size)
    {
      var name := BrowserSanitize(files[i].name);
      if !name.NameOk? {
        return None;
      }
      built := built + [FileMeta(i, name.name, files[i].size)];
    }
    assert built == Metas(files);
    return Some(built);
  }

  /** The loop for the n-th accepted file reads to the end. */
  ghost predicate ReadsAll(signal: Signal, n: nat, file: File) {
    forall i: nat | i <= |file.values| :: signal.turn(n, i).Goes?
  }

  /** Its m-th turn is the first that does not go on. */
  ghost predicate StopsAt(signal: Signal, n: nat, file: File, m: nat) {
    m <= |file.values| && !signal.turn(n, m).Goes? && forall i: nat | i < m :: signal.turn(n, i).Goes?
  }

  /** The messages for a file whose loop stopped at turn m: a cancel only when the signal was seen at its head. */
  function PartOfFile(signal: Signal, n: nat, id: int, file: File, m: nat): seq<Msg>
    requires m <= |file.values|
  {
    [Text(FileStart(id))] + Binaries(AllPieces(file.values[..m]))
    + (if signal.turn(n, m).SeesAbort? then [Text(Cancel)] else [])
  }

  /** The loop over reads: check the signal, wait for room, read, hash, split, send. */
  method SendBody(sha: Bytes -> string, signal: Signal, n: nat, id: int, file: File)
    returns (aborted: bool, out: seq<Msg>, ghost m: nat)
    ensures !aborted ==> ReadsAll(signal, n, file) && out == FileMessages(sha, id, file)
    ensures aborted ==> StopsAt(signal, n, file, m) && out == PartOfFile(signal, n, id, file, m)
  {
    hide AllPieces, Concat, Pieces, Binaries;
    NothingRead(file.values);
    var sent: seq<Bytes> := [];
    var hashed: Bytes := [];
    var i := 0;
    while true
      invariant i <= |file.values| && forall j: nat | j < i :: signal.turn(n, j).Goes?
      invariant sent == AllPieces(file.values[..i]) && hashed == Concat(file.values[..i])
      decreases |file.values| - i
    {
      out, m := [Text(FileStart(id))] + Binaries(sent), i;
      if signal.turn(n, i).SeesAbort? {
        return true, out + [Text(Cancel)], m;
      }
      if signal.turn(n, i).AbortsWhileFull? {
        assert out + [] == out;
        return true, out, m;
      }
      if i == |file.values| {
        break;
      }
      var value := file.values[i];
      ReadOneMore(file.values, i);
      hashed := hashed + value;
      var pieces := SplitRead(value);
      sent := sent + pieces;
      i := i + 1;
    }
    assert file.values[..|file.values|] == file.values;
    return false, out + [Text(FileEnd(id, sha(hashed)))], m;
  }

  lemma NothingRead(values: seq<Bytes>)
    ensures AllPieces(values[..0]) == [] && Concat(values[..0]) == []
  {
    assert values[..0] == [];
  }

  lemma ReadOneMore(values: seq<Bytes>, i: nat)
    requires i < |values|
    ensures AllPieces(values[..i + 1]) == AllPieces(values[..i]) + Pieces(values[i])
    ensures Concat(values[..i + 1]) == Concat(values[..i]) + values[i]
  {
    assert values[..i + 1][..i] == values[..i];
    assert values[..i + 1] == values[..i] + [values[i]];
    ConcatSplits(values[..i], [values[i]]);
    ConcatOne(values[i]);
  }

  /** The acknowledgements from position a on are no complaints. */
  ghost predicate Acked(ins: seq<Msg>, a: nat, n: nat) {
    && a + n <= |ins|
    && forall i | a <= i < a + n ::
         ins[i].Text? && ins[i].control.FileAck? && !ins[i].control.status.StatusHashMismatch?
  }

  /** The first k files have been read to the end and sent. */
  ghost predicate SentWhole(
    sha: Bytes -> string, files: seq<File>, ids: seq<int>, signal: Signal, k: nat, out: seq<Msg>)
  {
    && k <= |ids| && InRange(ids[..k], |files|)
    && (forall n: nat | n < k :: ReadsAll(signal, n, files[ids[n]]))
    && out == Blocks(sha, files, ids[..k], k)
  }

  predicate IsAck(m: Msg) {
    m.Text? && m.control.FileAck?
  }

  /** How the loop over the accepted ids ends, after how many files, and what it has sent. */
  ghost predicate FilesOutcome(
    sha: Bytes -> string, files: seq<File>, ids: seq<int>, ins: seq<Msg>, from: nat, signal: Signal,
    r: SendResult, k: nat, out: seq<Msg>)
    requires from <= |ins|
  {
    match r
    case Completed => k == |ids| && Acked(ins, from, k) && SentWhole(sha, files, ids, signal, k, out)
    case BadId =>
      Acked(ins, from, k) && SentWhole(sha, files, ids, signal, k, out) && k < |ids| && !(0 <= ids[k] < |files|)
    case NotYet =>
      && k > 0 && Acked(ins, from, k - 1) && SentWhole(sha, files, ids, signal, k, out)
      && from + k - 1 == |ins| && !signal.waiting(k)
    case ProtocolFault =>
      && k > 0 && Acked(ins, from, k - 1) && SentWhole(sha, files, ids, signal, k, out)
      && from + k - 1 < |ins| && !IsAck(ins[from + k - 1])
    case HashMismatch =>
      && k > 0 && Acked(ins, from, k - 1) && SentWhole(sha, files, ids, signal, k, out)
      && from + k - 1 < |ins| && IsAck(ins[from + k - 1]) && ins[from + k - 1].control.status.StatusHashMismatch?
    case Aborted =>
      || (k > 0 && Acked(ins, from, k - 1) && SentWhole(sha, files, ids, signal, k, out)
          && from + k - 1 == |ins| && signal.waiting(k))
      || (Acked(ins, from, k) && k < |ids| && 0 <= ids[k] < |files|
          && exists m: nat, whole :: StopsAt(signal, k, files[ids[k]], m) && SentWhole(sha, files, ids, signal, k, whole)
               && out == whole + PartOfFile(signal, k, ids[k], files[ids[k]], m))
    case _ => false
  }

  /** The loop over the accepted ids, each followed by the wait for its ack. */
  method SendFiles(
    sha: Bytes -> string, files: seq<File>, ids: seq<int>, ins: seq<Msg>, from: nat, signal: Signal)
    returns (r: SendResult, out: seq<Msg>, k: nat)
    requires from <= |ins|
    ensures FilesOutcome(sha, files, ids, ins, from, signal, r, k, out)
  {
    hide FileMessages, ReadsAll, PartOfFile;
    out, k := [], 0;
    for n := 0 to |ids|
      invariant k == n && SentWhole(sha, files, ids, signal, n, out) && Acked(ins, from, n)
    {
      if ids[n] < 0 || ids[n] >= |files| {
        return BadId, out, k;
      }
      BlocksOfPrefix(sha, files, ids[..n], ids[..n + 1], n);
      var aborted, body;
      ghost var m;
      aborted, body, m := SendBody(sha, signal, n, ids[n], files[ids[n]]);
      if aborted {
        return Aborted, out + body, k;
      }
      out := out + body;
      k := n + 1;
      if from + n == |ins| {
        return if signal.waiting(k) then Aborted else NotYet, out, k;
      }
      var ack := ins[from + n];
      if !(ack.Text? && ack.control.FileAck?) {
        return ProtocolFault, out, k;
      }
      if ack.control.status.StatusHashMismatch? {
        return HashMismatch, out, k;
      }
    }
    return Completed, out, k;
  }

  /** What send took from its inbox on a completed run: hellos, an accept, and an ack per file. */
  ghost predicate Answered(ins: seq<Msg>, a: nat, wire: seq<int>, n: nat) {
    && a < |ins| && ins[a] == Text(Accept(wire)) && Acked(ins, a + 1, n)
    && forall i | 0 <= i < a :: IsHello(ins[i])
  }

  /** Everything send puts on the channel on a run in which the receiver asked for wire. */
  function Emission(sha: Bytes -> string, files: seq<File>, wire: seq<int>): seq<Msg>
    requires Named(files) && InRange(AcceptedIds(wire, |files|), |files|)
  {
    var ids := AcceptedIds(wire, |files|);
    Opening(files) + Blocks(sha, files, ids, |ids|) + [Text(Done)]
  }

  /** The answers ins, with the accept at position a, are those of a completed run that emits out. */
  ghost predicate CompletedRun(
    sha: Bytes -> string, files: seq<File>, ins: seq<Msg>, a: nat, wire: seq<int>, out: seq<Msg>)
  {
    && Named(files) && InRange(AcceptedIds(wire, |files|), |files|)
    && Answered(ins, a, wire, |AcceptedIds(wire, |files|)|)
    && out == Emission(sha, files, wire)
  }

  /** How send ends on the answers ins, whose first message that is no hello is at position a. */
  ghost predicate SendOutcome(
    sha: Bytes -> string, files: seq<File>, ins: seq<Msg>, signal: Signal, a: nat, k: nat, r: SendResult, out: seq<Msg>)
    requires FirstReply(ins, a)
  {
    if !Named(files) then r == BadName && out == [Text(Hello(VERSION))]
    else if a == |ins| then r == (if signal.waiting(0) then Aborted else NotYet) && out == Opening(files)
    else if ins[a] == Text(Reject) then r == Rejected && out == Opening(files)
    else if !(ins[a].Text? && ins[a].control.Accept?) then r == ProtocolFault && out == Opening(files)
    else
      var ids := AcceptedIds(ins[a].control.ids, |files|);
      exists body ::
        && FilesOutcome(sha, files, ids, ins, a + 1, signal, r, k, body)
        && out == Opening(files) + body + (if r.Completed? then [Text(Done)] else [])
  }

  /** send, with the messages its inbox yields and the abort signal. */
  method Send(sha: Bytes -> string, files: seq<File>, ins: seq<Msg>, signal: Signal)
    returns (r: SendResult, out: seq<Msg>, a: nat, k: nat)
    ensures FirstReply(ins, a) && SendOutcome(sha, files, ins, signal, a, k, r, out)
    ensures r.Completed? ==>
      a < |ins| && ins[a].Text? && ins[a].control.Accept? && CompletedRun(sha, files, ins, a, ins[a].control.ids, out)
  {
    hide Metas, Blocks, FilesOutcome, CompletedRun;
    k := 0;
    out := [Text(Hello(VERSION))];
    a := WaitReply(ins);
    var metas := BuildManifest(files);
    if metas.None? {
      return BadName, out, a, k;
    }
    out := out + [Text(Manifest(metas.value))];
    assert out == Opening(files);
    if a == |ins| {
      return if signal.waiting(0) then Aborted else NotYet, out, a, k;
    }
    var reply := ins[a];
    if reply == Text(Reject) {
      return Rejected, out, a, k;
    }
    if !(reply.Text? && reply.control.Accept?) {
      return ProtocolFault, out, a, k;
    }
    var ids := if |reply.control.ids| > 0 then reply.control.ids else UpTo(|files|);
    var body;
    r, body, k := SendFiles(sha, files, ids, ins, a + 1, signal);
    hide Opening;
    out := out + body;
    if r.Completed? {
      out := out + [Text(Done)];
      CompletedFiles(sha, files, ids, ins, a + 1, signal, k, body);
      CompletedSend(sha, files, ins, a, ids, body, out);
    } else {
      assert out == Opening(files) + body + [];
    }
    assert ids == AcceptedIds(ins[a].control.ids, |files|);
  }

  lemma CompletedSend(
    sha: Bytes -> string, files: seq<File>, ins: seq<Msg>, a: nat, ids: seq<int>, body: seq<Msg>, out: seq<Msg>)
    requires Named(files) && a < |ins| && ins[a].Text? && ins[a].control.Accept?
    requires (forall i | 0 <= i < a :: IsHello(ins[i])) && ids == AcceptedIds(ins[a].control.ids, |files|)
    requires InRange(ids, |files|) && Acked(ins, a + 1, |ids|) && body == Blocks(sha, files, ids, |ids|)
    requires out == Opening(files) + body + [Text(Done)]
    ensures CompletedRun(sha, files, ins, a, ins[a].control.ids, out)
  {
    hide Blocks, Opening, Named, AcceptedIds;
  }

  lemma CompletedFiles(
    sha: Bytes -> string, files: seq<File>, ids: seq<int>, ins: seq<Msg>, from: nat, signal: Signal, k: nat, out: seq<Msg>)
    requires from <= |ins| && FilesOutcome(sha, files, ids, ins, from, signal, Completed, k, out)
    ensures InRange(ids, |files|) && Acked(ins, from, |ids|) && out == Blocks(sha, files, ids, |ids|)
  {
    hide Blocks;
    assert ids[..k] == ids;
  }

  lemma {:induction false} BlocksOfPrefix(sha: Bytes -> string, files: seq<File>, a: seq<int>, b: seq<int>, n: nat)
    requires n <= |a| && a <= b && InRange(a, |files|) && InRange(b, |files|)
    ensures Blocks(sha, files, a, n) == Blocks(sha, files, b, n)
  {
    if n > 0 {
      BlocksOfPrefix(sha, files, a, b, n - 1);
    }
  }

  // ----- Against a Go receiver ------------------------------------------------------------------------

  /** What one file's messages can do to a receiver between files, or one that has ended. */
  ghost predicate BlockEffect(r: R.State, f: R.State, id: int, data: Bytes)
    requires R.WellFormed(r) && R.WellFormed(f)
  {
    || (f.kept == r.kept && f.phase.Returned?)
    || (|f.kept| == |r.kept| + 1 && f.kept[..|r.kept|] == r.kept && f.kept[|r.kept|].data == data
        && f.ids == r.ids && f.files == r.files && r.phase.AwaitStart? && |r.kept| < |r.ids|
        && id == r.ids[|r.kept|]
        && f.phase == if |f.kept| == |f.ids| then R.AwaitDone else R.AwaitStart)
  }

  lemma StartEffect(cfg: R.Config, r: R.State, id: int, f: R.State)
    requires R.WellFormed(r) && (r.phase.AwaitStart? || r.phase.Returned? || r.phase.AwaitDone?)
    requires f == R.Step(cfg, r, Message(Text(FileStart(id))), OK)
    ensures f.kept == r.kept && f.ids == r.ids && f.files == r.files
    ensures f.phase.Returned?
      || (r.phase.AwaitStart? && f.phase.InBody? && f.written == [] && id == r.ids[|r.kept|])
  {
    hide Sanitize, Dest, R.ById;
  }

  lemma {:induction false} ChunksEffect(cfg: R.Config, r: R.State, pieces: seq<Bytes>, f: R.State)
    requires R.WellFormed(r) && (r.phase.InBody? || r.phase.Returned?)
    requires f == Feed(cfg, r, Binaries(pieces))
    ensures f.kept == r.kept && f.ids == r.ids && f.files == r.files
    ensures f.phase.Returned? || (r.phase.InBody? && f.phase.InBody? && f.written == r.written + Concat(pieces))
    decreases |pieces|
  {
    hide R.WellFormed, R.ById;
    if pieces != [] {
      var r' := R.Step(cfg, r, Message(Binary(pieces[0])), OK);
      assert Binaries(pieces)[1..] == Binaries(pieces[1..]);
      ChunkEffect(cfg, r, pieces[0], r');
      hide R.Step;
      ChunksEffect(cfg, r', pieces[1..], f);
      assert Concat(pieces) == pieces[0] + Concat(pieces[1..]);
      assert r.written + pieces[0] + Concat(pieces[1..]) == r.written + (pieces[0] + Concat(pieces[1..]));
    }
  }

  lemma ChunkEffect(cfg: R.Config, r: R.State, d: Bytes, f: R.State)
    requires R.WellFormed(r) && (r.phase.InBody? || r.phase.Returned?)
    requires f == R.Step(cfg, r, Message(Binary(d)), OK)
    ensures f.kept == r.kept && f.ids == r.ids && f.files == r.files
    ensures f.phase.Returned? || (r.phase.InBody? && f.phase.InBody? && f.written == r.written + d)
  {
    hide R.ById;
  }

  lemma EndEffect(cfg: R.Config, r: R.State, id: int, sha256: string, f: R.State)
    requires R.WellFormed(r) && ((r.phase.InBody? && id == r.ids[|r.kept|]) || r.phase.Returned?)
    requires f == R.Step(cfg, r, Message(Text(FileEnd(id, sha256))), OK)
    ensures BlockEffect(r.(phase := if r.phase.InBody? then R.AwaitStart else r.phase), f, id, r.written)
  {
    hide R.ById, EqualFold;
  }

  lemma FileEffect(cfg: R.Config, r: R.State, id: int, file: File, f: R.State)
    requires R.WellFormed(r) && (r.phase.AwaitStart? || r.phase.Returned? || r.phase.AwaitDone?)
    requires f == Feed(cfg, r, FileMessages(cfg.sha, id, file))
    ensures BlockEffect(r, f, id, Concat(file.values))
  {
    hide R.WellFormed, R.Step;
    var begin := Text(FileStart(id));
    var pieces := AllPieces(file.values);
    var end := Text(FileEnd(id, cfg.sha(Concat(file.values))));
    PiecesOfAll(file.values);
    FeedOne(cfg, r, begin);
    var r1 := Feed(cfg, r, [begin]);
    StartEffect(cfg, r, id, r1);
    FeedConcat(cfg, r, [begin], Binaries(pieces));
    var r2 := Feed(cfg, r1, Binaries(pieces));
    ChunksEffect(cfg, r1, pieces, r2);
    FeedConcat(cfg, r, [begin] + Binaries(pieces), [end]);
    FeedOne(cfg, r2, end);
    assert f == Feed(cfg, r2, [end]);
    hide Feed;
    EndEffect(cfg, r2, id, cfg.sha(Concat(file.values)), f);
  }

  /** The kept files are the first of the given ones, with their bytes. */
  ghost predicate KeptAre(files: seq<File>, ids: seq<int>, f: R.State)
    requires InRange(ids, |files|)
  {
    && |f.kept| <= |ids| && |f.kept| <= |f.ids|
    && forall i | 0 <= i < |f.kept| :: f.ids[i] == ids[i] && f.kept[i].data == Concat(files[ids[i]].values)
  }

  /** After n files the receiver has kept at most n; if exactly n, they are these and it goes on. */
  ghost predicate Progressed(r: R.State, files: seq<File>, ids: seq<int>, n: nat, f: R.State)
    requires n <= |ids| && InRange(ids, |files|)
  {
    && |f.kept| <= n
    && (f.phase.Returned? || (|f.kept| == n && (f.phase.AwaitStart? || f.phase.AwaitDone?)))
    && (|f.kept| == n > 0 ==>
          && KeptAre(files, ids, f) && f.ids == r.ids && f.files == r.files
          && f.phase == if |f.kept| == |f.ids| then R.AwaitDone else R.AwaitStart)
  }

  lemma OneMoreFile(r: R.State, files: seq<File>, ids: seq<int>, n: nat, front: R.State, f: R.State)
    requires 0 < n <= |ids| && InRange(ids, |files|) && Progressed(r, files, ids, n - 1, front)
    requires n == 1 ==> front.kept == [] && front.ids == r.ids && front.files == r.files
    requires R.WellFormed(front) && R.WellFormed(f)
    requires BlockEffect(front, f, ids[n - 1], Concat(files[ids[n - 1]].values))
    ensures Progressed(r, files, ids, n, f)
  {
    hide R.WellFormed, Concat;
    if |f.kept| == n {
      forall i | 0 <= i < n
        ensures f.ids[i] == ids[i] && f.kept[i].data == Concat(files[ids[i]].values)
      {
        if i < n - 1 {
          assert f.kept[i] == f.kept[..n - 1][i];
        }
      }
    }
  }

  lemma {:induction false} BlocksEffect(
    cfg: R.Config, r: R.State, files: seq<File>, ids: seq<int>, n: nat, f: R.State)
    requires R.WellFormed(r) && (r.phase.AwaitStart? || r.phase.Returned?) && r.kept == []
    requires n <= |ids| && InRange(ids, |files|)
    requires f == Feed(cfg, r, Blocks(cfg.sha, files, ids, n))
    ensures R.WellFormed(f) && Progressed(r, files, ids, n, f)
    ensures n == 0 ==> f == r
  {
    hide R.WellFormed, FileMessages;
    if n > 0 {
      hide Progressed;
      var front := Feed(cfg, r, Blocks(cfg.sha, files, ids, n - 1));
      BlocksEffect(cfg, r, files, ids, n - 1, front);
      FeedConcat(cfg, r, Blocks(cfg.sha, files, ids, n - 1), FileMessages(cfg.sha, ids[n - 1], files[ids[n - 1]]));
      hide Feed;
      ReadyForFile(r, files, ids, n - 1, front);
      FileEffect(cfg, front, ids[n - 1], files[ids[n - 1]], f);
      OneMoreFile(r, files, ids, n, front, f);
    }
  }

  lemma ReadyForFile(r: R.State, files: seq<File>, ids: seq<int>, n: nat, f: R.State)
    requires n <= |ids| && InRange(ids, |files|) && Progressed(r, files, ids, n, f)
    ensures f.phase.AwaitStart? || f.phase.AwaitDone? || f.phase.Returned?
  {
  }

  // ----- The theorem --------------------------------------------------------------------------------

  /** The Go receiver, fed hello and manifest, has asked for files or has ended. */
  lemma AfterOpening(cfg: R.Config, dir: Dir, files: seq<File>, r: R.State)
    requires Named(files) && r == Recognise(cfg, dir, Opening(files))
    ensures R.WellFormed(r) && Shape(r) && r.kept == []
    ensures r.phase.Returned? || (r.phase.AwaitStart? && r.files == Metas(files))
    ensures r.ids != [] ==> r.phase.AwaitStart?
  {
    hide R.Judge, Shape, Metas, R.IdsKnown;
    var r0 := R.Start(R.Init(dir), OK);
    FreshShape(dir);
    JointLink.FeedShape(cfg, r0, Opening(files));
    var hello, manifest := Text(Hello(VERSION)), Text(Manifest(Metas(files)));
    assert Opening(files) == [hello] + [manifest];
    FeedConcat(cfg, r0, [hello], [manifest]);
    FeedOne(cfg, r0, hello);
    FeedOne(cfg, r0.(phase := R.AwaitManifest), manifest);
  }

  lemma FreshShape(dir: Dir)
    ensures Shape(R.Start(R.Init(dir), OK))
  {
    StartShape(R.Init(dir), OK);
  }

  /** Which of its messages a receiver has sent when an accept and n good acks are among them. */
  lemma AnsweredMeansKept(f: R.State, a: nat, wire: seq<int>, n: nat)
    requires Shape(f) && Answered(f.core.out, a, wire, n)
    ensures a == 1 && f.ids != [] && wire == WireForm(f.ids, |f.files|) && n <= |f.kept|
  {
    hide R.WellFormed;
    var out := f.core.out;
    assert !Unopened(f);
    JointLink.SaidInOrder(f, 0);
    JointLink.SaidInOrder(f, 1);
    if 2 + |f.kept| < |out| {
      JointLink.SaidInOrder(f, 2 + |f.kept|);
    }
    hide Shape, Replies;
  }

  lemma FedInParts(cfg: R.Config, r0: R.State, a: seq<Msg>, b: seq<Msg>, last: Msg, r: R.State, f: R.State)
    requires R.WellFormed(r0) && r == Feed(cfg, r0, a) && f == Feed(cfg, r, b)
    ensures Feed(cfg, r0, a + b + [last]) == R.Step(cfg, f, Message(last), OK)
  {
    hide R.Step, R.WellFormed;
    FeedConcat(cfg, r0, a, b);
    FeedConcat(cfg, r0, a + b, [last]);
    FeedOne(cfg, f, last);
  }

  /** What done does to a receiver that has everything, and to any other. */
  lemma DoneEffect(cfg: R.Config, r: R.State, f: R.State)
    requires R.WellFormed(r) && f == R.Step(cfg, r, Message(Text(Done)), OK)
    ensures f.kept == r.kept && f.ids == r.ids && f.files == r.files
    ensures r.phase.AwaitDone? ==> f.phase == R.Returned(Nil)
  {
    hide R.ById;
  }

  /** The receiver after the opening, after the files, and after done. */
  lemma ThroughTheFiles(
    cfg: R.Config, dir: Dir, files: seq<File>, ins: seq<Msg>, a: nat, wire: seq<int>, out: seq<Msg>)
    returns (r: R.State, f: R.State)
    requires CompletedRun(cfg.sha, files, ins, a, wire, out)
    ensures R.WellFormed(f) && Recognise(cfg, dir, out) == R.Step(cfg, f, Message(Text(Done)), OK)
    ensures r.phase.Returned? || (r.phase.AwaitStart? && r.files == Metas(files))
    ensures r.ids != [] ==> r.phase.AwaitStart?
    ensures var ids := AcceptedIds(wire, |files|);
      Progressed(r, files, ids, |ids|, f) && (|ids| == 0 ==> f == r)
  {
    hide R.Start, Opening, Blocks, Shape, Feed, Progressed, R.Step, Answered, Metas, R.ById, AcceptedIds, FileMessages;
    var ids := AcceptedIds(wire, |files|);
    var r0 := R.Start(R.Init(dir), OK);
    OpeningState(dir);
    r := Recognise(cfg, dir, Opening(files));
    AfterOpening(cfg, dir, files, r);
    f := Feed(cfg, r, Blocks(cfg.sha, files, ids, |ids|));
    BlocksEffect(cfg, r, files, ids, |ids|, f);
    FedInParts(cfg, r0, Opening(files), Blocks(cfg.sha, files, ids, |ids|), Text(Done), r, f);
  }

  lemma OpeningState(dir: Dir)
    ensures R.WellFormed(R.Start(R.Init(dir), OK))
  {
  }

  /**
   * A run that the browser's send completes against a Go receiver, each hearing only the other: what was
   * emitted is a sentence of the receiver's grammar, the receiver returns nil, and the accepted files are
   * kept with the browser's bytes.
   */
  lemma BrowserSpeaksTheLanguage(
    cfg: R.Config, dir: Dir, files: seq<File>, ins: seq<Msg>, a: nat, wire: seq<int>, out: seq<Msg>)
    requires CompletedRun(cfg.sha, files, ins, a, wire, out)
    requires ins <= Recognise(cfg, dir, out).core.out
    ensures exists t :: Sentence(cfg, dir, t, out)
    ensures var r := Recognise(cfg, dir, out);
      && r.phase == R.Returned(Nil) && r.ids == AcceptedIds(wire, |files|) && |r.kept| == |r.ids|
      && KeptAre(files, r.ids, r) && r.files == Metas(files)
  {
    hide Recognise, Emission, Shape, R.WellFormed, Progressed, R.Step, Answered, Metas, Sentence, AcceptedIds, R.ById;
    var ids := AcceptedIds(wire, |files|);
    var r, f := ThroughTheFiles(cfg, dir, files, ins, a, wire, out);
    var last := Recognise(cfg, dir, out);
    DoneEffect(cfg, f, last);
    LongerAnswer(ins, last.core.out, a, wire, |ids|);
    RecogniseShape(cfg, dir, out);
    AnsweredMeansKept(last, a, wire, |ids|);
    AllKept(files, wire, ids, r, f);
    RecogniserCorrect(cfg, dir, out);
  }

  /** The files lie under the names the browser announced, as the receiver sanitizes and numbers them. */
  lemma BrowserNamesKept(
    cfg: R.Config, dir: Dir, files: seq<File>, ins: seq<Msg>, a: nat, wire: seq<int>, out: seq<Msg>, i: nat)
    requires CompletedRun(cfg.sha, files, ins, a, wire, out)
    requires ins <= Recognise(cfg, dir, out).core.out && i < |Recognise(cfg, dir, out).kept|
    ensures var r := Recognise(cfg, dir, out);
      && i < |r.ids| && 0 <= r.ids[i] < |files| && BrowserSanitize(files[r.ids[i]].name).NameOk?
      && var name := Sanitize(BrowserSanitize(files[r.ids[i]].name).name);
        name.NameOk? && LeastFree(RS.Place(dir, r.kept[..i]), name.name, r.kept[i].path)
  {
    hide Metas, Feed, RS.Receive, LeastFree, Sanitize, BrowserSanitize, R.ById, Sentence, RS.Place;
    BrowserSpeaksTheLanguage(cfg, dir, files, ins, a, wire, out);
    var r := Recognise(cfg, dir, out);
    RecogniseIsRun(cfg, dir, out);
    RS.StoredUnderOwnName(cfg, dir, OK, Plain(out), i);
    MetaOf(Metas(files), r.ids[i]);
  }

  lemma RecogniseIsRun(cfg: R.Config, dir: Dir, msgs: seq<Msg>)
    ensures Recognise(cfg, dir, msgs) == RS.Receive(cfg, dir, OK, Plain(msgs))
  {
    FeedIsRun(cfg, R.Start(R.Init(dir), OK), msgs);
  }

  lemma MetaOf(metas: seq<FileMeta>, id: int)
    requires (forall i | 0 <= i < |metas| :: metas[i].id == i) && id in R.ById(metas)
    ensures 0 <= id < |metas| && R.ById(metas)[id] == metas[id]
  {
    R.ByIdEntries(metas, id);
    hide R.ById;
    var meta := R.ById(metas)[id];
    var i :| 0 <= i < |metas| && metas[i] == meta;
  }

  lemma LongerAnswer(ins: seq<Msg>, out: seq<Msg>, a: nat, wire: seq<int>, n: nat)
    requires ins <= out && Answered(ins, a, wire, n)
    ensures Answered(out, a, wire, n)
  {
  }

  lemma RecogniseShape(cfg: R.Config, dir: Dir, msgs: seq<Msg>)
    ensures Shape(Recognise(cfg, dir, msgs))
  {
    FreshShape(dir);
    JointLink.FeedShape(cfg, R.Start(R.Init(dir), OK), msgs);
  }

  lemma AllKept(files: seq<File>, wire: seq<int>, ids: seq<int>, r: R.State, f: R.State)
    requires Named(files) && ids == AcceptedIds(wire, |files|) && InRange(ids, |files|)
    requires Progressed(r, files, ids, |ids|, f) && |ids| <= |f.kept|
    requires r.phase.Returned? || (r.phase.AwaitStart? && r.files == Metas(files))
    requires r.ids != [] ==> r.phase.AwaitStart?
    requires f.ids != [] && wire == WireForm(f.ids, |f.files|) && (|ids| == 0 ==> f == r)
    ensures f.phase.AwaitDone? && f.ids == ids && |f.kept| == |f.ids| && KeptAre(files, f.ids, f)
    ensures f.files == Metas(files)
  {
    hide Metas;
    assert |ids| > 0 ==> f.ids == r.ids && f.files == r.files;
    assert |f.files| == |files|;
    assert |f.ids| == |ids|;
    if |ids| > 0 {
      assert forall i | 0 <= i < |ids| :: f.ids[i] == ids[i];
      assert f.ids == ids;
    }
  }
}
