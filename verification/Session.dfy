/** What Send and Receive share: inputs, outcomes, control-message sending and the event contract. */
module Session {
  import opened Protocol

  /** What a blocking wait for the next message can come back with. */
  datatype Arrival = Message(m: Msg) | Closed | CtxDone

  /**
   * Whether the send and the file operation of one step succeed, and whether the cancel that the deferred
   * abort may add to it does.
   */
  datatype Io = Io(sendOk: bool, fileOk: bool, lastOk: bool) {

    function Last(): Io {
      this.(sendOk := lastOk)
    }
  }

  /** Every send of the step succeeds, as over an open reliable channel. */
  predicate Sends(io: Io) {
    io.sendOk && io.lastOk
  }

  datatype Failure =
    | NotOpened     // refused before the session took over the channel
    | ErrSend
    | ErrProtocol
    | ErrVersion
    | ErrPeerCancel
    | ErrPeer(code: ErrorCode)
    | ErrPeerClosed
    | ErrContext
    | ErrRejected
    | ErrDeclined
    | ErrDecide
    | ErrBadChoice
    | ErrFile
    | ErrSizeChanged
    | ErrHashMismatch

  /** How a part of Send or Receive ends: normally, with an error, or still at it when the inputs ran out. */
  datatype Exit = Ok | Stop(f: Failure) | Blocked

  /** How many messages the inbox holds before the pump blocks. */
  const INBOX_CAPACITY := 256

  datatype Outcome = Nil | Failed(failure: Failure)

  datatype Event =
    | FileStarted(id: int, total: int)
    | Progress(id: int, bytes: int, total: int)
    | FileDone(id: int, bytes: int, total: int, ok: bool)
    | AllDone
    | SessionError(failure: Failure)

  /** The part of a session both roles have: messages sent so far, the `signaled` flag, events emitted. */
  datatype Core = Core(out: seq<Msg>, signaled: bool, events: seq<Event>) {

    function Say(c: Control, io: Io): Core {
      if io.sendOk then this.(out := out + [Text(c)]) else this
    }

    /** A last word of this side: once sent, nothing more is owed to the peer. */
    function Signal(c: Control, io: Io): Core {
      if io.sendOk then this.(out := out + [Text(c)], signaled := true) else this
    }

    function Chunk(data: Bytes, io: Io): Core {
      if io.sendOk then this.(out := out + [Binary(data)]) else this
    }

    function Emit(e: Event): Core {
      this.(events := events + [e])
    }

    /** fail, then the deferred abort. */
    function Abort(f: Failure, io: Io): Core {
      var told := Emit(SessionError(f));
      if signaled then told else told.Say(Cancel, io.Last())
    }
  }

  const FRESH := Core([], false, [])

  /** At most one final message, and nothing after it. */
  ghost predicate FinalIsLast(out: seq<Msg>) {
    forall i | 0 <= i < |out| - 1 :: !IsFinal(out[i])
  }

  ghost predicate NoFinal(out: seq<Msg>) {
    forall i | 0 <= i < |out| :: !IsFinal(out[i])
  }

  /** No last word either way yet. */
  ghost predicate Open(c: Core) {
    NoFinal(c.out) && !c.signaled
  }

  /** At most one last word was said, and if so it is the newest message and was recorded. */
  ghost predicate Closing(c: Core) {
    FinalIsLast(c.out) && (!c.signaled ==> NoFinal(c.out))
  }

  /** Messages sent are never taken back. */
  lemma CoreGrows(core: Core, c: Control, d: Bytes, e: Event, f: Failure, io: Io)
    ensures core.out <= core.Say(c, io).out
    ensures core.out <= core.Signal(c, io).out
    ensures core.out <= core.Chunk(d, io).out
    ensures core.out <= core.Abort(f, io).out
    ensures core.out <= core.Signal(c, io).Abort(f, io).out
    ensures core.out <= core.Say(c, io).Emit(e).Abort(f, io).out
  {
  }

  lemma SayKeepsOpen(core: Core, c: Control, io: Io)
    requires Open(core)
    ensures !IsFinal(Text(c)) ==> Open(core.Say(c, io))
    ensures core.out <= core.Say(c, io).out
  {
  }

  lemma OpenMayClose(core: Core)
    requires Open(core)
    ensures Closing(core) && Closing(core.(signaled := true))
  {
  }

  lemma SignalCloses(core: Core, c: Control, io: Io)
    requires Open(core)
    ensures Closing(core.Signal(c, io)) && core.out <= core.Signal(c, io).out
  {
  }

  /**
   * A last word and the abort after it: the word if it could be sent, otherwise a cancel if that could, and
   * never both.
   */
  lemma OneLastWord(core: Core, c: Control, f: Failure, io: Io)
    requires !core.signaled
    ensures core.Signal(c, io).Abort(f, io).out
         == core.out + (if io.sendOk then [Text(c)] else if io.lastOk then [Text(Cancel)] else [])
  {
  }

  lemma AbortEnds(core: Core, f: Failure, io: Io)
    requires Closing(core)
    ensures FinalIsLast(core.Abort(f, io).out) && core.out <= core.Abort(f, io).out
    ensures core.signaled ==> core.Abort(f, io).out == core.out
  {
  }

  // ----- The event contract -------------------------------------------------------------------

  /** Where a correct event stream stands, for the given files in order. */
  datatype Position =
    | Between(next: nat)
    | Inside(next: nat, bytes: int)
    | BadDigest(next: nat)
    | Finished
    | Broken
    | Violated

  /** One accepted file as the events name it. */
  datatype Item = Item(id: int, total: int)

  function Follow(items: seq<Item>, bounded: bool, p: Position, e: Event): Position {
    match (p, e)
    case (Between(k), FileStarted(id, total)) =>
      if k < |items| && Item(id, total) == items[k] then Inside(k, 0) else Violated
    case (Inside(k, n), Progress(id, bytes, total)) =>
      if k < |items| && Item(id, total) == items[k] && n <= bytes && (bounded ==> bytes <= total)
      then Inside(k, bytes) else Violated
    case (Inside(k, n), FileDone(id, bytes, total, ok)) =>
      if k < |items| && Item(id, total) == items[k] && n == bytes == total
      then (if ok then Between(k + 1) else BadDigest(k)) else Violated
    case (Between(k), AllDone) => if k == |items| then Finished else Violated
    case (Between(_), SessionError(_)) => Broken
    case (Inside(_, _), SessionError(_)) => Broken
    case (BadDigest(_), SessionError(f)) => if f == ErrHashMismatch then Broken else Violated
    case _ => Violated
  }

  /** Reads a whole event stream against the contract. */
  function Scan(items: seq<Item>, bounded: bool, events: seq<Event>): Position {
    if events == [] then Between(0)
    else Follow(items, bounded, Scan(items, bounded, events[..|events| - 1]), events[|events| - 1])
  }

  lemma ScanNothing(items: seq<Item>, bounded: bool)
    ensures Scan(items, bounded, []) == Between(0)
  {
  }

  lemma ScanAppend(items: seq<Item>, bounded: bool, events: seq<Event>, e: Event)
    ensures Scan(items, bounded, events + [e]) == Follow(items, bounded, Scan(items, bounded, events), e)
  {
    assert (events + [e])[..|events|] == events;
  }

  /** A stream that obeys the contract is finished exactly when its last event is AllDone. */
  lemma FinishedByAllDone(items: seq<Item>, bounded: bool, events: seq<Event>)
    requires Scan(items, bounded, events) != Violated
    ensures Scan(items, bounded, events) == Finished <==> events != [] && events[|events| - 1] == AllDone
  {
  }

  /** The files a stream reports as done without error, in order. */
  function DoneItems(events: seq<Event>): seq<Item> {
    if events == [] then []
    else
      var last := events[|events| - 1];
      DoneItems(events[..|events| - 1]) + (if last.FileDone? && last.ok then [Item(last.id, last.total)] else [])
  }

  /** How many files a stream in this position has completed; a broken one has completed some. */
  ghost predicate Completed(items: seq<Item>, p: Position, done: seq<Item>) {
    match p
    case Between(k) => k <= |items| && done == items[..k]
    case Inside(k, _) => k < |items| && done == items[..k]
    case BadDigest(k) => k < |items| && done == items[..k]
    case Finished => done == items
    case Broken => done <= items
    case Violated => true
  }

  /** A stream that obeys the contract reports a prefix of the accepted files as done, and all of them at the end. */
  lemma {:induction false} ReportsPrefix(items: seq<Item>, bounded: bool, events: seq<Event>)
    ensures Completed(items, Scan(items, bounded, events), DoneItems(events))
  {
    if events != [] {
      ReportsPrefix(items, bounded, events[..|events| - 1]);
    }
  }

  // ----- Last words ---------------------------------------------------------------------------

  /** What is said on the way out: the word of the result, or a cancel in its stead, or nothing. */
  function Farewell(f: Failure, io: Io): seq<Msg> {
    match f
    case ErrPeerCancel => []
    case ErrPeer(_) => []
    case ErrProtocol => Word(Error(CodeProtocol), io)
    case ErrVersion => Word(Error(CodeVersion), io)
    case ErrDecide => Word(Reject, io)
    case ErrBadChoice => Word(Reject, io)
    case ErrDeclined => Word(Reject, io)
    case _ => if io.lastOk then [Text(Cancel)] else []
  }

  function Word(c: Control, io: Io): seq<Msg> {
    if io.sendOk then [Text(c)] else if io.lastOk then [Text(Cancel)] else []
  }

  lemma AbortSays(core: Core, f: Failure, io: Io)
    ensures core.Abort(f, io).out
         == core.out + (if !core.signaled && io.lastOk then [Text(Cancel)] else [])
  {
  }

  lemma WordSays(core: Core, c: Control, f: Failure, io: Io)
    requires !core.signaled
    ensures core.Signal(c, io).Abort(f, io).out == core.out + Word(c, io)
  {
    OneLastWord(core, c, f, io);
  }
}
