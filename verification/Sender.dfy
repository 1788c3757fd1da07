/** The TP/1 sender as a step machine (Send, sendFile, midSendCheck, waitAck). */
module Sender {
  import opened Protocol
  import opened Acceptance
  import opened Session

  /** One file to send: its wire name, its declared size and what reading it yields. */
  datatype File = File(name: string, size: int, content: Bytes)

  datatype Config = Config(sha: Bytes -> string, files: seq<File>)

  /** Polling is the head of the chunk loop; Reading is the same loop after the poll. */
  datatype Phase = Idle | AwaitHello | AwaitReply | Polling | Reading | AwaitAck | Returned(outcome: Outcome)

  datatype State = State(
    phase: Phase,
    core: Core,
    ids: seq<int>,
    k: nat,
    sent: Bytes,
    hashed: Bytes,
    pending: seq<Msg>)

  const INIT := State(Idle, FRESH, [], 0, [], [], [])

  /** The checks Send makes before it touches the channel. */
  predicate Sendable(files: seq<File>) {
    && 0 < |files| <= MAX_FILES
    && forall i | 0 <= i < |files| :: Sanitize(files[i].name).NameOk? && ValidSize(files[i].size)
  }

  function SafeWireName(name: string): string {
    var r := Sanitize(name);
    if r.NameOk? then r.name else ""
  }

  function Metas(files: seq<File>): (metas: seq<FileMeta>)
    ensures |metas| == |files|
    ensures forall i | 0 <= i < |files| :: metas[i] == FileMeta(i, SafeWireName(files[i].name), files[i].size)
  {
    seq(|files|, i requires 0 <= i < |files| => FileMeta(i, SafeWireName(files[i].name), files[i].size))
  }

  /** Every file is announced under its own sanitized name; a safe name stays as it is. */
  lemma MetasNames(files: seq<File>, i: nat)
    requires i < |files| && Sanitize(files[i].name).NameOk?
    ensures Sanitize(files[i].name) == NameOk(Metas(files)[i].name)
    ensures SafeName(files[i].name) ==> Metas(files)[i].name == files[i].name
  {
    SanitizeFixes(files[i].name);
  }

  predicate WellFormed(cfg: Config, s: State) {
    && InRange(s.ids, |cfg.files|)
    && (s.phase.Polling? || s.phase.Reading? || s.phase.AwaitAck? ==> s.k < |s.ids|)
  }

  predicate InFile(s: State) {
    s.phase.Polling? || s.phase.Reading? || s.phase.AwaitAck?
  }

  function Current(cfg: Config, s: State): (f: File)
    requires WellFormed(cfg, s) && s.k < |s.ids|
  {
    cfg.files[s.ids[s.k]]
  }

  // ----- Leaving the session ------------------------------------------------------------------

  function Fail(s: State, f: Failure, io: Io): State {
    s.(phase := Returned(Failed(f)), core := s.core.Abort(f, io))
  }

  function Complain(s: State, io: Io): State {
    Fail(s.(core := s.core.Signal(Error(CodeProtocol), io)), ErrProtocol, io)
  }

  // ----- Steps --------------------------------------------------------------------------------

  function Start(cfg: Config, s: State, io: Io): State {
    if !Sendable(cfg.files) then
      s.(phase := Returned(Failed(NotOpened)), core := s.core.Emit(SessionError(NotOpened)))
    else if !io.sendOk then Fail(s, ErrSend, io)
    else s.(phase := AwaitHello, core := s.core.Say(Hello(VERSION), io))
  }

  function OnHello(cfg: Config, s: State, v: int, io: Io): State {
    if v != VERSION then Fail(s.(core := s.core.Signal(Error(CodeVersion), io)), ErrVersion, io)
    else if !io.sendOk then Fail(s, ErrSend, io)
    else s.(phase := AwaitReply, core := s.core.Say(Manifest(Metas(cfg.files)), io))
  }

  /** The head of the loop over accepted ids: the next file, or done. */
  function NextFile(cfg: Config, s: State, io: Io): (s': State)
    requires WellFormed(cfg, s)
    ensures WellFormed(cfg, s')
  {
    if !io.sendOk then Fail(s, ErrSend, io)
    else if s.k >= |s.ids| then
      s.(phase := Returned(Nil), core := s.core.Say(Done, io).Emit(AllDone))
    else
      var id := s.ids[s.k];
      var started := s.core.Say(FileStart(id), io).Emit(FileStarted(id, Current(cfg, s).size));
      if !io.fileOk then Fail(s.(core := started), ErrFile, io)
      else s.(phase := Polling, core := started, sent := [], hashed := [])
  }

  function OnAccept(cfg: Config, s: State, wire: seq<int>, io: Io): (s': State)
    requires WellFormed(cfg, s)
    ensures WellFormed(cfg, s')
  {
    match Resolve(wire, |cfg.files|)
    case None => Complain(s, io)
    case Some(ids) =>
      ResolvedInRange(wire, |cfg.files|);
      NextFile(cfg, s.(phase := AwaitReply, ids := ids, k := 0), io)
  }

  lemma ResolvedInRange(wire: seq<int>, n: nat)
    requires Resolve(wire, n).Some?
    ensures InRange(Resolve(wire, n).value, n)
  {
    var ids := Resolve(wire, n).value;
    forall i | 0 <= i < |ids|
      ensures 0 <= ids[i] < n
    {
      assert ids[i] in ids;
    }
  }

  function OnAck(cfg: Config, s: State, id: int, status: AckStatus, io: Io): (s': State)
    requires WellFormed(cfg, s) && s.phase.AwaitAck?
    ensures WellFormed(cfg, s')
  {
    var size := Current(cfg, s).size;
    if id != s.ids[s.k] then Complain(s, io)
    else
      match status
      case StatusOk =>
        NextFile(cfg, s.(phase := AwaitReply, k := s.k + 1, core := s.core.Emit(FileDone(id, |s.sent|, size, true))), io)
      case StatusHashMismatch =>
        Fail(s.(core := s.core.Emit(FileDone(id, |s.sent|, size, false))), ErrHashMismatch, io)
      case StatusOther(_) => Complain(s, io)
  }

  function OnControl(cfg: Config, s: State, c: Control, io: Io): (s': State)
    requires WellFormed(cfg, s)
    ensures WellFormed(cfg, s')
  {
    match s.phase
    case AwaitHello => if c.Hello? then OnHello(cfg, s, c.v, io) else Complain(s, io)
    case AwaitReply =>
      if c.Reject? then Fail(s, ErrRejected, io)
      else if c.Accept? then OnAccept(cfg, s, c.ids, io)
      else Complain(s, io)
    case AwaitAck => if c.FileAck? then OnAck(cfg, s, c.id, c.status, io) else Complain(s, io)
    case _ => s
  }

  /** A message returned by next in one of the wait loops. */
  function OnMessage(cfg: Config, s: State, m: Msg, io: Io): (s': State)
    requires WellFormed(cfg, s)
    ensures WellFormed(cfg, s')
  {
    match m
    case Binary(_) => Complain(s, io)
    case Malformed => Complain(s, io)
    case Text(Cancel) => Fail(s.(core := s.core.(signaled := true)), ErrPeerCancel, io)
    case Text(Error(code)) => Fail(s.(core := s.core.(signaled := true)), ErrPeer(code), io)
    case Text(Unknown(_)) => if s.phase.AwaitHello? then Complain(s, io) else s
    case Text(c) => OnControl(cfg, s, c, io)
  }

  /** midSendCheck: only a cancel or error ends the stream; everything else known is deferred. */
  function MidSendCheck(s: State, m: Msg, io: Io): State {
    match m
    case Binary(_) => Complain(s, io)
    case Malformed => Complain(s, io)
    case Text(Cancel) => Fail(s.(core := s.core.(signaled := true)), ErrPeerCancel, io)
    case Text(Error(code)) => Fail(s.(core := s.core.(signaled := true)), ErrPeer(code), io)
    case Text(Unknown(_)) => s.(phase := Reading)
    case Text(_) => s.(phase := Reading, pending := s.pending + [m])
  }

  /** The top of the chunk loop: the context, then one message if there is one. */
  function Poll(s: State, ctxDone: bool, found: Option<Msg>, io: Io): State {
    if ctxDone then Fail(s, ErrContext, io)
    else if s.pending != [] then MidSendCheck(s.(pending := s.pending[1..]), s.pending[0], io)
    else
      match found
      case None => s.(phase := Reading)
      case Some(m) => MidSendCheck(s, m, io)
  }

  datatype Read = Data(data: Bytes) | Eof | ReadError

  /** One read of the source and what the loop does with it; ctxDone means WriteFlow was interrupted. */
  function OnRead(cfg: Config, s: State, rd: Read, ctxDone: bool, io: Io): (s': State)
    requires WellFormed(cfg, s) && s.phase.Reading?
    ensures WellFormed(cfg, s')
  {
    var f := Current(cfg, s);
    var id := s.ids[s.k];
    match rd
    case ReadError => Fail(s, ErrFile, io)
    case Data(d) =>
      var hashed := s.(hashed := s.hashed + d);
      if d == [] then s.(phase := Polling)
      else if ctxDone then Fail(hashed, ErrContext, io)
      else if !io.sendOk then Fail(hashed, ErrSend, io)
      else
        hashed.(phase := Polling,
                core := s.core.Chunk(d, io).Emit(Progress(id, |s.sent| + |d|, f.size)),
                sent := s.sent + d)
    case Eof =>
      if |s.sent| != f.size then Fail(s, ErrSizeChanged, io)
      else if !io.sendOk then Fail(s, ErrSend, io)
      else s.(phase := AwaitAck, core := s.core.Say(FileEnd(id, cfg.sha(s.hashed)), io))
  }

  predicate Waiting(s: State) {
    s.phase.AwaitHello? || s.phase.AwaitReply? || s.phase.AwaitAck?
  }

  /** Everything the surroundings contribute to one step. */
  datatype Input = Input(arrival: Arrival, found: Option<Msg>, read: Read, ctxDone: bool, io: Io)

  function OnArrival(cfg: Config, s: State, a: Arrival, io: Io): (s': State)
    requires WellFormed(cfg, s)
    ensures WellFormed(cfg, s')
  {
    if s.pending != [] then OnMessage(cfg, s.(pending := s.pending[1..]), s.pending[0], io)
    else
      match a
      case Closed => Fail(s, ErrPeerClosed, io)
      case CtxDone => Fail(s, ErrContext, io)
      case Message(m) => OnMessage(cfg, s, m, io)
  }

  function Step(cfg: Config, s: State, inp: Input): (s': State)
    requires WellFormed(cfg, s)
    ensures WellFormed(cfg, s')
  {
    if Waiting(s) then OnArrival(cfg, s, inp.arrival, inp.io)
    else if s.phase.Polling? then Poll(s, inp.ctxDone, inp.found, inp.io)
    else if s.phase.Reading? then OnRead(cfg, s, inp.read, inp.ctxDone, inp.io)
    else s
  }

  function Run(cfg: Config, s: State, ins: seq<Input>): (s': State)
    requires WellFormed(cfg, s)
    ensures WellFormed(cfg, s')
    decreases |ins|
  {
    if ins == [] then s else Run(cfg, Step(cfg, s, ins[0]), ins[1..])
  }

  lemma RunReturned(cfg: Config, s: State, ins: seq<Input>)
    requires WellFormed(cfg, s) && s.phase.Returned?
    ensures Run(cfg, s, ins) == s
    decreases |ins|
  {
  }
}
