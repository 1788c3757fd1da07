/**
 * Send and Receive joined by two reliable FIFO channels with bounded inboxes, as one transition system:
 * either side may be cancelled at any wait, and local file operations may fail at any time.
 */
module Joint {
  import opened Protocol
  import opened Directory
  import opened Acceptance
  import opened Session
  import S = Sender
  import R = Receiver
  import opened Recogniser
  import Flow

  /** What stays fixed during a run. */
  datatype World = World(sha: Bytes -> string, files: seq<S.File>, decide: seq<FileMeta> -> Decision, dir: Dir) {
    function SC(): S.Config { S.Config(sha, files) }
    function RC(): R.Config { R.Config(sha, decide) }
  }

  /** Messages towards one side: pumped into its inbox, or still on the wire. */
  datatype Mail = Mail(inbox: seq<Msg>, wire: seq<Msg>) {
    function Queue(): seq<Msg> { inbox + wire }
    function Post(msgs: seq<Msg>): Mail { this.(wire := wire + msgs) }
  }

  datatype Sys = Sys(s: S.State, r: R.State, toS: Mail, toR: Mail)

  function Initial(w: World): Sys {
    Sys(S.INIT, R.Init(w.dir), Mail([], []), Mail([], []))
  }

  ghost predicate WellFormed(w: World, g: Sys) {
    S.WellFormed(w.SC(), g.s) && R.WellFormed(g.r)
  }

  /** The channel is open: sends succeed; file operations may not. */
  function Local(fileOk: bool): Io {
    Io(true, fileOk, true)
  }

  // ----- Steps --------------------------------------------------------------------------------

  datatype Action =
    | SenderBegins
    | SenderTakes(fileOk: bool)
    | SenderPolls
    | SenderReads(n: nat)
    | SenderReachesEof
    | SenderReadFails
    | SenderCancelled
    | SenderWriteInterrupted(n: nat)
    | ReceiverBegins(fileOk: bool)
    | ReceiverTakes(fileOk: bool)
    | ReceiverCancelled
    | PumpToSender
    | PumpToReceiver

  /** What is left to read of the file being sent. */
  function Unread(w: World, s: S.State): Bytes
    requires S.WellFormed(w.SC(), s) && s.k < |s.ids|
  {
    var content := S.Current(w.SC(), s).content;
    if |s.sent| <= |content| then content[|s.sent|..] else []
  }

  predicate CanRead(w: World, s: S.State, n: nat)
    requires S.WellFormed(w.SC(), s)
  {
    s.phase.Reading? && 0 < n <= CHUNK_SIZE && n <= |Unread(w, s)|
  }

  /** The data bytes that the channel holds for the receiver; control messages are small and not counted. */
  function Buffered(wire: seq<Msg>): nat {
    if wire == [] then 0
    else Buffered(wire[1..]) + (if wire[0].Binary? then |wire[0].data| else 0)
  }

  /** WriteFlow sends below the high mark; a writer it has put to sleep is woken at the low mark. */
  predicate Enabled(w: World, g: Sys, a: Action)
    requires WellFormed(w, g)
  {
    match a
    case SenderBegins => g.s.phase.Idle?
    case SenderTakes(_) => S.Waiting(g.s) && (g.s.pending != [] || g.toS.inbox != [])
    case SenderPolls => g.s.phase.Polling?
    case SenderReads(n) => CanRead(w, g.s, n) && Buffered(g.toR.wire) < Flow.HIGH
    case SenderReachesEof => g.s.phase.Reading? && Unread(w, g.s) == []
    case SenderReadFails => g.s.phase.Reading?
    case SenderCancelled => (S.Waiting(g.s) && g.s.pending == []) || g.s.phase.Polling?
    case SenderWriteInterrupted(n) => CanRead(w, g.s, n)
    case ReceiverBegins(_) => g.r.phase.Idle?
    case ReceiverTakes(_) => R.Waiting(g.r) && g.toR.inbox != []
    case ReceiverCancelled => R.Waiting(g.r)
    case PumpToSender =>
      g.toS.wire != [] && !g.s.phase.Idle? && (g.s.phase.Returned? || |g.toS.inbox| < INBOX_CAPACITY)
    case PumpToReceiver =>
      g.toR.wire != [] && !g.r.phase.Idle? && (g.r.phase.Returned? || |g.toR.inbox| < INBOX_CAPACITY)
  }

  const NO_INPUT := S.Input(CtxDone, None, S.Eof, false, Io(true, true, true))

  /** The sender's part of an action: what its next step is given. */
  function SenderInput(w: World, g: Sys, a: Action): S.Input
    requires WellFormed(w, g) && Enabled(w, g, a)
  {
    match a
    case SenderTakes(fileOk) =>
      if g.s.pending != [] then NO_INPUT.(io := Local(fileOk))
      else NO_INPUT.(arrival := Message(g.toS.inbox[0]), io := Local(fileOk))
    case SenderPolls =>
      if g.s.pending == [] && g.toS.inbox != [] then NO_INPUT.(found := Some(g.toS.inbox[0])) else NO_INPUT
    case SenderReads(n) => NO_INPUT.(read := S.Data(Unread(w, g.s)[..n]))
    case SenderReadFails => NO_INPUT.(read := S.ReadError)
    case SenderCancelled => NO_INPUT.(ctxDone := true)
    case SenderWriteInterrupted(n) => NO_INPUT.(read := S.Data(Unread(w, g.s)[..n]), ctxDone := true)
    case _ => NO_INPUT
  }

  /** What the sender removes from its inbox in this action. */
  function SenderRemoves(g: Sys, a: Action): nat {
    if (a.SenderTakes? || a.SenderPolls?) && g.s.pending == [] && g.toS.inbox != [] then 1 else 0
  }

  predicate OfSender(a: Action) {
    a.SenderTakes? || a.SenderPolls? || a.SenderReads? || a.SenderReachesEof? || a.SenderReadFails?
    || a.SenderCancelled? || a.SenderWriteInterrupted?
  }

  function SenderMoves(g: Sys, s': S.State, removed: nat): Sys
    requires removed <= |g.toS.inbox| && |g.s.core.out| <= |s'.core.out|
  {
    g.(s := s',
       toS := g.toS.(inbox := g.toS.inbox[removed..]),
       toR := g.toR.Post(s'.core.out[|g.s.core.out|..]))
  }

  function ReceiverMoves(g: Sys, r': R.State, removed: nat): Sys
    requires removed <= |g.toR.inbox| && |g.r.core.out| <= |r'.core.out|
  {
    g.(r := r',
       toR := g.toR.(inbox := g.toR.inbox[removed..]),
       toS := g.toS.Post(r'.core.out[|g.r.core.out|..]))
  }

  function Pump(m: Mail, returned: bool): Mail
    requires m.wire != []
  {
    Mail(if returned then m.inbox else m.inbox + [m.wire[0]], m.wire[1..])
  }

  lemma ReceiverGrows(cfg: R.Config, r: R.State, a: Arrival, io: Io)
    requires R.WellFormed(r)
    ensures r.core.out <= R.Step(cfg, r, a, io).core.out
  {
    if R.Waiting(r) {
      match a
      case Closed => CoreGrows(r.core, Done, [], AllDone, ErrPeerClosed, io);
      case CtxDone => CoreGrows(r.core, Done, [], AllDone, ErrContext, io);
      case Message(m) => ReceiverMessageGrows(cfg, r, m, io);
    }
  }

  lemma ReceiverMessageGrows(cfg: R.Config, r: R.State, m: Msg, io: Io)
    requires R.WellFormed(r) && R.Waiting(r)
    ensures r.core.out <= R.OnMessage(cfg, r, m, io).core.out
  {
    hide R.OnControl, R.ById;
    CoreGrows(r.core, Error(CodeProtocol), [], AllDone, ErrProtocol, io);
    CoreGrows(r.core, Done, [], AllDone, ErrFile, io);
    if m.Text? {
      var c := m.control;
      if c.Cancel? || c.Error? {
        assert r.core.(signaled := true).Abort(ErrPeerCancel, io).out == r.core.out;
      } else if !c.Unknown? {
        ReceiverControlGrows(cfg, r, c, io);
      }
    }
  }

  lemma ReceiverControlGrows(cfg: R.Config, r: R.State, c: Control, io: Io)
    requires R.WellFormed(r) && R.Waiting(r)
    ensures r.core.out <= R.OnControl(cfg, r, c, io).core.out
  {
    hide R.OnVerdict, R.OnFileEnd, R.Judge, R.ById, Dest, Sanitize;
    CoreGrows(r.core, Error(CodeProtocol), [], AllDone, ErrProtocol, io);
    if r.phase.AwaitHello? {
      CoreGrows(r.core, Error(CodeVersion), [], AllDone, ErrVersion, io);
    } else if r.phase.AwaitManifest? && c.Manifest? {
      VerdictGrows(r, c.files, R.Judge(cfg, c.files), io);
    } else if r.phase.AwaitStart? && c.FileStart? {
      CoreGrows(r.core, Done, [], AllDone, ErrFile, io);
    } else if r.phase.InBody? && c.FileEnd? {
      FileEndGrows(cfg, r, c.id, c.sha256, io);
    }
  }

  lemma VerdictGrows(r: R.State, files: seq<FileMeta>, verdict: R.Verdict, io: Io)
    ensures r.core.out <= R.OnVerdict(r, files, verdict, io).core.out
  {
    match verdict
    case BadManifest => CoreGrows(r.core, Error(CodeProtocol), [], AllDone, ErrProtocol, io);
    case Rejecting(f) => CoreGrows(r.core, Reject, [], AllDone, f, io);
    case Accepting(ids) => CoreGrows(r.core, Accept(WireForm(ids, |files|)), [], AllDone, ErrSend, io);
  }

  lemma FileEndGrows(cfg: R.Config, r: R.State, id: int, sha256: string, io: Io)
    requires R.WellFormed(r) && r.phase.InBody?
    ensures r.core.out <= R.OnFileEnd(cfg, r, id, sha256, io).core.out
  {
    var meta := R.Meta(r);
    CoreGrows(r.core, Error(CodeProtocol), [], AllDone, ErrProtocol, io);
    CoreGrows(r.core, FileAck(meta.id, StatusHashMismatch, r.got), [],
              FileDone(meta.id, r.got, meta.size, false), ErrHashMismatch, io);
    CoreGrows(r.core, FileAck(meta.id, StatusOk, r.got), [], AllDone, ErrSend, io);
    CoreGrows(r.core, Done, [], AllDone, ErrFile, io);
  }

  lemma SenderGrows(cfg: S.Config, s: S.State, inp: S.Input)
    requires S.WellFormed(cfg, s)
    ensures s.core.out <= S.Step(cfg, s, inp).core.out
  {
    CoreGrows(s.core, Done, [], AllDone, ErrPeerClosed, inp.io);
    CoreGrows(s.core, Done, [], AllDone, ErrContext, inp.io);
    if s.phase.Reading? {
      ReadGrows(cfg, s, inp.read, inp.ctxDone, inp.io);
    } else if S.Waiting(s) || s.phase.Polling? {
      if s.pending != [] {
        SenderMessageGrows(cfg, s.(pending := s.pending[1..]), s.pending[0], inp.io);
      } else {
        if inp.arrival.Message? {
          SenderMessageGrows(cfg, s, inp.arrival.m, inp.io);
        }
        if inp.found.Some? {
          SenderMessageGrows(cfg, s, inp.found.value, inp.io);
        }
      }
    }
  }

  lemma ReadGrows(cfg: S.Config, s: S.State, rd: S.Read, ctxDone: bool, io: Io)
    requires S.WellFormed(cfg, s) && s.phase.Reading?
    ensures s.core.out <= S.OnRead(cfg, s, rd, ctxDone, io).core.out
  {
    match rd
    case ReadError => CoreGrows(s.core, Done, [], AllDone, ErrFile, io);
    case Data(d) =>
      CoreGrows(s.core, Done, d, AllDone, ErrContext, io);
      CoreGrows(s.core, Done, d, AllDone, ErrSend, io);
    case Eof =>
      CoreGrows(s.core, FileEnd(s.ids[s.k], cfg.sha(s.hashed)), [], AllDone, ErrSizeChanged, io);
      CoreGrows(s.core, Done, [], AllDone, ErrSend, io);
  }

  lemma SenderMessageGrows(cfg: S.Config, s: S.State, m: Msg, io: Io)
    requires S.WellFormed(cfg, s)
    ensures s.core.out <= S.OnMessage(cfg, s, m, io).core.out
    ensures s.core.out <= S.MidSendCheck(s, m, io).core.out
  {
    CoreGrows(s.core, Error(CodeProtocol), [], AllDone, ErrProtocol, io);
    if m.Text? {
      var c := m.control;
      if c.Cancel? || c.Error? {
        assert s.core.(signaled := true).Abort(ErrPeerCancel, io).out == s.core.out;
      } else if !c.Unknown? {
        SenderControlGrows(cfg, s, c, io);
      }
    }
  }

  lemma SenderControlGrows(cfg: S.Config, s: S.State, c: Control, io: Io)
    requires S.WellFormed(cfg, s)
    ensures s.core.out <= S.OnControl(cfg, s, c, io).core.out
  {
    hide Resolve, S.NextFile, S.Metas, S.OnHello, S.OnAccept, S.OnAck;
    CoreGrows(s.core, Error(CodeProtocol), [], AllDone, ErrProtocol, io);
    if s.phase.AwaitHello? && c.Hello? {
      HelloGrows(cfg, s, c.v, io);
    } else if s.phase.AwaitReply? {
      CoreGrows(s.core, Done, [], AllDone, ErrRejected, io);
      if c.Accept? {
        AcceptGrows(cfg, s, c.ids, io);
      }
    } else if s.phase.AwaitAck? && c.FileAck? {
      AckGrows(cfg, s, c.id, c.status, io);
    }
  }

  lemma HelloGrows(cfg: S.Config, s: S.State, v: int, io: Io)
    ensures s.core.out <= S.OnHello(cfg, s, v, io).core.out
  {
    CoreGrows(s.core, Error(CodeVersion), [], AllDone, ErrVersion, io);
    CoreGrows(s.core, Manifest(S.Metas(cfg.files)), [], AllDone, ErrSend, io);
  }

  lemma AcceptGrows(cfg: S.Config, s: S.State, wire: seq<int>, io: Io)
    requires S.WellFormed(cfg, s)
    ensures s.core.out <= S.OnAccept(cfg, s, wire, io).core.out
  {
    hide Resolve, S.NextFile;
    CoreGrows(s.core, Error(CodeProtocol), [], AllDone, ErrProtocol, io);
    if Resolve(wire, |cfg.files|).Some? {
      S.ResolvedInRange(wire, |cfg.files|);
      NextFileGrows(cfg, s.(phase := S.AwaitReply, ids := Resolve(wire, |cfg.files|).value, k := 0), io);
    }
  }

  lemma AckGrows(cfg: S.Config, s: S.State, id: int, status: AckStatus, io: Io)
    requires S.WellFormed(cfg, s) && s.phase.AwaitAck?
    ensures s.core.out <= S.OnAck(cfg, s, id, status, io).core.out
  {
    hide S.NextFile;
    CoreGrows(s.core, Error(CodeProtocol), [], AllDone, ErrProtocol, io);
    var ended := s.core.Emit(FileDone(id, |s.sent|, S.Current(cfg, s).size, status.StatusOk?));
    CoreGrows(ended, Done, [], AllDone, ErrHashMismatch, io);
    NextFileGrows(cfg, s.(phase := S.AwaitReply, k := s.k + 1, core := ended), io);
  }

  lemma NextFileGrows(cfg: S.Config, s: S.State, io: Io)
    requires S.WellFormed(cfg, s)
    ensures s.core.out <= S.NextFile(cfg, s, io).core.out
  {
    CoreGrows(s.core, Done, [], AllDone, ErrSend, io);
    if s.k < |s.ids| {
      var id := s.ids[s.k];
      CoreGrows(s.core, FileStart(id), [], FileStarted(id, S.Current(cfg, s).size), ErrFile, io);
    }
  }

  function Apply(w: World, g: Sys, a: Action): (g': Sys)
    requires WellFormed(w, g) && Enabled(w, g, a)
    ensures WellFormed(w, g')
  {
    if OfSender(a) then
      SenderGrows(w.SC(), g.s, SenderInput(w, g, a));
      SenderMoves(g, S.Step(w.SC(), g.s, SenderInput(w, g, a)), SenderRemoves(g, a))
    else
      match a
      case SenderBegins => SenderMoves(g, S.Start(w.SC(), g.s, Local(true)), 0)
      case ReceiverBegins(fileOk) => ReceiverMoves(g, R.Start(g.r, Local(fileOk)), 0)
      case ReceiverTakes(fileOk) =>
        ReceiverGrows(w.RC(), g.r, Message(g.toR.inbox[0]), Local(fileOk));
        ReceiverMoves(g, R.Step(w.RC(), g.r, Message(g.toR.inbox[0]), Local(fileOk)), 1)
      case ReceiverCancelled =>
        ReceiverGrows(w.RC(), g.r, CtxDone, Local(true));
        ReceiverMoves(g, R.Step(w.RC(), g.r, CtxDone, Local(true)), 0)
      case PumpToSender => g.(toS := Pump(g.toS, g.s.phase.Returned?))
      case PumpToReceiver => g.(toR := Pump(g.toR, g.r.phase.Returned?))
  }
}
