/** The exact list of messages a receiver has sent, as a function of its state, while sends succeed. */
module ReceiverReplies {
  import opened Protocol
  import opened Acceptance
  import opened Session
  import opened Receiver

  function Acks(kept: seq<Kept>): (acks: seq<Msg>)
    ensures |acks| == |kept|
  {
    seq(|kept|, i requires 0 <= i < |kept| => Text(FileAck(kept[i].id, StatusOk, |kept[i].data|)))
  }

  /** What a receiver says as long as all goes well. */
  function Replies(r: State): seq<Msg> {
    [Text(Hello(VERSION))]
    + (if r.ids == [] then [] else [Text(Accept(WireForm(r.ids, |r.files|)))] + Acks(r.kept))
  }

  /** What it adds on the way out. */
  function LastWords(r: State): seq<Msg> {
    match r.phase
    case Returned(Failed(ErrProtocol)) => [Text(Error(CodeProtocol))]
    case Returned(Failed(ErrVersion)) => [Text(Error(CodeVersion))]
    case Returned(Failed(ErrPeerCancel)) => []
    case Returned(Failed(ErrPeer(_))) => []
    case Returned(Failed(ErrDecide)) => [Text(Reject)]
    case Returned(Failed(ErrBadChoice)) => [Text(Reject)]
    case Returned(Failed(ErrDeclined)) => [Text(Reject)]
    case Returned(Failed(ErrHashMismatch)) =>
      if |r.kept| < |r.ids| then [Text(FileAck(r.ids[|r.kept|], StatusHashMismatch, r.got)), Text(Cancel)] else []
    case Returned(Failed(_)) => [Text(Cancel)]
    case _ => []
  }

  predicate Unopened(r: State) {
    r.phase.Idle? || r.phase == Returned(Failed(NotOpened))
  }

  predicate Rejects(f: Failure) {
    f == ErrDecide || f == ErrBadChoice || f == ErrDeclined
  }

  /** One fact (bound to a variable) rather than a list of them, to keep proof obligations few. */
  ghost predicate Shape(r: State) {
    var all :=
    && WellFormed(r)
    && (Unopened(r) ==> r.core.out == [] && r.ids == [] && r.kept == [])
    && (!Unopened(r) ==> r.core.out == Replies(r) + LastWords(r))
    && (!r.phase.Returned? ==> !r.core.signaled)
    && (r.kept != [] ==> r.ids != [])
    && (r.phase.Returned? && r.phase.outcome.Failed? && Rejects(r.phase.outcome.failure) ==> r.ids == [])
    && (r.phase.InBody? ==> r.got == |r.written|)
    && (r.phase.AwaitDone? || r.phase == Returned(Nil) ==> |r.kept| == |r.ids| && r.ids != []);
    all
  }

  /** A failure that leaves as its last word exactly one message. */
  lemma ExitShape(r: State, core: Core, f: Failure, io: Io, last: seq<Msg>)
    requires Shape(r) && Waiting(r)
    requires core.Abort(f, io).out == r.core.out + last
    requires Rejects(f) ==> r.ids == []
    requires f != NotOpened && LastWords(r.(phase := Returned(Failed(f)))) == last
    ensures Shape(Fail(r.(core := core), f, io))
  {
    var r' := Fail(r.(core := core), f, io);
    assert Replies(r') == Replies(r);
    assert LastWords(r) == [];
  }

  lemma ComplainShape(r: State, io: Io)
    requires Shape(r) && Waiting(r) && Sends(io)
    ensures Shape(Complain(r, io))
  {
    ExitShape(r, r.core.Signal(Error(CodeProtocol), io), ErrProtocol, io, [Text(Error(CodeProtocol))]);
  }

  lemma CancelShape(r: State, f: Failure, io: Io)
    requires Shape(r) && Waiting(r) && Sends(io)
    requires f == ErrPeerClosed || f == ErrContext || f == ErrFile
    ensures Shape(Fail(r, f, io))
  {
    ExitShape(r, r.core, f, io, [Text(Cancel)]);
  }

  lemma TerminalShape(r: State, f: Failure, io: Io)
    requires Shape(r) && Waiting(r) && (f == ErrPeerCancel || f.ErrPeer?)
    ensures Shape(Fail(r.(core := r.core.(signaled := true)), f, io))
  {
    assert r.core.out + [] == r.core.out;
    ExitShape(r, r.core.(signaled := true), f, io, []);
  }

  lemma VerdictShape(r: State, files: seq<FileMeta>, verdict: Verdict, io: Io)
    requires Shape(r) && r.phase.AwaitManifest? && Sends(io)
    requires verdict.Accepting? ==> verdict.ids != [] && IdsKnown(verdict.ids, files)
    requires verdict.Rejecting? ==> Rejects(verdict.f)
    ensures Shape(OnVerdict(r, files, verdict, io))
  {
    match verdict
    case BadManifest => ComplainShape(r, io);
    case Rejecting(f) => ExitShape(r, r.core.Signal(Reject, io), f, io, [Text(Reject)]);
    case Accepting(ids) =>
      var r' := OnVerdict(r, files, verdict, io);
      assert Acks([]) == [];
      assert Replies(r) == [Text(Hello(VERSION))];
      assert LastWords(r) == [];
  }

  lemma AcknowledgeShape(r: State, sha256: string, io: Io)
    requires Shape(r) && r.phase.InBody? && Sends(io)
    ensures Shape(Acknowledge(r, sha256, io))
  {
    var r' := Acknowledge(r, sha256, io);
    var ack := Text(FileAck(Meta(r).id, StatusOk, r.got));
    assert Acks(r'.kept) == Acks(r.kept) + [ack];
    assert LastWords(r) == [] && LastWords(r') == [];
  }

  lemma FileEndShape(cfg: Config, r: State, id: int, sha256: string, io: Io)
    requires Shape(r) && r.phase.InBody? && Sends(io)
    ensures Shape(OnFileEnd(cfg, r, id, sha256, io))
  {
    var meta := Meta(r);
    if id != meta.id || r.got != meta.size {
      ComplainShape(r, io);
    } else if !EqualFold(cfg.sha(r.hashed), sha256) {
      var ack := FileAck(meta.id, StatusHashMismatch, r.got);
      ExitShape(r, r.core.Say(ack, io).Emit(FileDone(meta.id, r.got, meta.size, false)), ErrHashMismatch, io,
                [Text(ack), Text(Cancel)]);
    } else if !io.fileOk {
      CancelShape(r, ErrFile, io);
    } else {
      AcknowledgeShape(r, sha256, io);
    }
  }

  lemma QuietShape(r: State, r': State)
    requires Shape(r) && Waiting(r) && WellFormed(r') && Waiting(r')
    requires r'.core.out == r.core.out && r'.core.signaled == r.core.signaled
    requires r'.ids == r.ids && r'.files == r.files && r'.kept == r.kept
    requires r'.phase.InBody? ==> r'.got == |r'.written|
    requires r'.phase.AwaitDone? ==> r.phase.AwaitDone?
    ensures Shape(r')
  {
    assert Replies(r') == Replies(r);
    assert LastWords(r) == [] && LastWords(r') == [];
  }

  lemma ControlShape(cfg: Config, r: State, c: Control, io: Io)
    requires Shape(r) && Waiting(r) && Sends(io) && WellFormed(OnControl(cfg, r, c, io))
    ensures Shape(OnControl(cfg, r, c, io))
  {
    if r.phase.AwaitHello? && c.Hello? {
      if c.v == VERSION {
        QuietShape(r, OnControl(cfg, r, c, io));
      } else {
        ExitShape(r, r.core.Signal(Error(CodeVersion), io), ErrVersion, io, [Text(Error(CodeVersion))]);
      }
    } else if r.phase.AwaitManifest? && c.Manifest? {
      if Judge(cfg, c.files).Accepting? {
        JudgedIds(cfg, c.files);
      }
      VerdictShape(r, c.files, Judge(cfg, c.files), io);
    } else if r.phase.AwaitStart? && c.FileStart? {
      ComplainShape(r, io);
      CancelShape(r, ErrFile, io);
      if Waiting(OnControl(cfg, r, c, io)) {
        QuietShape(r, OnControl(cfg, r, c, io));
      }
    } else if r.phase.InBody? && c.FileEnd? {
      FileEndShape(cfg, r, c.id, c.sha256, io);
    } else if r.phase.AwaitDone? && c.Done? {
      var r' := OnControl(cfg, r, c, io);
      assert Replies(r') == Replies(r);
      assert LastWords(r) == [] && LastWords(r') == [];
    } else {
      ComplainShape(r, io);
    }
  }

  lemma MessageShape(cfg: Config, r: State, m: Msg, io: Io)
    requires Shape(r) && Waiting(r) && Sends(io)
    ensures Shape(OnMessage(cfg, r, m, io))
  {
    StepWellFormed(cfg, r, m, io);
    if m.Text? {
      var c := m.control;
      if c.Cancel? {
        TerminalShape(r, ErrPeerCancel, io);
      } else if c.Error? {
        TerminalShape(r, ErrPeer(c.code), io);
      } else if c.Unknown? {
        ComplainShape(r, io);
      } else {
        ControlShape(cfg, r, c, io);
      }
    } else if m.Binary? && r.phase.InBody? && r.got + |m.data| <= Meta(r).size && io.fileOk {
      QuietShape(r, OnMessage(cfg, r, m, io));
    } else {
      ComplainShape(r, io);
      CancelShape(r, ErrFile, io);
    }
  }

  /** While the channel is open, what has been sent is always exactly what the state says. */
  lemma StepShape(cfg: Config, r: State, a: Arrival, io: Io)
    requires Shape(r) && Sends(io)
    ensures Shape(Step(cfg, r, a, io))
  {
    if Waiting(r) {
      match a
      case Closed => CancelShape(r, ErrPeerClosed, io);
      case CtxDone => CancelShape(r, ErrContext, io);
      case Message(m) => MessageShape(cfg, r, m, io);
    }
  }

  lemma StartShape(r: State, io: Io)
    requires Shape(r) && r.phase.Idle? && Sends(io)
    ensures Shape(Start(r, io))
  {
  }
}
