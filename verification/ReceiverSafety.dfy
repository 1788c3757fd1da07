/** What every run of the receiver keeps, whatever arrives and whatever fails. */
module ReceiverSafety {
  import opened Protocol
  import opened Directory
  import opened Acceptance
  import opened Session
  import opened Receiver

  // ----- The destination directory ------------------------------------------------------------

  /** The directory after storing the verified files in order. */
  function Place(dir0: Dir, kept: seq<Kept>): Dir {
    if kept == [] then dir0
    else Place(dir0, kept[..|kept| - 1])[kept[|kept| - 1].path := kept[|kept| - 1].data]
  }

  /** The i-th verified file is the i-th accepted file, complete, under a name that was free. */
  ghost predicate StoredAt(cfg: Config, dir0: Dir, r: State, i: nat)
    requires i < |r.kept|
  {
    && i < |r.ids| && r.kept[i].id == r.ids[i] && r.ids[i] in ById(r.files)
    && var meta := ById(r.files)[r.ids[i]];
       && |r.kept[i].data| == meta.size
       && EqualFold(cfg.sha(r.kept[i].data), r.kept[i].sha256)
       && Sanitize(meta.name).NameOk?
       && Dest(Place(dir0, r.kept[..i]), Sanitize(meta.name).name) == Some(r.kept[i].path)
  }

  ghost predicate AllStored(cfg: Config, dir0: Dir, r: State) {
    forall i: nat | i < |r.kept| :: StoredAt(cfg, dir0, r, i)
  }

  /** Inside a file: what was counted, hashed and written is one and the same, under a free name. */
  ghost predicate BodyOk(dir0: Dir, r: State)
    requires WellFormed(r) && r.phase.InBody?
  {
    && r.got == |r.written| && r.hashed == r.written && r.got <= Meta(r).size
    && Sanitize(Meta(r).name).NameOk?
    && Dest(Place(dir0, r.kept), Sanitize(Meta(r).name).name) == Some(r.path)
    && r.dir == Place(dir0, r.kept)[r.path := r.written]
  }

  ghost predicate DirOk(cfg: Config, dir0: Dir, r: State) {
    && WellFormed(r)
    && AllStored(cfg, dir0, r)
    && (r.phase.AwaitDone? || r.phase == Returned(Nil) ==> |r.kept| == |r.ids|)
    && (r.phase.InBody? ==> BodyOk(dir0, r))
    && (!r.phase.InBody? ==> r.dir == Place(dir0, r.kept))
  }

  lemma StoredFrame(cfg: Config, dir0: Dir, r: State, r': State)
    requires AllStored(cfg, dir0, r)
    requires r'.kept == r.kept && (r.kept == [] || (r'.ids == r.ids && r'.files == r.files))
    ensures AllStored(cfg, dir0, r')
  {
    forall i: nat | i < |r'.kept|
      ensures StoredAt(cfg, dir0, r', i)
    {
      assert StoredAt(cfg, dir0, r, i);
    }
  }

  lemma RemoveAdded(dir: Dir, path: string, data: Bytes)
    requires path !in dir
    ensures dir[path := data] - {path} == dir
  {
  }

  lemma FailKeepsDir(cfg: Config, dir0: Dir, r: State, core: Core, f: Failure, io: Io)
    requires DirOk(cfg, dir0, r)
    ensures DirOk(cfg, dir0, Fail(r.(core := core), f, io))
  {
    var r' := Fail(r.(core := core), f, io);
    StoredFrame(cfg, dir0, r, r');
    if r.phase.InBody? {
      RemoveAdded(Place(dir0, r.kept), r.path, r.written);
    }
    assert r'.dir == Place(dir0, r'.kept);
  }

  lemma VerdictKeepsDir(cfg: Config, dir0: Dir, r: State, files: seq<FileMeta>, verdict: Verdict, io: Io)
    requires DirOk(cfg, dir0, r) && r.phase.AwaitManifest?
    requires verdict.Accepting? ==> verdict.ids != [] && IdsKnown(verdict.ids, files)
    ensures DirOk(cfg, dir0, OnVerdict(r, files, verdict, io))
  {
    StoredFrame(cfg, dir0, r, OnVerdict(r, files, verdict, io));
  }

  lemma FileStartKeepsDir(cfg: Config, dir0: Dir, r: State, id: int, io: Io)
    requires DirOk(cfg, dir0, r) && r.phase.AwaitStart?
    ensures DirOk(cfg, dir0, OnFileStart(r, id, io))
  {
    var r' := OnFileStart(r, id, io);
    StoredFrame(cfg, dir0, r, r');
    if r'.phase.InBody? {
      assert Meta(r') == Meta(r);
    }
  }

  lemma ChunkKeepsDir(cfg: Config, dir0: Dir, r: State, data: Bytes, io: Io)
    requires DirOk(cfg, dir0, r) && r.phase.InBody?
    ensures DirOk(cfg, dir0, OnChunk(r, data, io))
  {
    if r.got + |data| > Meta(r).size {
      FailKeepsDir(cfg, dir0, r, r.core.Signal(Error(CodeProtocol), io), ErrProtocol, io);
    } else if !io.fileOk {
      FailKeepsDir(cfg, dir0, r, r.core, ErrFile, io);
    } else {
      var r' := OnChunk(r, data, io);
      StoredFrame(cfg, dir0, r, r');
      assert Meta(r') == Meta(r);
      Overwritten(Place(dir0, r.kept), r.path, r.written, r'.written);
    }
  }

  /** The state right after the verdict "ok", before the acknowledgement is sent. */
  lemma KeepingKeepsDir(cfg: Config, dir0: Dir, r: State, sha256: string, r': State)
    requires DirOk(cfg, dir0, r) && r.phase.InBody?
    requires r.got == Meta(r).size && EqualFold(cfg.sha(r.hashed), sha256)
    requires r'.kept == r.kept + [Kept(Meta(r).id, r.path, r.written, sha256)]
    requires r'.ids == r.ids && r'.files == r.files && r'.dir == r.dir
    requires r'.phase == if |r.kept| + 1 == |r.ids| then AwaitDone else AwaitStart
    ensures DirOk(cfg, dir0, r')
  {
    hide Dest, Sanitize, ById, EqualFold;
    var n := |r.kept|;
    assert r'.kept[..n] == r.kept;
    assert Place(dir0, r'.kept) == r.dir;
    forall i: nat | i < |r'.kept|
      ensures StoredAt(cfg, dir0, r', i)
    {
      assert r'.kept[..i] == r.kept[..i];
      if i < n {
        assert StoredAt(cfg, dir0, r, i);
      }
    }
  }

  lemma FileEndKeepsDir(cfg: Config, dir0: Dir, r: State, id: int, sha256: string, io: Io)
    requires DirOk(cfg, dir0, r) && r.phase.InBody?
    ensures DirOk(cfg, dir0, OnFileEnd(cfg, r, id, sha256, io))
  {
    var meta := Meta(r);
    if id != meta.id || r.got != meta.size {
      FailKeepsDir(cfg, dir0, r, r.core.Signal(Error(CodeProtocol), io), ErrProtocol, io);
    } else if !EqualFold(cfg.sha(r.hashed), sha256) {
      FailKeepsDir(cfg, dir0, r, r.core.Say(FileAck(meta.id, StatusHashMismatch, r.got), io)
                            .Emit(FileDone(meta.id, r.got, meta.size, false)), ErrHashMismatch, io);
    } else if !io.fileOk {
      FailKeepsDir(cfg, dir0, r, r.core, ErrFile, io);
    } else {
      var kept := r.(phase := if |r.kept| + 1 == |r.ids| then AwaitDone else AwaitStart,
                     kept := r.kept + [Kept(meta.id, r.path, r.written, sha256)]);
      KeepingKeepsDir(cfg, dir0, r, sha256, kept);
      if !io.sendOk {
        FailKeepsDir(cfg, dir0, kept, kept.core, ErrSend, io);
      } else {
        KeepingKeepsDir(cfg, dir0, r, sha256, OnFileEnd(cfg, r, id, sha256, io));
      }
    }
  }

  lemma OtherKeepsDir(cfg: Config, dir0: Dir, r: State, c: Control, io: Io)
    requires DirOk(cfg, dir0, r) && Waiting(r)
    requires (r.phase.AwaitHello? && c.Hello?) || (r.phase.AwaitDone? && c.Done?)
    ensures DirOk(cfg, dir0, OnControl(cfg, r, c, io))
  {
    var r' := OnControl(cfg, r, c, io);
    StoredFrame(cfg, dir0, r, r');
  }

  lemma ControlKeepsDir(cfg: Config, dir0: Dir, r: State, c: Control, io: Io)
    requires DirOk(cfg, dir0, r) && Waiting(r)
    ensures DirOk(cfg, dir0, OnControl(cfg, r, c, io))
  {
    if r.phase.AwaitManifest? && c.Manifest? {
      if Judge(cfg, c.files).Accepting? {
        JudgedIds(cfg, c.files);
      }
      VerdictKeepsDir(cfg, dir0, r, c.files, Judge(cfg, c.files), io);
    } else if r.phase.AwaitStart? && c.FileStart? {
      FileStartKeepsDir(cfg, dir0, r, c.id, io);
    } else if r.phase.InBody? && c.FileEnd? {
      FileEndKeepsDir(cfg, dir0, r, c.id, c.sha256, io);
    } else if (r.phase.AwaitHello? && c.Hello?) || (r.phase.AwaitDone? && c.Done?) {
      OtherKeepsDir(cfg, dir0, r, c, io);
    } else {
      FailKeepsDir(cfg, dir0, r, r.core.Signal(Error(CodeProtocol), io), ErrProtocol, io);
    }
  }

  lemma MessageKeepsDir(cfg: Config, dir0: Dir, r: State, m: Msg, io: Io)
    requires DirOk(cfg, dir0, r) && Waiting(r)
    ensures DirOk(cfg, dir0, OnMessage(cfg, r, m, io))
  {
    FailKeepsDir(cfg, dir0, r, r.core.Signal(Error(CodeProtocol), io), ErrProtocol, io);
    if m.Binary? {
      if r.phase.InBody? {
        ChunkKeepsDir(cfg, dir0, r, m.data, io);
      }
    } else if m.Text? {
      var c := m.control;
      if c.Cancel? {
        FailKeepsDir(cfg, dir0, r, r.core.(signaled := true), ErrPeerCancel, io);
      } else if c.Error? {
        FailKeepsDir(cfg, dir0, r, r.core.(signaled := true), ErrPeer(c.code), io);
      } else if !c.Unknown? {
        ControlKeepsDir(cfg, dir0, r, c, io);
      }
    }
  }

  lemma StepKeepsDir(cfg: Config, dir0: Dir, r: State, a: Arrival, io: Io)
    requires DirOk(cfg, dir0, r)
    ensures DirOk(cfg, dir0, Step(cfg, r, a, io))
  {
    if Waiting(r) {
      match a
      case Closed => FailKeepsDir(cfg, dir0, r, r.core, ErrPeerClosed, io);
      case CtxDone => FailKeepsDir(cfg, dir0, r, r.core, ErrContext, io);
      case Message(m) => MessageKeepsDir(cfg, dir0, r, m, io);
    }
  }

  // ----- Last words ---------------------------------------------------------------------------

  ghost predicate SignalsOk(r: State) {
    if r.phase.Returned? then FinalIsLast(r.core.out) else Open(r.core)
  }

  lemma FailKeepsSignals(r: State, f: Failure, io: Io)
    requires Closing(r.core)
    ensures SignalsOk(Fail(r, f, io)) && r.core.out <= Fail(r, f, io).core.out
  {
    AbortEnds(r.core, f, io);
  }

  lemma SignalKeepsSignals(r: State, c: Control, f: Failure, io: Io)
    requires Open(r.core) && IsFinal(Text(c))
    ensures SignalsOk(Fail(r.(core := r.core.Signal(c, io)), f, io))
    ensures r.core.out <= Fail(r.(core := r.core.Signal(c, io)), f, io).core.out
  {
    SignalCloses(r.core, c, io);
    FailKeepsSignals(r.(core := r.core.Signal(c, io)), f, io);
  }

  lemma FileEndKeepsSignals(cfg: Config, r: State, id: int, sha256: string, io: Io)
    requires WellFormed(r) && Open(r.core) && r.phase.InBody?
    ensures SignalsOk(OnFileEnd(cfg, r, id, sha256, io))
    ensures r.core.out <= OnFileEnd(cfg, r, id, sha256, io).core.out
  {
    var meta := Meta(r);
    var bad := r.core.Say(FileAck(meta.id, StatusHashMismatch, r.got), io);
    var good := r.core.Say(FileAck(meta.id, StatusOk, r.got), io);
    SayKeepsOpen(r.core, FileAck(meta.id, StatusHashMismatch, r.got), io);
    SayKeepsOpen(r.core, FileAck(meta.id, StatusOk, r.got), io);
    SignalKeepsSignals(r, Error(CodeProtocol), ErrProtocol, io);
    FailKeepsSignals(r.(core := bad.Emit(FileDone(meta.id, r.got, meta.size, false))), ErrHashMismatch, io);
    FailKeepsSignals(r, ErrFile, io);
    AbortEnds(r.core, ErrSend, io);
  }

  lemma VerdictKeepsSignals(r: State, files: seq<FileMeta>, verdict: Verdict, io: Io)
    requires Open(r.core) && r.phase.AwaitManifest?
    ensures SignalsOk(OnVerdict(r, files, verdict, io))
    ensures r.core.out <= OnVerdict(r, files, verdict, io).core.out
  {
    match verdict
    case BadManifest => SignalKeepsSignals(r, Error(CodeProtocol), ErrProtocol, io);
    case Rejecting(f) => SignalKeepsSignals(r, Reject, f, io);
    case Accepting(ids) =>
      FailKeepsSignals(r, ErrSend, io);
      SayKeepsOpen(r.core, Accept(WireForm(ids, |files|)), io);
  }

  lemma MessageKeepsSignals(cfg: Config, r: State, m: Msg, io: Io)
    requires WellFormed(r) && Open(r.core) && Waiting(r)
    ensures SignalsOk(OnMessage(cfg, r, m, io))
    ensures r.core.out <= OnMessage(cfg, r, m, io).core.out
  {
    OpenMayClose(r.core);
    hide FinalIsLast, NoFinal, OnControl;
    SignalKeepsSignals(r, Error(CodeProtocol), ErrProtocol, io);
    match m
    case Binary(data) => FailKeepsSignals(r, ErrFile, io);
    case Malformed =>
    case Text(c) =>
      if c.Cancel? {
        FailKeepsSignals(r.(core := r.core.(signaled := true)), ErrPeerCancel, io);
      } else if c.Error? {
        FailKeepsSignals(r.(core := r.core.(signaled := true)), ErrPeer(c.code), io);
      } else if !c.Unknown? {
        ControlKeepsSignals(cfg, r, c, io);
      }
  }

  lemma ControlKeepsSignals(cfg: Config, r: State, c: Control, io: Io)
    requires WellFormed(r) && Open(r.core) && Waiting(r)
    ensures SignalsOk(OnControl(cfg, r, c, io))
    ensures r.core.out <= OnControl(cfg, r, c, io).core.out
  {
    OpenMayClose(r.core);
    hide FinalIsLast, NoFinal, Judge, OnVerdict, OnFileEnd, Dest, Sanitize, ById, IdsKnown;
    SignalKeepsSignals(r, Error(CodeProtocol), ErrProtocol, io);
    if r.phase.AwaitHello? && c.Hello? {
      SignalKeepsSignals(r, Error(CodeVersion), ErrVersion, io);
    } else if r.phase.AwaitManifest? && c.Manifest? {
      VerdictKeepsSignals(r, c.files, Judge(cfg, c.files), io);
    } else if r.phase.AwaitStart? && c.FileStart? {
      FailKeepsSignals(r, ErrFile, io);
    } else if r.phase.InBody? && c.FileEnd? {
      FileEndKeepsSignals(cfg, r, c.id, c.sha256, io);
    }
  }

  lemma StepKeepsSignals(cfg: Config, r: State, a: Arrival, io: Io)
    requires WellFormed(r) && SignalsOk(r)
    ensures SignalsOk(Step(cfg, r, a, io))
    ensures r.core.out <= Step(cfg, r, a, io).core.out
  {
    if Waiting(r) {
      match a
      case Closed => FailKeepsSignals(r, ErrPeerClosed, io);
      case CtxDone => FailKeepsSignals(r, ErrContext, io);
      case Message(m) => MessageKeepsSignals(cfg, r, m, io);
    }
  }

  /** After a cancel or error from the peer the receiver is done and says nothing more. */
  lemma SilentAfterTerminal(cfg: Config, r: State, m: Msg, io: Io)
    requires WellFormed(r) && Waiting(r) && IsTerminal(m)
    ensures Step(cfg, r, Message(m), io).phase.Returned?
    ensures Step(cfg, r, Message(m), io).core.out == r.core.out
  {
  }

  // ----- Events -------------------------------------------------------------------------------

  function Items(ids: seq<int>, files: seq<FileMeta>): seq<Item>
    requires IdsKnown(ids, files)
  {
    seq(|ids|, i requires 0 <= i < |ids| => Item(ids[i], ById(files)[ids[i]].size))
  }

  function PositionOf(r: State): Position {
    match r.phase
    case InBody => Inside(|r.kept|, r.got)
    case Returned(Nil) => Finished
    case Returned(Failed(_)) => Broken
    case _ => Between(|r.kept|)
  }

  ghost predicate EventsOk(r: State)
    requires WellFormed(r)
  {
    && Scan(Items(r.ids, r.files), true, r.core.events) == PositionOf(r)
    && (r.phase.AwaitManifest? ==> r.core.events == [])
    && (r.phase.AwaitHello? ==> r.core.events == [])
    && (r.phase.Idle? ==> r.core.events == [])
    && (r.phase.AwaitDone? ==> |r.kept| == |r.ids|)
    && (r.phase.InBody? ==> r.got >= 0)
  }

  lemma FailKeepsEvents(r: State, core: Core, f: Failure, io: Io)
    requires WellFormed(r) && core.events == r.core.events
    requires var p := Scan(Items(r.ids, r.files), true, r.core.events); p.Between? || p.Inside?
    ensures EventsOk(Fail(r.(core := core), f, io))
  {
    ScanAppend(Items(r.ids, r.files), true, r.core.events, SessionError(f));
  }

  lemma CurrentItem(r: State)
    requires WellFormed(r) && (r.phase.AwaitStart? || r.phase.InBody?)
    ensures |r.kept| < |Items(r.ids, r.files)|
    ensures Items(r.ids, r.files)[|r.kept|] == Item(Meta(r).id, Meta(r).size)
  {
  }

  lemma FileStartKeepsEvents(r: State, id: int, io: Io)
    requires WellFormed(r) && EventsOk(r) && r.phase.AwaitStart?
    ensures EventsOk(OnFileStart(r, id, io))
  {
    hide Items, Sanitize, Dest;
    CurrentItem(r);
    FailKeepsEvents(r, r.core.Signal(Error(CodeProtocol), io), ErrProtocol, io);
    FailKeepsEvents(r, r.core, ErrFile, io);
    ScanAppend(Items(r.ids, r.files), true, r.core.events, FileStarted(Meta(r).id, Meta(r).size));
  }

  lemma ChunkKeepsEvents(r: State, data: Bytes, io: Io)
    requires WellFormed(r) && EventsOk(r) && r.phase.InBody?
    ensures EventsOk(OnChunk(r, data, io))
  {
    CurrentItem(r);
    if r.got + |data| > Meta(r).size {
      FailKeepsEvents(r, r.core.Signal(Error(CodeProtocol), io), ErrProtocol, io);
    } else if !io.fileOk {
      FailKeepsEvents(r, r.core, ErrFile, io);
    } else {
      ScanAppend(Items(r.ids, r.files), true, r.core.events, Progress(Meta(r).id, r.got + |data|, Meta(r).size));
    }
  }

  lemma FileEndKeepsEvents(cfg: Config, r: State, id: int, sha256: string, io: Io)
    requires WellFormed(r) && EventsOk(r) && r.phase.InBody?
    ensures EventsOk(OnFileEnd(cfg, r, id, sha256, io))
  {
    var meta := Meta(r);
    var items := Items(r.ids, r.files);
    CurrentItem(r);
    if id != meta.id || r.got != meta.size {
      FailKeepsEvents(r, r.core.Signal(Error(CodeProtocol), io), ErrProtocol, io);
    } else if !EqualFold(cfg.sha(r.hashed), sha256) {
      BadDigestKeepsEvents(r, io);
    } else if !io.fileOk {
      FailKeepsEvents(r, r.core, ErrFile, io);
    } else {
      GoodDigestKeepsEvents(r, sha256, io);
    }
  }

  lemma BadDigestKeepsEvents(r: State, io: Io)
    requires WellFormed(r) && EventsOk(r) && r.phase.InBody? && r.got == Meta(r).size
    ensures EventsOk(Fail(r.(core := r.core.Say(FileAck(Meta(r).id, StatusHashMismatch, r.got), io)
                            .Emit(FileDone(Meta(r).id, r.got, Meta(r).size, false))), ErrHashMismatch, io))
  {
    var ended := FileDone(Meta(r).id, r.got, Meta(r).size, false);
    CurrentItem(r);
    hide Items, Scan, ById;
    ScanAppend(Items(r.ids, r.files), true, r.core.events, ended);
    BrokenKeepsEvents(r, r.core.Say(FileAck(Meta(r).id, StatusHashMismatch, r.got), io).Emit(ended),
                      ErrHashMismatch, io);
  }

  lemma BrokenKeepsEvents(r: State, core: Core, f: Failure, io: Io)
    requires WellFormed(r)
    requires Follow(Items(r.ids, r.files), true, Scan(Items(r.ids, r.files), true, core.events), SessionError(f)) == Broken
    ensures EventsOk(Fail(r.(core := core), f, io))
  {
    hide Items, Scan;
    ScanAppend(Items(r.ids, r.files), true, core.events, SessionError(f));
  }

  lemma GoodDigestKeepsEvents(r: State, sha256: string, io: Io)
    requires WellFormed(r) && EventsOk(r) && r.phase.InBody? && r.got == Meta(r).size
    ensures EventsOk(Acknowledge(r, sha256, io))
  {
    CurrentItem(r);
    ScanAppend(Items(r.ids, r.files), true, r.core.events, SessionError(ErrSend));
    ScanAppend(Items(r.ids, r.files), true, r.core.events, FileDone(Meta(r).id, r.got, Meta(r).size, true));
  }

  lemma ControlKeepsEvents(cfg: Config, r: State, c: Control, io: Io)
    requires WellFormed(r) && EventsOk(r) && Waiting(r) && WellFormed(OnControl(cfg, r, c, io))
    ensures EventsOk(OnControl(cfg, r, c, io))
  {
    hide Judge, Items, Scan, IdsKnown;
    if r.phase.AwaitManifest? && c.Manifest? {
      hide OnVerdict;
      VerdictKeepsEvents(r, c.files, Judge(cfg, c.files), io);
    } else if r.phase.AwaitStart? && c.FileStart? {
      hide OnFileStart;
      FileStartKeepsEvents(r, c.id, io);
    } else if r.phase.InBody? && c.FileEnd? {
      hide OnFileEnd;
      FileEndKeepsEvents(cfg, r, c.id, c.sha256, io);
    } else if r.phase.AwaitDone? && c.Done? {
      DoneKeepsEvents(r);
    } else if r.phase.AwaitHello? && c.Hello? {
      FailKeepsEvents(r, r.core.Signal(Error(CodeVersion), io), ErrVersion, io);
    } else {
      FailKeepsEvents(r, r.core.Signal(Error(CodeProtocol), io), ErrProtocol, io);
    }
  }

  lemma DoneKeepsEvents(r: State)
    requires WellFormed(r) && EventsOk(r) && r.phase.AwaitDone?
    ensures EventsOk(OnDone(r))
  {
    ScanAppend(Items(r.ids, r.files), true, r.core.events, AllDone);
  }

  lemma MessageKeepsEvents(cfg: Config, r: State, m: Msg, io: Io)
    requires WellFormed(r) && EventsOk(r) && Waiting(r) && WellFormed(OnMessage(cfg, r, m, io))
    ensures EventsOk(OnMessage(cfg, r, m, io))
  {
    FailKeepsEvents(r, r.core.Signal(Error(CodeProtocol), io), ErrProtocol, io);
    if m.Binary? {
      if r.phase.InBody? {
        ChunkKeepsEvents(r, m.data, io);
      }
    } else if m.Text? {
      var c := m.control;
      if c.Cancel? {
        FailKeepsEvents(r, r.core.(signaled := true), ErrPeerCancel, io);
      } else if c.Error? {
        FailKeepsEvents(r, r.core.(signaled := true), ErrPeer(c.code), io);
      } else if !c.Unknown? {
        ControlKeepsEvents(cfg, r, c, io);
      }
    }
  }

  lemma VerdictKeepsEvents(r: State, files: seq<FileMeta>, verdict: Verdict, io: Io)
    requires WellFormed(r) && EventsOk(r) && r.phase.AwaitManifest?
    requires WellFormed(OnVerdict(r, files, verdict, io))
    ensures EventsOk(OnVerdict(r, files, verdict, io))
  {
    match verdict
    case BadManifest => FailKeepsEvents(r, r.core.Signal(Error(CodeProtocol), io), ErrProtocol, io);
    case Rejecting(f) => FailKeepsEvents(r, r.core.Signal(Reject, io), f, io);
    case Accepting(ids) => FailKeepsEvents(r, r.core, ErrSend, io);
  }

  lemma StepKeepsEvents(cfg: Config, r: State, a: Arrival, io: Io)
    requires WellFormed(r) && EventsOk(r)
    ensures EventsOk(Step(cfg, r, a, io))
  {
    if Waiting(r) {
      match a
      case Closed => FailKeepsEvents(r, r.core, ErrPeerClosed, io);
      case CtxDone => FailKeepsEvents(r, r.core, ErrContext, io);
      case Message(m) =>
        StepWellFormed(cfg, r, m, io);
        MessageKeepsEvents(cfg, r, m, io);
    }
  }

  // ----- Over whole runs ----------------------------------------------------------------------

  lemma {:induction false} RunKeeps(cfg: Config, dir0: Dir, r: State, ins: seq<Input>)
    requires DirOk(cfg, dir0, r) && SignalsOk(r) && EventsOk(r)
    ensures DirOk(cfg, dir0, Run(cfg, r, ins)) && SignalsOk(Run(cfg, r, ins)) && EventsOk(Run(cfg, r, ins))
    decreases |ins|
  {
    if ins != [] {
      StepKeepsDir(cfg, dir0, r, ins[0].arrival, ins[0].io);
      StepKeepsSignals(cfg, r, ins[0].arrival, ins[0].io);
      StepKeepsEvents(cfg, r, ins[0].arrival, ins[0].io);
      RunKeeps(cfg, dir0, Step(cfg, r, ins[0].arrival, ins[0].io), ins[1..]);
    }
  }

  /** A receiver started on a directory and fed any inputs. */
  function Receive(cfg: Config, dir0: Dir, io0: Io, ins: seq<Input>): State {
    Run(cfg, Start(Init(dir0), io0), ins)
  }

  lemma ReceiveKeeps(cfg: Config, dir0: Dir, io0: Io, ins: seq<Input>)
    ensures var r := Receive(cfg, dir0, io0, ins);
            DirOk(cfg, dir0, r) && SignalsOk(r) && EventsOk(r)
  {
    var r := Start(Init(dir0), io0);
    ScanAppend([], true, [], SessionError(NotOpened));
    ScanAppend([], true, [], SessionError(ErrSend));
    RunKeeps(cfg, dir0, r, ins);
  }

  ghost predicate FreshPaths(dir0: Dir, kept: seq<Kept>) {
    kept != [] ==>
      var front := kept[..|kept| - 1];
      FreshPaths(dir0, front) && kept[|kept| - 1].path !in Place(dir0, front)
  }

  lemma {:induction false} StoredFresh(cfg: Config, dir0: Dir, r: State, n: nat)
    requires AllStored(cfg, dir0, r) && n <= |r.kept|
    ensures FreshPaths(dir0, r.kept[..n])
  {
    hide Dest, Sanitize, ById;
    if n > 0 {
      StoredFresh(cfg, dir0, r, n - 1);
      assert StoredAt(cfg, dir0, r, n - 1);
      assert r.kept[..n][..n - 1] == r.kept[..n - 1];
    }
  }

  /** Storing under fresh names keeps the old entries. */
  lemma {:induction false} PlaceKeepsOld(dir0: Dir, kept: seq<Kept>, p: string)
    requires FreshPaths(dir0, kept) && p in dir0
    ensures p in Place(dir0, kept) && Place(dir0, kept)[p] == dir0[p]
  {
    if kept != [] {
      PlaceKeepsOld(dir0, kept[..|kept| - 1], p);
    }
  }

  /** Each stored file is there, under a name that was not. */
  lemma {:induction false} PlaceStores(dir0: Dir, kept: seq<Kept>, i: nat)
    requires FreshPaths(dir0, kept) && i < |kept|
    ensures kept[i].path !in dir0
    ensures kept[i].path in Place(dir0, kept) && Place(dir0, kept)[kept[i].path] == kept[i].data
  {
    var front := kept[..|kept| - 1];
    if i < |front| {
      PlaceStores(dir0, front, i);
    } else if kept[i].path in dir0 {
      PlaceKeepsOld(dir0, front, kept[i].path);
    }
  }

  /** Nothing else is. */
  lemma {:induction false} PlaceStoresOnly(dir0: Dir, kept: seq<Kept>, p: string)
    requires p in Place(dir0, kept) && p !in dir0
    ensures exists i :: 0 <= i < |kept| && p == kept[i].path
  {
    var front := kept[..|kept| - 1];
    if p != kept[|kept| - 1].path {
      PlaceStoresOnly(dir0, front, p);
      var i :| 0 <= i < |front| && p == front[i].path;
      assert p == kept[i].path;
    }
  }

  /** The directory after storing: what was there and the files stored. */
  lemma {:induction false} PlaceHolds(dir0: Dir, kept: seq<Kept>, p: string)
    ensures p in Place(dir0, kept) <==> p in dir0 || exists i :: 0 <= i < |kept| && p == kept[i].path
  {
    if kept != [] {
      var front := kept[..|kept| - 1];
      PlaceHolds(dir0, front, p);
      if i :| 0 <= i < |kept| && p == kept[i].path {
        assert i < |front| ==> p == front[i].path;
      }
      if i :| 0 <= i < |front| && p == front[i].path {
        assert p == kept[i].path;
      }
      assert kept[|kept| - 1].path in Place(dir0, kept);
    }
  }

  lemma {:induction false} PathsDiffer(dir0: Dir, kept: seq<Kept>, i: nat, j: nat)
    requires FreshPaths(dir0, kept) && i < j < |kept|
    ensures kept[i].path != kept[j].path
    decreases |kept|
  {
    var front := kept[..|kept| - 1];
    if j < |front| {
      PathsDiffer(dir0, front, i, j);
    } else {
      PlaceStores(dir0, front, i);
    }
  }

  /** A complete copy of the i-th accepted file, with the digest its sender gave. */
  ghost predicate VerifiedCopy(cfg: Config, r: State, i: nat)
    requires i < |r.kept|
  {
    && i < |r.ids| && r.kept[i].id == r.ids[i] && r.ids[i] in ById(r.files)
    && |r.kept[i].data| == ById(r.files)[r.ids[i]].size
    && EqualFold(cfg.sha(r.kept[i].data), r.kept[i].sha256)
    && r.kept[i].path in r.dir && r.dir[r.kept[i].path] == r.kept[i].data
  }

  /**
   * Whenever Receive is over, for whatever reason: what was there is untouched, and what is new is
   * exactly the verified files of a prefix of the accepted list, complete, each under its own name.
   */
  lemma DirectoryOnExit(cfg: Config, dir0: Dir, io0: Io, ins: seq<Input>)
    requires Receive(cfg, dir0, io0, ins).phase.Returned?
    ensures var r := Receive(cfg, dir0, io0, ins);
      && (forall p | p in dir0 :: p in r.dir && r.dir[p] == dir0[p])
      && (forall p | p in r.dir && p !in dir0 :: exists i :: 0 <= i < |r.kept| && p == r.kept[i].path)
      && (forall i: nat, j: nat | i < j < |r.kept| :: r.kept[i].path != r.kept[j].path)
      && (forall i: nat | i < |r.kept| :: r.kept[i].path !in dir0 && VerifiedCopy(cfg, r, i))
      && (r.phase == Returned(Nil) ==> |r.kept| == |r.ids|)
  {
    ReceiveKeeps(cfg, dir0, io0, ins);
    var r := Receive(cfg, dir0, io0, ins);
    StoredFresh(cfg, dir0, r, |r.kept|);
    assert r.kept[..|r.kept|] == r.kept;
    forall p | p in dir0
      ensures p in r.dir && r.dir[p] == dir0[p]
    {
      PlaceKeepsOld(dir0, r.kept, p);
    }
    forall p | p in r.dir && p !in dir0
      ensures exists i :: 0 <= i < |r.kept| && p == r.kept[i].path
    {
      PlaceStoresOnly(dir0, r.kept, p);
    }
    forall i: nat, j: nat | i < j < |r.kept|
      ensures r.kept[i].path != r.kept[j].path
    {
      PathsDiffer(dir0, r.kept, i, j);
    }
    forall i: nat | i < |r.kept|
      ensures r.kept[i].path !in dir0 && VerifiedCopy(cfg, r, i)
    {
      assert StoredAt(cfg, dir0, r, i);
      PlaceStores(dir0, r.kept, i);
    }
  }

  /** In every run each kept file lies under the first free form of its sanitized manifest name. */
  lemma StoredUnderOwnName(cfg: Config, dir0: Dir, io0: Io, ins: seq<Input>, i: nat)
    requires i < |Receive(cfg, dir0, io0, ins).kept|
    ensures var r := Receive(cfg, dir0, io0, ins);
      && i < |r.ids| && r.ids[i] in ById(r.files)
      && var name := Sanitize(ById(r.files)[r.ids[i]].name);
        name.NameOk? && LeastFree(Place(dir0, r.kept[..i]), name.name, r.kept[i].path)
  {
    hide Receive, ById, Sanitize, Dest, SignalsOk, EventsOk, LeastFree, Place;
    ReceiveKeeps(cfg, dir0, io0, ins);
    var r := Receive(cfg, dir0, io0, ins);
    assert StoredAt(cfg, dir0, r, i);
    DestExactly(Place(dir0, r.kept[..i]), Sanitize(ById(r.files)[r.ids[i]].name).name);
  }

  /** The receiver's last word is its only last word, over any run. */
  lemma ReceiverTerminalSignals(cfg: Config, dir0: Dir, io0: Io, ins: seq<Input>, more: Input)
    ensures FinalIsLast(Receive(cfg, dir0, io0, ins).core.out)
    ensures Waiting(Receive(cfg, dir0, io0, ins)) ==> NoFinal(Receive(cfg, dir0, io0, ins).core.out)
    ensures var r := Receive(cfg, dir0, io0, ins);
      more.arrival.Message? && IsTerminal(more.arrival.m) ==>
        Step(cfg, r, more.arrival, more.io).core.out == r.core.out
  {
    ReceiveKeeps(cfg, dir0, io0, ins);
    var r := Receive(cfg, dir0, io0, ins);
    if Waiting(r) && more.arrival.Message? && IsTerminal(more.arrival.m) {
      SilentAfterTerminal(cfg, r, more.arrival.m, more.io);
    }
  }

  /** The event stream obeys the contract at every moment and ends in AllDone exactly on success. */
  lemma ReceiverEvents(cfg: Config, dir0: Dir, io0: Io, ins: seq<Input>)
    ensures var r := Receive(cfg, dir0, io0, ins);
      && Scan(Items(r.ids, r.files), true, r.core.events) == PositionOf(r)
      && (r.phase == Returned(Nil) <==> r.core.events != [] && r.core.events[|r.core.events| - 1] == AllDone)
  {
    ReceiveKeeps(cfg, dir0, io0, ins);
    var r := Receive(cfg, dir0, io0, ins);
    FinishedByAllDone(Items(r.ids, r.files), true, r.core.events);
  }
}
