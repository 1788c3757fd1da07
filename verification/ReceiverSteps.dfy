/**
 * What each step of a receiver does besides ending it: what it says, what it reports, and what it does to the
 * directory, case by case on the inputs.
 */
module ReceiverSteps {
  import opened Protocol
  import opened Directory
  import opened Acceptance
  import opened Session
  import opened ReceiverEndings
  import R = Receiver

  // ----- What is said and reported ------------------------------------------------------------------

  /** The accept for a choice: nothing listed when every file was chosen, otherwise the ids in ascending order. */
  ghost predicate AcceptFor(ids: seq<int>, files: seq<FileMeta>, wire: seq<int>) {
    if |ids| == |files| then wire == []
    else Ascending(wire) && forall id :: id in wire <==> id in ids
  }

  /** The digest of the file in hand was wrong. */
  function BadDigestReport(r: R.State, f: Failure): seq<Event>
    requires R.WellFormed(r)
  {
    if f == ErrHashMismatch && r.phase.InBody? then [FileDone(Next(r).id, r.got, Next(r).size, false)] else []
  }

  /** What a step adds to the messages and the events of a receiver that goes on. */
  ghost predicate Tells(cfg: R.Config, r: R.State, a: Arrival, said: seq<Msg>, reported: seq<Event>)
    requires R.WellFormed(r)
  {
    if r.phase.AwaitManifest? && a.Message? && a.m.Text? && a.m.control.Manifest? then
      && cfg.decide(a.m.control.files).Chosen? && reported == []
      && exists wire :: AcceptFor(cfg.decide(a.m.control.files).ids, a.m.control.files, wire) && said == [Text(Accept(wire))]
    else if StartsNext(r, a) then said == [] && reported == [FileStarted(Next(r).id, Next(r).size)]
    else if FittingChunk(r, a) then
      said == [] && reported == [Progress(Next(r).id, r.got + |a.m.data|, Next(r).size)]
    else if EndsInPlace(r, a) then
      && said == [Text(FileAck(Next(r).id, StatusOk, Next(r).size))]
      && reported == [FileDone(Next(r).id, Next(r).size, Next(r).size, true)]
    else
      said == [] && reported == []
  }

  /** The step from r to r', as its core shows it. */
  ghost predicate TellsExactly(cfg: R.Config, r: R.State, a: Arrival, r': R.State)
    requires R.WellFormed(r)
  {
    match r'.phase
    case Returned(Failed(f)) => r'.core.events == r.core.events + BadDigestReport(r, f) + [SessionError(f)]
    case Returned(Nil) => r'.core.out == r.core.out && r'.core.events == r.core.events + [AllDone]
    case _ =>
      exists said, reported ::
        && Tells(cfg, r, a, said, reported)
        && r'.core.out == r.core.out + said && r'.core.events == r.core.events + reported
  }

  lemma Unchanged(cfg: R.Config, r: R.State, a: Arrival, r': R.State)
    requires R.WellFormed(r) && Tells(cfg, r, a, [], []) && r'.core == r.core && !r'.phase.Returned?
    ensures TellsExactly(cfg, r, a, r')
  {
    assert r'.core.out == r.core.out + [] && r'.core.events == r.core.events + [];
  }

  lemma FailReports(r: R.State, core: Core, f: Failure, io: Io)
    ensures R.Fail(r.(core := core), f, io).phase == R.Returned(Failed(f))
    ensures R.Fail(r.(core := core), f, io).core.events == core.events + [SessionError(f)]
  {
  }

  lemma ComplainReports(cfg: R.Config, r: R.State, a: Arrival, io: Io)
    requires R.WellFormed(r)
    ensures TellsExactly(cfg, r, a, R.Complain(r, io))
  {
    assert r.core.events + [] == r.core.events;
  }

  lemma FailTells(cfg: R.Config, r: R.State, a: Arrival, f: Failure, io: Io)
    requires R.WellFormed(r) && f != ErrHashMismatch
    ensures TellsExactly(cfg, r, a, R.Fail(r, f, io))
    ensures TellsExactly(cfg, r, a, R.Fail(r.(core := r.core.(signaled := true)), f, io))
  {
    assert r.core.events + [] == r.core.events;
  }

  lemma ManifestTells(cfg: R.Config, r: R.State, files: seq<FileMeta>, io: Io)
    requires R.WellFormed(r) && r.phase.AwaitManifest?
    ensures TellsExactly(cfg, r, Message(Text(Manifest(files))), R.OnVerdict(r, files, R.Judge(cfg, files), io))
  {
    hide R.ValidManifest, ValidChoice, Sort, R.ById, R.IdsKnown;
    assert r.core.events + [] == r.core.events;
    if cfg.decide(files).Chosen? {
      var ids := cfg.decide(files).ids;
      SortDistinct(ids);
      if R.Judge(cfg, files).Accepting? {
        assert Distinct(ids) by {
          ChoiceDistinct(cfg, files);
        }
        assert AcceptFor(ids, files, WireForm(Sort(ids), |files|));
      }
    }
  }

  lemma ChoiceDistinct(cfg: R.Config, files: seq<FileMeta>)
    requires R.Judge(cfg, files).Accepting?
    ensures Distinct(cfg.decide(files).ids)
  {
    hide R.ValidManifest, R.ById, Sort;
  }

  lemma StartTells(cfg: R.Config, r: R.State, id: int, io: Io)
    requires R.WellFormed(r) && r.phase.AwaitStart?
    ensures TellsExactly(cfg, r, Message(Text(FileStart(id))), R.OnFileStart(r, id, io))
  {
    hide R.ById, Sanitize, Dest, R.IdsKnown, R.Complain;
    var a := Message(Text(FileStart(id)));
    ComplainReports(cfg, r, a, io);
    FailTells(cfg, r, a, ErrFile, io);
    assert r.core.out + [] == r.core.out;
  }

  lemma ChunkTells(cfg: R.Config, r: R.State, data: Bytes, io: Io)
    requires R.WellFormed(r) && r.phase.InBody?
    ensures TellsExactly(cfg, r, Message(Binary(data)), R.OnChunk(r, data, io))
  {
    hide R.ById, R.IdsKnown, R.Complain, R.Fail, TellsExactly;
    var a := Message(Binary(data));
    ComplainReports(cfg, r, a, io);
    FailTells(cfg, r, a, ErrFile, io);
    if r.got + |data| <= Next(r).size && io.fileOk {
      ProgressTells(cfg, r, data, R.OnChunk(r, data, io));
    }
  }

  lemma ProgressTells(cfg: R.Config, r: R.State, data: Bytes, r': R.State)
    requires R.WellFormed(r) && r.phase.InBody? && r.got + |data| <= Next(r).size && !r'.phase.Returned?
    requires r'.core == r.core.Emit(Progress(Next(r).id, r.got + |data|, Next(r).size))
    ensures TellsExactly(cfg, r, Message(Binary(data)), r')
  {
    hide R.ById, R.IdsKnown, Next;
    assert Tells(cfg, r, Message(Binary(data)), [], [Progress(Next(r).id, r.got + |data|, Next(r).size)]);
    assert r.core.out + [] == r.core.out;
  }

  lemma AcknowledgeTells(cfg: R.Config, r: R.State, id: int, sha256: string, io: Io)
    requires R.WellFormed(r) && r.phase.InBody? && id == Next(r).id && r.got == Next(r).size
    ensures TellsExactly(cfg, r, Message(Text(FileEnd(id, sha256))), R.Acknowledge(r, sha256, io))
  {
    hide R.ById, R.IdsKnown;
    var r' := R.Acknowledge(r, sha256, io);
    if io.sendOk {
      assert Tells(cfg, r, Message(Text(FileEnd(id, sha256))), [Text(FileAck(id, StatusOk, r.got))],
                   [FileDone(id, r.got, r.got, true)]);
    } else {
      assert r'.core.events == r.core.events + [] + [SessionError(ErrSend)];
    }
  }

  lemma BadDigestTells(cfg: R.Config, r: R.State, a: Arrival, core: Core, io: Io)
    requires R.WellFormed(r) && r.phase.InBody?
    requires core.events == r.core.events + [FileDone(Next(r).id, r.got, Next(r).size, false)]
    ensures TellsExactly(cfg, r, a, R.Fail(r.(core := core), ErrHashMismatch, io))
  {
    hide R.ById, R.IdsKnown, Next;
  }

  lemma FileEndTells(cfg: R.Config, r: R.State, id: int, sha256: string, io: Io)
    requires R.WellFormed(r) && r.phase.InBody?
    ensures TellsExactly(cfg, r, Message(Text(FileEnd(id, sha256))), R.OnFileEnd(cfg, r, id, sha256, io))
  {
    hide R.ById, R.IdsKnown, R.Complain, R.Fail, R.Acknowledge, EqualFold, TellsExactly;
    var a := Message(Text(FileEnd(id, sha256)));
    ComplainReports(cfg, r, a, io);
    FailTells(cfg, r, a, ErrFile, io);
    if id == Next(r).id && r.got == Next(r).size {
      if EqualFold(cfg.sha(r.hashed), sha256) {
        AcknowledgeTells(cfg, r, id, sha256, io);
      } else {
        BadDigestTells(cfg, r, a, r.core.Say(FileAck(id, StatusHashMismatch, r.got), io)
                                        .Emit(FileDone(id, r.got, Next(r).size, false)), io);
      }
    }
  }

  lemma ControlTells(cfg: R.Config, r: R.State, c: Control, io: Io)
    requires R.WellFormed(r) && R.Waiting(r) && !IsTerminal(Text(c)) && !IsUnknown(Text(c))
    ensures TellsExactly(cfg, r, Message(Text(c)), R.OnControl(cfg, r, c, io))
  {
    hide R.ById, R.Judge, R.OnVerdict, R.OnFileStart, R.OnFileEnd, R.IdsKnown, R.Complain, R.Fail, TellsExactly;
    var a := Message(Text(c));
    ComplainReports(cfg, r, a, io);
    match r.phase
    case AwaitHello =>
      if c.Hello? {
        HelloTells(cfg, r, c.v, io);
      }
    case AwaitManifest =>
      if c.Manifest? {
        ManifestTells(cfg, r, c.files, io);
      }
    case AwaitStart =>
      if c.FileStart? {
        StartTells(cfg, r, c.id, io);
      }
    case InBody =>
      if c.FileEnd? {
        FileEndTells(cfg, r, c.id, c.sha256, io);
      }
    case AwaitDone =>
      if c.Done? {
        DoneTells(cfg, r);
      }
  }

  lemma HelloTells(cfg: R.Config, r: R.State, v: int, io: Io)
    requires R.WellFormed(r) && r.phase.AwaitHello?
    ensures TellsExactly(cfg, r, Message(Text(Hello(v))), R.OnHello(r, v, io))
  {
    assert r.core.events + [] == r.core.events && r.core.out + [] == r.core.out;
  }

  lemma DoneTells(cfg: R.Config, r: R.State)
    requires R.WellFormed(r)
    ensures TellsExactly(cfg, r, Message(Text(Done)), R.OnDone(r))
  {
  }

  lemma MessageTells(cfg: R.Config, r: R.State, m: Msg, io: Io)
    requires R.WellFormed(r) && R.Waiting(r)
    ensures TellsExactly(cfg, r, Message(m), R.OnMessage(cfg, r, m, io))
  {
    hide R.ById, R.OnControl, R.OnChunk, R.IdsKnown, R.Complain, R.Fail, TellsExactly;
    var a := Message(m);
    ComplainReports(cfg, r, a, io);
    match m
    case Binary(data) =>
      if r.phase.InBody? {
        ChunkTells(cfg, r, data, io);
      }
    case Malformed =>
    case Text(c) =>
      if c.Error? {
        FailTells(cfg, r, a, ErrPeer(c.code), io);
      } else if c.Cancel? {
        FailTells(cfg, r, a, ErrPeerCancel, io);
      } else if c.Unknown? {
        if !r.phase.AwaitHello? {
          Unchanged(cfg, r, a, r);
        }
      } else {
        ControlTells(cfg, r, c, io);
      }
  }

  /** One step of a running receiver: what it adds to the messages and events, in every case. */
  lemma ReceiveTellsExactly(cfg: R.Config, r: R.State, a: Arrival, io: Io)
    requires R.WellFormed(r) && R.Waiting(r)
    ensures TellsExactly(cfg, r, a, R.Step(cfg, r, a, io))
  {
    hide R.OnMessage, R.ById, R.IdsKnown, R.Fail, TellsExactly;
    match a
    case Closed => FailTells(cfg, r, a, ErrPeerClosed, io);
    case CtxDone => FailTells(cfg, r, a, ErrContext, io);
    case Message(m) => MessageTells(cfg, r, m, io);
  }

  /** A receiver that takes a valid manifest and goes on waits for the chosen files of it, in ascending order. */
  lemma WaitsForChosen(cfg: R.Config, r: R.State, a: Arrival, files: seq<FileMeta>, io: Io)
    requires R.WellFormed(r) && TakesManifest(r, a, files) && !R.Step(cfg, r, a, io).phase.Returned?
    ensures var r' := R.Step(cfg, r, a, io);
      && r'.phase.AwaitStart? && r'.files == files && r'.kept == [] && cfg.decide(files).Chosen?
      && Ascending(r'.ids) && forall id :: id in r'.ids <==> id in cfg.decide(files).ids
  {
    hide R.ValidManifest, R.IdsKnown, R.Judge, R.ById, Ascending, R.OnMessage;
    ManifestStep(cfg, r, files, io);
    if R.Judge(cfg, files).Accepting? {
      JudgedChoice(cfg, files);
    }
  }

  lemma JudgedChoice(cfg: R.Config, files: seq<FileMeta>)
    requires R.Judge(cfg, files).Accepting?
    ensures cfg.decide(files).Chosen? && Ascending(R.Judge(cfg, files).ids)
    ensures forall id :: id in R.Judge(cfg, files).ids <==> id in cfg.decide(files).ids
  {
    hide R.ValidManifest, R.ById, Sort;
    SortDistinct(cfg.decide(files).ids);
  }

  // ----- What happens on disk -----------------------------------------------------------------------

  /** The file in hand is complete and verified, and could be closed. */
  ghost predicate Completes(cfg: R.Config, r: R.State, a: Arrival, io: Io)
    requires R.WellFormed(r)
  {
    EndsInPlace(r, a) && DigestMatches(cfg, r, a) && io.fileOk
  }

  /**
   * The directory and the kept files after a step: a started file is created empty under the first free form
   * of its name, a chunk is appended, a verified file is kept even if its ack cannot be sent, and any other
   * exit from inside a file removes it.
   */
  ghost predicate OnDisk(cfg: R.Config, r: R.State, a: Arrival, io: Io, r': R.State)
    requires R.WellFormed(r)
  {
    if StartsNext(r, a) then
      && r'.kept == r.kept
      && if r'.phase.Returned? then r'.dir == r.dir
         else LeastFree(r.dir, Sanitize(Next(r).name).name, r'.path) && r'.dir == r.dir[r'.path := []]
    else if FittingChunk(r, a) && io.fileOk then
      r'.kept == r.kept && r'.path == r.path && r'.dir == r.dir[r.path := r.written + a.m.data]
    else if Completes(cfg, r, a, io) then
      r'.kept == r.kept + [R.Kept(Next(r).id, r.path, r.written, a.m.control.sha256)] && r'.dir == r.dir
    else
      && r'.kept == r.kept
      && r'.dir == if r.phase.InBody? && r'.phase.Returned? then r.dir - {r.path} else r.dir
  }

  lemma StartOnDisk(cfg: R.Config, r: R.State, id: int, io: Io)
    requires R.WellFormed(r) && r.phase.AwaitStart?
    ensures OnDisk(cfg, r, Message(Text(FileStart(id))), io, R.OnFileStart(r, id, io))
  {
    hide R.ById, Sanitize, Dest, LeastFree, R.IdsKnown;
    if Sanitize(Next(r).name).NameOk? {
      DestExactly(r.dir, Sanitize(Next(r).name).name);
    }
  }

  lemma FileEndOnDisk(cfg: R.Config, r: R.State, id: int, sha256: string, io: Io)
    requires R.WellFormed(r) && r.phase.InBody?
    ensures OnDisk(cfg, r, Message(Text(FileEnd(id, sha256))), io, R.OnFileEnd(cfg, r, id, sha256, io))
  {
    hide R.ById, R.IdsKnown, EqualFold;
    if id == Next(r).id && r.got == Next(r).size && EqualFold(cfg.sha(r.hashed), sha256) && io.fileOk {
      assert Completes(cfg, r, Message(Text(FileEnd(id, sha256))), io);
    }
  }

  lemma ChunkOnDisk(cfg: R.Config, r: R.State, data: Bytes, io: Io)
    requires R.WellFormed(r) && r.phase.InBody?
    ensures OnDisk(cfg, r, Message(Binary(data)), io, R.OnChunk(r, data, io))
  {
    hide R.ById, R.IdsKnown;
  }

  lemma FailOnDisk(cfg: R.Config, r: R.State, a: Arrival, core: Core, f: Failure, io: Io)
    requires R.WellFormed(r) && !StartsNext(r, a) && !FittingChunk(r, a) && !EndsInPlace(r, a)
    ensures OnDisk(cfg, r, a, io, R.Fail(r.(core := core), f, io))
  {
    hide R.ById, R.IdsKnown;
  }

  /** A step that neither fails inside a file nor touches one. */
  lemma LeavesDisk(cfg: R.Config, r: R.State, a: Arrival, io: Io, r': R.State)
    requires R.WellFormed(r) && !StartsNext(r, a) && !FittingChunk(r, a) && !EndsInPlace(r, a)
    requires r'.kept == r.kept && r'.dir == r.dir && (r.phase.InBody? ==> !r'.phase.Returned?)
    ensures OnDisk(cfg, r, a, io, r')
  {
  }

  lemma ControlOnDisk(cfg: R.Config, r: R.State, c: Control, io: Io)
    requires R.WellFormed(r) && R.Waiting(r)
    ensures OnDisk(cfg, r, Message(Text(c)), io, R.OnControl(cfg, r, c, io))
  {
    hide R.ById, R.Judge, R.OnFileStart, R.OnFileEnd, R.IdsKnown, OnDisk, EqualFold, Sanitize;
    var a := Message(Text(c));
    if r.phase.AwaitStart? && c.FileStart? {
      StartOnDisk(cfg, r, c.id, io);
    } else if r.phase.InBody? && c.FileEnd? {
      FileEndOnDisk(cfg, r, c.id, c.sha256, io);
    } else if r.phase.InBody? {
      FailOnDisk(cfg, r, a, r.core.Signal(Error(CodeProtocol), io), ErrProtocol, io);
    } else {
      LeavesDisk(cfg, r, a, io, R.OnControl(cfg, r, c, io));
    }
  }

  /** One step of a running receiver: the directory and the kept files, in every case. */
  lemma ReceiveOnDisk(cfg: R.Config, r: R.State, a: Arrival, io: Io)
    requires R.WellFormed(r) && R.Waiting(r)
    ensures OnDisk(cfg, r, a, io, R.Step(cfg, r, a, io))
  {
    hide R.OnControl, R.OnChunk, R.ById, R.IdsKnown, OnDisk, EqualFold, Sanitize;
    if a.Message? && a.m.Text? && !IsTerminal(a.m) && !IsUnknown(a.m) {
      ControlOnDisk(cfg, r, a.m.control, io);
    } else if a.Message? && a.m.Binary? && r.phase.InBody? {
      ChunkOnDisk(cfg, r, a.m.data, io);
    } else {
      StrayOnDisk(cfg, r, a, io);
    }
  }

  lemma StrayOnDisk(cfg: R.Config, r: R.State, a: Arrival, io: Io)
    requires R.WellFormed(r) && R.Waiting(r)
    requires a.Message? ==> !a.m.Text? || IsTerminal(a.m) || IsUnknown(a.m)
    requires a.Message? && a.m.Binary? ==> !r.phase.InBody?
    ensures OnDisk(cfg, r, a, io, R.Step(cfg, r, a, io))
  {
    hide R.OnControl, R.OnChunk, R.ById, R.IdsKnown, EqualFold, Sanitize;
  }

  /** Opening the session: the directory first, then hello. */
  lemma ReceiveStarts(dir: Dir, io: Io)
    ensures var r := R.Start(R.Init(dir), io);
      && r.dir == dir && r.kept == []
      && r.core.out == (if !io.fileOk then [] else if io.sendOk then [Text(Hello(1))] else if io.lastOk then [Text(Cancel)] else [])
      && r.core.events == (if !io.fileOk then [SessionError(NotOpened)] else if io.sendOk then [] else [SessionError(ErrSend)])
  {
  }
}
