/**
 * How a receiver ends: for each result, exactly the inputs that lead to it, and what is said on the way out.
 * Stated by result, on the inputs, beside the step machine.
 */
module ReceiverEndings {
  import opened Protocol
  import opened Directory
  import opened Acceptance
  import opened Session
  import R = Receiver
  import RS = ReceiverSafety
  import ER = EventReports

  ghost predicate IsIdOf(id: int, files: seq<FileMeta>) {
    exists i :: 0 <= i < |files| && files[i].id == id
  }

  /** A list that names only files of the manifest, and none twice. */
  ghost predicate GoodChoice(ids: seq<int>, files: seq<FileMeta>) {
    && (forall i | 0 <= i < |ids| :: IsIdOf(ids[i], files))
    && forall i, j | 0 <= i < j < |ids| :: ids[i] != ids[j]
  }

  /** A valid manifest is taken. */
  ghost predicate TakesManifest(r: R.State, a: Arrival, files: seq<FileMeta>) {
    r.phase.AwaitManifest? && a == Message(Text(Manifest(files))) && R.ValidManifest(files)
  }

  /** The accepted file whose turn it is. */
  function Next(r: R.State): FileMeta
    requires R.WellFormed(r) && (r.phase.AwaitStart? || r.phase.InBody?)
  {
    R.ById(r.files)[r.ids[|r.kept|]]
  }

  ghost predicate StartsNext(r: R.State, a: Arrival)
    requires R.WellFormed(r)
  {
    r.phase.AwaitStart? && a == Message(Text(FileStart(Next(r).id))) && Sanitize(Next(r).name).NameOk?
  }

  ghost predicate FittingChunk(r: R.State, a: Arrival)
    requires R.WellFormed(r)
  {
    r.phase.InBody? && a.Message? && a.m.Binary? && r.got + |a.m.data| <= Next(r).size
  }

  /** The file-end of the file in hand, after exactly its declared bytes. */
  ghost predicate EndsInPlace(r: R.State, a: Arrival)
    requires R.WellFormed(r)
  {
    && r.phase.InBody? && a.Message? && a.m.Text? && a.m.control.FileEnd?
    && a.m.control.id == Next(r).id && r.got == Next(r).size
  }

  ghost predicate DigestMatches(cfg: R.Config, r: R.State, a: Arrival)
    requires R.WellFormed(r) && EndsInPlace(r, a)
  {
    EqualFold(cfg.sha(r.hashed), a.m.control.sha256)
  }

  /** The messages the protocol allows in this state. */
  ghost predicate Allowed(r: R.State, a: Arrival)
    requires R.WellFormed(r)
  {
    && a.Message?
    && (|| IsTerminal(a.m)
        || (IsUnknown(a.m) && !r.phase.AwaitHello?)
        || (r.phase.AwaitHello? && a.m.Text? && a.m.control.Hello?)
        || (exists files :: TakesManifest(r, a, files))
        || StartsNext(r, a) || FittingChunk(r, a) || EndsInPlace(r, a)
        || (r.phase.AwaitDone? && a.m == Text(Done)))
  }

  /** With this input a running receiver ends with this result. */
  ghost predicate EndsReceive(cfg: R.Config, r: R.State, a: Arrival, io: Io, o: Outcome)
    requires R.WellFormed(r)
  {
    match o
    case Nil => r.phase.AwaitDone? && a == Message(Text(Done))
    case Failed(ErrPeerClosed) => a == Closed
    case Failed(ErrContext) => a == CtxDone
    case Failed(ErrPeerCancel) => a == Message(Text(Cancel))
    case Failed(ErrPeer(code)) => a == Message(Text(Error(code)))
    case Failed(ErrVersion) => r.phase.AwaitHello? && exists v :: v != 1 && a == Message(Text(Hello(v)))
    case Failed(ErrDecide) => exists files :: TakesManifest(r, a, files) && cfg.decide(files) == Refused
    case Failed(ErrBadChoice) =>
      exists files, ids :: TakesManifest(r, a, files) && cfg.decide(files) == Chosen(ids) && !GoodChoice(ids, files)
    case Failed(ErrDeclined) => exists files :: TakesManifest(r, a, files) && cfg.decide(files) == Chosen([])
    case Failed(ErrHashMismatch) => EndsInPlace(r, a) && !DigestMatches(cfg, r, a)
    case Failed(ErrFile) =>
      || (StartsNext(r, a) && (AllTaken(r.dir, Sanitize(Next(r).name).name) || !io.fileOk))
      || (FittingChunk(r, a) && !io.fileOk)
      || (EndsInPlace(r, a) && DigestMatches(cfg, r, a) && !io.fileOk)
    case Failed(ErrSend) =>
      && !io.sendOk
      && (|| (exists files, ids :: TakesManifest(r, a, files) && cfg.decide(files) == Chosen(ids)
                && ids != [] && GoodChoice(ids, files))
          || (EndsInPlace(r, a) && DigestMatches(cfg, r, a) && io.fileOk))
    case Failed(ErrProtocol) => a.Message? && !Allowed(r, a)
    case _ => false
  }

  lemma {:induction false} IdsOfTable(files: seq<FileMeta>, id: int)
    ensures id in R.ById(files) <==> IsIdOf(id, files)
  {
    if files != [] {
      var front := files[..|files| - 1];
      IdsOfTable(front, id);
      if IsIdOf(id, front) {
        var i :| 0 <= i < |front| && front[i].id == id;
        assert files[i].id == id;
      }
      if IsIdOf(id, files) && id != files[|files| - 1].id {
        var i :| 0 <= i < |files| && files[i].id == id;
        assert front[i].id == id;
      }
      assert files[|files| - 1].id == id ==> IsIdOf(id, files);
    }
  }

  lemma ChoiceIsGood(ids: seq<int>, files: seq<FileMeta>)
    ensures ValidChoice(ids, R.ById(files).Keys) <==> GoodChoice(ids, files)
  {
    hide R.ById, IsIdOf;
    forall i | 0 <= i < |ids|
      ensures ids[i] in R.ById(files).Keys <==> IsIdOf(ids[i], files)
    {
      IdsOfTable(files, ids[i]);
    }
  }

  /** What a manifest leads to, on the caller's choice. */
  lemma ManifestEnds(cfg: R.Config, r: R.State, files: seq<FileMeta>, io: Io, o: Outcome)
    requires R.WellFormed(r) && r.phase.AwaitManifest?
    ensures var a := Message(Text(Manifest(files)));
      R.OnVerdict(r, files, R.Judge(cfg, files), io).phase == R.Returned(o) <==> EndsReceive(cfg, r, a, io, o)
  {
    hide R.ValidManifest, ValidChoice, Sort, GoodChoice, R.IdsKnown;
    var a := Message(Text(Manifest(files)));
    assert forall f :: TakesManifest(r, a, f) ==> f == files;
    if R.ValidManifest(files) {
      assert TakesManifest(r, a, files);
      if cfg.decide(files).Chosen? {
        var ids := cfg.decide(files).ids;
        ChoiceIsGood(ids, files);
        NothingIsGood(files);
        assert Sort(ids) != [] <==> ids != [] by {
          SortDistinct(ids);
        }
        assert GoodChoice(ids, files) <==> ValidChoice(ids, R.ById(files).Keys);
      }
    }
  }

  lemma NothingIsGood(files: seq<FileMeta>)
    ensures GoodChoice([], files)
  {
  }

  lemma StartEnds(cfg: R.Config, r: R.State, id: int, io: Io, o: Outcome)
    requires R.WellFormed(r) && r.phase.AwaitStart?
    ensures R.OnFileStart(r, id, io).phase == R.Returned(o)
       <==> EndsReceive(cfg, r, Message(Text(FileStart(id))), io, o)
  {
    hide R.ById, Sanitize, Dest, AllTaken, EqualFold, R.IdsKnown, R.ValidManifest;
    if Sanitize(Next(r).name).NameOk? {
      DestExactly(r.dir, Sanitize(Next(r).name).name);
    }
  }

  lemma BodyEnds(cfg: R.Config, r: R.State, m: Msg, io: Io, o: Outcome)
    requires R.WellFormed(r) && r.phase.InBody? && (m.Binary? || (m.Text? && m.control.FileEnd?))
    ensures R.OnMessage(cfg, r, m, io).phase == R.Returned(o) <==> EndsReceive(cfg, r, Message(m), io, o)
  {
    hide R.ById, Sanitize, AllTaken, EqualFold, R.IdsKnown, R.ValidManifest;
  }

  /** A message that is no known control message of the protocol, or ends the session by itself. */
  lemma StrayEnds(cfg: R.Config, r: R.State, m: Msg, io: Io, o: Outcome)
    requires R.WellFormed(r) && R.Waiting(r) && (!m.Text? || IsTerminal(m) || IsUnknown(m))
    requires !(r.phase.InBody? && m.Binary?)
    ensures R.OnMessage(cfg, r, m, io).phase == R.Returned(o) <==> EndsReceive(cfg, r, Message(m), io, o)
  {
    hide R.ById, Sanitize, AllTaken, EqualFold, DigestMatches, R.IdsKnown, R.ValidManifest, GoodChoice, R.OnControl,
         R.OnChunk;
  }

  lemma OtherEnds(cfg: R.Config, r: R.State, c: Control, io: Io, o: Outcome)
    requires R.WellFormed(r) && R.Waiting(r) && !IsTerminal(Text(c)) && !IsUnknown(Text(c))
    requires !(r.phase.InBody? && c.FileEnd?)
    requires !(r.phase.AwaitStart? && c.FileStart?)
    requires !(r.phase.AwaitManifest? && c.Manifest?)
    ensures R.OnControl(cfg, r, c, io).phase == R.Returned(o) <==> EndsReceive(cfg, r, Message(Text(c)), io, o)
  {
    hide R.ById, Sanitize, AllTaken, EqualFold, DigestMatches, R.IdsKnown, R.ValidManifest, GoodChoice, R.OnVerdict,
         R.OnFileStart, R.OnFileEnd;
    if r.phase.AwaitHello? && c.Hello? {
      assert c == Hello(c.v);
    }
  }

  /** Each result of a running receiver, exactly on the inputs listed for it. */
  lemma ReceiveEndsExactly(cfg: R.Config, r: R.State, a: Arrival, io: Io, o: Outcome)
    requires R.WellFormed(r) && R.Waiting(r)
    ensures R.Step(cfg, r, a, io).phase == R.Returned(o) <==> EndsReceive(cfg, r, a, io, o)
  {
    hide R.OnMessage, R.OnVerdict, R.OnFileStart, R.ValidManifest, R.IdsKnown, R.Judge;
    match a
    case Closed => NoMessageEnds(cfg, r, a, io, o);
    case CtxDone => NoMessageEnds(cfg, r, a, io, o);
    case Message(m) =>
      hide EndsReceive;
      if m.Text? && r.phase.AwaitManifest? && m.control.Manifest? {
        ManifestEnds(cfg, r, m.control.files, io, o);
        ManifestStep(cfg, r, m.control.files, io);
      } else if m.Text? && r.phase.AwaitStart? && m.control.FileStart? {
        StartEnds(cfg, r, m.control.id, io, o);
        FileStartStep(cfg, r, m.control.id, io);
      } else if r.phase.InBody? && (m.Binary? || (m.Text? && m.control.FileEnd?)) {
        BodyEnds(cfg, r, m, io, o);
      } else if !m.Text? || IsTerminal(m) || IsUnknown(m) {
        StrayEnds(cfg, r, m, io, o);
      } else {
        OtherEnds(cfg, r, m.control, io, o);
        ControlStep(cfg, r, m.control, io);
      }
  }

  lemma NoMessageEnds(cfg: R.Config, r: R.State, a: Arrival, io: Io, o: Outcome)
    requires R.WellFormed(r) && R.Waiting(r) && !a.Message?
    ensures R.Step(cfg, r, a, io).phase == R.Returned(o) <==> EndsReceive(cfg, r, a, io, o)
  {
    hide R.ById, R.OnMessage, R.ValidManifest, R.IdsKnown;
  }

  lemma ControlStep(cfg: R.Config, r: R.State, c: Control, io: Io)
    requires R.WellFormed(r) && !IsTerminal(Text(c)) && !IsUnknown(Text(c))
    ensures R.OnMessage(cfg, r, Text(c), io) == R.OnControl(cfg, r, c, io)
  {
    hide R.OnControl, R.ById;
  }

  lemma ManifestStep(cfg: R.Config, r: R.State, files: seq<FileMeta>, io: Io)
    requires R.WellFormed(r) && r.phase.AwaitManifest?
    ensures R.OnMessage(cfg, r, Text(Manifest(files)), io) == R.OnVerdict(r, files, R.Judge(cfg, files), io)
  {
    hide R.Judge, R.OnVerdict;
  }

  lemma FileStartStep(cfg: R.Config, r: R.State, id: int, io: Io)
    requires R.WellFormed(r) && r.phase.AwaitStart?
    ensures R.OnMessage(cfg, r, Text(FileStart(id)), io) == R.OnFileStart(r, id, io)
  {
    hide R.OnFileStart;
  }

  // ----- What is said -------------------------------------------------------------------------------

  /** A bad digest is acknowledged as such before the farewell. */
  function BadDigestAck(r: R.State, f: Failure, io: Io): seq<Msg>
    requires R.WellFormed(r)
  {
    if f == ErrHashMismatch && r.phase.InBody? && io.sendOk then
      [Text(FileAck(Next(r).id, StatusHashMismatch, r.got))]
    else []
  }

  lemma VerdictSays(r: R.State, files: seq<FileMeta>, verdict: R.Verdict, io: Io, f: Failure)
    requires R.WellFormed(r) && r.phase.AwaitManifest? && !r.core.signaled
    requires verdict.Rejecting? ==> verdict.f == ErrDecide || verdict.f == ErrBadChoice || verdict.f == ErrDeclined
    requires R.OnVerdict(r, files, verdict, io).phase == R.Returned(Failed(f))
    ensures R.OnVerdict(r, files, verdict, io).core.out == r.core.out + Farewell(f, io)
  {
    WordSays(r.core, Error(CodeProtocol), ErrProtocol, io);
    WordSays(r.core, Reject, f, io);
    AbortSays(r.core, f, io);
  }

  lemma FileEndSays(cfg: R.Config, r: R.State, id: int, sha256: string, io: Io, f: Failure)
    requires R.WellFormed(r) && r.phase.InBody? && !r.core.signaled
    requires R.OnFileEnd(cfg, r, id, sha256, io).phase == R.Returned(Failed(f))
    ensures R.OnFileEnd(cfg, r, id, sha256, io).core.out == r.core.out + BadDigestAck(r, f, io) + Farewell(f, io)
  {
    hide R.ById, EqualFold;
    var meta := Next(r);
    WordSays(r.core, Error(CodeProtocol), ErrProtocol, io);
    AbortSays(r.core, f, io);
    AbortSays(r.core.Say(FileAck(meta.id, StatusHashMismatch, r.got), io).Emit(FileDone(meta.id, r.got, meta.size, false)),
              f, io);
  }

  lemma ComplainSays(r: R.State, io: Io)
    requires !r.core.signaled
    ensures R.Complain(r, io).phase == R.Returned(Failed(ErrProtocol))
    ensures R.Complain(r, io).core.out == r.core.out + Farewell(ErrProtocol, io)
  {
    WordSays(r.core, Error(CodeProtocol), ErrProtocol, io);
  }

  lemma FailSays(r: R.State, f: Failure, io: Io)
    ensures R.Fail(r, f, io).phase == R.Returned(Failed(f))
    ensures R.Fail(r, f, io).core.out == r.core.out + (if !r.core.signaled && io.lastOk then [Text(Cancel)] else [])
  {
    AbortSays(r.core, f, io);
  }

  lemma FileFarewell(io: Io)
    ensures Farewell(ErrFile, io) == if io.lastOk then [Text(Cancel)] else []
  {
  }

  lemma NoBadDigest(r: R.State, f: Failure, io: Io)
    requires R.WellFormed(r) && (f != ErrHashMismatch || !r.phase.InBody?)
    ensures BadDigestAck(r, f, io) == []
  {
  }

  lemma HelloSays(r: R.State, v: int, io: Io, f: Failure)
    requires !r.core.signaled && R.OnHello(r, v, io).phase == R.Returned(Failed(f))
    ensures R.OnHello(r, v, io).core.out == r.core.out + Farewell(f, io)
  {
    WordSays(r.core, Error(CodeVersion), ErrVersion, io);
  }

  lemma ControlSays(cfg: R.Config, r: R.State, c: Control, io: Io, f: Failure)
    requires R.WellFormed(r) && R.Waiting(r) && !r.core.signaled
    requires R.OnControl(cfg, r, c, io).phase == R.Returned(Failed(f))
    ensures R.OnControl(cfg, r, c, io).core.out == r.core.out + BadDigestAck(r, f, io) + Farewell(f, io)
  {
    hide R.ById, R.Judge, R.OnVerdict, R.OnFileEnd, R.OnHello, R.Complain, R.Fail, Farewell, BadDigestAck, Sanitize, Dest, R.IdsKnown;
    ComplainSays(r, io);
    FailSays(r, ErrFile, io);
    FileFarewell(io);
    if f != ErrHashMismatch || !r.phase.InBody? {
      NoBadDigest(r, f, io);
    }
    match r.phase
    case AwaitHello =>
      if c.Hello? {
        HelloSays(r, c.v, io, f);
      }
    case AwaitManifest =>
      if c.Manifest? {
        OnlyTheseRejects(cfg, c.files);
        VerdictSays(r, c.files, R.Judge(cfg, c.files), io, f);
      }
    case InBody =>
      if c.FileEnd? {
        FileEndSays(cfg, r, c.id, c.sha256, io, f);
      }
    case _ =>
  }

  lemma MessageSays(cfg: R.Config, r: R.State, m: Msg, io: Io, f: Failure)
    requires R.WellFormed(r) && R.Waiting(r) && !r.core.signaled
    requires R.OnMessage(cfg, r, m, io).phase == R.Returned(Failed(f))
    ensures R.OnMessage(cfg, r, m, io).core.out == r.core.out + BadDigestAck(r, f, io) + Farewell(f, io)
  {
    hide R.ById, R.OnControl, R.IdsKnown, R.Complain, R.Fail;
    ComplainSays(r, io);
    FailSays(r, ErrFile, io);
    if m.Text? {
      if !IsTerminal(m) && !IsUnknown(m) {
        ControlSays(cfg, r, m.control, io, f);
      } else if m.control.Error? {
        FailSays(r.(core := r.core.(signaled := true)), ErrPeer(m.control.code), io);
      } else {
        FailSays(r.(core := r.core.(signaled := true)), ErrPeerCancel, io);
      }
    }
  }

  lemma OnlyTheseRejects(cfg: R.Config, files: seq<FileMeta>)
    ensures var v := R.Judge(cfg, files);
      v.Rejecting? ==> v.f == ErrDecide || v.f == ErrBadChoice || v.f == ErrDeclined
  {
    hide R.ValidManifest, ValidChoice, Sort;
  }

  /** A running receiver that ends with a failure says exactly its farewell. */
  lemma ReceiveSaysExactly(cfg: R.Config, r: R.State, a: Arrival, io: Io, f: Failure)
    requires R.WellFormed(r) && R.Waiting(r) && !r.core.signaled
    requires R.Step(cfg, r, a, io).phase == R.Returned(Failed(f))
    ensures R.Step(cfg, r, a, io).core.out == r.core.out + BadDigestAck(r, f, io) + Farewell(f, io)
  {
    hide R.OnMessage, R.ById, R.IdsKnown;
    if a.Message? {
      MessageSays(cfg, r, a.m, io, f);
    } else {
      AbortSays(r.core, f, io);
    }
  }

  // ----- Over whole runs of the receiver ------------------------------------------------------------

  /** With its n-th input the receiver ends with this result. */
  ghost predicate EndedAt(cfg: R.Config, dir0: Dir, io0: Io, ins: seq<R.Input>, n: nat, o: Outcome)
    requires n < |ins|
  {
    var r := RS.Receive(cfg, dir0, io0, ins[..n]);
    R.Waiting(r) && EndsReceive(cfg, r, ins[n].arrival, ins[n].io, o)
  }

  lemma ReceiveWellFormed(cfg: R.Config, dir0: Dir, io0: Io, ins: seq<R.Input>)
    ensures R.WellFormed(RS.Receive(cfg, dir0, io0, ins))
  {
  }

  lemma StepNotIdle(cfg: R.Config, r: R.State, a: Arrival, io: Io)
    requires R.WellFormed(r) && !r.phase.Idle?
    ensures !R.Step(cfg, r, a, io).phase.Idle?
    ensures r.phase.Returned? ==> R.Step(cfg, r, a, io) == r
  {
    hide R.OnControl, R.ById, R.IdsKnown;
    if a.Message? && a.m.Text? {
      ControlNotIdle(cfg, r, a.m.control, io);
    }
  }

  lemma ControlNotIdle(cfg: R.Config, r: R.State, c: Control, io: Io)
    requires R.WellFormed(r) && !r.phase.Idle?
    ensures !R.OnControl(cfg, r, c, io).phase.Idle?
  {
    hide R.Judge, R.ById, Dest, Sanitize, EqualFold, R.IdsKnown;
  }

  lemma {:induction false} EndedByPrefix(cfg: R.Config, dir0: Dir, io0: Io, ins: seq<R.Input>, m: nat, o: Outcome)
    requires m <= |ins| && io0.fileOk && io0.sendOk
    ensures !RS.Receive(cfg, dir0, io0, ins[..m]).phase.Idle?
    ensures RS.Receive(cfg, dir0, io0, ins[..m]).phase == R.Returned(o)
       <==> exists n: nat :: n < m && EndedAt(cfg, dir0, io0, ins, n, o)
  {
    hide RS.Receive, R.Step, R.WellFormed, EndsReceive;
    var r := RS.Receive(cfg, dir0, io0, ins[..m]);
    if m == 0 {
      assert ins[..0] == [];
      JustStarted(cfg, dir0, io0);
    } else {
      var before := RS.Receive(cfg, dir0, io0, ins[..m - 1]);
      ReceiveWellFormed(cfg, dir0, io0, ins[..m - 1]);
      EndedByPrefix(cfg, dir0, io0, ins, m - 1, o);
      ER.ReceiveAppend(cfg, dir0, io0, ins, m - 1);
      var a, io := ins[m - 1].arrival, ins[m - 1].io;
      StepNotIdle(cfg, before, a, io);
      if R.Waiting(before) {
        ReceiveEndsExactly(cfg, before, a, io, o);
        assert EndedAt(cfg, dir0, io0, ins, m - 1, o) <==> EndsReceive(cfg, before, a, io, o);
      } else {
        assert !EndedAt(cfg, dir0, io0, ins, m - 1, o);
      }
    }
  }

  lemma JustStarted(cfg: R.Config, dir0: Dir, io0: Io)
    requires io0.fileOk && io0.sendOk
    ensures RS.Receive(cfg, dir0, io0, []).phase.AwaitHello?
  {
  }

  lemma NeverStarted(cfg: R.Config, dir0: Dir, io0: Io, ins: seq<R.Input>)
    requires !io0.fileOk || !io0.sendOk
    ensures RS.Receive(cfg, dir0, io0, ins).phase == R.Returned(Failed(if io0.fileOk then ErrSend else NotOpened))
  {
    R.RunReturned(cfg, R.Start(R.Init(dir0), io0), ins);
  }

  /** Receive returns a result if and only if an input that leads to it was taken, or it could not start. */
  lemma ReceiveReturns(cfg: R.Config, dir0: Dir, io0: Io, ins: seq<R.Input>, o: Outcome)
    ensures RS.Receive(cfg, dir0, io0, ins).phase == R.Returned(o)
       <==> if !io0.fileOk then o == Failed(NotOpened)
            else if !io0.sendOk then o == Failed(ErrSend)
            else exists n: nat :: n < |ins| && EndedAt(cfg, dir0, io0, ins, n, o)
  {
    hide RS.Receive, EndedAt;
    if io0.fileOk && io0.sendOk {
      assert ins[..|ins|] == ins;
      EndedByPrefix(cfg, dir0, io0, ins, |ins|, o);
    } else {
      NeverStarted(cfg, dir0, io0, ins);
    }
  }

  /** A receiver that returned nil met no fault, no bad digest, no close and no violation at any input. */
  lemma NilMeansNoFault(cfg: R.Config, dir0: Dir, io0: Io, ins: seq<R.Input>, n: nat, f: Failure)
    requires RS.Receive(cfg, dir0, io0, ins).phase == R.Returned(Nil) && n < |ins|
    ensures !EndedAt(cfg, dir0, io0, ins, n, Failed(f))
  {
    hide RS.Receive, EndedAt;
    ReceiveReturns(cfg, dir0, io0, ins, Nil);
    ReceiveReturns(cfg, dir0, io0, ins, Failed(f));
  }

  predicate PastManifest(r: R.State) {
    !r.phase.Idle? && !r.phase.AwaitHello? && !r.phase.AwaitManifest?
  }

  lemma StaysPast(cfg: R.Config, r: R.State, a: Arrival, io: Io)
    requires R.WellFormed(r)
    ensures PastManifest(r) ==> PastManifest(R.Step(cfg, r, a, io))
  {
    hide R.Judge, R.ById, Dest, Sanitize, EqualFold, R.IdsKnown;
  }

  lemma GetsPast(cfg: R.Config, r: R.State, a: Arrival, files: seq<FileMeta>, io: Io)
    requires R.WellFormed(r) && TakesManifest(r, a, files)
    ensures PastManifest(R.Step(cfg, r, a, io))
  {
    hide R.ValidManifest, ValidChoice, Sort, R.ById;
  }

  lemma {:induction false} OneManifest(
    cfg: R.Config, dir0: Dir, io0: Io, ins: seq<R.Input>, files: seq<FileMeta>, n: nat, m: nat)
    requires n < m <= |ins| && TakesManifest(RS.Receive(cfg, dir0, io0, ins[..n]), ins[n].arrival, files)
    ensures PastManifest(RS.Receive(cfg, dir0, io0, ins[..m]))
  {
    hide RS.Receive, R.Step, R.WellFormed, PastManifest, TakesManifest;
    var before := RS.Receive(cfg, dir0, io0, ins[..m - 1]);
    ReceiveWellFormed(cfg, dir0, io0, ins[..m - 1]);
    ER.ReceiveAppend(cfg, dir0, io0, ins, m - 1);
    if m - 1 == n {
      GetsPast(cfg, before, ins[n].arrival, files, ins[n].io);
    } else {
      OneManifest(cfg, dir0, io0, ins, files, n, m - 1);
      StaysPast(cfg, before, ins[m - 1].arrival, ins[m - 1].io);
    }
  }

  /**
   * A receiver that took a valid manifest returns the declined error if and only if the caller chose nothing,
   * the decision error if and only if the caller refused, and the bad-choice error if and only if the caller
   * named an unknown file or a file twice.
   */
  lemma RefusalsExactly(cfg: R.Config, dir0: Dir, io0: Io, ins: seq<R.Input>, n: nat, files: seq<FileMeta>)
    requires n < |ins| && TakesManifest(RS.Receive(cfg, dir0, io0, ins[..n]), ins[n].arrival, files)
    ensures var phase, choice := RS.Receive(cfg, dir0, io0, ins).phase, cfg.decide(files);
      && (phase == R.Returned(Failed(ErrDeclined)) <==> choice == Chosen([]))
      && (phase == R.Returned(Failed(ErrDecide)) <==> choice == Refused)
      && (phase == R.Returned(Failed(ErrBadChoice)) <==> choice.Chosen? && !GoodChoice(choice.ids, files))
  {
    ManifestTakenOpen(cfg, dir0, io0, ins[..n]);
    RefusedOnlyHere(cfg, dir0, io0, ins, n, files, ErrDeclined);
    RefusedOnlyHere(cfg, dir0, io0, ins, n, files, ErrDecide);
    RefusedOnlyHere(cfg, dir0, io0, ins, n, files, ErrBadChoice);
    hide RS.Receive, R.ValidManifest, GoodChoice;
    var r := RS.Receive(cfg, dir0, io0, ins[..n]);
    assert forall f :: TakesManifest(r, ins[n].arrival, f) <==> f == files;
    if cfg.decide(files).Chosen? {
      assert GoodChoice(cfg.decide(files).ids, files) || !GoodChoice(cfg.decide(files).ids, files);
    }
    NothingIsGood(files);
  }

  lemma ManifestTakenOpen(cfg: R.Config, dir0: Dir, io0: Io, ins: seq<R.Input>)
    requires RS.Receive(cfg, dir0, io0, ins).phase.AwaitManifest?
    ensures io0.fileOk && io0.sendOk
  {
    if !io0.fileOk || !io0.sendOk {
      NeverStarted(cfg, dir0, io0, ins);
    }
  }

  /** A refusal can only come of the one manifest taken. */
  lemma RefusedOnlyHere(
    cfg: R.Config, dir0: Dir, io0: Io, ins: seq<R.Input>, n: nat, files: seq<FileMeta>, f: Failure)
    requires n < |ins| && TakesManifest(RS.Receive(cfg, dir0, io0, ins[..n]), ins[n].arrival, files)
    requires f == ErrDeclined || f == ErrDecide || f == ErrBadChoice
    requires io0.fileOk && io0.sendOk
    ensures RS.Receive(cfg, dir0, io0, ins).phase == R.Returned(Failed(f))
       <==> EndsReceive(cfg, RS.Receive(cfg, dir0, io0, ins[..n]), ins[n].arrival, ins[n].io, Failed(f))
  {
    hide RS.Receive, R.ValidManifest, GoodChoice;
    ReceiveWellFormed(cfg, dir0, io0, ins[..n]);
    ReceiveReturns(cfg, dir0, io0, ins, Failed(f));
    var r := RS.Receive(cfg, dir0, io0, ins[..n]);
    if EndsReceive(cfg, r, ins[n].arrival, ins[n].io, Failed(f)) {
      assert EndedAt(cfg, dir0, io0, ins, n, Failed(f));
    }
    forall k: nat | k < |ins| && EndedAt(cfg, dir0, io0, ins, k, Failed(f))
      ensures k == n
    {
      ReceiveWellFormed(cfg, dir0, io0, ins[..k]);
      var taken := OneTaken(cfg, RS.Receive(cfg, dir0, io0, ins[..k]), ins[k].arrival, ins[k].io, f);
      if k < n {
        OneManifest(cfg, dir0, io0, ins, taken, k, n);
      } else if n < k {
        OneManifest(cfg, dir0, io0, ins, files, n, k);
      }
    }
  }

  lemma OneTaken(cfg: R.Config, r: R.State, a: Arrival, io: Io, f: Failure) returns (files: seq<FileMeta>)
    requires R.WellFormed(r) && EndsReceive(cfg, r, a, io, Failed(f))
    requires f == ErrDeclined || f == ErrDecide || f == ErrBadChoice
    ensures TakesManifest(r, a, files)
  {
    hide R.ValidManifest, GoodChoice;
    files :| TakesManifest(r, a, files);
  }
}
