/** What every run of the sender keeps, whatever arrives and whatever fails. */
module SenderSafety {
  import opened Protocol
  import opened Acceptance
  import opened Session
  import opened Sender

  // ----- Last words ---------------------------------------------------------------------------

  ghost predicate SignalsOk(s: State) {
    if s.phase.Returned? then FinalIsLast(s.core.out) else Open(s.core)
  }

  lemma FailKeepsSignals(s: State, f: Failure, io: Io)
    requires Closing(s.core)
    ensures SignalsOk(Fail(s, f, io)) && s.core.out <= Fail(s, f, io).core.out
  {
    AbortEnds(s.core, f, io);
  }

  lemma SignalKeepsSignals(s: State, c: Control, f: Failure, io: Io)
    requires Open(s.core) && IsFinal(Text(c))
    ensures SignalsOk(Fail(s.(core := s.core.Signal(c, io)), f, io))
  {
    SignalCloses(s.core, c, io);
    FailKeepsSignals(s.(core := s.core.Signal(c, io)), f, io);
  }

  lemma NextFileKeepsSignals(cfg: Config, s: State, io: Io)
    requires WellFormed(cfg, s) && Open(s.core)
    ensures SignalsOk(NextFile(cfg, s, io))
  {
    FailKeepsSignals(s, ErrSend, io);
    SayKeepsOpen(s.core, Done, io);
    if s.k < |s.ids| {
      var id := s.ids[s.k];
      SayKeepsOpen(s.core, FileStart(id), io);
      FailKeepsSignals(s.(core := s.core.Say(FileStart(id), io).Emit(FileStarted(id, Current(cfg, s).size))), ErrFile, io);
    }
  }

  lemma ControlKeepsSignals(cfg: Config, s: State, c: Control, io: Io)
    requires WellFormed(cfg, s) && Open(s.core) && Waiting(s)
    ensures SignalsOk(OnControl(cfg, s, c, io))
  {
    OpenMayClose(s.core);
    hide Resolve, NextFile, Metas, FinalIsLast, NoFinal;
    SignalKeepsSignals(s, Error(CodeProtocol), ErrProtocol, io);
    if s.phase.AwaitHello? {
      SignalKeepsSignals(s, Error(CodeVersion), ErrVersion, io);
      FailKeepsSignals(s, ErrSend, io);
      SayKeepsOpen(s.core, Manifest(Metas(cfg.files)), io);
    } else if s.phase.AwaitReply? {
      FailKeepsSignals(s, ErrRejected, io);
      if c.Accept? && Resolve(c.ids, |cfg.files|).Some? {
        ResolvedInRange(c.ids, |cfg.files|);
        NextFileKeepsSignals(cfg, s.(phase := AwaitReply, ids := Resolve(c.ids, |cfg.files|).value, k := 0), io);
      }
    } else if c.FileAck? {
      hide OnHello, OnAccept;
      AckKeepsSignals(cfg, s, c.id, c.status, io);
    }
  }

  lemma AckKeepsSignals(cfg: Config, s: State, id: int, status: AckStatus, io: Io)
    requires WellFormed(cfg, s) && Open(s.core) && s.phase.AwaitAck?
    ensures SignalsOk(OnAck(cfg, s, id, status, io))
  {
    OpenMayClose(s.core);
    hide NextFile, FinalIsLast, NoFinal;
    SignalKeepsSignals(s, Error(CodeProtocol), ErrProtocol, io);
    var size := Current(cfg, s).size;
    FailKeepsSignals(s.(core := s.core.Emit(FileDone(id, |s.sent|, size, false))), ErrHashMismatch, io);
    NextFileKeepsSignals(
      cfg, s.(phase := AwaitReply, k := s.k + 1, core := s.core.Emit(FileDone(id, |s.sent|, size, true))), io);
  }

  lemma MessageKeepsSignals(cfg: Config, s: State, m: Msg, io: Io)
    requires WellFormed(cfg, s) && Open(s.core)
    ensures Waiting(s) ==> SignalsOk(OnMessage(cfg, s, m, io))
    ensures SignalsOk(MidSendCheck(s, m, io))
  {
    SignalKeepsSignals(s, Error(CodeProtocol), ErrProtocol, io);
    FailKeepsSignals(s.(core := s.core.(signaled := true)), ErrPeerCancel, io);
    if m.Text? {
      if m.control.Error? {
        FailKeepsSignals(s.(core := s.core.(signaled := true)), ErrPeer(m.control.code), io);
      } else if Waiting(s) && !m.control.Unknown? && !m.control.Cancel? {
        ControlKeepsSignals(cfg, s, m.control, io);
      }
    }
  }

  lemma ReadKeepsSignals(cfg: Config, s: State, rd: Read, ctxDone: bool, io: Io)
    requires WellFormed(cfg, s) && Open(s.core) && s.phase.Reading?
    ensures SignalsOk(OnRead(cfg, s, rd, ctxDone, io))
  {
    FailKeepsSignals(s, ErrFile, io);
    match rd
    case ReadError =>
    case Data(d) =>
      FailKeepsSignals(s.(hashed := s.hashed + d), ErrContext, io);
      FailKeepsSignals(s.(hashed := s.hashed + d), ErrSend, io);
    case Eof =>
      FailKeepsSignals(s, ErrSizeChanged, io);
      FailKeepsSignals(s, ErrSend, io);
      SayKeepsOpen(s.core, FileEnd(s.ids[s.k], cfg.sha(s.hashed)), io);
  }

  lemma StepKeepsSignals(cfg: Config, s: State, inp: Input)
    requires WellFormed(cfg, s) && SignalsOk(s)
    ensures SignalsOk(Step(cfg, s, inp))
  {
    if s.phase.Reading? {
      ReadKeepsSignals(cfg, s, inp.read, inp.ctxDone, inp.io);
    } else if Waiting(s) || s.phase.Polling? {
      FailKeepsSignals(s, ErrPeerClosed, inp.io);
      FailKeepsSignals(s, ErrContext, inp.io);
      if s.pending != [] {
        MessageKeepsSignals(cfg, s.(pending := s.pending[1..]), s.pending[0], inp.io);
      } else {
        if inp.arrival.Message? {
          MessageKeepsSignals(cfg, s, inp.arrival.m, inp.io);
        }
        if inp.found.Some? {
          MessageKeepsSignals(cfg, s, inp.found.value, inp.io);
        }
      }
    }
  }

  /** After a cancel or error from the peer the sender is done and says nothing more. */
  lemma SilentAfterTerminal(cfg: Config, s: State, m: Msg, inp: Input)
    requires WellFormed(cfg, s) && IsTerminal(m) && s.pending == []
    requires (Waiting(s) && inp.arrival == Message(m)) || (s.phase.Polling? && !inp.ctxDone && inp.found == Some(m))
    ensures Step(cfg, s, inp).phase.Returned? && Step(cfg, s, inp).core.out == s.core.out
  {
  }

  // ----- Streaming and events -------------------------------------------------------------------

  function Items(cfg: Config, ids: seq<int>): seq<Item>
    requires InRange(ids, |cfg.files|)
  {
    seq(|ids|, i requires 0 <= i < |ids| => Item(ids[i], cfg.files[ids[i]].size))
  }

  function PositionOf(s: State): Position {
    match s.phase
    case Idle => Between(0)
    case AwaitHello => Between(0)
    case AwaitReply => Between(0)
    case Returned(Nil) => Finished
    case Returned(Failed(_)) => Broken
    case _ => Inside(s.k, |s.sent|)
  }

  /** Between file-start and the ack: hashed is sent, and the file was complete before file-end. */
  ghost predicate StreamOk(cfg: Config, s: State)
    requires WellFormed(cfg, s)
  {
    && Scan(Items(cfg, s.ids), false, s.core.events) == PositionOf(s)
    && (s.phase.Idle? || s.phase.AwaitHello? || s.phase.AwaitReply? ==> s.core.events == [])
    && (InFile(s) ==> s.hashed == s.sent)
    && (s.phase.AwaitAck? ==> |s.sent| == Current(cfg, s).size)
    && |s.pending| <= 1
  }

  lemma FailKeepsStream(cfg: Config, s: State, core: Core, hashed: Bytes, f: Failure, io: Io)
    requires WellFormed(cfg, s) && core.events == s.core.events && |s.pending| <= 1
    requires var p := Scan(Items(cfg, s.ids), false, s.core.events); p.Between? || p.Inside?
    ensures StreamOk(cfg, Fail(s.(core := core, hashed := hashed), f, io))
  {
    ScanAppend(Items(cfg, s.ids), false, s.core.events, SessionError(f));
  }

  lemma CurrentItem(cfg: Config, s: State)
    requires WellFormed(cfg, s) && s.k < |s.ids|
    ensures s.k < |Items(cfg, s.ids)| && Items(cfg, s.ids)[s.k] == Item(s.ids[s.k], Current(cfg, s).size)
  {
  }

  lemma BeginKeepsStream(cfg: Config, s: State, io: Io)
    requires WellFormed(cfg, s) && s.k < |s.ids| && |s.pending| <= 1 && io.sendOk
    requires Scan(Items(cfg, s.ids), false, s.core.events) == Between(s.k)
    ensures StreamOk(cfg, NextFile(cfg, s, io))
  {
    CurrentItem(cfg, s);
    hide Items;
    var s' := NextFile(cfg, s, io);
    var begin := FileStarted(s.ids[s.k], Current(cfg, s).size);
    ScanAppend(Items(cfg, s.ids), false, s.core.events, begin);
    if io.fileOk {
      assert s'.core.events == s.core.events + [begin];
    } else {
      ScanAppend(Items(cfg, s.ids), false, s.core.events + [begin], SessionError(ErrFile));
      assert s'.core.events == s.core.events + [begin] + [SessionError(ErrFile)];
    }
    hide Scan;
  }

  lemma NextFileKeepsStream(cfg: Config, s: State, io: Io)
    requires WellFormed(cfg, s) && s.k <= |s.ids| && |s.pending| <= 1
    requires Scan(Items(cfg, s.ids), false, s.core.events) == Between(s.k)
    ensures StreamOk(cfg, NextFile(cfg, s, io))
  {
    if !io.sendOk {
      FailKeepsStream(cfg, s, s.core, s.hashed, ErrSend, io);
    } else if s.k == |s.ids| {
      ScanAppend(Items(cfg, s.ids), false, s.core.events, AllDone);
    } else {
      BeginKeepsStream(cfg, s, io);
    }
  }

  lemma EndedFile(cfg: Config, s: State, ok: bool)
    requires WellFormed(cfg, s) && StreamOk(cfg, s) && s.phase.AwaitAck?
    ensures Scan(Items(cfg, s.ids), false, s.core.events + [FileDone(s.ids[s.k], |s.sent|, Current(cfg, s).size, ok)])
         == if ok then Between(s.k + 1) else BadDigest(s.k)
  {
    CurrentItem(cfg, s);
    ScanAppend(Items(cfg, s.ids), false, s.core.events, FileDone(s.ids[s.k], |s.sent|, Current(cfg, s).size, ok));
  }

  lemma AckKeepsStream(cfg: Config, s: State, id: int, status: AckStatus, io: Io)
    requires WellFormed(cfg, s) && StreamOk(cfg, s) && s.phase.AwaitAck?
    ensures StreamOk(cfg, OnAck(cfg, s, id, status, io))
  {
    hide Items, Scan;
    if id != s.ids[s.k] || status.StatusOther? {
      FailKeepsStream(cfg, s, s.core.Signal(Error(CodeProtocol), io), s.hashed, ErrProtocol, io);
    } else {
      EndedFile(cfg, s, status.StatusOk?);
      var ended := FileDone(id, |s.sent|, Current(cfg, s).size, status.StatusOk?);
      if status.StatusOk? {
        NextFileKeepsStream(cfg, s.(phase := AwaitReply, k := s.k + 1, core := s.core.Emit(ended)), io);
      } else {
        ScanAppend(Items(cfg, s.ids), false, s.core.events + [ended], SessionError(ErrHashMismatch));
      }
    }
  }

  lemma ControlKeepsStream(cfg: Config, s: State, c: Control, io: Io)
    requires WellFormed(cfg, s) && StreamOk(cfg, s) && Waiting(s)
    ensures StreamOk(cfg, OnControl(cfg, s, c, io))
  {
    hide Items, Resolve, Scan, NextFile, Metas;
    FailKeepsStream(cfg, s, s.core.Signal(Error(CodeProtocol), io), s.hashed, ErrProtocol, io);
    if s.phase.AwaitHello? {
      FailKeepsStream(cfg, s, s.core.Signal(Error(CodeVersion), io), s.hashed, ErrVersion, io);
      FailKeepsStream(cfg, s, s.core, s.hashed, ErrSend, io);
    } else if s.phase.AwaitReply? {
      FailKeepsStream(cfg, s, s.core, s.hashed, ErrRejected, io);
      if c.Accept? && Resolve(c.ids, |cfg.files|).Some? {
        ResolvedInRange(c.ids, |cfg.files|);
        ScanNothing(Items(cfg, Resolve(c.ids, |cfg.files|).value), false);
        NextFileKeepsStream(cfg, s.(phase := AwaitReply, ids := Resolve(c.ids, |cfg.files|).value, k := 0), io);
      }
    } else if c.FileAck? {
      AckKeepsStream(cfg, s, c.id, c.status, io);
    }
  }

  lemma MessageKeepsStream(cfg: Config, s: State, m: Msg, io: Io)
    requires WellFormed(cfg, s) && StreamOk(cfg, s) && (Waiting(s) || s.phase.Polling?)
    ensures Waiting(s) ==> StreamOk(cfg, OnMessage(cfg, s, m, io))
    ensures s.phase.Polling? && s.pending == [] ==> StreamOk(cfg, MidSendCheck(s, m, io))
  {
    hide Scan, Items;
    FailKeepsStream(cfg, s, s.core.Signal(Error(CodeProtocol), io), s.hashed, ErrProtocol, io);
    FailKeepsStream(cfg, s, s.core.(signaled := true), s.hashed, ErrPeerCancel, io);
    if m.Text? {
      if m.control.Error? {
        FailKeepsStream(cfg, s, s.core.(signaled := true), s.hashed, ErrPeer(m.control.code), io);
      } else if Waiting(s) && !m.control.Unknown? && !m.control.Cancel? {
        ControlKeepsStream(cfg, s, m.control, io);
      }
    }
  }

  lemma DataKeepsStream(cfg: Config, s: State, d: Bytes, ctxDone: bool, io: Io)
    requires WellFormed(cfg, s) && StreamOk(cfg, s) && s.phase.Reading?
    ensures StreamOk(cfg, OnRead(cfg, s, Data(d), ctxDone, io))
  {
    hide Items, Scan;
    if ctxDone {
      FailKeepsStream(cfg, s, s.core, s.hashed + d, ErrContext, io);
    } else if !io.sendOk {
      FailKeepsStream(cfg, s, s.core, s.hashed + d, ErrSend, io);
    } else {
      CurrentItem(cfg, s);
      ScanAppend(Items(cfg, s.ids), false, s.core.events, Progress(s.ids[s.k], |s.sent| + |d|, Current(cfg, s).size));
    }
  }

  lemma ReadKeepsStream(cfg: Config, s: State, rd: Read, ctxDone: bool, io: Io)
    requires WellFormed(cfg, s) && StreamOk(cfg, s) && s.phase.Reading?
    ensures StreamOk(cfg, OnRead(cfg, s, rd, ctxDone, io))
  {
    match rd
    case ReadError => FailKeepsStream(cfg, s, s.core, s.hashed, ErrFile, io);
    case Data(d) => DataKeepsStream(cfg, s, d, ctxDone, io);
    case Eof =>
      if |s.sent| != Current(cfg, s).size {
        FailKeepsStream(cfg, s, s.core, s.hashed, ErrSizeChanged, io);
      } else if !io.sendOk {
        FailKeepsStream(cfg, s, s.core, s.hashed, ErrSend, io);
      }
  }

  lemma StepKeepsStream(cfg: Config, s: State, inp: Input)
    requires WellFormed(cfg, s) && StreamOk(cfg, s)
    ensures StreamOk(cfg, Step(cfg, s, inp))
  {
    if s.phase.Reading? {
      ReadKeepsStream(cfg, s, inp.read, inp.ctxDone, inp.io);
    } else if Waiting(s) || s.phase.Polling? {
      FailKeepsStream(cfg, s, s.core, s.hashed, ErrPeerClosed, inp.io);
      FailKeepsStream(cfg, s, s.core, s.hashed, ErrContext, inp.io);
      if s.pending != [] {
        MessageKeepsStream(cfg, s.(pending := s.pending[1..]), s.pending[0], inp.io);
      } else {
        if inp.arrival.Message? {
          MessageKeepsStream(cfg, s, inp.arrival.m, inp.io);
        }
        if inp.found.Some? {
          MessageKeepsStream(cfg, s, inp.found.value, inp.io);
        }
      }
    }
  }

  // ----- Over whole runs ----------------------------------------------------------------------

  function Send(cfg: Config, io0: Io, ins: seq<Input>): State {
    Run(cfg, Start(cfg, INIT, io0), ins)
  }

  lemma {:induction false} RunKeeps(cfg: Config, s: State, ins: seq<Input>)
    requires WellFormed(cfg, s) && SignalsOk(s) && StreamOk(cfg, s)
    ensures SignalsOk(Run(cfg, s, ins)) && StreamOk(cfg, Run(cfg, s, ins))
    decreases |ins|
  {
    if ins != [] {
      StepKeepsSignals(cfg, s, ins[0]);
      StepKeepsStream(cfg, s, ins[0]);
      RunKeeps(cfg, Step(cfg, s, ins[0]), ins[1..]);
    }
  }

  lemma StartSignals(cfg: Config, io0: Io)
    ensures SignalsOk(Start(cfg, INIT, io0))
  {
    hide Sendable;
  }

  lemma FreshStream(cfg: Config, f: Failure)
    ensures var items := Items(cfg, []);
      Scan(items, false, []) == Between(0) && Scan(items, false, [SessionError(f)]) == Broken
  {
    hide Scan, Items;
    var items := Items(cfg, []);
    ScanNothing(items, false);
    ScanAppend(items, false, [], SessionError(f));
    assert [] + [SessionError(f)] == [SessionError(f)];
  }

  lemma StartOk(cfg: Config, io0: Io)
    ensures WellFormed(cfg, Start(cfg, INIT, io0))
    ensures SignalsOk(Start(cfg, INIT, io0)) && StreamOk(cfg, Start(cfg, INIT, io0))
  {
    hide Sendable, FinalIsLast, NoFinal, SignalsOk, Items, Scan;
    StartSignals(cfg, io0);
    FreshStream(cfg, NotOpened);
    FreshStream(cfg, ErrSend);
    assert Start(cfg, INIT, io0).ids == [];
    StartEvents(cfg, io0);
  }

  lemma StartEvents(cfg: Config, io0: Io)
    ensures var s := Start(cfg, INIT, io0);
      s.core.events == if s.phase.Returned? then [SessionError(s.phase.outcome.failure)] else []
    ensures var s := Start(cfg, INIT, io0);
      (s.phase.AwaitHello? || s.phase == Returned(Failed(NotOpened)) || s.phase == Returned(Failed(ErrSend)))
  {
    hide Sendable;
  }

  lemma SendKeeps(cfg: Config, io0: Io, ins: seq<Input>)
    ensures SignalsOk(Send(cfg, io0, ins)) && StreamOk(cfg, Send(cfg, io0, ins))
  {
    hide SignalsOk, StreamOk, WellFormed, Run;
    StartOk(cfg, io0);
    RunKeeps(cfg, Start(cfg, INIT, io0), ins);
  }

  /** The sender's last word is its only last word, over any run; nothing follows the peer's. */
  lemma SenderTerminalSignals(cfg: Config, io0: Io, ins: seq<Input>)
    ensures FinalIsLast(Send(cfg, io0, ins).core.out)
    ensures !Send(cfg, io0, ins).phase.Returned? ==> NoFinal(Send(cfg, io0, ins).core.out)
  {
    SendKeeps(cfg, io0, ins);
  }

  /** The event stream obeys the contract at every moment and ends in AllDone exactly on success. */
  lemma SenderEvents(cfg: Config, io0: Io, ins: seq<Input>)
    ensures var s := Send(cfg, io0, ins);
      && Scan(Items(cfg, s.ids), false, s.core.events) == PositionOf(s)
      && (s.phase == Returned(Nil) <==> s.core.events != [] && s.core.events[|s.core.events| - 1] == AllDone)
  {
    SendKeeps(cfg, io0, ins);
    var s := Send(cfg, io0, ins);
    FinishedByAllDone(Items(cfg, s.ids), false, s.core.events);
  }
}
