/**
 * What each step of a sender says and reports, case by case on the inputs.
 */
module SenderSteps {
  import opened Protocol
  import opened Acceptance
  import opened Session
  import opened SenderEndings
  import S = Sender

  /** The manifest of the files: numbered from 0, each under its sanitized name. */
  ghost predicate AreMetas(files: seq<S.File>, metas: seq<FileMeta>) {
    && |metas| == |files|
    && forall i | 0 <= i < |files| ::
         metas[i].id == i && metas[i].size == files[i].size && Sanitize(files[i].name) == NameOk(metas[i].name)
  }

  /** The file-start of the file that is due. */
  ghost predicate Begins(cfg: S.Config, s: S.State, t: Option<Msg>, s': S.State, id: int)
    requires S.WellFormed(cfg, s)
  {
    FileDue(cfg, s, t, s') && s'.k < |s'.ids| && id == s'.ids[s'.k] && 0 <= id < |cfg.files|
  }

  /** What a step adds to the messages of a sender that does not fail. */
  ghost predicate Says(cfg: S.Config, s: S.State, inp: S.Input, s': S.State, said: seq<Msg>)
    requires S.WellFormed(cfg, s)
  {
    var t := Taken(s, inp);
    if GoodHello(s, t) then exists metas :: AreMetas(cfg.files, metas) && said == [Text(Manifest(metas))]
    else if BeginsFile(cfg, s, t) then exists id :: Begins(cfg, s, t, s', id) && said == [Text(FileStart(id))]
    else if EndsLast(cfg, s, t) then said == [Text(Done)]
    else if ReadsChunk(s, inp) then said == [Binary(inp.read.data)]
    else if ReadsEnd(s, inp) && Complete(cfg, s) then said == [Text(FileEnd(s.ids[s.k], cfg.sha(s.hashed)))]
    else said == []
  }

  /** The report on the file in hand: acknowledged, or its digest disputed. */
  function AckReport(cfg: S.Config, s: S.State, t: Option<Msg>): seq<Event>
    requires S.WellFormed(cfg, s)
  {
    if Acked(cfg, s, t, StatusOk) then [FileDone(s.ids[s.k], |s.sent|, S.Current(cfg, s).size, true)]
    else if Acked(cfg, s, t, StatusHashMismatch) then [FileDone(s.ids[s.k], |s.sent|, S.Current(cfg, s).size, false)]
    else []
  }

  ghost predicate BeginReport(cfg: S.Config, s: S.State, inp: S.Input, s': S.State, reported: seq<Event>)
    requires S.WellFormed(cfg, s)
  {
    if BeginsFile(cfg, s, Taken(s, inp)) && inp.io.sendOk then
      exists id :: Begins(cfg, s, Taken(s, inp), s', id) && reported == [FileStarted(id, cfg.files[id].size)]
    else if ReadsChunk(s, inp) && !inp.ctxDone && inp.io.sendOk then
      && s.k < |s.ids|
      && reported == [Progress(s.ids[s.k], |s.sent| + |inp.read.data|, S.Current(cfg, s).size)]
    else
      reported == []
  }

  function ExitReport(s': S.State): seq<Event> {
    match s'.phase
    case Returned(Nil) => [AllDone]
    case Returned(Failed(f)) => [SessionError(f)]
    case _ => []
  }

  /** The step from s to s', as its core shows it. */
  ghost predicate TellsExactly(cfg: S.Config, s: S.State, inp: S.Input, s': S.State)
    requires S.WellFormed(cfg, s)
  {
    && (!(s'.phase.Returned? && s'.phase.outcome.Failed?) ==>
          exists said :: Says(cfg, s, inp, s', said) && s'.core.out == s.core.out + said)
    && exists reported ::
         && BeginReport(cfg, s, inp, s', reported)
         && s'.core.events == s.core.events + AckReport(cfg, s, Taken(s, inp)) + reported + ExitReport(s')
  }

  // ----- In every case --------------------------------------------------------------------------------

  lemma FailTells(cfg: S.Config, s: S.State, inp: S.Input, from: S.State, core: Core, f: Failure, s': S.State)
    requires S.WellFormed(cfg, s) && s' == S.Fail(from.(core := core), f, inp.io)
    requires core.events == s.core.events
    requires !BeginsFile(cfg, s, Taken(s, inp)) && !(ReadsChunk(s, inp) && !inp.ctxDone && inp.io.sendOk)
    requires AckReport(cfg, s, Taken(s, inp)) == []
    ensures TellsExactly(cfg, s, inp, s')
  {
    hide BeginsFile, AckReport, Taken;
    assert BeginReport(cfg, s, inp, s', []);
    assert s.core.events + [] + [] + [SessionError(f)] == s.core.events + [SessionError(f)];
  }

  /** A step that says and reports nothing. */
  lemma NothingTold(cfg: S.Config, s: S.State, inp: S.Input, s': S.State)
    requires S.WellFormed(cfg, s) && s'.core == s.core && !s'.phase.Returned?
    requires Says(cfg, s, inp, s', []) && BeginReport(cfg, s, inp, s', [])
    requires AckReport(cfg, s, Taken(s, inp)) == []
    ensures TellsExactly(cfg, s, inp, s')
  {
    hide Says, BeginReport, AckReport, Taken;
    assert s.core.out + [] == s.core.out && s.core.events + [] + [] + [] == s.core.events;
  }

  lemma ReadTells(cfg: S.Config, s: S.State, inp: S.Input)
    requires S.WellFormed(cfg, s) && s.phase.Reading?
    ensures TellsExactly(cfg, s, inp, S.OnRead(cfg, s, inp.read, inp.ctxDone, inp.io))
  {
    var s' := S.OnRead(cfg, s, inp.read, inp.ctxDone, inp.io);
    if s'.phase.Returned? {
      var from := if inp.read.Data? then s.(hashed := s.hashed + inp.read.data) else s;
      FailTells(cfg, s, inp, from, s.core, s'.phase.outcome.failure, s');
    } else if inp.read.Data? && inp.read.data == [] {
      NothingTold(cfg, s, inp, s');
    } else if inp.read.Data? {
      assert BeginReport(cfg, s, inp, s', [Progress(s.ids[s.k], |s.sent| + |inp.read.data|, S.Current(cfg, s).size)]);
      assert Says(cfg, s, inp, s', [Binary(inp.read.data)]);
    } else {
      assert BeginReport(cfg, s, inp, s', []);
      assert Says(cfg, s, inp, s', [Text(FileEnd(s.ids[s.k], cfg.sha(s.hashed)))]);
    }
  }

  lemma PollTells(cfg: S.Config, s: S.State, inp: S.Input)
    requires S.WellFormed(cfg, s) && s.phase.Polling?
    ensures TellsExactly(cfg, s, inp, S.Poll(s, inp.ctxDone, inp.found, inp.io))
  {
    var s' := S.Poll(s, inp.ctxDone, inp.found, inp.io);
    if s'.phase.Returned? {
      var from := if s.pending != [] && !inp.ctxDone then s.(pending := s.pending[1..]) else s;
      var f := s'.phase.outcome.failure;
      var core := if f == ErrProtocol then s.core.Signal(Error(CodeProtocol), inp.io)
                  else if f == ErrContext then s.core else s.core.(signaled := true);
      FailTells(cfg, s, inp, from, core, f, s');
    } else {
      NothingTold(cfg, s, inp, s');
    }
  }

  lemma MetasAre(cfg: S.Config)
    requires S.Sendable(cfg.files)
    ensures AreMetas(cfg.files, S.Metas(cfg.files))
  {
    hide Sanitize;
    forall i: nat | i < |cfg.files|
      ensures Sanitize(cfg.files[i].name) == NameOk(S.Metas(cfg.files)[i].name)
    {
      S.MetasNames(cfg.files, i);
    }
  }

  lemma HelloTells(cfg: S.Config, s: S.State, inp: S.Input, v: int, from: S.State)
    requires S.WellFormed(cfg, s) && s.phase.AwaitHello? && S.Sendable(cfg.files)
    requires from == s.(pending := from.pending) && Taken(s, inp) == Some(Text(Hello(v)))
    ensures TellsExactly(cfg, s, inp, S.OnHello(cfg, from, v, inp.io))
  {
    hide S.Sendable, S.Metas, Taken;
    MetasAre(cfg);
    var s' := S.OnHello(cfg, from, v, inp.io);
    assert BeginReport(cfg, s, inp, s', []);
    if s'.phase.Returned? {
      FailTells(cfg, s, inp, from, if v != VERSION then s.core.Signal(Error(CodeVersion), inp.io) else s.core,
                s'.phase.outcome.failure, s');
    } else {
      assert Says(cfg, s, inp, s', [Text(Manifest(S.Metas(cfg.files)))]);
    }
  }

  /** The head of the loop over the accepted ids, entered from s through mid. */
  lemma NextFileTells(cfg: S.Config, s: S.State, inp: S.Input, mid: S.State)
    requires S.WellFormed(cfg, s) && S.WellFormed(cfg, mid) && mid.phase.AwaitReply?
    requires mid.core.out == s.core.out && mid.core.events == s.core.events + AckReport(cfg, s, Taken(s, inp))
    requires !GoodHello(s, Taken(s, inp)) && !ReadsChunk(s, inp)
    requires FileDue(cfg, s, Taken(s, inp), mid)
    requires if mid.k < |mid.ids| then BeginsFile(cfg, s, Taken(s, inp))
             else EndsLast(cfg, s, Taken(s, inp)) && !BeginsFile(cfg, s, Taken(s, inp))
    ensures TellsExactly(cfg, s, inp, S.NextFile(cfg, mid, inp.io))
  {
    hide Taken, GoodHello, BeginsFile, EndsLast, AckReport, ReadsChunk;
    var s' := S.NextFile(cfg, mid, inp.io);
    SameDue(cfg, s, Taken(s, inp), mid, s');
    hide FileDue;
    if mid.k < |mid.ids| {
      var id := mid.ids[mid.k];
      assert Begins(cfg, s, Taken(s, inp), s', id);
      if inp.io.sendOk {
        assert BeginReport(cfg, s, inp, s', [FileStarted(id, cfg.files[id].size)]);
        assert Says(cfg, s, inp, s', [Text(FileStart(id))]);
      } else {
        assert BeginReport(cfg, s, inp, s', []);
      }
    } else {
      assert BeginReport(cfg, s, inp, s', []);
      assert Says(cfg, s, inp, s', [Text(Done)]);
    }
  }

  lemma SameDue(cfg: S.Config, s: S.State, t: Option<Msg>, mid: S.State, s': S.State)
    requires S.WellFormed(cfg, s) && FileDue(cfg, s, t, mid) && s'.k == mid.k && s'.ids == mid.ids
    ensures FileDue(cfg, s, t, s')
  {
  }

  lemma AcceptTells(cfg: S.Config, s: S.State, inp: S.Input, wire: seq<int>, from: S.State)
    requires S.WellFormed(cfg, s) && s.phase.AwaitReply? && |cfg.files| > 0
    requires from == s.(pending := from.pending) && Taken(s, inp) == Some(Text(Accept(wire)))
    ensures TellsExactly(cfg, s, inp, S.OnAccept(cfg, from, wire, inp.io))
  {
    hide S.NextFile, Resolve, Taken;
    var answer := Resolve(wire, |cfg.files|);
    SomethingAsked(wire, |cfg.files|);
    assert s.core.events + [] == s.core.events;
    if answer.Some? {
      S.ResolvedInRange(wire, |cfg.files|);
      NextFileTells(cfg, s, inp, from.(phase := S.AwaitReply, ids := answer.value, k := 0));
    } else {
      FailTells(cfg, s, inp, from, s.core.Signal(Error(CodeProtocol), inp.io), ErrProtocol,
                S.OnAccept(cfg, from, wire, inp.io));
    }
  }

  lemma AckTells(cfg: S.Config, s: S.State, inp: S.Input, id: int, status: AckStatus, bytes: int, from: S.State)
    requires S.WellFormed(cfg, s) && s.phase.AwaitAck?
    requires from == s.(pending := from.pending) && Taken(s, inp) == Some(Text(FileAck(id, status, bytes)))
    ensures TellsExactly(cfg, s, inp, S.OnAck(cfg, from, id, status, inp.io))
  {
    hide S.NextFile, Taken, S.Current;
    var s' := S.OnAck(cfg, from, id, status, inp.io);
    var size := S.Current(cfg, s).size;
    assert S.Current(cfg, from) == S.Current(cfg, s) by {
      SameCurrent(cfg, s, from);
    }
    if id == s.ids[s.k] && status.StatusOk? {
      NextFileTells(
        cfg, s, inp,
        from.(phase := S.AwaitReply, k := s.k + 1, core := s.core.Emit(FileDone(id, |s.sent|, size, true))));
    } else if id == s.ids[s.k] && status.StatusHashMismatch? {
      assert BeginReport(cfg, s, inp, s', []);
      assert s'.core.events
          == s.core.events + [FileDone(id, |s.sent|, size, false)] + [] + [SessionError(ErrHashMismatch)];
    } else {
      FailTells(cfg, s, inp, from, s.core.Signal(Error(CodeProtocol), inp.io), ErrProtocol, s');
    }
  }

  lemma SameCurrent(cfg: S.Config, s: S.State, from: S.State)
    requires S.WellFormed(cfg, s) && s.phase.AwaitAck? && from == s.(pending := from.pending)
    ensures S.Current(cfg, from) == S.Current(cfg, s)
  {
  }

  lemma ControlTells(cfg: S.Config, s: S.State, inp: S.Input, c: Control, from: S.State)
    requires S.WellFormed(cfg, s) && S.Waiting(s) && S.Sendable(cfg.files)
    requires from == s.(pending := from.pending) && Taken(s, inp) == Some(Text(c))
    requires !IsTerminal(Text(c)) && !IsUnknown(Text(c))
    ensures TellsExactly(cfg, s, inp, S.OnControl(cfg, from, c, inp.io))
  {
    hide S.OnHello, S.OnAccept, S.OnAck, S.Current, TellsExactly, Taken;
    var s' := S.OnControl(cfg, from, c, inp.io);
    if s.phase.AwaitHello? && c.Hello? {
      HelloTells(cfg, s, inp, c.v, from);
    } else if s.phase.AwaitReply? && c.Accept? {
      AcceptTells(cfg, s, inp, c.ids, from);
    } else if s.phase.AwaitAck? && c.FileAck? {
      AckTells(cfg, s, inp, c.id, c.status, c.bytes, from);
    } else if s.phase.AwaitReply? && c.Reject? {
      FailTells(cfg, s, inp, from, s.core, ErrRejected, s');
    } else {
      FailTells(cfg, s, inp, from, s.core.Signal(Error(CodeProtocol), inp.io), ErrProtocol, s');
    }
  }

  lemma MessageTells(cfg: S.Config, s: S.State, inp: S.Input, m: Msg, from: S.State)
    requires S.WellFormed(cfg, s) && S.Waiting(s) && S.Sendable(cfg.files)
    requires from == s.(pending := from.pending) && Taken(s, inp) == Some(m)
    ensures TellsExactly(cfg, s, inp, S.OnMessage(cfg, from, m, inp.io))
  {
    hide S.OnControl, S.Current, TellsExactly, Taken, S.Sendable;
    var s' := S.OnMessage(cfg, from, m, inp.io);
    if m.Text? && !IsTerminal(m) && !IsUnknown(m) {
      ControlTells(cfg, s, inp, m.control, from);
    } else if IsUnknown(m) && !s.phase.AwaitHello? {
      NothingTold(cfg, s, inp, s');
    } else {
      FailTells(cfg, s, inp, from,
                if IsTerminal(m) then s.core.(signaled := true) else s.core.Signal(Error(CodeProtocol), inp.io),
                s'.phase.outcome.failure, s');
    }
  }

  /** One step of a running sender: what it adds to the messages and events, in every case. */
  lemma SendTellsExactly(cfg: S.Config, s: S.State, inp: S.Input)
    requires S.WellFormed(cfg, s) && !s.phase.Idle? && !s.phase.Returned? && S.Sendable(cfg.files)
    ensures TellsExactly(cfg, s, inp, S.Step(cfg, s, inp))
  {
    hide S.OnMessage, S.Poll, S.OnRead, TellsExactly, S.Sendable;
    if s.phase.Polling? {
      PollTells(cfg, s, inp);
    } else if s.phase.Reading? {
      ReadTells(cfg, s, inp);
    } else if Taken(s, inp).Some? {
      var popped := if s.pending != [] then s.(pending := s.pending[1..]) else s;
      MessageTells(cfg, s, inp, Taken(s, inp).value, popped);
    } else {
      var f := if inp.arrival.Closed? then ErrPeerClosed else ErrContext;
      FailTells(cfg, s, inp, s, s.core, f, S.Step(cfg, s, inp));
    }
  }

  /** The deferred messages after a step: what was taken is gone, unless the look between chunks defers it. */
  lemma DeferredExactly(cfg: S.Config, s: S.State, inp: S.Input)
    requires S.WellFormed(cfg, s) && |s.pending| <= 1
    ensures var s', t := S.Step(cfg, s, inp), Taken(s, inp);
      s'.pending == if t == None then s.pending
                    else if s.phase.Polling? && t.value.Text? && !IsTerminal(t.value) && !IsUnknown(t.value) then [t.value]
                    else []
  {
    hide S.OnRead, S.OnMessage, S.Current;
    if s.phase.Reading? {
      ReadKeepsDeferred(cfg, s, inp);
    } else if S.Waiting(s) && Taken(s, inp).Some? {
      var popped := if s.pending != [] then s.(pending := s.pending[1..]) else s;
      MessageKeepsDeferred(cfg, popped, Taken(s, inp).value, inp.io);
    }
  }

  lemma ReadKeepsDeferred(cfg: S.Config, s: S.State, inp: S.Input)
    requires S.WellFormed(cfg, s) && s.phase.Reading?
    ensures S.OnRead(cfg, s, inp.read, inp.ctxDone, inp.io).pending == s.pending
  {
  }

  lemma MessageKeepsDeferred(cfg: S.Config, s: S.State, m: Msg, io: Io)
    requires S.WellFormed(cfg, s) && S.Waiting(s)
    ensures S.OnMessage(cfg, s, m, io).pending == s.pending
  {
    hide Resolve, S.Metas;
  }

  /** Opening the session: the checks on the files first, then hello. */
  lemma SendStarts(cfg: S.Config, io: Io)
    ensures var s, ok := S.Start(cfg, S.INIT, io), S.Sendable(cfg.files);
      && s.core.out == (if !ok then [] else if io.sendOk then [Text(Hello(1))] else if io.lastOk then [Text(Cancel)] else [])
      && s.core.events == (if !ok then [SessionError(NotOpened)] else if io.sendOk then [] else [SessionError(ErrSend)])
  {
    hide S.Sendable;
  }
}
