/**
 * How a sender ends: for each result, exactly the inputs that lead to it, and what is said on the way out.
 * Stated by result, on the inputs, beside the step machine.
 */
module SenderEndings {
  import opened Protocol
  import opened Acceptance
  import opened Session
  import S = Sender
  import SS = SenderSafety
  import ER = EventReports

  /** The message a step of the sender takes: a deferred one first. */
  function Taken(s: S.State, inp: S.Input): Option<Msg> {
    if S.Waiting(s) then
      if s.pending != [] then Some(s.pending[0])
      else if inp.arrival.Message? then Some(inp.arrival.m)
      else None
    else if s.phase.Polling? && !inp.ctxDone then
      if s.pending != [] then Some(s.pending[0]) else inp.found
    else None
  }

  predicate GoodHello(s: S.State, t: Option<Msg>) {
    s.phase.AwaitHello? && t == Some(Text(Hello(1)))
  }

  /** An accept that names files of the manifest only. */
  predicate GoodAccept(cfg: S.Config, s: S.State, t: Option<Msg>) {
    && s.phase.AwaitReply? && t.Some? && t.value.Text? && t.value.control.Accept?
    && forall i | 0 <= i < |t.value.control.ids| :: 0 <= t.value.control.ids[i] < |cfg.files|
  }

  /** An ack for the file in hand. */
  predicate Acked(cfg: S.Config, s: S.State, t: Option<Msg>, status: AckStatus)
    requires S.WellFormed(cfg, s)
  {
    && s.phase.AwaitAck? && t.Some? && t.value.Text? && t.value.control.FileAck?
    && t.value.control.id == s.ids[s.k] && t.value.control.status == status
  }

  /** The messages the protocol allows in this state. */
  predicate Allowed(cfg: S.Config, s: S.State, t: Option<Msg>)
    requires S.WellFormed(cfg, s)
  {
    && t.Some? && t.value.Text?
    && (|| IsTerminal(t.value)
        || (IsUnknown(t.value) && !s.phase.AwaitHello?)
        || (s.phase.AwaitHello? && t.value.control.Hello?)
        || (s.phase.AwaitReply? && t.value.control.Reject?)
        || GoodAccept(cfg, s, t)
        || Acked(cfg, s, t, StatusOk) || Acked(cfg, s, t, StatusHashMismatch)
        || s.phase.Polling?)
  }

  /** With this message the next accepted file is due. */
  predicate BeginsFile(cfg: S.Config, s: S.State, t: Option<Msg>)
    requires S.WellFormed(cfg, s)
  {
    GoodAccept(cfg, s, t) || (Acked(cfg, s, t, StatusOk) && s.k + 1 < |s.ids|)
  }

  predicate EndsLast(cfg: S.Config, s: S.State, t: Option<Msg>)
    requires S.WellFormed(cfg, s)
  {
    Acked(cfg, s, t, StatusOk) && s.k + 1 == |s.ids|
  }

  /** A chunk was read, or the end of the file after exactly its declared bytes. */
  predicate ReadsChunk(s: S.State, inp: S.Input) {
    s.phase.Reading? && inp.read.Data? && inp.read.data != []
  }

  predicate ReadsEnd(s: S.State, inp: S.Input) {
    s.phase.Reading? && inp.read.Eof?
  }

  predicate Complete(cfg: S.Config, s: S.State)
    requires S.WellFormed(cfg, s)
  {
    s.k < |s.ids| && |s.sent| == S.Current(cfg, s).size
  }

  /** With this input a running sender ends with this result. */
  ghost predicate EndsSend(cfg: S.Config, s: S.State, inp: S.Input, o: Outcome)
    requires S.WellFormed(cfg, s)
  {
    var t := Taken(s, inp);
    var idle := S.Waiting(s) && s.pending == [];
    match o
    case Nil => EndsLast(cfg, s, t) && inp.io.sendOk
    case Failed(ErrPeerClosed) => idle && inp.arrival == Closed
    case Failed(ErrContext) =>
      || (idle && inp.arrival == CtxDone)
      || (s.phase.Polling? && inp.ctxDone)
      || (ReadsChunk(s, inp) && inp.ctxDone)
    case Failed(ErrPeerCancel) => t == Some(Text(Cancel))
    case Failed(ErrPeer(code)) => t == Some(Text(Error(code)))
    case Failed(ErrVersion) => s.phase.AwaitHello? && exists v :: v != 1 && t == Some(Text(Hello(v)))
    case Failed(ErrRejected) => s.phase.AwaitReply? && t == Some(Text(Reject))
    case Failed(ErrHashMismatch) => Acked(cfg, s, t, StatusHashMismatch)
    case Failed(ErrFile) =>
      || (s.phase.Reading? && inp.read.ReadError?)
      || (BeginsFile(cfg, s, t) && inp.io.sendOk && !inp.io.fileOk)
    case Failed(ErrSizeChanged) => ReadsEnd(s, inp) && !Complete(cfg, s)
    case Failed(ErrSend) =>
      && !inp.io.sendOk
      && (|| GoodHello(s, t) || BeginsFile(cfg, s, t) || EndsLast(cfg, s, t)
          || (ReadsChunk(s, inp) && !inp.ctxDone)
          || (ReadsEnd(s, inp) && Complete(cfg, s)))
    case Failed(ErrProtocol) => t.Some? && !Allowed(cfg, s, t)
    case _ => false
  }

  // ----- Step by step -------------------------------------------------------------------------------

  lemma NextFileEnds(cfg: S.Config, s: S.State, io: Io, o: Outcome)
    requires S.WellFormed(cfg, s) && !s.phase.Returned?
    ensures S.NextFile(cfg, s, io).phase == S.Returned(o) <==>
              match o
              case Nil => io.sendOk && s.k >= |s.ids|
              case Failed(ErrSend) => !io.sendOk
              case Failed(ErrFile) => io.sendOk && !io.fileOk && s.k < |s.ids|
              case _ => false
  {
  }

  lemma AcceptEnds(cfg: S.Config, s: S.State, wire: seq<int>, io: Io, o: Outcome)
    requires S.WellFormed(cfg, s) && s.phase.AwaitReply? && |cfg.files| > 0
    ensures S.OnAccept(cfg, s, wire, io).phase == S.Returned(o) <==>
              match o
              case Nil => false
              case Failed(ErrSend) => InRange(wire, |cfg.files|) && !io.sendOk
              case Failed(ErrFile) => InRange(wire, |cfg.files|) && io.sendOk && !io.fileOk
              case Failed(ErrProtocol) => !InRange(wire, |cfg.files|)
              case _ => false
  {
    hide S.NextFile, Resolve;
    var answer := Resolve(wire, |cfg.files|);
    if answer.Some? {
      S.ResolvedInRange(wire, |cfg.files|);
      SomethingAsked(wire, |cfg.files|);
      NextFileEnds(cfg, s.(phase := S.AwaitReply, ids := answer.value, k := 0), io, o);
    }
  }

  lemma SomethingAsked(wire: seq<int>, n: nat)
    requires n > 0
    ensures Resolve(wire, n).Some? <==> InRange(wire, n)
    ensures Resolve(wire, n).Some? ==> Resolve(wire, n).value != []
  {
    hide Resolve;
    var answer := Resolve(wire, n);
    if wire != [] && answer.Some? {
      assert wire[0] in answer.value;
    }
  }

  lemma AckEnds(cfg: S.Config, s: S.State, id: int, status: AckStatus, io: Io, o: Outcome)
    requires S.WellFormed(cfg, s) && s.phase.AwaitAck?
    ensures S.OnAck(cfg, s, id, status, io).phase == S.Returned(o) <==>
              match o
              case Nil => id == s.ids[s.k] && status.StatusOk? && s.k + 1 == |s.ids| && io.sendOk
              case Failed(ErrSend) => id == s.ids[s.k] && status.StatusOk? && !io.sendOk
              case Failed(ErrFile) =>
                id == s.ids[s.k] && status.StatusOk? && s.k + 1 < |s.ids| && io.sendOk && !io.fileOk
              case Failed(ErrHashMismatch) => id == s.ids[s.k] && status.StatusHashMismatch?
              case Failed(ErrProtocol) => id != s.ids[s.k] || status.StatusOther?
              case _ => false
  {
    hide S.NextFile;
    var size := S.Current(cfg, s).size;
    NextFileEnds(cfg, s.(phase := S.AwaitReply, k := s.k + 1, core := s.core.Emit(FileDone(id, |s.sent|, size, true))),
                 io, o);
  }

  /** In a state that takes this message, the result is as listed. */
  lemma ControlEnds(cfg: S.Config, s: S.State, c: Control, inp: S.Input, o: Outcome, from: S.State)
    requires S.WellFormed(cfg, s) && S.Waiting(s) && |cfg.files| > 0
    requires from.phase == s.phase && from.ids == s.ids && from.k == s.k && from.sent == s.sent
    requires !IsTerminal(Text(c)) && !IsUnknown(Text(c))
    requires Taken(from, inp) == Some(Text(c)) && (from.pending != [] || inp.arrival.Message?)
    ensures S.OnControl(cfg, s, c, inp.io).phase == S.Returned(o) <==> EndsSend(cfg, from, inp, o)
  {
    hide Taken, S.OnAccept, S.OnAck, S.Metas, S.Current;
    match s.phase
    case AwaitHello =>
      if c.Hello? {
        assert c == Hello(c.v);
      }
    case AwaitReply =>
      if c.Accept? {
        AcceptEnds(cfg, s, c.ids, inp.io, o);
      }
    case AwaitAck =>
      if c.FileAck? {
        AckEnds(cfg, s, c.id, c.status, inp.io, o);
      }
  }

  lemma MessageEnds(cfg: S.Config, s: S.State, m: Msg, inp: S.Input, o: Outcome, from: S.State)
    requires S.WellFormed(cfg, s) && S.Waiting(s) && |cfg.files| > 0
    requires from.phase == s.phase && from.ids == s.ids && from.k == s.k && from.sent == s.sent
    requires Taken(from, inp) == Some(m) && (from.pending != [] || inp.arrival.Message?)
    ensures S.OnMessage(cfg, s, m, inp.io).phase == S.Returned(o) <==> EndsSend(cfg, from, inp, o)
  {
    hide Taken, S.OnControl, S.Current;
    if m.Text? && !IsTerminal(m) && !IsUnknown(m) {
      hide EndsSend;
      ControlEnds(cfg, s, m.control, inp, o, from);
    }
  }

  lemma PollEnds(cfg: S.Config, s: S.State, inp: S.Input, o: Outcome)
    requires S.WellFormed(cfg, s) && s.phase.Polling?
    ensures S.Poll(s, inp.ctxDone, inp.found, inp.io).phase == S.Returned(o) <==> EndsSend(cfg, s, inp, o)
  {
    hide S.Current;
  }

  lemma ReadEnds(cfg: S.Config, s: S.State, inp: S.Input, o: Outcome)
    requires S.WellFormed(cfg, s) && s.phase.Reading?
    ensures S.OnRead(cfg, s, inp.read, inp.ctxDone, inp.io).phase == S.Returned(o) <==> EndsSend(cfg, s, inp, o)
  {
  }

  /** Each result of a running sender, exactly on the inputs listed for it. */
  lemma SendEndsExactly(cfg: S.Config, s: S.State, inp: S.Input, o: Outcome)
    requires S.WellFormed(cfg, s) && !s.phase.Idle? && !s.phase.Returned? && |cfg.files| > 0
    ensures S.Step(cfg, s, inp).phase == S.Returned(o) <==> EndsSend(cfg, s, inp, o)
  {
    hide S.OnMessage, S.Poll, S.OnRead;
    if s.phase.Polling? {
      PollEnds(cfg, s, inp, o);
    } else if s.phase.Reading? {
      ReadEnds(cfg, s, inp, o);
    } else if Taken(s, inp).Some? {
      hide EndsSend;
      var popped := if s.pending != [] then s.(pending := s.pending[1..]) else s;
      MessageEnds(cfg, popped, Taken(s, inp).value, inp, o, s);
    }
  }

  // ----- What is said -------------------------------------------------------------------------------

  /** When the file cannot be opened, its file-start has gone out before the farewell. */
  function Opening(s: S.State, s': S.State, f: Failure): seq<Msg> {
    if f == ErrFile && !s.phase.Reading? && s'.k < |s'.ids| then [Text(FileStart(s'.ids[s'.k]))] else []
  }

  lemma FailSays(s: S.State, f: Failure, io: Io)
    ensures S.Fail(s, f, io).phase == S.Returned(Failed(f)) && S.Fail(s, f, io).ids == s.ids
    ensures S.Fail(s, f, io).core.out == s.core.out + (if !s.core.signaled && io.lastOk then [Text(Cancel)] else [])
  {
    AbortSays(s.core, f, io);
  }

  lemma ComplainSays(s: S.State, io: Io)
    requires !s.core.signaled
    ensures S.Complain(s, io).phase == S.Returned(Failed(ErrProtocol))
    ensures S.Complain(s, io).core.out == s.core.out + Farewell(ErrProtocol, io)
  {
    WordSays(s.core, Error(CodeProtocol), ErrProtocol, io);
  }

  lemma NextFileSays(cfg: S.Config, s: S.State, io: Io, f: Failure)
    requires S.WellFormed(cfg, s) && s.phase.AwaitReply? && !s.core.signaled
    requires S.NextFile(cfg, s, io).phase == S.Returned(Failed(f))
    ensures var s' := S.NextFile(cfg, s, io);
      && s'.core.out == s.core.out + Opening(s, s', f) + Farewell(f, io)
      && s'.ids == s.ids && s'.k == s.k && (f == ErrFile ==> s.k < |s.ids|)
  {
    FailSays(s, f, io);
    if s.k < |s.ids| {
      var id := s.ids[s.k];
      FailSays(s.(core := s.core.Say(FileStart(id), io).Emit(FileStarted(id, S.Current(cfg, s).size))), f, io);
    }
  }

  lemma HelloSays(cfg: S.Config, s: S.State, v: int, io: Io, f: Failure)
    requires !s.core.signaled && S.OnHello(cfg, s, v, io).phase == S.Returned(Failed(f))
    ensures S.OnHello(cfg, s, v, io).core.out == s.core.out + Farewell(f, io) && f != ErrFile
  {
    WordSays(s.core, Error(CodeVersion), ErrVersion, io);
    AbortSays(s.core, f, io);
  }

  /** The file that was due: the first one asked for, or the one after the file just acknowledged. */
  ghost predicate FileDue(cfg: S.Config, s: S.State, t: Option<Msg>, s': S.State)
    requires S.WellFormed(cfg, s)
  {
    if GoodAccept(cfg, s, t) then
      s'.k == 0 && Resolves(t.value.control.ids, |cfg.files|, Some(s'.ids))
    else
      s'.k == s.k + 1 && s'.ids == s.ids
  }

  lemma ControlSays(cfg: S.Config, s: S.State, c: Control, io: Io, f: Failure)
    requires S.WellFormed(cfg, s) && S.Waiting(s) && !s.core.signaled
    requires S.OnControl(cfg, s, c, io).phase == S.Returned(Failed(f))
    ensures var s' := S.OnControl(cfg, s, c, io);
      && s'.core.out == s.core.out + Opening(s, s', f) + Farewell(f, io)
      && (f == ErrFile ==> s'.k < |s'.ids| && FileDue(cfg, s, Some(Text(c)), s'))
  {
    hide S.Complain, S.Fail, S.NextFile, S.OnHello, Resolve, S.Current;
    ComplainSays(s, io);
    FailSays(s, ErrRejected, io);
    match s.phase
    case AwaitHello =>
      if c.Hello? {
        HelloSays(cfg, s, c.v, io, f);
      }
    case AwaitReply =>
      if c.Accept? && Resolve(c.ids, |cfg.files|).Some? {
        S.ResolvedInRange(c.ids, |cfg.files|);
        NextFileSays(cfg, s.(phase := S.AwaitReply, ids := Resolve(c.ids, |cfg.files|).value, k := 0), io, f);
      }
    case AwaitAck =>
      if c.FileAck? {
        AckSays(cfg, s, c.id, c.status, io, f);
      }
  }

  lemma AckSays(cfg: S.Config, s: S.State, id: int, status: AckStatus, io: Io, f: Failure)
    requires S.WellFormed(cfg, s) && s.phase.AwaitAck? && !s.core.signaled
    requires S.OnAck(cfg, s, id, status, io).phase == S.Returned(Failed(f))
    ensures var s' := S.OnAck(cfg, s, id, status, io);
      && s'.core.out == s.core.out + Opening(s, s', f) + Farewell(f, io)
      && (f == ErrFile ==> s'.k < |s'.ids| && s'.k == s.k + 1 && s'.ids == s.ids)
  {
    hide S.Complain, S.Fail, S.NextFile;
    var size := S.Current(cfg, s).size;
    ComplainSays(s, io);
    if id == s.ids[s.k] && status.StatusOk? {
      NextFileSays(
        cfg, s.(phase := S.AwaitReply, k := s.k + 1, core := s.core.Emit(FileDone(id, |s.sent|, size, true))), io, f);
    } else if id == s.ids[s.k] {
      FailSays(s.(core := s.core.Emit(FileDone(id, |s.sent|, size, false))), ErrHashMismatch, io);
    }
  }

  lemma MessageSays(cfg: S.Config, s: S.State, m: Msg, io: Io, f: Failure)
    requires S.WellFormed(cfg, s) && S.Waiting(s) && !s.core.signaled
    requires S.OnMessage(cfg, s, m, io).phase == S.Returned(Failed(f))
    ensures var s' := S.OnMessage(cfg, s, m, io);
      && s'.core.out == s.core.out + Opening(s, s', f) + Farewell(f, io)
      && (f == ErrFile ==> s'.k < |s'.ids| && FileDue(cfg, s, Some(m), s'))
  {
    hide S.OnControl, S.Complain, S.Fail;
    ComplainSays(s, io);
    if m.Text? {
      if !IsTerminal(m) && !IsUnknown(m) {
        ControlSays(cfg, s, m.control, io, f);
      } else if m.control.Error? {
        FailSays(s.(core := s.core.(signaled := true)), ErrPeer(m.control.code), io);
      } else {
        FailSays(s.(core := s.core.(signaled := true)), ErrPeerCancel, io);
      }
    }
  }

  lemma CheckSays(s: S.State, m: Msg, io: Io, f: Failure)
    requires s.phase.Polling? && !s.core.signaled
    requires S.MidSendCheck(s, m, io).phase == S.Returned(Failed(f))
    ensures S.MidSendCheck(s, m, io).core.out == s.core.out + Farewell(f, io) && f != ErrFile
  {
    hide S.Complain, S.Fail;
    ComplainSays(s, io);
    if m.Text? {
      if m.control.Error? {
        FailSays(s.(core := s.core.(signaled := true)), ErrPeer(m.control.code), io);
      } else {
        FailSays(s.(core := s.core.(signaled := true)), ErrPeerCancel, io);
      }
    }
  }

  lemma ReadSays(cfg: S.Config, s: S.State, inp: S.Input, f: Failure)
    requires S.WellFormed(cfg, s) && s.phase.Reading? && !s.core.signaled
    requires S.OnRead(cfg, s, inp.read, inp.ctxDone, inp.io).phase == S.Returned(Failed(f))
    ensures S.OnRead(cfg, s, inp.read, inp.ctxDone, inp.io).core.out == s.core.out + Farewell(f, inp.io)
  {
    AbortSays(s.core, f, inp.io);
  }

  /** A running sender that ends with a failure says exactly its farewell. */
  lemma SendSaysExactly(cfg: S.Config, s: S.State, inp: S.Input, f: Failure)
    requires S.WellFormed(cfg, s) && !s.phase.Idle? && !s.phase.Returned? && !s.core.signaled
    requires S.Step(cfg, s, inp).phase == S.Returned(Failed(f))
    ensures var s' := S.Step(cfg, s, inp);
      && s'.core.out == s.core.out + Opening(s, s', f) + Farewell(f, inp.io)
      && (f == ErrFile && !s.phase.Reading? ==> s'.k < |s'.ids| && FileDue(cfg, s, Taken(s, inp), s'))
  {
    hide S.OnMessage, S.MidSendCheck, S.OnRead, S.Fail, FileDue, Farewell;
    var popped := if s.pending != [] then s.(pending := s.pending[1..]) else s;
    if s.phase.Reading? {
      ReadSays(cfg, s, inp, f);
    } else if Taken(s, inp).Some? {
      if s.phase.Polling? {
        CheckSays(popped, Taken(s, inp).value, inp.io, f);
      } else {
        MessageSays(cfg, popped, Taken(s, inp).value, inp.io, f);
        SameDue(cfg, popped, s, Taken(s, inp), S.Step(cfg, s, inp));
      }
    } else {
      QuietSays(s, ErrPeerClosed, inp.io);
      QuietSays(s, ErrContext, inp.io);
    }
  }

  lemma SameDue(cfg: S.Config, popped: S.State, s: S.State, t: Option<Msg>, s': S.State)
    requires S.WellFormed(cfg, s) && S.WellFormed(cfg, popped)
    requires popped == s.(pending := popped.pending)
    ensures FileDue(cfg, popped, t, s') == FileDue(cfg, s, t, s')
  {
  }

  lemma QuietSays(s: S.State, f: Failure, io: Io)
    requires !s.core.signaled && (f == ErrPeerClosed || f == ErrContext)
    ensures S.Fail(s, f, io).core.out == s.core.out + Farewell(f, io)
    ensures S.Fail(s, f, io).phase == S.Returned(Failed(f))
  {
    FailSays(s, f, io);
  }

  // ----- Over whole runs of the sender --------------------------------------------------------------

  /** With its n-th input the sender ends with this result. */
  ghost predicate EndedAt(cfg: S.Config, io0: Io, ins: seq<S.Input>, n: nat, o: Outcome)
    requires n < |ins|
  {
    var s := SS.Send(cfg, io0, ins[..n]);
    !s.phase.Idle? && !s.phase.Returned? && EndsSend(cfg, s, ins[n], o)
  }

  lemma SendWellFormed(cfg: S.Config, io0: Io, ins: seq<S.Input>)
    ensures S.WellFormed(cfg, SS.Send(cfg, io0, ins))
  {
  }

  lemma StepNotIdle(cfg: S.Config, s: S.State, inp: S.Input)
    requires S.WellFormed(cfg, s) && !s.phase.Idle?
    ensures !S.Step(cfg, s, inp).phase.Idle?
    ensures s.phase.Returned? ==> S.Step(cfg, s, inp) == s
  {
    hide Resolve, S.Metas, S.Current;
  }

  lemma {:induction false} EndedByPrefix(cfg: S.Config, io0: Io, ins: seq<S.Input>, m: nat, o: Outcome)
    requires m <= |ins| && S.Sendable(cfg.files) && io0.sendOk
    ensures !SS.Send(cfg, io0, ins[..m]).phase.Idle?
    ensures SS.Send(cfg, io0, ins[..m]).phase == S.Returned(o)
       <==> exists n: nat :: n < m && EndedAt(cfg, io0, ins, n, o)
  {
    hide SS.Send, S.Step, S.WellFormed, EndsSend;
    if m == 0 {
      assert ins[..0] == [];
      JustStarted(cfg, io0);
    } else {
      var before := SS.Send(cfg, io0, ins[..m - 1]);
      SendWellFormed(cfg, io0, ins[..m - 1]);
      EndedByPrefix(cfg, io0, ins, m - 1, o);
      ER.SendAppend(cfg, io0, ins, m - 1);
      StepNotIdle(cfg, before, ins[m - 1]);
      if !before.phase.Returned? {
        SendEndsExactly(cfg, before, ins[m - 1], o);
        assert EndedAt(cfg, io0, ins, m - 1, o) <==> EndsSend(cfg, before, ins[m - 1], o);
      } else {
        assert !EndedAt(cfg, io0, ins, m - 1, o);
      }
    }
  }

  lemma JustStarted(cfg: S.Config, io0: Io)
    requires S.Sendable(cfg.files) && io0.sendOk
    ensures SS.Send(cfg, io0, []).phase.AwaitHello?
  {
    hide S.Sendable;
  }

  lemma NeverStarted(cfg: S.Config, io0: Io, ins: seq<S.Input>)
    requires !S.Sendable(cfg.files) || !io0.sendOk
    ensures SS.Send(cfg, io0, ins).phase == S.Returned(Failed(if S.Sendable(cfg.files) then ErrSend else NotOpened))
  {
    hide S.Sendable;
    S.RunReturned(cfg, S.Start(cfg, S.INIT, io0), ins);
  }

  /** Send returns a result if and only if an input that leads to it was taken, or it could not start. */
  lemma SendReturns(cfg: S.Config, io0: Io, ins: seq<S.Input>, o: Outcome)
    ensures SS.Send(cfg, io0, ins).phase == S.Returned(o)
       <==> if !S.Sendable(cfg.files) then o == Failed(NotOpened)
            else if !io0.sendOk then o == Failed(ErrSend)
            else exists n: nat :: n < |ins| && EndedAt(cfg, io0, ins, n, o)
  {
    hide SS.Send, EndedAt, S.Sendable;
    if S.Sendable(cfg.files) && io0.sendOk {
      assert ins[..|ins|] == ins;
      EndedByPrefix(cfg, io0, ins, |ins|, o);
    } else {
      NeverStarted(cfg, io0, ins);
    }
  }

  /** A sender that returned nil met no fault, no rejection, no close and no violation at any input. */
  lemma NilMeansNoFault(cfg: S.Config, io0: Io, ins: seq<S.Input>, n: nat, f: Failure)
    requires SS.Send(cfg, io0, ins).phase == S.Returned(Nil) && n < |ins|
    ensures !EndedAt(cfg, io0, ins, n, Failed(f))
  {
    hide SS.Send, EndedAt, S.Sendable;
    SendReturns(cfg, io0, ins, Nil);
    SendReturns(cfg, io0, ins, Failed(f));
  }
}
