/** Conservation: what the receiver has written and what is in flight make up what the sender has read. */
module JointStreams {
  import opened Protocol
  import opened Directory
  import opened Acceptance
  import opened Session
  import opened Recogniser
  import opened ReceiverReplies
  import S = Sender
  import R = Receiver
  import RS = ReceiverSafety
  import opened Joint
  import Flow
  import opened JointLink
  import opened JointInvariant
  import opened JointRuns
  import opened JointOutcomes

  // ----- Reading a message list -------------------------------------------------------------------

  predicate IsStart(m: Msg) {
    m.Text? && m.control.FileStart?
  }

  /** How many files the messages begin. */
  function Starts(msgs: seq<Msg>): nat {
    if msgs == [] then 0
    else Starts(msgs[..|msgs| - 1]) + (if IsStart(msgs[|msgs| - 1]) then 1 else 0)
  }

  /** The binary payloads since the last file-start, or since the beginning. */
  function Body(msgs: seq<Msg>): Bytes {
    if msgs == [] then []
    else
      var last := msgs[|msgs| - 1];
      if last.Binary? then Body(msgs[..|msgs| - 1]) + last.data
      else if IsStart(last) then []
      else Body(msgs[..|msgs| - 1])
  }

  /** The id of the file begun last, if any. */
  function Newest(msgs: seq<Msg>): int {
    if msgs == [] then -1
    else
      var last := msgs[|msgs| - 1];
      if IsStart(last) then last.control.id else Newest(msgs[..|msgs| - 1])
  }

  lemma Append(msgs: seq<Msg>, m: Msg)
    ensures Starts(msgs + [m]) == Starts(msgs) + (if IsStart(m) then 1 else 0)
    ensures Body(msgs + [m]) == if m.Binary? then Body(msgs) + m.data else if IsStart(m) then [] else Body(msgs)
    ensures Newest(msgs + [m]) == if IsStart(m) then m.control.id else Newest(msgs)
  {
    assert (msgs + [m])[..|msgs|] == msgs;
  }

  /** Splitting a list splits its current file, unless a new one begins in the second part. */
  lemma {:induction false} Split(a: seq<Msg>, b: seq<Msg>)
    ensures Starts(a + b) == Starts(a) + Starts(b)
    ensures Body(a + b) == if Starts(b) == 0 then Body(a) + Body(b) else Body(b)
    ensures Starts(b) == 0 ==> Newest(a + b) == Newest(a)
    decreases |b|
  {
    if b == [] {
      assert a + b == a;
    } else {
      var front, last := b[..|b| - 1], b[|b| - 1];
      Split(a, front);
      hide Starts, Body, Newest;
      SplitOneMore(a, front, last);
      assert b == front + [last];
      Regroup(a, front, [last]);
    }
  }

  lemma Regroup<T>(a: seq<T>, b: seq<T>, c: seq<T>)
    ensures a + (b + c) == a + b + c
  {
  }

  lemma SplitOneMore(a: seq<Msg>, front: seq<Msg>, last: Msg)
    requires Starts(a + front) == Starts(a) + Starts(front)
    requires Body(a + front) == if Starts(front) == 0 then Body(a) + Body(front) else Body(front)
    requires Starts(front) == 0 ==> Newest(a + front) == Newest(a)
    ensures Starts(a + front + [last]) == Starts(a) + Starts(front + [last])
    ensures Body(a + front + [last])
         == if Starts(front + [last]) == 0 then Body(a) + Body(front + [last]) else Body(front + [last])
    ensures Starts(front + [last]) == 0 ==> Newest(a + front + [last]) == Newest(a)
  {
    Append(a + front, last);
    Append(front, last);
    hide Starts, Body, Newest;
    if last.Binary? && Starts(front) == 0 {
      assert Body(a) + Body(front) + last.data == Body(a) + (Body(front) + last.data);
    }
  }

  // ----- The sender's half ------------------------------------------------------------------------

  /** What was sent of the file begun last are the first bytes of its source. */
  ghost predicate Sourced(cfg: S.Config, out: seq<Msg>) {
    Starts(out) > 0 ==> 0 <= Newest(out) < |cfg.files| && Body(out) <= cfg.files[Newest(out)].content
  }

  /** What a sender has put on the wire so far, running or returned. */
  ghost predicate SenderStream(cfg: S.Config, s: S.State) {
    && Sourced(cfg, s.core.out)
    && (if S.InFile(s) then
          Starts(s.core.out) == s.k + 1 && Body(s.core.out) == s.sent
          && s.k < |s.ids| && Newest(s.core.out) == s.ids[s.k]
        else s.phase.Returned? || Starts(s.core.out) == 0)
  }

  /** A control message that begins no file leaves the current file as it is. */
  lemma SaysStream(cfg: S.Config, core: Core, c: Control, io: Io)
    requires Sourced(cfg, core.out) && !c.FileStart?
    ensures Sourced(cfg, core.Say(c, io).out) && Sourced(cfg, core.Signal(c, io).out)
    ensures Starts(core.Say(c, io).out) == Starts(core.out) && Body(core.Say(c, io).out) == Body(core.out)
    ensures Newest(core.Say(c, io).out) == Newest(core.out)
    ensures Starts(core.Signal(c, io).out) == Starts(core.out)
  {
    Append(core.out, Text(c));
  }

  lemma FailStream(cfg: S.Config, s: S.State, f: Failure, io: Io)
    requires Sourced(cfg, s.core.out)
    ensures SenderStream(cfg, S.Fail(s, f, io)) && Starts(S.Fail(s, f, io).core.out) == Starts(s.core.out)
  {
    hide Starts, Body, Newest, Sourced;
    SaysStream(cfg, s.core.Emit(SessionError(f)), Cancel, io.Last());
  }

  lemma SignalStream(cfg: S.Config, s: S.State, c: Control, f: Failure, io: Io)
    requires Sourced(cfg, s.core.out) && !c.FileStart?
    ensures var s' := S.Fail(s.(core := s.core.Signal(c, io)), f, io);
            SenderStream(cfg, s') && Starts(s'.core.out) == Starts(s.core.out)
  {
    hide Starts, Body, Newest, Sourced;
    SaysStream(cfg, s.core, c, io);
    FailStream(cfg, s.(core := s.core.Signal(c, io)), f, io);
  }

  lemma BeginsStream(cfg: S.Config, out: seq<Msg>, id: int)
    requires 0 <= id < |cfg.files|
    ensures var out' := out + [Text(FileStart(id))];
      Sourced(cfg, out') && Starts(out') == Starts(out) + 1 && Body(out') == [] && Newest(out') == id
  {
    Append(out, Text(FileStart(id)));
  }

  lemma NextFileStream(cfg: S.Config, s: S.State, io: Io)
    requires S.WellFormed(cfg, s) && Starts(s.core.out) == s.k && Sourced(cfg, s.core.out)
    ensures SenderStream(cfg, S.NextFile(cfg, s, io))
    ensures Starts(S.NextFile(cfg, s, io).core.out) <= Starts(s.core.out) + 1
  {
    hide Starts, Body, Newest, Sourced;
    FailStream(cfg, s, ErrSend, io);
    SaysStream(cfg, s.core, Done, io);
    if s.k < |s.ids| {
      var id := s.ids[s.k];
      BeginsStream(cfg, s.core.out, id);
      var started := s.core.Say(FileStart(id), io).Emit(FileStarted(id, S.Current(cfg, s).size));
      if io.sendOk {
        FailStream(cfg, s.(core := started), ErrFile, io);
      }
    }
  }

  /** What one step may add: at most one file-start, and only after an accept or an acknowledgement. */
  ghost predicate StreamStep(cfg: S.Config, s: S.State, s': S.State) {
    && SenderStream(cfg, s')
    && Starts(s'.core.out) <= Starts(s.core.out) + (if s.phase.AwaitReply? || s.phase.AwaitAck? then 1 else 0)
  }

  lemma ControlStream(cfg: S.Config, s: S.State, c: Control, io: Io)
    requires S.WellFormed(cfg, s) && S.Waiting(s) && SenderStream(cfg, s)
    ensures StreamStep(cfg, s, S.OnControl(cfg, s, c, io))
  {
    hide Resolve, S.Metas, S.NextFile, Starts, Body, Newest, Sourced, S.Fail;
    SignalStream(cfg, s, Error(CodeProtocol), ErrProtocol, io);
    if s.phase.AwaitHello? {
      SignalStream(cfg, s, Error(CodeVersion), ErrVersion, io);
      FailStream(cfg, s, ErrSend, io);
      SaysStream(cfg, s.core, Manifest(S.Metas(cfg.files)), io);
    } else if s.phase.AwaitReply? {
      FailStream(cfg, s, ErrRejected, io);
      if c.Accept? && Resolve(c.ids, |cfg.files|).Some? {
        S.ResolvedInRange(c.ids, |cfg.files|);
        NextFileStream(cfg, s.(phase := S.AwaitReply, ids := Resolve(c.ids, |cfg.files|).value, k := 0), io);
      }
    } else if c.FileAck? {
      var size := S.Current(cfg, s).size;
      FailStream(cfg, s.(core := s.core.Emit(FileDone(c.id, |s.sent|, size, false))), ErrHashMismatch, io);
      var done := s.core.Emit(FileDone(c.id, |s.sent|, size, true));
      NextFileStream(cfg, s.(phase := S.AwaitReply, k := s.k + 1, core := done), io);
    }
  }

  lemma MessageStream(cfg: S.Config, s: S.State, m: Msg, io: Io)
    requires S.WellFormed(cfg, s) && SenderStream(cfg, s)
    ensures S.Waiting(s) ==> StreamStep(cfg, s, S.OnMessage(cfg, s, m, io))
    ensures s.phase.Polling? ==> StreamStep(cfg, s, S.MidSendCheck(s, m, io))
  {
    hide S.OnControl, Starts, Body, Newest, Sourced, S.Fail;
    SignalStream(cfg, s, Error(CodeProtocol), ErrProtocol, io);
    if m.Text? {
      if IsTerminal(m) {
        var e := if m.control.Error? then ErrPeer(m.control.code) else ErrPeerCancel;
        FailStream(cfg, s.(core := s.core.(signaled := true)), e, io);
      } else if S.Waiting(s) && !m.control.Unknown? {
        ControlStream(cfg, s, m.control, io);
      }
    }
  }

  lemma ReadStream(cfg: S.Config, s: S.State, rd: S.Read, ctxDone: bool, io: Io)
    requires S.WellFormed(cfg, s) && s.phase.Reading? && SenderStream(cfg, s)
    requires rd.Data? ==> s.sent + rd.data <= S.Current(cfg, s).content
    ensures StreamStep(cfg, s, S.OnRead(cfg, s, rd, ctxDone, io))
  {
    hide Starts, Body, Newest, S.Fail;
    match rd
    case ReadError => FailStream(cfg, s, ErrFile, io);
    case Data(d) =>
      FailStream(cfg, s.(hashed := s.hashed + d), ErrContext, io);
      FailStream(cfg, s.(hashed := s.hashed + d), ErrSend, io);
      Append(s.core.out, Binary(d));
    case Eof =>
      FailStream(cfg, s, ErrSizeChanged, io);
      FailStream(cfg, s, ErrSend, io);
      SaysStream(cfg, s.core, FileEnd(s.ids[s.k], cfg.sha(s.hashed)), io);
  }

  lemma SenderStepStream(cfg: S.Config, s: S.State, inp: S.Input)
    requires S.WellFormed(cfg, s) && SenderStream(cfg, s)
    requires s.phase.Reading? && inp.read.Data? ==> s.sent + inp.read.data <= S.Current(cfg, s).content
    ensures StreamStep(cfg, s, S.Step(cfg, s, inp))
  {
    hide S.OnMessage, S.MidSendCheck, S.OnRead, S.Fail, Sourced, Starts, Body, Newest;
    FailStream(cfg, s, ErrContext, inp.io);
    FailStream(cfg, s, ErrPeerClosed, inp.io);
    if s.phase.Reading? {
      ReadStream(cfg, s, inp.read, inp.ctxDone, inp.io);
    } else if S.Waiting(s) || s.phase.Polling? {
      if s.pending != [] {
        MessageStream(cfg, s.(pending := s.pending[1..]), s.pending[0], inp.io);
      } else {
        if inp.arrival.Message? {
          MessageStream(cfg, s, inp.arrival.m, inp.io);
        }
        if inp.found.Some? {
          MessageStream(cfg, s, inp.found.value, inp.io);
        }
      }
    }
  }

  // ----- The receiver's half ----------------------------------------------------------------------

  /** What a running receiver has taken so far. */
  ghost predicate ReceiverStream(r: R.State, taken: seq<Msg>) {
    match r.phase
    case Returned(_) => true
    case AwaitStart => Starts(taken) == |r.kept|
    case InBody =>
      Starts(taken) == |r.kept| + 1 && Body(taken) == r.written
      && |r.kept| < |r.ids| && Newest(taken) == r.ids[|r.kept|]
    case AwaitDone => Starts(taken) == |r.kept|
    case _ => Starts(taken) == 0
  }

  lemma ReceiverStepStream(cfg: R.Config, r: R.State, m: Msg, io: Io, taken: seq<Msg>, r': R.State)
    requires R.WellFormed(r) && R.Waiting(r) && ReceiverStream(r, taken)
    requires r' == R.Step(cfg, r, Message(m), io)
    ensures ReceiverStream(r', taken + [m])
  {
    hide R.Judge, R.ById, Dest, Sanitize, EqualFold, R.IdsKnown, Starts, Body, Newest;
    Append(taken, m);
    if m.Text? {
      hide R.Step, R.OnMessage;
      TextStream(cfg, r, m.control, io, taken, r');
    }
  }

  lemma TextStream(cfg: R.Config, r: R.State, c: Control, io: Io, taken: seq<Msg>, r': R.State)
    requires R.WellFormed(r) && R.Waiting(r) && ReceiverStream(r, taken)
    requires Starts(taken + [Text(c)]) == Starts(taken) + (if c.FileStart? then 1 else 0)
    requires Body(taken + [Text(c)]) == if c.FileStart? then [] else Body(taken)
    requires Newest(taken + [Text(c)]) == if c.FileStart? then c.id else Newest(taken)
    requires r' == R.Step(cfg, r, Message(Text(c)), io)
    ensures ReceiverStream(r', taken + [Text(c)])
  {
    hide R.Judge, R.ById, Dest, Sanitize, EqualFold, Starts, Body, Newest, R.Fail;
    assert forall x: R.State, e: Failure :: R.Fail(x, e, io).phase.Returned? by {
      FailReturns(io);
    }
    if r.phase.AwaitManifest? {
      assert r'.kept == [] || r'.phase.Returned?;
    }
  }

  lemma FailReturns(io: Io)
    ensures forall x: R.State, e: Failure :: R.Fail(x, e, io).phase.Returned?
  {
  }

  // ----- Both halves and the queue between them -----------------------------------------------------

  /** What a running receiver has taken and what is queued for it are, in order, all the sender's messages. */
  ghost predicate InOrder(g: Sys) {
    var out, queue := g.s.core.out, g.toR.Queue();
    !g.r.phase.Returned? ==>
      && |queue| <= |out| && out[|out| - |queue|..] == queue
      && ReceiverStream(g.r, out[..|out| - |queue|])
  }

  ghost predicate Streams(w: World, g: Sys) {
    SenderStream(w.SC(), g.s) && InOrder(g)
  }

  lemma SenderMoveStreams(g: Sys, s': S.State, removed: nat)
    requires InOrder(g) && g.s.core.out <= s'.core.out && removed <= |g.toS.inbox|
    ensures InOrder(SenderMoves(g, s', removed))
  {
    hide ReceiverStream;
    var out, queue, new' := g.s.core.out, g.toR.Queue(), s'.core.out[|g.s.core.out|..];
    assert SenderMoves(g, s', removed).toR.Queue() == queue + new';
    assert s'.core.out == out + new';
    if !g.r.phase.Returned? {
      SuffixGrows(out, queue, new');
    }
  }

  lemma SuffixGrows<T>(out: seq<T>, queue: seq<T>, more: seq<T>)
    requires |queue| <= |out| && out[|out| - |queue|..] == queue
    ensures (out + more)[|out + more| - |queue + more|..] == queue + more
    ensures (out + more)[..|out + more| - |queue + more|] == out[..|out| - |queue|]
  {
  }

  lemma TakeStreams(w: World, g: Sys, fileOk: bool, r': R.State)
    requires WellFormed(w, g) && InOrder(g) && R.Waiting(g.r) && g.toR.inbox != []
    requires r' == R.Step(w.RC(), g.r, Message(g.toR.inbox[0]), Local(fileOk))
    requires |g.r.core.out| <= |r'.core.out|
    ensures InOrder(ReceiverMoves(g, r', 1))
  {
    hide ReceiverStream, R.Step, R.WellFormed, S.WellFormed;
    var m := g.toR.inbox[0];
    var out, queue := g.s.core.out, g.toR.Queue();
    var taken := out[..|out| - |queue|];
    assert queue[0] == m && ReceiverMoves(g, r', 1).toR.Queue() == queue[1..];
    assert out[|out| - |queue|] == m;
    assert out[..|out| - |queue[1..]|] == taken + [m];
    assert out[|out| - |queue[1..]|..] == queue[1..];
    ReceiverStepStream(w.RC(), g.r, m, Local(fileOk), taken, r');
  }

  lemma ActionKeepsStreams(w: World, g: Sys, a: Action)
    requires WellFormed(w, g) && Enabled(w, g, a) && Streams(w, g)
    ensures Streams(w, Apply(w, g, a))
  {
    hide R.Step, R.WellFormed, S.WellFormed, S.Step, S.Sendable, S.Start, ReceiverStream, Sourced, Starts, Body, Newest;
    if OfSender(a) {
      var inp := SenderInput(w, g, a);
      ReadsAreNext(w, g, a, inp);
      hide SenderStream, InOrder;
      SenderGrows(w.SC(), g.s, inp);
      SenderStepStream(w.SC(), g.s, inp);
      SenderMoveStreams(g, S.Step(w.SC(), g.s, inp), SenderRemoves(g, a));
    } else {
      hide SenderInput;
      match a
      case SenderBegins =>
        HelloStream(w.SC(), g.s, Local(true));
        SenderMoveStreams(g, S.Start(w.SC(), g.s, Local(true)), 0);
      case ReceiverTakes(fileOk) =>
        ReceiverGrows(w.RC(), g.r, Message(g.toR.inbox[0]), Local(fileOk));
        TakeStreams(w, g, fileOk, R.Step(w.RC(), g.r, Message(g.toR.inbox[0]), Local(fileOk)));
      case ReceiverBegins(fileOk) => BeginStreams(g, fileOk);
      case ReceiverCancelled => CancelledReturns(w.RC(), g.r);
      case PumpToReceiver =>
        if !g.r.phase.Returned? {
          PumpKeepsQueue(g.toR);
        }
      case _ =>
    }
  }

  lemma HelloStream(cfg: S.Config, s: S.State, io: Io)
    requires SenderStream(cfg, s) && s.phase.Idle?
    ensures SenderStream(cfg, S.Start(cfg, s, io)) && s.core.out <= S.Start(cfg, s, io).core.out
  {
    hide S.Sendable, Starts, Body, Newest, Sourced;
    SaysStream(cfg, s.core, Hello(VERSION), io);
    FailStream(cfg, s, ErrSend, io);
  }

  /** What is read continues what was sent. */
  lemma ReadsAreNext(w: World, g: Sys, a: Action, inp: S.Input)
    requires WellFormed(w, g) && Enabled(w, g, a) && OfSender(a) && inp == SenderInput(w, g, a)
    requires SenderStream(w.SC(), g.s)
    ensures g.s.phase.Reading? && inp.read.Data? ==> g.s.sent + inp.read.data <= S.Current(w.SC(), g.s).content
  {
    hide Starts, Body, Newest;
    if g.s.phase.Reading? && inp.read.Data? {
      assert g.s.sent <= S.Current(w.SC(), g.s).content;
      assert g.s.sent + Unread(w, g.s) == S.Current(w.SC(), g.s).content;
    }
  }

  lemma BeginStreams(g: Sys, fileOk: bool)
    requires InOrder(g) && g.r.phase.Idle?
    ensures InOrder(ReceiverMoves(g, R.Start(g.r, Local(fileOk)), 0))
  {
  }

  lemma CancelledReturns(cfg: R.Config, r: R.State)
    requires R.WellFormed(r) && R.Waiting(r)
    ensures R.Step(cfg, r, CtxDone, Local(true)).phase.Returned?
    ensures r.core.out <= R.Step(cfg, r, CtxDone, Local(true)).core.out
  {
    ReceiverGrows(cfg, r, CtxDone, Local(true));
  }

  lemma {:induction false} RunStreams(w: World, run: seq<Sys>, i: nat)
    requires IsRun(w, run) && i < |run|
    ensures Streams(w, run[i])
  {
    hide Streams;
    if i == 0 {
      InitialStreams(w);
    } else {
      RunStreams(w, run, i - 1);
      assert Steps(w, run[i - 1], run[i - 1 + 1]);
      hide Enabled, Apply;
      var a :| Enabled(w, run[i - 1], a) && run[i] == Apply(w, run[i - 1], a);
      ActionKeepsStreams(w, run[i - 1], a);
    }
  }

  lemma InitialStreams(w: World)
    ensures Streams(w, Initial(w))
  {
    assert Initial(w).s.core.out[..0] == [];
  }

  // ----- How far the sender can be ahead -----------------------------------------------------------

  /** No file is begun before the one before it is kept. */
  ghost predicate Limit(g: Sys) {
    !g.r.phase.Returned? ==> Starts(g.s.core.out) <= |g.r.kept| + 1
  }

  /** An acknowledgement in the sender's queue says that the file is kept. */
  lemma AckMeansKept(w: World, g: Sys)
    requires Inv(w, g) && g.s.phase.AwaitAck? && g.toS.inbox != [] && !g.r.phase.Returned?
    ensures g.s.k < |g.r.kept|
  {
    hide S.WellFormed, RS.DirOk, DeliveredOk, Flush, Link, R.WellFormed;
    assert g.toS.Queue()[0] == g.toS.inbox[0];
    assert Taken(g.s) < |g.r.core.out|;
    if R.Waiting(g.r) {
      RepliesCount(g.r);
    }
  }

  lemma NothingDeferred(w: World, g: Sys)
    requires Inv(w, g) && !g.s.phase.Returned?
    ensures g.s.pending == []
  {
    hide Shape, Faithful, Synced, RS.DirOk, Flush;
  }

  lemma ActionKeepsLimit(w: World, g: Sys, a: Action)
    requires WellFormed(w, g) && Enabled(w, g, a) && Inv(w, g) && Streams(w, g) && Limit(g)
    ensures Limit(Apply(w, g, a))
  {
    hide R.Step, R.WellFormed, S.WellFormed, S.Step, S.Sendable, ReceiverStream, InOrder, Starts, Inv, R.Start;
    if OfSender(a) {
      var inp := SenderInput(w, g, a);
      ReadsAreNext(w, g, a, inp);
      SenderGrows(w.SC(), g.s, inp);
      SenderStepStream(w.SC(), g.s, inp);
      NothingDeferred(w, g);
      if g.s.phase.AwaitAck? && a.SenderTakes? && !g.r.phase.Returned? {
        AckMeansKept(w, g);
      }
      if a.SenderCancelled? {
        CancelAddsNothing(w, g, a);
      }
    } else {
      hide SenderInput;
      match a
      case SenderBegins => HelloBeginsNothing(w, g);
      case ReceiverBegins(fileOk) => NothingKeptAtStart(g.r, fileOk);
      case ReceiverTakes(fileOk) =>
        StepExtends(w.RC(), g.r, Message(g.toR.inbox[0]), Local(fileOk));
      case ReceiverCancelled => CancelledReturns(w.RC(), g.r);
      case _ =>
    }
  }

  lemma CancelAddsNothing(w: World, g: Sys, a: Action)
    requires WellFormed(w, g) && Enabled(w, g, a) && a.SenderCancelled? && g.s.pending == []
    requires SenderStream(w.SC(), g.s)
    ensures Starts(S.Step(w.SC(), g.s, SenderInput(w, g, a)).core.out) == Starts(g.s.core.out)
  {
    hide Starts, Body, Newest, Sourced;
    FailStream(w.SC(), g.s, ErrContext, SenderInput(w, g, a).io);
  }

  lemma HelloBeginsNothing(w: World, g: Sys)
    requires Inv(w, g) && g.s.phase.Idle?
    ensures Starts(S.Start(w.SC(), g.s, Local(true)).core.out) == 0
  {
    hide Shape, Faithful, Synced, RS.DirOk, Flush, S.Sendable;
    assert g.s == S.INIT;
    Append([], Text(Hello(VERSION)));
    assert [] + [Text(Hello(VERSION))] == [Text(Hello(VERSION))];
  }

  lemma NothingKeptAtStart(r: R.State, fileOk: bool)
    ensures R.Start(r, Local(fileOk)).kept == r.kept
  {
  }

  lemma {:induction false} RunLimit(w: World, run: seq<Sys>, i: nat)
    requires IsRun(w, run) && i < |run|
    ensures Limit(run[i])
  {
    hide Streams, Inv, Limit;
    if i == 0 {
      InitialLimit(w);
    } else {
      RunLimit(w, run, i - 1);
      RunStreams(w, run, i - 1);
      RunInv(w, run, i - 1);
      assert Steps(w, run[i - 1], run[i - 1 + 1]);
      hide Enabled, Apply;
      var a :| Enabled(w, run[i - 1], a) && run[i] == Apply(w, run[i - 1], a);
      ActionKeepsLimit(w, run[i - 1], a);
    }
  }

  lemma InitialLimit(w: World)
    ensures Limit(Initial(w))
  {
  }

  lemma ReachableLimit(w: World, g: Sys)
    requires Reachable(w, g)
    ensures Limit(g)
  {
    var run :| IsRun(w, run) && g == run[|run| - 1];
    assert run != [];
    hide IsRun, Limit;
    RunLimit(w, run, |run| - 1);
  }

  // ----- The theorem --------------------------------------------------------------------------------

  function Written(r: R.State): Bytes {
    if r.phase.InBody? then r.written else []
  }

  /**
   * While a file is being sent to a running receiver: the bytes written for it, followed by the payloads
   * still queued or on the wire, are the bytes read for it; these are the first bytes of the source; and
   * on both sides exactly the streamed bytes have been hashed.
   */
  lemma Conservation(w: World, g: Sys)
    requires Reachable(w, g) && S.InFile(g.s) && R.Waiting(g.r)
    ensures g.s.k < |g.s.ids| && 0 <= g.s.ids[g.s.k] < |w.files| && g.r.ids == g.s.ids
    ensures |g.r.kept| == g.s.k || (g.s.phase.AwaitAck? && |g.r.kept| == g.s.k + 1)
    ensures |g.r.kept| == g.s.k ==> g.s.sent == Written(g.r) + Body(g.toR.Queue())
    ensures |g.r.kept| == g.s.k + 1 ==> g.r.kept[g.s.k].data == g.s.sent
    ensures g.s.sent <= w.files[g.s.ids[g.s.k]].content
    ensures g.s.hashed == g.s.sent
    ensures g.r.phase.InBody? ==>
      g.r.hashed == g.r.written && g.r.got == |g.r.written| && Starts(g.toR.Queue()) == 0
  {
    hide S.WellFormed, RS.DirOk, Reachable, R.WellFormed, Link, Shape, DeliveredOk, Flush, Extends, SenderStream;
    hide IsRun, InOrder, ReceiverStream;
    ReachableInv(w, g);
    LinkOfInv(w, g);
    FlushExtendsInv(w, g);
    ReachableStreams(w, g);
    assert Streams(w, g);
    var f := Flush(w, g);
    HowFar(w, g, f);
    hide Inv, QueueOk;
    SourceRead(w, g.s, f);
    BodySplits(w, g);
    if |g.r.kept| == g.s.k + 1 {
      KeptFaithful(w, g, f, g.s.k);
    }
    if g.r.phase.InBody? {
      DirFacts(w, g.r);
      hide Streams;
    }
  }

  lemma ReachableStreams(w: World, g: Sys)
    requires Reachable(w, g)
    ensures Streams(w, g)
  {
    var run :| IsRun(w, run) && g == run[|run| - 1];
    assert run != [];
    hide IsRun, Streams;
    RunStreams(w, run, |run| - 1);
  }

  /** The acknowledgements tell how far the receiver is. */
  lemma HowFar(w: World, g: Sys, f: R.State)
    requires Inv(w, g) && S.InFile(g.s) && R.Waiting(g.r) && Link(w, g.s, f) && Extends(g.r, f)
    ensures g.r.ids == g.s.ids && g.r.ids != []
    ensures |g.r.kept| == g.s.k || (g.s.phase.AwaitAck? && |g.r.kept| == g.s.k + 1)
    ensures g.r.phase.AwaitStart? || g.r.phase.InBody? || g.r.phase.AwaitDone?
    ensures g.r.phase.AwaitDone? ==> |g.r.kept| == |g.r.ids|
  {
    hide S.WellFormed, RS.DirOk, DeliveredOk, Flush, Synced, SenderOk, Faithful;
    assert Shape(g.r);
    RepliesCount(g.r);
    assert Taken(g.s) == 2 + g.s.k <= |g.r.core.out|;
    assert g.r.ids != [];
    assert Counts(g.s, f);
    hide Link, Replies, LastWords, Inv;
  }

  lemma SourceRead(w: World, s: S.State, f: R.State)
    requires Link(w, s, f) && S.InFile(s)
    ensures s.k < |s.ids| && 0 <= s.ids[s.k] < |w.files|
    ensures s.sent <= w.files[s.ids[s.k]].content && s.hashed == s.sent
    ensures s.phase.AwaitAck? ==> s.sent == w.files[s.ids[s.k]].content
  {
    hide Faithful, Shape, S.Sendable, Counts, Synced;
  }

  lemma BodySplits(w: World, g: Sys)
    requires Streams(w, g) && S.InFile(g.s) && !g.r.phase.Returned?
    requires g.r.phase.AwaitStart? || g.r.phase.InBody? || g.r.phase.AwaitDone?
    requires |g.r.kept| == g.s.k || (|g.r.kept| == g.s.k + 1)
    requires g.r.phase.AwaitDone? ==> |g.r.kept| == g.s.k + 1
    ensures |g.r.kept| == g.s.k ==> g.s.sent == Written(g.r) + Body(g.toR.Queue())
    ensures g.r.phase.InBody? ==> |g.r.kept| == g.s.k && Starts(g.toR.Queue()) == 0
  {
    var out, queue := g.s.core.out, g.toR.Queue();
    var taken := out[..|out| - |queue|];
    assert out == taken + queue;
    hide Starts, Body;
    Split(taken, queue);
  }

  /**
   * The same whatever has become of the sender, returned in mid-file or not: for a receiver that is writing
   * a file, the bytes written, followed by the payloads still on their way, are what was sent of that file,
   * and these are the first bytes of its source.
   */
  lemma ConservationAlways(w: World, g: Sys)
    requires Reachable(w, g) && g.r.phase.InBody?
    ensures |g.r.kept| < |g.r.ids| && 0 <= g.r.ids[|g.r.kept|] < |w.files|
    ensures g.r.written + Body(g.toR.Queue()) == Body(g.s.core.out)
    ensures Body(g.s.core.out) <= w.files[g.r.ids[|g.r.kept|]].content
    ensures Starts(g.toR.Queue()) == 0 && g.r.hashed == g.r.written && g.r.got == |g.r.written|
    ensures S.InFile(g.s) ==> Body(g.s.core.out) == g.s.sent
  {
    hide S.WellFormed, RS.DirOk, Reachable, R.WellFormed, IsRun, Limit, Streams;
    ReachableInv(w, g);
    LinkOfInv(w, g);
    ReachableStreams(w, g);
    ReachableLimit(w, g);
    hide Inv, Link, Shape, Flush;
    DirFacts(w, g.r);
    BodyOnItsWay(w, g);
  }

  lemma BodyOnItsWay(w: World, g: Sys)
    requires Streams(w, g) && Limit(g) && g.r.phase.InBody?
    ensures |g.r.kept| < |g.r.ids| && 0 <= g.r.ids[|g.r.kept|] < |w.files|
    ensures g.r.written + Body(g.toR.Queue()) == Body(g.s.core.out) && Starts(g.toR.Queue()) == 0
    ensures Body(g.s.core.out) <= w.files[g.r.ids[|g.r.kept|]].content
    ensures S.InFile(g.s) ==> Body(g.s.core.out) == g.s.sent
  {
    var out, queue := g.s.core.out, g.toR.Queue();
    var taken := out[..|out| - |queue|];
    assert out == taken + queue;
    hide Starts, Body, Newest;
    Split(taken, queue);
  }

  // ----- What the channel can hold ------------------------------------------------------------------

  lemma {:induction false} BufferedSplit(a: seq<Msg>, b: seq<Msg>)
    ensures Buffered(a + b) == Buffered(a) + Buffered(b)
  {
    if a == [] {
      assert a + b == b;
    } else {
      assert (a + b)[1..] == a[1..] + b;
      BufferedSplit(a[1..], b);
    }
  }

  lemma BufferedOne(out: seq<Msg>, m: Msg)
    ensures Buffered(out + [m]) == Buffered(out) + (if m.Binary? then |m.data| else 0)
  {
    BufferedSplit(out, [m]);
    assert [m][1..] == [];
  }

  lemma FailBuffers(s: S.State, core: Core, f: Failure, io: Io)
    ensures Buffered(S.Fail(s.(core := core), f, io).core.out) == Buffered(core.out)
  {
    BufferedOne(core.out, Text(Cancel));
  }

  lemma SignalBuffers(s: S.State, c: Control, f: Failure, io: Io)
    ensures Buffered(S.Fail(s.(core := s.core.Signal(c, io)), f, io).core.out) == Buffered(s.core.out)
  {
    hide Buffered;
    BufferedOne(s.core.out, Text(c));
    FailBuffers(s, s.core.Signal(c, io), f, io);
  }

  lemma NextFileBuffers(cfg: S.Config, s: S.State, io: Io)
    requires S.WellFormed(cfg, s)
    ensures Buffered(S.NextFile(cfg, s, io).core.out) == Buffered(s.core.out)
  {
    hide Buffered;
    FailBuffers(s, s.core, ErrSend, io);
    BufferedOne(s.core.out, Text(Done));
    if s.k < |s.ids| {
      var id := s.ids[s.k];
      BufferedOne(s.core.out, Text(FileStart(id)));
      FailBuffers(s, s.core.Say(FileStart(id), io).Emit(FileStarted(id, S.Current(cfg, s).size)), ErrFile, io);
    }
  }

  lemma ControlBuffers(cfg: S.Config, s: S.State, c: Control, io: Io)
    requires S.WellFormed(cfg, s) && S.Waiting(s)
    ensures Buffered(S.OnControl(cfg, s, c, io).core.out) == Buffered(s.core.out)
  {
    hide Resolve, S.Metas, S.NextFile, Buffered;
    SignalBuffers(s, Error(CodeProtocol), ErrProtocol, io);
    if s.phase.AwaitHello? {
      SignalBuffers(s, Error(CodeVersion), ErrVersion, io);
      FailBuffers(s, s.core, ErrSend, io);
      BufferedOne(s.core.out, Text(Manifest(S.Metas(cfg.files))));
    } else if s.phase.AwaitReply? {
      FailBuffers(s, s.core, ErrRejected, io);
      if c.Accept? && Resolve(c.ids, |cfg.files|).Some? {
        S.ResolvedInRange(c.ids, |cfg.files|);
        NextFileBuffers(cfg, s.(phase := S.AwaitReply, ids := Resolve(c.ids, |cfg.files|).value, k := 0), io);
      }
    } else if c.FileAck? {
      var size := S.Current(cfg, s).size;
      FailBuffers(s, s.core.Emit(FileDone(c.id, |s.sent|, size, false)), ErrHashMismatch, io);
      var done := s.core.Emit(FileDone(c.id, |s.sent|, size, true));
      NextFileBuffers(cfg, s.(phase := S.AwaitReply, k := s.k + 1, core := done), io);
    }
  }

  lemma MessageBuffers(cfg: S.Config, s: S.State, m: Msg, io: Io)
    requires S.WellFormed(cfg, s)
    ensures S.Waiting(s) ==> Buffered(S.OnMessage(cfg, s, m, io).core.out) == Buffered(s.core.out)
    ensures Buffered(S.MidSendCheck(s, m, io).core.out) == Buffered(s.core.out)
  {
    hide S.OnControl, Buffered;
    SignalBuffers(s, Error(CodeProtocol), ErrProtocol, io);
    if m.Text? {
      if IsTerminal(m) {
        var e := if m.control.Error? then ErrPeer(m.control.code) else ErrPeerCancel;
        FailBuffers(s, s.core.(signaled := true), e, io);
      } else if S.Waiting(s) && !m.control.Unknown? {
        ControlBuffers(cfg, s, m.control, io);
      }
    }
  }

  /** Only a read that is sent adds data to the channel. */
  lemma ReadBuffers(cfg: S.Config, s: S.State, rd: S.Read, ctxDone: bool, io: Io)
    requires S.WellFormed(cfg, s) && s.phase.Reading?
    ensures Buffered(S.OnRead(cfg, s, rd, ctxDone, io).core.out)
         <= Buffered(s.core.out) + (if rd.Data? && !ctxDone then |rd.data| else 0)
  {
    hide Buffered;
    match rd
    case ReadError => FailBuffers(s, s.core, ErrFile, io);
    case Data(d) =>
      FailBuffers(s.(hashed := s.hashed + d), s.core, ErrContext, io);
      FailBuffers(s.(hashed := s.hashed + d), s.core, ErrSend, io);
      BufferedOne(s.core.out, Binary(d));
    case Eof =>
      FailBuffers(s, s.core, ErrSizeChanged, io);
      FailBuffers(s, s.core, ErrSend, io);
      BufferedOne(s.core.out, Text(FileEnd(s.ids[s.k], cfg.sha(s.hashed))));
  }

  lemma StepBuffers(cfg: S.Config, s: S.State, inp: S.Input)
    requires S.WellFormed(cfg, s)
    ensures Buffered(S.Step(cfg, s, inp).core.out)
         <= Buffered(s.core.out) + (if s.phase.Reading? && inp.read.Data? && !inp.ctxDone then |inp.read.data| else 0)
  {
    hide S.OnMessage, S.MidSendCheck, S.OnRead, Buffered;
    FailBuffers(s, s.core, ErrContext, inp.io);
    FailBuffers(s, s.core, ErrPeerClosed, inp.io);
    if s.phase.Reading? {
      ReadBuffers(cfg, s, inp.read, inp.ctxDone, inp.io);
    } else if S.Waiting(s) || s.phase.Polling? {
      if s.pending != [] {
        MessageBuffers(cfg, s.(pending := s.pending[1..]), s.pending[0], inp.io);
      } else {
        if inp.arrival.Message? {
          MessageBuffers(cfg, s, inp.arrival.m, inp.io);
        }
        if inp.found.Some? {
          MessageBuffers(cfg, s, inp.found.value, inp.io);
        }
      }
    }
  }

  ghost predicate WireLimit(g: Sys) {
    Buffered(g.toR.wire) <= Flow.HIGH - 1 + CHUNK_SIZE
  }

  lemma PostBuffers(g: Sys, s': S.State, removed: nat)
    requires g.s.core.out <= s'.core.out && removed <= |g.toS.inbox|
    ensures Buffered(SenderMoves(g, s', removed).toR.wire)
         == Buffered(g.toR.wire) + Buffered(s'.core.out) - Buffered(g.s.core.out)
  {
    var new' := s'.core.out[|g.s.core.out|..];
    assert s'.core.out == g.s.core.out + new';
    hide Buffered;
    BufferedSplit(g.s.core.out, new');
    BufferedSplit(g.toR.wire, new');
  }

  lemma ActionKeepsWireLimit(w: World, g: Sys, a: Action)
    requires WellFormed(w, g) && Enabled(w, g, a) && WireLimit(g)
    ensures WireLimit(Apply(w, g, a))
  {
    hide R.Step, R.WellFormed, S.WellFormed, S.Step, S.Sendable, S.Start, R.Start;
    if OfSender(a) {
      var inp := SenderInput(w, g, a);
      SenderGrows(w.SC(), g.s, inp);
      StepBuffers(w.SC(), g.s, inp);
      PostBuffers(g, S.Step(w.SC(), g.s, inp), SenderRemoves(g, a));
      hide Buffered;
    } else if a.SenderBegins? {
      StartBuffers(w.SC(), g.s);
      PostBuffers(g, S.Start(w.SC(), g.s, Local(true)), 0);
      hide Buffered;
    }
  }

  lemma StartBuffers(cfg: S.Config, s: S.State)
    ensures Buffered(S.Start(cfg, s, Local(true)).core.out) == Buffered(s.core.out)
    ensures s.core.out <= S.Start(cfg, s, Local(true)).core.out
  {
    hide S.Sendable;
    BufferedOne(s.core.out, Text(Hello(VERSION)));
  }

  lemma {:induction false} RunWireLimit(w: World, run: seq<Sys>, i: nat)
    requires IsRun(w, run) && i < |run|
    ensures WireLimit(run[i])
  {
    if i > 0 {
      hide WireLimit;
      RunWireLimit(w, run, i - 1);
      assert Steps(w, run[i - 1], run[i - 1 + 1]);
      hide Enabled, Apply;
      var a :| Enabled(w, run[i - 1], a) && run[i] == Apply(w, run[i - 1], a);
      ActionKeepsWireLimit(w, run[i - 1], a);
    }
  }

  /** In every reachable state the data in the channel stays below the hard limit of 4 MiB. */
  lemma ChannelStaysBounded(w: World, g: Sys)
    requires Reachable(w, g)
    ensures Buffered(g.toR.wire) <= Flow.HIGH - 1 + CHUNK_SIZE < Flow.LIMIT
  {
    var run :| IsRun(w, run) && g == run[|run| - 1];
    assert run != [];
    hide IsRun;
    RunWireLimit(w, run, |run| - 1);
  }
}
