/**
 * Send as the program runs it: the session object with its deferred messages, the chunk loop, the wait
 * loops and the error exits. Proved to compute what the step machine of module Sender computes.
 */
module SendProgram {
  import opened Protocol
  import opened Acceptance
  import opened Session
  import S = Sender
  import SS = SenderSafety

  /** The loop that sanitizes and validates every file before the channel is touched. */
  method BuildMetas(files: seq<S.File>) returns (r: Option<seq<FileMeta>>)
    ensures r == if S.Sendable(files) then Some(S.Metas(files)) else None
    ensures r.Some? <==>
      && 1 <= |files| <= 1024
      && forall i | 0 <= i < |files| :: Sanitize(files[i].name).NameOk? && 0 <= files[i].size <= 0x1F_FFFF_FFFF_FFFF
    ensures r.Some? ==>
      && |r.value| == |files|
      && forall i | 0 <= i < |files| ::
           r.value[i].id == i && r.value[i].size == files[i].size && Sanitize(files[i].name) == NameOk(r.value[i].name)
    ensures r.Some? ==> forall i | 0 <= i < |files| && SafeName(files[i].name) :: r.value[i].name == files[i].name
  {
    hide Sanitize, SafeName;
    if |files| == 0 || |files| > MAX_FILES {
      return None;
    }
    var metas: seq<FileMeta> := [];
    for i := 0 to |files|
      invariant |metas| == i
      invariant forall j | 0 <= j < i :: Sanitize(files[j].name).NameOk? && ValidSize(files[j].size)
      invariant forall j | 0 <= j < i :: metas[j] == FileMeta(j, S.SafeWireName(files[j].name), files[j].size)
    {
      var f := files[i];
      var name := SanitizeName(f.name);
      if !name.NameOk? {
        return None;
      }
      if !ValidSize(f.size) {
        return None;
      }
      metas := metas + [FileMeta(i, name.name, f.size)];
    }
    assert metas == S.Metas(files);
    forall i | 0 <= i < |files| && SafeName(files[i].name)
      ensures metas[i].name == files[i].name
    {
      SanitizeFixes(files[i].name);
    }
    return Some(metas);
  }

  class Sending {
    const cfg: S.Config

    // The surroundings: one entry per wait, poll or read.
    var script: seq<S.Input>
    var now: S.Input

    // The session: channel output, deferred messages, the `signaled` flag, the event stream.
    var out: seq<Msg>
    var pending: seq<Msg>
    var signaled: bool
    var events: seq<Event>

    // The file being sent.
    var sent: Bytes
    var hashed: Bytes

    // The position in the protocol, for the specification.
    ghost var phase: S.Phase
    ghost var ids: seq<int>
    ghost var k: nat

    /** Where the step machine ends on the same inputs. */
    ghost const goal: S.State

    ghost function View(): S.State
      reads this
    {
      S.State(phase, Core(out, signaled, events), ids, k, sent, hashed, pending)
    }

    /** From s, the inputs still to come lead where they must. */
    ghost predicate Leads(s: S.State)
      reads this
    {
      S.WellFormed(cfg, s) && S.Run(cfg, s, script) == goal
    }

    /** The inputs ran out before Send could return. */
    ghost predicate StillRunning()
      reads this
    {
      View() == goal && !phase.Returned?
    }

    constructor (cfg: S.Config, now: S.Input, script: seq<S.Input>)
      ensures View() == S.INIT && this.cfg == cfg && this.now == now && this.script == script
      ensures Leads(S.Start(cfg, View(), now.io))
      ensures goal == S.Run(cfg, S.Start(cfg, S.INIT, now.io), script)
    {
      this.cfg, this.script, this.now := cfg, script, now;
      out, pending, signaled, events := [], [], false, [];
      sent, hashed := [], [];
      phase, ids, k := S.Idle, [], 0;
      goal := S.Run(cfg, S.Start(cfg, S.INIT, now.io), script);
    }

    // ----- session ------------------------------------------------------------------------------

    /** The next entry of the script. */
    method Tick() returns (more: bool)
      requires Leads(View()) && !phase.Returned?
      modifies this`script, this`now
      ensures !more ==> StillRunning()
      ensures more ==> Leads(S.Step(cfg, View(), now)) && |script| < |old(script)|
    {
      if script == [] {
        return false;
      }
      now := script[0];
      script := script[1..];
      return true;
    }

    /** next: a deferred message before anything that arrives. */
    method Next() returns (a: Option<Arrival>)
      requires Leads(View()) && S.Waiting(View())
      modifies this`script, this`now, this`pending
      ensures a.None? ==> StillRunning()
      ensures a.Some? && a.value.Message? ==> Leads(S.OnMessage(cfg, View(), a.value.m, now.io))
      ensures a.Some? && !a.value.Message? ==>
        Leads(S.Fail(View(), if a.value.Closed? then ErrPeerClosed else ErrContext, now.io))
      ensures a.Some? ==> |script| < |old(script)|
    {
      hide S.OnMessage, S.Fail, S.Run;
      var more := Tick();
      if !more {
        return None;
      }
      if |pending| > 0 {
        var m := pending[0];
        pending := pending[1..];
        return Some(Message(m));
      }
      return Some(now.arrival);
    }

    /** poll: a deferred or queued message, without waiting. */
    method Poll() returns (m: Option<Msg>)
      modifies this`pending
      ensures if old(pending) != [] then m == Some(old(pending)[0]) && pending == old(pending)[1..]
              else m == now.found && pending == old(pending)
    {
      if |pending| > 0 {
        m := Some(pending[0]);
        pending := pending[1..];
        return;
      }
      return now.found;
    }

    method Pushback(m: Msg)
      modifies this`pending
      ensures pending == old(pending) + [m]
    {
      pending := pending + [m];
    }

    method SendControl(c: Control) returns (ok: bool)
      modifies this`out
      ensures ok == now.io.sendOk
      ensures View().core == old(View().core).Say(c, now.io)
    {
      if !now.io.sendOk {
        return false;
      }
      out := out + [Text(c)];
      return true;
    }

    method SendLast(c: Control)
      modifies this`out, this`signaled
      ensures View().core == old(View().core).Signal(c, now.io)
    {
      var ok := SendControl(c);
      if ok {
        signaled := true;
      }
    }

    method ProtocolError() returns (f: Failure)
      modifies this`out, this`signaled
      ensures f == ErrProtocol
      ensures View().core == old(View().core).Signal(Error(CodeProtocol), now.io)
    {
      SendLast(Error(CodeProtocol));
      return ErrProtocol;
    }

    method Emit(e: Event)
      modifies this`events
      ensures events == old(events) + [e]
    {
      events := events + [e];
    }

    method Abort()
      modifies this`out
      ensures out == if signaled then old(out) else old(View().core).Say(Cancel, now.io.Last()).out
    {
      if !signaled {
        if now.io.lastOk {
          out := out + [Text(Cancel)];
        }
      }
    }

    /** fail in Send, with the deferred abort. */
    method Fail(f: Failure)
      requires Leads(S.Fail(View(), f, now.io))
      modifies this`out, this`events, this`phase
      ensures View() == goal && phase == S.Returned(Failed(f))
    {
      S.RunReturned(cfg, S.Fail(View(), f, now.io), script);
      Emit(SessionError(f));
      Abort();
      phase := S.Returned(Failed(f));
    }

    /** Decoding, cancel and error: the head of every wait, and of the check in mid-stream. */
    method Decode(m: Msg) returns (exit: Exit, c: Control)
      requires S.WellFormed(cfg, View())
      modifies this`out, this`signaled
      ensures exit.Ok? ==> m == Text(c) && View() == old(View()) && !IsTerminal(m)
      ensures exit.Stop? ==> S.Fail(View(), exit.f, now.io) == S.MidSendCheck(old(View()), m, now.io)
      ensures exit.Stop? ==> S.Fail(View(), exit.f, now.io) == S.OnMessage(cfg, old(View()), m, now.io)
      ensures !exit.Blocked?
    {
      c := Done;
      if !m.Text? {
        var f := ProtocolError();
        return Stop(f), c;
      }
      c := m.control;
      if c.Cancel? {
        signaled := true;
        return Stop(ErrPeerCancel), c;
      }
      if c.Error? {
        signaled := true;
        return Stop(ErrPeer(c.code)), c;
      }
      return Ok, c;
    }

    /** One wait for a control message that is no cancel and no error. */
    method NextControl() returns (exit: Exit, c: Control)
      requires Leads(View()) && S.Waiting(View())
      modifies this`script, this`now, this`pending, this`out, this`signaled
      ensures exit.Ok? ==> View() == old(View()).(pending := pending) && !IsTerminal(Text(c))
      ensures exit.Ok? ==> Leads(S.OnMessage(cfg, View(), Text(c), now.io)) && |script| < |old(script)|
      ensures exit.Stop? ==> Leads(S.Fail(View(), exit.f, now.io))
      ensures exit.Blocked? ==> StillRunning()
    {
      hide S.OnMessage, S.Run, S.Fail, S.MidSendCheck;
      c := Done;
      var a := Next();
      match a {
        case None => exit := Blocked;
        case Some(Closed) => exit := Stop(ErrPeerClosed);
        case Some(CtxDone) => exit := Stop(ErrContext);
        case Some(Message(m)) => exit, c := Decode(m);
      }
    }

    // ----- Send -----------------------------------------------------------------------------------

    method Handshake() returns (exit: Exit)
      requires phase.Idle? && pending == [] && ids == [] && S.Sendable(cfg.files)
      requires Leads(S.Start(cfg, View(), now.io))
      modifies this
      ensures exit.Ok? ==> phase.AwaitHello? && Leads(S.OnHello(cfg, View(), VERSION, now.io))
      ensures exit.Stop? ==> Leads(S.Fail(View(), exit.f, now.io))
      ensures exit.Blocked? ==> StillRunning()
      ensures ids == old(ids)
    {
      hide S.Run, S.Sendable, S.Metas;
      var ok := SendControl(Hello(VERSION));
      if !ok {
        return Stop(ErrSend);
      }
      phase := S.AwaitHello;
      exit := AwaitHello();
    }

    method AwaitHello() returns (exit: Exit)
      requires phase.AwaitHello? && Leads(View())
      modifies this
      ensures exit.Ok? ==> phase.AwaitHello? && Leads(S.OnHello(cfg, View(), VERSION, now.io))
      ensures exit.Stop? ==> Leads(S.Fail(View(), exit.f, now.io))
      ensures exit.Blocked? ==> StillRunning()
      ensures ids == old(ids)
    {
      hide S.Run, S.Sendable, S.Metas;
      var c;
      exit, c := NextControl();
      if !exit.Ok? {
        return;
      }
      if c.Hello? {
        if c.v != VERSION {
          SendLast(Error(CodeVersion));
          return Stop(ErrVersion);
        }
        return Ok;
      }
      var f := ProtocolError();
      return Stop(f);
    }

    /** The wait for accept or reject, and resolveAccept. */
    method WaitReply() returns (exit: Exit, accepted: seq<int>)
      requires phase.AwaitReply? && Leads(View())
      modifies this
      ensures exit.Ok? ==> phase.AwaitReply? && ids == accepted && k == 0 && S.WellFormed(cfg, View())
      ensures exit.Ok? ==> Leads(S.NextFile(cfg, View(), now.io))
      ensures exit.Stop? ==> Leads(S.Fail(View(), exit.f, now.io))
      ensures exit.Blocked? ==> StillRunning()
    {
      hide S.Run, S.NextFile, Resolve, Resolves;
      accepted := [];
      while true
        invariant phase.AwaitReply? && Leads(View())
        decreases |script|
      {
        var c;
        exit, c := NextControl();
        if !exit.Ok? {
          return;
        }
        if c.Unknown? {
          continue;
        }
        if c.Reject? {
          return Stop(ErrRejected), [];
        }
        if c.Accept? {
          exit, accepted := TakeAccept(c.ids);
          return;
        }
        var f := ProtocolError();
        return Stop(f), [];
      }
    }

    method TakeAccept(wire: seq<int>) returns (exit: Exit, accepted: seq<int>)
      requires phase.AwaitReply? && S.WellFormed(cfg, View()) && Leads(S.OnAccept(cfg, View(), wire, now.io))
      modifies this
      ensures exit.Ok? ==> phase.AwaitReply? && ids == accepted && k == 0 && S.WellFormed(cfg, View())
      ensures exit.Ok? ==> Leads(S.NextFile(cfg, View(), now.io))
      ensures exit.Stop? ==> Leads(S.Fail(View(), exit.f, now.io))
      ensures !exit.Blocked?
    {
      hide S.Run, S.NextFile, Resolve, Resolves;
      var r := ResolveAccept(wire, |cfg.files|);
      if r.None? {
        var f := ProtocolError();
        return Stop(f), [];
      }
      S.ResolvedInRange(wire, |cfg.files|);
      ids, k := r.value, 0;
      return Ok, r.value;
    }

    /** sendFile: file-start, the chunk loop, the size check, file-end, and the wait for the ack. */
    method SendFile(id: int, file: S.File) returns (exit: Exit)
      requires phase.AwaitReply? && S.WellFormed(cfg, View()) && k < |ids| && id == ids[k] && file == cfg.files[id]
      requires Leads(S.NextFile(cfg, View(), now.io))
      modifies this
      ensures exit.Ok? ==> phase.AwaitReply? && k == old(k) + 1 && S.WellFormed(cfg, View())
      ensures exit.Ok? ==> Leads(S.NextFile(cfg, View(), now.io))
      ensures exit.Stop? ==> Leads(S.Fail(View(), exit.f, now.io))
      ensures exit.Blocked? ==> StillRunning()
      ensures ids == old(ids)
    {
      hide S.Run, S.NextFile, S.OnRead, S.OnAck, S.Fail;
      exit := OpenFile(id, file);
      if !exit.Ok? {
        return;
      }
      exit := StreamFile(id, file);
      if !exit.Ok? {
        return;
      }
      exit := EndFile(id, file);
      if !exit.Ok? {
        return;
      }
      var status;
      exit, status := WaitAck(id);
      if !exit.Ok? {
        return;
      }
      exit := FinishFile(id, file, status);
    }

    method OpenFile(id: int, file: S.File) returns (exit: Exit)
      requires phase.AwaitReply? && S.WellFormed(cfg, View()) && k < |ids| && id == ids[k] && file == cfg.files[id]
      requires Leads(S.NextFile(cfg, View(), now.io))
      modifies this`out, this`events, this`sent, this`hashed, this`phase
      ensures exit.Ok? ==> phase.Polling? && Leads(View())
      ensures exit.Stop? ==> Leads(S.Fail(View(), exit.f, now.io))
      ensures !exit.Blocked?
    {
      hide S.Run;
      var ok := SendControl(FileStart(id));
      if !ok {
        return Stop(ErrSend);
      }
      Emit(FileStarted(id, file.size));
      if !now.io.fileOk {
        return Stop(ErrFile);
      }
      sent, hashed := [], [];
      phase := S.Polling;
      return Ok;
    }

    /** Read, hash and send until the end of the file, looking out for a cancel or error in between. */
    method StreamFile(id: int, file: S.File) returns (exit: Exit)
      requires phase.Polling? && Leads(View()) && id == ids[k] && file == cfg.files[id]
      modifies this
      ensures exit.Ok? ==> phase.Reading? && S.WellFormed(cfg, View())
      ensures exit.Ok? ==> Leads(S.OnRead(cfg, View(), S.Eof, now.ctxDone, now.io))
      ensures exit.Stop? ==> Leads(S.Fail(View(), exit.f, now.io))
      ensures exit.Blocked? ==> StillRunning()
      ensures ids == old(ids) && k == old(k)
    {
      hide S.Run, S.OnRead, S.Fail;
      while true
        invariant phase.Polling? && Leads(View()) && ids == old(ids) && k == old(k)
        decreases |script|
      {
        exit := PollOnce();
        if !exit.Ok? {
          return;
        }
        var more := Tick();
        if !more {
          return Blocked;
        }
        var rd := now.read;
        if rd.Eof? {
          return Ok;
        }
        exit := SendChunk(id, file, rd);
        if exit.Stop? {
          return;
        }
      }
    }

    /** The context check and the poll at the head of the chunk loop. */
    method PollOnce() returns (exit: Exit)
      requires phase.Polling? && Leads(View())
      modifies this
      ensures exit.Ok? ==> phase.Reading? && Leads(View()) && |script| < |old(script)|
      ensures exit.Stop? ==> Leads(S.Fail(View(), exit.f, now.io))
      ensures exit.Blocked? ==> StillRunning()
      ensures ids == old(ids) && k == old(k)
    {
      hide S.Run, S.Fail, S.MidSendCheck;
      var more := Tick();
      if !more {
        return Blocked;
      }
      if now.ctxDone {
        return Stop(ErrContext);
      }
      var m := Poll();
      if m.None? {
        phase := S.Reading;
        return Ok;
      }
      exit := MidSendCheck(m.value);
    }

    /** midSendCheck: cancel and error end the session, other known messages are deferred. */
    method MidSendCheck(m: Msg) returns (exit: Exit)
      requires phase.Polling? && S.WellFormed(cfg, View()) && Leads(S.MidSendCheck(View(), m, now.io))
      modifies this`out, this`signaled, this`pending, this`phase
      ensures exit.Ok? ==> phase.Reading? && Leads(View())
      ensures exit.Stop? ==> Leads(S.Fail(View(), exit.f, now.io))
      ensures !exit.Blocked?
    {
      hide S.Run, S.Fail, S.Complain;
      var c;
      exit, c := Decode(m);
      if exit.Stop? {
        return;
      }
      if !c.Unknown? {
        Pushback(m);
      }
      phase := S.Reading;
      return Ok;
    }

    /** What was read goes into the digest, then through WriteFlow. */
    method SendChunk(id: int, file: S.File, rd: S.Read) returns (exit: Exit)
      requires phase.Reading? && S.WellFormed(cfg, View()) && id == ids[k] && file == cfg.files[id] && !rd.Eof?
      requires Leads(S.OnRead(cfg, View(), rd, now.ctxDone, now.io))
      modifies this`out, this`events, this`sent, this`hashed, this`phase
      ensures exit.Ok? ==> phase.Polling? && Leads(View())
      ensures exit.Stop? ==> Leads(S.Fail(View(), exit.f, now.io))
      ensures !exit.Blocked?
    {
      hide S.Run;
      if rd.ReadError? {
        return Stop(ErrFile);
      }
      assert rd.data == [] ==> hashed + rd.data == hashed;
      hashed := hashed + rd.data;
      if |rd.data| > 0 {
        if now.ctxDone {
          return Stop(ErrContext);
        }
        if !now.io.sendOk {
          return Stop(ErrSend);
        }
        out := out + [Binary(rd.data)];
        sent := sent + rd.data;
        Emit(Progress(id, |sent|, file.size));
      }
      phase := S.Polling;
      return Ok;
    }

    method EndFile(id: int, file: S.File) returns (exit: Exit)
      requires phase.Reading? && S.WellFormed(cfg, View()) && id == ids[k] && file == cfg.files[id]
      requires Leads(S.OnRead(cfg, View(), S.Eof, now.ctxDone, now.io))
      modifies this`out, this`phase
      ensures exit.Ok? ==> phase.AwaitAck? && Leads(View())
      ensures exit.Stop? ==> Leads(S.Fail(View(), exit.f, now.io))
      ensures !exit.Blocked?
    {
      hide S.Run;
      if |sent| != file.size {
        return Stop(ErrSizeChanged);
      }
      var ok := SendControl(FileEnd(id, cfg.sha(hashed)));
      if !ok {
        return Stop(ErrSend);
      }
      phase := S.AwaitAck;
      return Ok;
    }

    method WaitAck(id: int) returns (exit: Exit, status: AckStatus)
      requires phase.AwaitAck? && Leads(View()) && id == ids[k]
      modifies this`script, this`now, this`pending, this`out, this`signaled
      ensures exit.Ok? ==> S.WellFormed(cfg, View()) && Leads(S.OnAck(cfg, View(), id, status, now.io))
      ensures exit.Stop? ==> Leads(S.Fail(View(), exit.f, now.io))
      ensures exit.Blocked? ==> StillRunning()
    {
      hide S.Run, S.NextFile, S.Fail;
      status := StatusOk;
      while true
        invariant phase.AwaitAck? && Leads(View())
        decreases |script|
      {
        var c;
        exit, c := NextControl();
        if !exit.Ok? {
          return;
        }
        if c.Unknown? {
          continue;
        }
        if c.FileAck? {
          if c.id != id {
            var f := ProtocolError();
            return Stop(f), status;
          }
          return Ok, c.status;
        }
        var f := ProtocolError();
        return Stop(f), status;
      }
    }

    method FinishFile(id: int, file: S.File, status: AckStatus) returns (exit: Exit)
      requires phase.AwaitAck? && S.WellFormed(cfg, View()) && id == ids[k] && file == cfg.files[id]
      requires Leads(S.OnAck(cfg, View(), id, status, now.io))
      modifies this
      ensures exit.Ok? ==> phase.AwaitReply? && k == old(k) + 1 && S.WellFormed(cfg, View())
      ensures exit.Ok? ==> Leads(S.NextFile(cfg, View(), now.io))
      ensures exit.Stop? ==> Leads(S.Fail(View(), exit.f, now.io))
      ensures !exit.Blocked? && ids == old(ids)
    {
      hide S.Run, S.NextFile;
      match status {
        case StatusOk =>
          Emit(FileDone(id, |sent|, file.size, true));
          phase, k := S.AwaitReply, k + 1;
          return Ok;
        case StatusHashMismatch =>
          Emit(FileDone(id, |sent|, file.size, false));
          return Stop(ErrHashMismatch);
        case StatusOther(_) =>
          var f := ProtocolError();
          return Stop(f);
      }
    }

    /** The accepted files in order, then done. */
    method SendFiles(accepted: seq<int>) returns (exit: Exit)
      requires phase.AwaitReply? && ids == accepted && k == 0 && S.WellFormed(cfg, View())
      requires Leads(S.NextFile(cfg, View(), now.io))
      modifies this
      ensures exit.Ok? ==> phase == S.Returned(Nil) && View() == goal
      ensures exit.Stop? ==> Leads(S.Fail(View(), exit.f, now.io))
      ensures exit.Blocked? ==> StillRunning()
    {
      hide S.Run, S.NextFile, S.Fail;
      for i := 0 to |accepted|
        invariant phase.AwaitReply? && ids == accepted && k == i && S.WellFormed(cfg, View())
        invariant Leads(S.NextFile(cfg, View(), now.io))
      {
        exit := SendFile(accepted[i], cfg.files[accepted[i]]);
        if !exit.Ok? {
          return;
        }
      }
      exit := SendDone();
    }

    method SendDone() returns (exit: Exit)
      requires phase.AwaitReply? && k == |ids| && S.WellFormed(cfg, View())
      requires Leads(S.NextFile(cfg, View(), now.io))
      modifies this`out, this`events, this`phase
      ensures exit.Ok? ==> phase == S.Returned(Nil) && View() == goal
      ensures exit.Stop? ==> Leads(S.Fail(View(), exit.f, now.io))
      ensures !exit.Blocked?
    {
      S.RunReturned(cfg, S.NextFile(cfg, View(), now.io), script);
      hide S.Run;
      var ok := SendControl(Done);
      if !ok {
        return Stop(ErrSend);
      }
      Emit(AllDone);
      phase := S.Returned(Nil);
      return Ok;
    }

    /** What Send does between opening the session and its result. */
    method Converse(metas: seq<FileMeta>) returns (exit: Exit)
      requires phase.Idle? && pending == [] && ids == [] && S.Sendable(cfg.files) && metas == S.Metas(cfg.files)
      requires Leads(S.Start(cfg, View(), now.io))
      modifies this
      ensures exit.Ok? ==> phase == S.Returned(Nil) && View() == goal
      ensures exit.Stop? ==> Leads(S.Fail(View(), exit.f, now.io))
      ensures exit.Blocked? ==> StillRunning()
    {
      hide S.Run, S.Sendable, S.Metas, S.NextFile, S.Fail;
      exit := Handshake();
      if !exit.Ok? {
        return;
      }
      var ok := SendControl(Manifest(metas));
      if !ok {
        return Stop(ErrSend);
      }
      phase := S.AwaitReply;
      var accepted;
      exit, accepted := WaitReply();
      if !exit.Ok? {
        return;
      }
      exit := SendFiles(accepted);
    }

    /**
     * Send. The object ends in the state the step machine reaches on the same inputs; the result is the
     * machine's outcome, or None while the program is still running.
     */
    method Send() returns (result: Option<Outcome>)
      requires View() == S.INIT && Leads(S.Start(cfg, View(), now.io))
      modifies this
      ensures View() == goal
      ensures result == if phase.Returned? then Some(phase.outcome) else None
    {
      hide S.Run, S.Sendable, S.Metas;
      var metas := BuildMetas(cfg.files);
      if metas.None? {
        S.RunReturned(cfg, S.Start(cfg, View(), now.io), script);
        Emit(SessionError(NotOpened));
        phase := S.Returned(Failed(NotOpened));
        return Some(Failed(NotOpened));
      }
      var exit := Converse(metas.value);
      match exit {
        case Ok => return Some(Nil);
        case Stop(f) =>
          Fail(f);
          return Some(Failed(f));
        case Blocked => return None;
      }
    }
  }

  function ResultOf(s: S.State): Option<Outcome> {
    if s.phase.Returned? then Some(s.phase.outcome) else None
  }

  /** A whole call of Send: the same as a run of the step machine, with everything that is proved of those. */
  method RunSend(cfg: S.Config, now: S.Input, script: seq<S.Input>)
    returns (result: Option<Outcome>, out: seq<Msg>, events: seq<Event>)
    ensures var s := SS.Send(cfg, now.io, script);
      result == ResultOf(s) && out == s.core.out && events == s.core.events
    ensures FinalIsLast(out)
    ensures result == Some(Nil) <==> events != [] && events[|events| - 1] == AllDone
  {
    var session := new Sending(cfg, now, script);
    hide S.Run, S.Start;
    result := session.Send();
    out, events := session.out, session.events;
    assert session.View() == SS.Send(cfg, now.io, script);
    hide SS.Send;
    SS.SenderTerminalSignals(cfg, now.io, script);
    SS.SenderEvents(cfg, now.io, script);
  }
}
