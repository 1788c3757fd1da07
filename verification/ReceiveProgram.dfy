/**
 * Receive as the program runs it: an object whose fields change step by step, loops that wait for one
 * message at a time, and error exits that unwind through the callers. Proved to compute what the step
 * machine of module Receiver computes.
 */
module ReceiveProgram {
  import opened Protocol
  import opened Directory
  import opened Acceptance
  import opened Session
  import R = Receiver
  import RS = ReceiverSafety

  /** validateManifest: one pass with a `seen` map. */
  method ValidateManifest(files: seq<FileMeta>) returns (ok: bool)
    ensures ok <==> R.ValidManifest(files)
    ensures ok <==>
      && |files| <= 1024
      && (forall i | 0 <= i < |files| ::
            0 <= files[i].size <= 0x1F_FFFF_FFFF_FFFF && files[i].id >= 0 && Sanitize(files[i].name).NameOk?)
      && forall i, j | 0 <= i < j < |files| :: files[i].id != files[j].id
  {
    hide Sanitize;
    if |files| > MAX_FILES {
      return false;
    }
    var seen: set<int> := {};
    for i := 0 to |files|
      invariant forall j | 0 <= j < i :: files[j].id in seen
      invariant forall x | x in seen :: exists j :: 0 <= j < i && files[j].id == x
      invariant forall j | 0 <= j < i ::
        ValidSize(files[j].size) && files[j].id >= 0 && Sanitize(files[j].name).NameOk?
      invariant forall j, k | 0 <= j < k < i :: files[j].id != files[k].id
    {
      var f := files[i];
      if !ValidSize(f.size) {
        return false;
      }
      if f.id < 0 || f.id in seen {
        return false;
      }
      seen := seen + {f.id};
      var name := SanitizeName(f.name);
      if !name.NameOk? {
        return false;
      }
    }
    return true;
  }

  /** The byID map, filled file by file. */
  method IndexManifest(files: seq<FileMeta>) returns (byId: map<int, FileMeta>)
    ensures byId == R.ById(files)
  {
    byId := map[];
    for i := 0 to |files|
      invariant byId == R.ById(files[..i])
    {
      assert files[..i + 1][..i] == files[..i];
      byId := byId[files[i].id := files[i]];
    }
    assert files[..|files|] == files;
  }

  class Receiving {
    const cfg: R.Config

    // The surroundings: what will arrive, and how sends and file operations go until the next wait.
    var script: seq<R.Input>
    var io: Io

    // The channel, the `signaled` flag and the event stream.
    var out: seq<Msg>
    var signaled: bool
    var events: seq<Event>

    // The destination directory and the file being received.
    var dir: Dir
    var path: string
    var written: Bytes
    var hashed: Bytes
    var got: int

    // The position in the protocol, for the specification.
    ghost var phase: R.Phase
    ghost var files: seq<FileMeta>
    ghost var ids: seq<int>
    ghost var kept: seq<R.Kept>

    /** Where the step machine ends on the same inputs. */
    ghost const goal: R.State

    /** The machine state this object is in. */
    ghost function View(): R.State
      reads this
    {
      R.State(phase, Core(out, signaled, events), files, ids, kept, path, written, hashed, got, dir)
    }

    /** From r, the inputs still to come lead where they must. */
    ghost predicate Leads(r: R.State)
      reads this
    {
      R.WellFormed(r) && R.Run(cfg, r, script) == goal
    }

    /** The inputs ran out in the middle of a wait. */
    ghost predicate StillWaiting()
      reads this
    {
      View() == goal && R.Waiting(View())
    }

    constructor (cfg: R.Config, dir: Dir, io: Io, script: seq<R.Input>)
      ensures View() == R.Init(dir) && this.cfg == cfg && this.io == io && this.script == script
      ensures Leads(R.Start(View(), io))
      ensures goal == R.Run(cfg, R.Start(R.Init(dir), io), script)
    {
      this.cfg := cfg;
      this.script, this.io := script, io;
      out, signaled, events := [], false, [];
      this.dir, path, written, hashed, got := dir, "", [], [], 0;
      phase, files, ids, kept := R.Idle, [], [], [];
      goal := R.Run(cfg, R.Start(R.Init(dir), io), script);
    }

    // ----- session ------------------------------------------------------------------------------

    /** next: the head of what arrives. */
    method Next() returns (a: Option<Arrival>)
      requires Leads(View()) && R.Waiting(View())
      modifies this`script, this`io
      ensures a.None? <==> old(script) == []
      ensures a.None? ==> StillWaiting()
      ensures a.Some? ==> Leads(R.Step(cfg, View(), a.value, io)) && |script| < |old(script)|
    {
      if script == [] {
        return None;
      }
      a := Some(script[0].arrival);
      io := script[0].io;
      script := script[1..];
    }

    method SendControl(c: Control) returns (ok: bool)
      modifies this`out
      ensures ok == io.sendOk
      ensures View().core == old(View().core).Say(c, io)
    {
      if !io.sendOk {
        return false;
      }
      out := out + [Text(c)];
      return true;
    }

    /** Best effort: a last word counts only if it could be sent. */
    method SendLast(c: Control)
      modifies this`out, this`signaled
      ensures View().core == old(View().core).Signal(c, io)
    {
      var ok := SendControl(c);
      if ok {
        signaled := true;
      }
    }

    method ProtocolError() returns (f: Failure)
      modifies this`out, this`signaled
      ensures f == ErrProtocol
      ensures View().core == old(View().core).Signal(Error(CodeProtocol), io)
    {
      SendLast(Error(CodeProtocol));
      return ErrProtocol;
    }

    method Emit(e: Event)
      modifies this`events
      ensures events == old(events) + [e]
    {
      events := events + [e];
    }

    method Abort()
      modifies this`out
      ensures out == if signaled then old(out) else old(View().core).Say(Cancel, io.Last()).out
    {
      if !signaled {
        if io.lastOk {
          out := out + [Text(Cancel)];
        }
      }
    }

    /** fail in Receive, with the deferred abort: the machine has then ended with this failure. */
    method Fail(f: Failure)
      requires Leads(R.Fail(View(), f, io)) && !phase.InBody?
      modifies this`out, this`events, this`phase
      ensures View() == goal && phase == R.Returned(Failed(f))
    {
      R.RunReturned(cfg, R.Fail(View(), f, io), script);
      Emit(SessionError(f));
      Abort();
      phase := R.Returned(Failed(f));
    }

    /** The head of every wait for a text message: decoding, cancel and error. */
    method Decode(m: Msg) returns (exit: Exit, c: Control)
      requires R.WellFormed(View()) && R.Waiting(View()) && Leads(R.OnMessage(cfg, View(), m, io))
      requires m.Binary? ==> !phase.InBody?
      modifies this`out, this`signaled
      ensures exit.Ok? ==> m == Text(c) && View() == old(View()) && !IsTerminal(m)
      ensures exit.Stop? ==> Leads(R.Fail(View(), exit.f, io))
      ensures !exit.Blocked? && View() == old(View()).(core := View().core)
    {
      c := Done;
      if !m.Text? {
        var f := ProtocolError();
        return Stop(f), c;
      }
      c := m.control;
      if c.Cancel? {
        signaled := true;
        return Stop(ErrPeerCancel), c;
      }
      if c.Error? {
        signaled := true;
        return Stop(ErrPeer(c.code)), c;
      }
      return Ok, c;
    }

    /** One wait outside a file: a control message that is no cancel and no error. */
    method NextControl() returns (exit: Exit, c: Control)
      requires Leads(View()) && R.Waiting(View()) && !phase.InBody?
      modifies this`script, this`io, this`out, this`signaled
      ensures exit.Ok? ==> View() == old(View()) && !IsTerminal(Text(c)) && |script| < |old(script)|
      ensures exit.Ok? ==> Leads(R.OnMessage(cfg, View(), Text(c), io))
      ensures exit.Stop? ==> Leads(R.Fail(View(), exit.f, io))
      ensures exit.Blocked? ==> StillWaiting()
      ensures View() == old(View()).(core := View().core)
    {
      hide R.OnMessage, R.Run, R.WellFormed;
      c := Done;
      var a := Next();
      match a {
        case None => exit := Blocked;
        case Some(Closed) => exit := Stop(ErrPeerClosed);
        case Some(CtxDone) => exit := Stop(ErrContext);
        case Some(Message(m)) => exit, c := Decode(m);
      }
    }

    // ----- Receive --------------------------------------------------------------------------------

    /** handshake: our hello goes out, then the peer's first message must be a hello. */
    method Handshake() returns (exit: Exit)
      requires phase.Idle? && R.WellFormed(View()) && io.fileOk && Leads(R.Start(View(), io))
      modifies this
      ensures exit.Ok? ==> Leads(View()) && phase.AwaitManifest?
      ensures exit.Stop? ==> Leads(R.Fail(View(), exit.f, io)) && !phase.InBody?
      ensures exit.Blocked? ==> StillWaiting()
    {
      var ok := SendControl(Hello(VERSION));
      if !ok {
        return Stop(ErrSend);
      }
      phase := R.AwaitHello;
      exit := AwaitHello();
    }

    method AwaitHello() returns (exit: Exit)
      requires Leads(View()) && phase.AwaitHello?
      modifies this
      ensures exit.Ok? ==> Leads(View()) && phase.AwaitManifest?
      ensures exit.Stop? ==> Leads(R.Fail(View(), exit.f, io)) && !phase.InBody?
      ensures exit.Blocked? ==> StillWaiting()
    {
      hide R.Run, R.WellFormed;
      var c;
      exit, c := NextControl();
      if !exit.Ok? {
        return;
      }
      if c.Hello? {
        if c.v != VERSION {
          SendLast(Error(CodeVersion));
          return Stop(ErrVersion);
        }
        phase := R.AwaitManifest;
        return Ok;
      }
      var f := ProtocolError();
      return Stop(f);
    }

    method WaitManifest() returns (exit: Exit, manifest: seq<FileMeta>)
      requires Leads(View()) && phase.AwaitManifest?
      modifies this`script, this`io, this`out, this`signaled
      ensures exit.Ok? ==> View() == old(View())
      ensures exit.Ok? ==> Leads(R.OnVerdict(View(), manifest, R.Judge(cfg, manifest), io))
      ensures exit.Stop? ==> Leads(R.Fail(View(), exit.f, io))
      ensures exit.Blocked? ==> StillWaiting()
    {
      hide R.OnVerdict, R.Judge, R.Run, R.WellFormed;
      manifest := [];
      while true
        invariant Leads(View()) && View() == old(View())
        decreases |script|
      {
        var c;
        exit, c := NextControl();
        if !exit.Ok? {
          return;
        }
        if c.Unknown? {
          continue;
        }
        if c.Manifest? {
          return Ok, c.files;
        }
        var f := ProtocolError();
        return Stop(f), [];
      }
    }

    /** The caller's choice, checked; every way of choosing nothing is told to the sender. */
    method Choose(manifest: seq<FileMeta>, known: set<int>) returns (exit: Exit, chosen: seq<int>)
      requires R.WellFormed(View()) && phase.AwaitManifest? && R.ValidManifest(manifest)
      requires known == R.ById(manifest).Keys
      requires Leads(R.OnVerdict(View(), manifest, R.Judge(cfg, manifest), io))
      modifies this`out, this`signaled
      ensures exit.Ok? ==> View() == old(View()) && R.Judge(cfg, manifest) == R.Accepting(chosen)
      ensures exit.Stop? ==> Leads(R.Fail(View(), exit.f, io))
      ensures !exit.Blocked?
      ensures exit == match cfg.decide(manifest)
        case Refused => Stop(ErrDecide)
        case Chosen(ids) =>
          if !ValidChoice(ids, R.ById(manifest).Keys) then Stop(ErrBadChoice)
          else if ids == [] then Stop(ErrDeclined)
          else Ok
      ensures exit.Ok? ==> Ascending(chosen) && forall id :: id in chosen <==> id in cfg.decide(manifest).ids
    {
      hide R.ValidManifest, R.Run, R.ById, Sort, R.WellFormed, Ascending;
      chosen := [];
      var decision := cfg.decide(manifest);
      if decision.Refused? {
        SendLast(Reject);
        return Stop(ErrDecide), [];
      }
      var ok := CheckChoice(decision.ids, known);
      if !ok {
        SendLast(Reject);
        return Stop(ErrBadChoice), [];
      }
      chosen := Sort(decision.ids);
      SortDistinct(decision.ids);
      if |chosen| == 0 {
        SendLast(Reject);
        return Stop(ErrDeclined), [];
      }
      return Ok, chosen;
    }

    /** Everything between the manifest and the accept: validation, the choice, the reject cases. */
    method Decide(manifest: seq<FileMeta>) returns (exit: Exit, chosen: seq<int>, byId: map<int, FileMeta>)
      requires R.WellFormed(View()) && phase.AwaitManifest?
      requires Leads(R.OnVerdict(View(), manifest, R.Judge(cfg, manifest), io))
      modifies this
      ensures exit.Ok? ==> Leads(View()) && phase.AwaitStart? && kept == []
      ensures exit.Ok? ==> ids == chosen && files == manifest && byId == R.ById(manifest)
      ensures exit.Stop? ==> Leads(R.Fail(View(), exit.f, io)) && !phase.InBody?
      ensures !exit.Blocked?
      ensures exit == Stop(ErrProtocol) <==> !R.ValidManifest(manifest)
      ensures R.ValidManifest(manifest) ==>
        match cfg.decide(manifest)
        case Refused => exit == Stop(ErrDecide)
        case Chosen(ids) =>
          if !ValidChoice(ids, R.ById(manifest).Keys) then exit == Stop(ErrBadChoice)
          else if ids == [] then exit == Stop(ErrDeclined)
          else exit == if io.sendOk then Ok else Stop(ErrSend)
      ensures exit.Ok? ==> Ascending(chosen) && forall id :: id in chosen <==> id in cfg.decide(manifest).ids
    {
      hide R.ValidManifest, R.Run, R.IdsKnown, R.Judge, R.OnVerdict, R.Fail, R.ById, R.WellFormed, Sanitize, ValidSize,
           ValidChoice, Ascending;
      chosen, byId := [], map[];
      var ok := ValidateManifest(manifest);
      if !ok {
        exit := RefuseManifest(manifest);
        return exit, [], byId;
      }
      byId := IndexManifest(manifest);
      hide R.ById;
      exit, chosen := Choose(manifest, byId.Keys);
      if !exit.Ok? {
        return;
      }
      exit := AcceptChoice(manifest, chosen);
      return exit, chosen, byId;
    }

    /** A manifest that breaks the rules is answered with a protocol error. */
    method RefuseManifest(manifest: seq<FileMeta>) returns (exit: Exit)
      requires R.WellFormed(View()) && phase.AwaitManifest? && !R.ValidManifest(manifest)
      requires Leads(R.OnVerdict(View(), manifest, R.Judge(cfg, manifest), io))
      modifies this`out, this`signaled
      ensures exit == Stop(ErrProtocol) && Leads(R.Fail(View(), exit.f, io))
    {
      hide R.ValidManifest, R.Run, R.ById, R.IdsKnown;
      var f := ProtocolError();
      return Stop(f);
    }

    /** The accept, for the sorted choice. */
    method AcceptChoice(manifest: seq<FileMeta>, chosen: seq<int>) returns (exit: Exit)
      requires R.WellFormed(View()) && phase.AwaitManifest? && R.Judge(cfg, manifest) == R.Accepting(chosen)
      requires Leads(R.OnVerdict(View(), manifest, R.Judge(cfg, manifest), io))
      modifies this
      ensures exit == if io.sendOk then Ok else Stop(ErrSend)
      ensures exit.Ok? ==> Leads(View()) && phase.AwaitStart? && kept == [] && ids == chosen && files == manifest
      ensures exit.Stop? ==> Leads(R.Fail(View(), exit.f, io)) && !phase.InBody?
      ensures !exit.Blocked?
    {
      hide R.Judge, R.Run, R.ById, R.IdsKnown;
      var ok := SendControl(Accept(WireForm(chosen, |manifest|)));
      if !ok {
        return Stop(ErrSend);
      }
      phase, files, ids := R.AwaitStart, manifest, chosen;
      return Ok;
    }

    /** The wait for the file-start of one file. */
    method WaitStart(meta: FileMeta) returns (exit: Exit)
      requires Leads(View()) && phase.AwaitStart? && R.Meta(View()) == meta
      modifies this`script, this`io, this`out, this`signaled
      ensures exit.Ok? ==> View() == old(View()) && Leads(R.OnFileStart(View(), meta.id, io))
      ensures exit.Stop? ==> Leads(R.Fail(View(), exit.f, io))
      ensures exit.Blocked? ==> StillWaiting()
    {
      hide R.Run, R.WellFormed, R.OnFileStart, R.Meta, R.Step, R.Fail;
      while true
        invariant Leads(View()) && View() == old(View())
        decreases |script|
      {
        var c;
        exit, c := NextControl();
        if !exit.Ok? {
          return;
        }
        if c.Unknown? {
          continue;
        }
        if c.FileStart? {
          if c.id != meta.id {
            WrongStart(View(), c.id, io);
            var f := ProtocolError();
            return Stop(f);
          }
          return Ok;
        }
        var f := ProtocolError();
        return Stop(f);
      }
    }

    /** receiveFile: wait for the start, create the file, take its chunks; undo the file unless verified. */
    method ReceiveFile(meta: FileMeta) returns (exit: Exit)
      requires Leads(View()) && phase.AwaitStart? && R.Meta(View()) == meta
      modifies this
      ensures exit.Ok? ==> Leads(View()) && |kept| == |old(kept)| + 1 && ids == old(ids) && files == old(files)
      ensures exit.Ok? ==> phase == if |kept| == |ids| then R.AwaitDone else R.AwaitStart
      ensures exit.Stop? ==> Leads(R.Fail(View(), exit.f, io)) && !phase.InBody?
      ensures exit.Blocked? ==> StillWaiting()
    {
      hide R.Run, R.WellFormed, R.OnFileStart, R.Fail, R.Meta;
      exit := WaitStart(meta);
      if !exit.Ok? {
        return;
      }
      exit := CreateFile(meta);
      if !exit.Ok? {
        return;
      }
      var verified;
      exit, verified := ReceiveBody(meta);
      if exit.Stop? && !verified {
        RemovePartial(exit.f);
      }
    }

    /** createDest and the start event. */
    method CreateFile(meta: FileMeta) returns (exit: Exit)
      requires R.WellFormed(View()) && phase.AwaitStart? && R.Meta(View()) == meta
      requires Leads(R.OnFileStart(View(), meta.id, io))
      modifies this
      ensures exit.Ok? ==> Leads(View()) && phase.InBody? && R.Meta(View()) == meta
      ensures exit.Stop? ==> Leads(R.Fail(View(), exit.f, io)) && !phase.InBody?
      ensures !exit.Blocked? && ids == old(ids) && files == old(files) && kept == old(kept)
    {
      hide R.Run, R.WellFormed, R.Fail, R.ById, R.Step, R.IdsKnown, Sanitize, Dest, IsDest;
      var name := SanitizeName(meta.name);
      if !name.NameOk? {
        var f := ProtocolError();
        return Stop(f);
      }
      var dest := CreateDest(dir, name.name);
      if dest == None || !io.fileOk {
        return Stop(ErrFile);
      }
      OpenFile(meta, dest.value);
      return Ok;
    }

    method OpenFile(meta: FileMeta, dest: string)
      modifies this`path, this`dir, this`written, this`hashed, this`got, this`events, this`phase
      ensures View() == old(View()).(
        phase := R.InBody,
        core := old(View()).core.Emit(FileStarted(meta.id, meta.size)),
        path := dest, written := [], hashed := [], got := 0,
        dir := old(dir)[dest := []])
    {
      path := dest;
      dir := dir[path := []];
      written, hashed, got := [], [], 0;
      Emit(FileStarted(meta.id, meta.size));
      phase := R.InBody;
    }

    /** The deferred clean-up of an unverified file. */
    method RemovePartial(ghost f: Failure)
      requires phase.InBody? && Leads(R.Fail(View(), f, io))
      modifies this`dir, this`phase
      ensures Leads(R.Fail(View(), f, io)) && !phase.InBody?
    {
      hide R.Run, R.WellFormed;
      dir := dir - {path};
      phase := R.AwaitStart;
    }

    method TakeChunk(meta: FileMeta, data: Bytes) returns (exit: Exit)
      requires R.WellFormed(View()) && phase.InBody? && R.Meta(View()) == meta
      requires Leads(R.OnChunk(View(), data, io))
      modifies this
      ensures exit.Ok? ==> Leads(View()) && script == old(script)
      ensures exit.Stop? ==> Leads(R.Fail(View(), exit.f, io))
      ensures !exit.Blocked? && phase.InBody? && ids == old(ids) && files == old(files) && kept == old(kept)
    {
      hide R.Run, R.WellFormed, R.ById, R.Fail;
      if got + |data| > meta.size {
        var f := ProtocolError();
        return Stop(f);
      }
      if !io.fileOk {
        return Stop(ErrFile);
      }
      written, hashed := written + data, hashed + data;
      dir := dir[path := written];
      got := got + |data|;
      Emit(Progress(meta.id, got, meta.size));
      return Ok;
    }

    /** The loop over chunks up to file-end, with the digest check and the acknowledgement. */
    method ReceiveBody(meta: FileMeta) returns (exit: Exit, verified: bool)
      requires Leads(View()) && phase.InBody? && R.Meta(View()) == meta
      modifies this
      ensures exit.Ok? ==> Leads(View()) && |kept| == |old(kept)| + 1
      ensures exit.Ok? ==> phase == if |kept| == |ids| then R.AwaitDone else R.AwaitStart
      ensures exit.Stop? ==> Leads(R.Fail(View(), exit.f, io)) && (verified <==> !phase.InBody?)
      ensures exit.Blocked? ==> StillWaiting()
      ensures ids == old(ids) && files == old(files)
    {
      hide R.Run, R.WellFormed, R.OnFileEnd, R.OnChunk, R.Fail;
      verified := false;
      while true
        invariant Leads(View()) && phase.InBody? && R.Meta(View()) == meta
        invariant ids == old(ids) && files == old(files) && kept == old(kept)
        decreases |script|
      {
        var a := Next();
        if a.None? {
          return Blocked, false;
        }
        if a.value.Closed? {
          return Stop(ErrPeerClosed), false;
        }
        if a.value.CtxDone? {
          return Stop(ErrContext), false;
        }
        var m := a.value.m;
        if m.Binary? {
          exit := TakeChunk(meta, m.data);
          if exit.Stop? {
            return exit, false;
          }
          continue;
        }
        var c;
        exit, c := Decode(m);
        if exit.Stop? {
          return exit, false;
        }
        if c.Unknown? {
          continue;
        }
        if c.FileEnd? {
          exit, verified := FinishFile(meta, c.id, c.sha256);
          return;
        }
        var f := ProtocolError();
        return Stop(f), false;
      }
    }

    /** What a file-end does. */
    method FinishFile(meta: FileMeta, id: int, sha256: string) returns (exit: Exit, verified: bool)
      requires R.WellFormed(View()) && phase.InBody? && R.Meta(View()) == meta
      requires Leads(R.OnFileEnd(cfg, View(), id, sha256, io))
      modifies this`out, this`signaled, this`events, this`kept, this`phase
      ensures exit.Ok? ==> Leads(View()) && |kept| == |old(kept)| + 1
      ensures exit.Ok? ==> phase == if |kept| == |ids| then R.AwaitDone else R.AwaitStart
      ensures exit.Stop? ==> Leads(R.Fail(View(), exit.f, io)) && (verified <==> !phase.InBody?)
      ensures !exit.Blocked?
    {
      hide R.Run, R.WellFormed, EqualFold, R.ById, R.Fail;
      verified := false;
      if id != meta.id {
        var f := ProtocolError();
        return Stop(f), false;
      }
      if got != meta.size {
        var f := ProtocolError();
        return Stop(f), false;
      }
      var sum := cfg.sha(hashed);
      if !EqualFold(sum, sha256) {
        var _ := SendControl(FileAck(meta.id, StatusHashMismatch, got));
        Emit(FileDone(meta.id, got, meta.size, false));
        return Stop(ErrHashMismatch), false;
      }
      if !io.fileOk {
        return Stop(ErrFile), false;
      }
      verified := true;
      phase := if |kept| + 1 == |ids| then R.AwaitDone else R.AwaitStart;
      kept := kept + [R.Kept(meta.id, path, written, sha256)];
      var ok := SendControl(FileAck(meta.id, StatusOk, got));
      if !ok {
        return Stop(ErrSend), true;
      }
      Emit(FileDone(meta.id, got, meta.size, true));
      return Ok, true;
    }

    method WaitDone() returns (exit: Exit)
      requires Leads(View()) && phase.AwaitDone?
      modifies this`script, this`io, this`out, this`signaled
      ensures exit.Ok? ==> View() == old(View()) && Leads(R.OnDone(View()))
      ensures exit.Stop? ==> Leads(R.Fail(View(), exit.f, io))
      ensures exit.Blocked? ==> StillWaiting()
    {
      hide R.Run, R.WellFormed;
      while true
        invariant Leads(View()) && View() == old(View())
        decreases |script|
      {
        var c;
        exit, c := NextControl();
        if !exit.Ok? {
          return;
        }
        if c.Unknown? {
          continue;
        }
        if c.Done? {
          return Ok;
        }
        var f := ProtocolError();
        return Stop(f);
      }
    }

    /** The files in ascending id order, each received before the next one may start. */
    method ReceiveFiles(chosen: seq<int>, byId: map<int, FileMeta>) returns (exit: Exit)
      requires Leads(View()) && phase.AwaitStart? && kept == [] && ids == chosen && byId == R.ById(files)
      modifies this
      ensures exit.Ok? ==> Leads(View()) && phase.AwaitDone?
      ensures exit.Stop? ==> Leads(R.Fail(View(), exit.f, io)) && !phase.InBody?
      ensures exit.Blocked? ==> StillWaiting()
    {
      hide R.Run;
      for i := 0 to |chosen|
        invariant Leads(View()) && ids == chosen && byId == R.ById(files) && |kept| == i
        invariant phase == if i == |ids| then R.AwaitDone else R.AwaitStart
      {
        exit := ReceiveFile(byId[chosen[i]]);
        if !exit.Ok? {
          return;
        }
      }
      return Ok;
    }

    /**
     * Receive. The object ends in the state the step machine reaches on the same inputs; the result is
     * the machine's outcome, or None while the program is still waiting.
     */
    method Receive() returns (result: Option<Outcome>)
      requires phase.Idle? && R.WellFormed(View()) && Leads(R.Start(View(), io))
      modifies this
      ensures View() == goal
      ensures result == if phase.Returned? then Some(phase.outcome) else None
    {
      hide R.Run, R.WellFormed;
      if !io.fileOk {
        R.RunReturned(cfg, R.Start(View(), io), script);
        Emit(SessionError(NotOpened));
        phase := R.Returned(Failed(NotOpened));
        return Some(Failed(NotOpened));
      }
      var exit := Converse();
      match exit {
        case Ok =>
          R.RunReturned(cfg, R.OnDone(View()), script);
          Emit(AllDone);
          phase := R.Returned(Nil);
          return Some(Nil);
        case Stop(f) =>
          Fail(f);
          return Some(Failed(f));
        case Blocked => return None;
      }
    }

    /** What Receive does between opening the session and its result. */
    method Converse() returns (exit: Exit)
      requires phase.Idle? && R.WellFormed(View()) && io.fileOk && Leads(R.Start(View(), io))
      modifies this
      ensures exit.Ok? ==> phase.AwaitDone? && Leads(R.OnDone(View()))
      ensures exit.Stop? ==> Leads(R.Fail(View(), exit.f, io)) && !phase.InBody?
      ensures exit.Blocked? ==> StillWaiting()
    {
      hide R.Run, R.OnVerdict, R.Judge, R.ById, R.OnDone, R.Meta, R.WellFormed;
      exit := Handshake();
      if !exit.Ok? {
        return;
      }
      var manifest;
      exit, manifest := WaitManifest();
      if !exit.Ok? {
        return;
      }
      var chosen, byId;
      exit, chosen, byId := Decide(manifest);
      if !exit.Ok? {
        return;
      }
      exit := ReceiveFiles(chosen, byId);
      if !exit.Ok? {
        return;
      }
      exit := WaitDone();
    }
  }

  lemma WrongStart(r: R.State, id: int, io: Io)
    requires R.WellFormed(r) && r.phase.AwaitStart?
    ensures id != R.Meta(r).id ==> R.OnFileStart(r, id, io) == R.Complain(r, io)
  {
    hide R.ById, Dest, Sanitize;
  }

  /** What the result of a step machine run is to its caller. */
  function ResultOf(r: R.State): Option<Outcome> {
    if r.phase.Returned? then Some(r.phase.outcome) else None
  }

  /** A whole call of Receive: the same as a run of the step machine, with everything that is proved of those. */
  method RunReceive(cfg: R.Config, dir0: Dir, io0: Io, script: seq<R.Input>)
    returns (result: Option<Outcome>, dir: Dir, out: seq<Msg>, events: seq<Event>)
    ensures var r := RS.Receive(cfg, dir0, io0, script);
      result == ResultOf(r) && dir == r.dir && out == r.core.out && events == r.core.events
    ensures result.Some? ==> forall p | p in dir0 :: p in dir && dir[p] == dir0[p]
    ensures FinalIsLast(out)
    ensures result == Some(Nil) <==> events != [] && events[|events| - 1] == AllDone
  {
    var session := new Receiving(cfg, dir0, io0, script);
    hide R.Run, R.Start;
    result := session.Receive();
    dir, out, events := session.dir, session.out, session.events;
    assert session.View() == RS.Receive(cfg, dir0, io0, script);
    RS.ReceiverTerminalSignals(cfg, dir0, io0, script, R.Input(CtxDone, io0));
    RS.ReceiverEvents(cfg, dir0, io0, script);
    hide RS.Receive;
    if result.Some? {
      RS.DirectoryOnExit(cfg, dir0, io0, script);
    }
  }
}
