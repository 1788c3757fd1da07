/** The TP/1 receiver as a step machine: one step per message, close or cancellation (Receive). */
module Receiver {
  import opened Protocol
  import opened Directory
  import opened Acceptance
  import opened Session

  /** The digest function and the caller's choice of files. */
  datatype Config = Config(sha: Bytes -> string, decide: seq<FileMeta> -> Decision)

  datatype Phase = Idle | AwaitHello | AwaitManifest | AwaitStart | InBody | AwaitDone | Returned(outcome: Outcome)

  /** A verified file, the name it was stored under and the digest the sender gave for it. */
  datatype Kept = Kept(id: int, path: string, data: Bytes, sha256: string)

  datatype State = State(
    phase: Phase,
    core: Core,
    files: seq<FileMeta>,
    ids: seq<int>,
    kept: seq<Kept>,
    path: string,
    written: Bytes,
    hashed: Bytes,
    got: int,
    dir: Dir)

  function Init(dir: Dir): State {
    State(Idle, FRESH, [], [], [], "", [], [], 0, dir)
  }

  /** The receiver's table of the manifest. */
  function ById(files: seq<FileMeta>): map<int, FileMeta> {
    if files == [] then map[]
    else ById(files[..|files| - 1])[files[|files| - 1].id := files[|files| - 1]]
  }

  lemma ByIdEntries(files: seq<FileMeta>, id: int)
    requires id in ById(files)
    ensures ById(files)[id] in files && ById(files)[id].id == id
  {
    if id != files[|files| - 1].id {
      ByIdEntries(files[..|files| - 1], id);
    }
  }

  /** validateManifest: rules 1 and 2 of TP/1. */
  predicate ValidManifest(files: seq<FileMeta>) {
    && |files| <= MAX_FILES
    && (forall i | 0 <= i < |files| :: ValidSize(files[i].size) && files[i].id >= 0 && Sanitize(files[i].name).NameOk?)
    && (forall i, j | 0 <= i < j < |files| :: files[i].id != files[j].id)
  }

  /** The receiver's reaction to a manifest: a protocol error, a reject, or the sorted ids to ask for. */
  datatype Verdict = BadManifest | Rejecting(f: Failure) | Accepting(ids: seq<int>)

  function Judge(cfg: Config, files: seq<FileMeta>): Verdict {
    if !ValidManifest(files) then BadManifest
    else
      match cfg.decide(files)
      case Refused => Rejecting(ErrDecide)
      case Chosen(ids) =>
        if !ValidChoice(ids, ById(files).Keys) then Rejecting(ErrBadChoice)
        else if ids == [] then Rejecting(ErrDeclined)
        else Accepting(Sort(ids))
  }

  lemma ManifestSizes(files: seq<FileMeta>, id: int)
    requires ValidManifest(files) && id in ById(files)
    ensures Known(id, files)
  {
    ByIdEntries(files, id);
    hide ById;
    var meta := ById(files)[id];
    var i :| 0 <= i < |files| && files[i] == meta;
    assert ValidSize(files[i].size);
  }

  lemma SortedChoice(chosen: seq<int>, known: set<int>)
    requires ValidChoice(chosen, known) && chosen != []
    ensures Sort(chosen) != [] && Ascending(Sort(chosen))
    ensures forall i | 0 <= i < |Sort(chosen)| :: Sort(chosen)[i] in known
  {
    hide Sort;
    SortDistinct(chosen);
    forall i | 0 <= i < |Sort(chosen)|
      ensures Sort(chosen)[i] in known
    {
      var id := Sort(chosen)[i];
      assert id in Sort(chosen);
    }
  }

  lemma JudgedIds(cfg: Config, files: seq<FileMeta>)
    requires Judge(cfg, files).Accepting?
    ensures Judge(cfg, files).ids != [] && IdsKnown(Judge(cfg, files).ids, files)
    ensures Ascending(Judge(cfg, files).ids)
  {
    hide ValidManifest, ValidChoice, Sort, ById, Ascending;
    var chosen := cfg.decide(files).ids;
    var ids := Judge(cfg, files).ids;
    SortedChoice(chosen, ById(files).Keys);
    forall i | 0 <= i < |ids|
      ensures Known(ids[i], files)
    {
      ManifestSizes(files, ids[i]);
    }
  }

  predicate Known(id: int, files: seq<FileMeta>) {
    id in ById(files) && ById(files)[id].id == id && ById(files)[id].size >= 0
  }

  predicate IdsKnown(ids: seq<int>, files: seq<FileMeta>) {
    forall i | 0 <= i < |ids| :: Known(ids[i], files)
  }

  predicate WellFormed(r: State) {
    && ((r.phase.Idle? || r.phase.AwaitHello? || r.phase.AwaitManifest?) ==> r.ids == [] && r.kept == [])
    && IdsKnown(r.ids, r.files)
    && ((r.phase.AwaitStart? || r.phase.InBody?) ==> |r.kept| < |r.ids|)
  }

  function Meta(r: State): FileMeta
    requires WellFormed(r) && (r.phase.AwaitStart? || r.phase.InBody?)
  {
    ById(r.files)[r.ids[|r.kept|]]
  }

  // ----- Leaving the session ------------------------------------------------------------------

  /** Any exit from inside a file removes the partial file. */
  function Fail(r: State, f: Failure, io: Io): State {
    r.(phase := Returned(Failed(f)),
       core := r.core.Abort(f, io),
       dir := if r.phase.InBody? then r.dir - {r.path} else r.dir)
  }

  function Complain(r: State, io: Io): State {
    Fail(r.(core := r.core.Signal(Error(CodeProtocol), io)), ErrProtocol, io)
  }

  function RejectWith(r: State, f: Failure, io: Io): State {
    Fail(r.(core := r.core.Signal(Reject, io)), f, io)
  }

  // ----- Steps --------------------------------------------------------------------------------

  /** MkdirAll, then the session opens and hello goes out. */
  function Start(r: State, io: Io): State {
    if !io.fileOk then
      r.(phase := Returned(Failed(NotOpened)), core := r.core.Emit(SessionError(NotOpened)))
    else if !io.sendOk then Fail(r, ErrSend, io)
    else r.(phase := AwaitHello, core := r.core.Say(Hello(VERSION), io))
  }

  function OnHello(r: State, v: int, io: Io): State {
    if v == VERSION then r.(phase := AwaitManifest)
    else Fail(r.(core := r.core.Signal(Error(CodeVersion), io)), ErrVersion, io)
  }

  function OnVerdict(r: State, files: seq<FileMeta>, verdict: Verdict, io: Io): State {
    match verdict
    case BadManifest => Complain(r, io)
    case Rejecting(f) => RejectWith(r, f, io)
    case Accepting(ids) =>
      if !io.sendOk then Fail(r, ErrSend, io)
      else
        r.(phase := AwaitStart,
           core := r.core.Say(Accept(WireForm(ids, |files|)), io),
           files := files,
           ids := ids)
  }

  function OnFileStart(r: State, id: int, io: Io): (r': State)
    requires WellFormed(r) && r.phase.AwaitStart?
  {
    var meta := Meta(r);
    if id != meta.id then Complain(r, io)
    else
      var name := Sanitize(meta.name);
      if !name.NameOk? then Complain(r, io)
      else
        var dest := Dest(r.dir, name.name);
        if dest == None || !io.fileOk then Fail(r, ErrFile, io)
        else
          r.(phase := InBody,
             core := r.core.Emit(FileStarted(meta.id, meta.size)),
             path := dest.value,
             written := [], hashed := [], got := 0,
             dir := r.dir[dest.value := []])
  }

  function OnChunk(r: State, data: Bytes, io: Io): (r': State)
    requires WellFormed(r) && r.phase.InBody?
  {
    var meta := Meta(r);
    if r.got + |data| > meta.size then Complain(r, io)
    else if !io.fileOk then Fail(r, ErrFile, io)
    else
      r.(core := r.core.Emit(Progress(meta.id, r.got + |data|, meta.size)),
         written := r.written + data,
         hashed := r.hashed + data,
         got := r.got + |data|,
         dir := r.dir[r.path := r.written + data])
  }

  /** The file is verified and stays, even if the acknowledgement cannot be sent. */
  function Acknowledge(r: State, sha256: string, io: Io): (r': State)
    requires WellFormed(r) && r.phase.InBody?
  {
    var meta := Meta(r);
    var kept := r.(phase := if |r.kept| + 1 == |r.ids| then AwaitDone else AwaitStart,
                   kept := r.kept + [Kept(meta.id, r.path, r.written, sha256)]);
    if !io.sendOk then Fail(kept, ErrSend, io)
    else kept.(core := r.core.Say(FileAck(meta.id, StatusOk, r.got), io)
                             .Emit(FileDone(meta.id, r.got, meta.size, true)))
  }

  function OnFileEnd(cfg: Config, r: State, id: int, sha256: string, io: Io): (r': State)
    requires WellFormed(r) && r.phase.InBody?
  {
    var meta := Meta(r);
    if id != meta.id || r.got != meta.size then Complain(r, io)
    else if !EqualFold(cfg.sha(r.hashed), sha256) then
      Fail(r.(core := r.core.Say(FileAck(meta.id, StatusHashMismatch, r.got), io)
                            .Emit(FileDone(meta.id, r.got, meta.size, false))),
           ErrHashMismatch, io)
    else if !io.fileOk then Fail(r, ErrFile, io)
    else Acknowledge(r, sha256, io)
  }

  function OnDone(r: State): State {
    r.(phase := Returned(Nil), core := r.core.Emit(AllDone))
  }

  function OnControl(cfg: Config, r: State, c: Control, io: Io): (r': State)
    requires WellFormed(r)
  {
    match r.phase
    case AwaitHello => if c.Hello? then OnHello(r, c.v, io) else Complain(r, io)
    case AwaitManifest => if c.Manifest? then OnVerdict(r, c.files, Judge(cfg, c.files), io) else Complain(r, io)
    case AwaitStart => if c.FileStart? then OnFileStart(r, c.id, io) else Complain(r, io)
    case InBody => if c.FileEnd? then OnFileEnd(cfg, r, c.id, c.sha256, io) else Complain(r, io)
    case AwaitDone => if c.Done? then OnDone(r) else Complain(r, io)
    case _ => r
  }

  function OnMessage(cfg: Config, r: State, m: Msg, io: Io): (r': State)
    requires WellFormed(r)
  {
    match m
    case Binary(data) => if r.phase.InBody? then OnChunk(r, data, io) else Complain(r, io)
    case Malformed => Complain(r, io)
    case Text(Cancel) => Fail(r.(core := r.core.(signaled := true)), ErrPeerCancel, io)
    case Text(Error(code)) => Fail(r.(core := r.core.(signaled := true)), ErrPeer(code), io)
    case Text(Unknown(_)) => if r.phase.AwaitHello? then Complain(r, io) else r
    case Text(c) => OnControl(cfg, r, c, io)
  }

  predicate Waiting(r: State) {
    !r.phase.Idle? && !r.phase.Returned?
  }

  /** One wait of a running receiver and everything it does before the next wait. */
  function Step(cfg: Config, r: State, a: Arrival, io: Io): (r': State)
    requires WellFormed(r)
    ensures WellFormed(r')
  {
    if !Waiting(r) then r
    else
      match a
      case Closed => Fail(r, ErrPeerClosed, io)
      case CtxDone => Fail(r, ErrContext, io)
      case Message(m) =>
        StepWellFormed(cfg, r, m, io);
        OnMessage(cfg, r, m, io)
  }

  lemma StepWellFormed(cfg: Config, r: State, m: Msg, io: Io)
    requires WellFormed(r) && Waiting(r)
    ensures WellFormed(OnMessage(cfg, r, m, io))
  {
    hide Judge, IdsKnown, Sort;
    match m
    case Text(Manifest(files)) =>
      if r.phase.AwaitManifest? && Judge(cfg, files).Accepting? {
        JudgedIds(cfg, files);
      }
    case _ =>
  }

  datatype Input = Input(arrival: Arrival, io: Io)

  /** The receiver after a list of inputs. */
  function Run(cfg: Config, r: State, ins: seq<Input>): (r': State)
    requires WellFormed(r)
    ensures WellFormed(r')
    decreases |ins|
  {
    if ins == [] then r
    else Run(cfg, Step(cfg, r, ins[0].arrival, ins[0].io), ins[1..])
  }

  lemma RunReturned(cfg: Config, r: State, ins: seq<Input>)
    requires WellFormed(r) && r.phase.Returned?
    ensures Run(cfg, r, ins) == r
    decreases |ins|
  {
  }
}
