/**
 * The documented event contract, one start and one done per accepted file, against the events there are:
 * exactly which inputs meet it.
 */
module EventReports {
  import opened Protocol
  import opened Directory
  import opened Acceptance
  import opened Session
  import R = Receiver
  import RS = ReceiverSafety
  import S = Sender
  import SS = SenderSafety

  // ----- What a stream reports --------------------------------------------------------------------

  function StartedIds(events: seq<Event>): seq<int> {
    if events == [] then []
    else
      var last := events[|events| - 1];
      StartedIds(events[..|events| - 1]) + (if last.FileStarted? then [last.id] else [])
  }

  /** Files reported as done, with or without an error. */
  function DoneIds(events: seq<Event>): seq<int> {
    if events == [] then []
    else
      var last := events[|events| - 1];
      DoneIds(events[..|events| - 1]) + (if last.FileDone? then [last.id] else [])
  }

  lemma Append(events: seq<Event>, e: Event)
    ensures StartedIds(events + [e]) == StartedIds(events) + (if e.FileStarted? then [e.id] else [])
    ensures DoneIds(events + [e]) == DoneIds(events) + (if e.FileDone? then [e.id] else [])
  {
    assert (events + [e])[..|events|] == events;
  }

  function Ids(items: seq<Item>): (ids: seq<int>)
    ensures |ids| == |items|
  {
    seq(|items|, i requires 0 <= i < |items| => items[i].id)
  }

  /** The contract as documented: per accepted file exactly one start and exactly one done. */
  ghost predicate Documented(items: seq<Item>, events: seq<Event>) {
    forall i | 0 <= i < |items| ::
      multiset(StartedIds(events))[items[i].id] == 1 && multiset(DoneIds(events))[items[i].id] == 1
  }

  /** How many starts and dones a stream in this position has. */
  ghost predicate Counted(items: seq<Item>, p: Position, started: seq<int>, done: seq<int>) {
    var ids := Ids(items);
    match p
    case Between(k) => k <= |ids| && started == done == ids[..k]
    case Inside(k, _) => k < |ids| && started == ids[..k + 1] && done == ids[..k]
    case BadDigest(k) => k < |ids| && started == done == ids[..k + 1]
    case Finished => started == done == ids
    case Broken => started <= ids && done <= started
    case Violated => true
  }

  lemma {:induction false} CountsOf(items: seq<Item>, bounded: bool, events: seq<Event>)
    ensures Counted(items, Scan(items, bounded, events), StartedIds(events), DoneIds(events))
  {
    hide Follow, Counted;
    if events == [] {
      NothingCounted(items);
    }
    if events != [] {
      var front, last := events[..|events| - 1], events[|events| - 1];
      CountsOf(items, bounded, front);
      FollowCounts(items, bounded, Scan(items, bounded, front), last, StartedIds(front), DoneIds(front));
    }
  }

  lemma NothingCounted(items: seq<Item>)
    ensures Counted(items, Between(0), [], [])
  {
  }

  lemma FollowCounts(items: seq<Item>, bounded: bool, p: Position, e: Event, started: seq<int>, done: seq<int>)
    requires Counted(items, p, started, done)
    ensures Counted(items, Follow(items, bounded, p, e),
      started + (if e.FileStarted? then [e.id] else []), done + (if e.FileDone? then [e.id] else []))
  {
    var ids := Ids(items);
    assert started + [] == started && done + [] == done;
    assert ids[..|ids|] == ids;
    if (p.Between? || p.Inside?) && p.next < |ids| {
      assert ids[..p.next] + [ids[p.next]] == ids[..p.next + 1];
    }
  }

  lemma {:induction false} CountOfPrefix(ids: seq<int>, part: seq<int>, i: nat)
    requires Distinct(ids) && part <= ids && i < |ids|
    ensures multiset(part)[ids[i]] == if i < |part| then 1 else 0
  {
    if part != [] {
      var front, last := part[..|part| - 1], part[|part| - 1];
      CountOfPrefix(ids, front, i);
      assert part == front + [last] && last == ids[|part| - 1];
    }
  }

  /** A stream the code can produce meets the documented contract exactly when every file is reported done. */
  lemma DocumentedIff(items: seq<Item>, bounded: bool, events: seq<Event>)
    requires Distinct(Ids(items)) && Scan(items, bounded, events) != Violated
    ensures Documented(items, events) <==> |DoneIds(events)| == |items|
  {
    CountsOf(items, bounded, events);
    var ids := Ids(items);
    hide Scan, StartedIds, DoneIds;
    var started, done := StartedIds(events), DoneIds(events);
    assert done <= started <= ids;
    assert forall i | 0 <= i < |items| :: ids[i] == items[i].id;
    hide Ids, Counted;
    if |done| == |items| {
      assert started == ids;
      forall i | 0 <= i < |items|
        ensures multiset(started)[items[i].id] == 1 && multiset(done)[items[i].id] == 1
      {
        CountOfPrefix(ids, started, i);
        CountOfPrefix(ids, done, i);
      }
    } else {
      var k := |done|;
      CountOfPrefix(ids, done, k);
      assert multiset(DoneIds(events))[items[k].id] == 0;
    }
  }

  // ----- The receiver -----------------------------------------------------------------------------

  /** The file-end of the file being received, with a digest that differs or an ack that goes out. */
  predicate EndsFile(cfg: R.Config, r: R.State, inp: R.Input)
    requires R.WellFormed(r)
  {
    && r.phase.InBody? && inp.arrival.Message? && inp.arrival.m.Text? && inp.arrival.m.control.FileEnd?
    && inp.arrival.m.control.id == R.Meta(r).id && r.got == R.Meta(r).size
    && (EqualFold(cfg.sha(r.hashed), inp.arrival.m.control.sha256) ==> inp.io.fileOk && inp.io.sendOk)
  }

  predicate EndsLastFile(cfg: R.Config, r: R.State, inp: R.Input)
    requires R.WellFormed(r)
  {
    EndsFile(cfg, r, inp) && |r.kept| + 1 == |r.ids|
  }

  lemma ReceiverFailReports(r: R.State, core: Core, f: Failure, io: Io)
    ensures DoneIds(R.Fail(r.(core := core), f, io).core.events) == DoneIds(core.events)
  {
    Append(core.events, SessionError(f));
  }

  lemma FileEndReports(cfg: R.Config, r: R.State, id: int, sha256: string, io: Io)
    requires R.WellFormed(r) && r.phase.InBody?
    ensures var ends := EndsFile(cfg, r, R.Input(Message(Text(FileEnd(id, sha256))), io));
      |DoneIds(R.OnFileEnd(cfg, r, id, sha256, io).core.events)| == |DoneIds(r.core.events)| + (if ends then 1 else 0)
  {
    hide R.ById, EqualFold, DoneIds, R.Fail;
    var meta := R.Meta(r);
    var size := |r.kept| + 1;
    var kept := r.(phase := if size == |r.ids| then R.AwaitDone else R.AwaitStart,
                   kept := r.kept + [R.Kept(meta.id, r.path, r.written, sha256)]);
    var bad := r.core.Say(FileAck(meta.id, StatusHashMismatch, r.got), io);
    ReceiverFailReports(r, r.core.Signal(Error(CodeProtocol), io), ErrProtocol, io);
    ReceiverFailReports(r, r.core, ErrFile, io);
    ReceiverFailReports(r, bad.Emit(FileDone(meta.id, r.got, meta.size, false)), ErrHashMismatch, io);
    ReceiverFailReports(kept, kept.core, ErrSend, io);
    Append(r.core.events, FileDone(meta.id, r.got, meta.size, false));
    Append(r.core.events, FileDone(meta.id, r.got, meta.size, true));
  }

  lemma ControlReports(cfg: R.Config, r: R.State, c: Control, io: Io, r': R.State)
    requires R.WellFormed(r) && R.Waiting(r) && r' == R.OnControl(cfg, r, c, io)
    requires !(r.phase.InBody? && c.FileEnd?)
    ensures DoneIds(r'.core.events) == DoneIds(r.core.events)
    ensures r'.ids == r.ids || (r.phase.AwaitManifest? && r'.phase.AwaitStart?)
  {
    hide R.Judge, R.ById, Sanitize, Dest, DoneIds, R.Fail, R.IdsKnown, R.OnVerdict;
    ReceiverFailReports(r, r.core.Signal(Error(CodeProtocol), io), ErrProtocol, io);
    ReceiverFailReports(r, r.core.Signal(Error(CodeVersion), io), ErrVersion, io);
    if r.phase.AwaitManifest? && c.Manifest? {
      VerdictReports(r, c.files, R.Judge(cfg, c.files), io);
    } else if r.phase.AwaitStart? && c.FileStart? {
      ReceiverFailReports(r, r.core, ErrFile, io);
      Append(r.core.events, FileStarted(R.Meta(r).id, R.Meta(r).size));
      FailKeepsIds(io);
    } else {
      Append(r.core.events, AllDone);
      FailKeepsIds(io);
    }
  }

  lemma FailKeepsIds(io: Io)
    ensures forall r: R.State, f: Failure :: R.Fail(r, f, io).ids == r.ids
  {
  }

  lemma VerdictReports(r: R.State, files: seq<FileMeta>, verdict: R.Verdict, io: Io)
    ensures var r' := R.OnVerdict(r, files, verdict, io);
      DoneIds(r'.core.events) == DoneIds(r.core.events) && (r'.ids == r.ids || r'.phase.AwaitStart?)
  {
    hide DoneIds;
    match verdict
    case BadManifest => ReceiverFailReports(r, r.core.Signal(Error(CodeProtocol), io), ErrProtocol, io);
    case Rejecting(f) => ReceiverFailReports(r, r.core.Signal(Reject, io), f, io);
    case Accepting(ids) => ReceiverFailReports(r, r.core, ErrSend, io);
  }

  /** One step reports one file as done, or none. */
  lemma StepReports(cfg: R.Config, r: R.State, inp: R.Input, r': R.State)
    requires R.WellFormed(r) && r' == R.Step(cfg, r, inp.arrival, inp.io)
    ensures |DoneIds(r'.core.events)| == |DoneIds(r.core.events)| + (if EndsFile(cfg, r, inp) then 1 else 0)
    ensures r'.ids == r.ids || (r.phase.AwaitManifest? && r'.phase.AwaitStart?)
  {
    hide R.OnControl, R.OnFileEnd, R.OnChunk, DoneIds, R.Meta, R.IdsKnown, EqualFold;
    var io := inp.io;
    if R.Waiting(r) {
      FailKeepsIds(io);
      match inp.arrival
      case Closed => ReceiverFailReports(r, r.core, ErrPeerClosed, io);
      case CtxDone => ReceiverFailReports(r, r.core, ErrContext, io);
      case Message(m) =>
        if m.Text? && !IsTerminal(m) && !IsUnknown(m) {
          if r.phase.InBody? && m.control.FileEnd? {
            FileEndReports(cfg, r, m.control.id, m.control.sha256, io);
            FileEndKeepsIds(cfg, r, m.control.id, m.control.sha256, io);
          } else {
            ControlReports(cfg, r, m.control, io, r');
          }
        } else {
          OtherReports(cfg, r, m, io, r');
        }
    }
  }

  lemma FileEndKeepsIds(cfg: R.Config, r: R.State, id: int, sha256: string, io: Io)
    requires R.WellFormed(r) && r.phase.InBody?
    ensures R.OnFileEnd(cfg, r, id, sha256, io).ids == r.ids
    ensures R.OnControl(cfg, r, FileEnd(id, sha256), io) == R.OnFileEnd(cfg, r, id, sha256, io)
  {
    hide R.ById, EqualFold;
  }

  lemma OtherReports(cfg: R.Config, r: R.State, m: Msg, io: Io, r': R.State)
    requires R.WellFormed(r) && R.Waiting(r) && r' == R.OnMessage(cfg, r, m, io)
    requires !m.Text? || IsTerminal(m) || IsUnknown(m)
    ensures DoneIds(r'.core.events) == DoneIds(r.core.events) && r'.ids == r.ids
  {
    hide DoneIds, R.ById, R.IdsKnown, R.OnControl;
    var seen := r.core.(signaled := true);
    ReceiverFailReports(r, r.core.Signal(Error(CodeProtocol), io), ErrProtocol, io);
    ReceiverFailReports(r, r.core, ErrFile, io);
    if m.Binary? {
      if r.phase.InBody? {
        Append(r.core.events, Progress(R.Meta(r).id, r.got + |m.data|, R.Meta(r).size));
      }
    } else if m.Text? {
      ReceiverFailReports(r, seen, if m.control.Error? then ErrPeer(m.control.code) else ErrPeerCancel, io);
    }
  }

  ghost predicate AllReported(r: R.State) {
    r.ids != [] && |DoneIds(r.core.events)| == |r.ids|
  }

  lemma StepAllReported(cfg: R.Config, r: R.State, inp: R.Input, r': R.State)
    requires R.WellFormed(r) && RS.EventsOk(r) && r' == R.Step(cfg, r, inp.arrival, inp.io)
    requires R.WellFormed(r') && RS.EventsOk(r')
    ensures AllReported(r') <==> AllReported(r) || EndsLastFile(cfg, r, inp)
  {
    StepReports(cfg, r, inp, r');
    hide R.Step, EndsFile;
    CountsOf(RS.Items(r.ids, r.files), true, r.core.events);
    CountsOf(RS.Items(r'.ids, r'.files), true, r'.core.events);
    InBodyOnly(cfg, r, inp);
    hide DoneIds, StartedIds, Scan;
  }

  lemma InBodyOnly(cfg: R.Config, r: R.State, inp: R.Input)
    requires R.WellFormed(r)
    ensures EndsFile(cfg, r, inp) ==> r.phase.InBody?
  {
  }

  /** Runs from the other end. */
  lemma {:induction false} RunAppend(cfg: R.Config, r: R.State, ins: seq<R.Input>, last: R.Input)
    requires R.WellFormed(r)
    ensures R.Run(cfg, r, ins + [last]) == R.Step(cfg, R.Run(cfg, r, ins), last.arrival, last.io)
    decreases |ins|
  {
    if ins == [] {
      assert (ins + [last])[1..] == [];
    } else {
      assert (ins + [last])[1..] == ins[1..] + [last];
      RunAppend(cfg, R.Step(cfg, r, ins[0].arrival, ins[0].io), ins[1..], last);
    }
  }

  lemma NewIds(cfg: R.Config, r: R.State, inp: R.Input, r': R.State)
    requires R.WellFormed(r) && r' == R.Step(cfg, r, inp.arrival, inp.io)
    requires r.phase.AwaitManifest? && r'.phase.AwaitStart?
    ensures Ascending(r'.ids)
  {
    hide R.Judge, R.IdsKnown, Ascending;
    var files := inp.arrival.m.control.files;
    assert r'.ids == R.Judge(cfg, files).ids;
    R.JudgedIds(cfg, files);
  }

  lemma StepAscending(cfg: R.Config, r: R.State, inp: R.Input, r': R.State)
    requires R.WellFormed(r) && r' == R.Step(cfg, r, inp.arrival, inp.io) && Ascending(r.ids)
    ensures Ascending(r'.ids)
  {
    hide R.Step, R.WellFormed, Ascending;
    StepReports(cfg, r, inp, r');
    if r'.ids != r.ids {
      NewIds(cfg, r, inp, r');
    }
  }

  lemma ReceiveAppend(cfg: R.Config, dir0: Dir, io0: Io, ins: seq<R.Input>, n: nat)
    requires n < |ins|
    ensures RS.Receive(cfg, dir0, io0, ins[..n + 1])
         == R.Step(cfg, RS.Receive(cfg, dir0, io0, ins[..n]), ins[n].arrival, ins[n].io)
  {
    hide R.Step;
    assert ins[..n + 1] == ins[..n] + [ins[n]];
    RunAppend(cfg, R.Start(R.Init(dir0), io0), ins[..n], ins[n]);
  }

  /** The n-th input ends the last accepted file. */
  predicate LastFileEndsAt(cfg: R.Config, dir0: Dir, io0: Io, ins: seq<R.Input>, n: nat)
    requires n < |ins|
  {
    EndsLastFile(cfg, RS.Receive(cfg, dir0, io0, ins[..n]), ins[n])
  }

  lemma {:induction false} ReportedByPrefix(cfg: R.Config, dir0: Dir, io0: Io, ins: seq<R.Input>, m: nat)
    requires m <= |ins|
    ensures var r := RS.Receive(cfg, dir0, io0, ins[..m]);
      && Ascending(r.ids)
      && (AllReported(r) <==> exists n: nat :: n < m && LastFileEndsAt(cfg, dir0, io0, ins, n))
  {
    hide RS.Receive, R.Step, R.WellFormed, RS.EventsOk, RS.DirOk, RS.SignalsOk, Ascending, EndsLastFile, AllReported;
    var r := RS.Receive(cfg, dir0, io0, ins[..m]);
    if m == 0 {
      assert ins[..0] == [];
      NothingReported(cfg, dir0, io0);
    } else {
      var before := RS.Receive(cfg, dir0, io0, ins[..m - 1]);
      ReportedByPrefix(cfg, dir0, io0, ins, m - 1);
      ReceiveAppend(cfg, dir0, io0, ins, m - 1);
      ReceiveEvents(cfg, dir0, io0, ins[..m - 1]);
      ReceiveEvents(cfg, dir0, io0, ins[..m]);
      StepAllReported(cfg, before, ins[m - 1], r);
      StepAscending(cfg, before, ins[m - 1], r);
      assert LastFileEndsAt(cfg, dir0, io0, ins, m - 1) == EndsLastFile(cfg, before, ins[m - 1]);
    }
  }

  lemma NothingReported(cfg: R.Config, dir0: Dir, io0: Io)
    ensures var r := RS.Receive(cfg, dir0, io0, []); Ascending(r.ids) && !AllReported(r)
  {
  }

  lemma ReceiveEvents(cfg: R.Config, dir0: Dir, io0: Io, ins: seq<R.Input>)
    ensures R.WellFormed(RS.Receive(cfg, dir0, io0, ins)) && RS.EventsOk(RS.Receive(cfg, dir0, io0, ins))
  {
    hide RS.DirOk, RS.SignalsOk, RS.EventsOk;
    RS.ReceiveKeeps(cfg, dir0, io0, ins);
  }

  lemma AscendingItems(ids: seq<int>, items: seq<Item>)
    requires Ascending(ids) && |items| == |ids| && forall i | 0 <= i < |ids| :: items[i].id == ids[i]
    ensures Distinct(Ids(items))
  {
    assert Ids(items) == ids;
  }

  /**
   * A receiver's events meet the documented contract if and only if nothing was accepted or some input was
   * the file-end of the last accepted file that was acknowledged or had a bad digest.
   */
  lemma ReceiverDocumented(cfg: R.Config, dir0: Dir, io0: Io, ins: seq<R.Input>)
    ensures var r := RS.Receive(cfg, dir0, io0, ins);
      && (Documented(RS.Items(r.ids, r.files), r.core.events)
          <==> r.ids == [] || exists n: nat :: n < |ins| && LastFileEndsAt(cfg, dir0, io0, ins, n))
  {
    var r := RS.Receive(cfg, dir0, io0, ins);
    assert ins[..|ins|] == ins;
    ReportedByPrefix(cfg, dir0, io0, ins, |ins|);
    ReceiveEvents(cfg, dir0, io0, ins);
    var items := RS.Items(r.ids, r.files);
    AscendingItems(r.ids, items);
    assert Scan(items, true, r.core.events) != Violated;
    hide Documented, RS.Receive, LastFileEndsAt, Distinct;
    DocumentedIff(items, true, r.core.events);
  }

  // ----- The sender -------------------------------------------------------------------------------

  /** What a waiting sender takes: a deferred message before one that arrives. */
  function TakenMessage(s: S.State, inp: S.Input): Option<Msg> {
    if s.pending != [] then Some(s.pending[0])
    else if inp.arrival.Message? then Some(inp.arrival.m)
    else None
  }

  /** The ack of the file just sent, with one of the two known statuses. */
  predicate AcksFile(cfg: S.Config, s: S.State, inp: S.Input)
    requires S.WellFormed(cfg, s)
  {
    && s.phase.AwaitAck? && TakenMessage(s, inp).Some?
    && var m := TakenMessage(s, inp).value;
       && m.Text? && m.control.FileAck? && m.control.id == s.ids[s.k]
       && (m.control.status.StatusOk? || m.control.status.StatusHashMismatch?)
  }

  predicate AcksLastFile(cfg: S.Config, s: S.State, inp: S.Input)
    requires S.WellFormed(cfg, s)
  {
    AcksFile(cfg, s, inp) && s.k + 1 == |s.ids|
  }

  lemma SenderFailReports(s: S.State, core: Core, f: Failure, io: Io)
    ensures DoneIds(S.Fail(s.(core := core), f, io).core.events) == DoneIds(core.events)
  {
    Append(core.events, SessionError(f));
  }

  lemma NextFileReports(cfg: S.Config, s: S.State, io: Io)
    requires S.WellFormed(cfg, s)
    ensures DoneIds(S.NextFile(cfg, s, io).core.events) == DoneIds(s.core.events)
    ensures S.NextFile(cfg, s, io).ids == s.ids
  {
    hide DoneIds;
    SenderFailReports(s, s.core, ErrSend, io);
    Append(s.core.events, AllDone);
    if s.k < |s.ids| {
      var begin := FileStarted(s.ids[s.k], S.Current(cfg, s).size);
      Append(s.core.events, begin);
      Append(s.core.events + [begin], SessionError(ErrFile));
    }
  }

  lemma AckReports(cfg: S.Config, s: S.State, id: int, status: AckStatus, io: Io)
    requires S.WellFormed(cfg, s) && s.phase.AwaitAck?
    ensures var s' := S.OnAck(cfg, s, id, status, io);
      && s'.ids == s.ids
      && |DoneIds(s'.core.events)|
         == |DoneIds(s.core.events)| + (if id == s.ids[s.k] && !status.StatusOther? then 1 else 0)
  {
    hide DoneIds, S.NextFile;
    var size := S.Current(cfg, s).size;
    Append(s.core.events, FileDone(id, |s.sent|, size, status.StatusOk?));
    if id == s.ids[s.k] && status.StatusOk? {
      var done := s.core.Emit(FileDone(id, |s.sent|, size, true));
      NextFileReports(cfg, s.(phase := S.AwaitReply, k := s.k + 1, core := done), io);
    } else if id == s.ids[s.k] && status.StatusHashMismatch? {
      SenderFailReports(s, s.core.Emit(FileDone(id, |s.sent|, size, false)), ErrHashMismatch, io);
    } else {
      SenderFailReports(s, s.core.Signal(Error(CodeProtocol), io), ErrProtocol, io);
    }
  }

  /** Outside a file a sender reports nothing; an accept settles the ids. */
  lemma WaitReports(cfg: S.Config, s: S.State, c: Control, io: Io, s': S.State)
    requires S.WellFormed(cfg, s) && S.Waiting(s) && s' == S.OnControl(cfg, s, c, io)
    requires !(s.phase.AwaitAck? && c.FileAck?)
    ensures DoneIds(s'.core.events) == DoneIds(s.core.events)
    ensures s'.ids == s.ids || (s.phase.AwaitReply? && Ascending(s'.ids))
  {
    hide DoneIds, S.NextFile, Resolve, Ascending, S.Metas;
    SenderFailReports(s, s.core.Signal(Error(CodeProtocol), io), ErrProtocol, io);
    if s.phase.AwaitHello? {
      SenderFailReports(s, s.core.Signal(Error(CodeVersion), io), ErrVersion, io);
      SenderFailReports(s, s.core, ErrSend, io);
    } else if s.phase.AwaitReply? {
      SenderFailReports(s, s.core, ErrRejected, io);
      if c.Accept? && Resolve(c.ids, |cfg.files|).Some? {
        S.ResolvedInRange(c.ids, |cfg.files|);
        ResolvedAscending(c.ids, |cfg.files|);
        NextFileReports(cfg, s.(phase := S.AwaitReply, ids := Resolve(c.ids, |cfg.files|).value, k := 0), io);
      }
    }
  }

  lemma ResolvedAscending(wire: seq<int>, n: nat)
    requires Resolve(wire, n).Some?
    ensures Ascending(Resolve(wire, n).value)
  {
    assert Resolves(wire, n, Resolve(wire, n));
  }

  lemma MessageReports(cfg: S.Config, s: S.State, m: Msg, io: Io, s': S.State)
    requires S.WellFormed(cfg, s) && S.Waiting(s) && s' == S.OnMessage(cfg, s, m, io)
    ensures var acks := s.phase.AwaitAck? && m.Text? && m.control.FileAck? && m.control.id == s.ids[s.k]
                        && !m.control.status.StatusOther?;
      |DoneIds(s'.core.events)| == |DoneIds(s.core.events)| + (if acks then 1 else 0)
    ensures s'.ids == s.ids || (s.phase.AwaitReply? && Ascending(s'.ids))
  {
    hide DoneIds, S.OnControl, S.OnAck, Ascending;
    SenderFailReports(s, s.core.Signal(Error(CodeProtocol), io), ErrProtocol, io);
    if m.Text? {
      var c := m.control;
      if IsTerminal(m) {
        var seen := s.core.(signaled := true);
        SenderFailReports(s, seen, if c.Error? then ErrPeer(c.code) else ErrPeerCancel, io);
      } else if s.phase.AwaitAck? && c.FileAck? {
        AckReports(cfg, s, c.id, c.status, io);
        OnFileAck(cfg, s, c, io);
      } else if !c.Unknown? {
        WaitReports(cfg, s, c, io, s');
      }
    }
  }

  lemma OnFileAck(cfg: S.Config, s: S.State, c: Control, io: Io)
    requires S.WellFormed(cfg, s) && s.phase.AwaitAck? && c.FileAck?
    ensures S.OnControl(cfg, s, c, io) == S.OnAck(cfg, s, c.id, c.status, io)
  {
  }

  lemma CheckReports(s: S.State, m: Msg, io: Io)
    ensures DoneIds(S.MidSendCheck(s, m, io).core.events) == DoneIds(s.core.events)
    ensures S.MidSendCheck(s, m, io).ids == s.ids
  {
    hide DoneIds;
    var seen := s.core.(signaled := true);
    SenderFailReports(s, s.core.Signal(Error(CodeProtocol), io), ErrProtocol, io);
    SenderFailReports(s, seen, ErrPeerCancel, io);
    if m.Text? && m.control.Error? {
      SenderFailReports(s, seen, ErrPeer(m.control.code), io);
    }
  }

  lemma ReadReports(cfg: S.Config, s: S.State, rd: S.Read, ctxDone: bool, io: Io)
    requires S.WellFormed(cfg, s) && s.phase.Reading?
    ensures DoneIds(S.OnRead(cfg, s, rd, ctxDone, io).core.events) == DoneIds(s.core.events)
    ensures S.OnRead(cfg, s, rd, ctxDone, io).ids == s.ids
  {
    hide DoneIds;
    match rd
    case ReadError => SenderFailReports(s, s.core, ErrFile, io);
    case Data(d) =>
      var hashed := s.(hashed := s.hashed + d);
      SenderFailReports(hashed, s.core, ErrContext, io);
      SenderFailReports(hashed, s.core, ErrSend, io);
      Append(s.core.events, Progress(s.ids[s.k], |s.sent| + |d|, S.Current(cfg, s).size));
    case Eof =>
      SenderFailReports(s, s.core, ErrSizeChanged, io);
      SenderFailReports(s, s.core, ErrSend, io);
  }

  /** One step reports one file as done, or none. */
  lemma SenderStepReports(cfg: S.Config, s: S.State, inp: S.Input, s': S.State)
    requires S.WellFormed(cfg, s) && s' == S.Step(cfg, s, inp)
    ensures |DoneIds(s'.core.events)| == |DoneIds(s.core.events)| + (if AcksFile(cfg, s, inp) then 1 else 0)
    ensures s'.ids == s.ids || (s.phase.AwaitReply? && Ascending(s'.ids))
  {
    hide DoneIds, S.OnMessage, S.MidSendCheck, S.OnRead, Ascending;
    SenderFailReports(s, s.core, ErrPeerClosed, inp.io);
    SenderFailReports(s, s.core, ErrContext, inp.io);
    var popped := if s.pending != [] then s.(pending := s.pending[1..]) else s;
    if s.phase.Reading? {
      ReadReports(cfg, s, inp.read, inp.ctxDone, inp.io);
    } else if S.Waiting(s) {
      if TakenMessage(s, inp).Some? {
        MessageReports(cfg, popped, TakenMessage(s, inp).value, inp.io, s');
      }
    } else if s.phase.Polling? && !inp.ctxDone {
      if s.pending != [] {
        CheckReports(popped, s.pending[0], inp.io);
      } else if inp.found.Some? {
        CheckReports(s, inp.found.value, inp.io);
      }
    }
  }

  ghost predicate AllAcked(s: S.State) {
    s.ids != [] && |DoneIds(s.core.events)| == |s.ids|
  }

  lemma StepAllAcked(cfg: S.Config, s: S.State, inp: S.Input, s': S.State)
    requires S.WellFormed(cfg, s) && SS.StreamOk(cfg, s) && s' == S.Step(cfg, s, inp)
    requires Ascending(s.ids)
    ensures AllAcked(s') <==> AllAcked(s) || AcksLastFile(cfg, s, inp)
    ensures Ascending(s'.ids)
  {
    SenderStepReports(cfg, s, inp, s');
    ReturnedStays(cfg, s, inp, s');
    hide S.Step, Ascending, S.Waiting;
    CountsOf(SS.Items(cfg, s.ids), false, s.core.events);
    hide StartedIds, Scan;
    if s.phase.AwaitReply? {
      assert DoneIds(s.core.events) == [];
    }
    hide DoneIds;
  }

  lemma ReturnedStays(cfg: S.Config, s: S.State, inp: S.Input, s': S.State)
    requires S.WellFormed(cfg, s) && s' == S.Step(cfg, s, inp)
    ensures s.phase.Returned? ==> s' == s
  {
  }

  lemma {:induction false} SenderRunAppend(cfg: S.Config, s: S.State, ins: seq<S.Input>, last: S.Input)
    requires S.WellFormed(cfg, s)
    ensures S.Run(cfg, s, ins + [last]) == S.Step(cfg, S.Run(cfg, s, ins), last)
    decreases |ins|
  {
    if ins == [] {
      assert (ins + [last])[1..] == [];
    } else {
      assert (ins + [last])[1..] == ins[1..] + [last];
      SenderRunAppend(cfg, S.Step(cfg, s, ins[0]), ins[1..], last);
    }
  }

  lemma SendAppend(cfg: S.Config, io0: Io, ins: seq<S.Input>, n: nat)
    requires n < |ins|
    ensures SS.Send(cfg, io0, ins[..n + 1]) == S.Step(cfg, SS.Send(cfg, io0, ins[..n]), ins[n])
  {
    hide S.Step;
    assert ins[..n + 1] == ins[..n] + [ins[n]];
    SenderRunAppend(cfg, S.Start(cfg, S.INIT, io0), ins[..n], ins[n]);
  }

  /** With the n-th input the sender takes the ack of the last accepted file. */
  predicate LastAckAt(cfg: S.Config, io0: Io, ins: seq<S.Input>, n: nat)
    requires n < |ins|
  {
    AcksLastFile(cfg, SS.Send(cfg, io0, ins[..n]), ins[n])
  }

  lemma {:induction false} AckedByPrefix(cfg: S.Config, io0: Io, ins: seq<S.Input>, m: nat)
    requires m <= |ins|
    ensures var s := SS.Send(cfg, io0, ins[..m]);
      && Ascending(s.ids)
      && (AllAcked(s) <==> exists n: nat :: n < m && LastAckAt(cfg, io0, ins, n))
  {
    hide SS.Send, S.Step, S.WellFormed, SS.StreamOk, Ascending, AcksLastFile, AllAcked;
    var s := SS.Send(cfg, io0, ins[..m]);
    if m == 0 {
      assert ins[..0] == [];
      NothingAcked(cfg, io0);
    } else {
      var before := SS.Send(cfg, io0, ins[..m - 1]);
      AckedByPrefix(cfg, io0, ins, m - 1);
      SendAppend(cfg, io0, ins, m - 1);
      SendStream(cfg, io0, ins[..m - 1]);
      StepAllAcked(cfg, before, ins[m - 1], s);
      assert LastAckAt(cfg, io0, ins, m - 1) == AcksLastFile(cfg, before, ins[m - 1]);
    }
  }

  lemma NothingAcked(cfg: S.Config, io0: Io)
    ensures var s := SS.Send(cfg, io0, []); Ascending(s.ids) && !AllAcked(s)
  {
    hide S.Sendable;
  }

  lemma SendStream(cfg: S.Config, io0: Io, ins: seq<S.Input>)
    ensures S.WellFormed(cfg, SS.Send(cfg, io0, ins)) && SS.StreamOk(cfg, SS.Send(cfg, io0, ins))
  {
    hide SS.SignalsOk, SS.StreamOk;
    SS.SendKeeps(cfg, io0, ins);
  }

  /**
   * A sender's events meet the documented contract if and only if nothing was accepted or the ack of the
   * last accepted file was taken, whether it said ok or hash-mismatch.
   */
  lemma SenderDocumented(cfg: S.Config, io0: Io, ins: seq<S.Input>)
    ensures var s := SS.Send(cfg, io0, ins);
      && (Documented(SS.Items(cfg, s.ids), s.core.events)
          <==> s.ids == [] || exists n: nat :: n < |ins| && LastAckAt(cfg, io0, ins, n))
  {
    var s := SS.Send(cfg, io0, ins);
    assert ins[..|ins|] == ins;
    AckedByPrefix(cfg, io0, ins, |ins|);
    SendStream(cfg, io0, ins);
    var items := SS.Items(cfg, s.ids);
    AscendingItems(s.ids, items);
    assert Scan(items, false, s.core.events) != Violated;
    hide Documented, SS.Send, LastAckAt, Distinct;
    DocumentedIff(items, false, s.core.events);
  }

  // ----- A run that does not meet the documented contract ------------------------------------------

  const ONE_FILE := [FileMeta(0, "a", 1)]
  const TAKES_IT := R.Config((b: Bytes) => "", (files: seq<FileMeta>) => Chosen([0]))

  /** Hello, a manifest of one file, its file-start, and then the context is cancelled. */
  function CancelledInFile(): seq<R.Input> {
    var ok := Io(true, true, true);
    [R.Input(Message(Text(Hello(VERSION))), ok), R.Input(Message(Text(Manifest(ONE_FILE))), ok),
     R.Input(Message(Text(FileStart(0))), ok), R.Input(CtxDone, ok)]
  }

  lemma PlainName()
    ensures Sanitize("a") == NameOk("a")
  {
    hide Sanitize;
    SanitizeFixes("a");
  }

  lemma OneFileValid()
    ensures R.ValidManifest(ONE_FILE)
  {
    PlainName();
    hide Sanitize;
  }

  lemma OneFileTable()
    ensures R.ById(ONE_FILE) == map[0 := ONE_FILE[0]]
  {
    assert ONE_FILE[..0] == [];
  }

  lemma SortOne()
    ensures Sort([0]) == [0]
  {
    SortDistinct([0]);
    hide Sort;
    var s := Sort([0]);
    assert s[0] in s;
  }

  lemma OneFileAccepted()
    ensures R.Judge(TAKES_IT, ONE_FILE) == R.Accepting([0])
  {
    OneFileValid();
    OneFileTable();
    SortOne();
    hide R.ValidManifest, R.ById, Sort;
    assert ValidChoice([0], {0});
  }

  lemma OneFileStarted()
    ensures Dest(map[], "a") == Some("a")
  {
    hide Decimal;
    assert Candidate("a", 0) == "a";
  }

  /** The documented contract fails: the accepted file is started and never reported as done. */
  lemma UndocumentedRun()
    ensures var r := RS.Receive(TAKES_IT, map[], Io(true, true, true), CancelledInFile());
      && r.phase == R.Returned(Failed(ErrContext)) && r.ids == [0]
      && r.core.events == [FileStarted(0, 1), SessionError(ErrContext)]
      && !Documented(RS.Items(r.ids, r.files), r.core.events)
  {
    var io := Io(true, true, true);
    var ins := CancelledInFile();
    OneFileAccepted();
    OneFileTable();
    OneFileStarted();
    PlainName();
    hide R.Judge, R.ById, Sanitize, Dest;
    var r0 := R.Start(R.Init(map[]), io);
    var r1 := R.Step(TAKES_IT, r0, ins[0].arrival, io);
    var r2 := R.Step(TAKES_IT, r1, ins[1].arrival, io);
    assert r2.phase.AwaitStart? && r2.ids == [0] && r2.files == ONE_FILE && R.Meta(r2) == ONE_FILE[0];
    var r3 := R.Step(TAKES_IT, r2, ins[2].arrival, io);
    assert r3.phase.InBody? && r3.core.events == [FileStarted(0, 1)];
    var r4 := R.Step(TAKES_IT, r3, ins[3].arrival, io);
    assert r4.core.events == [FileStarted(0, 1), SessionError(ErrContext)];
    hide R.Step;
    assert ins[1..][1..] == ins[2..] && ins[2..][1..] == ins[3..] && ins[3..][1..] == [];
    assert R.Run(TAKES_IT, r3, ins[3..]) == R.Run(TAKES_IT, r4, []) == r4;
    assert R.Run(TAKES_IT, r2, ins[2..]) == r4;
    assert R.Run(TAKES_IT, r1, ins[1..]) == r4;
    NoFileDone(RS.Items(r4.ids, r4.files), r4.core.events);
  }

  lemma NoFileDone(items: seq<Item>, events: seq<Event>)
    requires items != [] && events == [FileStarted(0, 1), SessionError(ErrContext)]
    ensures !Documented(items, events)
  {
    Append([], events[0]);
    Append([events[0]], events[1]);
    assert [] + [events[0]] == [events[0]] && [events[0]] + [events[1]] == events;
    assert multiset(DoneIds(events))[items[0].id] == 0;
  }
}
