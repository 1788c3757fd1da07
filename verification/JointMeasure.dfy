/** A well-founded measure that falls at every step of the joint system, so that no run is infinite. */
module JointMeasure {
  import opened Protocol
  import opened Directory
  import opened Acceptance
  import opened Session
  import S = Sender
  import R = Receiver
  import opened Joint
  import RS = ReceiverSafety
  import opened ReceiverReplies
  import opened JointLink
  import opened JointReceiver
  import opened JointInvariant
  import opened JointRuns
  import opened JointOutcomes
  import opened JointLiveness

  /** How far a sender is from its file loop. */
  function SenderStage(s: S.State): nat {
    match s.phase
    case Idle => 3
    case AwaitHello => 2
    case AwaitReply => 1
    case _ => 0
  }

  function ReceiverStage(r: R.State): nat {
    match r.phase
    case Idle => 3
    case AwaitHello => 2
    case AwaitManifest => 1
    case _ => 0
  }

  function FileSteps(f: S.File): nat {
    2 * |f.content| + 3
  }

  /** Steps still needed for the files from index k on. */
  function StepsFrom(cfg: S.Config, ids: seq<int>, k: nat): nat
    requires InRange(ids, |cfg.files|)
    decreases |ids| - k
  {
    if k >= |ids| then 0 else FileSteps(cfg.files[ids[k]]) + StepsFrom(cfg, ids, k + 1)
  }

  function SenderSteps(w: World, s: S.State): nat
    requires S.WellFormed(w.SC(), s)
  {
    match s.phase
    case Polling => StepsFrom(w.SC(), s.ids, s.k + 1) + 2 * |Unread(w, s)| + 3
    case Reading => StepsFrom(w.SC(), s.ids, s.k + 1) + 2 * |Unread(w, s)| + 2
    case AwaitAck => StepsFrom(w.SC(), s.ids, s.k + 1) + 1
    case _ => 0
  }

  function ReceiverSteps(r: R.State): nat
    requires R.WellFormed(r)
  {
    match r.phase
    case AwaitStart => 2 * (|r.ids| - |r.kept|) + 1
    case InBody => 2 * (|r.ids| - |r.kept|)
    case AwaitDone => 1
    case _ => 0
  }

  function Stage(g: Sys): nat {
    SenderStage(g.s) + ReceiverStage(g.r)
  }

  /** Messages not yet taken, those on a wire counting twice. */
  function Messages(g: Sys): nat {
    |g.s.pending| + 2 * |g.toS.wire| + |g.toS.inbox| + 2 * |g.toR.wire| + |g.toR.inbox|
  }

  /** Within one stage: the steps of both machines, each worth more than the messages it can put in flight. */
  function Work(w: World, g: Sys): nat
    requires WellFormed(w, g)
  {
    8 * SenderSteps(w, g.s) + 8 * ReceiverSteps(g.r) + Messages(g)
  }

  ghost predicate Falls(w: World, g: Sys, g': Sys) {
    && WellFormed(w, g) && WellFormed(w, g')
    && (Stage(g') < Stage(g) || (Stage(g') == Stage(g) && Work(w, g') < Work(w, g)))
    && Messages(g') <= Messages(g) + 5
  }

  // ----- The sender -----------------------------------------------------------------------------

  /** A sender step that posts at most two messages: into a later stage, or cheaper, or nothing at all. */
  ghost predicate SenderPays(w: World, s: S.State, s': S.State) {
    && S.WellFormed(w.SC(), s) && S.WellFormed(w.SC(), s')
    && |s.core.out| <= |s'.core.out| <= |s.core.out| + 2
    && |s'.pending| <= |s.pending| + 1
    && (SenderStage(s') < SenderStage(s)
        || (SenderStage(s') == SenderStage(s) && SenderSteps(w, s') < SenderSteps(w, s)))
  }

  lemma NextFilePays(w: World, s: S.State, io: Io, s': S.State)
    requires S.WellFormed(w.SC(), s) && s.phase.AwaitReply? && s' == S.NextFile(w.SC(), s, io)
    ensures S.WellFormed(w.SC(), s') && SenderStage(s') == 0 && s'.pending == s.pending
    ensures SenderSteps(w, s') <= StepsFrom(w.SC(), s.ids, s.k)
    ensures |s.core.out| <= |s'.core.out| <= |s.core.out| + 2
  {
  }

  lemma ControlPays(w: World, s: S.State, c: Control, io: Io, s': S.State)
    requires S.WellFormed(w.SC(), s) && S.Waiting(s) && s' == S.OnControl(w.SC(), s, c, io)
    ensures SenderPays(w, s, s') && s'.pending == s.pending
  {
    hide Resolve, S.Metas, S.NextFile, Unread, StepsFrom;
    if s.phase.AwaitReply? && c.Accept? && Resolve(c.ids, |w.files|).Some? {
      S.ResolvedInRange(c.ids, |w.files|);
      NextFilePays(w, s.(phase := S.AwaitReply, ids := Resolve(c.ids, |w.files|).value, k := 0), io, s');
    } else if s.phase.AwaitAck? && c.FileAck? {
      hide S.OnHello, S.OnAccept;
      AckPays(w, s, c.id, c.status, io, s');
    }
  }

  lemma AckPays(w: World, s: S.State, id: int, status: AckStatus, io: Io, s': S.State)
    requires S.WellFormed(w.SC(), s) && s.phase.AwaitAck? && s' == S.OnAck(w.SC(), s, id, status, io)
    ensures SenderPays(w, s, s') && s'.pending == s.pending
  {
    hide S.NextFile, Unread;
    if id == s.ids[s.k] && status.StatusOk? {
      var done := s.core.Emit(FileDone(id, |s.sent|, S.Current(w.SC(), s).size, true));
      NextFilePays(w, s.(phase := S.AwaitReply, k := s.k + 1, core := done), io, s');
    }
  }

  /** Taking a message pays, or the message is of unknown type and only the queue gets shorter. */
  lemma MessagePays(w: World, s: S.State, m: Msg, io: Io, s': S.State)
    requires S.WellFormed(w.SC(), s) && S.Waiting(s) && s' == S.OnMessage(w.SC(), s, m, io)
    ensures s' == s || (SenderPays(w, s, s') && s'.pending == s.pending)
  {
    hide S.OnControl, Unread, StepsFrom;
    if m.Text? && !m.control.Cancel? && !m.control.Error? && !m.control.Unknown? {
      ControlPays(w, s, m.control, io, s');
    }
  }

  lemma PollPays(w: World, s: S.State, ctxDone: bool, found: Option<Msg>, io: Io, s': S.State)
    requires S.WellFormed(w.SC(), s) && s.phase.Polling? && s' == S.Poll(s, ctxDone, found, io)
    ensures SenderPays(w, s, s')
  {
    hide StepsFrom, Unread, S.MidSendCheck;
    if ctxDone {
      CancelPays(w, s, io, s');
    } else if s.pending != [] {
      CheckPays(w, s.(pending := s.pending[1..]), s.pending[0], io, s');
      SameSteps(w, s, s.pending[1..]);
    } else if found.Some? {
      CheckPays(w, s, found.value, io, s');
    } else {
      ReadingNext(w, s);
    }
  }

  lemma SameSteps(w: World, s: S.State, pending: seq<Msg>)
    requires S.WellFormed(w.SC(), s)
    ensures S.WellFormed(w.SC(), s.(pending := pending))
    ensures SenderSteps(w, s.(pending := pending)) == SenderSteps(w, s)
  {
  }

  lemma ReadingNext(w: World, s: S.State)
    requires S.WellFormed(w.SC(), s) && s.phase.Polling?
    ensures S.WellFormed(w.SC(), s.(phase := S.Reading))
    ensures SenderSteps(w, s.(phase := S.Reading)) < SenderSteps(w, s)
  {
  }

  lemma CheckPays(w: World, s: S.State, m: Msg, io: Io, s': S.State)
    requires S.WellFormed(w.SC(), s) && s.phase.Polling? && s' == S.MidSendCheck(s, m, io)
    ensures SenderPays(w, s, s')
  {
    hide StepsFrom, Unread;
    ReadingNext(w, s);
    SameSteps(w, s.(phase := S.Reading), s'.pending);
  }

  lemma ReadPays(w: World, s: S.State, rd: S.Read, ctxDone: bool, io: Io, s': S.State)
    requires S.WellFormed(w.SC(), s) && s.phase.Reading? && s' == S.OnRead(w.SC(), s, rd, ctxDone, io)
    requires rd.Data? ==> 0 < |rd.data| <= |Unread(w, s)|
    ensures SenderPays(w, s, s')
  {
    hide StepsFrom;
  }

  lemma PaidStepFalls(w: World, g: Sys, s': S.State, removed: nat)
    requires WellFormed(w, g) && SenderPays(w, g.s, s') && removed <= |g.toS.inbox|
    ensures Falls(w, g, SenderMoves(g, s', removed))
  {
    hide SenderSteps, ReceiverSteps, S.WellFormed, R.WellFormed;
  }

  lemma SenderFalls(w: World, g: Sys, a: Action, g': Sys)
    requires WellFormed(w, g) && Enabled(w, g, a) && OfSender(a) && g' == Apply(w, g, a)
    ensures Falls(w, g, g')
  {
    var inp := SenderInput(w, g, a);
    var s' := S.Step(w.SC(), g.s, inp);
    SenderGrows(w.SC(), g.s, inp);
    assert g' == SenderMoves(g, s', SenderRemoves(g, a));
    hide S.WellFormed, R.WellFormed, Unread, Falls, SenderPays;
    if a.SenderTakes? {
      TakeFalls(w, g, inp, s', g');
    } else if g.s.phase.Polling? {
      PollPays(w, g.s, inp.ctxDone, inp.found, inp.io, s');
      PaidStepFalls(w, g, s', SenderRemoves(g, a));
    } else if a.SenderCancelled? {
      CancelPays(w, g.s, inp.io, s');
      PaidStepFalls(w, g, s', SenderRemoves(g, a));
    } else {
      ReadPays(w, g.s, inp.read, inp.ctxDone, inp.io, s');
      PaidStepFalls(w, g, s', SenderRemoves(g, a));
    }
  }

  lemma CancelPays(w: World, s: S.State, io: Io, s': S.State)
    requires S.WellFormed(w.SC(), s) && !s.phase.Returned? && s' == S.Fail(s, ErrContext, io)
    ensures SenderPays(w, s, s')
  {
    hide StepsFrom;
  }

  lemma TakeFalls(w: World, g: Sys, inp: S.Input, s': S.State, g': Sys)
    requires WellFormed(w, g) && S.Waiting(g.s) && s' == S.OnArrival(w.SC(), g.s, inp.arrival, inp.io)
    requires g.s.pending != [] || (g.toS.inbox != [] && inp.arrival == Message(g.toS.inbox[0]))
    requires |g.s.core.out| <= |s'.core.out|
    requires g' == SenderMoves(g, s', if g.s.pending == [] then 1 else 0)
    ensures Falls(w, g, g')
  {
    hide S.OnMessage, Unread, StepsFrom;
    if g.s.pending != [] {
      var popped := g.s.(pending := g.s.pending[1..]);
      MessagePays(w, popped, g.s.pending[0], inp.io, s');
    } else {
      MessagePays(w, g.s, g.toS.inbox[0], inp.io, s');
    }
  }

  // ----- The receiver ---------------------------------------------------------------------------

  ghost predicate ReceiverPays(r: R.State, r': R.State) {
    && R.WellFormed(r) && R.WellFormed(r')
    && |r.core.out| <= |r'.core.out| <= |r.core.out| + 2
    && (ReceiverStage(r') < ReceiverStage(r)
        || (ReceiverStage(r') == ReceiverStage(r) && ReceiverSteps(r') < ReceiverSteps(r)))
  }

  /** A step that says nothing and stays where it is; it must have taken a message. */
  ghost predicate ReceiverStays(r: R.State, r': R.State) {
    && R.WellFormed(r) && R.WellFormed(r')
    && r'.core.out == r.core.out && r'.phase == r.phase && r'.ids == r.ids && r'.kept == r.kept
  }

  lemma ReceiverControlPays(cfg: R.Config, r: R.State, c: Control, io: Io, r': R.State)
    requires R.WellFormed(r) && R.Waiting(r) && r' == R.OnControl(cfg, r, c, io) && R.WellFormed(r')
    ensures ReceiverPays(r, r')
  {
    hide R.Judge, R.ById, Dest, Sanitize, EqualFold, R.IdsKnown;
    if r.phase.AwaitManifest? && c.Manifest? {
      VerdictPays(r, c.files, R.Judge(cfg, c.files), io, r');
    } else if r.phase.InBody? && c.FileEnd? {
      FileEndPays(cfg, r, c.id, c.sha256, io, r');
    } else if r.phase.AwaitStart? && c.FileStart? {
      FileStartPays(r, c.id, io, r');
    } else if r.phase.AwaitHello? && c.Hello? {
      HelloPays(r, c.v, io, r');
    } else {
      hide R.OnVerdict, R.OnFileEnd, R.OnFileStart, R.OnHello;
      ComplainPays(r, io, R.Complain(r, io));
    }
  }

  lemma ComplainPays(r: R.State, io: Io, r': R.State)
    requires R.WellFormed(r) && R.Waiting(r) && r' == R.Complain(r, io)
    ensures R.WellFormed(r') && ReceiverPays(r, r')
  {
    hide R.ById;
  }

  lemma HelloPays(r: R.State, v: int, io: Io, r': R.State)
    requires R.WellFormed(r) && r.phase.AwaitHello? && r' == R.OnHello(r, v, io) && R.WellFormed(r')
    ensures ReceiverPays(r, r')
  {
  }

  lemma FileStartPays(r: R.State, id: int, io: Io, r': R.State)
    requires R.WellFormed(r) && r.phase.AwaitStart? && r' == R.OnFileStart(r, id, io) && R.WellFormed(r')
    ensures ReceiverPays(r, r')
  {
    hide R.ById, Dest, Sanitize, R.IdsKnown;
  }

  lemma VerdictPays(r: R.State, files: seq<FileMeta>, verdict: R.Verdict, io: Io, r': R.State)
    requires R.WellFormed(r) && r.phase.AwaitManifest? && r' == R.OnVerdict(r, files, verdict, io) && R.WellFormed(r')
    ensures ReceiverPays(r, r')
  {
  }

  lemma FileEndPays(cfg: R.Config, r: R.State, id: int, sha256: string, io: Io, r': R.State)
    requires R.WellFormed(r) && r.phase.InBody? && r' == R.OnFileEnd(cfg, r, id, sha256, io) && R.WellFormed(r')
    ensures ReceiverPays(r, r')
  {
    hide R.ById, EqualFold, R.IdsKnown;
  }

  lemma ReceiverMessagePays(cfg: R.Config, r: R.State, m: Msg, io: Io, r': R.State)
    requires R.WellFormed(r) && R.Waiting(r) && r' == R.OnMessage(cfg, r, m, io) && R.WellFormed(r')
    ensures ReceiverPays(r, r') || ReceiverStays(r, r')
  {
    hide R.ById, R.IdsKnown, R.OnControl;
    if m.Text? && !m.control.Cancel? && !m.control.Error? && !m.control.Unknown? {
      ReceiverControlPays(cfg, r, m.control, io, r');
    }
  }

  lemma ReceiverStepFalls(w: World, g: Sys, r': R.State, removed: nat)
    requires WellFormed(w, g) && removed <= |g.toR.inbox|
    requires ReceiverPays(g.r, r') || (removed == 1 && ReceiverStays(g.r, r'))
    ensures Falls(w, g, ReceiverMoves(g, r', removed))
  {
    hide SenderSteps, S.WellFormed, R.WellFormed;
  }

  lemma ReceiverFalls(w: World, g: Sys, a: Action, g': Sys)
    requires WellFormed(w, g) && Enabled(w, g, a) && (a.ReceiverTakes? || a.ReceiverCancelled?)
    requires g' == Apply(w, g, a)
    ensures Falls(w, g, g')
  {
    hide SenderSteps, S.WellFormed, Falls, R.OnMessage, R.IdsKnown;
    if a.ReceiverTakes? {
      var m := g.toR.inbox[0];
      var r' := R.Step(w.RC(), g.r, Message(m), Local(a.fileOk));
      ReceiverMessagePays(w.RC(), g.r, m, Local(a.fileOk), r');
      ReceiverStepFalls(w, g, r', 1);
    } else {
      ReceiverStepFalls(w, g, R.Fail(g.r, ErrContext, Local(true)), 0);
    }
  }

  // ----- Every action -----------------------------------------------------------------------------

  lemma EveryActionFalls(w: World, g: Sys, a: Action)
    requires WellFormed(w, g) && Enabled(w, g, a)
    ensures Falls(w, g, Apply(w, g, a))
  {
    hide SenderSteps, ReceiverSteps, S.WellFormed, R.WellFormed;
    if OfSender(a) {
      hide Falls;
      SenderFalls(w, g, a, Apply(w, g, a));
    } else if a.ReceiverTakes? || a.ReceiverCancelled? {
      hide Falls;
      ReceiverFalls(w, g, a, Apply(w, g, a));
    }
  }

  lemma StepFalls(w: World, g: Sys, g': Sys)
    requires Steps(w, g, g')
    ensures Falls(w, g, g')
  {
    hide Enabled, Apply, Falls;
    var a :| Enabled(w, g, a) && g' == Apply(w, g, a);
    EveryActionFalls(w, g, a);
  }

  ghost predicate StepAt(w: World, run: nat -> Sys, i: nat) {
    Steps(w, run(i), run(i + 1))
  }

  lemma {:induction false} Descend(w: World, run: nat -> Sys, i: nat)
    requires forall j: nat | i <= j :: StepAt(w, run, j)
    ensures false
    decreases Stage(run(i)), if WellFormed(w, run(i)) then Work(w, run(i)) else 0
  {
    hide Steps, Work, Stage, WellFormed;
    assert StepAt(w, run, i);
    StepFalls(w, run(i), run(i + 1));
    Descend(w, run, i + 1);
  }

  /** No infinite sequence of states is joined by steps. */
  lemma NoInfiniteRun(w: World, run: nat -> Sys)
    ensures exists i: nat :: !StepAt(w, run, i)
  {
    if forall i: nat :: StepAt(w, run, i) {
      Descend(w, run, 0);
    }
  }

  // ----- A bound on the length of every run -----------------------------------------------------------

  function AllFileSteps(files: seq<S.File>, i: nat): nat
    decreases |files| - i
  {
    if i >= |files| then 0 else FileSteps(files[i]) + AllFileSteps(files, i + 1)
  }

  lemma {:induction false} FewerFiles(files: seq<S.File>, i: nat, j: nat)
    requires i <= j
    ensures AllFileSteps(files, j) <= AllFileSteps(files, i)
    decreases j - i
  {
    if i < j {
      FewerFiles(files, i + 1, j);
    }
  }

  /** Ascending ids take no more than all the files from the first of them on. */
  lemma {:induction false} StepsBounded(cfg: S.Config, ids: seq<int>, k: nat)
    requires InRange(ids, |cfg.files|) && Ascending(ids) && k < |ids|
    ensures StepsFrom(cfg, ids, k) <= AllFileSteps(cfg.files, ids[k])
    decreases |ids| - k
  {
    if k + 1 < |ids| {
      StepsBounded(cfg, ids, k + 1);
      FewerFiles(cfg.files, ids[k] + 1, ids[k + 1]);
    }
  }

  lemma SenderStepsBounded(w: World, s: S.State)
    requires S.WellFormed(w.SC(), s) && Ascending(s.ids)
    ensures SenderSteps(w, s) <= AllFileSteps(w.files, 0)
  {
    hide Ascending;
    if s.phase.Polling? || s.phase.Reading? || s.phase.AwaitAck? {
      StepsBounded(w.SC(), s.ids, s.k);
      FewerFiles(w.files, 0, s.ids[s.k]);
      assert |Unread(w, s)| <= |S.Current(w.SC(), s).content|;
    }
  }

  /** The ids a receiver works on are in order and in range. */
  lemma IdsInOrder(w: World, f: R.State)
    requires Faithful(w, f) && f.ids != []
    ensures Ascending(f.ids) && InRange(f.ids, |w.files|) && |f.ids| <= |w.files|
  {
    hide S.Metas, R.Judge, Ascending, FaithfulCopy, R.ById;
    R.JudgedIds(w.RC(), f.files);
    forall i | 0 <= i < |f.ids|
      ensures 0 <= f.ids[i] < |w.files|
    {
      KnownIds(w.files, f.ids[i]);
    }
    FullChoiceIsAll(f.ids, |w.files|);
  }

  lemma MachineStepsBounded(w: World, g: Sys)
    requires WellFormed(w, g) && Inv(w, g)
    ensures SenderSteps(w, g.s) <= AllFileSteps(w.files, 0) && ReceiverSteps(g.r) <= 2 * |w.files| + 1
  {
    hide Shape, RS.DirOk, S.WellFormed, R.WellFormed, Flush, Ascending, Link, SenderSteps, ReceiverSteps, AllFileSteps;
    LinkOfInv(w, g);
    FlushExtendsInv(w, g);
    hide Inv;
    var f := Flush(w, g);
    LinkedIds(w, g.s, f);
    ReceiverStepsBounded(g.r);
    if g.s.phase.Polling? || g.s.phase.Reading? || g.s.phase.AwaitAck? {
      SenderStepsBounded(w, g.s);
    } else {
      NoSteps(w, g.s);
    }
  }

  lemma ReceiverStepsBounded(r: R.State)
    requires R.WellFormed(r)
    ensures ReceiverSteps(r) <= 2 * |r.ids| + 1
  {
    hide R.IdsKnown;
  }

  lemma NoSteps(w: World, s: S.State)
    requires S.WellFormed(w.SC(), s) && !s.phase.Polling? && !s.phase.Reading? && !s.phase.AwaitAck?
    ensures SenderSteps(w, s) == 0
  {
  }

  lemma LinkedIds(w: World, s: S.State, f: R.State)
    requires Link(w, s, f)
    ensures |f.ids| <= |w.files|
    ensures s.phase.Polling? || s.phase.Reading? || s.phase.AwaitAck? ==> Ascending(s.ids)
  {
    hide Shape, Faithful, Ascending, Synced, S.Sendable;
    if f.ids != [] {
      IdsInOrder(w, f);
    } else {
      NothingInOrder();
    }
  }

  lemma NothingInOrder()
    ensures Ascending([])
  {
  }

  /** More than the work can grow when a stage is left. */
  function StageWorth(w: World): nat {
    8 * AllFileSteps(w.files, 0) + 8 * (2 * |w.files| + 1) + 6
  }

  function Potential(w: World, g: Sys): nat
    requires WellFormed(w, g)
  {
    Stage(g) * StageWorth(w) + Work(w, g)
  }

  /** Every step of a reachable state costs at least one. */
  lemma PotentialFalls(w: World, g: Sys, g': Sys)
    requires Inv(w, g) && Steps(w, g, g')
    ensures WellFormed(w, g) && WellFormed(w, g') && Inv(w, g') && Potential(w, g') < Potential(w, g)
  {
    hide SenderSteps, ReceiverSteps, Messages, S.WellFormed, R.WellFormed, Enabled, Apply, StageWorth, AllFileSteps;
    StepFalls(w, g, g');
    StepKeepsInv(w, g, g');
    hide Inv;
    MachineStepsBounded(w, g');
    WorthEnough(w, g, g');
  }

  lemma StepKeepsInv(w: World, g: Sys, g': Sys)
    requires Inv(w, g) && Steps(w, g, g')
    ensures WellFormed(w, g) && WellFormed(w, g') && Inv(w, g')
  {
    hide Inv, Enabled, Apply;
    var a :| Enabled(w, g, a) && g' == Apply(w, g, a);
    ActionKeepsInv(w, g, a);
  }

  lemma WorthEnough(w: World, g: Sys, g': Sys)
    requires Falls(w, g, g')
    requires SenderSteps(w, g'.s) <= AllFileSteps(w.files, 0) && ReceiverSteps(g'.r) <= 2 * |w.files| + 1
    ensures Potential(w, g') < Potential(w, g)
  {
    hide SenderSteps, ReceiverSteps, AllFileSteps, S.WellFormed, R.WellFormed;
    var n, m, worth := Stage(g), Stage(g'), StageWorth(w);
    if m < n {
      assert Work(w, g') < Work(w, g) + worth;
      hide Work, StageWorth, Stage, Messages;
      FewerStages(m, n, worth);
    }
  }

  lemma FewerStages(m: nat, n: nat, worth: nat)
    requires m < n
    ensures m * worth + worth <= n * worth
  {
    assert (m + 1) * worth <= n * worth;
  }

  ghost predicate Joined(w: World, tail: seq<Sys>) {
    tail != [] && forall i | 0 <= i < |tail| - 1 :: Steps(w, tail[i], tail[i + 1])
  }

  lemma {:induction false} TailFalls(w: World, tail: seq<Sys>, i: nat)
    requires Joined(w, tail) && Inv(w, tail[0]) && i < |tail|
    ensures WellFormed(w, tail[0]) && WellFormed(w, tail[i]) && Inv(w, tail[i])
    ensures Potential(w, tail[i]) + i <= Potential(w, tail[0])
  {
    hide Steps, Potential, WellFormed;
    InvWellFormed(w, tail[0]);
    hide Inv;
    if i > 0 {
      TailFalls(w, tail, i - 1);
      assert Steps(w, tail[i - 1], tail[i - 1 + 1]);
      PotentialFalls(w, tail[i - 1], tail[i]);
    }
  }

  lemma InvWellFormed(w: World, g: Sys)
    requires Inv(w, g)
    ensures WellFormed(w, g)
  {
  }

  /** The most steps a run can have, cancellations and faults included. */
  function LongestRun(w: World): nat {
    6 * StageWorth(w)
  }

  /** Every run is shorter than a number known from the files. */
  lemma RunsAreBounded(w: World, run: seq<Sys>)
    requires IsRun(w, run)
    ensures |run| - 1 <= LongestRun(w)
  {
    hide Steps, Inv, StageWorth;
    InitialInv(w);
    assert Joined(w, run);
    TailFalls(w, run, |run| - 1);
    assert Work(w, Initial(w)) == 0 && Stage(Initial(w)) == 6;
  }

  predicate Usual(a: Action, dirOk: bool) {
    if a.ReceiverBegins? then a.fileOk == dirOk else Ordinary(a)
  }

  /** A run that goes on by ordinary actions alone; the directory works or not, as given. */
  ghost predicate GoesOn(w: World, dirOk: bool, g: Sys, g': Sys) {
    && WellFormed(w, g)
    && exists a :: Usual(a, dirOk) && Enabled(w, g, a) && g' == Apply(w, g, a)
  }

  ghost predicate Continuation(w: World, dirOk: bool, tail: seq<Sys>) {
    tail != [] && forall i | 0 <= i < |tail| - 1 :: GoesOn(w, dirOk, tail[i], tail[i + 1])
  }

  lemma GoesOnSteps(w: World, dirOk: bool, g: Sys, g': Sys)
    requires GoesOn(w, dirOk, g, g')
    ensures Steps(w, g, g') && StepsWith(w, dirOk, g, g')
  {
    hide Enabled, Apply;
  }

  lemma {:induction false} TailReachable(w: World, dirOk: bool, tail: seq<Sys>, i: nat)
    requires Continuation(w, dirOk, tail) && ReachableWith(w, dirOk, tail[0]) && i < |tail|
    ensures ReachableWith(w, dirOk, tail[i])
  {
    hide GoesOn, ReachableWith;
    if i > 0 {
      TailReachable(w, dirOk, tail, i - 1);
      assert GoesOn(w, dirOk, tail[i - 1], tail[i - 1 + 1]);
      GoesOnSteps(w, dirOk, tail[i - 1], tail[i]);
      NextReachable(w, dirOk, tail[i - 1], tail[i]);
    }
  }

  /**
   * From every reachable state, whoever was cancelled or failed before: with both sides willing or both
   * refusing, a continuation by ordinary actions alone is no longer than the potential of the state it
   * starts in, and where no ordinary action extends it, both sides have returned.
   */
  lemma ContinuationsEnd(w: World, dirOk: bool, tail: seq<Sys>)
    requires Continuation(w, dirOk, tail) && ReachableWith(w, dirOk, tail[0]) && (S.Sendable(w.files) <==> dirOk)
    ensures WellFormed(w, tail[0]) && |tail| - 1 <= Potential(w, tail[0])
    ensures Quiet(w, tail[|tail| - 1]) ==> BothReturned(tail[|tail| - 1])
  {
    hide GoesOn, ReachableWith, Inv, Potential, Quiet, WellFormed, S.Sendable;
    forall i | 0 <= i < |tail| - 1
      ensures Steps(w, tail[i], tail[i + 1])
    {
      assert GoesOn(w, dirOk, tail[i], tail[i + 1]);
      GoesOnSteps(w, dirOk, tail[i], tail[i + 1]);
    }
    ReachableAnyway(w, dirOk, tail[0]);
    ReachableInv(w, tail[0]);
    TailFalls(w, tail, |tail| - 1);
    TailReachable(w, dirOk, tail, |tail| - 1);
    if Quiet(w, tail[|tail| - 1]) {
      QuietMeansReturned(w, dirOk, tail[|tail| - 1]);
    }
  }

  /** A state that is not quiet can go on. */
  lemma NotQuietGoesOn(w: World, dirOk: bool, g: Sys)
    requires WellFormed(w, g) && !Quiet(w, g)
    ensures exists next :: GoesOn(w, dirOk, g, next)
  {
    hide Apply;
    var a :| Ordinary(a) && !(a.SenderReads? && MayBeAsleep(g)) && Enabled(w, g, a);
    var usual := if a.ReceiverBegins? then ReceiverBegins(dirOk) else a;
    assert Enabled(w, g, usual);
    assert GoesOn(w, dirOk, g, Apply(w, g, usual));
  }
}
