/** No side is left waiting: the message that ends it is on its way, something can always move, and every run ends. */
module JointLiveness {
  import opened Protocol
  import opened Directory
  import opened Acceptance
  import opened Session
  import opened Recogniser
  import opened ReceiverReplies
  import S = Sender
  import R = Receiver
  import RS = ReceiverSafety
  import opened Joint
  import Flow
  import opened JointLink
  import opened JointInvariant
  import opened JointRuns
  import opened JointOutcomes

  // ----- The message that ends the other side -------------------------------------------------------

  /** The side returned before it took over the channel: an unsendable file list, an unusable directory. */
  predicate SenderNeverOpened(g: Sys) {
    g.s.phase == S.Returned(Failed(NotOpened))
  }

  predicate ReceiverNeverOpened(g: Sys) {
    g.r.phase == R.Returned(Failed(NotOpened))
  }

  /** The messages, one per step, each step with its own file fault or none. */
  function Delivered(msgs: seq<Msg>, faults: seq<bool>): (ins: seq<R.Input>)
    requires |faults| == |msgs|
    ensures |ins| == |msgs|
  {
    seq(|msgs|, i requires 0 <= i < |msgs| => R.Input(Message(msgs[i]), Local(faults[i])))
  }

  /** File faults can only end a receiver sooner. */
  lemma {:induction false} FaultsEndSooner(cfg: R.Config, r: R.State, msgs: seq<Msg>, faults: seq<bool>)
    requires R.WellFormed(r) && |faults| == |msgs| && !r.phase.Idle?
    requires Feed(cfg, r, msgs).phase.Returned?
    ensures R.Run(cfg, r, Delivered(msgs, faults)).phase.Returned?
    decreases |msgs|
  {
    hide R.WellFormed, R.Step;
    if r.phase.Returned? {
      R.RunReturned(cfg, r, Delivered(msgs, faults));
    } else {
      var ins := Delivered(msgs, faults);
      assert ins[1..] == Delivered(msgs[1..], faults[1..]);
      FaultOrNot(cfg, r, msgs[0]);
      NotIdleAgain(cfg, r, Message(msgs[0]), OK);
      var r' := R.Step(cfg, r, Message(msgs[0]), Local(faults[0]));
      if r'.phase.Returned? {
        R.RunReturned(cfg, r', ins[1..]);
      } else {
        FaultsEndSooner(cfg, r', msgs[1..], faults[1..]);
      }
    }
  }

  /**
   * Once Send has returned, a started receiver has returned or what is in flight towards it makes it
   * return, whatever its file operations do. The one exception is a sender that never opened.
   */
  lemma SenderEndsReceiver(w: World, g: Sys, faults: seq<bool>)
    requires Reachable(w, g) && g.s.phase.Returned? && !g.r.phase.Idle?
    requires |faults| == |g.toR.Queue()|
    ensures WellFormed(w, g)
    ensures !SenderNeverOpened(g) ==> R.Run(w.RC(), g.r, Delivered(g.toR.Queue(), faults)).phase.Returned?
  {
    hide Shape, Feed, S.WellFormed, RS.DirOk, IsRun, Faithful, Reachable, R.WellFormed, R.Run;
    ReachableInv(w, g);
    LinkOfInv(w, g);
    hide Inv;
    if !SenderNeverOpened(g) {
      FaultsEndSooner(w.RC(), g.r, g.toR.Queue(), faults);
    }
  }

  /** The message that ends the sender from the state it is in, or the one it will then be in. */
  predicate EndsSender(s: S.State, m: Msg) {
    IsTerminal(m) || (m == Text(Reject) && (s.phase.AwaitHello? || s.phase.AwaitReply?))
  }

  /**
   * Once Receive has returned and was not refused its directory, a running sender has at the end of its
   * queue the message that ends it.
   */
  lemma ReceiverEndsSender(w: World, g: Sys)
    requires Reachable(w, g) && g.r.phase.Returned? && !ReceiverNeverOpened(g)
    requires !g.s.phase.Returned? && !g.s.phase.Idle?
    ensures var queue := g.toS.Queue(); queue != [] && EndsSender(g.s, queue[|queue| - 1])
  {
    hide Feed, S.WellFormed, RS.DirOk, IsRun, Reachable, R.WellFormed, Flush, Link, Shape, DeliveredOk;
    ReachableInv(w, g);
    ReturnedIsFlush(w, g);
    hide Inv;
    LastIsFinal(w, g.s, g.r);
  }

  lemma LastIsFinal(w: World, s: S.State, f: R.State)
    requires Link(w, s, f) && f.phase.Returned? && f.phase != R.Returned(Failed(NotOpened))
    requires !s.phase.Returned? && !s.phase.Idle?
    ensures Taken(s) < |f.core.out| && EndsSender(s, f.core.out[|f.core.out| - 1])
  {
    hide S.WellFormed, S.Sendable, R.WellFormed, R.Judge, Replies, SomeFileGrew, FaithfulCopy;
    LinkFacts(w, s, f);
    assert Shape(f);
    hide Link, Faithful, Synced;
    OneLastWord(f);
    hide LastWords;
    RepliesTaken(s, f);
  }

  lemma OneLastWord(f: R.State)
    requires Shape(f) && Failing(f)
    requires f.phase != R.Returned(Failed(NotOpened)) && f.phase != R.Returned(Failed(ErrHashMismatch))
    ensures |LastWords(f)| == 1 && f.core.out == Replies(f) + LastWords(f)
    ensures IsTerminal(LastWords(f)[0]) || (LastWords(f)[0] == Text(Reject) && f.ids == [])
  {
    hide R.WellFormed, Replies;
  }

  lemma RepliesTaken(s: S.State, f: R.State)
    requires Counts(s, f) && !s.phase.Returned? && (f.kept != [] ==> f.ids != [])
    requires !s.phase.Idle? && !s.phase.AwaitHello? && !s.phase.AwaitReply? ==> f.ids != []
    ensures Taken(s) <= |Replies(f)|
  {
  }

  /** A reject or terminal message at the head of the sender's queue ends it, now or at its next poll. */
  lemma EndsWhenTaken(cfg: S.Config, s: S.State, m: Msg, inp: S.Input)
    requires S.WellFormed(cfg, s) && s.pending == [] && EndsSender(s, m)
    requires (S.Waiting(s) && inp.arrival == Message(m)) || (s.phase.Polling? && (inp.ctxDone || inp.found == Some(m)))
    ensures S.Step(cfg, s, inp).phase.Returned?
  {
    hide Resolve, S.Metas;
  }

  // ----- Something can always move ------------------------------------------------------------------

  /** Actions that are neither a cancellation nor a local fault. */
  predicate Ordinary(a: Action) {
    match a
    case SenderBegins => true
    case SenderTakes(fileOk) => fileOk
    case SenderPolls => true
    case SenderReads(_) => true
    case SenderReachesEof => true
    case ReceiverBegins(fileOk) => fileOk
    case ReceiverTakes(fileOk) => fileOk
    case PumpToSender => true
    case PumpToReceiver => true
    case _ => false
  }

  /** The writer may be asleep: it was put to sleep above the high mark and is not yet at the low mark. */
  predicate MayBeAsleep(g: Sys) {
    Buffered(g.toR.wire) > Flow.LOW
  }

  /** Nothing but cancellations and local faults can happen, a sleeping writer not being counted on. */
  ghost predicate Quiet(w: World, g: Sys) {
    && WellFormed(w, g)
    && forall a | Ordinary(a) && !(a.SenderReads? && MayBeAsleep(g)) :: !Enabled(w, g, a)
  }

  lemma QuietQueues(w: World, g: Sys)
    requires WellFormed(w, g) && Quiet(w, g) && |g.toS.inbox| <= INBOX_CAPACITY
    ensures g.s.phase.Returned? || (S.Waiting(g.s) && g.toS.Queue() == [])
    ensures g.r.phase.Returned? || (R.Waiting(g.r) && g.toR.Queue() == [])
  {
    hide S.WellFormed, R.WellFormed;
    assert !Enabled(w, g, SenderBegins) && !Enabled(w, g, SenderPolls);
    assert !Enabled(w, g, SenderTakes(true)) && !Enabled(w, g, SenderReachesEof);
    assert !Enabled(w, g, PumpToSender) && !Enabled(w, g, PumpToReceiver);
    assert !Enabled(w, g, ReceiverBegins(true)) && !Enabled(w, g, ReceiverTakes(true));
    assert g.toR.wire == [];
    assert !MayBeAsleep(g);
    assert !Enabled(w, g, SenderReads(1));
  }

  /** With both queues empty no side can be waiting for the other, unless the other never opened. */
  lemma NobodyWaits(w: World, g: Sys)
    requires Reachable(w, g)
    requires g.s.phase.Returned? || (S.Waiting(g.s) && g.toS.Queue() == [])
    requires g.r.phase.Returned? || (R.Waiting(g.r) && g.toR.Queue() == [])
    ensures (g.s.phase.Returned? && g.r.phase.Returned?) || SenderNeverOpened(g) || ReceiverNeverOpened(g)
  {
    hide S.WellFormed, RS.DirOk, IsRun, Reachable, R.WellFormed, Link, Shape, DeliveredOk;
    ReachableInv(w, g);
    if g.r.phase.Returned? {
      ReturnedIsFlush(w, g);
      hide Inv, QueueOk;
      if !g.s.phase.Returned? && !ReceiverNeverOpened(g) {
        ReceiverEndsSender(w, g);
      }
    } else {
      LinkOfInv(w, g);
      assert Flush(w, g) == g.r;
      hide Inv, Flush;
      if g.s.phase.Returned? {
        EndedEnds(w, g.s, g.r);
      } else {
        assert Taken(g.s) == |g.r.core.out|;
        SomethingToTake(w, g.s, g.r);
      }
    }
  }

  lemma EndedEnds(w: World, s: S.State, f: R.State)
    requires Link(w, s, f) && s.phase.Returned? && !f.phase.Returned?
    ensures s.phase == S.Returned(Failed(NotOpened))
  {
    hide Faithful, Shape;
  }

  lemma SomethingToTake(w: World, s: S.State, f: R.State)
    requires Link(w, s, f) && S.Waiting(s) && R.Waiting(f)
    ensures Taken(s) < |f.core.out|
  {
    hide Faithful, Shape, S.Sendable;
    MoreToSay(w, s, f);
  }

  /** A reachable state in which nothing but a cancellation can happen is one in which both sides are done. */
  lemma SomethingCanMove(w: World, g: Sys)
    requires Reachable(w, g) && Quiet(w, g)
    ensures (g.s.phase.Returned? && g.r.phase.Returned?) || SenderNeverOpened(g) || ReceiverNeverOpened(g)
  {
    hide IsRun, Reachable, Link, Shape, RS.DirOk;
    ReachableInv(w, g);
    hide Inv;
    QuietQueues(w, g);
    NobodyWaits(w, g);
  }

  // ----- Exactly when nobody is left waiting ----------------------------------------------------------

  /** A step of a run in which creating the destination directory works or does not, as given. */
  ghost predicate StepsWith(w: World, dirOk: bool, g: Sys, g': Sys) {
    && WellFormed(w, g)
    && exists a :: Enabled(w, g, a) && (a.ReceiverBegins? ==> a.fileOk == dirOk) && g' == Apply(w, g, a)
  }

  ghost predicate IsRunWith(w: World, dirOk: bool, run: seq<Sys>) {
    && run != [] && run[0] == Initial(w)
    && forall i | 0 <= i < |run| - 1 :: StepsWith(w, dirOk, run[i], run[i + 1])
  }

  ghost predicate ReachableWith(w: World, dirOk: bool, g: Sys) {
    exists run :: IsRunWith(w, dirOk, run) && g == run[|run| - 1]
  }

  predicate BothReturned(g: Sys) {
    g.s.phase.Returned? && g.r.phase.Returned?
  }

  lemma ReachableAnyway(w: World, dirOk: bool, g: Sys)
    requires ReachableWith(w, dirOk, g)
    ensures Reachable(w, g)
  {
    hide Enabled, Apply;
    var run :| IsRunWith(w, dirOk, run) && g == run[|run| - 1];
    forall i | 0 <= i < |run| - 1
      ensures Steps(w, run[i], run[i + 1])
    {
      assert StepsWith(w, dirOk, run[i], run[i + 1]);
    }
    assert IsRun(w, run);
  }

  lemma StartReachable(w: World, dirOk: bool)
    ensures ReachableWith(w, dirOk, Initial(w))
  {
    var run := [Initial(w)];
    assert IsRunWith(w, dirOk, run) && Initial(w) == run[|run| - 1];
  }

  lemma NextReachable(w: World, dirOk: bool, g: Sys, g': Sys)
    requires ReachableWith(w, dirOk, g) && StepsWith(w, dirOk, g, g')
    ensures ReachableWith(w, dirOk, g')
  {
    hide StepsWith;
    var run :| IsRunWith(w, dirOk, run) && g == run[|run| - 1];
    var longer := run + [g'];
    assert IsRunWith(w, dirOk, longer) && g' == longer[|longer| - 1];
  }

  /** A running receiver never ends as one that could not open. */
  lemma OnlyStartRefuses(cfg: R.Config, r: R.State, a: Arrival, io: Io)
    requires R.WellFormed(r) && R.Waiting(r)
    ensures R.Step(cfg, r, a, io).phase != R.Returned(Failed(NotOpened)) && !R.Step(cfg, r, a, io).phase.Idle?
  {
    hide R.Judge, R.ById, Dest, Sanitize, EqualFold, R.IdsKnown, R.OnControl;
    assert forall x: R.State, e: Failure :: R.Fail(x, e, io).phase == R.Returned(Failed(e));
    if a.Message? && a.m.Text? {
      OnlyStartRefusesControl(cfg, r, a.m.control, io);
    }
  }

  lemma OnlyStartRefusesControl(cfg: R.Config, r: R.State, c: Control, io: Io)
    requires R.WellFormed(r) && R.Waiting(r)
    ensures var r' := R.OnControl(cfg, r, c, io); r'.phase != R.Returned(Failed(NotOpened)) && !r'.phase.Idle?
  {
    hide R.ValidManifest, ValidChoice, Sort, R.ById, Dest, Sanitize, EqualFold, R.IdsKnown;
  }

  /** Nor a running sender. */
  lemma OnlyStartRefusesFiles(cfg: S.Config, s: S.State, inp: S.Input)
    requires S.WellFormed(cfg, s) && !s.phase.Idle? && !s.phase.Returned?
    ensures S.Step(cfg, s, inp).phase != S.Returned(Failed(NotOpened)) && !S.Step(cfg, s, inp).phase.Idle?
  {
    hide S.OnControl, S.OnRead;
    assert forall x: S.State, e: Failure :: S.Fail(x, e, inp.io).phase == S.Returned(Failed(e));
    if s.phase.Reading? {
      OnlyStartRefusesRead(cfg, s, inp);
    } else if S.Waiting(s) {
      if s.pending != [] {
        OnlyStartRefusesMessage(cfg, s.(pending := s.pending[1..]), s.pending[0], inp.io);
      } else if inp.arrival.Message? {
        OnlyStartRefusesMessage(cfg, s, inp.arrival.m, inp.io);
      }
    }
  }

  lemma OnlyStartRefusesRead(cfg: S.Config, s: S.State, inp: S.Input)
    requires S.WellFormed(cfg, s) && s.phase.Reading?
    ensures var s' := S.OnRead(cfg, s, inp.read, inp.ctxDone, inp.io);
            s'.phase != S.Returned(Failed(NotOpened)) && !s'.phase.Idle?
  {
  }

  lemma OnlyStartRefusesMessage(cfg: S.Config, s: S.State, m: Msg, io: Io)
    requires S.WellFormed(cfg, s) && S.Waiting(s)
    ensures var s' := S.OnMessage(cfg, s, m, io); s'.phase != S.Returned(Failed(NotOpened)) && !s'.phase.Idle?
  {
    hide Resolve, S.Metas;
  }

  /** Which side was refused is what the run was given. */
  ghost predicate AsGiven(w: World, dirOk: bool, g: Sys) {
    && (g.s.phase.Idle? || (SenderNeverOpened(g) <==> !S.Sendable(w.files)))
    && (g.r.phase.Idle? || (ReceiverNeverOpened(g) <==> !dirOk))
  }

  lemma StepAsGiven(w: World, dirOk: bool, g: Sys, g': Sys)
    requires StepsWith(w, dirOk, g, g') && AsGiven(w, dirOk, g)
    ensures AsGiven(w, dirOk, g')
  {
    hide S.WellFormed, R.WellFormed, R.Step, S.Step, SenderInput, S.Sendable;
    var a :| Enabled(w, g, a) && (a.ReceiverBegins? ==> a.fileOk == dirOk) && g' == Apply(w, g, a);
    ActionAsGiven(w, dirOk, g, a);
  }

  lemma ActionAsGiven(w: World, dirOk: bool, g: Sys, a: Action)
    requires WellFormed(w, g) && Enabled(w, g, a) && (a.ReceiverBegins? ==> a.fileOk == dirOk) && AsGiven(w, dirOk, g)
    ensures AsGiven(w, dirOk, Apply(w, g, a))
  {
    hide S.WellFormed, R.WellFormed, R.Step, S.Step, SenderInput, S.Sendable;
    if a.ReceiverTakes? {
      OnlyStartRefuses(w.RC(), g.r, Message(g.toR.inbox[0]), Local(a.fileOk));
    } else if a.ReceiverCancelled? {
      OnlyStartRefuses(w.RC(), g.r, CtxDone, Local(true));
    } else if OfSender(a) {
      OnlyStartRefusesFiles(w.SC(), g.s, SenderInput(w, g, a));
    }
  }

  lemma {:induction false} RunAsGiven(w: World, dirOk: bool, run: seq<Sys>, i: nat)
    requires IsRunWith(w, dirOk, run) && i < |run|
    ensures AsGiven(w, dirOk, run[i])
  {
    if i > 0 {
      hide StepsWith;
      RunAsGiven(w, dirOk, run, i - 1);
      assert StepsWith(w, dirOk, run[i - 1], run[i - 1 + 1]);
      StepAsGiven(w, dirOk, run[i - 1], run[i]);
    }
  }

  lemma ReachedAsGiven(w: World, dirOk: bool, g: Sys)
    requires ReachableWith(w, dirOk, g)
    ensures AsGiven(w, dirOk, g)
  {
    hide StepsWith;
    var run :| IsRunWith(w, dirOk, run) && g == run[|run| - 1];
    RunAsGiven(w, dirOk, run, |run| - 1);
  }

  lemma FourSteps(w: World, dirOk: bool, a: Action, b: Action, c: Action, g1: Sys, g2: Sys, g3: Sys)
    requires Enabled(w, Initial(w), a) && g1 == Apply(w, Initial(w), a)
    requires Enabled(w, g1, b) && g2 == Apply(w, g1, b)
    requires Enabled(w, g2, c) && g3 == Apply(w, g2, c)
    requires (a.ReceiverBegins? ==> a.fileOk == dirOk) && (b.ReceiverBegins? ==> b.fileOk == dirOk)
    requires c.ReceiverBegins? ==> c.fileOk == dirOk
    ensures ReachableWith(w, dirOk, g3)
  {
    hide Apply, Enabled, ReachableWith;
    StartReachable(w, dirOk);
    NextReachable(w, dirOk, Initial(w), g1);
    NextReachable(w, dirOk, g1, g2);
    NextReachable(w, dirOk, g2, g3);
  }

  ghost predicate Stuck(w: World, g: Sys) {
    Quiet(w, g) && (S.Waiting(g.s) || R.Waiting(g.r))
  }

  lemma NothingToDo(w: World, g: Sys)
    requires WellFormed(w, g) && g.toR.Queue() == [] && g.toS.Queue() == [] && g.s.pending == []
    requires (g.s.phase.Returned? || S.Waiting(g.s)) && (g.r.phase.Returned? || R.Waiting(g.r))
    ensures Quiet(w, g)
  {
    hide S.WellFormed, R.WellFormed;
    assert g.toR.inbox == g.toR.wire == g.toS.inbox == g.toS.wire == [];
  }

  /** Send refuses a file list without telling anyone: the receiver is left waiting for hello. */
  lemma UnsendableLeavesReceiverWaiting(w: World)
    requires !S.Sendable(w.files)
    ensures exists g :: ReachableWith(w, true, g) && Stuck(w, g) && SenderNeverOpened(g)
  {
    hide S.Sendable, ReachableWith;
    var g1 := Apply(w, Initial(w), SenderBegins);
    var g2 := Apply(w, g1, ReceiverBegins(true));
    var g3 := Apply(w, g2, PumpToSender);
    FourSteps(w, true, SenderBegins, ReceiverBegins(true), PumpToSender, g1, g2, g3);
    assert g3.toR.Queue() == [] && g3.toS.Queue() == [] && SenderNeverOpened(g3);
    hide Apply;
    NothingToDo(w, g3);
    assert Stuck(w, g3);
  }

  /** Receive cannot use its directory: the sender is left waiting for hello. */
  lemma UnusableDirectoryLeavesSenderWaiting(w: World)
    requires S.Sendable(w.files)
    ensures exists g :: ReachableWith(w, false, g) && Stuck(w, g) && ReceiverNeverOpened(g)
  {
    hide S.Sendable, ReachableWith;
    var g1 := Apply(w, Initial(w), SenderBegins);
    var g2 := Apply(w, g1, ReceiverBegins(false));
    var g3 := Apply(w, g2, PumpToReceiver);
    FourSteps(w, false, SenderBegins, ReceiverBegins(false), PumpToReceiver, g1, g2, g3);
    assert g3.toR.Queue() == [] && g3.toS.Queue() == [] && ReceiverNeverOpened(g3);
    hide Apply;
    NothingToDo(w, g3);
    assert Stuck(w, g3);
  }

  /** With both sides willing, or both refusing, a state in which nothing can move has both returned. */
  lemma QuietMeansReturned(w: World, dirOk: bool, g: Sys)
    requires ReachableWith(w, dirOk, g) && Quiet(w, g) && (S.Sendable(w.files) <==> dirOk)
    ensures BothReturned(g)
  {
    hide ReachableWith, Reachable, S.Sendable;
    ReachableAnyway(w, dirOk, g);
    ReachedAsGiven(w, dirOk, g);
    NoOneIdle(w, g);
    SomethingCanMove(w, g);
  }

  lemma NoOneIdle(w: World, g: Sys)
    requires Quiet(w, g)
    ensures !g.s.phase.Idle? && !g.r.phase.Idle?
  {
    assert !Enabled(w, g, SenderBegins) && !Enabled(w, g, ReceiverBegins(true));
  }

  ghost predicate NobodyLeftWaiting(w: World, dirOk: bool) {
    forall g | ReachableWith(w, dirOk, g) && Quiet(w, g) :: BothReturned(g)
  }

  /**
   * No side is ever left waiting if and only if Send accepts its file list and Receive its directory, or
   * both refuse: a condition on the inputs of the two calls.
   */
  lemma NobodyLeftWaitingIff(w: World, dirOk: bool)
    ensures NobodyLeftWaiting(w, dirOk) <==> (S.Sendable(w.files) <==> dirOk)
  {
    hide ReachableWith, Quiet, S.Sendable;
    if S.Sendable(w.files) <==> dirOk {
      forall g | ReachableWith(w, dirOk, g) && Quiet(w, g)
        ensures BothReturned(g)
      {
        QuietMeansReturned(w, dirOk, g);
      }
    } else if dirOk {
      UnsendableLeavesReceiverWaiting(w);
    } else {
      UnusableDirectoryLeavesSenderWaiting(w);
    }
  }
}
