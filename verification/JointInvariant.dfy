/** The joint invariant and its preservation by every action. */
module JointInvariant {
  import opened Protocol
  import opened Directory
  import opened Acceptance
  import opened Session
  import opened Recogniser
  import opened ReceiverReplies
  import S = Sender
  import R = Receiver
  import RS = ReceiverSafety
  import opened Joint
  import opened JointLink
  import opened JointReceiver
  import opened JointSender

  /** The receiver as if already begun: beginning needs nothing from the sender. */
  function Begun(r: R.State): R.State {
    if r.phase.Idle? then R.Start(r, OK) else r
  }

  /** The receiver once it has taken everything in flight towards it. */
  ghost function Flush(w: World, g: Sys): (f: R.State)
    requires WellFormed(w, g)
    ensures R.WellFormed(f)
  {
    Feed(w.RC(), Begun(g.r), g.toR.Queue())
  }

  /** The sender's queue is exactly what the receiver said and the sender has not taken. */
  ghost predicate QueueOk(g: Sys) {
    !g.s.phase.Returned? ==> Taken(g.s) <= |g.r.core.out| && g.toS.Queue() == g.r.core.out[Taken(g.s)..]
  }

  ghost predicate DeliveredOk(g: Sys) {
    && (g.s.phase == S.Returned(Nil) ==> g.r.ids == g.s.ids && |g.r.kept| == |g.r.ids|)
    && (g.s.core.out == [] ==> g.toR.Queue() == [])
    && |g.toS.inbox| <= INBOX_CAPACITY && |g.toR.inbox| <= INBOX_CAPACITY
  }

  ghost predicate Inv(w: World, g: Sys) {
    && WellFormed(w, g)
    && Shape(g.r) && (g.r.phase.Idle? ==> g.r == R.Init(w.dir))
    && Link(w, g.s, Flush(w, g))
    && QueueOk(g) && DeliveredOk(g)
    && RS.DirOk(w.RC(), w.dir, g.r)
  }

  // ----- The beginning --------------------------------------------------------------------------

  lemma InitialInv(w: World)
    ensures Inv(w, Initial(w))
  {
    hide S.Sendable;
    var g := Initial(w);
    var f := R.Start(R.Init(w.dir), OK);
    FeedNothing(w.RC(), f);
    assert Flush(w, g) == f;
    assert Replies(f) == [Text(Hello(VERSION))] && LastWords(f) == [];
    assert g.r.core.out[Taken(g.s)..] == [];
  }

  // ----- Facts about the flush ------------------------------------------------------------------

  lemma FlushExtends(w: World, g: Sys)
    requires WellFormed(w, g) && (g.r.phase.Idle? ==> g.r == R.Init(w.dir))
    ensures Extends(g.r, Flush(w, g))
  {
    hide Feed;
    FeedExtends(w.RC(), Begun(g.r), g.toR.Queue());
  }

  lemma FlushPost(w: World, g: Sys, g': Sys, msgs: seq<Msg>)
    requires WellFormed(w, g) && WellFormed(w, g')
    requires g'.r == g.r && g'.toR.Queue() == g.toR.Queue() + msgs
    ensures Flush(w, g') == Feed(w.RC(), Flush(w, g), msgs)
  {
    FeedConcat(w.RC(), Begun(g.r), g.toR.Queue(), msgs);
  }

  // ----- Pumping --------------------------------------------------------------------------------

  lemma PumpKeepsQueue(m: Mail)
    requires m.wire != []
    ensures Pump(m, false).Queue() == m.Queue()
  {
    assert m.wire == [m.wire[0]] + m.wire[1..];
  }

  lemma PumpKeepsInv(w: World, g: Sys, a: Action)
    requires WellFormed(w, g) && Inv(w, g) && Enabled(w, g, a) && (a.PumpToSender? || a.PumpToReceiver?)
    ensures Inv(w, Apply(w, g, a))
  {
    hide Link, Shape, RS.DirOk, Feed, S.WellFormed, R.WellFormed;
    var g' := Apply(w, g, a);
    if a.PumpToSender? {
      PumpKeepsQueue(g.toS);
    } else {
      PumpKeepsQueue(g.toR);
      if g.r.phase.Returned? {
        FeedReturned(w.RC(), g.r, g.toR.Queue());
        FeedReturned(w.RC(), g.r, g'.toR.Queue());
      }
    }
    assert Flush(w, g') == Flush(w, g);
  }

  // ----- The receiver moves ---------------------------------------------------------------------

  /** A receiver that gives up keeps the link: it is now its own flush. */
  lemma ReceiverFails(w: World, s: S.State, f: R.State, r: R.State, e: Failure, io: Io, r': R.State)
    requires Link(w, s, f) && Extends(r, f) && Shape(r) && R.Waiting(r) && Sends(io)
    requires e == ErrFile || e == ErrContext
    requires r' == R.Fail(r, e, io) && Shape(r')
    requires !s.phase.Returned? ==> Taken(s) <= |r.core.out|
    requires s.phase == S.Returned(Nil) ==> r.ids == s.ids && |r.kept| == |r.ids|
    ensures Link(w, s, r')
  {
    hide Shape, R.WellFormed, S.WellFormed, SenderOk, SomeSizeWrong, S.Sendable;
    assert Faithful(w, f) && f.phase != R.Returned(Failed(ErrHashMismatch));
    RepliesCount(r);
    FaithfulPrefix(w, f, r, r');
    hide Faithful, Replies, FaithfulCopy, SomeFileGrew, LastWords;
    if s.phase.Returned? {
      assert Ended(w, s, r');
    } else {
      CountsStay(s, f, r, r');
    }
  }

  /** How many messages a running receiver has sent tells how far it has come. */
  lemma RepliesCount(r: R.State)
    requires Shape(r) && R.Waiting(r)
    ensures |r.core.out| == if r.ids == [] then 1 else 2 + |r.kept|
    ensures r.kept != [] ==> r.ids != []
  {
    hide R.WellFormed;
  }

  lemma CountsStay(s: S.State, f: R.State, r: R.State, r': R.State)
    requires Counts(s, f) && Extends(r, f) && !s.phase.Returned?
    requires Taken(s) <= |r.core.out|
    requires |r.core.out| == if r.ids == [] then 1 else 2 + |r.kept|
    requires r.kept != [] ==> r.ids != []
    requires r'.ids == r.ids && r'.kept == r.kept
    ensures Counts(s, r')
  {
  }

  lemma FaithfulPrefix(w: World, f: R.State, r: R.State, r': R.State)
    requires Faithful(w, f) && Extends(r, f) && (r.kept != [] ==> r.ids != [])
    requires r'.ids == r.ids && r'.files == r.files && r'.kept == r.kept
    requires r'.phase == R.Returned(Failed(ErrFile)) || r'.phase == R.Returned(Failed(ErrContext))
    ensures Faithful(w, r')
  {
    hide R.Judge, S.Metas;
    forall i | 0 <= i < |r'.kept|
      ensures FaithfulCopy(w, r', i)
    {
      assert FaithfulCopy(w, f, i);
      assert f.kept[i] == r.kept[i];
    }
  }

  lemma QueueAfterReceiver(g: Sys, r': R.State, removed: nat)
    requires QueueOk(g) && g.r.core.out <= r'.core.out && removed <= |g.toR.inbox|
    ensures QueueOk(ReceiverMoves(g, r', removed))
  {
    var g' := ReceiverMoves(g, r', removed);
    if !g.s.phase.Returned? {
      var c := Taken(g.s);
      var new' := r'.core.out[|g.r.core.out|..];
      assert g'.toS.Queue() == g.toS.Queue() + new';
      assert r'.core.out == g.r.core.out + new';
      assert r'.core.out[c..] == g.r.core.out[c..] + new';
    }
  }

  /** The sender has returned nil or not: what the receiver already holds stays. */
  lemma DeliveredAfterReceiver(g: Sys, r': R.State, removed: nat)
    requires DeliveredOk(g) && Extends(g.r, r') && removed <= |g.toR.inbox|
    requires |r'.kept| <= |r'.ids| && (g.s.phase == S.Returned(Nil) ==> g.r.ids != [])
    ensures DeliveredOk(ReceiverMoves(g, r', removed))
  {
  }

  lemma ReceiverBeginsKeepsInv(w: World, g: Sys, fileOk: bool, r': R.State)
    requires WellFormed(w, g) && Inv(w, g) && g.r.phase.Idle? && r' == R.Start(g.r, Local(fileOk))
    requires g.r.core.out <= r'.core.out
    ensures Inv(w, ReceiverMoves(g, r', 0))
  {
    var g' := ReceiverMoves(g, r', 0);
    assert RS.DirOk(w.RC(), w.dir, r');
    StartShape(g.r, Local(fileOk));
    hide Feed, RS.DirOk;
    QueueAfterReceiver(g, r', 0);
    LinkAtStart(w, g.s, Flush(w, g), r', fileOk);
    if fileOk {
      assert Flush(w, g') == Flush(w, g);
    } else {
      FeedReturned(w.RC(), r', g'.toR.Queue());
    }
    hide Link, Shape;
  }

  /** A receiver that fails before it opens has promised nothing. */
  lemma LinkAtStart(w: World, s: S.State, f: R.State, r': R.State, fileOk: bool)
    requires Link(w, s, f) && r' == R.Start(R.Init(w.dir), Local(fileOk))
    requires !s.phase.Returned? ==> Taken(s) == 0
    requires s.phase != S.Returned(Nil)
    ensures !fileOk ==> Link(w, s, r')
  {
    hide S.Sendable, R.Judge, SomeSizeWrong;
  }

  lemma ReceiverCancelledKeepsInv(w: World, g: Sys, r': R.State)
    requires WellFormed(w, g) && Inv(w, g) && R.Waiting(g.r)
    requires r' == R.Step(w.RC(), g.r, CtxDone, Local(true)) && g.r.core.out <= r'.core.out
    ensures Inv(w, ReceiverMoves(g, r', 0))
  {
    hide Link, Shape, RS.DirOk, R.WellFormed, Flush;
    StepShape(w.RC(), g.r, CtxDone, Local(true));
    RS.StepKeepsDir(w.RC(), w.dir, g.r, CtxDone, Local(true));
    ReceiverFailsInv(w, g, ErrContext, Local(true), r', 0);
  }

  lemma ReceiverFailsInv(w: World, g: Sys, e: Failure, io: Io, r': R.State, removed: nat)
    requires WellFormed(w, g) && Inv(w, g) && R.Waiting(g.r) && Sends(io) && (e == ErrFile || e == ErrContext)
    requires r' == R.Fail(g.r, e, io) && Shape(r') && RS.DirOk(w.RC(), w.dir, r') && R.WellFormed(r')
    requires g.r.core.out <= r'.core.out && removed <= |g.toR.inbox|
    ensures Inv(w, ReceiverMoves(g, r', removed))
  {
    hide Link, Shape, RS.DirOk, Feed;
    var g' := ReceiverMoves(g, r', removed);
    FlushExtends(w, g);
    ReceiverFails(w, g.s, Flush(w, g), g.r, e, io, r');
    FeedReturned(w.RC(), r', g'.toR.Queue());
    QueueAfterReceiver(g, r', removed);
  }

  /** A file fault either plays no part in the step or ends it. */
  lemma FaultOrNot(cfg: R.Config, r: R.State, m: Msg)
    requires R.WellFormed(r) && R.Waiting(r)
    ensures || R.Step(cfg, r, Message(m), Local(false)) == R.Step(cfg, r, Message(m), OK)
            || R.Step(cfg, r, Message(m), Local(false)) == R.Fail(r, ErrFile, Local(false))
  {
    hide R.Judge, R.ById, Dest, Sanitize, EqualFold, R.IdsKnown, R.OnControl, R.Meta;
    if m.Text? && !m.control.Cancel? && !m.control.Error? && !m.control.Unknown? {
      FaultOrNotControl(cfg, r, m.control);
    } else {
      assert R.OnMessage(cfg, r, m, Local(false)) == R.OnMessage(cfg, r, m, OK)
          || R.OnMessage(cfg, r, m, Local(false)) == R.Fail(r, ErrFile, Local(false));
    }
  }

  lemma FaultOrNotControl(cfg: R.Config, r: R.State, c: Control)
    requires R.WellFormed(r) && R.Waiting(r)
    ensures || R.OnControl(cfg, r, c, Local(false)) == R.OnControl(cfg, r, c, OK)
            || R.OnControl(cfg, r, c, Local(false)) == R.Fail(r, ErrFile, Local(false))
  {
    hide R.Judge, R.ById, Dest, Sanitize, EqualFold, R.IdsKnown, R.WellFormed, R.Meta, R.OnFileStart, R.OnFileEnd;
    if r.phase.AwaitStart? && c.FileStart? {
      FaultAtStart(r, c.id);
    } else if r.phase.InBody? && c.FileEnd? {
      FaultAtEnd(cfg, r, c.id, c.sha256);
    }
  }

  lemma FaultAtStart(r: R.State, id: int)
    requires R.WellFormed(r) && r.phase.AwaitStart?
    ensures || R.OnFileStart(r, id, Local(false)) == R.OnFileStart(r, id, OK)
            || R.OnFileStart(r, id, Local(false)) == R.Fail(r, ErrFile, Local(false))
  {
    hide R.ById, Dest, Sanitize, R.IdsKnown, R.Meta;
  }

  lemma FaultAtEnd(cfg: R.Config, r: R.State, id: int, sha256: string)
    requires R.WellFormed(r) && r.phase.InBody?
    ensures || R.OnFileEnd(cfg, r, id, sha256, Local(false)) == R.OnFileEnd(cfg, r, id, sha256, OK)
            || R.OnFileEnd(cfg, r, id, sha256, Local(false)) == R.Fail(r, ErrFile, Local(false))
  {
    hide R.ById, EqualFold, R.IdsKnown, R.Meta;
  }

  lemma NotIdleAgain(cfg: R.Config, r: R.State, a: Arrival, io: Io)
    requires R.WellFormed(r) && R.Waiting(r)
    ensures !R.Step(cfg, r, a, io).phase.Idle?
  {
    hide R.Judge, R.ById, Dest, Sanitize, EqualFold, R.IdsKnown;
  }

  lemma ReceiverTakesKeepsInv(w: World, g: Sys, fileOk: bool, r': R.State)
    requires WellFormed(w, g) && Inv(w, g) && R.Waiting(g.r) && g.toR.inbox != []
    requires r' == R.Step(w.RC(), g.r, Message(g.toR.inbox[0]), Local(fileOk)) && g.r.core.out <= r'.core.out
    ensures Inv(w, ReceiverMoves(g, r', 1))
  {
    hide Link, Shape, RS.DirOk, R.Step, R.WellFormed, Flush;
    var m := g.toR.inbox[0];
    StepShape(w.RC(), g.r, Message(m), Local(fileOk));
    RS.StepKeepsDir(w.RC(), w.dir, g.r, Message(m), Local(fileOk));
    FaultOrNot(w.RC(), g.r, m);
    NotIdleAgain(w.RC(), g.r, Message(m), Local(fileOk));
    if r' == R.Step(w.RC(), g.r, Message(m), OK) {
      ReceiverTakesPlain(w, g, m, r', ReceiverMoves(g, r', 1));
    } else {
      ReceiverFailsInv(w, g, ErrFile, Local(false), r', 1);
    }
  }

  lemma ReceiverTakesPlain(w: World, g: Sys, m: Msg, r': R.State, g': Sys)
    requires WellFormed(w, g) && Inv(w, g) && R.Waiting(g.r) && g.toR.inbox != [] && m == g.toR.inbox[0]
    requires r' == R.Step(w.RC(), g.r, Message(m), OK) && g.r.core.out <= r'.core.out
    requires Shape(r') && RS.DirOk(w.RC(), w.dir, r') && !r'.phase.Idle?
    requires g' == ReceiverMoves(g, r', 1)
    ensures Inv(w, g')
  {
    hide Link, Shape, RS.DirOk, R.Step, R.WellFormed, R.Waiting, Feed, Extends;
    QueueAfterReceiver(g, r', 1);
    StoredWithinIds(w, r');
    ExtendsAfterStep(w, g, m, r');
    if g.s.phase == S.Returned(Nil) {
      DeliveredNonempty(w, g);
    }
    DeliveredAfterReceiver(g, r', 1);
    hide QueueOk, DeliveredOk, ReceiverMoves, S.WellFormed;
    assert g'.toR.Queue() == g.toR.Queue()[1..];
    FlushTakes(w, g, m, g');
    hide Flush;
  }

  lemma ExtendsAfterStep(w: World, g: Sys, m: Msg, r': R.State)
    requires R.WellFormed(g.r) && r' == R.Step(w.RC(), g.r, Message(m), OK)
    ensures Extends(g.r, r')
  {
    StepExtends(w.RC(), g.r, Message(m), OK);
  }

  /** Taking the head of the queue changes the receiver, not what it will have become. */
  lemma FlushTakes(w: World, g: Sys, m: Msg, g': Sys)
    requires WellFormed(w, g) && WellFormed(w, g') && R.Waiting(g.r)
    requires g.toR.inbox != [] && m == g.toR.inbox[0]
    requires g'.r == R.Step(w.RC(), g.r, Message(m), OK) && !g'.r.phase.Idle?
    requires g'.toR.Queue() == g.toR.Queue()[1..]
    ensures Flush(w, g') == Flush(w, g)
  {
    hide R.Step, R.WellFormed, S.WellFormed;
    assert g.toR.Queue()[0] == m;
  }

  lemma StoredWithinIds(w: World, r: R.State)
    requires RS.DirOk(w.RC(), w.dir, r)
    ensures |r.kept| <= |r.ids|
  {
    hide R.WellFormed, RS.BodyOk, Dest, Sanitize, EqualFold, R.ById;
    if |r.kept| > 0 {
      assert RS.StoredAt(w.RC(), w.dir, r, |r.kept| - 1);
    }
  }

  lemma DeliveredNonempty(w: World, g: Sys)
    requires WellFormed(w, g) && Inv(w, g) && g.s.phase == S.Returned(Nil)
    ensures g.r.ids != []
  {
    hide Shape, Faithful, Feed;
  }
}
