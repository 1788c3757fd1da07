/** The invariant over every action and every run. */
module JointRuns {
  import opened Protocol
  import opened Acceptance
  import opened Session
  import opened Recogniser
  import opened ReceiverReplies
  import S = Sender
  import R = Receiver
  import RS = ReceiverSafety
  import opened Joint
  import opened JointLink
  import opened JointSender
  import opened JointInvariant

  // ----- The sender moves -----------------------------------------------------------------------

  /** A running sender that takes an expected message has taken one more. */
  lemma TakenOneMore(cfg: S.Config, s: S.State, m: Msg, io: Io, s': S.State)
    requires S.WellFormed(cfg, s) && S.Waiting(s) && !IsUnknown(m)
    requires s' == S.OnMessage(cfg, s, m, io) && !s'.phase.Returned?
    ensures Taken(s') == Taken(s) + 1
  {
    hide Resolve, S.Metas, S.Sendable;
  }

  /** Only an acknowledgement of the last file can end a sender with nil. */
  lemma NilByLastAck(cfg: S.Config, s: S.State, m: Msg, io: Io, s': S.State)
    requires S.WellFormed(cfg, s) && S.Waiting(s) && s' == S.OnMessage(cfg, s, m, io)
    requires s'.phase == S.Returned(Nil) && s'.ids != []
    ensures s.phase.AwaitAck? && s'.ids == s.ids && |s.ids| == s.k + 1
  {
    hide S.Metas, S.Sendable, Resolves;
  }

  /** The head of the sender's inbox is the next message the receiver said. */
  lemma InboxHead(w: World, g: Sys, f: R.State)
    requires WellFormed(w, g) && Inv(w, g) && !g.s.phase.Returned? && g.toS.inbox != []
    requires f == Flush(w, g)
    ensures Taken(g.s) < |g.r.core.out| && Taken(g.s) < |f.core.out|
    ensures g.toS.inbox[0] == g.r.core.out[Taken(g.s)] == f.core.out[Taken(g.s)]
    ensures Extends(g.r, f)
  {
    hide Link, Shape, RS.DirOk, Feed, R.WellFormed, S.WellFormed;
    FlushExtends(w, g);
    var rest := g.r.core.out[Taken(g.s)..];
    assert g.toS.Queue()[0] == g.toS.inbox[0];
    assert rest[0] == g.r.core.out[Taken(g.s)];
  }

  lemma ReceiverHasAll(w: World, g: Sys, f: R.State)
    requires Link(w, g.s, f) && S.WellFormed(w.SC(), g.s) && Shape(g.r) && Extends(g.r, f)
    requires g.s.phase.AwaitAck? && |g.s.ids| == g.s.k + 1
    requires Taken(g.s) < |g.r.core.out| && |f.kept| == g.s.k + 1
    ensures g.r.ids == g.s.ids && |g.r.kept| == |g.r.ids|
  {
    assert f.ids == g.s.ids;
    hide Link, Faithful, R.WellFormed;
    if g.r.phase.Returned? {
      assert g.r == f;
    } else {
      assert g.r.core.out == Replies(g.r) + [];
    }
  }

  lemma LinkWhenTaking(w: World, g: Sys, f: R.State, m: Msg, io: Io, s': S.State)
    requires WellFormed(w, g) && Inv(w, g) && S.Waiting(g.s) && g.toS.inbox != [] && Sends(io)
    requires f == Flush(w, g) && m == g.toS.inbox[0]
    requires s' == S.OnMessage(w.SC(), g.s, m, io)
    ensures g.s.core.out <= s'.core.out && Link(w, s', Feed(w.RC(), f, New(g.s, s')))
    ensures !s'.phase.Returned? ==> Taken(s') == Taken(g.s) + 1
    ensures s'.phase == S.Returned(Nil) ==> g.r.ids == s'.ids && |g.r.kept| == |g.r.ids|
  {
    hide Shape, RS.DirOk, Feed, R.WellFormed, S.WellFormed, S.OnMessage, Link;
    InboxHead(w, g, f);
    AfterMessage(w, g.s, f, io, s');
    NextMessage(w, g.s, f);
    if !s'.phase.Returned? {
      TakenOneMore(w.SC(), g.s, m, io, s');
    }
    if s'.phase == S.Returned(Nil) {
      NilLinked(w, s', Feed(w.RC(), f, New(g.s, s')));
      NilByLastAck(w.SC(), g.s, m, io, s');
      NilNeedsAck(w.SC(), g.s, m, io, s');
      ReceiverHasAll(w, g, f);
    }
  }

  lemma NilLinked(w: World, s: S.State, f: R.State)
    requires Link(w, s, f) && s.phase == S.Returned(Nil)
    ensures s.ids != []
  {
    hide Shape, Faithful;
  }

  lemma NilNeedsAck(cfg: S.Config, s: S.State, m: Msg, io: Io, s': S.State)
    requires S.WellFormed(cfg, s) && s.phase.AwaitAck? && s' == S.OnMessage(cfg, s, m, io)
    requires s'.phase == S.Returned(Nil)
    ensures !IsTerminal(m)
  {
  }

  lemma PollFacts(s: S.State, found: Option<Msg>, io: Io, s': S.State)
    requires s.phase.Polling? && s.pending == [] && s' == S.Poll(s, false, found, io)
    requires found.Some? ==> IsTerminal(found.value)
    ensures found.None? ==> s' == s.(phase := S.Reading)
    ensures found.Some? ==> s'.phase.Returned? && s'.phase != S.Returned(Nil)
  {
  }

  lemma LinkWhenPolling(w: World, g: Sys, f: R.State, found: Option<Msg>, io: Io, s': S.State)
    requires WellFormed(w, g) && Inv(w, g) && g.s.phase.Polling? && f == Flush(w, g)
    requires found == (if g.toS.inbox == [] then None else Some(g.toS.inbox[0]))
    requires s' == S.Poll(g.s, false, found, io)
    ensures g.s.core.out <= s'.core.out && Link(w, s', Feed(w.RC(), f, New(g.s, s')))
    ensures !s'.phase.Returned? ==> g.toS.inbox == [] && Taken(s') == Taken(g.s)
    ensures s'.phase != S.Returned(Nil)
  {
    hide Shape, RS.DirOk, Feed, R.WellFormed, S.WellFormed, Link, S.Poll;
    LinkFacts(w, g.s, f);
    hide Counts, Synced, Good, Unopened, LastWords;
    if found.None? {
      AfterQuietPoll(w, g.s, f, io, s');
    } else {
      InboxHead(w, g, f);
      NextMessage(w, g.s, f);
      AfterPollFinds(w, g.s, f, io, s');
    }
    PollFacts(g.s, found, io, s');
  }

  lemma LinkWhenReading(w: World, g: Sys, f: R.State, rd: S.Read, ctxDone: bool, io: Io, s': S.State)
    requires WellFormed(w, g) && Inv(w, g) && g.s.phase.Reading? && Sends(io) && f == Flush(w, g)
    requires FromSource(w, g.s, rd) && s' == S.OnRead(w.SC(), g.s, rd, ctxDone, io)
    ensures g.s.core.out <= s'.core.out && Link(w, s', Feed(w.RC(), f, New(g.s, s')))
    ensures !s'.phase.Returned? ==> Taken(s') == Taken(g.s)
    ensures s'.phase != S.Returned(Nil)
  {
    hide Shape, RS.DirOk, Feed, R.WellFormed, Link;
    AfterRead(w, g.s, f, rd, ctxDone, io, s');
  }

  /** The chunks read are the next bytes of the source; end of file means all of it was read. */
  lemma ReadsFromSource(w: World, s: S.State, n: nat)
    requires S.WellFormed(w.SC(), s) && s.phase.Reading? && s.sent <= S.Current(w.SC(), s).content
    ensures CanRead(w, s, n) ==> FromSource(w, s, S.Data(Unread(w, s)[..n]))
    ensures Unread(w, s) == [] ==> FromSource(w, s, S.Eof)
  {
    var content := S.Current(w.SC(), s).content;
    assert content == s.sent + Unread(w, s);
  }

  lemma SentIsPrefix(w: World, s: S.State, f: R.State)
    requires Link(w, s, f) && S.WellFormed(w.SC(), s) && s.phase.Reading?
    ensures s.sent <= S.Current(w.SC(), s).content
  {
    hide Shape, Faithful, S.Sendable;
  }

  lemma LinkWhenCancelled(w: World, g: Sys, f: R.State, io: Io, s': S.State)
    requires WellFormed(w, g) && Inv(w, g) && Sends(io) && f == Flush(w, g)
    requires !g.s.phase.Returned? && s' == S.Fail(g.s, ErrContext, io)
    ensures g.s.core.out <= s'.core.out && Link(w, s', Feed(w.RC(), f, New(g.s, s')))
  {
    hide Shape, RS.DirOk, Feed, R.WellFormed, Link, S.WellFormed;
    AfterGivingUp(w, g.s, g.s, f, ErrContext, io, s');
  }

  /** What one sender action does, put together. */
  ghost predicate SenderEffect(w: World, g: Sys, f: R.State, s': S.State, removed: nat)
    requires R.WellFormed(f)
  {
    && g.s.core.out <= s'.core.out
    && Link(w, s', Feed(w.RC(), f, New(g.s, s')))
    && (!s'.phase.Returned? ==> Taken(s') == Taken(g.s) + removed)
    && (s'.phase == S.Returned(Nil) ==> g.r.ids == s'.ids && |g.r.kept| == |g.r.ids|)
  }

  lemma EffectOfAction(w: World, g: Sys, a: Action, f: R.State, inp: S.Input, s': S.State)
    requires WellFormed(w, g) && Enabled(w, g, a) && OfSender(a)
    requires Inv(w, g) && f == Flush(w, g)
    requires inp == SenderInput(w, g, a) && s' == S.Step(w.SC(), g.s, inp)
    ensures SenderEffect(w, g, f, s', SenderRemoves(g, a))
  {
    hide Shape, RS.DirOk, Feed, R.WellFormed, Link, S.WellFormed, QueueOk, DeliveredOk;
    LinkFacts(w, g.s, f);
    hide Counts, Synced, Failing, Good, Unopened, LastWords;
    if a.SenderTakes? {
      hide S.OnMessage;
      LinkWhenTaking(w, g, f, g.toS.inbox[0], inp.io, s');
    } else if a.SenderPolls? {
      LinkWhenPolling(w, g, f, inp.found, inp.io, s');
    } else if a.SenderCancelled? {
      LinkWhenCancelled(w, g, f, inp.io, s');
    } else {
      hide S.OnRead;
      SentIsPrefix(w, g.s, f);
      ReadsFromSource(w, g.s, match a case SenderReads(n) => n case SenderWriteInterrupted(n) => n case _ => 0);
      LinkWhenReading(w, g, f, inp.read, inp.ctxDone, inp.io, s');
    }
  }

  lemma QueueAfterSender(g: Sys, s': S.State, removed: nat)
    requires QueueOk(g) && !g.s.phase.Returned? && removed <= |g.toS.inbox| && g.s.core.out <= s'.core.out
    requires !s'.phase.Returned? ==> Taken(s') == Taken(g.s) + removed
    ensures QueueOk(SenderMoves(g, s', removed))
  {
    var c := Taken(g.s);
    assert g.toS.inbox[removed..] + g.toS.wire == g.toS.Queue()[removed..];
    assert g.r.core.out[c..][removed..] == g.r.core.out[c + removed..];
  }

  lemma SenderMovesKeepInv(w: World, g: Sys, f: R.State, s': S.State, removed: nat, g': Sys)
    requires WellFormed(w, g) && Inv(w, g) && !g.s.phase.Returned? && f == Flush(w, g)
    requires S.WellFormed(w.SC(), s') && SenderEffect(w, g, f, s', removed)
    requires removed <= |g.toS.inbox| && g.s.core.out <= s'.core.out && g' == SenderMoves(g, s', removed)
    requires s'.core.out == [] ==> g.s.core.out == []
    ensures Inv(w, g')
  {
    hide Shape, RS.DirOk, Feed, R.WellFormed, Link, S.WellFormed;
    QueueAfterSender(g, s', removed);
    assert g'.toR.Queue() == g.toR.Queue() + New(g.s, s');
    FlushPost(w, g, g', New(g.s, s'));
    assert s'.core.out == [] ==> New(g.s, s') == [];
  }

  lemma BeginEffect(w: World, g: Sys, f: R.State, s': S.State)
    requires WellFormed(w, g) && Inv(w, g) && g.s.phase.Idle? && f == Flush(w, g)
    requires s' == S.Start(w.SC(), g.s, Local(true))
    ensures SenderEffect(w, g, f, s', 0) && g.s.core.out <= s'.core.out
    ensures s'.core.out == [] ==> g.s.core.out == []
  {
    hide Shape, RS.DirOk, Feed, R.WellFormed, Faithful;
    assert g.s == S.INIT;
    hide Link;
    AfterBegin(w, f, s', Feed(w.RC(), f, s'.core.out));
    assert New(g.s, s') == s'.core.out;
  }

  // ----- Every action, every run ------------------------------------------------------------------

  lemma SenderActionKeepsInv(w: World, g: Sys, a: Action)
    requires WellFormed(w, g) && Enabled(w, g, a) && (OfSender(a) || a.SenderBegins?)
    requires Inv(w, g)
    ensures Inv(w, Apply(w, g, a))
  {
    hide Inv, Flush, S.Step, S.Start, S.WellFormed;
    hide Link, Feed, Taken;
    var f := Flush(w, g);
    if a.SenderBegins? {
      var s' := S.Start(w.SC(), g.s, Local(true));
      BeginEffect(w, g, f, s');
      SenderMovesKeepInv(w, g, f, s', 0, Apply(w, g, a));
    } else {
      var inp := SenderInput(w, g, a);
      var s' := S.Step(w.SC(), g.s, inp);
      EffectOfAction(w, g, a, f, inp, s');
      SenderGrows(w.SC(), g.s, inp);
      SenderMovesKeepInv(w, g, f, s', SenderRemoves(g, a), Apply(w, g, a));
    }
  }

  lemma ActionKeepsInv(w: World, g: Sys, a: Action)
    requires WellFormed(w, g) && Enabled(w, g, a)
    requires Inv(w, g)
    ensures Inv(w, Apply(w, g, a))
  {
    hide R.Step, R.WellFormed, S.WellFormed, Link, Shape, QueueOk, DeliveredOk, RS.DirOk, Flush;
    assert a.ReceiverBegins? ==> g.r.core.out <= R.Start(g.r, Local(a.fileOk)).core.out;
    hide Inv, R.Start;
    if OfSender(a) || a.SenderBegins? {
      SenderActionKeepsInv(w, g, a);
    } else if a.PumpToSender? || a.PumpToReceiver? {
      PumpKeepsInv(w, g, a);
    } else if a.ReceiverBegins? {
      ReceiverBeginsKeepsInv(w, g, a.fileOk, R.Start(g.r, Local(a.fileOk)));
    } else if a.ReceiverCancelled? {
      ReceiverGrows(w.RC(), g.r, CtxDone, Local(true));
      ReceiverCancelledKeepsInv(w, g, R.Step(w.RC(), g.r, CtxDone, Local(true)));
    } else {
      ReceiverGrows(w.RC(), g.r, Message(g.toR.inbox[0]), Local(a.fileOk));
      ReceiverTakesKeepsInv(w, g, a.fileOk, R.Step(w.RC(), g.r, Message(g.toR.inbox[0]), Local(a.fileOk)));
    }
  }

  /** A run: states joined by enabled actions, from the initial state. */
  ghost predicate Steps(w: World, g: Sys, g': Sys) {
    WellFormed(w, g) && exists a :: Enabled(w, g, a) && g' == Apply(w, g, a)
  }

  ghost predicate IsRun(w: World, run: seq<Sys>) {
    && run != [] && run[0] == Initial(w)
    && forall i | 0 <= i < |run| - 1 :: Steps(w, run[i], run[i + 1])
  }

  lemma {:induction false} RunInv(w: World, run: seq<Sys>, i: nat)
    requires IsRun(w, run) && i < |run|
    ensures Inv(w, run[i])
  {
    hide Inv;
    if i == 0 {
      InitialInv(w);
    } else {
      RunInv(w, run, i - 1);
      assert Steps(w, run[i - 1], run[i - 1 + 1]);
      var a :| Enabled(w, run[i - 1], a) && run[i] == Apply(w, run[i - 1], a);
      ActionKeepsInv(w, run[i - 1], a);
    }
  }
}
