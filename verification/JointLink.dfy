/**
 * The relation between the sender and the receiver "flushed": the receiver as it will be once it has
 * taken every message now in flight. Every sender step is one receiver step away from keeping it.
 */
module JointLink {
  import opened Protocol
  import opened Acceptance
  import opened Session
  import opened Recogniser
  import opened ReceiverReplies
  import S = Sender
  import R = Receiver
  import opened Joint

  // ----- A receiver only moves forward ----------------------------------------------------------

  ghost predicate Extends(r: R.State, f: R.State) {
    && r.core.out <= f.core.out
    && r.kept <= f.kept
    && (r.ids != [] ==> f.ids == r.ids && f.files == r.files)
    && (r.phase.Returned? ==> f == r)
  }

  lemma StepExtends(cfg: R.Config, r: R.State, a: Arrival, io: Io)
    requires R.WellFormed(r)
    ensures Extends(r, R.Step(cfg, r, a, io))
  {
    ReceiverGrows(cfg, r, a, io);
    if R.Waiting(r) && a.Message? {
      MessageExtends(cfg, r, a.m, io);
    }
  }

  lemma MessageExtends(cfg: R.Config, r: R.State, m: Msg, io: Io)
    requires R.WellFormed(r) && R.Waiting(r)
    ensures var r' := R.OnMessage(cfg, r, m, io);
            r.kept <= r'.kept && (r.ids != [] ==> r'.ids == r.ids && r'.files == r.files)
  {
    var r' := R.OnMessage(cfg, r, m, io);
    if r.phase.InBody? && m.Text? && m.control.FileEnd? {
    } else if r.phase.AwaitManifest? && m.Text? && m.control.Manifest? {
    } else {
      assert r'.kept == r.kept && r'.ids == r.ids && r'.files == r.files;
    }
  }

  lemma {:induction false} FeedExtends(cfg: R.Config, r: R.State, msgs: seq<Msg>)
    requires R.WellFormed(r)
    ensures Extends(r, Feed(cfg, r, msgs))
    decreases |msgs|
  {
    if msgs != [] {
      StepExtends(cfg, r, Message(msgs[0]), OK);
      FeedExtends(cfg, R.Step(cfg, r, Message(msgs[0]), OK), msgs[1..]);
    }
  }

  lemma {:induction false} FeedShape(cfg: R.Config, r: R.State, msgs: seq<Msg>)
    requires Shape(r)
    ensures Shape(Feed(cfg, r, msgs))
    decreases |msgs|
  {
    if msgs != [] {
      StepShape(cfg, r, Message(msgs[0]), OK);
      FeedShape(cfg, R.Step(cfg, r, Message(msgs[0]), OK), msgs[1..]);
    }
  }

  // ----- The link -----------------------------------------------------------------------------

  /** How many of the receiver's messages the running sender has taken. */
  function Taken(s: S.State): nat {
    match s.phase
    case Idle => 0
    case AwaitHello => 0
    case AwaitReply => 1
    case _ => 2 + s.k
  }

  ghost predicate SomeFileGrew(w: World) {
    exists i :: 0 <= i < |w.files| && |w.files[i].content| > w.files[i].size
  }

  /** The receiver works on the sender's manifest, and every file it keeps is the sender's file. */
  ghost predicate Faithful(w: World, f: R.State) {
    var all :=
    && (f.ids != [] ==>
          f.files == S.Metas(w.files) && R.Judge(w.RC(), f.files) == R.Accepting(f.ids))
    && |f.kept| <= |f.ids|
    && (forall i | 0 <= i < |f.kept| :: FaithfulCopy(w, f, i))
    && f.phase != R.Returned(Failed(ErrHashMismatch)) && f.phase != R.Returned(Failed(ErrVersion))
    && (f.phase == R.Returned(Failed(ErrProtocol)) ==> SomeFileGrew(w));
    all
  }

  ghost predicate FaithfulCopy(w: World, f: R.State, i: nat)
    requires i < |f.kept| <= |f.ids|
  {
    && f.kept[i].id == f.ids[i] && 0 <= f.ids[i] < |w.files|
    && f.kept[i].data == w.files[f.ids[i]].content
    && |f.kept[i].data| == w.files[f.ids[i]].size
  }

  /** The receiver gave up on its own, and says so. */
  ghost predicate Failing(f: R.State) {
    && f.phase.Returned? && f.phase.outcome.Failed?
    && !f.phase.outcome.failure.ErrPeer? && f.phase.outcome.failure != ErrPeerCancel
  }

  /** The sender's own bookkeeping while it runs. */
  ghost predicate SenderOk(w: World, s: S.State) {
    && S.WellFormed(w.SC(), s)
    && (s.phase.Idle? ==> s == S.INIT)
    && (!s.phase.Idle? ==> S.Sendable(w.files))
    && s.pending == [] && !s.core.signaled
    && (s.phase.Polling? || s.phase.Reading? || s.phase.AwaitAck? ==>
          s.hashed == s.sent && s.sent <= S.Current(w.SC(), s).content)
    && (s.phase.AwaitAck? ==>
          s.sent == S.Current(w.SC(), s).content && |s.sent| == S.Current(w.SC(), s).size)
  }

  /** How far the receiver can have come. */
  ghost predicate Counts(s: S.State, f: R.State) {
    match s.phase
    case Idle => f.ids == []
    case AwaitHello => f.ids == []
    case AwaitReply => f.kept == []
    case AwaitAck => f.ids == s.ids && s.k <= |f.kept| <= s.k + 1
    case _ => f.ids == s.ids && |f.kept| == s.k
  }

  /** Where the receiver stands if it has not given up. */
  ghost predicate Synced(s: S.State, f: R.State) {
    match s.phase
    case Idle => f.phase.AwaitHello?
    case AwaitHello => f.phase.AwaitManifest?
    case AwaitReply => f.phase.AwaitStart?
    case AwaitAck => (f.phase.AwaitStart? || f.phase.AwaitDone?) && |f.kept| == s.k + 1
    case Returned(_) => false
    case _ => f.phase.InBody? && f.written == s.sent && f.hashed == s.sent && f.got == |s.sent|
  }

  ghost predicate Ended(w: World, s: S.State, f: R.State)
    requires s.phase.Returned?
  {
    var o := s.phase.outcome;
    if o.Nil? then
      (f.phase == R.Returned(Nil) || Failing(f)) && f.ids == s.ids && |f.kept| == |f.ids| && s.ids != []
    else if o.failure == NotOpened then
      !S.Sendable(w.files) && s.core.out == [] && f.ids == [] && (f.phase.AwaitHello? || Failing(f))
    else
      && f.phase.Returned? && f.phase != R.Returned(Nil)
      && !PeerAtFault(o.failure)
      && (o.failure == ErrRejected ==> f.ids == [])
      && (o.failure == ErrSizeChanged ==> SomeSizeWrong(w))
  }

  /** Outcomes a sender can only blame on its peer or on the channel. */
  predicate PeerAtFault(e: Failure) {
    e == ErrProtocol || e == ErrVersion || e == ErrHashMismatch || e == ErrSend || e == ErrPeerClosed
  }

  ghost predicate SomeSizeWrong(w: World) {
    exists i :: 0 <= i < |w.files| && |w.files[i].content| != w.files[i].size
  }

  ghost predicate Link(w: World, s: S.State, f: R.State) {
    var all :=
    && Shape(f) && Faithful(w, f) && !f.phase.Idle?
    && S.WellFormed(w.SC(), s)
    && (if s.phase.Returned? then Ended(w, s, f)
        else SenderOk(w, s) && Counts(s, f) && (Failing(f) || Synced(s, f)));
    all
  }

  /** What the step added to the wire. */
  function New(s: S.State, s': S.State): seq<Msg>
    requires s.core.out <= s'.core.out
  {
    s'.core.out[|s.core.out|..]
  }

  // ----- Taking a message ----------------------------------------------------------------------

  /** What the receiver's next message can be, phase by phase. */
  ghost predicate Expected(w: World, s: S.State, f: R.State, m: Msg)
    requires S.WellFormed(w.SC(), s)
  {
    || (Failing(f) && IsTerminal(m))
    || (s.phase.AwaitHello? && m == Text(Hello(VERSION)))
    || (s.phase.AwaitReply? && Failing(f) && m == Text(Reject) && f.ids == [])
    || (s.phase.AwaitReply? && f.ids != [] && m == Text(Accept(WireForm(f.ids, |w.files|))))
    || (s.phase.AwaitAck? && |f.kept| == s.k + 1
        && m == Text(FileAck(s.ids[s.k], StatusOk, S.Current(w.SC(), s).size)))
  }

  lemma SaidInOrder(f: R.State, c: nat)
    requires Shape(f) && !Unopened(f) && c < |f.core.out|
    ensures c == 0 ==> f.core.out[c] == Text(Hello(VERSION))
    ensures c == 1 && f.ids != [] ==> f.core.out[c] == Text(Accept(WireForm(f.ids, |f.files|)))
    ensures 2 <= c < 2 + |f.kept| && f.ids != [] ==>
              f.core.out[c] == Text(FileAck(f.kept[c - 2].id, StatusOk, |f.kept[c - 2].data|))
    ensures c == |Replies(f)| ==> LastWords(f) != [] && f.core.out[c] == LastWords(f)[0]
    ensures |Replies(f)| == if f.ids == [] then 1 else 2 + |f.kept|
  {
    hide WellFormed;
    assert f.core.out == Replies(f) + LastWords(f);
    hide Shape;
    if c < |Replies(f)| {
      assert f.core.out[c] == Replies(f)[c];
    }
  }

  lemma LastWordEnds(f: R.State)
    requires Shape(f) && LastWords(f) != [] && f.phase != R.Returned(Failed(ErrHashMismatch))
    ensures IsTerminal(LastWords(f)[0]) || (LastWords(f)[0] == Text(Reject) && f.ids == [])
  {
    hide Replies;
  }

  lemma NextAck(w: World, s: S.State, f: R.State)
    requires Faithful(w, f) && s.k < |f.kept| && f.ids == s.ids && S.WellFormed(w.SC(), s) && s.k < |s.ids|
    ensures f.kept[s.k].id == s.ids[s.k] && |f.kept[s.k].data| == S.Current(w.SC(), s).size
  {
    hide R.Judge, S.Metas;
    assert FaithfulCopy(w, f, s.k);
  }

  ghost predicate Good(w: World, f: R.State) {
    R.WellFormed(f) && Shape(f) && Faithful(w, f) && !f.phase.Idle?
  }

  /** What the link gives about a running sender. */
  lemma LinkFacts(w: World, s: S.State, f: R.State)
    requires Link(w, s, f) && !s.phase.Returned?
    ensures Good(w, f) && S.WellFormed(w.SC(), s) && s.pending == [] && !s.core.signaled
    ensures !s.phase.Idle? ==> S.Sendable(w.files)
    ensures Counts(s, f) && (Failing(f) || Synced(s, f))
    ensures f.phase != R.Returned(Nil) && f.phase != R.Returned(Failed(ErrHashMismatch))
    ensures !Failing(f) ==> !Unopened(f) && LastWords(f) == []
    ensures Failing(f) && !s.phase.AwaitHello? && !s.phase.Idle? ==> f.ids != [] || s.phase.AwaitReply?
    ensures f.ids != [] ==> |f.files| == |w.files| && !Unopened(f)
    ensures Unopened(f) ==> f.core.out == []
  {
    hide S.Sendable, Replies, R.Judge;
  }

  lemma NextMessage(w: World, s: S.State, f: R.State)
    requires Link(w, s, f) && !s.phase.Returned? && Taken(s) < |f.core.out|
    requires !s.phase.Idle?
    ensures Expected(w, s, f, f.core.out[Taken(s)])
  {
    hide Link, Shape, Faithful, Synced, S.Sendable;
    LinkFacts(w, s, f);
    var c := Taken(s);
    SaidInOrder(f, c);
    if c == |Replies(f)| {
      LastWordEnds(f);
      hide Replies, LastWords;
    } else if c >= 2 {
      hide Replies, LastWords;
      NextAck(w, s, f);
    }
  }

  /** After everything the receiver said has been taken, a running sender still has its word to come. */
  lemma MoreToSay(w: World, s: S.State, f: R.State)
    requires Link(w, s, f) && !s.phase.Returned? && !Unopened(f)
    requires Failing(f) || s.phase.AwaitHello? || s.phase.AwaitReply? || s.phase.AwaitAck?
    ensures Taken(s) < |f.core.out|
  {
    hide S.Sendable, R.Judge, Resolve;
    assert |f.core.out| == |Replies(f)| + |LastWords(f)|;
    assert f.phase.Returned? ==> LastWords(f) != [];
  }
}
