/** Every sender step keeps the link, the receiver taking in turn what the step put on the wire. */
module JointSender {
  import opened Protocol
  import opened Acceptance
  import opened Session
  import opened Recogniser
  import opened ReceiverReplies
  import S = Sender
  import R = Receiver
  import opened Joint
  import opened JointLink
  import opened JointReceiver

  // ----- Leaving ------------------------------------------------------------------------------

  /** Why a sender gives up on its own. */
  ghost predicate OwnReason(w: World, e: Failure, f: R.State) {
    || e == ErrContext || e == ErrFile
    || (e == ErrRejected && f.ids == [])
    || (e == ErrSizeChanged && SomeSizeWrong(w))
  }

  lemma GivesUp(w: World, s0: S.State, f: R.State, e: Failure, io: Io, s': S.State, f': R.State)
    requires Good(w, f) && f.phase != R.Returned(Nil)
    requires !s0.core.signaled && S.WellFormed(w.SC(), s0) && Sends(io)
    requires OwnReason(w, e, f)
    requires s' == S.Fail(s0, e, io) && f' == Feed(w.RC(), f, [Text(Cancel)])
    ensures s'.core.out == s0.core.out + [Text(Cancel)]
    ensures Link(w, s', f')
  {
    hide Shape, Faithful, Synced, SenderOk, Counts, Feed, SomeSizeWrong;
    TakesCancel(w, f, f');
  }

  /** The sender took the receiver's last word. */
  lemma IsTold(w: World, s0: S.State, f: R.State, m: Msg, io: Io, s': S.State)
    requires Good(w, f) && Failing(f) && S.WellFormed(w.SC(), s0) && IsTerminal(m)
    requires s' == S.OnMessage(w.SC(), s0, m, io) || s' == S.MidSendCheck(s0, m, io)
    ensures s'.core.out == s0.core.out && Link(w, s', f)
  {
    hide Shape, Faithful, Synced, SenderOk, Counts, SomeSizeWrong, S.OnControl;
  }

  // ----- Starting -----------------------------------------------------------------------------

  lemma AfterBegin(w: World, f: R.State, s': S.State, f': R.State)
    requires Link(w, S.INIT, f) && R.WellFormed(f)
    requires s' == S.Start(w.SC(), S.INIT, Local(true)) && f' == Feed(w.RC(), f, s'.core.out)
    ensures Link(w, s', f')
  {
    hide Shape, Faithful, Feed, SomeSizeWrong, S.Sendable;
    assert s'.core.out == [] || s'.core.out == [Text(Hello(VERSION))];
    if s'.core.out == [] {
      FeedNothing(w.RC(), f);
    } else if Failing(f) {
      FeedReturned(w.RC(), f, s'.core.out);
    } else {
      TakesHello(w, f, f');
    }
  }

  lemma FeedNothing(cfg: R.Config, f: R.State)
    requires R.WellFormed(f)
    ensures Feed(cfg, f, []) == f
  {
  }

  lemma AfterHello(w: World, s: S.State, f: R.State, io: Io, s': S.State, f': R.State)
    requires Link(w, s, f) && s.phase.AwaitHello? && Sends(io) && R.WellFormed(f) && S.WellFormed(w.SC(), s)
    requires s' == S.OnMessage(w.SC(), s, Text(Hello(VERSION)), io)
    requires f' == Feed(w.RC(), f, [Text(Manifest(S.Metas(w.files)))])
    ensures s'.core.out == s.core.out + [Text(Manifest(S.Metas(w.files)))]
    ensures Link(w, s', f')
  {
    hide Shape, Faithful, Feed, SomeSizeWrong, S.Sendable, S.Metas;
    if Failing(f) {
      HelloKept(w, s, f);
      FeedReturned(w.RC(), f, [Text(Manifest(S.Metas(w.files)))]);
    } else {
      TakesManifest(w, f, f');
    }
  }

  lemma HelloKept(w: World, s: S.State, f: R.State)
    requires Link(w, s, f) && s.phase.AwaitHello?
    ensures f.kept == []
  {
    hide Faithful, S.Sendable;
  }

  // ----- Between files --------------------------------------------------------------------------

  /** The receiver is ready for what NextFile does at this point of the list. */
  ghost predicate Ready(w: World, s0: S.State, f: R.State) {
    && Good(w, f) && S.WellFormed(w.SC(), s0) && S.Sendable(w.files)
    && s0.ids == f.ids && f.ids != [] && s0.k == |f.kept| <= |f.ids|
    && s0.pending == [] && !s0.core.signaled
    && (Failing(f) || (if s0.k < |f.ids| then f.phase.AwaitStart? else f.phase.AwaitDone?))
  }

  lemma AfterLastFile(w: World, s0: S.State, f: R.State, io: Io, s': S.State, f': R.State)
    requires Ready(w, s0, f) && Sends(io) && s0.k == |s0.ids|
    requires s' == S.NextFile(w.SC(), s0, io) && f' == Feed(w.RC(), f, [Text(Done)])
    ensures s'.core.out == s0.core.out + [Text(Done)]
    ensures Link(w, s', f')
  {
    hide Shape, Faithful, Feed, SomeSizeWrong, S.Sendable;
    if Failing(f) {
      FeedReturned(w.RC(), f, [Text(Done)]);
    } else {
      TakesDone(w, f, f');
    }
  }

  lemma AfterOpen(w: World, s0: S.State, f: R.State, io: Io, s': S.State, f': R.State)
    requires Ready(w, s0, f) && Sends(io) && io.fileOk && s0.k < |s0.ids|
    requires s' == S.NextFile(w.SC(), s0, io) && f' == Feed(w.RC(), f, [Text(FileStart(s0.ids[s0.k]))])
    ensures s'.core.out == s0.core.out + [Text(FileStart(s0.ids[s0.k]))]
    ensures Link(w, s', f')
  {
    hide Shape, Faithful, Feed, SomeSizeWrong, S.Sendable;
    if Failing(f) {
      FeedReturned(w.RC(), f, [Text(FileStart(s0.ids[s0.k]))]);
    } else {
      TakesFileStart(w, f, s0.ids[s0.k], f');
    }
  }

  lemma AfterOpenFails(w: World, s0: S.State, f: R.State, io: Io, s': S.State, f': R.State)
    requires Ready(w, s0, f) && Sends(io) && !io.fileOk && s0.k < |s0.ids|
    requires s' == S.NextFile(w.SC(), s0, io)
    requires f' == Feed(w.RC(), f, [Text(FileStart(s0.ids[s0.k])), Text(Cancel)])
    ensures s'.core.out == s0.core.out + [Text(FileStart(s0.ids[s0.k])), Text(Cancel)]
    ensures Link(w, s', f')
  {
    hide Shape, Faithful, Feed, SomeSizeWrong, S.Sendable;
    var id := s0.ids[s0.k];
    var f1 := Feed(w.RC(), f, [Text(FileStart(id))]);
    if Failing(f) {
      FeedReturned(w.RC(), f, [Text(FileStart(id))]);
    } else {
      TakesFileStart(w, f, id, f1);
    }
    assert [Text(FileStart(id)), Text(Cancel)] == [Text(FileStart(id))] + [Text(Cancel)];
    FeedConcat(w.RC(), f, [Text(FileStart(id))], [Text(Cancel)]);
    var started := s0.core.Say(FileStart(id), io).Emit(FileStarted(id, S.Current(w.SC(), s0).size));
    GivesUp(w, s0.(core := started), f1, ErrFile, io, s', f');
  }

  lemma AfterNextFile(w: World, s0: S.State, f: R.State, io: Io, s': S.State)
    requires Ready(w, s0, f) && Sends(io)
    requires s' == S.NextFile(w.SC(), s0, io)
    ensures s0.core.out <= s'.core.out && Link(w, s', Feed(w.RC(), f, New(s0, s')))
  {
    hide Link, Feed, S.NextFile, Shape, Faithful;
    var out := s0.core.out;
    if s0.k == |s0.ids| {
      AfterLastFile(w, s0, f, io, s', Feed(w.RC(), f, [Text(Done)]));
      assert New(s0, s') == [Text(Done)];
    } else {
      var begin := Text(FileStart(s0.ids[s0.k]));
      if io.fileOk {
        AfterOpen(w, s0, f, io, s', Feed(w.RC(), f, [begin]));
        assert New(s0, s') == [begin];
      } else {
        AfterOpenFails(w, s0, f, io, s', Feed(w.RC(), f, [begin, Text(Cancel)]));
        assert New(s0, s') == [begin, Text(Cancel)];
      }
    }
  }

  // ----- Replies ------------------------------------------------------------------------------

  /** The ids a receiver asks for, resolved by the sender, are the receiver's ids. */
  lemma AcceptedIds(w: World, f: R.State)
    requires Good(w, f) && f.ids != [] && S.Sendable(w.files)
    ensures Resolve(WireForm(f.ids, |w.files|), |w.files|) == Some(f.ids)
  {
    hide Shape, S.Sendable, R.ValidManifest, Sort, R.ById, Resolve, ValidChoice;
    var n := |w.files|;
    var chosen := w.decide(f.files).ids;
    assert f.ids == Sort(chosen) && ValidChoice(chosen, R.ById(f.files).Keys) && chosen != [];
    hide Faithful;
    forall id
      ensures id in R.ById(f.files).Keys <==> id in set i | i in UpTo(n)
    {
      KnownIds(w.files, id);
      if 0 <= id < n {
        assert UpTo(n)[id] == id;
      }
    }
    assert R.ById(f.files).Keys == set i | i in UpTo(n);
    AcceptanceAgreement(chosen, n);
  }

  lemma AcceptEffect(cfg: S.Config, s: S.State, wire: seq<int>, ids: seq<int>, io: Io)
    requires S.WellFormed(cfg, s) && s.phase.AwaitReply? && Resolve(wire, |cfg.files|) == Some(ids)
    ensures S.WellFormed(cfg, s.(ids := ids, k := 0))
    ensures S.OnMessage(cfg, s, Text(Accept(wire)), io) == S.NextFile(cfg, s.(ids := ids, k := 0), io)
  {
    hide Resolve, S.NextFile;
    S.ResolvedInRange(wire, |cfg.files|);
    assert s.(phase := S.AwaitReply, ids := ids, k := 0) == s.(ids := ids, k := 0);
  }

  lemma ReadyToStart(w: World, s: S.State, f: R.State)
    requires Link(w, s, f) && S.WellFormed(w.SC(), s) && s.phase.AwaitReply? && R.WellFormed(f)
    requires f.ids != [] && InRange(f.ids, |w.files|)
    ensures Ready(w, s.(ids := f.ids, k := 0), f)
  {
    hide Shape, Faithful, S.Sendable;
  }

  lemma AfterAccept(w: World, s: S.State, f: R.State, m: Msg, io: Io, s': S.State)
    requires Link(w, s, f) && S.WellFormed(w.SC(), s) && s.phase.AwaitReply? && Sends(io) && R.WellFormed(f)
    requires f.ids != [] && m == Text(Accept(WireForm(f.ids, |w.files|)))
    requires s' == S.OnMessage(w.SC(), s, m, io)
    ensures s.core.out <= s'.core.out && Link(w, s', Feed(w.RC(), f, New(s, s')))
  {
    assert Good(w, f) && S.Sendable(w.files);
    hide Link, Shape, Faithful, Feed, S.Sendable, Resolve, S.OnMessage, S.NextFile, Ready;
    AcceptedIds(w, f);
    AcceptEffect(w.SC(), s, WireForm(f.ids, |w.files|), f.ids, io);
    ReadyToStart(w, s, f);
    AfterNextFile(w, s.(ids := f.ids, k := 0), f, io, s');
  }

  /** The state in which the sender moves on to the next file. */
  function Acknowledged(cfg: S.Config, s: S.State): S.State
    requires S.WellFormed(cfg, s) && s.phase.AwaitAck?
  {
    s.(phase := S.AwaitReply, k := s.k + 1,
       core := s.core.Emit(FileDone(s.ids[s.k], |s.sent|, S.Current(cfg, s).size, true)))
  }

  lemma ReadyForNext(w: World, s: S.State, f: R.State)
    requires Link(w, s, f) && S.WellFormed(w.SC(), s) && s.phase.AwaitAck? && R.WellFormed(f)
    requires |f.kept| == s.k + 1
    ensures Ready(w, Acknowledged(w.SC(), s), f)
  {
    hide Link, S.Sendable, Shape, Faithful, R.WellFormed, Unopened, LastWords, Synced, Counts, Failing, Good, S.WellFormed;
    LinkFacts(w, s, f);
    StartsWithinIds(w, f);
    AckSynced(w.SC(), s, f);
    StillInRange(w.SC(), s);
  }

  lemma StillInRange(cfg: S.Config, s: S.State)
    requires S.WellFormed(cfg, s) && s.phase.AwaitAck?
    ensures S.WellFormed(cfg, Acknowledged(cfg, s))
  {
  }

  lemma AckSynced(cfg: S.Config, s: S.State, f: R.State)
    requires S.WellFormed(cfg, s) && s.phase.AwaitAck? && Counts(s, f) && (Failing(f) || Synced(s, f))
    ensures f.ids == s.ids && f.ids != [] && (Failing(f) || f.phase.AwaitStart? || f.phase.AwaitDone?)
  {
    hide Failing;
  }

  lemma StartsWithinIds(w: World, f: R.State)
    requires Good(w, f)
    ensures |f.kept| <= |f.ids| && (f.phase.AwaitStart? ==> |f.kept| < |f.ids|)
    ensures f.phase.AwaitDone? ==> |f.kept| == |f.ids|
  {
    hide R.Judge, S.Metas, R.IdsKnown, Replies, FaithfulCopy, SomeFileGrew;
  }

  lemma AfterAck(w: World, s: S.State, f: R.State, m: Msg, io: Io, s': S.State)
    requires Link(w, s, f) && S.WellFormed(w.SC(), s) && s.phase.AwaitAck? && Sends(io) && R.WellFormed(f)
    requires |f.kept| == s.k + 1
    requires m == Text(FileAck(s.ids[s.k], StatusOk, S.Current(w.SC(), s).size))
    requires s' == S.OnMessage(w.SC(), s, m, io)
    ensures s.core.out <= s'.core.out && Link(w, s', Feed(w.RC(), f, New(s, s')))
  {
    hide Link, Shape, Faithful, Feed, S.NextFile, Ready;
    ReadyForNext(w, s, f);
    AfterNextFile(w, Acknowledged(w.SC(), s), f, io, s');
  }

  lemma AfterMessage(w: World, s: S.State, f: R.State, io: Io, s': S.State)
    requires Link(w, s, f) && S.WellFormed(w.SC(), s) && S.Waiting(s) && Sends(io) && R.WellFormed(f)
    requires Taken(s) < |f.core.out|
    requires s' == S.OnMessage(w.SC(), s, f.core.out[Taken(s)], io)
    ensures s.core.out <= s'.core.out && Link(w, s', Feed(w.RC(), f, New(s, s')))
  {
    hide Link, Shape, Faithful, Feed, S.OnMessage, Synced, Good;
    var m := f.core.out[Taken(s)];
    LinkFacts(w, s, f);
    NextMessage(w, s, f);
    if Failing(f) && IsTerminal(m) {
      IsTold(w, s, f, m, io, s');
      FeedNothing(w.RC(), f);
      assert New(s, s') == [];
    } else if s.phase.AwaitHello? {
      AfterHello(w, s, f, io, s', Feed(w.RC(), f, [Text(Manifest(S.Metas(w.files)))]));
      assert New(s, s') == [Text(Manifest(S.Metas(w.files)))];
    } else if s.phase.AwaitAck? {
      AfterAck(w, s, f, m, io, s');
    } else if m == Text(Reject) {
      AfterReject(w, s, f, io, s');
    } else {
      AfterAccept(w, s, f, m, io, s');
    }
  }

  lemma AfterReject(w: World, s: S.State, f: R.State, io: Io, s': S.State)
    requires Good(w, f) && Failing(f) && f.ids == [] && S.WellFormed(w.SC(), s)
    requires s.phase.AwaitReply? && !s.core.signaled && Sends(io)
    requires s' == S.OnMessage(w.SC(), s, Text(Reject), io)
    ensures s.core.out <= s'.core.out && Link(w, s', Feed(w.RC(), f, New(s, s')))
  {
    hide Link, Shape, Faithful, Feed;
    GivesUp(w, s, f, ErrRejected, io, s', Feed(w.RC(), f, [Text(Cancel)]));
    assert New(s, s') == [Text(Cancel)];
  }

  // ----- Streaming ------------------------------------------------------------------------------

  lemma AfterQuietPoll(w: World, s: S.State, f: R.State, io: Io, s': S.State)
    requires Link(w, s, f) && S.WellFormed(w.SC(), s) && s.phase.Polling? && R.WellFormed(f)
    requires s' == S.Poll(s, false, None, io)
    ensures s.core.out <= s'.core.out && Link(w, s', Feed(w.RC(), f, New(s, s')))
  {
    hide Shape, Faithful, Feed, S.Sendable;
    assert New(s, s') == [];
    FeedNothing(w.RC(), f);
  }

  lemma AfterPollFinds(w: World, s: S.State, f: R.State, io: Io, s': S.State)
    requires Link(w, s, f) && S.WellFormed(w.SC(), s) && s.phase.Polling? && R.WellFormed(f)
    requires Taken(s) < |f.core.out|
    requires s' == S.Poll(s, false, Some(f.core.out[Taken(s)]), io)
    ensures s.core.out <= s'.core.out && Link(w, s', Feed(w.RC(), f, New(s, s')))
  {
    var m := f.core.out[Taken(s)];
    NextMessage(w, s, f);
    assert Good(w, f) && s.pending == [];
    hide Link, Shape, Faithful, Feed;
    IsTold(w, s, f, m, io, s');
    FeedNothing(w.RC(), f);
    assert New(s, s') == [];
  }

  lemma AfterGivingUp(w: World, s: S.State, s0: S.State, f: R.State, e: Failure, io: Io, s': S.State)
    requires Link(w, s, f) && !s.phase.Returned? && R.WellFormed(f) && S.WellFormed(w.SC(), s0)
    requires s0.core == s.core && Sends(io)
    requires e == ErrContext || e == ErrFile || (e == ErrSizeChanged && SomeSizeWrong(w))
    requires s' == S.Fail(s0, e, io)
    ensures s.core.out <= s'.core.out && Link(w, s', Feed(w.RC(), f, New(s, s')))
  {
    assert Good(w, f) && !s.core.signaled && f.phase != R.Returned(Nil);
    hide Link, Shape, Faithful, Feed;
    GivesUp(w, s0, f, e, io, s', Feed(w.RC(), f, [Text(Cancel)]));
    assert New(s, s') == [Text(Cancel)];
  }

  lemma AfterChunk(w: World, s: S.State, f: R.State, d: Bytes, io: Io, s': S.State, f': R.State)
    requires Link(w, s, f) && S.WellFormed(w.SC(), s) && s.phase.Reading? && Sends(io) && R.WellFormed(f)
    requires d != [] && s.sent + d <= S.Current(w.SC(), s).content
    requires s' == S.OnRead(w.SC(), s, S.Data(d), false, io) && f' == Feed(w.RC(), f, [Binary(d)])
    ensures s'.core.out == s.core.out + [Binary(d)]
    ensures Link(w, s', f')
  {
    hide Shape, Faithful, Feed, S.Sendable, SomeSizeWrong;
    if Failing(f) {
      FeedReturned(w.RC(), f, [Binary(d)]);
    } else {
      TakesChunk(w, f, d, f');
    }
  }

  lemma AfterEof(w: World, s: S.State, f: R.State, io: Io, s': S.State, f': R.State)
    requires Link(w, s, f) && S.WellFormed(w.SC(), s) && s.phase.Reading? && Sends(io) && R.WellFormed(f)
    requires s.sent == S.Current(w.SC(), s).content && |s.sent| == S.Current(w.SC(), s).size
    requires s' == S.OnRead(w.SC(), s, S.Eof, false, io)
    requires f' == Feed(w.RC(), f, [Text(FileEnd(s.ids[s.k], w.sha(s.hashed)))])
    ensures s'.core.out == s.core.out + [Text(FileEnd(s.ids[s.k], w.sha(s.hashed)))]
    ensures Link(w, s', f')
  {
    hide Shape, Faithful, Feed, S.Sendable, SomeSizeWrong;
    var m := Text(FileEnd(s.ids[s.k], w.sha(s.hashed)));
    if Failing(f) {
      FeedReturned(w.RC(), f, [m]);
    } else {
      TakesFileEnd(w, f, s.ids[s.k], w.sha(s.hashed), f');
    }
  }

  /** A read as the source allows it. */
  ghost predicate FromSource(w: World, s: S.State, rd: S.Read)
    requires S.WellFormed(w.SC(), s) && s.phase.Reading?
  {
    match rd
    case ReadError => true
    case Data(d) => d != [] && s.sent + d <= S.Current(w.SC(), s).content
    case Eof => S.Current(w.SC(), s).content <= s.sent
  }

  lemma AfterRead(w: World, s: S.State, f: R.State, rd: S.Read, ctxDone: bool, io: Io, s': S.State)
    requires Link(w, s, f) && S.WellFormed(w.SC(), s) && s.phase.Reading? && Sends(io) && R.WellFormed(f)
    requires FromSource(w, s, rd)
    requires s' == S.OnRead(w.SC(), s, rd, ctxDone, io)
    ensures s.core.out <= s'.core.out && Link(w, s', Feed(w.RC(), f, New(s, s')))
  {
    assert s.sent <= S.Current(w.SC(), s).content;
    hide Link, Shape, Faithful, Feed;
    match rd
    case ReadError => AfterGivingUp(w, s, s, f, ErrFile, io, s');
    case Data(d) =>
      if ctxDone {
        AfterGivingUp(w, s, s.(hashed := s.hashed + d), f, ErrContext, io, s');
      } else {
        AfterChunk(w, s, f, d, io, s', Feed(w.RC(), f, [Binary(d)]));
        assert New(s, s') == [Binary(d)];
      }
    case Eof =>
      var file := S.Current(w.SC(), s);
      if |s.sent| != file.size {
        assert w.files[s.ids[s.k]] == file;
        AfterGivingUp(w, s, s, f, ErrSizeChanged, io, s');
      } else {
        var m := Text(FileEnd(s.ids[s.k], w.sha(s.hashed)));
        AfterEof(w, s, f, io, s', Feed(w.RC(), f, [m]));
        assert New(s, s') == [m];
      }
  }
}
