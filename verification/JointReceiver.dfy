/** What each message of a faithful sender does to a receiver that is in step with it. */
module JointReceiver {
  import opened Protocol
  import opened Directory
  import opened Acceptance
  import opened Session
  import opened Recogniser
  import opened ReceiverReplies
  import S = Sender
  import R = Receiver
  import opened Joint
  import opened JointLink

  lemma FaithfulFrame(w: World, f: R.State, f': R.State)
    requires Faithful(w, f)
    requires f'.ids == f.ids && f'.files == f.files && f'.kept == f.kept
    requires f'.phase != R.Returned(Failed(ErrHashMismatch)) && f'.phase != R.Returned(Failed(ErrVersion))
    requires f'.phase == R.Returned(Failed(ErrProtocol)) ==> SomeFileGrew(w)
    ensures Faithful(w, f')
  {
    hide R.Judge;
    forall i | 0 <= i < |f'.kept|
      ensures FaithfulCopy(w, f', i)
    {
      assert FaithfulCopy(w, f, i);
    }
  }

  lemma {:induction false} ByIdOfMetas(files: seq<S.File>, metas: seq<FileMeta>, n: nat, i: nat)
    requires metas == S.Metas(files) && i < n <= |metas|
    ensures i in R.ById(metas[..n]) && R.ById(metas[..n])[i] == metas[i]
  {
    hide S.Metas;
    assert metas[..n][..n - 1] == metas[..n - 1];
    if i < n - 1 {
      ByIdOfMetas(files, metas, n - 1, i);
      assert metas[..n][n - 1].id == n - 1;
    }
  }

  lemma KnownIds(files: seq<S.File>, id: int)
    ensures id in R.ById(S.Metas(files)) <==> 0 <= id < |files|
  {
    var metas := S.Metas(files);
    hide S.Metas;
    if 0 <= id < |files| {
      ByIdOfMetas(files, metas, |metas|, id);
      assert metas[..|metas|] == metas;
    }
    if id in R.ById(metas) {
      R.ByIdEntries(metas, id);
      var meta := R.ById(metas)[id];
      var i :| 0 <= i < |metas| && metas[i] == meta;
    }
  }

  /** The manifest a sender builds is one every receiver finds valid. */
  lemma OwnManifestValid(files: seq<S.File>)
    requires S.Sendable(files)
    ensures R.ValidManifest(S.Metas(files))
  {
    hide S.Metas;
    var metas := S.Metas(files);
    forall i | 0 <= i < |metas|
      ensures ValidSize(metas[i].size) && metas[i].id >= 0 && Sanitize(metas[i].name).NameOk?
    {
      hide Sanitize;
      OwnNameSafe(files, i);
    }
  }

  lemma OwnNameSafe(files: seq<S.File>, i: nat)
    requires S.Sendable(files) && i < |files|
    ensures Sanitize(S.Metas(files)[i].name).NameOk?
  {
    hide Sanitize;
    SanitizeIdempotent(files[i].name);
  }

  /** The file the receiver takes next is the sender's file of that id. */
  lemma CurrentMeta(w: World, f: R.State)
    requires Good(w, f) && (f.phase.AwaitStart? || f.phase.InBody?) && S.Sendable(w.files)
    ensures var id := f.ids[|f.kept|];
            && 0 <= id < |w.files|
            && R.Meta(f) == S.Metas(w.files)[id]
            && R.Meta(f).size == w.files[id].size && R.Meta(f).id == id
            && Sanitize(R.Meta(f).name).NameOk?
  {
    hide R.Judge, Sanitize, S.Sendable, FaithfulCopy;
    var id := f.ids[|f.kept|];
    var metas := S.Metas(w.files);
    KnownIds(w.files, id);
    ByIdOfMetas(w.files, metas, |metas|, id);
    assert metas[..|metas|] == metas;
    OwnNameSafe(w.files, id);
  }

  // ----- Messages, in protocol order --------------------------------------------------------------

  lemma TakesHello(w: World, f: R.State, f': R.State)
    requires Good(w, f) && f.phase.AwaitHello? && f' == Feed(w.RC(), f, [Text(Hello(VERSION))])
    ensures Good(w, f') && f'.phase.AwaitManifest? && f'.ids == f.ids && f'.kept == f.kept
  {
    hide Shape, Faithful, Feed;
    FeedOne(w.RC(), f, Text(Hello(VERSION)));
    StepShape(w.RC(), f, Message(Text(Hello(VERSION))), OK);
    FaithfulFrame(w, f, f');
  }

  lemma TakesManifest(w: World, f: R.State, f': R.State)
    requires Good(w, f) && f.phase.AwaitManifest? && S.Sendable(w.files)
    requires f' == Feed(w.RC(), f, [Text(Manifest(S.Metas(w.files)))])
    ensures Good(w, f') && f'.kept == [] && (f'.phase.AwaitStart? || Failing(f'))
  {
    var metas := S.Metas(w.files);
    assert f.kept == [];
    hide Shape, Faithful, R.ValidManifest, S.Metas, S.Sendable, R.Judge, Feed, R.Step, R.WellFormed, R.OnVerdict, Failing;
    FeedOne(w.RC(), f, Text(Manifest(metas)));
    StepShape(w.RC(), f, Message(Text(Manifest(metas))), OK);
    ManifestStep(w.RC(), f, metas);
    OwnManifestValid(w.files);
    VerdictFaithful(w, f, metas, R.Judge(w.RC(), metas));
  }

  lemma ManifestStep(cfg: R.Config, f: R.State, metas: seq<FileMeta>)
    requires R.WellFormed(f) && f.phase.AwaitManifest?
    ensures R.Step(cfg, f, Message(Text(Manifest(metas))), OK) == R.OnVerdict(f, metas, R.Judge(cfg, metas), OK)
    ensures !R.Step(cfg, f, Message(Text(Manifest(metas))), OK).phase.Idle?
  {
    hide R.Judge;
  }

  lemma VerdictFaithful(w: World, f: R.State, metas: seq<FileMeta>, verdict: R.Verdict)
    requires Faithful(w, f) && f.phase.AwaitManifest? && f.kept == []
    requires verdict == R.Judge(w.RC(), metas) && metas == S.Metas(w.files) && R.ValidManifest(metas)
    ensures var f' := R.OnVerdict(f, metas, verdict, OK);
            Faithful(w, f') && f'.kept == [] && (f'.phase.AwaitStart? || Failing(f'))
  {
    hide R.ValidManifest, ValidChoice, Sort;
    var f' := R.OnVerdict(f, metas, verdict, OK);
    if !verdict.Accepting? {
      FaithfulFrame(w, f, f');
    }
  }

  /** The expected file-start opens the file or fails locally. */
  lemma StartEffect(cfg: R.Config, f: R.State, f': R.State)
    requires R.WellFormed(f) && f.phase.AwaitStart? && Sanitize(R.Meta(f).name).NameOk?
    requires f' == R.Step(cfg, f, Message(Text(FileStart(R.Meta(f).id))), OK)
    ensures f'.kept == f.kept && f'.ids == f.ids && f'.files == f.files
    ensures f'.phase == R.Returned(Failed(ErrFile))
            || (f'.phase.InBody? && f'.written == [] && f'.hashed == [] && f'.got == 0)
  {
    hide Sanitize, Dest, R.ById;
  }

  lemma TakesFileStart(w: World, f: R.State, id: int, f': R.State)
    requires Good(w, f) && f.phase.AwaitStart? && S.Sendable(w.files)
    requires id == f.ids[|f.kept|] && f' == Feed(w.RC(), f, [Text(FileStart(id))])
    ensures Good(w, f') && f'.kept == f.kept && f'.ids == f.ids && f'.files == f.files
    ensures Failing(f') || (f'.phase.InBody? && f'.written == [] && f'.hashed == [] && f'.got == 0)
  {
    hide Shape, Faithful, Sanitize, S.Sendable, R.Step, R.ById, S.Metas, R.IdsKnown;
    CurrentMeta(w, f);
    hide R.Meta, Feed;
    FeedOne(w.RC(), f, Text(FileStart(id)));
    StepShape(w.RC(), f, Message(Text(FileStart(id))), OK);
    StartEffect(w.RC(), f, f');
    FaithfulFrame(w, f, f');
  }

  lemma ChunkEffect(cfg: R.Config, f: R.State, d: Bytes, f': R.State)
    requires R.WellFormed(f) && f.phase.InBody?
    requires f' == R.Step(cfg, f, Message(Binary(d)), OK)
    ensures f'.kept == f.kept && f'.ids == f.ids && f'.files == f.files
    ensures if f.got + |d| > R.Meta(f).size then f'.phase == R.Returned(Failed(ErrProtocol))
            else f'.phase.InBody? && f'.written == f.written + d && f'.hashed == f.hashed + d && f'.got == f.got + |d|
  {
    hide R.ById;
  }

  lemma TakesChunk(w: World, f: R.State, d: Bytes, f': R.State)
    requires Good(w, f) && f.phase.InBody? && S.Sendable(w.files)
    requires 0 <= f.ids[|f.kept|] < |w.files| && f.got + |d| <= |w.files[f.ids[|f.kept|]].content|
    requires f' == Feed(w.RC(), f, [Binary(d)])
    ensures Good(w, f') && f'.kept == f.kept && f'.ids == f.ids && f'.files == f.files
    ensures Failing(f')
            || (f'.phase.InBody? && f'.written == f.written + d && f'.hashed == f.hashed + d && f'.got == f.got + |d|)
  {
    hide Shape, Faithful, Sanitize, S.Sendable, R.Step, R.ById, S.Metas, R.IdsKnown, Feed, SomeFileGrew;
    var id := f.ids[|f.kept|];
    CurrentMeta(w, f);
    GrewIfLonger(w, id, f.got + |d|);
    hide R.Meta, R.WellFormed;
    FeedOne(w.RC(), f, Binary(d));
    StepShape(w.RC(), f, Message(Binary(d)), OK);
    ChunkEffect(w.RC(), f, d, f');
    FaithfulFrame(w, f, f');
  }

  lemma GrewIfLonger(w: World, id: int, n: int)
    requires 0 <= id < |w.files| && n <= |w.files[id].content|
    ensures n > w.files[id].size ==> SomeFileGrew(w)
  {
  }

  lemma EqualFoldReflexive(s: string)
    ensures EqualFold(s, s)
  {
  }

  lemma TakesFileEnd(w: World, f: R.State, id: int, sha256: string, f': R.State)
    requires Good(w, f) && f.phase.InBody? && S.Sendable(w.files)
    requires id == f.ids[|f.kept|] && 0 <= id < |w.files| && sha256 == w.sha(f.hashed)
    requires f.written == w.files[id].content && f.hashed == f.written && f.got == |f.written|
    requires |w.files[id].content| == w.files[id].size
    requires f' == Feed(w.RC(), f, [Text(FileEnd(id, sha256))])
    ensures Good(w, f') && |f'.kept| == |f.kept| + 1 && f'.ids == f.ids
    ensures f'.phase.AwaitStart? || f'.phase.AwaitDone?
  {
    hide Shape, Faithful, Sanitize, S.Sendable, EqualFold, R.ById, S.Metas, R.IdsKnown, Feed;
    var m := Text(FileEnd(id, sha256));
    FeedOne(w.RC(), f, m);
    StepShape(w.RC(), f, Message(m), OK);
    CurrentMeta(w, f);
    EqualFoldReflexive(sha256);
    EndStep(w.RC(), f, sha256, f');
    hide R.Step;
    KeptFaithful(w, f, f', sha256);
  }

  lemma KeptFaithful(w: World, f: R.State, f': R.State, sha256: string)
    requires Faithful(w, f) && f.phase.InBody? && |f.kept| < |f.ids| && 0 <= f.ids[|f.kept|] < |w.files|
    requires var file := w.files[f.ids[|f.kept|]]; f.written == file.content && |file.content| == file.size
    requires f'.ids == f.ids && f'.files == f.files && !f'.phase.Returned?
    requires f'.kept == f.kept + [R.Kept(f.ids[|f.kept|], f.path, f.written, sha256)]
    ensures Faithful(w, f')
  {
    hide R.Judge, S.Metas;
    forall i | 0 <= i < |f'.kept|
      ensures FaithfulCopy(w, f', i)
    {
      if i < |f.kept| {
        assert FaithfulCopy(w, f, i);
        assert f'.kept[i] == f.kept[i];
      }
    }
  }

  lemma TakesDone(w: World, f: R.State, f': R.State)
    requires Good(w, f) && f.phase.AwaitDone? && f' == Feed(w.RC(), f, [Text(Done)])
    ensures Good(w, f') && f'.phase == R.Returned(Nil) && f'.ids == f.ids && f'.kept == f.kept
  {
    hide Shape, Faithful, Feed;
    FeedOne(w.RC(), f, Text(Done));
    StepShape(w.RC(), f, Message(Text(Done)), OK);
    FaithfulFrame(w, f, f');
  }

  /** Any running receiver that is told cancel ends, keeping what it has; one that ended stays as it is. */
  lemma TakesCancel(w: World, f: R.State, f': R.State)
    requires Good(w, f) && f' == Feed(w.RC(), f, [Text(Cancel)])
    ensures Good(w, f') && f'.phase.Returned? && f'.ids == f.ids && f'.kept == f.kept
    ensures if f.phase.Returned? then f' == f else f'.phase == R.Returned(Failed(ErrPeerCancel))
  {
    hide Shape, Faithful, Feed;
    FeedOne(w.RC(), f, Text(Cancel));
    if !f.phase.Returned? {
      StepShape(w.RC(), f, Message(Text(Cancel)), OK);
      FaithfulFrame(w, f, f');
    }
  }
}
