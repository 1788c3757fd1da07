/** What the two sides can rely on in every reachable state: outcomes, files, and what is still to come. */
module JointOutcomes {
  import opened Protocol
  import opened Directory
  import opened Acceptance
  import opened Session
  import opened Recogniser
  import opened ReceiverReplies
  import S = Sender
  import R = Receiver
  import RS = ReceiverSafety
  import opened Joint
  import opened JointLink
  import opened JointReceiver
  import opened JointInvariant
  import opened JointRuns

  ghost predicate Reachable(w: World, g: Sys) {
    exists run :: IsRun(w, run) && g == run[|run| - 1]
  }

  lemma ReachableInv(w: World, g: Sys)
    requires Reachable(w, g)
    ensures WellFormed(w, g) && Inv(w, g)
  {
    var run :| IsRun(w, run) && g == run[|run| - 1];
    assert run != [];
    hide IsRun, Link, Shape, RS.DirOk;
    RunInv(w, run, |run| - 1);
  }

  // ----- What a side's result says ----------------------------------------------------------------

  /** The receiver's own result is the one it has when everything in flight has been taken. */
  lemma ReturnedIsFlush(w: World, g: Sys)
    requires WellFormed(w, g) && Inv(w, g) && g.r.phase.Returned?
    ensures Flush(w, g) == g.r && Link(w, g.s, g.r) && Shape(g.r)
  {
    hide Link, Shape, RS.DirOk, Feed, R.WellFormed, S.WellFormed;
    FlushExtends(w, g);
  }

  /** Neither side ever blames its peer: no digest differs, no version, no message is out of place. */
  lemma NobodyAtFault(w: World, g: Sys)
    requires Reachable(w, g)
    ensures g.s.phase.Returned? && g.s.phase.outcome.Failed? ==> !PeerAtFault(g.s.phase.outcome.failure)
    ensures g.r.phase != R.Returned(Failed(ErrHashMismatch)) && g.r.phase != R.Returned(Failed(ErrVersion))
    ensures g.r.phase == R.Returned(Failed(ErrProtocol)) ==> SomeFileGrew(w)
    ensures g.s.phase == S.Returned(Failed(ErrSizeChanged)) ==> SomeSizeWrong(w)
    ensures g.s.pending == [] || g.s.phase.Returned?
  {
    hide Inv, Shape, Feed, R.WellFormed, S.WellFormed, SomeFileGrew, SomeSizeWrong, RS.DirOk, IsRun;
    ReachableInv(w, g);
    if g.r.phase.Returned? {
      ReturnedIsFlush(w, g);
    }
    LinkOfInv(w, g);
  }

  lemma LinkOfInv(w: World, g: Sys)
    requires WellFormed(w, g) && Inv(w, g)
    ensures Link(w, g.s, Flush(w, g)) && Shape(g.r) && RS.DirOk(w.RC(), w.dir, g.r)
  {
  }

  /** Every file the receiver has kept is, bit for bit, the source file of that id, and is on disk. */
  lemma KeptAreSources(w: World, g: Sys, i: nat)
    requires Reachable(w, g) && i < |g.r.kept|
    ensures var kept := g.r.kept[i];
      && 0 <= kept.id < |w.files| && i < |g.r.ids| && kept.id == g.r.ids[i]
      && kept.data == w.files[kept.id].content && |kept.data| == w.files[kept.id].size
      && kept.path !in w.dir && kept.path in g.r.dir && g.r.dir[kept.path] == kept.data
  {
    hide Inv, Shape, Feed, R.WellFormed, S.WellFormed, RS.DirOk, IsRun, Link, Reachable;
    ReachableInv(w, g);
    LinkOfInv(w, g);
    FlushExtendsInv(w, g);
    KeptFaithful(w, g, Flush(w, g), i);
    RS.StoredFresh(w.RC(), w.dir, g.r, |g.r.kept|) by {
      DirFacts(w, g.r);
    }
    assert g.r.kept[..|g.r.kept|] == g.r.kept;
    RS.PlaceStores(w.dir, g.r.kept, i);
    DirFacts(w, g.r);
    KeptOnDisk(w, g.r, i);
  }

  /**
   * Every kept file lies under the sanitized name of its source, or under the first free numbering of it, in
   * the directory that holds what was there before and the files kept earlier.
   */
  lemma KeptUnderOwnNames(w: World, g: Sys, i: nat)
    requires Reachable(w, g) && i < |g.r.kept|
    ensures i < |g.r.ids| && 0 <= g.r.ids[i] < |w.files|
    ensures var name := Sanitize(w.files[g.r.ids[i]].name);
      name.NameOk? && LeastFree(RS.Place(w.dir, g.r.kept[..i]), name.name, g.r.kept[i].path)
  {
    hide Inv, Shape, R.WellFormed, S.WellFormed, RS.DirOk, IsRun, Link, Reachable, Sanitize, Flush, LeastFree, Dest, Extends;
    ReachableInv(w, g);
    LinkOfInv(w, g);
    FlushExtendsInv(w, g);
    KeptAreSources(w, g, i);
    DirFacts(w, g.r);
    assert RS.StoredAt(w.RC(), w.dir, g.r, i);
    hide R.ById, S.Metas;
    ManifestOfKept(w, g, Flush(w, g));
    AnnouncedName(w, g.r.ids[i]);
    DestExactly(RS.Place(w.dir, g.r.kept[..i]), Sanitize(w.files[g.r.ids[i]].name).name);
  }

  lemma ManifestOfKept(w: World, g: Sys, f: R.State)
    requires Link(w, g.s, f) && Extends(g.r, f) && Shape(g.r) && g.r.kept != []
    ensures g.r.files == S.Metas(w.files) && R.Judge(w.RC(), g.r.files).Accepting?
  {
    hide S.Metas, R.Judge, Replies, LastWords, FaithfulCopy, Ended, Counts, Synced, SenderOk;
  }

  /** The receiver's table holds the sender's own sanitized name, and sanitizing it again changes nothing. */
  lemma AnnouncedName(w: World, id: int)
    requires R.Judge(w.RC(), S.Metas(w.files)).Accepting? && 0 <= id < |w.files|
    ensures id in R.ById(S.Metas(w.files))
    ensures Sanitize(w.files[id].name).NameOk?
    ensures Sanitize(R.ById(S.Metas(w.files))[id].name) == Sanitize(w.files[id].name)
  {
    var metas := S.Metas(w.files);
    ByIdOfMetas(w.files, metas, |metas|, id);
    assert metas[..|metas|] == metas;
    assert R.ValidManifest(metas);
    hide Sanitize, R.ById;
    AnnouncedOk(w.files, id);
    SanitizeIdempotent(w.files[id].name);
  }

  lemma AnnouncedOk(files: seq<S.File>, id: int)
    requires 0 <= id < |files| && Sanitize(S.Metas(files)[id].name).NameOk?
    ensures Sanitize(files[id].name).NameOk? && S.Metas(files)[id].name == Sanitize(files[id].name).name
  {
    assert Sanitize("") == NameInvalid;
  }

  lemma FlushExtendsInv(w: World, g: Sys)
    requires WellFormed(w, g) && Inv(w, g)
    ensures Extends(g.r, Flush(w, g))
  {
    hide Link, Shape, RS.DirOk, Feed;
    FlushExtends(w, g);
  }

  lemma KeptFaithful(w: World, g: Sys, f: R.State, i: nat)
    requires Link(w, g.s, f) && Extends(g.r, f) && Shape(g.r) && i < |g.r.kept|
    ensures g.r.ids == f.ids && i < |g.r.ids| && g.r.kept[i] == f.kept[i] && |f.kept| <= |f.ids|
    ensures FaithfulCopy(w, f, i)
  {
    hide R.Judge, S.Metas, Replies, LastWords, FaithfulCopy, Ended, Counts, Synced, SenderOk;
  }

  lemma DirFacts(w: World, r: R.State)
    requires RS.DirOk(w.RC(), w.dir, r)
    ensures RS.AllStored(w.RC(), w.dir, r)
    ensures r.phase.InBody? ==> R.WellFormed(r) && RS.BodyOk(w.dir, r)
    ensures !r.phase.InBody? ==> r.dir == RS.Place(w.dir, r.kept)
  {
    hide RS.StoredAt, Dest, Sanitize;
  }

  lemma KeptOnDisk(w: World, r: R.State, i: nat)
    requires RS.DirOk(w.RC(), w.dir, r) && i < |r.kept|
    requires r.kept[i].path in RS.Place(w.dir, r.kept) && RS.Place(w.dir, r.kept)[r.kept[i].path] == r.kept[i].data
    ensures r.kept[i].path in r.dir && r.dir[r.kept[i].path] == r.kept[i].data
  {
    hide RS.AllStored, Sanitize, RS.Place;
  }

  /** Send returned nil: every accepted file is at the receiver, verified, kept and equal to its source. */
  lemma SendNilMeansDelivered(w: World, g: Sys)
    requires Reachable(w, g) && g.s.phase == S.Returned(Nil)
    ensures g.r.ids == g.s.ids && |g.r.kept| == |g.s.ids| > 0
    ensures forall i: nat | i < |g.s.ids| ::
      && 0 <= g.s.ids[i] < |w.files|
      && g.r.kept[i].path in g.r.dir
      && g.r.dir[g.r.kept[i].path] == w.files[g.s.ids[i]].content
  {
    hide Shape, Feed, R.WellFormed, S.WellFormed, RS.DirOk, IsRun, Faithful, Reachable;
    ReachableInv(w, g);
    assert g.r.ids == g.s.ids && |g.r.kept| == |g.r.ids| && g.s.ids != [];
    hide Inv, Link;
    forall i: nat | i < |g.s.ids|
      ensures
        && 0 <= g.s.ids[i] < |w.files|
        && g.r.kept[i].path in g.r.dir
        && g.r.dir[g.r.kept[i].path] == w.files[g.s.ids[i]].content
    {
      KeptAreSources(w, g, i);
    }
  }

  /** Receive returned nil: Send has returned nil too. */
  lemma ReceiveNilMeansSendNil(w: World, g: Sys)
    requires Reachable(w, g) && g.r.phase == R.Returned(Nil)
    ensures g.s.phase == S.Returned(Nil)
  {
    hide Inv, Shape, Feed, R.WellFormed, S.WellFormed, RS.DirOk, IsRun, Faithful, Reachable;
    ReachableInv(w, g);
    ReturnedIsFlush(w, g);
    hide SenderOk, Counts;
  }

  /** Send was rejected: the receiver has chosen nothing and its directory is as it was. */
  lemma RejectedMeansUntouched(w: World, g: Sys)
    requires Reachable(w, g) && g.s.phase == S.Returned(Failed(ErrRejected))
    ensures g.r.ids == [] && g.r.kept == [] && g.r.dir == w.dir
  {
    hide Inv, Shape, Feed, S.WellFormed, RS.DirOk, IsRun, Faithful, Reachable, Flush;
    ReachableInv(w, g);
    LinkOfInv(w, g);
    FlushExtendsInv(w, g);
    assert g.r.ids == [];
    StoredWithinIds(w, g.r);
    DirFacts(w, g.r);
  }
}
