/** Which message sequences the receiver completes on: the TP/1 grammar, stated by printing transcripts. */
module Recogniser {
  import opened Protocol
  import opened Directory
  import opened Acceptance
  import opened Session
  import opened Receiver

  const OK := Io(true, true, true)

  // ----- The grammar --------------------------------------------------------------------------

  /** One file on the wire: its chunks and the digest that follows them. */
  datatype Block = Block(chunks: seq<Bytes>, sha256: string)

  function RenderBody(id: int, chunks: seq<Bytes>, sha256: string): seq<Msg> {
    if chunks == [] then [Text(FileEnd(id, sha256))]
    else [Binary(chunks[0])] + RenderBody(id, chunks[1..], sha256)
  }

  /** Per accepted id in order: file-start, chunks, file-end; then done. */
  function RenderBlocks(ids: seq<int>, blocks: seq<Block>): seq<Msg>
    requires |ids| == |blocks|
    decreases |ids|
  {
    if blocks == [] then [Text(Done)]
    else
      [Text(FileStart(ids[0]))] + RenderBody(ids[0], blocks[0].chunks, blocks[0].sha256)
      + RenderBlocks(ids[1..], blocks[1..])
  }

  /** A file's chunks make up the declared size and hash to the given digest. */
  predicate BlockOk(cfg: Config, meta: FileMeta, b: Block) {
    |Concat(b.chunks)| == meta.size && EqualFold(cfg.sha(Concat(b.chunks)), b.sha256)
  }

  function WireName(meta: FileMeta): string {
    var name := Sanitize(meta.name);
    if name.NameOk? then name.name else ""
  }

  /** Every block is right for its file, and the directory has a free name for each in turn. */
  predicate BlocksOk(cfg: Config, files: seq<FileMeta>, dir: Dir, ids: seq<int>, blocks: seq<Block>)
    decreases |ids|
  {
    && |ids| == |blocks|
    && (ids != [] ==>
          && ids[0] in ById(files)
          && var meta := ById(files)[ids[0]];
             var dest := Dest(dir, WireName(meta));
          && Sanitize(meta.name).NameOk?
          && BlockOk(cfg, meta, blocks[0])
          && dest.Some?
          && BlocksOk(cfg, files, dir[dest.value := Concat(blocks[0].chunks)], ids[1..], blocks[1..]))
  }

  /** What the receiver stores for such blocks. */
  function Filed(files: seq<FileMeta>, dir: Dir, ids: seq<int>, blocks: seq<Block>): seq<Kept>
    requires |ids| == |blocks|
    decreases |ids|
  {
    if ids == [] || ids[0] !in ById(files) then []
    else
      var dest := Dest(dir, WireName(ById(files)[ids[0]]));
      if dest == None then []
      else
        var data := Concat(blocks[0].chunks);
        [Kept(ids[0], dest.value, data, blocks[0].sha256)]
        + Filed(files, dir[dest.value := data], ids[1..], blocks[1..])
  }

  /** A complete session after hello: a manifest and one block per accepted id. */
  datatype Transcript = Transcript(files: seq<FileMeta>, blocks: seq<Block>)

  predicate ValidTranscript(cfg: Config, dir: Dir, t: Transcript) {
    && Judge(cfg, t.files).Accepting?
    && BlocksOk(cfg, t.files, dir, Judge(cfg, t.files).ids, t.blocks)
  }

  function Render(cfg: Config, dir: Dir, t: Transcript): seq<Msg>
    requires ValidTranscript(cfg, dir, t)
  {
    [Text(Manifest(t.files))] + RenderBlocks(Judge(cfg, t.files).ids, t.blocks)
  }

  /** Drops the messages of unknown type. */
  function Erase(msgs: seq<Msg>): seq<Msg> {
    if msgs == [] then []
    else (if IsUnknown(msgs[0]) then [] else [msgs[0]]) + Erase(msgs[1..])
  }

  ghost predicate Sentence(cfg: Config, dir: Dir, t: Transcript, msgs: seq<Msg>) {
    && msgs != [] && msgs[0] == Text(Hello(VERSION))
    && ValidTranscript(cfg, dir, t)
    && Render(cfg, dir, t) <= Erase(msgs[1..])
  }

  // ----- Feeding messages ---------------------------------------------------------------------

  /** The receiver after a list of messages, with no local fault. */
  function Feed(cfg: Config, r: State, msgs: seq<Msg>): (r': State)
    requires WellFormed(r)
    ensures WellFormed(r')
    decreases |msgs|
  {
    if msgs == [] then r else Feed(cfg, Step(cfg, r, Message(msgs[0]), OK), msgs[1..])
  }

  lemma {:induction false} FeedConcat(cfg: Config, r: State, a: seq<Msg>, b: seq<Msg>)
    requires WellFormed(r)
    ensures Feed(cfg, r, a + b) == Feed(cfg, Feed(cfg, r, a), b)
    decreases |a|
  {
    if a == [] {
      assert a + b == b;
    } else {
      assert (a + b)[1..] == a[1..] + b;
      FeedConcat(cfg, Step(cfg, r, Message(a[0]), OK), a[1..], b);
    }
  }

  lemma FeedOne(cfg: Config, r: State, m: Msg)
    requires WellFormed(r)
    ensures Feed(cfg, r, [m]) == Step(cfg, r, Message(m), OK)
  {
    assert Feed(cfg, Step(cfg, r, Message(m), OK), [m][1..]) == Step(cfg, r, Message(m), OK);
  }

  lemma {:induction false} FeedReturned(cfg: Config, r: State, msgs: seq<Msg>)
    requires WellFormed(r) && r.phase.Returned?
    ensures Feed(cfg, r, msgs) == r
    decreases |msgs|
  {
    if msgs != [] {
      FeedReturned(cfg, r, msgs[1..]);
    }
  }

  function Plain(msgs: seq<Msg>): seq<Input> {
    seq(|msgs|, i requires 0 <= i < |msgs| => Input(Message(msgs[i]), OK))
  }

  lemma {:induction false} FeedIsRun(cfg: Config, r: State, msgs: seq<Msg>)
    requires WellFormed(r)
    ensures Feed(cfg, r, msgs) == Run(cfg, r, Plain(msgs))
    decreases |msgs|
  {
    if msgs != [] {
      FeedIsRun(cfg, Step(cfg, r, Message(msgs[0]), OK), msgs[1..]);
      assert Plain(msgs)[1..] == Plain(msgs[1..]);
    }
  }

  /** After hello, messages of unknown type make no difference. */
  lemma {:induction false} FeedErased(cfg: Config, r: State, msgs: seq<Msg>)
    requires WellFormed(r) && !r.phase.AwaitHello? && !r.phase.Idle?
    ensures Feed(cfg, r, msgs) == Feed(cfg, r, Erase(msgs))
    decreases |msgs|
  {
    if msgs != [] {
      var r' := Step(cfg, r, Message(msgs[0]), OK);
      NeverBackToHello(cfg, r, msgs[0]);
      FeedErased(cfg, r', msgs[1..]);
      if IsUnknown(msgs[0]) {
        assert Erase(msgs) == Erase(msgs[1..]);
      } else {
        assert Erase(msgs)[1..] == Erase(msgs[1..]);
      }
    }
  }

  lemma NeverBackToHello(cfg: Config, r: State, m: Msg)
    requires WellFormed(r) && !r.phase.AwaitHello? && !r.phase.Idle?
    ensures var r' := Step(cfg, r, Message(m), OK); !r'.phase.AwaitHello? && !r'.phase.Idle?
    ensures IsUnknown(m) ==> Step(cfg, r, Message(m), OK) == r
  {
  }

  // ----- What is still to come, phase by phase ---------------------------------------------------

  datatype Rest = Rest(files: seq<FileMeta>, chunks: seq<Bytes>, sha256: string, blocks: seq<Block>)

  ghost predicate BodyConsistent(r: State) {
    r.got == |r.written| && r.hashed == r.written && r.path in r.dir && r.dir[r.path] == r.written
  }

  ghost predicate RestOk(cfg: Config, r: State, rest: Rest)
    requires WellFormed(r)
  {
    match r.phase
    case AwaitManifest => ValidTranscript(cfg, r.dir, Transcript(rest.files, rest.blocks))
    case AwaitStart => BlocksOk(cfg, r.files, r.dir, r.ids[|r.kept|..], rest.blocks)
    case InBody =>
      var data := r.written + Concat(rest.chunks);
      && BodyConsistent(r)
      && |data| == Meta(r).size
      && EqualFold(cfg.sha(data), rest.sha256)
      && BlocksOk(cfg, r.files, r.dir[r.path := data], r.ids[|r.kept| + 1..], rest.blocks)
    case AwaitDone => rest.blocks == []
    case _ => false
  }

  ghost function RenderRest(cfg: Config, r: State, rest: Rest): seq<Msg>
    requires WellFormed(r) && RestOk(cfg, r, rest)
  {
    match r.phase
    case AwaitManifest => Render(cfg, r.dir, Transcript(rest.files, rest.blocks))
    case AwaitStart => RenderBlocks(r.ids[|r.kept|..], rest.blocks)
    case InBody =>
      RenderBody(Meta(r).id, rest.chunks, rest.sha256) + RenderBlocks(r.ids[|r.kept| + 1..], rest.blocks)
    case _ => [Text(Done)]
  }

  ghost function FiledRest(cfg: Config, r: State, rest: Rest): seq<Kept>
    requires WellFormed(r) && RestOk(cfg, r, rest)
  {
    match r.phase
    case AwaitManifest => Filed(rest.files, r.dir, Judge(cfg, rest.files).ids, rest.blocks)
    case AwaitStart => Filed(r.files, r.dir, r.ids[|r.kept|..], rest.blocks)
    case InBody =>
      var data := r.written + Concat(rest.chunks);
      [Kept(Meta(r).id, r.path, data, rest.sha256)]
      + Filed(r.files, r.dir[r.path := data], r.ids[|r.kept| + 1..], rest.blocks)
    case _ => []
  }

  /** The rest after the next message of the rest. */
  ghost function NextRest(r: State, rest: Rest): Rest
    requires WellFormed(r)
  {
    match r.phase
    case AwaitStart =>
      if rest.blocks == [] then rest
      else Rest(rest.files, rest.blocks[0].chunks, rest.blocks[0].sha256, rest.blocks[1..])
    case InBody =>
      if rest.chunks != [] then rest.(chunks := rest.chunks[1..])
      else Rest(rest.files, [], "", rest.blocks)
    case _ => rest
  }

  /** Following the grammar one message is one step of the machine. */
  lemma Follow1(cfg: Config, r: State, rest: Rest)
    requires WellFormed(r) && RestOk(cfg, r, rest) && !r.phase.AwaitDone?
    ensures var m := RenderRest(cfg, r, rest)[0];
            var r' := Step(cfg, r, Message(m), OK);
            var rest' := NextRest(r, rest);
            && RestOk(cfg, r', rest')
            && RenderRest(cfg, r, rest) == [m] + RenderRest(cfg, r', rest')
            && r.kept + FiledRest(cfg, r, rest) == r'.kept + FiledRest(cfg, r', rest')
  {
    match r.phase
    case AwaitManifest => FollowManifest(cfg, r, rest);
    case AwaitStart => FollowStart(cfg, r, rest);
    case InBody =>
      if rest.chunks != [] {
        FollowChunk(cfg, r, rest);
      } else {
        FollowEnd(cfg, r, rest);
      }
    case _ =>
  }

  lemma FollowManifest(cfg: Config, r: State, rest: Rest)
    requires WellFormed(r) && RestOk(cfg, r, rest) && r.phase.AwaitManifest?
    ensures var m := Text(Manifest(rest.files));
            var r' := Step(cfg, r, Message(m), OK);
            && RestOk(cfg, r', rest)
            && RenderRest(cfg, r, rest) == [m] + RenderRest(cfg, r', rest)
            && FiledRest(cfg, r, rest) == FiledRest(cfg, r', rest) && r'.kept == r.kept
  {
    hide BlocksOk, Filed, Dest, Sanitize;
    JudgedIds(cfg, rest.files);
    var ids := Judge(cfg, rest.files).ids;
    assert ids[0..] == ids;
  }

  /** The step on the expected file-start. */
  lemma StartStep(cfg: Config, r: State, r': State)
    requires WellFormed(r) && r.phase.AwaitStart?
    requires Sanitize(Meta(r).name).NameOk? && Dest(r.dir, WireName(Meta(r))).Some?
    requires r' == Step(cfg, r, Message(Text(FileStart(Meta(r).id))), OK)
    ensures r'.phase == InBody && r'.files == r.files && r'.ids == r.ids && r'.kept == r.kept
    ensures Some(r'.path) == Dest(r.dir, WireName(Meta(r))) && r'.dir == r.dir[r'.path := []]
    ensures r'.written == [] && r'.hashed == [] && r'.got == 0
    ensures Meta(r') == Meta(r)
  {
    hide Dest, ById;
  }

  lemma Assoc<T>(a: seq<T>, b: seq<T>, c: seq<T>)
    ensures (a + b) + c == a + (b + c)
  {
  }

  lemma UnfoldRender(ids: seq<int>, blocks: seq<Block>)
    requires |ids| == |blocks| && ids != []
    ensures RenderBlocks(ids, blocks)
         == [Text(FileStart(ids[0]))]
            + (RenderBody(ids[0], blocks[0].chunks, blocks[0].sha256) + RenderBlocks(ids[1..], blocks[1..]))
  {
    Assoc([Text(FileStart(ids[0]))], RenderBody(ids[0], blocks[0].chunks, blocks[0].sha256),
          RenderBlocks(ids[1..], blocks[1..]));
  }

  lemma UnfoldBlocks(cfg: Config, files: seq<FileMeta>, dir: Dir, ids: seq<int>, blocks: seq<Block>, path: string)
    requires BlocksOk(cfg, files, dir, ids, blocks) && ids != []
    requires Dest(dir, WireName(ById(files)[ids[0]])) == Some(path)
    ensures BlockOk(cfg, ById(files)[ids[0]], blocks[0])
    ensures BlocksOk(cfg, files, dir[path := Concat(blocks[0].chunks)], ids[1..], blocks[1..])
  {
  }

  lemma UnfoldFiled(files: seq<FileMeta>, dir: Dir, ids: seq<int>, blocks: seq<Block>, path: string)
    requires |ids| == |blocks| && ids != [] && ids[0] in ById(files)
    requires Dest(dir, WireName(ById(files)[ids[0]])) == Some(path)
    ensures Filed(files, dir, ids, blocks)
         == [Kept(ids[0], path, Concat(blocks[0].chunks), blocks[0].sha256)]
            + Filed(files, dir[path := Concat(blocks[0].chunks)], ids[1..], blocks[1..])
  {
  }

  lemma FollowStart(cfg: Config, r: State, rest: Rest)
    requires WellFormed(r) && RestOk(cfg, r, rest) && r.phase.AwaitStart?
    ensures var m := Text(FileStart(Meta(r).id));
            var r' := Step(cfg, r, Message(m), OK);
            var rest' := NextRest(r, rest);
            && RestOk(cfg, r', rest')
            && RenderRest(cfg, r, rest) == [m] + RenderRest(cfg, r', rest')
            && FiledRest(cfg, r, rest) == FiledRest(cfg, r', rest') && r'.kept == r.kept
  {
    var todo := r.ids[|r.kept|..];
    BlocksFacts(cfg, r, rest, todo);
    FirstBlock(cfg, r, rest);
    hide BlocksOk, Filed, Dest, Sanitize, RestOk, RenderRest, FiledRest, RenderBlocks, RenderBody;
    var r' := Step(cfg, r, Message(Text(FileStart(Meta(r).id))), OK);
    var data := Concat(rest.blocks[0].chunks);
    StartStep(cfg, r, r');
    hide Step, Concat;
    UnfoldBlocks(cfg, r.files, r.dir, todo, rest.blocks, r'.path);
    UnfoldRender(todo, rest.blocks);
    UnfoldFiled(r.files, r.dir, todo, rest.blocks, r'.path);
    assert r'.written + data == data;
    Overwritten(r.dir, r'.path, [], data);
    BodyRest(cfg, r', NextRest(r, rest), data, r.dir[r'.path := data]);
    BlocksRest(cfg, r, rest, todo);
  }

  lemma FirstBlock(cfg: Config, r: State, rest: Rest)
    requires WellFormed(r) && RestOk(cfg, r, rest) && r.phase.AwaitStart?
    ensures rest.blocks != [] && Sanitize(Meta(r).name).NameOk? && Dest(r.dir, WireName(Meta(r))).Some?
    ensures var todo := r.ids[|r.kept|..]; todo[0] == r.ids[|r.kept|] && todo[1..] == r.ids[|r.kept| + 1..]
    ensures |rest.blocks| == |r.ids| - |r.kept|
  {
    hide Dest, Sanitize, ById, BlockOk;
  }

  /** Membership of a rest at the state inside a file, spelled out. */
  lemma BodyRest(cfg: Config, r: State, rest: Rest, data: Bytes, dir: Dir)
    requires WellFormed(r) && r.phase.InBody? && BodyConsistent(r)
    requires data == r.written + Concat(rest.chunks) && dir == r.dir[r.path := data]
    requires |data| == Meta(r).size && EqualFold(cfg.sha(data), rest.sha256)
    requires BlocksOk(cfg, r.files, dir, r.ids[|r.kept| + 1..], rest.blocks)
    ensures RestOk(cfg, r, rest)
    ensures RenderRest(cfg, r, rest)
         == RenderBody(Meta(r).id, rest.chunks, rest.sha256) + RenderBlocks(r.ids[|r.kept| + 1..], rest.blocks)
    ensures FiledRest(cfg, r, rest)
         == [Kept(Meta(r).id, r.path, data, rest.sha256)]
            + Filed(r.files, dir, r.ids[|r.kept| + 1..], rest.blocks)
  {
  }

  lemma FollowChunk(cfg: Config, r: State, rest: Rest)
    requires WellFormed(r) && RestOk(cfg, r, rest) && r.phase.InBody? && rest.chunks != []
    ensures var m := Binary(rest.chunks[0]);
            var r' := Step(cfg, r, Message(m), OK);
            var rest' := NextRest(r, rest);
            && RestOk(cfg, r', rest')
            && RenderRest(cfg, r, rest) == [m] + RenderRest(cfg, r', rest')
            && FiledRest(cfg, r, rest) == FiledRest(cfg, r', rest') && r'.kept == r.kept
  {
    hide BlocksOk, Filed, Dest, Sanitize;
    var r' := Step(cfg, r, Message(Binary(rest.chunks[0])), OK);
    var data := r.written + Concat(rest.chunks);
    assert data == (r.written + rest.chunks[0]) + Concat(rest.chunks[1..]);
    assert Meta(r') == Meta(r);
    assert r'.dir[r'.path := data] == r.dir[r.path := data];
  }

  /** The step on the expected file-end. */
  lemma EndStep(cfg: Config, r: State, sha256: string, r': State)
    requires WellFormed(r) && r.phase.InBody? && r.got == Meta(r).size && EqualFold(cfg.sha(r.hashed), sha256)
    requires r' == Step(cfg, r, Message(Text(FileEnd(Meta(r).id, sha256))), OK)
    ensures r'.phase == if |r.kept| + 1 == |r.ids| then AwaitDone else AwaitStart
    ensures r'.files == r.files && r'.ids == r.ids && r'.dir == r.dir
    ensures r'.kept == r.kept + [Kept(Meta(r).id, r.path, r.written, sha256)]
  {
  }

  lemma FollowEnd(cfg: Config, r: State, rest: Rest)
    requires WellFormed(r) && RestOk(cfg, r, rest) && r.phase.InBody? && rest.chunks == []
    ensures var m := Text(FileEnd(Meta(r).id, rest.sha256));
            var r' := Step(cfg, r, Message(m), OK);
            var rest' := NextRest(r, rest);
            && RestOk(cfg, r', rest')
            && RenderRest(cfg, r, rest) == [m] + RenderRest(cfg, r', rest')
            && r.kept + FiledRest(cfg, r, rest) == r'.kept + FiledRest(cfg, r', rest')
  {
    hide BlocksOk, Filed, Dest, Sanitize, RestOk, RenderRest, FiledRest, RenderBlocks, Step, Concat, EqualFold, IdsKnown;
    LastChunkTaken(cfg, r, rest);
    BodyFacts(cfg, r, rest, r.written, r.dir);
    var r' := Step(cfg, r, Message(Text(FileEnd(Meta(r).id, rest.sha256))), OK);
    EndStep(cfg, r, rest.sha256, r');
    var todo := r.ids[|r.kept| + 1..];
    assert todo == r'.ids[|r'.kept|..];
    BlocksRest(cfg, r', NextRest(r, rest), todo);
    BodyRest(cfg, r, rest, r.written, r.dir);
    Assoc(r.kept, [Kept(Meta(r).id, r.path, r.written, rest.sha256)], Filed(r.files, r.dir, todo, rest.blocks));
  }

  lemma LastChunkTaken(cfg: Config, r: State, rest: Rest)
    requires WellFormed(r) && RestOk(cfg, r, rest) && r.phase.InBody? && rest.chunks == []
    ensures BodyConsistent(r) && r.written + Concat(rest.chunks) == r.written
    ensures r.dir[r.path := r.written] == r.dir
    ensures |rest.blocks| == |r.ids[|r.kept| + 1..]|
  {
    hide Filed, Dest, Sanitize, EqualFold, ById, IdsKnown;
  }

  /** Membership of a rest at a state between files, spelled out. */
  lemma BlocksRest(cfg: Config, r: State, rest: Rest, todo: seq<int>)
    requires WellFormed(r) && |r.kept| <= |r.ids| && todo == r.ids[|r.kept|..]
    requires r.phase == if |r.kept| == |r.ids| then AwaitDone else AwaitStart
    requires BlocksOk(cfg, r.files, r.dir, todo, rest.blocks)
    ensures RestOk(cfg, r, rest)
    ensures RenderRest(cfg, r, rest) == RenderBlocks(todo, rest.blocks)
    ensures FiledRest(cfg, r, rest) == Filed(r.files, r.dir, todo, rest.blocks)
  {
  }

  lemma RenderRestNonempty(cfg: Config, r: State, rest: Rest)
    requires WellFormed(r) && RestOk(cfg, r, rest)
    ensures RenderRest(cfg, r, rest) != []
  {
  }

  /** Completeness: the machine completes on every rendering, storing exactly its files. */
  lemma {:induction false} FollowAll(cfg: Config, r: State, rest: Rest)
    requires WellFormed(r) && RestOk(cfg, r, rest)
    ensures Feed(cfg, r, RenderRest(cfg, r, rest)).phase == Returned(Nil)
    ensures Feed(cfg, r, RenderRest(cfg, r, rest)).kept == r.kept + FiledRest(cfg, r, rest)
    decreases |RenderRest(cfg, r, rest)|
  {
    var msgs := RenderRest(cfg, r, rest);
    if r.phase.AwaitDone? {
      FeedOne(cfg, r, Text(Done));
    } else {
      RenderRestNonempty(cfg, r, rest);
      Follow1(cfg, r, rest);
      var r' := Step(cfg, r, Message(msgs[0]), OK);
      assert msgs[1..] == RenderRest(cfg, r', NextRest(r, rest));
      FollowAll(cfg, r', NextRest(r, rest));
    }
  }

  // ----- Soundness: a completed run can be read back -------------------------------------------

  ghost predicate Consistent(r: State) {
    r.phase.InBody? ==> BodyConsistent(r)
  }

  lemma StepConsistent(cfg: Config, r: State, m: Msg)
    requires WellFormed(r) && Consistent(r)
    ensures Consistent(Step(cfg, r, Message(m), OK))
  {
    if r.phase.InBody? && m.Binary? {
      var r' := Step(cfg, r, Message(m), OK);
      assert r'.phase.InBody? ==> r'.dir == r.dir[r.path := r.written + m.data];
    }
  }

  ghost predicate Tidy(r: State, rest: Rest) {
    r.phase.AwaitStart? || r.phase.AwaitDone? ==> rest.chunks == [] && rest.sha256 == ""
  }

  /** The rest before message m, from the rest after it. */
  ghost function PrevRest(r: State, m: Msg, rest: Rest): Rest {
    match r.phase
    case AwaitManifest => if m.Text? && m.control.Manifest? then rest.(files := m.control.files) else rest
    case AwaitStart => Rest(rest.files, [], "", [Block(rest.chunks, rest.sha256)] + rest.blocks)
    case InBody =>
      if m.Binary? then rest.(chunks := [m.data] + rest.chunks)
      else if m.Text? && m.control.FileEnd? then Rest(rest.files, [], m.control.sha256, rest.blocks)
      else rest
    case _ => rest
  }

  /** A message that does not end the session is one the grammar allows next. */
  lemma Backtrack(cfg: Config, r: State, m: Msg, rest: Rest)
    requires WellFormed(r) && Waiting(r) && Consistent(r) && !IsUnknown(m)
    requires !r.phase.AwaitHello? && !r.phase.AwaitDone?
    requires var r' := Step(cfg, r, Message(m), OK); Waiting(r') && RestOk(cfg, r', rest) && Tidy(r', rest)
    ensures var before := PrevRest(r, m, rest);
            && RestOk(cfg, r, before) && Tidy(r, before)
            && RenderRest(cfg, r, before)[0] == m && NextRest(r, before).(files := rest.files) == rest
  {
    match r.phase
    case AwaitManifest => BacktrackManifest(cfg, r, m, rest);
    case AwaitStart => BacktrackStart(cfg, r, m, rest);
    case InBody => if m.Binary? { BacktrackChunk(cfg, r, m, rest); } else { BacktrackEnd(cfg, r, m, rest); }
    case _ =>
  }

  lemma BacktrackManifest(cfg: Config, r: State, m: Msg, rest: Rest)
    requires WellFormed(r) && !IsUnknown(m) && r.phase.AwaitManifest?
    requires var r' := Step(cfg, r, Message(m), OK); Waiting(r') && RestOk(cfg, r', rest)
    ensures var before := PrevRest(r, m, rest); RestOk(cfg, r, before) && RenderRest(cfg, r, before)[0] == m
  {
    hide BlocksOk, Filed, Dest, Sanitize;
    var r' := Step(cfg, r, Message(m), OK);
    assert m.Text? && m.control.Manifest?;
    assert r'.ids[|r'.kept|..] == r'.ids;
  }

  lemma BodyFacts(cfg: Config, r: State, rest: Rest, data: Bytes, dir: Dir)
    requires WellFormed(r) && r.phase.InBody? && RestOk(cfg, r, rest)
    requires data == r.written + Concat(rest.chunks) && dir == r.dir[r.path := data]
    ensures |data| == Meta(r).size && EqualFold(cfg.sha(data), rest.sha256)
    ensures BlocksOk(cfg, r.files, dir, r.ids[|r.kept| + 1..], rest.blocks)
  {
  }

  /** Only the expected file-start leads into a file. */
  lemma OnlyFileStart(cfg: Config, r: State, m: Msg)
    requires WellFormed(r) && !IsUnknown(m) && r.phase.AwaitStart?
    requires Waiting(Step(cfg, r, Message(m), OK))
    ensures m == Text(FileStart(Meta(r).id))
    ensures Sanitize(Meta(r).name).NameOk? && Dest(r.dir, WireName(Meta(r))).Some?
  {
  }

  lemma BacktrackStart(cfg: Config, r: State, m: Msg, rest: Rest)
    requires WellFormed(r) && !IsUnknown(m) && r.phase.AwaitStart?
    requires var r' := Step(cfg, r, Message(m), OK); Waiting(r') && RestOk(cfg, r', rest)
    ensures var before := PrevRest(r, m, rest); RestOk(cfg, r, before) && RenderRest(cfg, r, before)[0] == m
    ensures NextRest(r, PrevRest(r, m, rest)) == rest
  {
    hide BlocksOk, Filed, Dest, Sanitize;
    var r' := Step(cfg, r, Message(m), OK);
    OnlyFileStart(cfg, r, m);
    StartStep(cfg, r, r');
    var todo := r.ids[|r.kept|..];
    assert todo[0] == r.ids[|r.kept|] && todo[1..] == r.ids[|r.kept| + 1..];
    var blocks := [Block(rest.chunks, rest.sha256)] + rest.blocks;
    assert blocks[1..] == rest.blocks;
    var data := Concat(rest.chunks);
    assert r'.written + data == data;
    Overwritten(r.dir, r'.path, [], data);
    BodyFacts(cfg, r', rest, data, r.dir[r'.path := data]);
    FoldBlocks(cfg, r.files, r.dir, todo, blocks, r'.path);
    UnfoldRender(todo, blocks);
    BlocksRest(cfg, r, PrevRest(r, m, rest), todo);
  }

  lemma FoldBlocks(cfg: Config, files: seq<FileMeta>, dir: Dir, ids: seq<int>, blocks: seq<Block>, path: string)
    requires ids != [] && blocks != [] && ids[0] in ById(files) && Sanitize(ById(files)[ids[0]].name).NameOk?
    requires Dest(dir, WireName(ById(files)[ids[0]])) == Some(path)
    requires BlockOk(cfg, ById(files)[ids[0]], blocks[0])
    requires BlocksOk(cfg, files, dir[path := Concat(blocks[0].chunks)], ids[1..], blocks[1..])
    ensures BlocksOk(cfg, files, dir, ids, blocks)
  {
  }

  lemma BacktrackChunk(cfg: Config, r: State, m: Msg, rest: Rest)
    requires WellFormed(r) && r.phase.InBody? && m.Binary? && Consistent(r)
    requires var r' := Step(cfg, r, Message(m), OK); Waiting(r') && RestOk(cfg, r', rest)
    ensures var before := PrevRest(r, m, rest); RestOk(cfg, r, before) && RenderRest(cfg, r, before)[0] == m
    ensures NextRest(r, PrevRest(r, m, rest)) == rest
  {
    hide BlocksOk, Filed, Dest, Sanitize;
    var r' := Step(cfg, r, Message(m), OK);
    var chunks := [m.data] + rest.chunks;
    assert chunks[1..] == rest.chunks;
    var data := r.written + Concat(chunks);
    assert data == r'.written + Concat(rest.chunks);
    assert Meta(r') == Meta(r);
    Overwritten(r.dir, r.path, r'.written, data);
    BodyRest(cfg, r, PrevRest(r, m, rest), data, r.dir[r.path := data]);
  }

  lemma BacktrackEnd(cfg: Config, r: State, m: Msg, rest: Rest)
    requires WellFormed(r) && r.phase.InBody? && !m.Binary? && !IsUnknown(m) && Consistent(r)
    requires var r' := Step(cfg, r, Message(m), OK); Waiting(r') && RestOk(cfg, r', rest) && Tidy(r', rest)
    ensures var before := PrevRest(r, m, rest); RestOk(cfg, r, before) && RenderRest(cfg, r, before)[0] == m
    ensures NextRest(r, PrevRest(r, m, rest)) == rest
  {
    hide BlocksOk, RestOk;
    var r' := Step(cfg, r, Message(m), OK);
    OnlyFileEnd(cfg, r, m);
    EndStep(cfg, r, m.control.sha256, r');
    var todo := r.ids[|r.kept| + 1..];
    assert r'.ids[|r'.kept|..] == todo;
    BlocksFacts(cfg, r', rest, todo);
    assert r.written + Concat([]) == r.written;
    assert r.dir[r.path := r.written] == r.dir;
    BodyRest(cfg, r, PrevRest(r, m, rest), r.written, r.dir);
  }

  /** Only the matching file-end leads out of a file without ending the session. */
  lemma OnlyFileEnd(cfg: Config, r: State, m: Msg)
    requires WellFormed(r) && r.phase.InBody? && !m.Binary? && !IsUnknown(m)
    requires Waiting(Step(cfg, r, Message(m), OK))
    ensures m.Text? && m.control.FileEnd? && m.control.id == Meta(r).id
    ensures r.got == Meta(r).size && EqualFold(cfg.sha(r.hashed), m.control.sha256)
  {
  }

  lemma BlocksFacts(cfg: Config, r: State, rest: Rest, todo: seq<int>)
    requires WellFormed(r) && RestOk(cfg, r, rest) && |r.kept| <= |r.ids| && todo == r.ids[|r.kept|..]
    requires r.phase == if |r.kept| == |r.ids| then AwaitDone else AwaitStart
    ensures BlocksOk(cfg, r.files, r.dir, todo, rest.blocks)
  {
  }

  lemma EraseHead(msgs: seq<Msg>)
    requires msgs != [] && !IsUnknown(msgs[0])
    ensures Erase(msgs) == [msgs[0]] + Erase(msgs[1..])
  {
  }

  lemma PrefixCons<T>(x: T, a: seq<T>, b: seq<T>)
    requires a <= b
    ensures [x] + a <= [x] + b
  {
  }

  lemma RenderIgnoresFiles(cfg: Config, r: State, rest: Rest, files: seq<FileMeta>)
    requires WellFormed(r) && RestOk(cfg, r, rest) && !r.phase.AwaitManifest?
    ensures RestOk(cfg, r, rest.(files := files))
    ensures RenderRest(cfg, r, rest.(files := files)) == RenderRest(cfg, r, rest)
  {
  }

  lemma BacktrackRenders(cfg: Config, r: State, m: Msg, rest: Rest)
    requires WellFormed(r) && Waiting(r) && Consistent(r) && !IsUnknown(m)
    requires !r.phase.AwaitHello? && !r.phase.AwaitDone?
    requires var r' := Step(cfg, r, Message(m), OK); Waiting(r') && RestOk(cfg, r', rest) && Tidy(r', rest)
    ensures var before := PrevRest(r, m, rest);
            && RestOk(cfg, r, before) && Tidy(r, before)
            && RenderRest(cfg, r, before) == [m] + RenderRest(cfg, Step(cfg, r, Message(m), OK), rest)
  {
    var r' := Step(cfg, r, Message(m), OK);
    NeverBackToManifest(cfg, r, m);
    Backtrack(cfg, r, m, rest);
    FollowKnown(cfg, r, m, PrevRest(r, m, rest), r', rest);
  }

  lemma NeverBackToManifest(cfg: Config, r: State, m: Msg)
    requires WellFormed(r) && Waiting(r) && !r.phase.AwaitHello? && !IsUnknown(m)
    ensures !Step(cfg, r, Message(m), OK).phase.AwaitManifest?
  {
  }

  lemma FollowKnown(cfg: Config, r: State, m: Msg, before: Rest, r': State, rest: Rest)
    requires WellFormed(r) && RestOk(cfg, r, before) && !r.phase.AwaitDone?
    requires RenderRest(cfg, r, before)[0] == m && r' == Step(cfg, r, Message(m), OK)
    requires !r'.phase.AwaitManifest? && NextRest(r, before).(files := rest.files) == rest
    ensures RestOk(cfg, r', rest)
    ensures RenderRest(cfg, r, before) == [m] + RenderRest(cfg, r', rest)
  {
    Follow1(cfg, r, before);
    RenderIgnoresFiles(cfg, r', NextRest(r, before), rest.files);
  }

  /** A run succeeds only by a done after the last file. */
  lemma OnlyDoneReturns(cfg: Config, r: State, m: Msg)
    requires WellFormed(r) && Waiting(r)
    requires Step(cfg, r, Message(m), OK).phase == Returned(Nil)
    ensures r.phase.AwaitDone? && m == Text(Done)
  {
  }

  lemma DoneStays(cfg: Config, r: State, m: Msg)
    requires WellFormed(r) && r.phase.AwaitDone? && !IsUnknown(m)
    ensures Step(cfg, r, Message(m), OK).phase.Returned?
  {
  }

  lemma {:induction false} Parse(cfg: Config, r: State, msgs: seq<Msg>) returns (rest: Rest)
    requires WellFormed(r) && Waiting(r) && Consistent(r) && !r.phase.AwaitHello?
    requires Feed(cfg, r, msgs).phase == Returned(Nil)
    ensures RestOk(cfg, r, rest) && Tidy(r, rest)
    ensures RenderRest(cfg, r, rest) <= Erase(msgs)
    decreases |msgs|
  {
    var m := msgs[0];
    var r' := Step(cfg, r, Message(m), OK);
    NeverBackToHello(cfg, r, m);
    StepConsistent(cfg, r, m);
    if IsUnknown(m) {
      rest := Parse(cfg, r, msgs[1..]);
      assert Erase(msgs) == Erase(msgs[1..]);
    } else {
      EraseHead(msgs);
      if r'.phase.Returned? {
        FeedReturned(cfg, r', msgs[1..]);
        OnlyDoneReturns(cfg, r, m);
        rest := Rest([], [], "", []);
      } else {
        if r.phase.AwaitDone? {
          DoneStays(cfg, r, m);
        }
        var after := Parse(cfg, r', msgs[1..]);
        rest := PrevRest(r, m, after);
        BacktrackRenders(cfg, r, m, after);
        PrefixCons(m, RenderRest(cfg, r', after), Erase(msgs[1..]));
      }
    }
  }

  // ----- The theorem --------------------------------------------------------------------------

  /** A receiver on directory dir, fed the messages with nothing going wrong locally. */
  function Recognise(cfg: Config, dir: Dir, msgs: seq<Msg>): State {
    Feed(cfg, Start(Init(dir), OK), msgs)
  }

  lemma HelloFirst(cfg: Config, dir: Dir, msgs: seq<Msg>)
    requires Recognise(cfg, dir, msgs).phase == Returned(Nil)
    ensures msgs != [] && msgs[0] == Text(Hello(VERSION))
  {
    if msgs[0] != Text(Hello(VERSION)) {
      FeedReturned(cfg, Step(cfg, Start(Init(dir), OK), Message(msgs[0]), OK), msgs[1..]);
    }
  }

  lemma AfterHello(cfg: Config, dir: Dir, msgs: seq<Msg>)
    requires msgs != [] && msgs[0] == Text(Hello(VERSION))
    ensures var r := Start(Init(dir), OK).(phase := AwaitManifest);
            WellFormed(r) && Recognise(cfg, dir, msgs) == Feed(cfg, r, msgs[1..])
  {
  }

  /** Everything a sentence says is stored, in order, under the names the directory leaves free. */
  lemma SentenceAccepted(cfg: Config, dir: Dir, t: Transcript, msgs: seq<Msg>)
    requires Sentence(cfg, dir, t, msgs)
    ensures Recognise(cfg, dir, msgs).phase == Returned(Nil)
    ensures Recognise(cfg, dir, msgs).kept == Filed(t.files, dir, Judge(cfg, t.files).ids, t.blocks)
  {
    AfterHello(cfg, dir, msgs);
    var r := Start(Init(dir), OK).(phase := AwaitManifest);
    var body := Erase(msgs[1..]);
    FeedErased(cfg, r, msgs[1..]);
    FollowPrefix(cfg, r, Rest(t.files, [], "", t.blocks), body);
  }

  lemma FollowPrefix(cfg: Config, r: State, rest: Rest, msgs: seq<Msg>)
    requires WellFormed(r) && RestOk(cfg, r, rest) && RenderRest(cfg, r, rest) <= msgs
    ensures Feed(cfg, r, msgs).phase == Returned(Nil)
    ensures Feed(cfg, r, msgs).kept == r.kept + FiledRest(cfg, r, rest)
  {
    hide RestOk, RenderRest, FiledRest, WellFormed, Feed, Step;
    var render := RenderRest(cfg, r, rest);
    FollowAll(cfg, r, rest);
    assert msgs == render + msgs[|render|..];
    FeedConcat(cfg, r, render, msgs[|render|..]);
    FeedReturned(cfg, Feed(cfg, r, render), msgs[|render|..]);
  }

  /** Receive returns nil exactly on the inputs that begin with a sentence of the grammar. */
  lemma RecogniserCorrect(cfg: Config, dir: Dir, msgs: seq<Msg>)
    ensures Recognise(cfg, dir, msgs).phase == Returned(Nil)
       <==> exists t :: Sentence(cfg, dir, t, msgs)
  {
    if Recognise(cfg, dir, msgs).phase == Returned(Nil) {
      HelloFirst(cfg, dir, msgs);
      AfterHello(cfg, dir, msgs);
      var r := Start(Init(dir), OK).(phase := AwaitManifest);
      var rest := Parse(cfg, r, msgs[1..]);
      assert Sentence(cfg, dir, Transcript(rest.files, rest.blocks), msgs);
    }
    forall t | Sentence(cfg, dir, t, msgs)
      ensures Recognise(cfg, dir, msgs).phase == Returned(Nil)
    {
      SentenceAccepted(cfg, dir, t, msgs);
    }
  }
}
