/** The exporter's data plane: a source that fills the image channel, the local video saver that cuts
    the images into files and forwards their paths, and the uploader that takes the paths. Each step
    is one interaction with a channel, the disk or the bucket; what another thread or the outside
    world decides (timeouts, completion flags, failures of writes, uploads and removals) is chosen by
    the label. */
module VideoExporter {
  import opened BoundedFifo
  import opened VideoChunks

  /** Paths are numbered; NO_PATH is the empty string that the saver starts each file with. */
  type Path = nat
  const NO_PATH: Path := 0

  /** A StatusOr<RawImage> in the image channel: an image, NotFound, or some other error. */
  datatype Item<F> = Image(f: F) | EndOfStream | Failure

  datatype SaverPc<F> =
    | PopImage | CheckSource | Write(f: F) | Flush | Forward | Cleanup | Done
    | Crashed  // ValueOrDie on an error aborts the process

  datatype Saver<F> = Saver(pc: SaverPc<F>, index: nat, writer: bool, path: Path, startNew: bool, ok: bool)

  datatype UploaderPc = Connecting | PopPath | Uploading(p: Path) | Removing(p: Path) | Stopped(ok: bool)

  datatype File<F> = File(path: Path, frames: seq<F>)

  datatype Config = Config(max: nat, capacity: int, forwardPaths: bool, keepLocal: bool)
  {
    predicate Valid() { max > 0 && capacity > 0 }
  }

  datatype State<F> = State(
    images: seq<Item<F>>,          // the image channel
    accepted: seq<Item<F>>,        // everything the source got into it
    taken: seq<Item<F>>,           // everything the saver popped from it
    saver: Saver<F>,
    disk: map<Path, seq<F>>,
    used: set<Path>,               // paths generated so far
    files: seq<File<F>>,           // files flushed successfully, in creation order
    paths: seq<Option<Path>>,      // the path channel; None is its EOS
    forwarded: seq<Path>,
    omitted: seq<Path>,            // paths that were not forwarded: channel full, or destination completed
    attempted: seq<Path>,
    failed: seq<Path>,             // attempted in vain
    uploader: UploaderPc,
    uploaded: map<Path, seq<F>>
  )

  datatype WriteResult = Written | ConvertFailed | CreateFailed | PutFailed

  datatype SaverStep =
    | PopItem
    | TimeOut
    | ReadSource(completed: bool)
    | WriteFrame(result: WriteResult, name: Path)
    | FlushFile(removed: bool)
    | ForwardPath(dstCompleted: bool)
    | Finish

  datatype UploaderStep =
    | Connect(connected: bool)
    | Take
    | GiveUp
    | Upload(succeeded: bool)
    | Remove(deleted: bool)

  datatype Label<F> = BySource(item: Item<F>) | BySaver(v: SaverStep) | ByUploader(u: UploaderStep)

  function StartFile<F>(ok: bool): Saver<F> {
    Saver(PopImage, 0, false, NO_PATH, true, ok)
  }

  function Init<F>(c: Config): State<F> {
    State([], [], [], StartFile(true), map[], {}, [], [], [], [], [], [],
          if c.forwardPaths then Connecting else Stopped(true), map[])
  }

  predicate SaverMay<F>(s: State<F>, l: SaverStep) {
    var v := s.saver;
    match l
    case PopItem => v.pc == PopImage && s.images != []
    case TimeOut => v.pc == PopImage && s.images == []
    case ReadSource(_) => v.pc == CheckSource
    case WriteFrame(_, name) => v.pc.Write? && name !in s.used && name != NO_PATH && (v.writer ==> v.path in s.disk)
    case FlushFile(_) => v.pc == Flush && (v.ok && v.writer ==> v.path in s.disk)
    case ForwardPath(_) => v.pc == Forward
    case Finish => v.pc == Cleanup
  }

  predicate UploaderMay<F>(s: State<F>, l: UploaderStep) {
    var u := s.uploader;
    match l
    case Connect(_) => u == Connecting
    case Take => u == PopPath && s.paths != []
    case GiveUp => u == PopPath
    case Upload(succeeded) => u.Uploading? && (succeeded ==> u.p in s.disk)
    case Remove(_) => u.Removing?
  }

  predicate Enabled<F>(s: State<F>, l: Label<F>) {
    && s.saver.pc != Crashed
    && (l.BySaver? ==> SaverMay(s, l.v))
    && (l.ByUploader? ==> UploaderMay(s, l.u))
  }

  /** Leaves the file loop or starts the next file. */
  function NextFile<F>(v: Saver<F>): Saver<F> {
    if v.startNew then StartFile(v.ok) else v.(pc := Cleanup)
  }

  function ApplyWrite<F>(c: Config, s: State<F>, f: F, result: WriteResult, name: Path): State<F>
    requires s.saver.writer ==> s.saver.path in s.disk
  {
    var v := s.saver;
    if result == ConvertFailed then s.(saver := v.(ok := false, pc := Flush))
    else if !v.writer && result == CreateFailed then
      s.(saver := v.(path := name, ok := false, pc := Flush), used := s.used + {name})
    else
      var s1 := if v.writer then s
                else s.(saver := v.(path := name, writer := true), used := s.used + {name}, disk := s.disk[name := []]);
      var v1 := s1.saver;
      if result == PutFailed then s1.(saver := v1.(ok := false, pc := Flush))
      else s1.(saver := v1.(index := v.index + 1, pc := if v.index + 1 < c.max then PopImage else Flush),
               disk := s1.disk[v1.path := s1.disk[v1.path] + [f]])
  }

  function ApplyFlush<F>(c: Config, s: State<F>, removed: bool): State<F>
    requires s.saver.ok && s.saver.writer ==> s.saver.path in s.disk
  {
    var v := s.saver.(writer := false);
    if !v.ok then
      s.(saver := NextFile(v.(startNew := false)), disk := if removed then s.disk - {v.path} else s.disk)
    else
      s.(files := if s.saver.writer then s.files + [File(v.path, s.disk[v.path])] else s.files,
         saver := if c.forwardPaths then v.(pc := Forward) else NextFile(v))
  }

  function ApplyPop<F>(s: State<F>): State<F>
    requires s.images != []
  {
    var item := s.images[0];
    s.(images := s.images[1..], taken := s.taken + [item],
       saver := match item
                case Image(f) => s.saver.(pc := Write(f))
                case EndOfStream => s.saver.(startNew := false, pc := Flush)
                case Failure => s.saver.(pc := Crashed))
  }

  function ApplyForward<F>(c: Config, s: State<F>, dstCompleted: bool): State<F> {
    var v := s.saver;
    if dstCompleted then s.(saver := NextFile(v.(startNew := false)), omitted := s.omitted + [v.path])
    else if IsFull(c.capacity, s.paths) then s.(saver := NextFile(v), omitted := s.omitted + [v.path])
    else s.(saver := NextFile(v), paths := s.paths + [Some(v.path)], forwarded := s.forwarded + [v.path])
  }

  function ApplySaver<F>(c: Config, s: State<F>, l: SaverStep): State<F>
    requires SaverMay(s, l)
  {
    var v := s.saver;
    match l
    case PopItem => ApplyPop(s)
    case TimeOut => s.(saver := v.(pc := CheckSource))
    case ReadSource(completed) =>
      s.(saver := if completed then v.(startNew := false, pc := Flush) else v.(pc := PopImage))
    case WriteFrame(result, name) => ApplyWrite(c, s, v.pc.f, result, name)
    case FlushFile(removed) => ApplyFlush(c, s, removed)
    case ForwardPath(dstCompleted) => ApplyForward(c, s, dstCompleted)
    case Finish =>
      s.(saver := v.(pc := Done),
         paths := if c.forwardPaths && !IsFull(c.capacity, s.paths) then s.paths + [None] else s.paths)
  }

  function ApplyUploader<F>(c: Config, s: State<F>, l: UploaderStep): State<F>
    requires UploaderMay(s, l)
  {
    match l
    case Connect(connected) => s.(uploader := if connected then PopPath else Stopped(false))
    case Take =>
      s.(paths := s.paths[1..],
         uploader := if s.paths[0] == None then Stopped(true) else Uploading(s.paths[0].value))
    case GiveUp => s.(uploader := Stopped(true))
    case Upload(succeeded) =>
      var p := s.uploader.p;
      if !succeeded then s.(attempted := s.attempted + [p], failed := s.failed + [p], uploader := Connecting)
      else s.(attempted := s.attempted + [p], uploaded := s.uploaded[p := s.disk[p]],
              uploader := if c.keepLocal then PopPath else Removing(p))
    case Remove(deleted) =>
      s.(disk := if deleted then s.disk - {s.uploader.p} else s.disk, uploader := PopPath)
  }

  /** TryEmplace drops when the channel is full. */
  function ApplySource<F>(c: Config, s: State<F>, item: Item<F>): State<F> {
    if IsFull(c.capacity, s.images) then s else s.(images := s.images + [item], accepted := s.accepted + [item])
  }

  function Apply<F>(c: Config, s: State<F>, l: Label<F>): State<F>
    requires Enabled(s, l)
  {
    match l
    case BySource(item) => ApplySource(c, s, item)
    case BySaver(v) => ApplySaver(c, s, v)
    case ByUploader(u) => ApplyUploader(c, s, u)
  }

  ghost predicate ValidRun<F>(c: Config, s: State<F>, run: seq<Label<F>>)
    decreases run
  {
    run == [] || (Enabled(s, run[0]) && ValidRun(c, Apply(c, s, run[0]), run[1..]))
  }

  ghost function Run<F>(c: Config, s: State<F>, run: seq<Label<F>>): State<F>
    requires ValidRun(c, s, run)
    decreases run
  {
    if run == [] then s else Run(c, Apply(c, s, run[0]), run[1..])
  }

  // ----- The channels -----

  function InFlight(u: UploaderPc): seq<Path> {
    if u.Uploading? then [u.p] else []
  }

  function Values(paths: seq<Option<Path>>): seq<Path> {
    if paths == [] then [] else (if paths[0] == None then [] else [paths[0].value]) + Values(paths[1..])
  }

  lemma {:induction false} ValuesAppend(paths: seq<Option<Path>>, p: Option<Path>)
    ensures Values(paths + [p]) == Values(paths) + if p == None then [] else [p.value]
  {
    if paths == [] {
      assert paths + [p] == [p];
    } else {
      ValuesAppend(paths[1..], p);
      assert (paths + [p])[1..] == paths[1..] + [p];
    }
  }

  /** Nothing in either channel is reordered, duplicated or lost between push and pop. */
  ghost predicate Channels<F>(s: State<F>) {
    && s.accepted == s.taken + s.images
    && s.forwarded == s.attempted + InFlight(s.uploader) + Values(s.paths)
  }

  lemma UploaderKeepsChannels<F>(c: Config, s: State<F>, l: UploaderStep)
    requires Channels(s) && UploaderMay(s, l)
    ensures Channels(ApplyUploader(c, s, l))
  {
  }

  lemma ForwardKeepsChannels<F>(c: Config, s: State<F>, dstCompleted: bool)
    requires Channels(s)
    ensures Channels(ApplyForward(c, s, dstCompleted))
  {
    ValuesAppend(s.paths, Some(s.saver.path));
  }

  lemma SaverKeepsChannels<F>(c: Config, s: State<F>, l: SaverStep)
    requires Channels(s) && SaverMay(s, l)
    ensures Channels(ApplySaver(c, s, l))
  {
    match l
    case PopItem => assert [s.images[0]] + s.images[1..] == s.images;
    case ForwardPath(dstCompleted) => ForwardKeepsChannels(c, s, dstCompleted);
    case Finish => ValuesAppend(s.paths, None);
    case _ =>
  }

  // ----- The files -----

  ghost function FilePaths<F>(files: seq<File<F>>): set<Path> {
    set file <- files :: file.path
  }

  /** The saver is still filling the file at its path. */
  predicate Open<F>(v: Saver<F>) {
    v.pc == PopImage || v.pc == CheckSource || v.pc.Write? || v.pc == Flush
  }

  /** What the saver knows about the file it is filling. */
  ghost predicate WriterOk<F>(c: Config, s: State<F>) {
    var v := s.saver;
    && (v.writer ==> Open(v) || v.pc == Crashed)
    && (v.writer ==> v.path != NO_PATH && v.path in s.disk)
    && (Open(v) && v.writer && v.ok ==> |s.disk[v.path]| == v.index)
    && (Open(v) && v.ok ==> (v.writer <==> v.index > 0) && (v.writer <==> v.path != NO_PATH) && v.index <= c.max)
    && (Open(v) && v.pc != Flush ==> v.ok && v.startNew && v.index < c.max)
    && (v.pc == Flush && v.ok ==> if v.startNew then v.index == c.max else v.index < c.max)
    && (v.pc == Forward ==> v.ok && (v.path != NO_PATH <==> v.index > 0))
    && (v.pc == Forward ==> if v.startNew then v.index == c.max else v.index < c.max)
    && (v.pc == Cleanup || v.pc == Done ==> !v.startNew)
  }

  ghost predicate Distinct(paths: seq<Path>) {
    forall i, j | 0 <= i < j < |paths| :: paths[i] != paths[j]
  }

  /** The empty path comes last if it comes at all. */
  ghost predicate EmptyPathLast(paths: seq<Path>) {
    forall i | 0 <= i < |paths| - 1 :: paths[i] != NO_PATH
  }

  /** Who may name which path. Only flushed files and, at the very end, the empty path are ever
      forwarded, each at most once, and only forwarded files are uploaded or removed by the uploader. */
  ghost predicate Names<F>(s: State<F>) {
    var v := s.saver;
    && NO_PATH !in s.used && s.disk.Keys <= s.used && FilePaths(s.files) <= s.used
    && (v.path == NO_PATH || v.path in s.used)
    && (Open(v) && v.path != NO_PATH ==> v.path !in FilePaths(s.files) && v.path !in s.forwarded)
    && (v.pc == Forward && v.path != NO_PATH ==> v.path in FilePaths(s.files) && v.path !in s.forwarded)
    && (forall p <- s.forwarded :: p == NO_PATH || p in FilePaths(s.files))
    && Distinct(s.forwarded) && EmptyPathLast(s.forwarded)
    && (NO_PATH in s.forwarded ==> v.pc == Cleanup || v.pc == Done)
    && (v.pc == Forward && v.startNew ==> v.path != NO_PATH)
    && s.uploaded.Keys <= FilePaths(s.files)
    && (s.uploader.Uploading? ==> s.uploader.p in s.forwarded)
    && (s.uploader.Removing? ==> s.uploader.p in s.uploaded)
  }

  /** No flushed file is lost: it is on disk or in the bucket, with the frames it was flushed with. */
  ghost predicate FileSafe<F>(c: Config, s: State<F>, file: File<F>) {
    && (file.path in s.disk || file.path in s.uploaded)
    && (c.keepLocal ==> file.path in s.disk)
    && (file.path in s.disk ==> s.disk[file.path] == file.frames)
    && (file.path in s.uploaded ==> s.uploaded[file.path] == file.frames)
  }

  ghost predicate FilesSafe<F>(c: Config, s: State<F>) {
    && (forall file <- s.files :: FileSafe(c, s, file))
    && (s.uploader.Removing? ==> !c.keepLocal)
  }

  ghost predicate Files<F>(c: Config, s: State<F>) {
    WriterOk(c, s) && Names(s) && FilesSafe(c, s)
  }

  lemma WriteKeepsFiles<F>(c: Config, s: State<F>, result: WriteResult, name: Path)
    requires c.Valid() && Files(c, s) && SaverMay(s, WriteFrame(result, name))
    ensures Files(c, ApplyWrite(c, s, s.saver.pc.f, result, name))
  {
  }

  lemma FlushKeepsFiles<F>(c: Config, s: State<F>, removed: bool)
    requires c.Valid() && Files(c, s) && SaverMay(s, FlushFile(removed))
    ensures Files(c, ApplyFlush(c, s, removed))
  {
  }

  lemma SameStoresStaySafe<F>(c: Config, s: State<F>, s': State<F>)
    requires FilesSafe(c, s)
    requires s'.disk == s.disk && s'.uploaded == s.uploaded && s'.files == s.files && s'.uploader == s.uploader
    ensures FilesSafe(c, s')
  {
  }

  lemma ForwardKeepsNames<F>(c: Config, s: State<F>, dstCompleted: bool)
    requires Names(s) && SaverMay(s, ForwardPath(dstCompleted))
    ensures Names(ApplyForward(c, s, dstCompleted))
  {
  }

  lemma OtherStepsKeepFiles<F>(c: Config, s: State<F>, l: SaverStep)
    requires c.Valid() && Files(c, s) && SaverMay(s, l)
    requires !l.WriteFrame? && !l.FlushFile? && !l.ForwardPath?
    ensures Files(c, ApplySaver(c, s, l))
  {
    SameStoresStaySafe(c, s, ApplySaver(c, s, l));
  }

  lemma SaverKeepsFiles<F>(c: Config, s: State<F>, l: SaverStep)
    requires c.Valid() && Files(c, s) && SaverMay(s, l)
    ensures Files(c, ApplySaver(c, s, l))
  {
    match l
    case WriteFrame(result, name) => WriteKeepsFiles(c, s, result, name);
    case FlushFile(removed) => FlushKeepsFiles(c, s, removed);
    case ForwardPath(dstCompleted) =>
      ForwardKeepsNames(c, s, dstCompleted);
      SameStoresStaySafe(c, s, ApplyForward(c, s, dstCompleted));
    case _ => OtherStepsKeepFiles(c, s, l);
  }

  lemma UploadKeepsFiles<F>(c: Config, s: State<F>, succeeded: bool)
    requires c.Valid() && Channels(s) && Files(c, s) && UploaderMay(s, Upload(succeeded))
    ensures Files(c, ApplyUploader(c, s, Upload(succeeded)))
  {
  }

  lemma UploaderKeepsFiles<F>(c: Config, s: State<F>, l: UploaderStep)
    requires c.Valid() && Channels(s) && Files(c, s) && s.saver.pc != Crashed && UploaderMay(s, l)
    ensures Files(c, ApplyUploader(c, s, l))
  {
    match l
    case Upload(succeeded) => UploadKeepsFiles(c, s, succeeded);
    case _ =>
  }

  // ----- The chunks -----

  function FramesOf<F>(items: seq<Item<F>>): seq<F> {
    if items == [] then []
    else
      var last := items[|items| - 1];
      FramesOf(items[..|items| - 1]) + if last.Image? then [last.f] else []
  }

  function Contents<F>(files: seq<File<F>>): seq<seq<F>> {
    seq(|files|, i requires 0 <= i < |files| => files[i].frames)
  }

  /** The frames of the file that the saver is filling. */
  function Current<F>(s: State<F>): seq<F> {
    if s.saver.writer && s.saver.path in s.disk then s.disk[s.saver.path] else []
  }

  /** Where each frame the saver has popped is. */
  ghost predicate Chunked<F>(c: Config, s: State<F>)
    requires c.Valid()
  {
    var v := s.saver;
    var files := Contents(s.files);
    var popped := FramesOf(s.taken);
    && (v.pc == Crashed <==> Failure in s.taken)
    && (Open(v) || v.pc == Crashed || !v.ok || v.startNew ==> AllFull(files, c.max))
    && (Open(v) && v.pc != Flush ==> popped == Concat(files) + Current(s) + if v.pc.Write? then [v.pc.f] else [])
    && (v.pc == Flush && v.ok ==> popped == Concat(files) + Current(s))
    && (v.pc == Forward && v.startNew ==> popped == Concat(files))
    && (!Open(v) && v.pc != Crashed && v.ok && !v.startNew ==> files == Chunks(popped, c.max))
    && (v.pc == Crashed || !v.ok ==> Concat(files) <= popped)
  }

  lemma PopKeepsChunks<F>(c: Config, s: State<F>)
    requires c.Valid() && WriterOk(c, s) && Chunked(c, s) && SaverMay(s, PopItem)
    ensures Chunked(c, ApplyPop(s))
  {
  }

  lemma WriteKeepsChunks<F>(c: Config, s: State<F>, result: WriteResult, name: Path)
    requires c.Valid() && WriterOk(c, s) && Chunked(c, s) && SaverMay(s, WriteFrame(result, name))
    ensures Chunked(c, ApplyWrite(c, s, s.saver.pc.f, result, name))
  {
    var s' := ApplyWrite(c, s, s.saver.pc.f, result, name);
    assert Contents(s'.files) == Contents(s.files) && s'.taken == s.taken;
    if s'.saver.ok {
      assert Current(s') == Current(s) + [s.saver.pc.f];
    }
  }

  lemma FlushKeepsChunks<F>(c: Config, s: State<F>, removed: bool)
    requires c.Valid() && WriterOk(c, s) && Chunked(c, s) && SaverMay(s, FlushFile(removed))
    ensures Chunked(c, ApplyFlush(c, s, removed))
  {
    var files := Contents(s.files);
    var current := Current(s);
    if s.saver.ok {
      ChunksOfFull(files, current, c.max);
      if s.saver.writer {
        assert Contents(ApplyFlush(c, s, removed).files) == files + [current];
        ConcatAppend(files, current);
      } else {
        assert files + [] == files;
      }
    }
  }

  lemma ForwardKeepsChunks<F>(c: Config, s: State<F>, dstCompleted: bool)
    requires c.Valid() && WriterOk(c, s) && Chunked(c, s) && SaverMay(s, ForwardPath(dstCompleted))
    ensures Chunked(c, ApplyForward(c, s, dstCompleted))
  {
    var files := Contents(s.files);
    if s.saver.startNew {
      ChunksOfFull(files, [], c.max);
      assert Concat(files) + [] == Concat(files) && files + [] == files;
    }
  }

  lemma SaverKeepsChunks<F>(c: Config, s: State<F>, l: SaverStep)
    requires c.Valid() && WriterOk(c, s) && Chunked(c, s) && SaverMay(s, l)
    ensures Chunked(c, ApplySaver(c, s, l))
  {
    match l
    case PopItem => PopKeepsChunks(c, s);
    case WriteFrame(result, name) => WriteKeepsChunks(c, s, result, name);
    case FlushFile(removed) => FlushKeepsChunks(c, s, removed);
    case ForwardPath(dstCompleted) => ForwardKeepsChunks(c, s, dstCompleted);
    case _ => assert Current(ApplySaver(c, s, l)) == Current(s);
  }

  lemma UploaderKeepsChunks<F>(c: Config, s: State<F>, l: UploaderStep)
    requires c.Valid() && WriterOk(c, s) && Names(s) && Chunked(c, s) && UploaderMay(s, l)
    ensures Chunked(c, ApplyUploader(c, s, l))
  {
  }

  // ----- Main results, for every interleaving of source, saver and uploader -----

  ghost predicate Inv<F>(c: Config, s: State<F>)
    requires c.Valid()
  {
    Channels(s) && Files(c, s) && Chunked(c, s)
  }

  lemma SourceKeepsInv<F>(c: Config, s: State<F>, item: Item<F>)
    requires c.Valid() && Inv(c, s)
    ensures Inv(c, ApplySource(c, s, item))
  {
  }

  lemma StepKeepsInv<F>(c: Config, s: State<F>, l: Label<F>)
    requires c.Valid() && Inv(c, s) && Enabled(s, l)
    ensures Inv(c, Apply(c, s, l))
  {
    match l
    case BySource(item) => SourceKeepsInv(c, s, item);
    case BySaver(v) =>
      SaverKeepsChannels(c, s, v);
      SaverKeepsFiles(c, s, v);
      SaverKeepsChunks(c, s, v);
    case ByUploader(u) =>
      UploaderKeepsChannels(c, s, u);
      UploaderKeepsFiles(c, s, u);
      UploaderKeepsChunks(c, s, u);
  }

  lemma {:induction false} RunKeepsInv<F>(c: Config, s: State<F>, run: seq<Label<F>>)
    requires c.Valid() && Inv(c, s) && ValidRun(c, s, run)
    ensures Inv(c, Run(c, s, run))
    decreases run
  {
    if run == [] {
    } else {
      StepKeepsInv(c, s, run[0]);
      RunKeepsInv(c, Apply(c, s, run[0]), run[1..]);
    }
  }

  /** The files are the greedy cut of a prefix of the frames popped. */
  ghost predicate CutOf<F>(files: seq<seq<F>>, popped: seq<F>, max: nat)
    requires max > 0
  {
    && Concat(files) <= popped
    && files == Chunks(Concat(files), max)
    && (forall i | 0 <= i < |files| :: 1 <= |files[i]| <= max)
    && (forall i | 0 <= i < |files| - 1 :: |files[i]| == max)
  }

  /** What the flushed files have to do with the frames popped. */
  ghost predicate FilesMatch<F>(c: Config, s: State<F>)
    requires c.Valid()
  {
    var files := Contents(s.files);
    var popped := FramesOf(s.taken);
    && CutOf(files, popped, c.max)
    && (s.saver.pc == Done && s.saver.ok ==>
          files == Chunks(popped, c.max) && |files| == (|popped| + c.max - 1) / c.max)
  }

  lemma ChunkedFilesMatch<F>(c: Config, s: State<F>)
    requires c.Valid() && WriterOk(c, s) && Chunked(c, s)
    ensures FilesMatch(c, s)
  {
    var files := Contents(s.files);
    if AllFull(files, c.max) {
      ChunksOfFull(files, [], c.max);
      assert Concat(files) + [] == Concat(files) && files + [] == files;
    }
    ChunksCut(FramesOf(s.taken), c.max);
  }

  /** The flushed files are, in creation order, the greedy cut of a prefix of the frames popped; a
      saver that finishes without an error has cut all of them, into ceil(n / max) files. */
  lemma FilesAreChunksOfFrames<F>(c: Config, run: seq<Label<F>>)
    requires c.Valid() && ValidRun(c, Init(c), run)
    ensures FilesMatch(c, Run(c, Init(c), run))
  {
    RunKeepsInv(c, Init(c), run);
    ChunkedFilesMatch(c, Run(c, Init(c), run));
  }

  /** No exported video is lost. Every flushed file is on disk or in the bucket with the frames it
      was flushed with, and on disk if local files are kept; the uploader attempts the forwarded
      paths in order, none twice, and the empty one only as the last. */
  lemma NoVideoLost<F>(c: Config, run: seq<Label<F>>)
    requires c.Valid() && ValidRun(c, Init(c), run)
    ensures var s := Run(c, Init(c), run);
            && (forall file <- s.files :: FileSafe(c, s, file))
            && s.attempted <= s.forwarded
            && (forall p <- s.forwarded :: p == NO_PATH || p in FilePaths(s.files))
            && Distinct(s.forwarded) && EmptyPathLast(s.forwarded)
            && (forall p <- s.uploaded :: p in s.attempted)
  {
    RunKeepsInv(c, Init(c), run);
    UploadsWereAttempted(c, Init(c), run);
  }

  lemma {:induction false} UploadsWereAttempted<F>(c: Config, s: State<F>, run: seq<Label<F>>)
    requires ValidRun(c, s, run) && forall p <- s.uploaded :: p in s.attempted
    ensures forall p <- Run(c, s, run).uploaded :: p in Run(c, s, run).attempted
    decreases run
  {
    if run == [] {
    } else {
      UploadsWereAttempted(c, Apply(c, s, run[0]), run[1..]);
    }
  }

  /** A file disappears from disk exactly by a successful removal: of the file whose writing has failed,
      which is not among the flushed ones, or of one that has just been uploaded, without keep_local. */
  lemma DeletionHasAReason<F>(c: Config, run: seq<Label<F>>, l: Label<F>, p: Path)
    requires c.Valid() && ValidRun(c, Init(c), run) && Enabled(Run(c, Init(c), run), l)
    requires p in Run(c, Init(c), run).disk
    ensures var s := Run(c, Init(c), run);
            var failed := l == BySaver(FlushFile(true)) && !s.saver.ok && p == s.saver.path;
            var uploaded := l == ByUploader(Remove(true)) && s.uploader == Removing(p);
            && (p !in Apply(c, s, l).disk <==> failed || uploaded)
            && (failed ==> p !in FilePaths(s.files))
            && (uploaded ==> p in s.uploaded && !c.keepLocal)
  {
    RunKeepsInv(c, Init(c), run);
    DeletionStep(c, Run(c, Init(c), run), l, p);
  }

  lemma DeletionStep<F>(c: Config, s: State<F>, l: Label<F>, p: Path)
    requires Files(c, s) && Enabled(s, l) && p in s.disk
    ensures p !in Apply(c, s, l).disk <==>
              || (l == BySaver(FlushFile(true)) && !s.saver.ok && p == s.saver.path)
              || (l == ByUploader(Remove(true)) && s.uploader == Removing(p))
  {
    match l
    case BySource(_) =>
    case BySaver(v) => SaverDeletes(c, s, v, p);
    case ByUploader(_) =>
  }

  lemma SaverDeletes<F>(c: Config, s: State<F>, v: SaverStep, p: Path)
    requires SaverMay(s, v) && p in s.disk
    ensures p !in ApplySaver(c, s, v).disk <==> v == FlushFile(true) && !s.saver.ok && p == s.saver.path
  {
  }

  lemma RunCons<F>(c: Config, s: State<F>, l: Label<F>, rest: seq<Label<F>>) returns (run: seq<Label<F>>)
    requires Enabled(s, l) && ValidRun(c, Apply(c, s, l), rest)
    ensures run == [l] + rest && ValidRun(c, s, run) && Run(c, s, run) == Run(c, Apply(c, s, l), rest)
  {
    run := [l] + rest;
    assert run[1..] == rest;
  }
}
