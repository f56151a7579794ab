/** Where every flushed file's path has got to on its way to the bucket. */
module ExporterUploads {
  import opened BoundedFifo
  import opened VideoExporter

  ghost predicate AboutToForward<F>(s: State<F>, p: Path) {
    s.saver.pc == Forward && s.saver.path == p
  }

  /** The saver's side: a flushed file is about to be forwarded, or was forwarded, or was omitted. */
  ghost predicate SentOrOmitted<F>(s: State<F>) {
    var v := s.saver;
    && (forall p <- FilePaths(s.files) :: p in s.forwarded || p in s.omitted || AboutToForward(s, p))
    && (forall p <- s.omitted :: p !in s.forwarded && (p == NO_PATH || p in s.used))
    && ((Open(v) || v.pc == Forward) && v.path != NO_PATH ==> v.path !in s.omitted)
    && (NO_PATH in s.omitted ==> v.pc == Cleanup || v.pc == Done)
  }

  /** The uploader's side: an attempt has failed or has put the file into the bucket. */
  ghost predicate UploadedOrFailed<F>(s: State<F>) {
    && (forall p <- s.attempted :: p in s.uploaded || p in s.failed)
    && (forall p <- s.failed :: p in s.attempted && p !in s.uploaded)
    && (forall p <- s.uploaded :: p in s.attempted)
  }

  lemma ForwardKeepsSent<F>(c: Config, s: State<F>, dstCompleted: bool)
    requires Names(s) && SentOrOmitted(s) && SaverMay(s, ForwardPath(dstCompleted))
    ensures SentOrOmitted(ApplyForward(c, s, dstCompleted))
  {
  }

  lemma WriteKeepsSent<F>(c: Config, s: State<F>, result: WriteResult, name: Path)
    requires SentOrOmitted(s) && SaverMay(s, WriteFrame(result, name))
    ensures SentOrOmitted(ApplyWrite(c, s, s.saver.pc.f, result, name))
  {
  }

  lemma FlushKeepsSent<F>(c: Config, s: State<F>, removed: bool)
    requires c.forwardPaths && SentOrOmitted(s) && SaverMay(s, FlushFile(removed))
    ensures SentOrOmitted(ApplyFlush(c, s, removed))
  {
  }

  lemma SaverKeepsSent<F>(c: Config, s: State<F>, l: SaverStep)
    requires c.forwardPaths && Names(s) && SentOrOmitted(s) && SaverMay(s, l)
    ensures SentOrOmitted(ApplySaver(c, s, l))
  {
    match l
    case ForwardPath(dstCompleted) => ForwardKeepsSent(c, s, dstCompleted);
    case WriteFrame(result, name) => WriteKeepsSent(c, s, result, name);
    case FlushFile(removed) => FlushKeepsSent(c, s, removed);
    case _ =>
  }

  lemma SaverKeepsUploaded<F>(c: Config, s: State<F>, l: SaverStep)
    requires UploadedOrFailed(s) && SaverMay(s, l)
    ensures UploadedOrFailed(ApplySaver(c, s, l))
  {
  }

  lemma UploaderKeepsSent<F>(c: Config, s: State<F>, l: UploaderStep)
    requires SentOrOmitted(s) && UploaderMay(s, l)
    ensures SentOrOmitted(ApplyUploader(c, s, l))
  {
  }

  lemma UploaderKeepsUploaded<F>(c: Config, s: State<F>, l: UploaderStep)
    requires Channels(s) && Distinct(s.forwarded) && UploadedOrFailed(s) && UploaderMay(s, l)
    ensures UploadedOrFailed(ApplyUploader(c, s, l))
  {
    if l.Upload? {
      var p := s.uploader.p;
      assert s.forwarded[|s.attempted|] == p;
      assert p !in s.attempted by {
        assert forall i | 0 <= i < |s.attempted| :: s.attempted[i] == s.forwarded[i];
      }
    }
  }

  ghost predicate Whereabouts<F>(s: State<F>) {
    SentOrOmitted(s) && UploadedOrFailed(s)
  }

  lemma StepKeepsWhereabouts<F>(c: Config, s: State<F>, l: Label<F>)
    requires c.forwardPaths && Channels(s) && Names(s) && Whereabouts(s) && Enabled(s, l)
    ensures Whereabouts(Apply(c, s, l))
  {
    match l
    case BySource(item) =>
    case BySaver(v) =>
      SaverKeepsSent(c, s, v);
      SaverKeepsUploaded(c, s, v);
    case ByUploader(u) =>
      UploaderKeepsSent(c, s, u);
      UploaderKeepsUploaded(c, s, u);
  }

  lemma {:induction false} RunKeepsWhereabouts<F>(c: Config, s: State<F>, run: seq<Label<F>>)
    requires c.Valid() && c.forwardPaths && Inv(c, s) && Whereabouts(s) && ValidRun(c, s, run)
    ensures Whereabouts(Run(c, s, run))
    decreases run
  {
    if run == [] {
    } else {
      StepKeepsInv(c, s, run[0]);
      StepKeepsWhereabouts(c, s, run[0]);
      RunKeepsWhereabouts(c, Apply(c, s, run[0]), run[1..]);
    }
  }

  /** The path is still on its way: about to be forwarded, in the channel, or being uploaded. */
  ghost predicate UnderWay<F>(s: State<F>, p: Path) {
    AboutToForward(s, p) || p in Values(s.paths) || s.uploader == Uploading(p)
  }

  /** The file is in the bucket exactly if it was attempted and the attempt did not fail, and otherwise
      it was omitted, or has failed, or is under way. */
  ghost predicate Placed<F>(s: State<F>, file: File<F>) {
    var p := file.path;
    && (p in s.uploaded <==> p in s.attempted && p !in s.failed)
    && (p in s.uploaded <==> !(p in s.omitted || p in s.failed || UnderWay(s, p)))
    && (p in s.uploaded ==> s.uploaded[p] == file.frames)
  }

  lemma PartsAreDisjoint(a: seq<Path>, b: seq<Path>, c: seq<Path>, p: Path)
    requires Distinct(a + b + c) && p in a
    ensures p !in b && p !in c
  {
    var whole := a + b + c;
    var i :| 0 <= i < |a| && a[i] == p;
    assert whole[i] == p;
    assert forall j | 0 <= j < |b| :: whole[|a| + j] == b[j];
    assert forall j | 0 <= j < |c| :: whole[|a| + |b| + j] == c[j];
  }

  lemma FileIsPlaced<F>(c: Config, s: State<F>, file: File<F>)
    requires c.Valid() && Channels(s) && Names(s) && Whereabouts(s)
    requires file in s.files && FileSafe(c, s, file)
    ensures Placed(s, file)
  {
    var p := file.path;
    assert p in FilePaths(s.files);
    assert p in s.forwarded <==> p in s.attempted || s.uploader == Uploading(p) || p in Values(s.paths);
    if p in s.attempted {
      PartsAreDisjoint(s.attempted, InFlight(s.uploader), Values(s.paths), p);
    }
  }

  /** Every flushed file is in the bucket, with its frames, if and only if its path was forwarded and
      taken and its upload succeeded; it is missing exactly if its path was omitted, its upload has
      failed, or it is still under way. */
  lemma UploadedIff<F>(c: Config, run: seq<Label<F>>)
    requires c.Valid() && c.forwardPaths && ValidRun(c, Init(c), run)
    ensures forall file <- Run(c, Init(c), run).files :: Placed(Run(c, Init(c), run), file)
  {
    RunKeepsInv(c, Init(c), run);
    RunKeepsWhereabouts(c, Init(c), run);
    var s := Run(c, Init(c), run);
    forall file <- s.files
      ensures Placed(s, file)
    {
      FileIsPlaced(c, s, file);
    }
  }
}
