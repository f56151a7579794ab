/** The exporter as a whole: the data plane and the completion protocol in one step relation. The
    completion flags that the saver and the uploader look at are the signals of the other workers,
    a worker acts only while its WorkImpl is running, and what WorkImpl returns is where its loop has
    ended. */
module ExporterRun {
  import opened BoundedFifo
  import opened VideoChunks
  import opened VideoExporter
  import opened ExporterOutcomes
  import opened ExporterUploads
  import Completion

  datatype Joint<F> = Joint(data: State<F>, control: Completion.State)

  datatype Move<F> = Data(d: Label<F>) | Control(l: Completion.Label)

  function Start<F>(c: Config): Joint<F> {
    Joint(Init(c), Completion.INIT)
  }

  /** The step of one of the three workers. */
  predicate DataMay<F>(s: Joint<F>, l: Label<F>) {
    && Enabled(s.data, l)
    && (match l
        case BySource(_) => s.control.source.pc.Working?
        case BySaver(v) =>
          && s.control.saver.pc.Working?
          && (v.ReadSource? ==> v.completed == s.control.source.isCompleted)
          && (v.ForwardPath? ==> v.dstCompleted == s.control.uploader.isCompleted)
        case ByUploader(u) => s.control.uploader.pc.Working? && (u.GiveUp? ==> s.control.saver.isCompleted))
  }

  /** WorkImpl may return this status now. */
  predicate Returns<F>(data: State<F>, w: Completion.Who, outcome: Completion.Status) {
    match w
    case Source => true
    case Saver => data.saver.pc == Done && (outcome == Completion.Ok <==> data.saver.ok)
    case Uploader => data.uploader.Stopped? && (outcome == Completion.Ok <==> data.uploader.ok)
  }

  predicate ControlMay<F>(s: Joint<F>, l: Completion.Label) {
    && s.data.saver.pc != Crashed
    && Completion.Enabled(s.control, l)
    && (l.Step? && s.control.Get(l.w).pc.Working? ==> Returns(s.data, l.w, l.outcome))
  }

  predicate May<F>(s: Joint<F>, m: Move<F>) {
    match m
    case Data(l) => DataMay(s, l)
    case Control(l) => ControlMay(s, l)
  }

  function Next<F>(c: Config, s: Joint<F>, m: Move<F>): Joint<F>
    requires May(s, m)
  {
    match m
    case Data(l) => s.(data := Apply(c, s.data, l))
    case Control(l) => s.(control := Completion.Apply(s.control, l))
  }

  ghost predicate ValidMoves<F>(c: Config, s: Joint<F>, moves: seq<Move<F>>)
    decreases moves
  {
    moves == [] || (May(s, moves[0]) && ValidMoves(c, Next(c, s, moves[0]), moves[1..]))
  }

  ghost function After<F>(c: Config, s: Joint<F>, moves: seq<Move<F>>): Joint<F>
    requires ValidMoves(c, s, moves)
    decreases moves
  {
    if moves == [] then s else After(c, Next(c, s, moves[0]), moves[1..])
  }

  // ----- What every move keeps -----

  predicate HasReturned(k: Completion.Worker) {
    k.pc.Returned? || k.pc.StatusSet? || k.pc.Ended?
  }

  /** A worker whose WorkImpl has returned ended its loop with what it returned. */
  predicate Linked<F>(s: Joint<F>) {
    && (HasReturned(s.control.saver) ==> Returns(s.data, Completion.Saver, s.control.saver.impl))
    && (HasReturned(s.control.uploader) ==> Returns(s.data, Completion.Uploader, s.control.uploader.impl))
  }

  ghost predicate JointInv<F>(c: Config, s: Joint<F>)
    requires c.Valid()
  {
    Inv(c, s.data) && Completion.Inv(s.control) && Linked(s) && (c.forwardPaths ==> Whereabouts(s.data))
  }

  lemma DataKeepsLinked<F>(c: Config, s: Joint<F>, l: Label<F>)
    requires Linked(s) && DataMay(s, l)
    ensures Linked(s.(data := Apply(c, s.data, l)))
  {
    match l
    case BySource(item) =>
    case BySaver(v) => SaverLeavesUploader(c, s.data, v);
    case ByUploader(u) => UploaderLeavesSaver(c, s.data, u);
  }

  lemma SaverLeavesUploader<F>(c: Config, s: State<F>, v: SaverStep)
    requires SaverMay(s, v)
    ensures ApplySaver(c, s, v).uploader == s.uploader
  {
  }

  lemma UploaderLeavesSaver<F>(c: Config, s: State<F>, u: UploaderStep)
    requires UploaderMay(s, u)
    ensures ApplyUploader(c, s, u).saver == s.saver
  {
  }

  lemma ControlKeepsLinked<F>(s: Joint<F>, l: Completion.Label)
    requires Linked(s) && ControlMay(s, l)
    ensures Linked(s.(control := Completion.Apply(s.control, l)))
  {
  }

  lemma NextKeepsInv<F>(c: Config, s: Joint<F>, m: Move<F>)
    requires c.Valid() && JointInv(c, s) && May(s, m)
    ensures JointInv(c, Next(c, s, m))
  {
    match m
    case Data(l) =>
      StepKeepsInv(c, s.data, l);
      if c.forwardPaths {
        StepKeepsWhereabouts(c, s.data, l);
      }
      DataKeepsLinked(c, s, l);
    case Control(l) =>
      Completion.StepKeepsInv(s.control, l);
      ControlKeepsLinked(s, l);
  }

  lemma {:induction false} AfterKeepsInv<F>(c: Config, s: Joint<F>, moves: seq<Move<F>>)
    requires c.Valid() && JointInv(c, s) && ValidMoves(c, s, moves)
    ensures JointInv(c, After(c, s, moves))
    decreases moves
  {
    if moves == [] {
    } else {
      NextKeepsInv(c, s, moves[0]);
      AfterKeepsInv(c, Next(c, s, moves[0]), moves[1..]);
    }
  }

  // ----- What Run returning OK means -----

  /** What is true of the data plane when Run has returned OK. */
  ghost predicate Exported<F>(c: Config, s: State<F>)
    requires c.Valid()
  {
    // all frames popped are in files, cut greedily
    && Contents(s.files) == Chunks(FramesOf(s.taken), c.max)
    // no file is lost, and none was forwarded twice
    && (forall file <- s.files :: FileSafe(c, s, file))
    && Distinct(s.forwarded) && s.attempted <= s.forwarded
    // all frames accepted are in files, and all paths forwarded were attempted, exactly if the
    // channels have been emptied of them
    && (AllSaved(c, s) <==> NoImageIn(s.images))
    && (s.attempted == s.forwarded <==> Values(s.paths) == [])
    // a file is in the bucket, with its frames, exactly if its path was forwarded and taken and its
    // upload succeeded: it is missing exactly if it was omitted, is still queued, or has failed
    && (c.forwardPaths ==> forall file <- s.files :: InBucketIff(s, file))
  }

  ghost predicate InBucketIff<F>(s: State<F>, file: File<F>) {
    var p := file.path;
    && (p in s.uploaded <==> p in s.attempted && p !in s.failed)
    && (p in s.uploaded <==> !(p in s.omitted || p in Values(s.paths) || p in s.failed))
    && (p in s.uploaded ==> s.uploaded[p] == file.frames)
  }

  lemma OkMeansDone<F>(c: Config, s: Joint<F>)
    requires c.Valid() && JointInv(c, s) && s.control.pc == Completion.Exit(Completion.Ok)
    ensures s.data.saver.pc == Done && s.data.saver.ok && s.data.uploader == Stopped(true)
    ensures s.control.source.impl == Completion.Ok
  {
  }

  lemma DoneMeansExported<F>(c: Config, s: State<F>)
    requires c.Valid() && Inv(c, s) && s.saver.pc == Done && s.saver.ok && s.uploader == Stopped(true)
    requires c.forwardPaths ==> Whereabouts(s)
    ensures Exported(c, s)
  {
    SavedIffNoImageLeft(c, s);
    assert |s.forwarded| == |s.attempted| + |Values(s.paths)|;
    if c.forwardPaths {
      forall file <- s.files
        ensures InBucketIff(s, file)
      {
        FileIsPlaced(c, s, file);
      }
    }
  }

  /** End to end: if Run returns OK, every frame that the saver popped is in a file and no file is lost.
      Frames are missing exactly if they are still in their channel. An uploading exporter has a file
      in the bucket unless its path was omitted or is still in its channel, or its upload failed. */
  lemma RunOkMeansExported<F>(c: Config, moves: seq<Move<F>>)
    requires c.Valid() && ValidMoves(c, Start(c), moves)
    requires After(c, Start(c), moves).control.pc == Completion.Exit(Completion.Ok)
    ensures Exported(c, After(c, Start(c), moves).data)
  {
    StartHasInv<F>(c);
    AfterKeepsInv(c, Start(c), moves);
    ExitOkMeansExported(c, After(c, Start(c), moves));
  }

  lemma StartHasInv<F>(c: Config)
    requires c.Valid()
    ensures JointInv(c, Start<F>(c))
  {
  }

  lemma ExitOkMeansExported<F>(c: Config, s: Joint<F>)
    requires c.Valid() && JointInv(c, s) && s.control.pc == Completion.Exit(Completion.Ok)
    ensures Exported(c, s.data)
  {
    OkMeansDone(c, s);
    DoneMeansExported(c, s.data);
  }

  // ----- Run can return OK although a frame was lost -----

  lemma MoveFirst<F>(c: Config, s: Joint<F>, m: Move<F>, rest: seq<Move<F>>) returns (moves: seq<Move<F>>)
    requires May(s, m) && ValidMoves(c, Next(c, s, m), rest)
    ensures ValidMoves(c, s, moves) && After(c, s, moves) == After(c, Next(c, s, m), rest)
  {
    moves := [m] + rest;
    assert moves[1..] == rest;
  }

  /** A working worker that may return OK does, publishes it and completes. */
  lemma WorkerEnds<F>(c: Config, s: Joint<F>, w: Completion.Who, rest: seq<Move<F>>) returns (moves: seq<Move<F>>)
    requires s.data.saver.pc != Crashed && s.control.Get(w).pc.Working? && Returns(s.data, w, Completion.Ok)
    requires ValidMoves(c, s.(control := s.control.Set(w, Ended(s.control.Get(w)))), rest)
    ensures ValidMoves(c, s, moves)
    ensures After(c, s, moves) == After(c, s.(control := s.control.Set(w, Ended(s.control.Get(w)))), rest)
  {
    var m: Move<F> := Control(Completion.Step(w, Completion.Ok));
    var s1 := Next(c, s, m);
    var s2 := Next(c, s1, m);
    assert s1.control.Get(w).pc.Returned? && s2.control.Get(w).pc.StatusSet?;
    assert Next(c, s2, m) == s.(control := s.control.Set(w, Ended(s.control.Get(w))));
    moves := MoveFirst(c, s2, m, rest);
    moves := MoveFirst(c, s1, m, moves);
    moves := MoveFirst(c, s, m, moves);
  }

  function Ended(k: Completion.Worker): Completion.Worker {
    k.(pc := Completion.Ended, isCompleted := true, status := Completion.Ok, impl := Completion.Ok)
  }

  const WORKING := Completion.Worker(Completion.Working, false, Completion.Ok, Completion.Ok, Completion.Unknown)

  /** With all workers done, Run joins them and returns OK. */
  lemma RunJoins<F>(c: Config, s: Joint<F>) returns (moves: seq<Move<F>>)
    requires s.data.saver.pc != Crashed
    requires s.control == Completion.State(Completion.JoinSource, Ended(WORKING), Ended(WORKING), Ended(WORKING))
    ensures ValidMoves(c, s, moves)
    ensures After(c, s, moves).data == s.data && After(c, s, moves).control.pc == Completion.Exit(Completion.Ok)
  {
    var m: Move<F> := Control(Completion.Advance);
    var s1 := Next(c, s, m);
    var s2 := Next(c, s1, m);
    var s3 := Next(c, s2, m);
    moves := MoveFirst(c, s3, m, []);
    moves := MoveFirst(c, s2, m, moves);
    moves := MoveFirst(c, s1, m, moves);
    moves := MoveFirst(c, s, m, moves);
  }

  lemma WorkersEnd<F>(c: Config, s: Joint<F>) returns (moves: seq<Move<F>>)
    requires s.data.saver.pc == Done && s.data.saver.ok && s.data.uploader == Stopped(true)
    requires s.control == Completion.State(Completion.JoinSource, WORKING, WORKING, WORKING)
    ensures ValidMoves(c, s, moves)
    ensures After(c, s, moves).data == s.data && After(c, s, moves).control.pc == Completion.Exit(Completion.Ok)
  {
    var s1 := s.(control := s.control.Set(Completion.Source, Ended(WORKING)));
    var s2 := s1.(control := s1.control.Set(Completion.Saver, Ended(WORKING)));
    var s3 := s2.(control := s2.control.Set(Completion.Uploader, Ended(WORKING)));
    moves := RunJoins(c, s3);
    moves := WorkerEnds(c, s2, Completion.Uploader, moves);
    moves := WorkerEnds(c, s1, Completion.Saver, moves);
    moves := WorkerEnds(c, s, Completion.Source, moves);
  }

  /** The source starts and delivers a frame and its EOS to a saver that has already finished. */
  lemma SourceTooLate<F>(c: Config, s: Joint<F>, f: F) returns (moves: seq<Move<F>>)
    requires c.capacity == 2 && s.data.saver.pc == Done && s.data.saver.ok && s.data.uploader == Stopped(true)
    requires s.data.images == [] && s.data.files == []
    requires s.control == Completion.State(Completion.StartSource, Completion.UNSTARTED, WORKING, WORKING)
    ensures ValidMoves(c, s, moves)
    ensures var s' := After(c, s, moves);
            && s'.control.pc == Completion.Exit(Completion.Ok)
            && s'.data.images == [Image(f), EndOfStream] && s'.data.files == []
  {
    var m1, m2, m3 := Control(Completion.Advance), Data(BySource(Image(f))), Data(BySource(EndOfStream));
    var s1 := Next(c, s, m1);
    var s2 := Next(c, s1, m2);
    var s3 := Next(c, s2, m3);
    assert s3.control == Completion.State(Completion.JoinSource, WORKING, WORKING, WORKING);
    assert s3.data.images == [Image(f), EndOfStream];
    moves := WorkersEnd(c, s3);
    moves := MoveFirst(c, s2, m3, moves);
    moves := MoveFirst(c, s1, m2, moves);
    moves := MoveFirst(c, s, m1, moves);
  }

  /** A saver that times out before the source is started finds it completed and finishes. */
  lemma SaverGivesUp<F>(c: Config, s: Joint<F>, f: F) returns (moves: seq<Move<F>>)
    requires c == Config(1, 2, false, true) && s.data == Init(c)
    requires s.control == Completion.State(Completion.StartSource, Completion.UNSTARTED, WORKING, WORKING)
    ensures ValidMoves(c, s, moves)
    ensures var s' := After(c, s, moves);
            && s'.control.pc == Completion.Exit(Completion.Ok)
            && s'.data.images == [Image(f), EndOfStream] && s'.data.files == []
  {
    var m1: Move<F> := Data(BySaver(TimeOut));
    var m2: Move<F> := Data(BySaver(ReadSource(true)));
    var m3: Move<F> := Data(BySaver(FlushFile(true)));
    var m4: Move<F> := Data(BySaver(Finish));
    var s1 := Next(c, s, m1);
    var s2 := Next(c, s1, m2);
    var s3 := Next(c, s2, m3);
    var s4 := Next(c, s3, m4);
    moves := SourceTooLate(c, s4, f);
    moves := MoveFirst(c, s3, m4, moves);
    moves := MoveFirst(c, s2, m3, moves);
    moves := MoveFirst(c, s1, m2, moves);
    moves := MoveFirst(c, s, m1, moves);
  }

  /** The saver gives up on a source that Run has not started yet, because its signal looks completed;
      Run still returns OK, with the frame in no file. */
  lemma RunOkWithFrameLost<F>(f: F) returns (c: Config, moves: seq<Move<F>>)
    ensures c.Valid() && ValidMoves(c, Start(c), moves)
    ensures var s := After(c, Start(c), moves);
            && s.control.pc == Completion.Exit(Completion.Ok)
            && s.data.images == [Image(f), EndOfStream] && s.data.files == []
  {
    c := Config(1, 2, false, true);
    var m: Move<F> := Control(Completion.Advance);
    var s1 := Next(c, Start(c), m);
    var s2 := Next(c, s1, m);
    moves := SaverGivesUp(c, s2, f);
    moves := MoveFirst(c, s1, m, moves);
    moves := MoveFirst(c, Start(c), m, moves);
  }

  // ----- Run can return OK although a frame was left at the other exit -----

  const ENDED := Ended(WORKING)

  /** The saver and the source end, and Run joins all. */
  lemma OthersEnd<F>(c: Config, s: Joint<F>) returns (moves: seq<Move<F>>)
    requires s.data.saver.pc == Done && s.data.saver.ok
    requires s.control == Completion.State(Completion.JoinSource, WORKING, WORKING, ENDED)
    ensures ValidMoves(c, s, moves)
    ensures After(c, s, moves).data == s.data && After(c, s, moves).control.pc == Completion.Exit(Completion.Ok)
  {
    var s1 := s.(control := s.control.Set(Completion.Source, ENDED));
    var s2 := s1.(control := s1.control.Set(Completion.Saver, ENDED));
    moves := RunJoins(c, s2);
    moves := WorkerEnds(c, s1, Completion.Saver, moves);
    moves := WorkerEnds(c, s, Completion.Source, moves);
  }

  /** The saver, with its first file filled, finds the uploader completed and stops. */
  lemma SaverStopsAtDestination<F>(c: Config, s: Joint<F>, f: F) returns (moves: seq<Move<F>>)
    requires c.forwardPaths && s.data.saver == Saver(Flush, 1, true, 1, true, true)
    requires s.data.files == [] && 1 in s.data.disk && s.data.disk[1] == [f]
    requires s.control == Completion.State(Completion.JoinSource, WORKING, WORKING, ENDED)
    ensures ValidMoves(c, s, moves)
    ensures var s' := After(c, s, moves);
            && s'.control.pc == Completion.Exit(Completion.Ok)
            && s'.data.images == s.data.images && s'.data.files == [File(1, [f])]
  {
    var m1: Move<F> := Data(BySaver(FlushFile(true)));
    var m2: Move<F> := Data(BySaver(ForwardPath(true)));
    var m3: Move<F> := Data(BySaver(Finish));
    var s1 := Next(c, s, m1);
    var s2 := Next(c, s1, m2);
    var s3 := Next(c, s2, m3);
    moves := OthersEnd(c, s3);
    moves := MoveFirst(c, s2, m3, moves);
    moves := MoveFirst(c, s1, m2, moves);
    moves := MoveFirst(c, s, m1, moves);
  }

  /** The source delivers two frames, of which the saver writes one. */
  lemma SaverWritesOne<F>(c: Config, s: Joint<F>, f: F, g: F) returns (moves: seq<Move<F>>)
    requires c == Config(1, 2, true, true) && s.data == Init<F>(c).(uploader := Stopped(true))
    requires s.control == Completion.State(Completion.JoinSource, WORKING, WORKING, ENDED)
    ensures ValidMoves(c, s, moves)
    ensures var s' := After(c, s, moves);
            && s'.control.pc == Completion.Exit(Completion.Ok)
            && s'.data.images == [Image(g)] && s'.data.files == [File(1, [f])]
  {
    var m1, m2 := Data(BySource(Image(f))), Data(BySource(Image(g)));
    var m3: Move<F> := Data(BySaver(PopItem));
    var m4: Move<F> := Data(BySaver(WriteFrame(Written, 1)));
    var s1 := Next(c, s, m1);
    var s2 := Next(c, s1, m2);
    assert s2.data.images == [Image(f), Image(g)];
    var s3 := Next(c, s2, m3);
    assert s3.data.images == [Image(g)];
    var s4 := Next(c, s3, m4);
    moves := SaverStopsAtDestination(c, s4, f);
    moves := MoveFirst(c, s3, m4, moves);
    moves := MoveFirst(c, s2, m3, moves);
    moves := MoveFirst(c, s1, m2, moves);
    moves := MoveFirst(c, s, m1, moves);
  }

  /** The uploader gives up on a saver that Run has not started yet, because its signal looks
      completed; the saver then stops after its first file, and Run still returns OK. */
  lemma RunOkWithFrameLostAtDestination<F>(f: F, g: F) returns (c: Config, moves: seq<Move<F>>)
    ensures c.Valid() && ValidMoves(c, Start(c), moves)
    ensures var s := After(c, Start(c), moves);
            && s.control.pc == Completion.Exit(Completion.Ok)
            && s.data.images == [Image(g)] && s.data.files == [File(1, [f])]
  {
    c := Config(1, 2, true, true);
    var m: Move<F> := Control(Completion.Advance);
    var m2: Move<F> := Data(ByUploader(Connect(true)));
    var m3: Move<F> := Data(ByUploader(GiveUp));
    var s1 := Next(c, Start(c), m);
    var s2 := Next(c, s1, m2);
    var s3 := Next(c, s2, m3);
    var s4 := s3.(control := s3.control.Set(Completion.Uploader, ENDED));
    var s5 := Next(c, s4, m);
    var s6 := Next(c, s5, m);
    moves := SaverWritesOne(c, s6, f, g);
    moves := MoveFirst(c, s5, m, moves);
    moves := MoveFirst(c, s4, m, moves);
    moves := WorkerEnds(c, s3, Completion.Uploader, moves);
    moves := MoveFirst(c, s2, m3, moves);
    moves := MoveFirst(c, s1, m2, moves);
    moves := MoveFirst(c, Start(c), m, moves);
  }

  // ----- Run can return OK although an upload failed -----

  /** The uploader takes a path, fails to upload it, connects again and finds the EOS. */
  lemma UploadFails<F>(c: Config, s: Joint<F>) returns (moves: seq<Move<F>>)
    requires s.data.saver.pc == Done && s.data.saver.ok
    requires s.data.uploader == Connecting && s.data.paths == [Some(1), None]
    requires s.control == Completion.State(Completion.JoinSource, WORKING, WORKING, WORKING)
    ensures ValidMoves(c, s, moves)
    ensures var s' := After(c, s, moves);
            && s'.control.pc == Completion.Exit(Completion.Ok)
            && s'.data.images == s.data.images && s'.data.files == s.data.files && s'.data.paths == []
            && s'.data.uploaded == s.data.uploaded && s'.data.failed == s.data.failed + [1]
  {
    var m1: Move<F> := Data(ByUploader(Connect(true)));
    var m2: Move<F> := Data(ByUploader(Take));
    var m3: Move<F> := Data(ByUploader(Upload(false)));
    var s1 := Next(c, s, m1);
    var s2 := Next(c, s1, m2);
    var s3 := Next(c, s2, m3);
    var s4 := Next(c, s3, m1);
    var s5 := Next(c, s4, m2);
    moves := WorkersEnd(c, s5);
    moves := MoveFirst(c, s4, m2, moves);
    moves := MoveFirst(c, s3, m1, moves);
    moves := MoveFirst(c, s2, m3, moves);
    moves := MoveFirst(c, s1, m2, moves);
    moves := MoveFirst(c, s, m1, moves);
  }

  /** The saver flushes its last file, forwards its path and finishes. */
  lemma LastFileForwarded<F>(c: Config, s: Joint<F>, f: F) returns (moves: seq<Move<F>>)
    requires c == Config(2, 2, true, true) && s.data.saver == Saver(Flush, 1, true, 1, false, true)
    requires s.data.files == [] && 1 in s.data.disk && s.data.disk[1] == [f] && s.data.images == []
    requires s.data.uploader == Connecting && s.data.paths == [] && s.data.uploaded == map[] && s.data.failed == []
    requires s.control == Completion.State(Completion.JoinSource, WORKING, WORKING, WORKING)
    ensures ValidMoves(c, s, moves)
    ensures var s' := After(c, s, moves);
            && s'.control.pc == Completion.Exit(Completion.Ok)
            && s'.data.files == [File(1, [f])] && s'.data.images == [] && s'.data.paths == []
            && s'.data.uploaded == map[] && s'.data.failed == [1]
  {
    var m1: Move<F> := Data(BySaver(FlushFile(true)));
    var m2: Move<F> := Data(BySaver(ForwardPath(false)));
    var m3: Move<F> := Data(BySaver(Finish));
    var s1 := Next(c, s, m1);
    var s2 := Next(c, s1, m2);
    var s3 := Next(c, s2, m3);
    moves := UploadFails(c, s3);
    moves := MoveFirst(c, s2, m3, moves);
    moves := MoveFirst(c, s1, m2, moves);
    moves := MoveFirst(c, s, m1, moves);
  }

  /** The source delivers one frame and its EOS, and the saver pops both. */
  lemma OneFrameSaved<F>(c: Config, s: Joint<F>, f: F) returns (moves: seq<Move<F>>)
    requires c == Config(2, 2, true, true) && s.data == Init(c)
    requires s.control == Completion.State(Completion.JoinSource, WORKING, WORKING, WORKING)
    ensures ValidMoves(c, s, moves)
    ensures var s' := After(c, s, moves);
            && s'.control.pc == Completion.Exit(Completion.Ok)
            && s'.data.files == [File(1, [f])] && s'.data.images == [] && s'.data.paths == []
            && s'.data.uploaded == map[] && s'.data.failed == [1]
  {
    var m1, m2 := Data(BySource(Image(f))), Data(BySource(EndOfStream));
    var m3: Move<F> := Data(BySaver(PopItem));
    var m4: Move<F> := Data(BySaver(WriteFrame(Written, 1)));
    var s1 := Next(c, s, m1);
    var s2 := Next(c, s1, m2);
    assert s2.data.images == [Image(f), EndOfStream];
    var s3 := Next(c, s2, m3);
    assert s3.data.images == [EndOfStream];
    var s4 := Next(c, s3, m4);
    var s5 := Next(c, s4, m3);
    moves := LastFileForwarded(c, s5, f);
    moves := MoveFirst(c, s4, m3, moves);
    moves := MoveFirst(c, s3, m4, moves);
    moves := MoveFirst(c, s2, m3, moves);
    moves := MoveFirst(c, s1, m2, moves);
    moves := MoveFirst(c, s, m1, moves);
  }

  /** Run returns OK with both channels empty and the only file in no bucket: its upload failed, which
      costs nothing but a new connection. */
  lemma RunOkWithUploadFailed<F>(f: F) returns (c: Config, moves: seq<Move<F>>)
    ensures c.Valid() && c.forwardPaths && ValidMoves(c, Start(c), moves)
    ensures var s := After(c, Start(c), moves);
            && s.control.pc == Completion.Exit(Completion.Ok)
            && s.data.files == [File(1, [f])] && s.data.images == [] && s.data.paths == []
            && s.data.uploaded == map[] && s.data.failed == [1]
  {
    c := Config(2, 2, true, true);
    var m: Move<F> := Control(Completion.Advance);
    var s1 := Next(c, Start(c), m);
    var s2 := Next(c, s1, m);
    var s3 := Next(c, s2, m);
    moves := OneFrameSaved(c, s3, f);
    moves := MoveFirst(c, s2, m, moves);
    moves := MoveFirst(c, s1, m, moves);
    moves := MoveFirst(c, Start(c), m, moves);
  }
}
