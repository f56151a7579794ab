/** What the exporter can achieve: any frames can be saved and uploaded completely. */
module ExporterWorks {
  import opened BoundedFifo
  import opened VideoChunks
  import opened VideoExporter
  import opened ExporterOutcomes

  /** All flushed files are in the bucket, and on disk exactly if local files are kept. */
  ghost predicate AllUploaded<F>(c: Config, s: State<F>) {
    forall p <- FilePaths(s.files) :: p in s.uploaded && (p in s.disk <==> c.keepLocal)
  }

  /** Nothing was lost so far, and the uploader, if there is one, waits for a path. */
  ghost predicate KeptUp<F>(c: Config, s: State<F>) {
    && s.omitted == [] && s.failed == [] && s.paths == [] && s.images == [] && s.accepted == s.taken
    && (c.forwardPaths ==> s.uploader == PopPath && AllUploaded(c, s))
  }

  ghost predicate Reaches<F>(c: Config, s: State<F>, run: seq<Label<F>>, s': State<F>) {
    ValidRun(c, s, run) && Run(c, s, run) == s'
  }

  lemma Then<F>(c: Config, s: State<F>, l: Label<F>, rest: seq<Label<F>>, s': State<F>) returns (run: seq<Label<F>>)
    requires Enabled(s, l) && Reaches(c, Apply(c, s, l), rest, s')
    ensures Reaches(c, s, run, s')
  {
    run := RunCons(c, s, l, rest);
  }

  /** The uploader takes the one path in its channel, uploads the file and removes it if it is to. */
  lemma UploadOne<F>(c: Config, s: State<F>, p: Path) returns (run: seq<Label<F>>, s': State<F>)
    requires c.Valid() && Inv(c, s) && c.forwardPaths && s.saver.pc != Crashed
    requires s.uploader == PopPath && s.paths == [Some(p)] && p in s.disk
    ensures Reaches(c, s, run, s')
    ensures s' == s.(paths := [], uploader := PopPath, attempted := s.attempted + [p],
                     uploaded := s.uploaded[p := s.disk[p]],
                     disk := if c.keepLocal then s.disk else s.disk - {p})
  {
    var take, upload, remove: Label<F> := ByUploader(Take), ByUploader(Upload(true)), ByUploader(Remove(true));
    var s1 := Apply(c, s, take);
    var s2 := Apply(c, s1, upload);
    if c.keepLocal {
      s', run := s2, [];
    } else {
      s' := Apply(c, s2, remove);
      run := Then(c, s2, remove, [], s');
    }
    run := Then(c, s1, upload, run, s');
    run := Then(c, s, take, run, s');
  }

  /** A file that is flushed, forwarded and uploaded. */
  lemma FileExported<F>(c: Config, s: State<F>) returns (run: seq<Label<F>>, s': State<F>)
    requires c.Valid() && Inv(c, s) && KeptUp(c, s)
    requires s.saver.pc == Flush && s.saver.ok && s.saver.writer
    ensures Reaches(c, s, run, s') && KeptUp(c, s') && s'.taken == s.taken && s'.saver.ok
    ensures s'.saver.pc == if s.saver.startNew then PopImage else Cleanup
  {
    var flush, forward: Label<F> := BySaver(FlushFile(true)), BySaver(ForwardPath(false));
    var s1 := Apply(c, s, flush);
    if !c.forwardPaths {
      s' := s1;
      run := Then(c, s, flush, [], s');
    } else {
      StepKeepsInv(c, s, flush);
      var s2 := Apply(c, s1, forward);
      StepKeepsInv(c, s1, forward);
      run, s' := UploadOne(c, s2, s.saver.path);
      run := Then(c, s1, forward, run, s');
      run := Then(c, s, flush, run, s');
      FilesUploaded(c, s, s');
    }
  }

  lemma FilesUploaded<F>(c: Config, s: State<F>, s': State<F>)
    requires Names(s) && AllUploaded(c, s) && s.saver.path in s.disk && s.saver.pc == Flush && s.saver.path != NO_PATH
    requires s'.files == s.files + [File(s.saver.path, s.disk[s.saver.path])]
    requires s'.uploaded == s.uploaded[s.saver.path := s.disk[s.saver.path]]
    requires s'.disk == if c.keepLocal then s.disk else s.disk - {s.saver.path}
    ensures AllUploaded(c, s')
  {
    assert FilePaths(s'.files) == FilePaths(s.files) + {s.saver.path};
  }

  /** The saver waits for an image, and nothing was lost. */
  ghost predicate Ready<F>(c: Config, s: State<F>)
    requires c.Valid()
  {
    Idle(c, s) && KeptUp(c, s)
  }

  /** One frame is offered, popped and written, and its file exported if it is full. */
  lemma FrameExported<F>(c: Config, s: State<F>, f: F) returns (run: seq<Label<F>>, s': State<F>)
    requires c.Valid() && Ready(c, s)
    ensures Reaches(c, s, run, s') && Ready(c, s') && s'.taken == s.taken + [Image(f)]
  {
    var name := Bound(s.used);
    var offer, pop, write := BySource(Image(f)), BySaver(PopItem), BySaver(WriteFrame(Written, name));
    var s1 := Apply(c, s, offer);
    StepKeepsInv(c, s, offer);
    var s2 := Apply(c, s1, pop);
    StepKeepsInv(c, s1, pop);
    var s3 := Apply(c, s2, write);
    StepKeepsInv(c, s2, write);
    FrameWritten(c, s2, name);
    if s3.saver.pc == PopImage {
      run, s' := [], s3;
    } else {
      run, s' := FileExported(c, s3);
      RunKeepsInv(c, s3, run);
    }
    run := Then(c, s2, write, run, s');
    run := Then(c, s1, pop, run, s');
    run := Then(c, s, offer, run, s');
  }

  lemma FrameWritten<F>(c: Config, s: State<F>, name: Path)
    requires c.Valid() && Files(c, s) && KeptUp(c, s) && s.saver.pc.Write? && SaverMay(s, WriteFrame(Written, name))
    ensures var s' := ApplyWrite(c, s, s.saver.pc.f, Written, name);
            && KeptUp(c, s') && s'.taken == s.taken && s'.saver.ok && s'.saver.writer && s'.saver.startNew
            && (s'.saver.pc == PopImage || s'.saver.pc == Flush)
  {
  }

  lemma Joined<F>(c: Config, s: State<F>, run: seq<Label<F>>, s': State<F>, more: seq<Label<F>>, s'': State<F>)
    requires Reaches(c, s, run, s') && Reaches(c, s', more, s'')
    ensures Reaches(c, s, run + more, s'')
  {
    RunAppend(c, s, run, more);
  }

  lemma FrameTaken<F>(taken: seq<Item<F>>, f: F)
    ensures FramesOf(taken + [Image(f)]) == FramesOf(taken) + [f]
  {
    FramesOfConcat(taken, [Image(f)]);
    assert FramesOf([Image(f)]) == [f];
  }

  lemma {:induction false} FramesExported<F>(c: Config, s: State<F>, frames: seq<F>)
    returns (run: seq<Label<F>>, s': State<F>)
    requires c.Valid() && Ready(c, s)
    ensures Reaches(c, s, run, s') && Ready(c, s') && FramesOf(s'.taken) == FramesOf(s.taken) + frames
    decreases frames
  {
    if frames == [] {
      run, s' := [], s;
      assert FramesOf(s.taken) + [] == FramesOf(s.taken);
    } else {
      var n := |frames| - 1;
      var first, s1 := FramesExported(c, s, frames[..n]);
      var more;
      more, s' := FrameExported(c, s1, frames[n]);
      FrameTaken(s1.taken, frames[n]);
      Joined(c, s, first, s1, more, s');
      run := first + more;
      assert frames == frames[..n] + [frames[n]];
    }
  }

  /** The saver has closed its last file, and the uploader has had every path. */
  ghost predicate Closed<F>(c: Config, s: State<F>) {
    && s.saver.pc == Cleanup && s.saver.ok && s.omitted == [] && s.paths == []
    && (forall p <- s.failed :: p == NO_PATH)
    && (c.forwardPaths ==> s.uploader == PopPath && AllUploaded(c, s))
  }

  /** The empty path cannot be uploaded, which costs a new connection. */
  lemma EmptyPathPassed<F>(c: Config, s: State<F>) returns (run: seq<Label<F>>, s': State<F>)
    requires c.Valid() && Inv(c, s) && KeptUp(c, s) && c.forwardPaths
    requires s.saver.pc == Forward && s.saver.path == NO_PATH && !s.saver.startNew
    ensures Reaches(c, s, run, s') && Closed(c, s') && s'.taken == s.taken
  {
    var forward, take: Label<F> := BySaver(ForwardPath(false)), ByUploader(Take);
    var upload, connect: Label<F> := ByUploader(Upload(false)), ByUploader(Connect(true));
    var s1 := Apply(c, s, forward);
    var s2 := Apply(c, s1, take);
    var s3 := Apply(c, s2, upload);
    s' := Apply(c, s3, connect);
    run := Then(c, s3, connect, [], s');
    run := Then(c, s2, upload, run, s');
    run := Then(c, s1, take, run, s');
    run := Then(c, s, forward, run, s');
  }

  /** The last file, which has a frame or not. */
  lemma LastFileClosed<F>(c: Config, s: State<F>) returns (run: seq<Label<F>>, s': State<F>)
    requires c.Valid() && Inv(c, s) && KeptUp(c, s) && s.saver.pc == Flush && s.saver.ok && !s.saver.startNew
    ensures Reaches(c, s, run, s') && Closed(c, s') && s'.taken == s.taken
  {
    if s.saver.writer {
      run, s' := FileExported(c, s);
    } else {
      var flush: Label<F> := BySaver(FlushFile(true));
      var s1 := Apply(c, s, flush);
      StepKeepsInv(c, s, flush);
      if c.forwardPaths {
        run, s' := EmptyPathPassed(c, s1);
      } else {
        run, s' := [], s1;
      }
      run := Then(c, s, flush, run, s');
    }
  }

  /** The saver sends its EOS, and the uploader ends with it. */
  lemma EosSent<F>(c: Config, s: State<F>) returns (run: seq<Label<F>>, s': State<F>)
    requires c.Valid() && Closed(c, s)
    ensures Reaches(c, s, run, s') && s'.saver.pc == Done && s'.saver.ok && s'.taken == s.taken && s'.omitted == []
    ensures s'.failed == s.failed && (c.forwardPaths ==> s'.uploader == Stopped(true) && AllUploaded(c, s'))
  {
    var finish, take: Label<F> := BySaver(Finish), ByUploader(Take);
    var s1 := Apply(c, s, finish);
    if c.forwardPaths {
      s' := Apply(c, s1, take);
      run := Then(c, s1, take, [], s');
    } else {
      run, s' := [], s1;
    }
    run := Then(c, s, finish, run, s');
  }

  lemma Ending<F>(c: Config, s: State<F>) returns (run: seq<Label<F>>, s': State<F>)
    requires c.Valid() && Ready(c, s)
    ensures Reaches(c, s, run, s') && s'.saver.pc == Done && s'.saver.ok && FramesOf(s'.taken) == FramesOf(s.taken)
    ensures s'.omitted == [] && (forall p <- s'.failed :: p == NO_PATH)
    ensures c.forwardPaths ==> s'.uploader == Stopped(true) && AllUploaded(c, s')
  {
    var offer, pop: Label<F> := BySource(EndOfStream), BySaver(PopItem);
    var s1 := Apply(c, s, offer);
    StepKeepsInv(c, s, offer);
    var s2 := Apply(c, s1, pop);
    StepKeepsInv(c, s1, pop);
    var more, s3 := LastFileClosed(c, s2);
    run, s' := EosSent(c, s3);
    Joined(c, s2, more, s3, run, s');
    run := Then(c, s1, pop, more + run, s');
    run := Then(c, s, offer, run, s');
  }

  /** The safety claims are not vacuous: whatever frames the source offers, some run saves them all,
      cut into files, and uploads every file, with no failure but that of the empty path. */
  lemma SomeRunExports<F>(c: Config, frames: seq<F>) returns (run: seq<Label<F>>)
    requires c.Valid()
    ensures ValidRun(c, Init(c), run)
    ensures var s := Run(c, Init(c), run);
            && s.saver.pc == Done && s.saver.ok && Contents(s.files) == Chunks(frames, c.max)
            && s.omitted == [] && (forall p <- s.failed :: p == NO_PATH)
            && (c.forwardPaths ==> s.uploader == Stopped(true) && AllUploaded(c, s))
  {
    var connect: Label<F> := ByUploader(Connect(true));
    ConnectedIsIdle<F>(c);
    var s2;
    if c.forwardPaths {
      run, s2 := AllExported(c, Apply(c, Init(c), connect), frames);
      run := Then(c, Init(c), connect, run, s2);
    } else {
      run, s2 := AllExported(c, Init(c), frames);
    }
    assert [] + frames == frames;
    FilesAreCut(c, run);
  }

  lemma AllExported<F>(c: Config, s: State<F>, frames: seq<F>) returns (run: seq<Label<F>>, s': State<F>)
    requires c.Valid() && Ready(c, s)
    ensures Reaches(c, s, run, s') && s'.saver.pc == Done && s'.saver.ok && FramesOf(s'.taken) == FramesOf(s.taken) + frames
    ensures s'.omitted == [] && (forall p <- s'.failed :: p == NO_PATH)
    ensures c.forwardPaths ==> s'.uploader == Stopped(true) && AllUploaded(c, s')
  {
    var first, s1 := FramesExported(c, s, frames);
    run, s' := Ending(c, s1);
    Joined(c, s, first, s1, run, s');
    run := first + run;
  }

  lemma FilesAreCut<F>(c: Config, run: seq<Label<F>>)
    requires c.Valid() && ValidRun(c, Init(c), run)
    requires Run(c, Init(c), run).saver.pc == Done && Run(c, Init(c), run).saver.ok
    ensures var s := Run(c, Init(c), run); Contents(s.files) == Chunks(FramesOf(s.taken), c.max)
  {
    RunKeepsInv(c, Init(c), run);
  }

  lemma ConnectedIsIdle<F>(c: Config)
    requires c.Valid()
    ensures var s := Init<F>(c).(uploader := if c.forwardPaths then PopPath else Stopped(true));
            Ready(c, s)
  {
  }

  // ----- The saver goes on -----

  /** How far a saver that has met no error and no reason to stop is from its next pop. */
  function StepsToPop<F>(v: Saver<F>): nat {
    match v.pc
    case PopImage => 0
    case CheckSource => 1
    case Forward => 1
    case Flush => 2
    case _ => 3
  }

  function NextSaverStep<F>(s: State<F>, name: Path): SaverStep {
    match s.saver.pc
    case PopImage => PopItem
    case CheckSource => ReadSource(false)
    case Forward => ForwardPath(false)
    case Flush => FlushFile(true)
    case _ => WriteFrame(Written, name)
  }

  lemma TowardsPop<F>(c: Config, s: State<F>, name: Path)
    requires c.Valid() && Inv(c, s) && s.saver.ok && s.saver.startNew && s.saver.pc != Crashed && s.saver.pc != PopImage
    requires name !in s.used && name != NO_PATH
    ensures var v := NextSaverStep(s, name);
            SaverMay(s, v) &&
            var s' := ApplySaver(c, s, v);
            && s'.saver.ok && s'.saver.startNew && s'.saver.pc != Crashed && StepsToPop(s'.saver) < StepsToPop(s.saver)
            && s'.taken == s.taken && s'.images == s.images
  {
  }

  /** Wherever the saver has got to, if it has met no error and no reason to stop, it can go on by
      itself to pop the oldest item of its channel. */
  lemma {:induction false} SaverTakesNext<F>(c: Config, s: State<F>) returns (run: seq<Label<F>>)
    requires c.Valid() && Inv(c, s) && s.saver.ok && s.saver.startNew && s.saver.pc != Crashed && s.images != []
    ensures ValidRun(c, s, run) && forall l <- run :: l.BySaver?
    ensures Run(c, s, run).taken == s.taken + [s.images[0]]
    decreases StepsToPop(s.saver)
  {
    if s.saver.pc == PopImage {
      run := RunCons(c, s, BySaver(PopItem), []);
    } else {
      var name := Bound(s.used);
      TowardsPop(c, s, name);
      var l: Label<F> := BySaver(NextSaverStep(s, name));
      StepKeepsInv(c, s, l);
      var rest := SaverTakesNext(c, Apply(c, s, l));
      run := RunCons(c, s, l, rest);
    }
  }
}
