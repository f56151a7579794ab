/** What a finished saver has saved, what it can leave behind and why, when it forwards the empty
    path, and when it aborts the process. */
module ExporterOutcomes {
  import opened Arithmetic
  import opened VideoChunks
  import opened VideoExporter

  // ----- Are all frames saved? -----

  /** The files are the cut of every frame that the image channel accepted. */
  ghost predicate AllSaved<F>(c: Config, s: State<F>)
    requires c.Valid()
  {
    Contents(s.files) == Chunks(FramesOf(s.accepted), c.max)
  }

  ghost predicate NoImageIn<F>(items: seq<Item<F>>) {
    forall item <- items :: !item.Image?
  }

  ghost predicate EosOnlyLast<F>(items: seq<Item<F>>) {
    forall i | 0 <= i < |items| - 1 :: items[i] != EndOfStream
  }

  lemma {:induction false} FramesOfConcat<F>(a: seq<Item<F>>, b: seq<Item<F>>)
    ensures FramesOf(a + b) == FramesOf(a) + FramesOf(b)
  {
    if b == [] {
      assert a + b == a;
    } else {
      FramesOfConcat(a, b[..|b| - 1]);
      assert (a + b)[..|a + b| - 1] == a + b[..|b| - 1];
    }
  }

  lemma {:induction false} FramesOfNoImage<F>(items: seq<Item<F>>)
    ensures FramesOf(items) == [] <==> NoImageIn(items)
  {
    if items == [] {
    } else {
      FramesOfNoImage(items[..|items| - 1]);
      assert items == items[..|items| - 1] + [items[|items| - 1]];
    }
  }

  /** A saver that finishes without an error has saved every accepted frame if and only if it has
      left no image in the channel. */
  lemma AllSavedIffNoImageLeft<F>(c: Config, run: seq<Label<F>>)
    requires c.Valid() && ValidRun(c, Init(c), run)
    requires var s := Run(c, Init(c), run); s.saver.pc == Done && s.saver.ok
    ensures AllSaved(c, Run(c, Init(c), run)) <==> NoImageIn(Run(c, Init(c), run).images)
  {
    RunKeepsInv(c, Init(c), run);
    SavedIffNoImageLeft(c, Run(c, Init(c), run));
  }

  lemma SavedIffNoImageLeft<F>(c: Config, s: State<F>)
    requires c.Valid() && Channels(s) && Contents(s.files) == Chunks(FramesOf(s.taken), c.max)
    ensures AllSaved(c, s) <==> NoImageIn(s.images)
  {
    FramesOfConcat(s.taken, s.images);
    FramesOfNoImage(s.images);
    ChunksCut(FramesOf(s.taken), c.max);
    ChunksCut(FramesOf(s.accepted), c.max);
    assert FramesOf(s.taken) + [] == FramesOf(s.taken);
    assert AllSaved(c, s) ==> FramesOf(s.taken) == FramesOf(s.accepted);
  }

  /** If the images accepted end in their only EOS, they are all saved if and only if that EOS was
      popped or is all that is left. */
  lemma CompleteStreamSavedIff<F>(c: Config, run: seq<Label<F>>)
    requires c.Valid() && ValidRun(c, Init(c), run)
    requires var s := Run(c, Init(c), run);
             && s.saver.pc == Done && s.saver.ok
             && EosOnlyLast(s.accepted) && Failure !in s.accepted
             && s.accepted != [] && s.accepted[|s.accepted| - 1] == EndOfStream
    ensures var s := Run(c, Init(c), run);
            AllSaved(c, s) <==> EndOfStream in s.taken || s.images == [EndOfStream]
  {
    AllSavedIffNoImageLeft(c, run);
    RunKeepsInv(c, Init(c), run);
    LeftAfterEos(Run(c, Init(c), run));
  }

  lemma LeftAfterEos<F>(s: State<F>)
    requires Channels(s) && EosOnlyLast(s.accepted) && Failure !in s.accepted
    requires s.accepted != [] && s.accepted[|s.accepted| - 1] == EndOfStream
    ensures EndOfStream in s.taken <==> s.images == []
    ensures NoImageIn(s.images) <==> s.images == [] || s.images == [EndOfStream]
  {
    if s.images != [] {
      var last := |s.images| - 1;
      assert s.images[last] == s.accepted[|s.accepted| - 1];
      assert forall i | 0 <= i < |s.taken| :: s.accepted[i] == s.taken[i];
      assert forall i | 0 <= i < |s.images| :: s.accepted[|s.taken| + i] == s.images[i];
      if |s.images| > 1 {
        assert s.images[0].Image?;
      }
    } else {
      assert s.taken == s.accepted;
    }
  }

  // ----- Why a saver stops -----

  /** The two guards that stop a saver which has not seen an EOS: a pop has timed out and the source
      looks completed, or the destination does. */
  predicate LeavesEarly<F>(l: Label<F>) {
    l == BySaver(ReadSource(true)) || l == BySaver(ForwardPath(true))
  }

  /** The saver has not stopped between the two states, or it popped an EOS, or it left early. */
  ghost predicate StopsFor<F>(s: State<F>, l: Label<F>, s': State<F>) {
    && (!s.saver.ok ==> !s'.saver.ok)
    && (!s.saver.startNew ==> !s'.saver.startNew)
    && (s.saver.startNew && !s'.saver.startNew && s'.saver.ok ==>
          LeavesEarly(l) || s'.taken == s.taken + [EndOfStream])
  }

  lemma SaverStopsFor<F>(c: Config, s: State<F>, v: SaverStep)
    requires SaverMay(s, v)
    ensures StopsFor(s, BySaver(v), ApplySaver(c, s, v))
    ensures s.taken <= ApplySaver(c, s, v).taken
  {
    match v
    case PopItem =>
    case WriteFrame(result, name) =>
    case FlushFile(removed) =>
    case _ =>
  }

  lemma StopStep<F>(c: Config, s: State<F>, l: Label<F>)
    requires Enabled(s, l)
    ensures StopsFor(s, l, Apply(c, s, l))
    ensures s.taken <= Apply(c, s, l).taken
  {
    if l.BySaver? {
      SaverStopsFor(c, s, l.v);
    }
  }

  lemma {:induction false} StopHasAReason<F>(c: Config, s: State<F>, run: seq<Label<F>>)
    requires ValidRun(c, s, run)
    ensures var s' := Run(c, s, run);
            && s.taken <= s'.taken
            && (!s.saver.ok ==> !s'.saver.ok)
            && (s.saver.startNew && !s'.saver.startNew && s'.saver.ok ==>
                  EndOfStream in s'.taken || exists l <- run :: LeavesEarly(l))
    decreases run
  {
    if run == [] {
    } else {
      var l, s1, s' := run[0], Apply(c, s, run[0]), Run(c, s, run);
      StopStep(c, s, l);
      StopHasAReason(c, s1, run[1..]);
      if s1.taken == s.taken + [EndOfStream] {
        assert s'.taken[|s.taken|] == EndOfStream;
      }
    }
  }

  /** Frames are left behind only by a saver that took one of those two exits. */
  lemma FramesLostOnlyByLeavingEarly<F>(c: Config, run: seq<Label<F>>)
    requires c.Valid() && ValidRun(c, Init(c), run)
    requires var s := Run(c, Init(c), run);
             s.saver.pc == Done && s.saver.ok && EosOnlyLast(s.accepted) && !AllSaved(c, s)
    ensures exists l <- run :: LeavesEarly(l)
  {
    RunKeepsInv(c, Init(c), run);
    var s := Run(c, Init(c), run);
    StopHasAReason(c, Init(c), run);
    if EndOfStream in s.taken {
      var i :| 0 <= i < |s.taken| && s.taken[i] == EndOfStream;
      assert s.accepted[i] == EndOfStream;
      assert s.images == [];
      AllSavedIffNoImageLeft(c, run);
    }
  }

  /** The saver will start no other file and pop nothing more. */
  predicate HasStopped<F>(v: Saver<F>) {
    !v.startNew && (v.pc == Flush || v.pc == Forward || v.pc == Cleanup || v.pc == Done)
  }

  lemma StoppedSaverStep<F>(c: Config, s: State<F>, v: SaverStep)
    requires HasStopped(s.saver) && SaverMay(s, v)
    ensures HasStopped(ApplySaver(c, s, v).saver) && ApplySaver(c, s, v).taken == s.taken
    ensures ApplySaver(c, s, v).accepted == s.accepted
  {
    match v
    case FlushFile(removed) =>
    case _ =>
  }

  lemma StoppedStep<F>(c: Config, s: State<F>, l: Label<F>)
    requires HasStopped(s.saver) && Enabled(s, l)
    ensures HasStopped(Apply(c, s, l).saver) && Apply(c, s, l).taken == s.taken
    ensures s.accepted <= Apply(c, s, l).accepted
  {
    if l.BySaver? {
      StoppedSaverStep(c, s, l.v);
    }
  }

  lemma {:induction false} StoppedTakesNothing<F>(c: Config, s: State<F>, run: seq<Label<F>>)
    requires HasStopped(s.saver) && ValidRun(c, s, run)
    ensures Run(c, s, run).taken == s.taken && s.accepted <= Run(c, s, run).accepted
    decreases run
  {
    if run == [] {
    } else {
      StoppedStep(c, s, run[0]);
      StoppedTakesNothing(c, Apply(c, s, run[0]), run[1..]);
    }
  }

  lemma LeftAtStop<F>(s: State<F>, end: State<F>)
    requires Channels(s) && Channels(end) && end.taken == s.taken && s.accepted <= end.accepted
    ensures NoImageIn(end.images) <==> NoImageIn(s.images) && NoImageIn(end.accepted[|s.accepted|..])
  {
    var late := end.accepted[|s.accepted|..];
    assert end.images == end.accepted[|s.taken|..] == s.images + late;
  }

  /** The exact condition, at the moment the saver stops, for whatever reason: a saver that then ends
      in success has saved every accepted frame if and only if no image is in the channel at that
      moment and none is accepted afterwards. */
  lemma AllSavedIffNoneAtStop<F>(c: Config, before: seq<Label<F>>, after: seq<Label<F>>)
    requires c.Valid() && ValidRun(c, Init(c), before) && !Run(c, Init(c), before).saver.startNew
    requires ValidRun(c, Run(c, Init(c), before), after)
    requires var end := Run(c, Run(c, Init(c), before), after); end.saver.pc == Done && end.saver.ok
    ensures var s := Run(c, Init(c), before);
            var end := Run(c, s, after);
            && s.accepted <= end.accepted
            && (AllSaved(c, end) <==> NoImageIn(s.images) && NoImageIn(end.accepted[|s.accepted|..]))
  {
    var s := Run(c, Init(c), before);
    RunKeepsInv(c, Init(c), before);
    NoneAtStop(c, s, after, Run(c, s, after));
  }

  lemma NoneAtStop<F>(c: Config, s: State<F>, run: seq<Label<F>>, end: State<F>)
    requires c.Valid() && Inv(c, s) && !s.saver.startNew && ValidRun(c, s, run)
    requires end == Run(c, s, run) && end.saver.pc == Done && end.saver.ok
    ensures s.accepted <= end.accepted
    ensures AllSaved(c, end) <==> NoImageIn(s.images) && NoImageIn(end.accepted[|s.accepted|..])
  {
    assert HasStopped(s.saver);
    StoppedTakesNothing(c, s, run);
    RunKeepsInv(c, s, run);
    SavedIffNoImageLeft(c, end);
    LeftAtStop(s, end);
  }

  /** The first exit happens: the pop times out, the source then delivers and completes, and the
      saver, which looks at the completion flag only, ends in success. */
  lemma FramesLeftBehindByTimeOut<F>(f: F) returns (c: Config, run: seq<Label<F>>)
    ensures c.Valid() && ValidRun(c, Init(c), run)
    ensures var s := Run(c, Init(c), run);
            s.saver.pc == Done && s.saver.ok && s.files == [] && s.images == [Image(f), EndOfStream]
  {
    c := Config(1, 2, false, true);
    var l1, l2, l3 := BySaver(TimeOut), BySource(Image(f)), BySource(EndOfStream);
    var l4, l5, l6 := BySaver(ReadSource(true)), BySaver(FlushFile(true)), BySaver(Finish);
    var v: Saver<F> := StartFile(true);
    var items := [Image(f), EndOfStream];
    var s1 := Init(c).(saver := v.(pc := CheckSource));
    var s2 := s1.(images := items[..1], accepted := items[..1]);
    var s3 := s1.(images := items, accepted := items);
    var s4 := s3.(saver := v.(pc := Flush, startNew := false));
    var s5 := s3.(saver := v.(pc := Cleanup, startNew := false));
    var s6 := s3.(saver := v.(pc := Done, startNew := false));
    assert Apply(c, Init(c), l1) == s1 && Apply(c, s1, l2) == s2 && Apply(c, s2, l3) == s3;
    assert Apply(c, s3, l4) == s4 && Apply(c, s4, l5) == s5 && Apply(c, s5, l6) == s6;
    run := RunCons(c, s5, l6, []);
    run := RunCons(c, s4, l5, run);
    run := RunCons(c, s3, l4, run);
    run := RunCons(c, s2, l3, run);
    run := RunCons(c, s1, l2, run);
    run := RunCons(c, Init(c), l1, run);
  }

  /** A saver that has filled its first file and finds its destination completed stops in success. */
  lemma StopAfterFirstFile<F>(c: Config, s: State<F>, f: F) returns (run: seq<Label<F>>)
    requires c.forwardPaths && s.saver == Saver(Flush, 1, true, 1, true, true)
    requires s.files == [] && 1 in s.disk && s.disk[1] == [f]
    ensures ValidRun(c, s, run) && BySaver(TimeOut) !in run
    ensures var s' := Run(c, s, run);
            s'.saver.pc == Done && s'.saver.ok && s'.files == [File(1, [f])] && s'.images == s.images
  {
    var l1, l2, l3 := BySaver(FlushFile(true)), BySaver(ForwardPath(true)), BySaver(Finish);
    var s1 := Apply(c, s, l1);
    var s2 := Apply(c, s1, l2);
    run := RunCons(c, s2, l3, []);
    run := RunCons(c, s1, l2, run);
    run := RunCons(c, s, l1, run);
  }

  lemma FillFirstFile<F>(c: Config, s: State<F>, f: F) returns (run: seq<Label<F>>)
    requires c.forwardPaths && c.max == 1 && s.saver == StartFile(true)
    requires s.files == [] && s.used == {} && s.images != [] && s.images[0] == Image(f)
    ensures ValidRun(c, s, run) && BySaver(TimeOut) !in run
    ensures var s' := Run(c, s, run);
            s'.saver.pc == Done && s'.saver.ok && s'.files == [File(1, [f])] && s'.images == s.images[1..]
  {
    var l1, l2 := BySaver(PopItem), BySaver(WriteFrame(Written, 1));
    var s1 := Apply(c, s, l1);
    run := StopAfterFirstFile(c, Apply(c, s1, l2), f);
    run := RunCons(c, s1, l2, run);
    run := RunCons(c, s, l1, run);
  }

  /** So does the second, without any time-out: the uploader fails to connect, and the saver, which
      finds it completed after its first file, stops in success. */
  lemma FramesLeftBehindByDestination<F>(f: F, g: F) returns (c: Config, run: seq<Label<F>>)
    ensures c.Valid() && ValidRun(c, Init(c), run) && BySaver(TimeOut) !in run
    ensures var s := Run(c, Init(c), run);
            s.saver.pc == Done && s.saver.ok && s.files == [File(1, [f])] && s.images == [Image(g)]
  {
    c := Config(1, 2, true, true);
    var l1, l2, l3 := BySource(Image(f)), BySource(Image(g)), ByUploader(Connect(false));
    var s1 := Apply(c, Init(c), l1);
    var s2 := Apply(c, s1, l2);
    assert s2.images == [Image(f), Image(g)];
    run := FillFirstFile(c, Apply(c, s2, l3), f);
    run := RunCons(c, s2, l3, run);
    run := RunCons(c, s1, l2, run);
    run := RunCons(c, Init(c), l1, run);
  }

  // ----- When the empty path is forwarded -----

  lemma RestOfTimes(k: nat, r: nat, m: nat)
    requires r < m
    ensures (Times(k, m) + r) % m == r
  {
    TimesIsProduct(k, m);
    QuotientUnique(k, r, m);
  }

  /** How many files the frames popped before those of the current file have filled. */
  function WholeFiles<F>(s: State<F>): nat {
    if s.saver.pc == Forward && s.saver.path != NO_PATH && s.files != [] then |s.files| - 1 else |s.files|
  }

  /** The frames popped are whole files and those of the current file; the empty path is forwarded
      only when there are none of the latter. */
  ghost predicate Rest<F>(c: Config, s: State<F>) {
    var v := s.saver;
    var n := |FramesOf(s.taken)|;
    && (v.ok && (Open(v) || v.pc == Forward) ==>
          n == Times(WholeFiles(s), c.max) + v.index + if v.pc.Write? then 1 else 0)
    && (NO_PATH in s.forwarded ==> n == Times(|s.files|, c.max))
  }

  /** The part of the other invariants that this one needs. */
  ghost predicate PathOk<F>(c: Config, s: State<F>) {
    var v := s.saver;
    && (NO_PATH in s.forwarded ==> v.pc == Cleanup || v.pc == Done)
    && (Open(v) && v.ok ==> (v.writer <==> v.index > 0) && (v.writer <==> v.path != NO_PATH))
    && (v.writer && Open(v) ==> v.path in s.disk)
    && (v.pc == Flush && v.ok && v.startNew ==> v.index == c.max)
    && (v.pc == Forward ==> v.ok && (v.path != NO_PATH <==> v.index > 0))
    && (v.pc == Forward ==> if v.startNew then v.index == c.max else v.index < c.max)
    && (v.pc == Forward && v.path != NO_PATH ==> s.files != [])
  }

  lemma PopKeepsRest<F>(c: Config, s: State<F>)
    requires PathOk(c, s) && Rest(c, s) && SaverMay(s, PopItem)
    ensures Rest(c, ApplyPop(s))
  {
    FramesOfConcat(s.taken, [s.images[0]]);
    assert FramesOf([s.images[0]]) == if s.images[0].Image? then [s.images[0].f] else [];
  }

  lemma WriteKeepsRest<F>(c: Config, s: State<F>, result: WriteResult, name: Path)
    requires PathOk(c, s) && Rest(c, s) && SaverMay(s, WriteFrame(result, name)) && name != NO_PATH
    ensures Rest(c, ApplyWrite(c, s, s.saver.pc.f, result, name))
  {
  }

  lemma FlushKeepsRest<F>(c: Config, s: State<F>, removed: bool)
    requires c.Valid() && PathOk(c, s) && Rest(c, s) && SaverMay(s, FlushFile(removed))
    ensures Rest(c, ApplyFlush(c, s, removed))
  {
  }

  lemma ForwardKeepsRest<F>(c: Config, s: State<F>, dstCompleted: bool)
    requires c.Valid() && PathOk(c, s) && Rest(c, s) && SaverMay(s, ForwardPath(dstCompleted))
    ensures Rest(c, ApplyForward(c, s, dstCompleted))
  {
  }

  lemma SaverKeepsRest<F>(c: Config, s: State<F>, l: SaverStep)
    requires c.Valid() && PathOk(c, s) && Rest(c, s) && SaverMay(s, l)
    ensures Rest(c, ApplySaver(c, s, l))
  {
    match l
    case PopItem => PopKeepsRest(c, s);
    case WriteFrame(result, name) => WriteKeepsRest(c, s, result, name);
    case FlushFile(removed) => FlushKeepsRest(c, s, removed);
    case ForwardPath(dstCompleted) => ForwardKeepsRest(c, s, dstCompleted);
    case _ =>
  }

  lemma PathIsOk<F>(c: Config, s: State<F>)
    requires c.Valid() && WriterOk(c, s) && Names(s)
    ensures PathOk(c, s)
  {
  }

  lemma StepKeepsRest<F>(c: Config, s: State<F>, l: Label<F>)
    requires c.Valid() && PathOk(c, s) && Rest(c, s) && Enabled(s, l)
    ensures Rest(c, Apply(c, s, l))
  {
    if l.BySaver? {
      SaverKeepsRest(c, s, l.v);
    }
  }

  lemma {:induction false} RunKeepsRest<F>(c: Config, s: State<F>, run: seq<Label<F>>)
    requires c.Valid() && Inv(c, s) && Rest(c, s) && ValidRun(c, s, run)
    ensures Rest(c, Run(c, s, run))
    decreases run
  {
    if run == [] {
    } else {
      PathIsOk(c, s);
      StepKeepsRest(c, s, run[0]);
      StepKeepsInv(c, s, run[0]);
      RunKeepsRest(c, Apply(c, s, run[0]), run[1..]);
    }
  }

  lemma EmptyPathAt<F>(c: Config, s: State<F>)
    requires c.Valid() && PathOk(c, s) && Rest(c, s)
    ensures s.saver.pc == Forward ==>
              (s.saver.path == NO_PATH <==> !s.saver.startNew && |FramesOf(s.taken)| % c.max == 0)
  {
    var v := s.saver;
    RestOfTimes(|s.files|, 0, c.max);
    if v.pc == Forward && !v.startNew {
      RestOfTimes(WholeFiles(s), v.index, c.max);
    }
  }

  /** The saver is about to forward the empty path if and only if it has stopped after popping a
      multiple of `max` frames. */
  lemma EmptyPathIff<F>(c: Config, run: seq<Label<F>>)
    requires c.Valid() && ValidRun(c, Init(c), run) && Run(c, Init(c), run).saver.pc == Forward
    ensures var s := Run(c, Init(c), run);
            s.saver.path == NO_PATH <==> !s.saver.startNew && |FramesOf(s.taken)| % c.max == 0
  {
    RunKeepsInv(c, Init(c), run);
    RunKeepsRest(c, Init(c), run);
    PathIsOk(c, Run(c, Init(c), run));
    EmptyPathAt(c, Run(c, Init(c), run));
  }

  /** So it is forwarded at most once, last, and only after a multiple of `max` frames. */
  lemma EmptyPathOnceAndLast<F>(c: Config, run: seq<Label<F>>)
    requires c.Valid() && ValidRun(c, Init(c), run) && NO_PATH in Run(c, Init(c), run).forwarded
    ensures var s := Run(c, Init(c), run);
            && |FramesOf(s.taken)| % c.max == 0
            && s.forwarded[|s.forwarded| - 1] == NO_PATH && NO_PATH !in s.forwarded[..|s.forwarded| - 1]
  {
    var s := Run(c, Init(c), run);
    RunKeepsInv(c, Init(c), run);
    RunKeepsRest(c, Init(c), run);
    OnceAndLast(c, s);
  }

  lemma OnceAndLast<F>(c: Config, s: State<F>)
    requires c.Valid() && Names(s) && Rest(c, s) && NO_PATH in s.forwarded
    ensures |FramesOf(s.taken)| % c.max == 0
    ensures s.forwarded[|s.forwarded| - 1] == NO_PATH && NO_PATH !in s.forwarded[..|s.forwarded| - 1]
  {
    RestOfTimes(|s.files|, 0, c.max);
  }

  /** It happens: a source that completes without a frame. */
  lemma EmptyPathForwarded<F>() returns (c: Config, run: seq<Label<F>>)
    ensures c.Valid() && ValidRun(c, Init(c), run) && |run| == 4
    ensures Run(c, Init(c), run).forwarded == [NO_PATH]
  {
    c := Config(1, 1, true, true);
    var l1, l2: Label<F> := BySaver(TimeOut), BySaver(ReadSource(true));
    var l3, l4: Label<F> := BySaver(FlushFile(true)), BySaver(ForwardPath(false));
    var s1 := Apply(c, Init(c), l1);
    var s2 := Apply(c, s1, l2);
    var s3 := Apply(c, s2, l3);
    run := RunCons(c, s3, l4, []);
    run := RunCons(c, s2, l3, run);
    run := RunCons(c, s1, l2, run);
    run := RunCons(c, Init(c), l1, run);
  }

  // ----- When the process aborts -----

  /** What the source has tried to put into the channel. */
  function Offered<F>(run: seq<Label<F>>): seq<Item<F>> {
    if run == [] then []
    else (if run[0].BySource? then [run[0].item] else []) + Offered(run[1..])
  }

  lemma {:induction false} AcceptedWasOffered<F>(c: Config, s: State<F>, run: seq<Label<F>>)
    requires ValidRun(c, s, run)
    ensures forall item <- Run(c, s, run).accepted :: item in s.accepted || item in Offered(run)
    decreases run
  {
    if run == [] {
    } else {
      AcceptedWasOffered(c, Apply(c, s, run[0]), run[1..]);
    }
  }

  /** The saver waits at an empty channel. */
  ghost predicate Idle<F>(c: Config, s: State<F>)
    requires c.Valid()
  {
    Inv(c, s) && s.saver.pc == PopImage && s.images == []
  }

  lemma {:induction false} Bound(used: set<Path>) returns (n: Path)
    ensures forall p <- used :: p < n
    ensures n > 0
    decreases |used|
  {
    if used == {} {
      n := 1;
    } else {
      var p :| p in used;
      var m := Bound(used - {p});
      n := if p < m then m else p + 1;
      assert used == used - {p} + {p};
    }
  }

  lemma OfferedCons<F>(l: Label<F>, rest: seq<Label<F>>)
    ensures Offered([l] + rest) == (if l.BySource? then [l.item] else []) + Offered(rest)
  {
    assert ([l] + rest)[1..] == rest;
  }

  /** A saver that has flushed a full file and is to forward its path waits for the next image then. */
  lemma ForwardAndWait<F>(c: Config, s: State<F>) returns (run: seq<Label<F>>)
    requires c.Valid() && Inv(c, s) && s.saver.pc == Forward && s.saver.startNew && s.images == []
    ensures ValidRun(c, s, run) && Offered(run) == [] && Idle(c, Run(c, s, run))
  {
    var l: Label<F> := BySaver(ForwardPath(false));
    StepKeepsInv(c, s, l);
    OfferedCons(l, []);
    run := RunCons(c, s, l, []);
  }

  /** A saver that has just filled a file flushes it and waits for the next image. */
  lemma NextFileAfterFlush<F>(c: Config, s: State<F>) returns (run: seq<Label<F>>)
    requires c.Valid() && Inv(c, s) && s.saver.pc == Flush && s.saver.ok && s.saver.startNew && s.images == []
    ensures ValidRun(c, s, run) && Offered(run) == [] && Idle(c, Run(c, s, run))
  {
    var l: Label<F> := BySaver(FlushFile(true));
    var s1 := Apply(c, s, l);
    StepKeepsInv(c, s, l);
    run := [];
    if c.forwardPaths {
      run := ForwardAndWait(c, s1);
    }
    OfferedCons(l, run);
    run := RunCons(c, s, l, run);
  }

  /** A saver with an image in hand and nothing in the channel writes it and waits for the next. */
  lemma WriteAndWait<F>(c: Config, s: State<F>) returns (run: seq<Label<F>>)
    requires c.Valid() && Inv(c, s) && s.saver.pc.Write? && s.images == []
    ensures ValidRun(c, s, run) && Offered(run) == [] && Idle(c, Run(c, s, run))
  {
    var name := Bound(s.used);
    var l: Label<F> := BySaver(WriteFrame(Written, name));
    var s1 := Apply(c, s, l);
    StepKeepsInv(c, s, l);
    run := [];
    if s1.saver.pc == Flush {
      run := NextFileAfterFlush(c, s1);
    }
    OfferedCons(l, run);
    run := RunCons(c, s, l, run);
  }

  lemma ConsumeImage<F>(c: Config, s: State<F>, f: F) returns (run: seq<Label<F>>)
    requires c.Valid() && Idle(c, s)
    ensures ValidRun(c, s, run) && Offered(run) == [Image(f)] && Idle(c, Run(c, s, run))
  {
    var l1, l2 := BySource(Image(f)), BySaver(PopItem);
    var s1 := Apply(c, s, l1);
    StepKeepsInv(c, s, l1);
    var s2 := Apply(c, s1, l2);
    StepKeepsInv(c, s1, l2);
    run := WriteAndWait(c, s2);
    OfferedCons(l2, run);
    run := RunCons(c, s1, l2, run);
    OfferedCons(l1, run);
    run := RunCons(c, s, l1, run);
  }

  lemma FailureAborts<F>(c: Config, s: State<F>) returns (run: seq<Label<F>>)
    requires c.Valid() && Idle(c, s)
    ensures ValidRun(c, s, run) && Offered(run) == [Failure] && Run(c, s, run).saver.pc == Crashed
  {
    var l1, l2: Label<F> := BySource(Failure), BySaver(PopItem);
    var s1 := Apply(c, s, l1);
    OfferedCons(l2, []);
    run := RunCons(c, s1, l2, []);
    OfferedCons(l1, run);
    run := RunCons(c, s, l1, run);
  }

  /** From an idle saver, images up to a failure lead to an abort. */
  lemma {:induction false} AbortAfterImages<F>(c: Config, s: State<F>, items: seq<Item<F>>) returns (run: seq<Label<F>>)
    requires c.Valid() && Idle(c, s) && EosOnlyLast(items) && Failure in items
    ensures ValidRun(c, s, run) && Offered(run) <= items && Run(c, s, run).saver.pc == Crashed
    decreases items
  {
    if items[0] == Failure {
      run := FailureAborts(c, s);
    } else {
      var first := ConsumeImage(c, s, items[0].f);
      var s' := Run(c, s, first);
      var rest := AbortAfterImages(c, s', items[1..]);
      RunAppend(c, s, first, rest);
      OfferedPrefix(first, rest, items);
      run := first + rest;
    }
  }

  lemma OfferedPrefix<F>(run: seq<Label<F>>, more: seq<Label<F>>, items: seq<Item<F>>)
    requires items != [] && Offered(run) == [items[0]] && Offered(more) <= items[1..]
    ensures Offered(run + more) <= items
  {
    OfferedConcat(run, more);
    assert items == [items[0]] + items[1..];
  }

  lemma {:induction false} OfferedConcat<F>(run: seq<Label<F>>, more: seq<Label<F>>)
    ensures Offered(run + more) == Offered(run) + Offered(more)
  {
    if run == [] {
      assert run + more == more;
    } else {
      var head := if run[0].BySource? then [run[0].item] else [];
      OfferedConcat(run[1..], more);
      assert (run + more)[0] == run[0] && (run + more)[1..] == run[1..] + more;
      assert Offered(run + more) == head + (Offered(run[1..]) + Offered(more));
      assert Offered(run) == head + Offered(run[1..]);
    }
  }

  lemma {:induction false} RunAppend<F>(c: Config, s: State<F>, run: seq<Label<F>>, more: seq<Label<F>>)
    requires ValidRun(c, s, run) && ValidRun(c, Run(c, s, run), more)
    ensures ValidRun(c, s, run + more) && Run(c, s, run + more) == Run(c, Run(c, s, run), more)
    decreases run
  {
    if run == [] {
      assert run + more == more;
    } else {
      RunAppend(c, Apply(c, s, run[0]), run[1..], more);
      assert (run + more)[1..] == run[1..] + more;
    }
  }

  lemma AbortNeedsFailure<F>(c: Config, run: seq<Label<F>>)
    requires c.Valid() && ValidRun(c, Init(c), run) && Run(c, Init(c), run).saver.pc == Crashed
    ensures Failure in Offered(run)
  {
    RunKeepsInv(c, Init(c), run);
    AcceptedWasOffered(c, Init(c), run);
    var s := Run(c, Init(c), run);
    assert Failure in s.taken && s.accepted == s.taken + s.images;
  }

  /** A source that offers these items, of which only the last may be an EOS, can make the process
      abort if and only if one of them is an error. */
  lemma SomeRunAbortsIff<F>(c: Config, items: seq<Item<F>>)
    requires c.Valid() && EosOnlyLast(items)
    ensures (exists run :: ValidRun(c, Init(c), run) && Offered(run) <= items && Run(c, Init(c), run).saver.pc == Crashed)
            <==> Failure in items
  {
    forall run | ValidRun(c, Init(c), run) && Offered(run) <= items && Run(c, Init(c), run).saver.pc == Crashed
      ensures Failure in items
    {
      AbortNeedsFailure(c, run);
    }
    if Failure in items {
      var run := AbortAfterImages(c, Init(c), items);
    }
  }
}
