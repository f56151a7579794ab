/** What the steps of a run have left behind in the exporter: which of them ended the saver, which
    frames and paths were dropped, which files were removed, and how often the uploader connected. */
module ExporterHistory {
  import opened BoundedFifo
  import opened VideoExporter
  import opened ExporterOutcomes

  lemma LastStep<F>(c: Config, s: State<F>, run: seq<Label<F>>, l: Label<F>)
    requires ValidRun(c, s, run + [l])
    ensures ValidRun(c, s, run) && Enabled(Run(c, s, run), l) && Run(c, s, run + [l]) == Apply(c, Run(c, s, run), l)
    decreases run
  {
    if run == [] {
      assert run + [l] == [l];
    } else {
      assert (run + [l])[0] == run[0] && (run + [l])[1..] == run[1..] + [l];
      LastStep(c, Apply(c, s, run[0]), run[1..], l);
    }
  }

  // ----- The bounds of the channels -----

  ghost predicate WithinCapacity<F>(c: Config, s: State<F>) {
    IsLimited(c.capacity) ==> |s.images| <= c.capacity && |s.paths| <= c.capacity
  }

  lemma {:induction false} RunKeepsCapacity<F>(c: Config, s: State<F>, run: seq<Label<F>>)
    requires WithinCapacity(c, s) && ValidRun(c, s, run)
    ensures WithinCapacity(c, Run(c, s, run))
    decreases run
  {
    if run == [] {
    } else {
      StepKeepsCapacity(c, s, run[0]);
      RunKeepsCapacity(c, Apply(c, s, run[0]), run[1..]);
    }
  }

  lemma StepKeepsCapacity<F>(c: Config, s: State<F>, l: Label<F>)
    requires WithinCapacity(c, s) && Enabled(s, l)
    ensures WithinCapacity(c, Apply(c, s, l))
  {
    if l.BySaver? {
      SaverKeepsCapacity(c, s, l.v);
    }
  }

  lemma SaverKeepsCapacity<F>(c: Config, s: State<F>, v: SaverStep)
    requires WithinCapacity(c, s) && SaverMay(s, v)
    ensures WithinCapacity(c, ApplySaver(c, s, v))
  {
  }

  /** After any run neither channel is overfull, and an item that the source offers is dropped if and
      only if the items accepted and not yet popped are as many as its channel can hold. */
  lemma ItemDroppedIff<F>(c: Config, run: seq<Label<F>>, item: Item<F>)
    requires c.Valid() && ValidRun(c, Init(c), run) && Run(c, Init(c), run).saver.pc != Crashed
    ensures var s := Run(c, Init(c), run);
            var s' := Apply(c, s, BySource(item));
            var full := IsLimited(c.capacity) && |s.accepted| - |s.taken| == c.capacity;
            && WithinCapacity(c, s)
            && s'.accepted == (if full then s.accepted else s.accepted + [item])
            && s' == s.(images := s'.images, accepted := s'.accepted)
  {
    RunKeepsCapacity(c, Init(c), run);
    RunKeepsInv(c, Init(c), run);
  }

  // ----- What ends the saver -----

  /** The step is a write that fails; a file is created only for its first image. */
  predicate WriteFails<F>(s: State<F>, l: Label<F>) {
    l.BySaver? && l.v.WriteFrame? &&
    (l.v.result == ConvertFailed || l.v.result == PutFailed || (l.v.result == CreateFailed && !s.saver.writer))
  }

  /** How the first failed write of the run failed, if there is one. */
  ghost function FailedWrite<F>(c: Config, s: State<F>, run: seq<Label<F>>): Option<WriteResult>
    requires ValidRun(c, s, run)
    decreases run
  {
    if run == [] then None
    else if WriteFails(s, run[0]) then Some(run[0].v.result)
    else FailedWrite(c, Apply(c, s, run[0]), run[1..])
  }

  /** The saver has been told to stop by one of the two flags. */
  ghost predicate FlagSeen<F>(run: seq<Label<F>>) {
    BySaver(ReadSource(true)) in run || BySaver(ForwardPath(true)) in run
  }

  predicate SeesFlag<F>(l: Label<F>) {
    l == BySaver(ReadSource(true)) || l == BySaver(ForwardPath(true))
  }

  /** What the saver has met so far: a failed write, a flag, an EOS. */
  ghost predicate Met<F>(s: State<F>, failure: Option<WriteResult>, flag: bool) {
    var v := s.saver;
    && (v.ok <==> failure == None)
    && (failure.Some? ==> v.pc == Flush || v.pc == Cleanup || v.pc == Done)
    && (!v.startNew <==> EndOfStream in s.taken || flag || (failure.Some? && v.pc != Flush))
    && (v.pc == PopImage || v.pc == CheckSource || v.pc.Write? ==> v.startNew)
    && (v.ok && Open(v) ==> (v.writer <==> v.index > 0) && (v.writer <==> v.path != NO_PATH))
    && (failure.Some? ==> (v.path == NO_PATH <==> failure.value == ConvertFailed && v.index == 0))
  }

  function Earlier(failure: Option<WriteResult>, later: Option<WriteResult>): Option<WriteResult> {
    if failure.Some? then failure else later
  }

  function FailureOf<F>(s: State<F>, l: Label<F>): Option<WriteResult> {
    if WriteFails(s, l) then Some(l.v.result) else None
  }

  lemma WriteMeets<F>(c: Config, s: State<F>, result: WriteResult, name: Path, failure: Option<WriteResult>, flag: bool)
    requires Met(s, failure, flag) && SaverMay(s, WriteFrame(result, name)) && c.Valid()
    ensures Met(ApplyWrite(c, s, s.saver.pc.f, result, name), FailureOf(s, BySaver(WriteFrame(result, name))), flag)
  {
  }

  lemma SaverMeets<F>(c: Config, s: State<F>, v: SaverStep, failure: Option<WriteResult>, flag: bool)
    requires Met(s, failure, flag) && SaverMay(s, v) && c.Valid()
    ensures var l: Label<F> := BySaver(v);
            Met(ApplySaver(c, s, v), Earlier(failure, FailureOf(s, l)), flag || SeesFlag(l))
  {
    match v
    case PopItem =>
    case WriteFrame(result, name) => WriteMeets(c, s, result, name, failure, flag);
    case FlushFile(_) =>
    case _ =>
  }

  lemma {:induction false} RunMeets<F>(c: Config, s: State<F>, run: seq<Label<F>>, failure: Option<WriteResult>, flag: bool)
    requires Met(s, failure, flag) && c.Valid() && ValidRun(c, s, run)
    ensures Met(Run(c, s, run), Earlier(failure, FailedWrite(c, s, run)), flag || FlagSeen(run))
    decreases run
  {
    if run == [] {
    } else {
      var l, s1 := run[0], Apply(c, s, run[0]);
      if l.BySaver? {
        SaverMeets(c, s, l.v, failure, flag);
      }
      RunMeets(c, s1, run[1..], Earlier(failure, FailureOf(s, l)), flag || SeesFlag(l));
      assert run == [l] + run[1..];
    }
  }

  /** The saver has an error status if and only if a write has failed, and it starts no other file if
      and only if it has popped an EOS, has seen one of the two flags set, or has got past its failure.
      The path that it then removes is empty if and only if the first image of a file was not converted. */
  lemma SaverStopsIff<F>(c: Config, run: seq<Label<F>>)
    requires c.Valid() && ValidRun(c, Init(c), run)
    ensures var s := Run(c, Init(c), run);
            var failure := FailedWrite(c, Init(c), run);
            && (s.saver.ok <==> failure == None)
            && (!s.saver.startNew <==>
                  EndOfStream in s.taken || FlagSeen(run) || (failure.Some? && s.saver.pc != Flush))
            && (failure.Some? ==>
                  (s.saver.path == NO_PATH <==> failure == Some(ConvertFailed) && s.saver.index == 0))
  {
    RunMeets(c, Init(c), run, None, false);
  }

  /** A pop times out only on an empty channel: every item accepted before has been popped, so that
      only what is accepted afterwards can be left behind by a saver that then finds its source
      completed. */
  lemma NothingLeftAtTimeOut<F>(c: Config, run: seq<Label<F>>)
    requires c.Valid() && ValidRun(c, Init(c), run + [BySaver(TimeOut)])
    ensures ValidRun(c, Init(c), run) && Run(c, Init(c), run).taken == Run(c, Init(c), run).accepted
  {
    LastStep(c, Init(c), run, BySaver(TimeOut));
    RunKeepsInv(c, Init(c), run);
  }

  // ----- What the channel of paths loses -----

  /** There is room in the path channel for a path a file, the empty path and the EOS. */
  predicate Roomy<F>(c: Config, s: State<F>) {
    IsLimited(c.capacity) ==> |s.files| + 2 <= c.capacity
  }

  /** The EOS goes into the path channel once the saver is done, behind all paths. */
  ghost predicate EosLast<F>(s: State<F>) {
    forall i | 0 <= i < |s.paths| :: s.paths[i] == None ==> i == |s.paths| - 1 && s.saver.pc == Done
  }

  /** The saver offers at most a path for each file, one empty path, and the EOS; `flag` is that it has
      seen its destination completed. */
  ghost predicate PathsOffered<F>(c: Config, s: State<F>, flag: bool) {
    var v := s.saver;
    && EosLast(s)
    && |s.paths| <= |s.forwarded| + (if v.pc == Done then 1 else 0)
    && |s.forwarded| + (if v.pc == Forward && v.path != NO_PATH then 1 else 0)
       <= |s.files| + (if v.pc == Cleanup || v.pc == Done then 1 else 0)
    && (Roomy(c, s) && c.forwardPaths && v.pc == Done ==>
          s.uploader.Stopped? || (s.paths != [] && s.paths[|s.paths| - 1] == None))
    && (Roomy(c, s) && !flag ==> s.omitted == [])
  }

  lemma FlushOffers<F>(c: Config, s: State<F>, removed: bool, flag: bool)
    requires PathsOffered(c, s, flag) && WriterOk(c, s) && Names(s) && SaverMay(s, FlushFile(removed))
    ensures PathsOffered(c, ApplyFlush(c, s, removed), flag)
  {
  }

  lemma ForwardOffers<F>(c: Config, s: State<F>, dstCompleted: bool, flag: bool)
    requires PathsOffered(c, s, flag) && WriterOk(c, s) && Names(s) && SaverMay(s, ForwardPath(dstCompleted))
    ensures PathsOffered(c, ApplyForward(c, s, dstCompleted), flag || dstCompleted)
  {
  }

  lemma WriteOffers<F>(c: Config, s: State<F>, result: WriteResult, name: Path, flag: bool)
    requires PathsOffered(c, s, flag) && SaverMay(s, WriteFrame(result, name))
    ensures PathsOffered(c, ApplyWrite(c, s, s.saver.pc.f, result, name), flag)
  {
  }

  lemma SaverOffersPaths<F>(c: Config, s: State<F>, v: SaverStep, flag: bool)
    requires PathsOffered(c, s, flag) && WriterOk(c, s) && Names(s) && SaverMay(s, v)
    ensures PathsOffered(c, ApplySaver(c, s, v), flag || v == ForwardPath(true))
  {
    match v
    case FlushFile(removed) => FlushOffers(c, s, removed, flag);
    case ForwardPath(dstCompleted) => ForwardOffers(c, s, dstCompleted, flag);
    case WriteFrame(result, name) => WriteOffers(c, s, result, name, flag);
    case _ =>
  }

  lemma UploaderTakesPaths<F>(c: Config, s: State<F>, u: UploaderStep, flag: bool)
    requires PathsOffered(c, s, flag) && UploaderMay(s, u)
    ensures PathsOffered(c, ApplyUploader(c, s, u), flag)
  {
  }

  lemma StepOffersPaths<F>(c: Config, s: State<F>, l: Label<F>, flag: bool)
    requires PathsOffered(c, s, flag) && WriterOk(c, s) && Names(s) && Enabled(s, l)
    ensures PathsOffered(c, Apply(c, s, l), flag || l == BySaver(ForwardPath(true)))
  {
    match l
    case BySource(_) =>
    case BySaver(v) => SaverOffersPaths(c, s, v, flag);
    case ByUploader(u) => UploaderTakesPaths(c, s, u, flag);
  }

  lemma {:induction false} RunOffersPaths<F>(c: Config, run: seq<Label<F>>)
    requires c.Valid() && ValidRun(c, Init(c), run)
    ensures PathsOffered(c, Run(c, Init(c), run), BySaver(ForwardPath(true)) in run)
  {
    if run == [] {
    } else {
      var before, l := run[..|run| - 1], run[|run| - 1];
      assert run == before + [l];
      LastStep(c, Init(c), before, l);
      RunOffersPaths(c, before);
      var s := Run(c, Init(c), before);
      assert WriterOk(c, s) && Names(s) by {
        RunKeepsInv(c, Init(c), before);
      }
      StepOffersPaths(c, s, l, BySaver(ForwardPath(true)) in before);
    }
  }

  /** In any run the EOS is in the path channel only once and behind all paths, when the saver is done.
      If the channel has room for all, a path is omitted only by a saver that finds its destination
      completed, and a done saver has delivered its EOS unless the uploader has stopped. */
  lemma NothingOmittedWithRoom<F>(c: Config, run: seq<Label<F>>)
    requires c.Valid() && ValidRun(c, Init(c), run)
    ensures var s := Run(c, Init(c), run);
            && EosLast(s)
            && (Roomy(c, s) && BySaver(ForwardPath(true)) !in run ==> s.omitted == [])
            && (Roomy(c, s) && c.forwardPaths && s.saver.pc == Done ==>
                  s.uploader.Stopped? || (s.paths != [] && s.paths[|s.paths| - 1] == None))
  {
    RunOffersPaths(c, run);
  }

  // ----- The uploader -----

  /** How often the uploader has connected, taken something from the path channel, and removed. */
  datatype Tally = Tally(connects: nat, takes: nat, removes: nat)

  function Count<F>(t: Tally, l: Label<F>): Tally {
    match l
    case ByUploader(Connect(_)) => t.(connects := t.connects + 1)
    case ByUploader(Take) => t.(takes := t.takes + 1)
    case ByUploader(Remove(_)) => t.(removes := t.removes + 1)
    case _ => t
  }

  function TallyOf<F>(run: seq<Label<F>>): Tally {
    if run == [] then Tally(0, 0, 0) else Count(TallyOf(run[..|run| - 1]), run[|run| - 1])
  }

  /** What the uploader has done, as far as it has got with its last path. */
  ghost predicate Uploads<F>(c: Config, s: State<F>, t: Tally, refused: bool, gaveUp: bool) {
    var u := s.uploader;
    && t.connects + (if u == Connecting then 1 else 0) == 1 + |s.failed|
    && t.removes + (if u.Removing? then 1 else 0) == (if c.keepLocal then 0 else |s.attempted| - |s.failed|)
    && (u == Stopped(false) <==> refused)
    && (u == Stopped(true) <==> gaveUp || t.takes == |s.attempted| + |InFlight(u)| + 1)
    && (u != Stopped(true) || gaveUp ==> t.takes == |s.attempted| + |InFlight(u)|)
  }

  lemma UploaderUploads<F>(c: Config, s: State<F>, u: UploaderStep, t: Tally, refused: bool, gaveUp: bool)
    requires Uploads(c, s, t, refused, gaveUp) && UploaderMay(s, u)
    ensures var l: Label<F> := ByUploader(u);
            Uploads(c, ApplyUploader(c, s, u), Count(t, l), refused || u == Connect(false), gaveUp || u == GiveUp)
  {
  }

  lemma StepUploads<F>(c: Config, s: State<F>, l: Label<F>, t: Tally, refused: bool, gaveUp: bool)
    requires Uploads(c, s, t, refused, gaveUp) && Enabled(s, l)
    ensures Uploads(c, Apply(c, s, l), Count(t, l),
                    refused || l == ByUploader(Connect(false)), gaveUp || l == ByUploader(GiveUp))
  {
    match l
    case BySource(_) =>
    case BySaver(v) => SaverLeavesUploads(c, s, v);
    case ByUploader(u) => UploaderUploads(c, s, u, t, refused, gaveUp);
  }

  lemma SaverLeavesUploads<F>(c: Config, s: State<F>, v: SaverStep)
    requires SaverMay(s, v)
    ensures var s' := ApplySaver(c, s, v); s'.uploader == s.uploader && s'.attempted == s.attempted && s'.failed == s.failed
  {
  }

  lemma {:induction false} RunUploads<F>(c: Config, run: seq<Label<F>>)
    requires c.forwardPaths && ValidRun(c, Init(c), run)
    ensures Uploads(c, Run(c, Init(c), run), TallyOf(run), ByUploader(Connect(false)) in run, ByUploader(GiveUp) in run)
  {
    if run == [] {
    } else {
      var before, l := run[..|run| - 1], run[|run| - 1];
      assert run == before + [l];
      LastStep(c, Init(c), before, l);
      RunUploads(c, before);
      StepUploads(c, Run(c, Init(c), before), l, TallyOf(before),
                  ByUploader(Connect(false)) in before, ByUploader(GiveUp) in before);
    }
  }

  /** The uploader makes one connection, and one more after each failed upload; without keep_local it
      tries to remove each file that it has uploaded, with keep_local none; it ends with an error if and
      only if a connection could not be made, and in success if and only if it gave up or took the EOS. */
  lemma UploaderDuties<F>(c: Config, run: seq<Label<F>>)
    requires c.Valid() && c.forwardPaths && ValidRun(c, Init(c), run)
    ensures var s := Run(c, Init(c), run);
            var t := TallyOf(run);
            && t.connects + (if s.uploader == Connecting then 1 else 0) == 1 + |s.failed|
            && t.removes + (if s.uploader.Removing? then 1 else 0) == (if c.keepLocal then 0 else |s.attempted| - |s.failed|)
            && (s.uploader == Stopped(false) <==> ByUploader(Connect(false)) in run)
            && (s.uploader == Stopped(true) <==>
                  ByUploader(GiveUp) in run || t.takes == |s.attempted| + |InFlight(s.uploader)| + 1)
  {
    RunUploads(c, run);
  }
}
