/** What the completion flags promise the workers that look at them: past a set flag of a worker that
    was started, that worker does nothing more. */
module ExporterFlags {
  import opened BoundedFifo
  import opened VideoExporter
  import opened ExporterRun
  import opened ExporterOutcomes
  import Completion

  predicate HasEnded<F>(s: Joint<F>, w: Completion.Who) {
    s.control.Get(w).pc.Ended?
  }

  lemma EndedStep<F>(c: Config, s: Joint<F>, w: Completion.Who, m: Move<F>)
    requires HasEnded(s, w) && May(s, m) && Completion.Inv(s.control)
    ensures HasEnded(Next(c, s, m), w)
  {
  }

  /** What is left of the data plane to a worker that has ended: the channels that it feeds or empties. */
  ghost predicate Untouched<F>(w: Completion.Who, d: State<F>, d': State<F>) {
    match w
    case Source => d'.accepted == d.accepted
    case Saver => d'.taken == d.taken && d'.forwarded == d.forwarded && d'.omitted == d.omitted && d'.saver == d.saver
    case Uploader => d'.attempted == d.attempted && d'.uploaded == d.uploaded && d'.uploader == d.uploader
  }

  lemma UntouchedStep<F>(c: Config, s: Joint<F>, w: Completion.Who, m: Move<F>)
    requires HasEnded(s, w) && May(s, m)
    ensures Untouched(w, s.data, Next(c, s, m).data)
  {
    match m
    case Control(_) =>
    case Data(l) =>
      match l
      case BySource(item) =>
      case BySaver(v) => SaverTouches(c, s.data, v);
      case ByUploader(u) => UploaderTouches(c, s.data, u);
  }

  lemma SaverTouches<F>(c: Config, d: State<F>, v: SaverStep)
    requires SaverMay(d, v)
    ensures Untouched(Completion.Source, d, ApplySaver(c, d, v)) && Untouched(Completion.Uploader, d, ApplySaver(c, d, v))
  {
  }

  lemma UploaderTouches<F>(c: Config, d: State<F>, u: UploaderStep)
    requires UploaderMay(d, u)
    ensures Untouched(Completion.Source, d, ApplyUploader(c, d, u)) && Untouched(Completion.Saver, d, ApplyUploader(c, d, u))
  {
  }

  lemma {:induction false} EndedWorkerDoesNothing<F>(c: Config, s: Joint<F>, w: Completion.Who, moves: seq<Move<F>>)
    requires Completion.Inv(s.control) && HasEnded(s, w) && ValidMoves(c, s, moves)
    ensures Untouched(w, s.data, After(c, s, moves).data)
    decreases moves
  {
    if moves == [] {
    } else {
      var m, s1 := moves[0], Next(c, s, moves[0]);
      EndedStep(c, s, w, m);
      UntouchedStep(c, s, w, m);
      if m.Control? {
        Completion.StepKeepsInv(s.control, m.l);
      }
      EndedWorkerDoesNothing(c, s1, w, moves[1..]);
    }
  }

  /** Which worker's flag the step finds set, if it looks at one. */
  function FlagFound<F>(m: Move<F>): Option<Completion.Who> {
    match m
    case Data(BySaver(ReadSource(true))) => Some(Completion.Source)
    case Data(BySaver(ForwardPath(true))) => Some(Completion.Uploader)
    case Data(ByUploader(GiveUp)) => Some(Completion.Saver)
    case _ => None
  }

  /** A flag is found set only of a worker that was not started or that has ended, and then, whatever
      still happens, the latter adds nothing to its channel and takes nothing from one. The uploader is
      always started before the saver that looks at its flag; the source is not, nor is the saver
      before the uploader. */
  lemma SetFlagIsFinal<F>(c: Config, moves: seq<Move<F>>, m: Move<F>, later: seq<Move<F>>)
    requires c.Valid() && ValidMoves(c, Start(c), moves) && May(After(c, Start(c), moves), m)
    requires FlagFound(m).Some? && ValidMoves(c, After(c, Start(c), moves), later)
    ensures var s := After(c, Start(c), moves);
            var w := FlagFound(m).value;
            && (s.control.Get(w).pc.NotStarted? || HasEnded(s, w))
            && (w == Completion.Uploader ==> HasEnded(s, w))
            && (HasEnded(s, w) ==> Untouched(w, s.data, After(c, s, later).data))
  {
    StartHasInv<F>(c);
    AfterKeepsInv(c, Start(c), moves);
    var s := After(c, Start(c), moves);
    if HasEnded(s, FlagFound(m).value) {
      EndedWorkerDoesNothing(c, s, FlagFound(m).value, later);
    }
  }

  /** A flag is found unset only of a worker that was started and has not ended. */
  lemma UnsetFlagMeansRunning<F>(c: Config, moves: seq<Move<F>>)
    requires c.Valid() && ValidMoves(c, Start(c), moves)
    ensures var s := After(c, Start(c), moves);
            && (May(s, Data(BySaver(ReadSource(false)))) ==>
                  !s.control.source.pc.NotStarted? && !HasEnded(s, Completion.Source))
            && (May(s, Data(BySaver(ForwardPath(false)))) ==>
                  !s.control.uploader.pc.NotStarted? && !HasEnded(s, Completion.Uploader))
  {
    StartHasInv<F>(c);
    AfterKeepsInv(c, Start(c), moves);
  }

  lemma {:induction false} StoppedJointTakesNothing<F>(c: Config, s: Joint<F>, moves: seq<Move<F>>)
    requires HasStopped(s.data.saver) && ValidMoves(c, s, moves)
    ensures After(c, s, moves).data.taken == s.data.taken
    decreases moves
  {
    if moves == [] {
    } else {
      var m := moves[0];
      if m.Data? {
        StoppedStep(c, s.data, m.d);
      }
      StoppedJointTakesNothing(c, Next(c, s, m), moves[1..]);
    }
  }

  lemma SameImages<F>(d: State<F>, d': State<F>)
    requires Channels(d) && Channels(d') && d'.accepted == d.accepted && d'.taken == d.taken
    ensures d'.images == d.images
  {
    assert d.images == d.accepted[|d.taken|..];
  }

  lemma LeftAtFlag<F>(c: Config, s: Joint<F>, s1: Joint<F>, later: seq<Move<F>>, end: Joint<F>)
    requires Channels(s.data) && Completion.Inv(s.control) && HasEnded(s, Completion.Source)
    requires s1 == s.(data := s1.data) && HasStopped(s1.data.saver)
    requires s1.data.accepted == s.data.accepted && s1.data.taken == s.data.taken
    requires ValidMoves(c, s1, later) && end == After(c, s1, later) && Channels(end.data)
    ensures end.data.images == s.data.images
  {
    EndedWorkerDoesNothing(c, s1, Completion.Source, later);
    StoppedJointTakesNothing(c, s1, later);
    SameImages(s.data, end.data);
  }

  lemma SavedIffNothingLeft<F>(c: Config, end: State<F>, images: seq<Item<F>>)
    requires c.Valid() && Inv(c, end) && end.saver.pc == Done && end.saver.ok && end.images == images
    ensures AllSaved(c, end) <==> NoImageIn(images)
  {
    SavedIffNoImageLeft(c, end);
  }

  /** So a saver that finds the flag of a started source set leaves behind exactly the images that are
      in its channel at that moment. */
  lemma SavedAfterFlagIff<F>(c: Config, moves: seq<Move<F>>, later: seq<Move<F>>)
    requires c.Valid() && ValidMoves(c, Start(c), moves)
    requires May(After(c, Start(c), moves), Data(BySaver(ReadSource(true))))
    requires !After(c, Start(c), moves).control.source.pc.NotStarted?
    requires ValidMoves(c, Next(c, After(c, Start(c), moves), Data(BySaver(ReadSource(true)))), later)
    requires var end := After(c, Next(c, After(c, Start(c), moves), Data(BySaver(ReadSource(true)))), later);
             end.data.saver.pc == Done && end.data.saver.ok
    ensures var s := After(c, Start(c), moves);
            AllSaved(c, After(c, Next(c, s, Data(BySaver(ReadSource(true)))), later).data) <==> NoImageIn(s.data.images)
  {
    var s := After(c, Start(c), moves);
    StartHasInv<F>(c);
    AfterKeepsInv(c, Start(c), moves);
    InvAfterFlag(c, s, later);
    var s1 := Next(c, s, Data(BySaver(ReadSource(true))));
    var end := After(c, s1, later);
    LeftAtFlag(c, s, s1, later, end);
    SavedIffNothingLeft(c, end.data, s.data.images);
  }

  lemma InvAfterFlag<F>(c: Config, s: Joint<F>, later: seq<Move<F>>)
    requires c.Valid() && JointInv(c, s) && May(s, Data(BySaver(ReadSource(true))))
    requires ValidMoves(c, Next(c, s, Data(BySaver(ReadSource(true)))), later)
    ensures JointInv(c, After(c, Next(c, s, Data(BySaver(ReadSource(true)))), later))
  {
    NextKeepsInv(c, s, Data(BySaver(ReadSource(true))));
    AfterKeepsInv(c, Next(c, s, Data(BySaver(ReadSource(true)))), later);
  }

  /** A crash is the end of the process: nothing can happen any more. */
  lemma CrashIsFinal<F>(s: Joint<F>)
    requires s.data.saver.pc == Crashed
    ensures forall m :: !May(s, m)
  {
  }
}
