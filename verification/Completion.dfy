/** The completion protocol between the exporter's Run and its three background workers. */
module Completion {

  datatype Status = Ok | DeadlineExceeded | Error(code: int)

  class CompletionSignal {
    var isCompleted: bool
    var status: Status

    /** The flag starts as true: nothing is in progress yet. */
    constructor ()
      ensures isCompleted && status == Ok
    {
      isCompleted, status := true, Ok;
    }

    method Start()
      modifies this`isCompleted
      ensures !isCompleted
    {
      isCompleted := false;
    }

    method End()
      modifies this`isCompleted
      ensures isCompleted
    {
      isCompleted := true;
    }

    method SetStatus(s: Status)
      modifies this`status
      ensures status == s
    {
      status := s;
    }

    method IsCompleted() returns (completed: bool)
      ensures completed == isCompleted
    {
      completed := isCompleted;
    }

    method GetStatus() returns (s: Status)
      ensures s == status
    {
      s := status;
    }
  }

  datatype WorkerPc = NotStarted | Working | Returned | StatusSet | Ended

  /** What Run has learned from joining a worker. */
  datatype Verdict = Unknown | Joined(status: Status) | GaveUp

  /** A worker: where its thread is, its signal's two fields, what WorkImpl returned, and Run's
      verdict about it. */
  datatype Worker = Worker(pc: WorkerPc, isCompleted: bool, status: Status, impl: Status, verdict: Verdict)
  {
    /** The status Run records: a worker it gave up on counts as DeadlineExceeded. */
    function Recorded(): Status {
      match verdict
      case Unknown => Ok
      case Joined(s) => s
      case GaveUp => DeadlineExceeded
    }
  }

  datatype Who = Source | Saver | Uploader

  datatype RunPc =
    | StartUploader | StartSaver | StartSource
    | JoinSource | JoinSaver | JoinUploader
    | Report
    | Exit(result: Status)

  datatype State = State(pc: RunPc, source: Worker, saver: Worker, uploader: Worker)
  {
    function Get(w: Who): Worker {
      match w
      case Source => source
      case Saver => saver
      case Uploader => uploader
    }

    function Set(w: Who, k: Worker): State {
      match w
      case Source => this.(source := k)
      case Saver => this.(saver := k)
      case Uploader => this.(uploader := k)
    }
  }

  datatype Label = Advance | Step(w: Who, outcome: Status)

  const UNSTARTED: Worker := Worker(NotStarted, true, Ok, Ok, Unknown)

  const INIT: State := State(StartUploader, UNSTARTED, UNSTARTED, UNSTARTED)

  predicate Enabled(s: State, l: Label) {
    match l
    case Advance => !s.pc.Exit?
    case Step(w, _) => s.Get(w).pc != NotStarted && s.Get(w).pc != Ended
  }

  /** Worker::Work: Start, then launch the thread. */
  function Work(s: State, w: Who): State {
    s.Set(w, s.Get(w).(pc := Working, isCompleted := false))
  }

  /** Worker::Join: it returns whether the signal is complete, at once or after the timeout. Run
      keeps joining the source and gives up on the others. */
  function Join(s: State, w: Who, next: RunPc): State {
    var k := s.Get(w);
    if k.isCompleted then s.Set(w, k.(verdict := Joined(k.status))).(pc := next)
    else if w == Source then s
    else s.Set(w, k.(verdict := GaveUp)).(pc := next)
  }

  function ReturnStatus(s: State): Status {
    if s.source.Recorded() != Ok || s.saver.Recorded() != Ok || s.uploader.Recorded() != Ok then Error(2) else Ok
  }

  /** The worker thread: WorkImpl returns, then SetStatus, then End. */
  function WorkerStep(k: Worker, outcome: Status): Worker {
    match k.pc
    case Working => k.(pc := Returned, impl := outcome)
    case Returned => k.(pc := StatusSet, status := k.impl)
    case _ => k.(pc := Ended, isCompleted := true)
  }

  function Apply(s: State, l: Label): State
    requires Enabled(s, l)
  {
    match l
    case Step(w, outcome) => s.Set(w, WorkerStep(s.Get(w), outcome))
    case Advance =>
      match s.pc
      case StartUploader => Work(s, Uploader).(pc := StartSaver)
      case StartSaver => Work(s, Saver).(pc := StartSource)
      case StartSource => Work(s, Source).(pc := JoinSource)
      case JoinSource => Join(s, Source, JoinSaver)
      case JoinSaver => Join(s, Saver, JoinUploader)
      case JoinUploader => Join(s, Uploader, Report)
      case Report => s.(pc := Exit(ReturnStatus(s)))
  }

  ghost predicate ValidRun(s: State, run: seq<Label>)
    decreases run
  {
    run == [] || (Enabled(s, run[0]) && ValidRun(Apply(s, run[0]), run[1..]))
  }

  ghost function Run(s: State, run: seq<Label>): State
    requires ValidRun(s, run)
    decreases run
  {
    if run == [] then s else Run(Apply(s, run[0]), run[1..])
  }

  /** Once started, a worker's flag is up exactly when its thread is done, and then the published
      status is what WorkImpl returned; a verdict that joined it repeats that status. */
  ghost predicate SignalHonest(k: Worker) {
    && (k.pc == NotStarted ==> k == UNSTARTED)
    && (k.pc != NotStarted ==> (k.isCompleted <==> k.pc == Ended))
    && (k.pc == StatusSet || k.pc == Ended ==> k.status == k.impl)
    && (k.verdict.Joined? ==> k.pc == Ended && k.verdict.status == k.impl)
  }

  /** How far Run has come with a worker: started it, reached a verdict about it. */
  predicate HasStarted(pc: RunPc, w: Who) {
    match w
    case Uploader => pc != StartUploader
    case Saver => pc != StartUploader && pc != StartSaver
    case Source => pc != StartUploader && pc != StartSaver && pc != StartSource
  }

  predicate HasVerdict(pc: RunPc, w: Who) {
    match w
    case Source => pc == JoinSaver || pc == JoinUploader || pc == Report || pc.Exit?
    case Saver => pc == JoinUploader || pc == Report || pc.Exit?
    case Uploader => pc == Report || pc.Exit?
  }

  ghost predicate WorkerInv(pc: RunPc, w: Who, k: Worker) {
    && SignalHonest(k)
    && (k.pc != NotStarted <==> HasStarted(pc, w))
    && (k.verdict != Unknown <==> HasVerdict(pc, w))
    && (w == Source ==> k.verdict != GaveUp)
  }

  ghost predicate Inv(s: State) {
    && WorkerInv(s.pc, Source, s.source)
    && WorkerInv(s.pc, Saver, s.saver)
    && WorkerInv(s.pc, Uploader, s.uploader)
    && (s.pc.Exit? ==> s.pc.result == ReturnStatus(s))
  }

  lemma StepKeepsInv(s: State, l: Label)
    requires Inv(s) && Enabled(s, l)
    ensures Inv(Apply(s, l))
  {
  }

  lemma {:induction false} RunKeepsInv(s: State, run: seq<Label>)
    requires Inv(s) && ValidRun(s, run)
    ensures Inv(Run(s, run))
    decreases run
  {
    if run == [] {
    } else {
      StepKeepsInv(s, run[0]);
      RunKeepsInv(Apply(s, run[0]), run[1..]);
    }
  }

  /** Run returns Ok if and only if all three workers finished before their joins gave up and all of
      them returned Ok. */
  lemma RunOkIffAllWorkersOk(run: seq<Label>)
    requires ValidRun(INIT, run) && Run(INIT, run).pc.Exit?
    ensures var s := Run(INIT, run);
            && (s.pc.result == Ok || s.pc.result == Error(2))
            && (s.pc.result == Ok <==>
                  forall w: Who :: s.Get(w).pc == Ended && s.Get(w).verdict.Joined? && s.Get(w).impl == Ok)
  {
    RunKeepsInv(INIT, run);
    var s := Run(INIT, run);
    assert s.Get(Source) == s.source && s.Get(Saver) == s.saver && s.Get(Uploader) == s.uploader;
  }

  /** Run waits for the source for as long as it takes; of the saver and the uploader it takes what it
      finds: the status of one that has ended, and otherwise it gives up on it. */
  lemma JoinGivesUpIff(run: seq<Label>)
    requires ValidRun(INIT, run)
    ensures var s := Run(INIT, run);
            && (s.pc == JoinSource ==>
                  Apply(s, Advance) == if s.source.pc == Ended
                    then s.(source := s.source.(verdict := Joined(s.source.impl)), pc := JoinSaver) else s)
            && (s.pc == JoinSaver ==>
                  var verdict := if s.saver.pc == Ended then Joined(s.saver.impl) else GaveUp;
                  Apply(s, Advance) == s.(saver := s.saver.(verdict := verdict), pc := JoinUploader))
            && (s.pc == JoinUploader ==>
                  var verdict := if s.uploader.pc == Ended then Joined(s.uploader.impl) else GaveUp;
                  Apply(s, Advance) == s.(uploader := s.uploader.(verdict := verdict), pc := Report))
  {
    RunKeepsInv(INIT, run);
  }

  /** A Join that succeeds after Work has seen the thread end, and GetStatus then is WorkImpl's. */
  lemma JoinTellsTheTruth(run: seq<Label>, w: Who)
    requires ValidRun(INIT, run)
    ensures var k := Run(INIT, run).Get(w);
            k.pc != NotStarted && k.isCompleted ==> k.pc == Ended && k.status == k.impl
  {
    RunKeepsInv(INIT, run);
  }

  /** Before Work, the same test succeeds for a worker that has not run at all: the saver, which Run
      starts before the source, can find its source "completed". */
  lemma SourceLooksCompletedBeforeItStarts()
    ensures var run := [Advance, Advance];
            && ValidRun(INIT, run)
            && Run(INIT, run).saver.pc == Working
            && Run(INIT, run).source.pc == NotStarted && Run(INIT, run).source.isCompleted
  {
  }

  // ----- The worker object -----

  /** A worker with its signal; `state` is its part of the step relation, and every method is one
      or two of its steps. */
  class BackgroundWorker {
    const signal: CompletionSignal
    ghost var state: Worker

    ghost predicate Valid()
      reads this, signal
    {
      state.isCompleted == signal.isCompleted && state.status == signal.status && SignalHonest(state)
    }

    constructor ()
      ensures Valid() && state == UNSTARTED && fresh(signal)
    {
      signal := new CompletionSignal();
      state := UNSTARTED;
    }

    method Work()
      requires Valid() && state.pc == NotStarted
      modifies this, signal
      ensures Valid() && state == old(state).(pc := Working, isCompleted := false)
    {
      signal.Start();
      state := state.(pc := Working, isCompleted := false);
    }

    /** What the thread does when WorkImpl has returned `s`: it publishes the status while the signal
        is still incomplete, and only then completes it. */
    method Conclude(s: Status) returns (ghost returned: Worker, ghost published: Worker)
      requires Valid() && state.pc == Working
      modifies this, signal
      ensures Valid()
      ensures returned == WorkerStep(old(state), s) && published == WorkerStep(returned, s)
      ensures published.status == s && !published.isCompleted
      ensures state == WorkerStep(published, s) && state.isCompleted && state.status == s == state.impl
    {
      state := WorkerStep(state, s);
      returned := state;
      signal.SetStatus(s);
      state := WorkerStep(state, s);
      published := state;
      signal.End();
      state := WorkerStep(state, s);
    }

    /** One test of the signal by Join: for a worker that was started it succeeds exactly when the
        thread has ended, and the status then is the one that WorkImpl returned. */
    method Join() returns (joined: bool, s: Status)
      requires Valid()
      ensures state.pc != NotStarted ==> (joined <==> state.pc == Ended)
      ensures state.pc == NotStarted ==> joined && s == Ok
      ensures joined && state.pc != NotStarted ==> s == state.impl
    {
      joined := signal.IsCompleted();
      s := signal.GetStatus();
    }
  }
}
