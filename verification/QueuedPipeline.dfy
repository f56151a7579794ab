/** The receiving pipeline on the real queue: the worker is one thread of the queue monitor, the
    consumer any number of others, and an operation takes as many passes through the critical
    section, sleeps and wakeups as the scheduler likes. Every run does what a run of the pipeline
    with an atomic queue does. */
module QueuedPipeline {
  import opened BoundedFifo
  import Monitor = QueueMonitor
  import Pipeline = ReceiverPipeline

  const WORKER: Tid := 0

  datatype State<P> = State(
    monitor: Monitor.State<Pipeline.Item<P>>,
    pc: Pipeline.Pc,
    held: Option<Pipeline.Item<P>>,
    consumerHolds: bool,
    calls: nat,
    eosPushed: bool
  )

  datatype Label<P> =
    | WorkerLocal                                          // the loop test or a Receive
    | WorkerCalls                                          // TryPush or Emplace begins
    | ConsumerCalls(t: Tid, op: Monitor.Op<Pipeline.Item<P>>)
    | QueueStep(l: Monitor.Label<Pipeline.Item<P>>)        // a step inside an operation
    | ConsumerReleases

  function Init<P>(c: Pipeline.Config<P>): State<P> {
    State(Monitor.Init(c.capacity), Pipeline.Top, None, true, 0, false)
  }

  /** The pipeline state that this one stands for. */
  function Abstract<P>(s: State<P>): Pipeline.State<P> {
    Pipeline.State(s.monitor.q, s.pc, s.held, s.consumerHolds, Pops(s.monitor.history), s.calls, s.eosPushed)
  }

  predicate Enabled<P>(s: State<P>, l: Label<P>) {
    match l
    case WorkerLocal => s.pc == Pipeline.Top || s.pc == Pipeline.Receiving
    case WorkerCalls =>
      && ((s.pc == Pipeline.Pushing && s.held.Some?) || s.pc == Pipeline.PushingEos)
      && WORKER !in s.monitor.threads
    case ConsumerCalls(t, op) =>
      s.consumerHolds && t != WORKER && t !in s.monitor.threads && (op.Pop? || op.TryPop?)
    case QueueStep(l) => !l.Call? && Monitor.Enabled(s.monitor, l)
    case ConsumerReleases => s.consumerHolds && s.monitor.threads.Keys <= {WORKER}
  }

  function WorkerOp<P>(s: State<P>): Monitor.Op<Pipeline.Item<P>>
    requires s.pc == Pipeline.Pushing ==> s.held.Some?
  {
    if s.pc == Pipeline.Pushing then Monitor.TryPush(s.held.value) else Monitor.Emplace(Pipeline.SyntheticEos)
  }

  /** The worker's operation has returned: TryPush leaves `p` where the queue has put it. */
  function WorkerReturns<P>(s: State<P>): State<P> {
    if s.pc == Pipeline.Pushing then
      s.(pc := Pipeline.Top, held := if WORKER in s.monitor.pointers then s.monitor.pointers[WORKER] else None)
    else
      s.(pc := Pipeline.Exited, eosPushed := true)
  }

  function AfterQueueStep<P>(s: State<P>, m: Monitor.State<Pipeline.Item<P>>): State<P> {
    var s' := s.(monitor := m);
    if WORKER in s.monitor.threads && WORKER !in m.threads then WorkerReturns(s') else s'
  }

  function Apply<P>(c: Pipeline.Config<P>, s: State<P>, l: Label<P>): State<P>
    requires Enabled(s, l)
  {
    match l
    case WorkerLocal =>
      var a := Pipeline.ApplyWorker(c, Abstract(s));
      s.(pc := a.pc, held := a.held, calls := a.calls)
    case WorkerCalls => s.(monitor := Monitor.Apply(s.monitor, Monitor.Call(WORKER, WorkerOp(s))))
    case ConsumerCalls(t, op) => s.(monitor := Monitor.Apply(s.monitor, Monitor.Call(t, op)))
    case QueueStep(l) => AfterQueueStep(s, Monitor.Apply(s.monitor, l))
    case ConsumerReleases => s.(consumerHolds := false)
  }

  ghost predicate ValidRun<P>(c: Pipeline.Config<P>, s: State<P>, run: seq<Label<P>>)
    decreases run
  {
    run == [] || (Enabled(s, run[0]) && ValidRun(c, Apply(c, s, run[0]), run[1..]))
  }

  ghost function Run<P>(c: Pipeline.Config<P>, s: State<P>, run: seq<Label<P>>): State<P>
    requires ValidRun(c, s, run)
    decreases run
  {
    if run == [] then s else Run(c, Apply(c, s, run[0]), run[1..])
  }

  // ----- Every step is a step of the atomic pipeline, or none -----

  ghost predicate Threads<P>(s: State<P>) {
    && (s.pc == Pipeline.Pushing ==> s.held.Some?)
    && (WORKER in s.monitor.threads ==>
          && ((s.pc == Pipeline.Pushing && s.held.Some?) || s.pc == Pipeline.PushingEos)
          && s.monitor.threads[WORKER].op == WorkerOp(s))
    && (forall t <- s.monitor.threads :: t != WORKER ==> !s.monitor.threads[t].op.IsProducer())
    && (!s.consumerHolds ==> s.monitor.threads.Keys <= {WORKER})
  }

  ghost predicate Inv<P>(c: Pipeline.Config<P>, s: State<P>) {
    Monitor.Inv(s.monitor) && s.monitor.capacity == c.capacity && Threads(s)
  }

  ghost predicate Simulates<P>(c: Pipeline.Config<P>, a: Pipeline.State<P>, a': Pipeline.State<P>) {
    a' == a || exists l :: Pipeline.Enabled(c, a, l) && a' == Pipeline.Apply(c, a, l)
  }

  /** The threads other than `t` are in the operations that they were in. */
  ghost predicate OthersStay<T>(m: Monitor.State<T>, t: Tid, m': Monitor.State<T>) {
    && m'.threads.Keys <= m.threads.Keys
    && (forall u <- m'.threads :: m'.threads[u].op == m.threads[u].op)
    && (forall u <- m.threads :: u != t ==> u in m'.threads)
  }

  /** One pass of a producer through the critical section, as far as the pipeline can tell. */
  ghost predicate ProducerPass<T>(m: Monitor.State<T>, t: Tid, m': Monitor.State<T>)
    requires t in m.threads && m.threads[t].op.IsProducer()
  {
    var op := m.threads[t].op;
    && OthersStay(m, t, m') && Pops(m'.history) == Pops(m.history)
    && if !IsFull(m.capacity, m.q) then
         && t !in m'.threads && m'.q == m.q + [op.v]
         && (op.TryPush? ==> t in m'.pointers && m'.pointers[t] == None)
       else
         && m'.q == m.q && m'.pointers == m.pointers && (op.Emplace? ==> t in m'.threads)
  }

  ghost predicate ConsumerPass<T>(m: Monitor.State<T>, t: Tid, m': Monitor.State<T>) {
    && OthersStay(m, t, m')
    && if m.q != [] then
         && m'.q == m.q[1..] && Pops(m'.history) == Pops(m.history) + [m.q[0]]
       else
         && m'.q == m.q && Pops(m'.history) == Pops(m.history)
  }

  lemma OthersDoStay<T>(m: Monitor.State<T>, l: Monitor.Label<T>)
    requires l.Section? && Monitor.Enabled(m, l)
    ensures OthersStay(m, l.t, Monitor.Apply(m, l))
  {
  }

  lemma ProducerPasses<T>(m: Monitor.State<T>, l: Monitor.Label<T>)
    requires l.Section? && Monitor.Enabled(m, l) && m.threads[l.t].op.IsProducer()
    ensures ProducerPass(m, l.t, Monitor.Apply(m, l))
  {
    OthersDoStay(m, l);
    var m' := Monitor.Apply(m, l);
    if |m'.history| > |m.history| {
      ReplayExtend(m.capacity, m.history, m'.history[|m.history|]);
    }
  }

  lemma ConsumerPasses<T>(m: Monitor.State<T>, l: Monitor.Label<T>)
    requires l.Section? && Monitor.Enabled(m, l) && !m.threads[l.t].op.IsProducer()
    ensures ConsumerPass(m, l.t, Monitor.Apply(m, l))
  {
    OthersDoStay(m, l);
    var m' := Monitor.Apply(m, l);
    if |m'.history| > |m.history| {
      ReplayExtend(m.capacity, m.history, m'.history[|m.history|]);
    }
  }

  lemma WorkerSection<P>(c: Pipeline.Config<P>, s: State<P>, m': Monitor.State<Pipeline.Item<P>>)
    requires Threads(s) && Monitor.PointersKept(s.monitor) && s.monitor.capacity == c.capacity
    requires WORKER in s.monitor.threads && ProducerPass(s.monitor, WORKER, m')
    ensures Simulates(c, Abstract(s), Abstract(AfterQueueStep(s, m')))
    ensures Threads(AfterQueueStep(s, m'))
  {
    if WORKER !in m'.threads {
      assert Pipeline.Enabled(c, Abstract(s), Pipeline.WorkerStep);
      assert Abstract(AfterQueueStep(s, m')) == Pipeline.Apply(c, Abstract(s), Pipeline.WorkerStep);
    }
  }

  lemma ConsumerSection<P>(c: Pipeline.Config<P>, s: State<P>, t: Tid, m': Monitor.State<Pipeline.Item<P>>)
    requires Threads(s) && t != WORKER && t in s.monitor.threads && ConsumerPass(s.monitor, t, m')
    ensures Simulates(c, Abstract(s), Abstract(AfterQueueStep(s, m')))
    ensures Threads(AfterQueueStep(s, m'))
  {
    assert s.consumerHolds;
    if s.monitor.q != [] {
      assert Pipeline.Enabled(c, Abstract(s), Pipeline.ConsumerPop);
      assert Abstract(AfterQueueStep(s, m')) == Pipeline.Apply(c, Abstract(s), Pipeline.ConsumerPop);
    }
  }

  lemma OtherSteps<P>(c: Pipeline.Config<P>, s: State<P>, l: Label<P>)
    requires Inv(c, s) && Enabled(s, l) && !(l.QueueStep? && l.l.Section?)
    ensures Simulates(c, Abstract(s), Abstract(Apply(c, s, l)))
    ensures Threads(Apply(c, s, l))
  {
    match l
    case WorkerLocal =>
      assert Pipeline.Enabled(c, Abstract(s), Pipeline.WorkerStep);
      assert Abstract(Apply(c, s, l)) == Pipeline.Apply(c, Abstract(s), Pipeline.WorkerStep);
    case ConsumerReleases =>
      assert Pipeline.Enabled(c, Abstract(s), Pipeline.ConsumerRelease);
      assert Abstract(Apply(c, s, l)) == Pipeline.Apply(c, Abstract(s), Pipeline.ConsumerRelease);
    case _ => assert Abstract(Apply(c, s, l)) == Abstract(s);
  }

  lemma MonitorStays<P>(c: Pipeline.Config<P>, s: State<P>, l: Label<P>)
    requires Inv(c, s) && Enabled(s, l)
    ensures Monitor.Inv(Apply(c, s, l).monitor) && Apply(c, s, l).monitor.capacity == c.capacity
  {
    match l
    case WorkerCalls => Monitor.StepKeepsInv(s.monitor, Monitor.Call(WORKER, WorkerOp(s)));
    case ConsumerCalls(t, op) => Monitor.StepKeepsInv(s.monitor, Monitor.Call(t, op));
    case QueueStep(l) => Monitor.StepKeepsInv(s.monitor, l);
    case _ =>
  }

  lemma StepSimulates<P>(c: Pipeline.Config<P>, s: State<P>, l: Label<P>)
    requires Inv(c, s) && Enabled(s, l)
    ensures Inv(c, Apply(c, s, l))
    ensures Simulates(c, Abstract(s), Abstract(Apply(c, s, l)))
  {
    MonitorStays(c, s, l);
    if l.QueueStep? && l.l.Section? {
      if l.l.t == WORKER {
        ProducerPasses(s.monitor, l.l);
        WorkerSection(c, s, Monitor.Apply(s.monitor, l.l));
      } else {
        ConsumerPasses(s.monitor, l.l);
        ConsumerSection(c, s, l.l.t, Monitor.Apply(s.monitor, l.l));
      }
    } else {
      OtherSteps(c, s, l);
    }
  }

  /** Every run on the real queue has the same effect as some run on the atomic one. */
  lemma {:induction false} RunSimulates<P>(c: Pipeline.Config<P>, s: State<P>, run: seq<Label<P>>)
    returns (atomic: seq<Pipeline.Label>)
    requires Inv(c, s) && ValidRun(c, s, run)
    ensures Pipeline.ValidRun(c, Abstract(s), atomic)
    ensures Pipeline.Run(c, Abstract(s), atomic) == Abstract(Run(c, s, run))
    decreases run
  {
    if run == [] {
      atomic := [];
    } else {
      var s' := Apply(c, s, run[0]);
      StepSimulates(c, s, run[0]);
      atomic := RunSimulates(c, s', run[1..]);
      if Abstract(s') != Abstract(s) {
        var l :| Pipeline.Enabled(c, Abstract(s), l) && Abstract(s') == Pipeline.Apply(c, Abstract(s), l);
        atomic := Pipeline.RunCons(c, Abstract(s), l, atomic);
      }
    }
  }

  /** Ordered and gapless on the real queue: whatever the scheduler does with the worker and any number
      of consumers, what was popped, what is queued and what the worker holds are the items of the
      successful Receives, and then the EOS. */
  lemma OrderedAndGapless<P>(c: Pipeline.Config<P>, run: seq<Label<P>>)
    requires c.Valid() && ValidRun(c, Init(c), run)
    ensures var s := Run(c, Init(c), run);
            var a := Abstract(s);
            && 0 <= Pipeline.Yielded(a) <= s.calls
            && Pops(s.monitor.history) + s.monitor.q + Pipeline.Held(a) ==
               Pipeline.Items(c.replies, Pipeline.Yielded(a)) + Pipeline.Eos(a)
  {
    var atomic := RunSimulates(c, Init(c), run);
    Pipeline.OrderedAndGapless(c, atomic);
  }

  // ----- Progress -----

  lemma {:induction false} RunKeepsInv<P>(c: Pipeline.Config<P>, s: State<P>, run: seq<Label<P>>)
    requires Inv(c, s) && ValidRun(c, s, run)
    ensures Inv(c, Run(c, s, run))
    decreases run
  {
    if run == [] {
    } else {
      StepSimulates(c, s, run[0]);
      RunKeepsInv(c, Apply(c, s, run[0]), run[1..]);
    }
  }

  /** No thread can enter the critical section, and the worker has nothing else to do. */
  ghost predicate Stuck<P>(s: State<P>) {
    && (forall t <- s.monitor.threads :: !Monitor.IsRunnable(s.monitor, t))
    && !Enabled(s, WorkerLocal) && !Enabled(s, WorkerCalls)
  }

  /** The worker sleeps on a full queue, and no consumer is inside an operation. */
  predicate WaitsForRoom<P>(c: Pipeline.Config<P>, s: State<P>) {
    && s.monitor.threads.Keys == {WORKER} && s.monitor.threads[WORKER].place.WaitNotFull?
    && |s.monitor.q| == c.capacity
  }

  /** The worker has ended; the consumers that are inside an operation sleep on an empty queue. */
  predicate WaitForMore<P>(s: State<P>) {
    && s.pc == Pipeline.Exited
    && (forall t <- s.monitor.threads :: s.monitor.threads[t].place.WaitNotEmpty?)
    && (s.monitor.threads != map[] ==> s.monitor.q == [])
  }

  lemma SleepersAreRight<T>(m: Monitor.State<T>)
    requires Monitor.Inv(m) && forall t <- m.threads :: !Monitor.IsRunnable(m, t)
    ensures forall t <- m.threads ::
              if m.threads[t].op.IsProducer() then m.threads[t].place.WaitNotFull? && |m.q| == m.capacity
              else m.threads[t].place.WaitNotEmpty? && m.q == []
  {
    ReplayIsFifo(m.capacity, m.history);
    assert Monitor.At(m.threads, Monitor.WokenNotEmpty) == {} && Monitor.At(m.threads, Monitor.WokenNotFull) == {};
    forall t <- m.threads
      ensures t in Monitor.At(m.threads, m.threads[t].place)
    {
    }
  }

  lemma StuckIff<P>(c: Pipeline.Config<P>, s: State<P>)
    requires Inv(c, s)
    ensures Stuck(s) <==> WaitsForRoom(c, s) || WaitForMore(s)
  {
    if Stuck(s) {
      SleepersAreRight(s.monitor);
      if WORKER in s.monitor.threads {
        assert s.monitor.threads.Keys == {WORKER};
      }
    }
  }

  /** The pipeline comes to a standstill, whatever the scheduler did before, only in two ways: the
      worker waits on a full queue that nobody is popping from, or it has ended and whoever still pops
      waits on an empty one. In every other state the worker or some thread in the queue can move. */
  lemma StuckIffInAnyRun<P>(c: Pipeline.Config<P>, run: seq<Label<P>>)
    requires c.Valid() && ValidRun(c, Init(c), run)
    ensures var s := Run(c, Init(c), run);
            Stuck(s) <==> WaitsForRoom(c, s) || WaitForMore(s)
  {
    RunKeepsInv(c, Init(c), run);
    StuckIff(c, Run(c, Init(c), run));
  }

  /** A consumer may let go while the worker is waiting to push its EOS into a full queue; whatever is
      then woken, timed out or run, the worker never exits. */
  lemma AbandonedInEmplace<P>(c: Pipeline.Config<P>, s: State<P>, run: seq<Label<P>>)
    requires c.Valid() && Inv(c, s) && Pipeline.Inv(c, Abstract(s)) && s.consumerHolds
    requires s.pc == Pipeline.PushingEos && WaitsForRoom(c, s)
    ensures Enabled(s, ConsumerReleases)
    ensures ValidRun(c, Apply(c, s, ConsumerReleases), run) ==>
              Run(c, Apply(c, s, ConsumerReleases), run).pc != Pipeline.Exited
  {
    var s1 := Apply(c, s, ConsumerReleases);
    StepSimulates(c, s, ConsumerReleases);
    Pipeline.StepKeepsInv(c, Abstract(s), Pipeline.ConsumerRelease);
    if ValidRun(c, s1, run) {
      var atomic := RunSimulates(c, s1, run);
      Monitor.SleeperIsLimited(s.monitor, WORKER);
      Pipeline.BlockedForever(c, Abstract(s1), atomic);
    }
  }

  // ----- Every run of the atomic pipeline happens -----

  lemma RunCons<P>(c: Pipeline.Config<P>, s: State<P>, l: Label<P>, rest: seq<Label<P>>) returns (run: seq<Label<P>>)
    requires Enabled(s, l) && ValidRun(c, Apply(c, s, l), rest)
    ensures run == [l] + rest && ValidRun(c, s, run) && Run(c, s, run) == Run(c, Apply(c, s, l), rest)
  {
    run := [l] + rest;
    assert run[1..] == rest;
  }

  /** The pass of a thread that is alone in the queue and finds what it came for, or no time left. */
  lemma OnlyPass<T>(m: Monitor.State<T>, t: Tid)
    requires m.threads.Keys == {t} && m.threads[t].place.Ready?
    requires !m.threads[t].op.Emplace? || !IsFull(m.capacity, m.q)
    requires !m.threads[t].op.Pop? || m.q != []
    ensures Monitor.Enabled(m, Monitor.Section(t, true, 0))
    ensures Monitor.Apply(m, Monitor.Section(t, true, 0)).threads == map[]
  {
    assert Monitor.At(m.threads, Monitor.WaitNotEmpty) == {} && Monitor.At(m.threads, Monitor.WaitNotFull) == {};
    var l := Monitor.Section(t, true, 0);
    Monitor.SectionWaitsIff(m, l);
    OthersDoStay(m, l);
    assert Monitor.Apply(m, l).threads.Keys == {};
  }

  lemma PopHappens<P>(c: Pipeline.Config<P>, s: State<P>, t: Tid, op: Monitor.Op<Pipeline.Item<P>>)
    returns (run: seq<Label<P>>)
    requires Inv(c, s) && s.monitor.threads == map[] && t != WORKER && (op.Pop? || op.TryPop?)
    requires s.consumerHolds && s.monitor.q != []
    ensures ValidRun(c, s, run) && Run(c, s, run).monitor.threads == map[]
    ensures Abstract(Run(c, s, run)) == Pipeline.Apply(c, Abstract(s), Pipeline.ConsumerPop)
  {
    var call, pass: Monitor.Label<Pipeline.Item<P>> := Monitor.Call(t, op), Monitor.Section(t, true, 0);
    var s1 := Apply(c, s, ConsumerCalls(t, op));
    OnlyPass(s1.monitor, t);
    ConsumerPasses(s1.monitor, pass);
    run := RunCons(c, s1, QueueStep(pass), []);
    run := RunCons(c, s, ConsumerCalls(t, op), run);
  }

  lemma PushHappens<P>(c: Pipeline.Config<P>, s: State<P>) returns (run: seq<Label<P>>)
    requires Inv(c, s) && s.monitor.threads == map[]
    requires s.pc == Pipeline.Pushing || (s.pc == Pipeline.PushingEos && !IsFull(c.capacity, s.monitor.q))
    ensures ValidRun(c, s, run) && Run(c, s, run).monitor.threads == map[]
    ensures Abstract(Run(c, s, run)) == Pipeline.Apply(c, Abstract(s), Pipeline.WorkerStep)
  {
    var pass: Monitor.Label<Pipeline.Item<P>> := Monitor.Section(WORKER, true, 0);
    var s1 := Apply(c, s, WorkerCalls);
    StepSimulates(c, s, WorkerCalls);
    OnlyPass(s1.monitor, WORKER);
    ProducerPasses(s1.monitor, pass);
    run := RunCons(c, s1, QueueStep(pass), []);
    run := RunCons(c, s, WorkerCalls, run);
  }

  lemma AtomicStepHappens<P>(c: Pipeline.Config<P>, s: State<P>, l: Pipeline.Label, t: Tid, op: Monitor.Op<Pipeline.Item<P>>)
    returns (run: seq<Label<P>>)
    requires Inv(c, s) && s.monitor.threads == map[] && t != WORKER && (op.Pop? || op.TryPop?)
    requires Pipeline.Enabled(c, Abstract(s), l)
    ensures ValidRun(c, s, run) && Run(c, s, run).monitor.threads == map[]
    ensures Abstract(Run(c, s, run)) == Pipeline.Apply(c, Abstract(s), l)
  {
    match l
    case ConsumerPop => run := PopHappens(c, s, t, op);
    case ConsumerRelease => run := RunCons(c, s, ConsumerReleases, []);
    case WorkerStep =>
      if s.pc == Pipeline.Pushing || s.pc == Pipeline.PushingEos {
        run := PushHappens(c, s);
      } else {
        run := RunCons(c, s, WorkerLocal, []);
      }
  }

  /** The converse of RunSimulates: every run of the pipeline with an atomic queue is what some run on
      the real queue does, whichever thread consumes and whichever of its pops it uses. */
  lemma {:induction false} AtomicRunHappens<P>(c: Pipeline.Config<P>, s: State<P>, atomic: seq<Pipeline.Label>, t: Tid,
                                               op: Monitor.Op<Pipeline.Item<P>>)
    returns (run: seq<Label<P>>)
    requires Inv(c, s) && s.monitor.threads == map[] && t != WORKER && (op.Pop? || op.TryPop?)
    requires Pipeline.ValidRun(c, Abstract(s), atomic)
    ensures ValidRun(c, s, run) && Abstract(Run(c, s, run)) == Pipeline.Run(c, Abstract(s), atomic)
    decreases atomic
  {
    if atomic == [] {
      run := [];
    } else {
      var first := AtomicStepHappens(c, s, atomic[0], t, op);
      RunKeepsInv(c, s, first);
      var rest := AtomicRunHappens(c, Run(c, s, first), atomic[1..], t, op);
      run := RunConcat(c, s, first, rest);
    }
  }

  lemma {:induction false} RunConcat<P>(c: Pipeline.Config<P>, s: State<P>, run: seq<Label<P>>, more: seq<Label<P>>)
    returns (all: seq<Label<P>>)
    requires ValidRun(c, s, run) && ValidRun(c, Run(c, s, run), more)
    ensures ValidRun(c, s, all) && Run(c, s, all) == Run(c, Run(c, s, run), more)
    decreases run
  {
    if run == [] {
      all := more;
    } else {
      all := RunConcat(c, Apply(c, s, run[0]), run[1..], more);
      all := RunCons(c, s, run[0], all);
    }
  }

  /** So what consumers can be delivered on the real queue is exactly what they can be delivered on an
      atomic one. */
  lemma SameDeliveries<P>(c: Pipeline.Config<P>, pops: seq<Pipeline.Item<P>>)
    requires c.Valid()
    ensures (exists run :: ValidRun(c, Init(c), run) && Pops(Run(c, Init(c), run).monitor.history) == pops) <==>
            (exists atomic :: Pipeline.ValidRun(c, Pipeline.Init<P>(), atomic) &&
                              Pipeline.Run(c, Pipeline.Init<P>(), atomic).pops == pops)
  {
    assert Abstract(Init(c)) == Pipeline.Init<P>();
    if run :| ValidRun(c, Init(c), run) && Pops(Run(c, Init(c), run).monitor.history) == pops {
      var atomic := RunSimulates(c, Init(c), run);
      assert Pipeline.Run(c, Pipeline.Init<P>(), atomic).pops == pops;
    }
    if atomic :| Pipeline.ValidRun(c, Pipeline.Init<P>(), atomic) &&
                 Pipeline.Run(c, Pipeline.Init<P>(), atomic).pops == pops {
      var run := AtomicRunHappens(c, Init(c), atomic, 1, Monitor.Pop);
      assert Pops(Run(c, Init(c), run).monitor.history) == pops;
    }
  }
}
