/** The concurrent producer/consumer queue as a step relation.

    A thread inside a queue operation is in one of five places: about to take the lock for the first
    time, asleep on one of the two condition variables, or taken off a condition variable (signalled,
    timed out or woken spuriously) but not yet running again. Everything between taking the lock and
    either sleeping or returning is one step, because the mutex makes it so. */
module QueueMonitor {
  import opened BoundedFifo

  datatype Op<T> =
    | Emplace(v: T)
    | TryEmplace(v: T)
    | TryPush(v: T)     // both overloads: a zero timeout has expired at its first test
    | Pop
    | TryPop            // both overloads
  {
    predicate IsProducer() {
      Emplace? || TryEmplace? || TryPush?
    }
  }

  datatype Place = Ready | WaitNotEmpty | WokenNotEmpty | WaitNotFull | WokenNotFull

  datatype Thread<T> = Thread(op: Op<T>, place: Place)

  datatype State<T> = State(
    capacity: int,
    q: seq<T>,
    threads: map<Tid, Thread<T>>,
    pointers: map<Tid, Option<T>>,  // the unique_ptr a thread last gave to TryPush
    history: seq<Event<T>>
  )

  datatype Label<T> =
    | Call(t: Tid, op: Op<T>)
    | Section(t: Tid, expired: bool, wake: Tid)
    | Wake(t: Tid)  // a timeout or a spurious return of Wait

  /** The threads at a place. */
  function At<T>(threads: map<Tid, Thread<T>>, p: Place): set<Tid> {
    set t | t in threads && threads[t].place == p
  }

  /** The scheduler can let `t` into the critical section now. */
  predicate IsRunnable<T>(s: State<T>, t: Tid) {
    t in s.threads && (var p := s.threads[t].place; p.Ready? || p.WokenNotEmpty? || p.WokenNotFull?)
  }

  function Init<T>(capacity: int): State<T> {
    State(capacity, [], map[], map[], [])
  }

  /** Signal wakes a sleeper if there is one. */
  predicate Wakes<T>(s: State<T>, p: Place, wake: Tid) {
    At(s.threads, p) != {} ==> wake in At(s.threads, p)
  }

  predicate Enabled<T>(s: State<T>, l: Label<T>) {
    match l
    case Call(t, _) => t !in s.threads
    case Section(t, _, wake) =>
      && IsRunnable(s, t)
      && Wakes(s, if s.threads[t].op.IsProducer() then WaitNotEmpty else WaitNotFull, wake)
    case Wake(t) => t in s.threads && (s.threads[t].place.WaitNotEmpty? || s.threads[t].place.WaitNotFull?)
  }

  function Move<T>(s: State<T>, t: Tid, p: Place): State<T>
    requires t in s.threads
  {
    s.(threads := s.threads[t := s.threads[t].(place := p)])
  }

  /** CondVar::Signal. */
  function Signal<T>(s: State<T>, from: Place, to: Place, wake: Tid): State<T> {
    if wake in At(s.threads, from) then Move(s, wake, to) else s
  }

  function Return<T>(s: State<T>, t: Tid, e: Event<T>): State<T> {
    s.(threads := s.threads - {t}, history := s.history + [e])
  }

  /** One pass of a producer through the critical section. */
  function ProducerSection<T>(s: State<T>, t: Tid, expired: bool, wake: Tid): State<T>
    requires t in s.threads && s.threads[t].op.IsProducer()
  {
    var op := s.threads[t].op;
    if !IsFull(s.capacity, s.q) then
      var pushed := Return(s.(q := s.q + [op.v]), t, Pushed(t, op.v));
      var moved := if op.TryPush? then pushed.(pointers := s.pointers[t := None]) else pushed;
      Signal(moved, WaitNotEmpty, WokenNotEmpty, wake)
    else if op.TryEmplace? || (op.TryPush? && expired) then
      Return(s, t, PushRefused(t))
    else
      Move(s, t, WaitNotFull)
  }

  /** One pass of a consumer through the critical section. */
  function ConsumerSection<T>(s: State<T>, t: Tid, expired: bool, wake: Tid): State<T>
    requires t in s.threads && !s.threads[t].op.IsProducer()
  {
    if s.q != [] then
      var popped := Return(s.(q := s.q[1..]), t, Popped(t, s.q[0]));
      Signal(popped, WaitNotFull, WokenNotFull, wake)
    else if s.threads[t].op.TryPop? && expired then
      Return(s, t, PopRefused(t))
    else
      Move(s, t, WaitNotEmpty)
  }

  function Apply<T>(s: State<T>, l: Label<T>): State<T>
    requires Enabled(s, l)
  {
    match l
    case Call(t, op) =>
      s.(threads := s.threads[t := Thread(op, Ready)],
         pointers := if op.TryPush? then s.pointers[t := Some(op.v)] else s.pointers)
    case Section(t, expired, wake) =>
      if s.threads[t].op.IsProducer() then ProducerSection(s, t, expired, wake)
      else ConsumerSection(s, t, expired, wake)
    case Wake(t) =>
      Move(s, t, if s.threads[t].place.WaitNotEmpty? then WokenNotEmpty else WokenNotFull)
  }

  ghost predicate ValidRun<T>(s: State<T>, run: seq<Label<T>>)
    decreases run
  {
    run == [] || (Enabled(s, run[0]) && ValidRun(Apply(s, run[0]), run[1..]))
  }

  ghost function Run<T>(s: State<T>, run: seq<Label<T>>): State<T>
    requires ValidRun(s, run)
    decreases run
  {
    if run == [] then s else Run(Apply(s, run[0]), run[1..])
  }

  // ----- What every step keeps -----

  /** Consumers sleep on the not-empty side only and producers on the not-full side only. */
  ghost predicate RightSide<T>(s: State<T>) {
    forall t <- s.threads :: var th := s.threads[t];
      && (th.place.WaitNotEmpty? || th.place.WokenNotEmpty? ==> !th.op.IsProducer())
      && (th.place.WaitNotFull? || th.place.WokenNotFull? ==> th.op.IsProducer())
  }

  /** No lost wakeup. If a consumer sleeps, at least as many woken consumers are on their way as
      there are items; if a producer sleeps, as many woken producers as there are free slots. */
  ghost predicate NoLostWakeup<T>(s: State<T>) {
    && (At(s.threads, WaitNotEmpty) != {} ==> |At(s.threads, WokenNotEmpty)| >= |s.q|)
    && (At(s.threads, WaitNotFull) != {} ==> IsLimited(s.capacity) && |At(s.threads, WokenNotFull)| >= s.capacity - |s.q|)
  }

  /** A pending TryPush still owns its element. */
  ghost predicate PointersKept<T>(s: State<T>) {
    forall t <- s.threads ::
      s.threads[t].op.TryPush? ==> t in s.pointers && s.pointers[t] == Some(s.threads[t].op.v)
  }

  ghost predicate Inv<T>(s: State<T>) {
    && s.capacity > 0
    && RightSide(s)
    && NoLostWakeup(s)
    && PointersKept(s)
    && Replay(s.capacity, s.history) == Some(s.q)
  }

  /** Only a limited queue lets a producer sleep. */
  lemma SleeperIsLimited<T>(s: State<T>, t: Tid)
    requires NoLostWakeup(s) && t in s.threads && s.threads[t].place.WaitNotFull?
    ensures IsLimited(s.capacity)
  {
    assert t in At(s.threads, WaitNotFull);
  }

  /** How moving one thread changes who is where. */
  lemma AtUpdate<T>(threads: map<Tid, Thread<T>>, t: Tid, th: Thread<T>, p: Place)
    ensures At(threads[t := th], p) == if th.place == p then At(threads, p) + {t} else At(threads, p) - {t}
  {
  }

  lemma AtRemove<T>(threads: map<Tid, Thread<T>>, t: Tid, p: Place)
    ensures At(threads - {t}, p) == At(threads, p) - {t}
  {
  }

  lemma CallKeepsWakeups<T>(s: State<T>, l: Label<T>)
    requires NoLostWakeup(s) && l.Call? && Enabled(s, l)
    ensures NoLostWakeup(Apply(s, l))
  {
    forall p | p != Ready ensures At(Apply(s, l).threads, p) == At(s.threads, p) {
      AtUpdate(s.threads, l.t, Thread(l.op, Ready), p);
    }
  }

  lemma WakeKeepsWakeups<T>(s: State<T>, l: Label<T>)
    requires NoLostWakeup(s) && l.Wake? && Enabled(s, l)
    ensures NoLostWakeup(Apply(s, l))
  {
    var th := Apply(s, l).threads[l.t];
    AtUpdate(s.threads, l.t, th, WaitNotEmpty);
    AtUpdate(s.threads, l.t, th, WokenNotEmpty);
    AtUpdate(s.threads, l.t, th, WaitNotFull);
    AtUpdate(s.threads, l.t, th, WokenNotFull);
  }

  /** Removing `t` and then moving `wake` from `from` to `to`: what completing an operation does. */
  lemma AtReturnAndSignal<T>(threads: map<Tid, Thread<T>>, t: Tid, from: Place, to: Place, wake: Tid, p: Place)
    requires t in threads && threads[t].place != from && from != to
    requires At(threads, from) != {} ==> wake in At(threads, from)
    ensures var rest := threads - {t};
            var after := if wake in At(rest, from) then rest[wake := rest[wake].(place := to)] else rest;
            At(after, p) ==
              if At(threads, from) == {} then At(threads, p) - {t}
              else if p == from then At(threads, p) - {wake}
              else if p == to then At(threads, p) - {t} + {wake}
              else At(threads, p) - {t}
  {
  }

  lemma ProducerKeepsWakeups<T>(s: State<T>, l: Label<T>)
    requires Inv(s) && l.Section? && Enabled(s, l) && s.threads[l.t].op.IsProducer()
    ensures NoLostWakeup(Apply(s, l))
  {
    ReplayIsFifo(s.capacity, s.history);
    if !IsFull(s.capacity, s.q) {
      AtReturnAndSignal(s.threads, l.t, WaitNotEmpty, WokenNotEmpty, l.wake, WaitNotEmpty);
      AtReturnAndSignal(s.threads, l.t, WaitNotEmpty, WokenNotEmpty, l.wake, WokenNotEmpty);
      AtReturnAndSignal(s.threads, l.t, WaitNotEmpty, WokenNotEmpty, l.wake, WaitNotFull);
      AtReturnAndSignal(s.threads, l.t, WaitNotEmpty, WokenNotEmpty, l.wake, WokenNotFull);
    } else {
      AtRemove(s.threads, l.t, WaitNotEmpty);
      AtRemove(s.threads, l.t, WokenNotEmpty);
      AtUpdate(s.threads, l.t, s.threads[l.t].(place := WaitNotFull), WaitNotEmpty);
      AtUpdate(s.threads, l.t, s.threads[l.t].(place := WaitNotFull), WokenNotEmpty);
    }
  }

  lemma ConsumerKeepsWakeups<T>(s: State<T>, l: Label<T>)
    requires Inv(s) && l.Section? && Enabled(s, l) && !s.threads[l.t].op.IsProducer()
    ensures NoLostWakeup(Apply(s, l))
  {
    ReplayIsFifo(s.capacity, s.history);
    if s.q != [] {
      AtReturnAndSignal(s.threads, l.t, WaitNotFull, WokenNotFull, l.wake, WaitNotEmpty);
      AtReturnAndSignal(s.threads, l.t, WaitNotFull, WokenNotFull, l.wake, WokenNotEmpty);
      AtReturnAndSignal(s.threads, l.t, WaitNotFull, WokenNotFull, l.wake, WaitNotFull);
      AtReturnAndSignal(s.threads, l.t, WaitNotFull, WokenNotFull, l.wake, WokenNotFull);
    } else {
      AtRemove(s.threads, l.t, WaitNotFull);
      AtRemove(s.threads, l.t, WokenNotFull);
      AtUpdate(s.threads, l.t, s.threads[l.t].(place := WaitNotEmpty), WaitNotFull);
      AtUpdate(s.threads, l.t, s.threads[l.t].(place := WaitNotEmpty), WokenNotFull);
    }
  }

  lemma ProducerKeepsPlaces<T>(s: State<T>, l: Label<T>)
    requires RightSide(s) && PointersKept(s) && l.Section? && Enabled(s, l) && s.threads[l.t].op.IsProducer()
    ensures RightSide(Apply(s, l)) && PointersKept(Apply(s, l))
  {
  }

  lemma ConsumerKeepsPlaces<T>(s: State<T>, l: Label<T>)
    requires RightSide(s) && PointersKept(s) && l.Section? && Enabled(s, l) && !s.threads[l.t].op.IsProducer()
    ensures RightSide(Apply(s, l)) && PointersKept(Apply(s, l))
  {
  }

  lemma StepKeepsPlaces<T>(s: State<T>, l: Label<T>)
    requires RightSide(s) && PointersKept(s) && Enabled(s, l)
    ensures RightSide(Apply(s, l)) && PointersKept(Apply(s, l))
  {
    if l.Section? {
      if s.threads[l.t].op.IsProducer() { ProducerKeepsPlaces(s, l); } else { ConsumerKeepsPlaces(s, l); }
    }
  }

  lemma StepKeepsFifo<T>(s: State<T>, l: Label<T>)
    requires Replay(s.capacity, s.history) == Some(s.q) && Enabled(s, l)
    ensures var s' := Apply(s, l);
            s'.capacity == s.capacity && Replay(s.capacity, s'.history) == Some(s'.q)
  {
    if l.Section? {
      var e := SectionEvent(s, l);
      if e.Some? {
        ReplayExtend(s.capacity, s.history, e.value);
      }
    }
  }

  /** The outcome of one pass through the critical section, if the operation returns from it. */
  lemma SectionEvent<T>(s: State<T>, l: Label<T>) returns (e: Option<Event<T>>)
    requires l.Section? && Enabled(s, l)
    ensures Apply(s, l).capacity == s.capacity
    ensures e == None ==> Apply(s, l).history == s.history && Apply(s, l).q == s.q
    ensures e.Some? ==> Apply(s, l).history == s.history + [e.value] && e.value.tid == l.t
    ensures e.Some? ==> Answer(s.capacity, s.q, e.value) == Some(Apply(s, l).q)
  {
    var op := s.threads[l.t].op;
    e := None;
    if op.IsProducer() {
      if !IsFull(s.capacity, s.q) { e := Some(Pushed(l.t, op.v)); }
      else if op.TryEmplace? || (op.TryPush? && l.expired) { e := Some(PushRefused(l.t)); }
    } else {
      if s.q != [] { e := Some(Popped(l.t, s.q[0])); }
      else if op.TryPop? && l.expired { e := Some(PopRefused(l.t)); }
    }
  }

  /** When a pass through the critical section leaves the thread in its operation: the blocking calls
      wait for as long as they must, the timed ones only while they have time left, TryEmplace never. */
  lemma SectionWaitsIff<T>(s: State<T>, l: Label<T>)
    requires l.Section? && Enabled(s, l)
    ensures var op := s.threads[l.t].op;
            var full := s.capacity != UNLIMITED && |s.q| >= s.capacity;
            && (l.t in Apply(s, l).threads <==>
                  || (op.Emplace? && full) || (op.TryPush? && full && !l.expired)
                  || (op.Pop? && s.q == []) || (op.TryPop? && s.q == [] && !l.expired))
            && (l.t in Apply(s, l).threads ==>
                  Apply(s, l).threads[l.t] == Thread(op, if op.Pop? || op.TryPop? then WaitNotEmpty else WaitNotFull))
  {
  }

  lemma StepKeepsInv<T>(s: State<T>, l: Label<T>)
    requires Inv(s) && Enabled(s, l)
    ensures Inv(Apply(s, l))
    ensures Apply(s, l).capacity == s.capacity
  {
    StepKeepsPlaces(s, l);
    StepKeepsFifo(s, l);
    match l
    case Call(_, _) => CallKeepsWakeups(s, l);
    case Wake(_) => WakeKeepsWakeups(s, l);
    case Section(t, _, _) =>
      if s.threads[t].op.IsProducer() { ProducerKeepsWakeups(s, l); } else { ConsumerKeepsWakeups(s, l); }
  }

  lemma {:induction false} RunKeepsInv<T>(s: State<T>, run: seq<Label<T>>)
    requires Inv(s) && ValidRun(s, run)
    ensures Inv(Run(s, run))
    ensures Run(s, run).capacity == s.capacity
    decreases run
  {
    if run == [] {
    } else {
      StepKeepsInv(s, run[0]);
      RunKeepsInv(Apply(s, run[0]), run[1..]);
    }
  }

  // ----- Main results, for any number of threads and every interleaving -----

  /** No wakeup is lost, so sleeping producers and consumers are never stuck together, and when no
      thread can run the sleepers are there for the right reason. */
  lemma NoLostWakeupInAnyRun<T>(capacity: int, run: seq<Label<T>>)
    requires capacity > 0
    requires ValidRun(Init(capacity), run)
    ensures var s := Run(Init(capacity), run);
            var stuck := forall t <- s.threads :: !IsRunnable(s, t);
            && NoLostWakeup(s)
            && (stuck ==> At(s.threads, WaitNotEmpty) == {} || At(s.threads, WaitNotFull) == {})
            && (stuck && At(s.threads, WaitNotEmpty) != {} ==> s.q == [])
            && (stuck && At(s.threads, WaitNotFull) != {} ==> |s.q| == s.capacity)
  {
    RunKeepsInv(Init<T>(capacity), run);
    var s := Run(Init(capacity), run);
    ReplayIsFifo(capacity, s.history);
    if forall t <- s.threads :: !IsRunnable(s, t) {
      assert At(s.threads, WokenNotEmpty) == {} && At(s.threads, WokenNotFull) == {};
    }
  }

  /** Every interleaving is linearizable: the outcomes, in lock order, are those of an atomic
      bounded queue holding exactly the current contents. */
  lemma RunsRefineFifo<T>(capacity: int, run: seq<Label<T>>)
    requires capacity > 0
    requires ValidRun(Init(capacity), run)
    ensures var s := Run(Init(capacity), run);
            && Replay(capacity, s.history) == Some(s.q)
            && Pushes(s.history) == Pops(s.history) + s.q
            && (IsLimited(capacity) ==> |s.q| <= capacity)
  {
    RunKeepsInv(Init<T>(capacity), run);
    ReplayIsFifo(capacity, Run(Init(capacity), run).history);
  }

  /** The fate of one element: what a step may do to the queue and to TryPush's pointer. */
  ghost predicate Moved<T>(s: State<T>, s': State<T>, t: Tid, e: Event<T>)
    requires t in s.threads
  {
    var op := s.threads[t].op;
    match e
    case Pushed(_, v) =>
      && op.IsProducer() && op.v == v && s'.q == s.q + [v]
      && s'.pointers == if op.TryPush? then s.pointers[t := None] else s.pointers
    case Popped(_, v) => [v] + s'.q == s.q && s'.pointers == s.pointers
    case PushRefused(_) => |s.q| == s.capacity && s'.q == s.q && s'.pointers == s.pointers
    case PopRefused(_) => s.q == [] && s'.q == s.q && s'.pointers == s.pointers
  }

  /** An operation that answers false leaves the queue, the other threads and every TryPush pointer
      as they were; one that answers true has moved exactly one element. */
  lemma ReturnMovesOneElement<T>(s: State<T>, l: Label<T>)
    requires s.capacity > 0 && Replay(s.capacity, s.history) == Some(s.q)
    requires Enabled(s, l) && |Apply(s, l).history| > |s.history|
    ensures l.Section?
    ensures var s' := Apply(s, l);
            var e := s'.history[|s.history|];
            && s'.history == s.history + [e] && e.tid == l.t
            && Moved(s, s', l.t, e)
            && s'.threads.Keys == s.threads.Keys - {l.t}
            && (e.PushRefused? || e.PopRefused? ==> s'.threads == s.threads - {l.t})
  {
    ReplayIsFifo(s.capacity, s.history);
    var e := SectionEvent(s, l);
  }

  // ----- Wakeups already sent suffice -----

  lemma SectionFirst<T>(s: State<T>, l: Label<T>, rest: seq<Label<T>>) returns (run: seq<Label<T>>)
    requires Enabled(s, l) && ValidRun(Apply(s, l), rest)
    ensures run == [l] + rest && ValidRun(s, run) && Run(s, run) == Run(Apply(s, l), rest)
  {
    run := [l] + rest;
    assert run[1..] == rest;
  }

  /** All steps are passes through the critical section by these threads. */
  ghost predicate SectionsBy<T>(run: seq<Label<T>>, threads: set<Tid>) {
    forall l <- run :: l.Section? && l.t in threads
  }

  lemma Regroup<T>(popped: seq<T>, q: seq<T>)
    requires q != []
    ensures popped + [q[0]] + q[1..] == popped + q
  {
  }

  lemma SectionsOneMore<T>(l: Label<T>, rest: seq<Label<T>>, threads: set<Tid>, threads': set<Tid>)
    requires l.Section? && l.t in threads && threads' <= threads && SectionsBy(rest, threads')
    ensures SectionsBy([l] + rest, threads)
  {
  }

  /** If a consumer sleeps, then running consumers that have already been woken, and nobody else,
      delivers every queued item in order. */
  lemma {:induction false} WakeupsSentDrainQueue<T>(s: State<T>) returns (run: seq<Label<T>>, end: State<T>)
    requires Inv(s) && At(s.threads, WaitNotEmpty) != {}
    ensures ValidRun(s, run) && Run(s, run) == end
    ensures |run| == |s.q| && SectionsBy(run, At(s.threads, WokenNotEmpty))
    ensures end.q == [] && Pops(end.history) == Pops(s.history) + s.q
    decreases |s.q|
  {
    if s.q == [] {
      run, end := [], s;
    } else {
      var l, s' := PopByWokenConsumer(s);
      var rest;
      rest, end := WakeupsSentDrainQueue(s');
      run := SectionFirst(s, l, rest);
      SectionsOneMore(l, rest, At(s.threads, WokenNotEmpty), At(s'.threads, WokenNotEmpty));
      Regroup(Pops(s.history), s.q);
    }
  }

  lemma PopByWokenConsumer<T>(s: State<T>) returns (l: Label<T>, s': State<T>)
    requires Inv(s) && At(s.threads, WaitNotEmpty) != {} && s.q != []
    ensures Enabled(s, l) && l.Section? && l.t in At(s.threads, WokenNotEmpty) && s' == Apply(s, l)
    ensures Inv(s') && At(s'.threads, WaitNotEmpty) != {}
    ensures At(s'.threads, WokenNotEmpty) <= At(s.threads, WokenNotEmpty)
    ensures s'.q == s.q[1..] && Pops(s'.history) == Pops(s.history) + [s.q[0]]
  {
    var t :| t in At(s.threads, WokenNotEmpty);
    var wake: Tid := 0;
    if At(s.threads, WaitNotFull) != {} { wake :| wake in At(s.threads, WaitNotFull); }
    l := Section(t, false, wake);
    s' := Apply(s, l);
    StepKeepsInv(s, l);
    PopKeepsConsumers(s, l);
    ReplayExtend(s.capacity, s.history, Popped(t, s.q[0]));
  }

  lemma PopKeepsConsumers<T>(s: State<T>, l: Label<T>)
    requires l.Section? && Enabled(s, l) && !s.threads[l.t].op.IsProducer() && s.q != []
    requires s.threads[l.t].place.WokenNotEmpty?
    ensures At(Apply(s, l).threads, WaitNotEmpty) == At(s.threads, WaitNotEmpty)
    ensures At(Apply(s, l).threads, WokenNotEmpty) == At(s.threads, WokenNotEmpty) - {l.t}
  {
    AtReturnAndSignal(s.threads, l.t, WaitNotFull, WokenNotFull, l.wake, WaitNotEmpty);
    AtReturnAndSignal(s.threads, l.t, WaitNotFull, WokenNotFull, l.wake, WokenNotEmpty);
  }

  /** If a producer sleeps, then running producers that have already been woken, and nobody else, fills
      every free slot. */
  lemma {:induction false} WakeupsSentFillQueue<T>(s: State<T>) returns (run: seq<Label<T>>, end: State<T>)
    requires Inv(s) && At(s.threads, WaitNotFull) != {}
    ensures ValidRun(s, run) && Run(s, run) == end
    ensures |run| == s.capacity - |s.q| && SectionsBy(run, At(s.threads, WokenNotFull))
    ensures |end.q| == s.capacity && s.q <= end.q && Pops(end.history) == Pops(s.history)
    decreases s.capacity - |s.q|
  {
    ReplayIsFifo(s.capacity, s.history);
    if |s.q| == s.capacity {
      run, end := [], s;
    } else {
      var l, s' := PushByWokenProducer(s);
      var rest;
      rest, end := WakeupsSentFillQueue(s');
      run := SectionFirst(s, l, rest);
      SectionsOneMore(l, rest, At(s.threads, WokenNotFull), At(s'.threads, WokenNotFull));
    }
  }

  lemma PushByWokenProducer<T>(s: State<T>) returns (l: Label<T>, s': State<T>)
    requires Inv(s) && At(s.threads, WaitNotFull) != {} && |s.q| < s.capacity
    ensures Enabled(s, l) && l.Section? && l.t in At(s.threads, WokenNotFull) && s' == Apply(s, l)
    ensures Inv(s') && At(s'.threads, WaitNotFull) != {} && s'.capacity == s.capacity
    ensures At(s'.threads, WokenNotFull) <= At(s.threads, WokenNotFull)
    ensures s'.q == s.q + [s.threads[l.t].op.v] && Pops(s'.history) == Pops(s.history)
  {
    var t :| t in At(s.threads, WokenNotFull);
    var wake: Tid := 0;
    if At(s.threads, WaitNotEmpty) != {} { wake :| wake in At(s.threads, WaitNotEmpty); }
    l := Section(t, false, wake);
    s' := Apply(s, l);
    StepKeepsInv(s, l);
    PushKeepsProducers(s, l);
  }

  lemma PushKeepsProducers<T>(s: State<T>, l: Label<T>)
    requires l.Section? && Enabled(s, l) && s.threads[l.t].op.IsProducer() && !IsFull(s.capacity, s.q)
    requires s.threads[l.t].place.WokenNotFull?
    ensures At(Apply(s, l).threads, WaitNotFull) == At(s.threads, WaitNotFull)
    ensures At(Apply(s, l).threads, WokenNotFull) == At(s.threads, WokenNotFull) - {l.t}
    ensures Pops(Apply(s, l).history) == Pops(s.history)
  {
    ReplayExtend(s.capacity, s.history, Pushed(l.t, s.threads[l.t].op.v));
    AtReturnAndSignal(s.threads, l.t, WaitNotEmpty, WokenNotEmpty, l.wake, WaitNotFull);
    AtReturnAndSignal(s.threads, l.t, WaitNotEmpty, WokenNotEmpty, l.wake, WokenNotFull);
  }

  // ----- One call, one answer -----

  function EventsOf<T>(history: seq<Event<T>>, t: Tid): seq<Event<T>> {
    if history == [] then []
    else
      var e := history[|history| - 1];
      EventsOf(history[..|history| - 1], t) + if e.tid == t then [e] else []
  }

  /** The events that an operation may answer with: the blocking ones never refuse. */
  predicate Answers<T(==)>(op: Op<T>, e: Event<T>) {
    match op
    case Emplace(v) => e.Pushed? && e.v == v
    case TryEmplace(v) => (e.Pushed? && e.v == v) || e.PushRefused?
    case TryPush(v) => (e.Pushed? && e.v == v) || e.PushRefused?
    case Pop => e.Popped?
    case TryPop => e.Popped? || e.PopRefused?
  }

  /** `t` is still in the operation, with no answer yet, or it has returned with one. */
  ghost predicate Progress<T>(s: State<T>, t: Tid, s': State<T>)
    requires t in s.threads
  {
    var before, now := EventsOf(s.history, t), EventsOf(s'.history, t);
    if t in s'.threads then s'.threads[t].op == s.threads[t].op && now == before
    else |now| == |before| + 1 && now[..|before|] == before && Answers(s.threads[t].op, now[|before|])
  }

  lemma SectionProgress<T>(s: State<T>, l: Label<T>)
    requires Enabled(s, l) && l.Section?
    ensures Progress(s, l.t, Apply(s, l))
  {
    var s' := Apply(s, l);
    if s'.history != s.history {
      assert s'.history[..|s.history|] == s.history;
    }
  }

  lemma OthersProgress<T>(s: State<T>, l: Label<T>, t: Tid)
    requires Enabled(s, l) && l.t != t && t in s.threads
    ensures Progress(s, t, Apply(s, l)) && t in Apply(s, l).threads
  {
    EventsOfOthers(s, l, t);
    OthersKeepOp(s, l, t);
  }

  lemma OthersKeepOp<T>(s: State<T>, l: Label<T>, t: Tid)
    requires Enabled(s, l) && l.t != t && t in s.threads
    ensures t in Apply(s, l).threads && Apply(s, l).threads[t].op == s.threads[t].op
  {
  }

  lemma EventsOfOthers<T>(s: State<T>, l: Label<T>, t: Tid)
    requires Enabled(s, l) && l.t != t
    ensures EventsOf(Apply(s, l).history, t) == EventsOf(s.history, t)
  {
    var s' := Apply(s, l);
    if s'.history != s.history {
      assert s'.history[..|s.history|] == s.history;
    }
  }

  lemma StaysOut<T>(s: State<T>, l: Label<T>, t: Tid)
    requires Enabled(s, l) && t !in s.threads && (l.Call? ==> l.t != t)
    ensures l.t != t && t !in Apply(s, l).threads
  {
  }

  lemma {:induction false} NothingAfterReturn<T>(s: State<T>, run: seq<Label<T>>, t: Tid)
    requires ValidRun(s, run) && t !in s.threads && forall l <- run :: l.Call? ==> l.t != t
    ensures t !in Run(s, run).threads && EventsOf(Run(s, run).history, t) == EventsOf(s.history, t)
    decreases run
  {
    if run == [] {
    } else {
      StaysOut(s, run[0], t);
      EventsOfOthers(s, run[0], t);
      NothingAfterReturn(Apply(s, run[0]), run[1..], t);
    }
  }

  /** However often an operation sleeps and is woken in its wait loop, and whatever other threads do
      meanwhile, it returns with exactly one answer of its own kind, or it is still under way with none. */
  lemma {:induction false} OneAnswerPerCall<T>(s: State<T>, run: seq<Label<T>>, t: Tid)
    requires ValidRun(s, run) && t in s.threads && forall l <- run :: l.Call? ==> l.t != t
    ensures Progress(s, t, Run(s, run))
    decreases run
  {
    if run == [] {
    } else {
      var l, s1 := run[0], Apply(s, run[0]);
      if l.t != t {
        OthersProgress(s, l, t);
        OneAnswerPerCall(s1, run[1..], t);
      } else {
        OwnStepProgress(s, l);
        if t in s1.threads {
          OneAnswerPerCall(s1, run[1..], t);
        } else {
          NothingAfterReturn(s1, run[1..], t);
        }
      }
    }
  }

  lemma OwnStepProgress<T>(s: State<T>, l: Label<T>)
    requires Enabled(s, l) && !l.Call?
    ensures Progress(s, l.t, Apply(s, l))
  {
    if l.Section? {
      SectionProgress(s, l);
    }
  }

  // ----- Everything that an atomic queue can do happens -----

  lemma {:induction false} RunConcat<T>(s: State<T>, run: seq<Label<T>>, more: seq<Label<T>>)
    requires ValidRun(s, run) && ValidRun(Run(s, run), more)
    ensures ValidRun(s, run + more) && Run(s, run + more) == Run(Run(s, run), more)
    decreases run
  {
    if run == [] {
      assert run + more == more;
    } else {
      RunConcat(Apply(s, run[0]), run[1..], more);
      assert (run + more)[0] == run[0] && (run + more)[1..] == run[1..] + more;
    }
  }

  /** On a queue that nobody else uses, an operation gives every answer that an atomic queue could. */
  lemma CallAndReturn<T>(s: State<T>, op: Op<T>, e: Event<T>, q: seq<T>) returns (run: seq<Label<T>>)
    requires s.threads == map[] && Answers(op, e) && Answer(s.capacity, s.q, e) == Some(q)
    ensures ValidRun(s, run)
    ensures var s' := Run(s, run);
            s'.threads == map[] && s'.q == q && s'.history == s.history + [e] && s'.capacity == s.capacity
  {
    var call, section := Call(e.tid, op), Section(e.tid, true, 0);
    var s1 := Apply(s, call);
    assert At(s1.threads, WaitNotEmpty) == {} && At(s1.threads, WaitNotFull) == {};
    var rest := s1.threads - {e.tid};
    assert rest == map[] && At(rest, WaitNotEmpty) == {} && At(rest, WaitNotFull) == {};
    run := SectionFirst(s1, section, []);
    run := SectionFirst(s, call, run);
  }

  /** The converse of RunsRefineFifo: every history that an atomic bounded queue accepts is the history
      of a run, with any operations that give such answers. */
  lemma {:induction false} AcceptedHistoryHappens<T>(capacity: int, history: seq<Event<T>>, ops: seq<Op<T>>)
    returns (run: seq<Label<T>>)
    requires capacity > 0 && Replay(capacity, history).Some?
    requires |ops| == |history| && forall i | 0 <= i < |ops| :: Answers(ops[i], history[i])
    ensures ValidRun(Init(capacity), run)
    ensures var s := Run(Init(capacity), run);
            s.history == history && s.threads == map[] && Some(s.q) == Replay(capacity, history) && s.capacity == capacity
  {
    if history == [] {
      run := [];
    } else {
      var n := |history| - 1;
      run := AcceptedHistoryHappens(capacity, history[..n], ops[..n]);
      var s := Run(Init(capacity), run);
      var more := CallAndReturn(s, ops[n], history[n], Replay(capacity, history).value);
      RunConcat(Init(capacity), run, more);
      run := run + more;
      assert history == history[..n] + [history[n]];
    }
  }

  /** A sleeper may be woken by a timeout or spuriously, and nothing else changes; if its operation is a
      timed one and its time has run out, it then returns with an answer. */
  lemma SleeperTimesOut<T>(s: State<T>, t: Tid, wake: Tid) returns (s1: State<T>)
    requires RightSide(s) && t in s.threads && (s.threads[t].place.WaitNotEmpty? || s.threads[t].place.WaitNotFull?)
    requires Wakes(s, if s.threads[t].op.IsProducer() then WaitNotEmpty else WaitNotFull, wake)
    ensures Enabled(s, Wake(t)) && s1 == Apply(s, Wake(t))
    ensures IsRunnable(s1, t) && s1 == s.(threads := s1.threads) && s1.threads - {t} == s.threads - {t}
    ensures s1.threads[t].op == s.threads[t].op
    ensures s.threads[t].op.TryPush? || s.threads[t].op.TryPop? ==>
              Enabled(s1, Section(t, true, wake)) && t !in Apply(s1, Section(t, true, wake)).threads
  {
    s1 := Apply(s, Wake(t));
    var th := s1.threads[t];
    AtUpdate(s.threads, t, th, WaitNotEmpty);
    AtUpdate(s.threads, t, th, WaitNotFull);
  }
}
