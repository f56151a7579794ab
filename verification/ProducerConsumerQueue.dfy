/** The queue object itself. Between taking the lock and either returning or going to sleep in a Wait
    an operation is alone; while it waits, other threads take any number of steps. The ghost field
    `monitor` is the state of the step relation, and every call, with all its waits, is proved to be a
    run of it. */
module ProducerConsumerQueues {
  import opened BoundedFifo
  import opened QueueMonitor

  /** Yes and No are the bool results; Sleep means that the thread still waits where the script ends. */
  datatype Reply = Yes | No | Sleep

  /** One Wait of an operation: what the other threads do until it has the lock again, the contents
      that it then finds, and whether its time has run out when it tests its loop condition. */
  datatype Turn<T> = Turn(others: seq<Label<T>>, contents: seq<T>, expired: bool)

  /** The pass of `t` through the critical section ends in a Wait. */
  predicate Sleeps<T>(m: State<T>, t: Tid, expired: bool)
    requires t in m.threads
  {
    var op := m.threads[t].op;
    if op.IsProducer() then IsFull(m.capacity, m.q) && !op.TryEmplace? && !(op.TryPush? && expired)
    else m.q == [] && !(op.TryPop? && expired)
  }

  function SleepingPlace<T>(op: Op<T>): Place {
    if op.IsProducer() then WaitNotFull else WaitNotEmpty
  }

  function Asleep<T>(m: State<T>, t: Tid): State<T>
    requires t in m.threads
  {
    Move(m, t, SleepingPlace(m.threads[t].op))
  }

  /** The turn is what may happen while `t` waits. */
  ghost predicate FitsTurn<T>(m: State<T>, t: Tid, turn: Turn<T>)
    requires t in m.threads
  {
    && ValidRun(Asleep(m, t), turn.others)
    && (forall l <- turn.others :: !l.Wake? ==> l.t != t)
    && turn.contents == Run(Asleep(m, t), turn.others).q
    && IsRunnable(Run(Asleep(m, t), turn.others), t)
  }

  /** The turns are what may happen during a call, whose own Signal wakes `wake`. */
  ghost predicate Fits<T>(m: State<T>, t: Tid, expired: bool, turns: seq<Turn<T>>, wake: Tid)
    decreases turns
  {
    && IsRunnable(m, t)
    && if !Sleeps(m, t, expired) then Enabled(m, Section(t, expired, wake))
       else turns != [] ==>
         && FitsTurn(m, t, turns[0])
         && Fits(Run(Asleep(m, t), turns[0].others), t, turns[0].expired, turns[1..], wake)
  }

  /** The state in which such a call returns, or in which it is asleep when the turns run out. */
  ghost function End<T>(m: State<T>, t: Tid, expired: bool, turns: seq<Turn<T>>, wake: Tid): State<T>
    requires Fits(m, t, expired, turns, wake)
    decreases turns
  {
    if !Sleeps(m, t, expired) then Apply(m, Section(t, expired, wake))
    else if turns == [] then Asleep(m, t)
    else End(Run(Asleep(m, t), turns[0].others), t, turns[0].expired, turns[1..], wake)
  }

  ghost predicate Reaches<T>(m: State<T>, run: seq<Label<T>>, m': State<T>) {
    ValidRun(m, run) && Run(m, run) == m'
  }

  lemma {:induction false} RunFurther<T>(m: State<T>, run: seq<Label<T>>, m': State<T>, more: seq<Label<T>>, m'': State<T>)
    requires Reaches(m, run, m') && Reaches(m', more, m'')
    ensures Reaches(m, run + more, m'')
    decreases run
  {
    if run == [] {
      assert run + more == more;
    } else {
      RunFurther(Apply(m, run[0]), run[1..], m', more, m'');
      assert (run + more)[0] == run[0] && (run + more)[1..] == run[1..] + more;
    }
  }

  /** Going to sleep is a step of the monitor. */
  lemma SleepStep<T>(m: State<T>, t: Tid, expired: bool) returns (l: Label<T>)
    requires IsRunnable(m, t) && Sleeps(m, t, expired)
    ensures Enabled(m, l) && Apply(m, l) == Asleep(m, t)
  {
    var sleepers := At(m.threads, if m.threads[t].op.IsProducer() then WaitNotEmpty else WaitNotFull);
    var wake: Tid := 0;
    if sleepers != {} { wake :| wake in sleepers; }
    l := Section(t, expired, wake);
  }

  /** `t` is still in its operation, with no answer yet. */
  ghost predicate Waiting<T>(m: State<T>, t: Tid, m': State<T>)
    requires t in m.threads
  {
    t in m'.threads && m'.threads[t].op == m.threads[t].op && EventsOf(m'.history, t) == EventsOf(m.history, t)
  }

  /** `t` has left its operation with this one answer. */
  ghost predicate Returned<T>(m: State<T>, t: Tid, m': State<T>, e: Event<T>) {
    t !in m'.threads && EventsOf(m'.history, t) == EventsOf(m.history, t) + [e] && e.tid == t
  }

  /** What one Wait amounts to. */
  lemma WaitTurn<T>(m: State<T>, t: Tid, expired: bool, turn: Turn<T>) returns (run: seq<Label<T>>)
    requires Inv(m) && IsRunnable(m, t) && Sleeps(m, t, expired) && FitsTurn(m, t, turn)
    ensures var m' := Run(Asleep(m, t), turn.others);
            Reaches(m, run, m') && Inv(m') && m'.capacity == m.capacity && Waiting(m, t, m')
  {
    var l := SleepStep(m, t, expired);
    StepKeepsInv(m, l);
    RunKeepsInv(Asleep(m, t), turn.others);
    WaitsThrough(Asleep(m, t), turn.others, t);
    run := SectionFirst(m, l, turn.others);
  }

  lemma {:induction false} WaitsThrough<T>(m: State<T>, others: seq<Label<T>>, t: Tid)
    requires ValidRun(m, others) && t in m.threads && forall l <- others :: !l.Wake? ==> l.t != t
    ensures Waiting(m, t, Run(m, others))
    decreases others
  {
    if others == [] {
    } else {
      var l, m' := others[0], Apply(m, others[0]);
      assert l in others;
      if l.t == t {
        assert Waiting(m, t, m');
      } else {
        OthersProgress(m, l, t);
      }
      WaitsThrough(m', others[1..], t);
    }
  }

  /** What a pass that returns answers. */
  function AnswerTo<T>(m: State<T>, t: Tid): Event<T>
    requires t in m.threads
  {
    var op := m.threads[t].op;
    if op.IsProducer() then if IsFull(m.capacity, m.q) then PushRefused(t) else Pushed(t, op.v)
    else if m.q == [] then PopRefused(t) else Popped(t, m.q[0])
  }

  lemma LastPass<T>(m: State<T>, t: Tid, expired: bool, wake: Tid)
    requires Enabled(m, Section(t, expired, wake)) && !Sleeps(m, t, expired)
    ensures Returned(m, t, Apply(m, Section(t, expired, wake)), AnswerTo(m, t))
    ensures Apply(m, Section(t, expired, wake)).history == m.history + [AnswerTo(m, t)]
  {
    assert (m.history + [AnswerTo(m, t)])[..|m.history|] == m.history;
  }

  class ProducerConsumerQueue<T(==)> {
    const capacity: int
    var q: seq<T>
    ghost var monitor: State<T>

    ghost predicate Valid()
      reads this
    {
      monitor.q == q && monitor.capacity == capacity && Inv(monitor)
    }

    /** `t` is in this operation, about to take the lock, and the turns may follow. */
    ghost predicate InCall(t: Tid, op: Op<T>, expired: bool, turns: seq<Turn<T>>, wake: Tid)
      reads this
    {
      t in monitor.threads && monitor.threads[t].op == op && Fits(monitor, t, expired, turns, wake)
    }

    constructor (capacity: int)
      requires capacity > 0
      ensures Valid() && monitor == Init(capacity) && this.capacity == capacity
    {
      this.capacity := capacity;
      q := [];
      monitor := Init(capacity);
    }

    method Count() returns (n: nat)
      requires Valid()
      ensures n == |q| && (IsLimited(capacity) ==> n <= capacity)
    {
      ReplayIsFifo(capacity, monitor.history);
      n := |q|;
    }

    /** A thread starts an operation; it has not taken the lock yet. */
    ghost method Begin(t: Tid, op: Op<T>)
      requires Valid() && t !in monitor.threads
      modifies this`monitor
      ensures Valid() && monitor == Apply(old(monitor), Call(t, op))
    {
      StepKeepsInv(monitor, Call(t, op));
      monitor := Apply(monitor, Call(t, op));
    }

    /** The call that began in `start` has taken the steps `run`, and these turns bring it to `end`. */
    ghost predicate UnderWay(start: State<T>, run: seq<Label<T>>, t: Tid, op: Op<T>, expired: bool,
                             turns: seq<Turn<T>>, wake: Tid, end: State<T>)
      reads this
    {
      && Valid() && InCall(t, op, expired, turns, wake) && t in start.threads
      && Reaches(start, run, monitor) && Waiting(start, t, monitor)
      && End(monitor, t, expired, turns, wake) == end
    }

    /** A Wait: the lock is released, and the others run until the thread has it again. */
    method Wait(turns: seq<Turn<T>>, ghost start: State<T>, ghost run: seq<Label<T>>, ghost t: Tid, ghost op: Op<T>,
                ghost expired: bool, ghost wake: Tid, ghost end: State<T>)
      returns (ghost run': seq<Label<T>>)
      requires turns != [] && UnderWay(start, run, t, op, expired, turns, wake, end) && Sleeps(monitor, t, expired)
      modifies this
      ensures UnderWay(start, run', t, op, turns[0].expired, turns[1..], wake, end) && q == turns[0].contents
    {
      ghost var before := monitor;
      var turn := turns[0];
      run' := WaitTurn(monitor, t, expired, turn);
      monitor := Run(Asleep(monitor, t), turn.others);
      q := turn.contents;
      RunFurther(start, run, before, run', monitor);
      run' := run + run';
    }

    /** A Wait from which the script does not return. */
    ghost method SleepOn(start: State<T>, run: seq<Label<T>>, t: Tid, op: Op<T>, expired: bool, wake: Tid,
                         end: State<T>)
      returns (run': seq<Label<T>>)
      requires UnderWay(start, run, t, op, expired, [], wake, end) && Sleeps(monitor, t, expired)
      modifies this`monitor
      ensures Valid() && monitor == end && Reaches(start, run', monitor) && Waiting(start, t, monitor)
      ensures t in At(monitor.threads, SleepingPlace(op))
      ensures op.TryPush? ==> t in monitor.pointers && monitor.pointers[t] == Some(op.v)
    {
      ghost var before := monitor;
      var l := SleepStep(monitor, t, expired);
      StepKeepsInv(monitor, l);
      run' := SectionFirst(monitor, l, []);
      monitor := Asleep(monitor, t);
      RunFurther(start, run, before, run', monitor);
      run' := run + run';
    }

    /** The pass from which the operation returns, with the answer `e`. */
    ghost method Finish(start: State<T>, run: seq<Label<T>>, t: Tid, op: Op<T>, expired: bool,
                        turns: seq<Turn<T>>, wake: Tid, end: State<T>, e: Event<T>)
      returns (run': seq<Label<T>>)
      requires UnderWay(start, run, t, op, expired, turns, wake, end) && !Sleeps(monitor, t, expired)
      requires e == AnswerTo(monitor, t)
      modifies this`monitor
      ensures Inv(monitor) && monitor.capacity == capacity
      ensures Reaches(start, run', monitor) && Returned(start, t, monitor, e)
      ensures monitor == end == Apply(old(monitor), Section(t, expired, wake))
      ensures op.TryPush? ==>
                t in monitor.pointers && monitor.pointers[t] == if e.Pushed? then None else Some(op.v)
    {
      ghost var before := monitor;
      var l := Section(t, expired, wake);
      StepKeepsInv(monitor, l);
      LastPass(monitor, t, expired, wake);
      monitor := Apply(monitor, l);
      run' := SectionFirst(before, l, []);
      RunFurther(start, run, before, run', monitor);
      run' := run + run';
    }

    method InternalEmplace(v: T)
      modifies this`q
      ensures q == old(q) + [v]
    {
      q := q + [v];
    }

    method InternalPop() returns (elem: T)
      requires q != []
      modifies this`q
      ensures [elem] + q == old(q)
    {
      elem := q[0];
      q := q[1..];
    }

    /** Emplace, with all its waits: it pushes `v` once, or it is waiting for room. */
    method Emplace(v: T, turns: seq<Turn<T>>, ghost t: Tid, ghost wake: Tid)
      returns (r: Reply, ghost run: seq<Label<T>>)
      requires Valid() && InCall(t, Op<T>.Emplace(v), false, turns, wake)
      modifies this
      ensures Valid() && monitor == End(old(monitor), t, false, turns, wake) && Reaches(old(monitor), run, monitor)
      ensures !r.No?
      ensures r.Yes? ==> Returned(old(monitor), t, monitor, Pushed(t, v))
      ensures r.Sleep? ==> Waiting(old(monitor), t, monitor) && t in At(monitor.threads, WaitNotFull) && IsFull(capacity, q)
    {
      run := [];
      var rest := turns;
      ghost var op, expired := Op<T>.Emplace(v), false;
      ghost var end := End(monitor, t, false, turns, wake);
      while capacity != UNLIMITED && |q| >= capacity
        invariant UnderWay(old(monitor), run, t, op, expired, rest, wake, end)
        decreases |rest|
      {
        if rest == [] {
          run := SleepOn(old(monitor), run, t, op, expired, wake, end);
          return Sleep, run;
        }
        run := Wait(rest, old(monitor), run, t, op, expired, wake, end);
        rest, expired := rest[1..], rest[0].expired;
      }
      run := Finish(old(monitor), run, t, op, expired, rest, wake, end, Pushed(t, v));
      InternalEmplace(v);
      r := Yes;
    }

    /** TryEmplace never waits. */
    method TryEmplace(v: T, ghost t: Tid, ghost wake: Tid) returns (r: Reply)
      requires Valid() && InCall(t, Op<T>.TryEmplace(v), false, [], wake)
      modifies this
      ensures Valid() && monitor == Apply(old(monitor), Section(t, false, wake))
      ensures !r.Sleep?
      ensures r.Yes? <==> !IsFull(capacity, old(q))
      ensures r.Yes? ==> q == old(q) + [v] && Returned(old(monitor), t, monitor, Pushed(t, v))
      ensures r.No? ==> q == old(q) && Returned(old(monitor), t, monitor, PushRefused(t))
    {
      ghost var op, end := Op<T>.TryEmplace(v), Apply(monitor, Section(t, false, wake));
      if capacity != UNLIMITED && |q| >= capacity {
        ghost var run := Finish(monitor, [], t, op, false, [], wake, end, PushRefused(t));
        return No;
      }
      ghost var run := Finish(monitor, [], t, op, false, [], wake, end, Pushed(t, v));
      InternalEmplace(v);
      r := Yes;
    }

    /** TryPush, with all its waits; `expired` is whether there is no time left at the first test of the
        loop condition. It answers false only when it finds the queue full and no time left, and only
        success takes the element from the pointer. */
    method TryPush(p: Option<T>, expired: bool, turns: seq<Turn<T>>, ghost t: Tid, ghost wake: Tid)
      returns (r: Reply, p': Option<T>, ghost run: seq<Label<T>>)
      requires p.Some?
      requires Valid() && InCall(t, Op<T>.TryPush(p.value), expired, turns, wake)
      modifies this
      ensures Valid() && monitor == End(old(monitor), t, expired, turns, wake) && Reaches(old(monitor), run, monitor)
      ensures t in monitor.pointers && p' == monitor.pointers[t] == if r.Yes? then None else p
      ensures r.Yes? ==> Returned(old(monitor), t, monitor, Pushed(t, p.value))
      ensures r.No? ==> Returned(old(monitor), t, monitor, PushRefused(t)) && IsFull(capacity, q)
      ensures r.No? ==> expired || exists turn <- turns :: turn.expired
      ensures r.Sleep? ==> Waiting(old(monitor), t, monitor) && t in At(monitor.threads, WaitNotFull)
      ensures r.Sleep? ==> IsFull(capacity, q) && !expired && forall turn <- turns :: !turn.expired
    {
      run, p' := [], p;
      var rest, noTimeLeft := turns, expired;
      ghost var op, end := Op<T>.TryPush(p.value), End(monitor, t, expired, turns, wake);
      if capacity != UNLIMITED {
        while |q| >= capacity && !noTimeLeft
          invariant UnderWay(old(monitor), run, t, op, noTimeLeft, rest, wake, end)
          invariant forall turn <- rest :: turn in turns
          invariant forall turn <- turns :: turn in rest || noTimeLeft || !turn.expired
          invariant expired ==> noTimeLeft
          invariant noTimeLeft ==> expired || exists turn <- turns :: turn.expired
          decreases |rest|
        {
          if rest == [] {
            run := SleepOn(old(monitor), run, t, op, noTimeLeft, wake, end);
            return Sleep, p', run;
          }
          run := Wait(rest, old(monitor), run, t, op, noTimeLeft, wake, end);
          rest, noTimeLeft := rest[1..], rest[0].expired;
        }
        if |q| >= capacity {
          run := Finish(old(monitor), run, t, op, noTimeLeft, rest, wake, end, PushRefused(t));
          return No, p', run;
        }
      }
      run := Finish(old(monitor), run, t, op, noTimeLeft, rest, wake, end, Pushed(t, p.value));
      InternalEmplace(p.value);
      r, p' := Yes, None;
    }

    /** Pop, with all its waits: it takes the oldest element once, or it is waiting for one. */
    method Pop(turns: seq<Turn<T>>, ghost t: Tid, ghost wake: Tid)
      returns (r: Reply, elem: Option<T>, ghost run: seq<Label<T>>)
      requires Valid() && InCall(t, Op<T>.Pop, false, turns, wake)
      modifies this
      ensures Valid() && monitor == End(old(monitor), t, false, turns, wake) && Reaches(old(monitor), run, monitor)
      ensures !r.No? && (r.Yes? <==> elem.Some?)
      ensures r.Yes? ==> Returned(old(monitor), t, monitor, Popped(t, elem.value))
      ensures r.Sleep? ==> Waiting(old(monitor), t, monitor) && t in At(monitor.threads, WaitNotEmpty) && q == []
    {
      run := [];
      var rest := turns;
      ghost var op, expired := Op<T>.Pop, false;
      ghost var end := End(monitor, t, false, turns, wake);
      while q == []
        invariant UnderWay(old(monitor), run, t, op, expired, rest, wake, end)
        decreases |rest|
      {
        if rest == [] {
          run := SleepOn(old(monitor), run, t, op, expired, wake, end);
          return Sleep, None, run;
        }
        run := Wait(rest, old(monitor), run, t, op, expired, wake, end);
        rest, expired := rest[1..], rest[0].expired;
      }
      run := Finish(old(monitor), run, t, op, expired, rest, wake, end, Popped(t, q[0]));
      var e := InternalPop();
      r, elem := Yes, Some(e);
    }

    /** TryPop, with all its waits. It answers false only when it finds the queue empty and no time left. */
    method TryPop(expired: bool, turns: seq<Turn<T>>, ghost t: Tid, ghost wake: Tid)
      returns (r: Reply, elem: Option<T>, ghost run: seq<Label<T>>)
      requires Valid() && InCall(t, Op<T>.TryPop, expired, turns, wake)
      modifies this
      ensures Valid() && monitor == End(old(monitor), t, expired, turns, wake) && Reaches(old(monitor), run, monitor)
      ensures r.Yes? <==> elem.Some?
      ensures r.Yes? ==> Returned(old(monitor), t, monitor, Popped(t, elem.value))
      ensures r.No? ==> Returned(old(monitor), t, monitor, PopRefused(t)) && q == []
      ensures r.No? ==> expired || exists turn <- turns :: turn.expired
      ensures r.Sleep? ==> Waiting(old(monitor), t, monitor) && t in At(monitor.threads, WaitNotEmpty)
      ensures r.Sleep? ==> q == [] && !expired && forall turn <- turns :: !turn.expired
    {
      run := [];
      var rest, noTimeLeft := turns, expired;
      ghost var op, end := Op<T>.TryPop, End(monitor, t, expired, turns, wake);
      while q == [] && !noTimeLeft
        invariant UnderWay(old(monitor), run, t, op, noTimeLeft, rest, wake, end)
        invariant forall turn <- rest :: turn in turns
        invariant forall turn <- turns :: turn in rest || noTimeLeft || !turn.expired
        invariant expired ==> noTimeLeft
        invariant noTimeLeft ==> expired || exists turn <- turns :: turn.expired
        decreases |rest|
      {
        if rest == [] {
          run := SleepOn(old(monitor), run, t, op, noTimeLeft, wake, end);
          return Sleep, None, run;
        }
        run := Wait(rest, old(monitor), run, t, op, noTimeLeft, wake, end);
        rest, noTimeLeft := rest[1..], rest[0].expired;
      }
      if q == [] {
        run := Finish(old(monitor), run, t, op, noTimeLeft, rest, wake, end, PopRefused(t));
        return No, None, run;
      }
      run := Finish(old(monitor), run, t, op, noTimeLeft, rest, wake, end, Popped(t, q[0]));
      var e := InternalPop();
      r, elem := Yes, Some(e);
    }
  }
}
