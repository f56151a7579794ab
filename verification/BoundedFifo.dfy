/** The sequential meaning of a bounded first-in first-out queue.

    A history lists the outcomes of queue operations in the order in which they took the lock.
    `Replay` runs a history against a plain sequence and rejects it as soon as one outcome is not
    what an atomic queue would have answered. */
module BoundedFifo {

  /** std::numeric_limits<int>::max(): this capacity means "never full". */
  const UNLIMITED: int := 0x7fff_ffff

  type Tid = nat

  datatype Option<+T> = None | Some(value: T)

  datatype Event<T> =
    | Pushed(tid: Tid, v: T)
    | PushRefused(tid: Tid)
    | Popped(tid: Tid, v: T)
    | PopRefused(tid: Tid)

  predicate IsLimited(capacity: int) {
    capacity != UNLIMITED
  }

  predicate IsFull<T>(capacity: int, q: seq<T>) {
    IsLimited(capacity) && |q| >= capacity
  }

  /** What an atomic queue holding `q` becomes when it answers with `e`, if it can answer so. */
  function Answer<T(==)>(capacity: int, q: seq<T>, e: Event<T>): Option<seq<T>> {
    match e
    case Pushed(_, v) => if IsFull(capacity, q) then None else Some(q + [v])
    case PushRefused(_) => if IsFull(capacity, q) then Some(q) else None
    case Popped(_, v) => if q != [] && q[0] == v then Some(q[1..]) else None
    case PopRefused(_) => if q == [] then Some(q) else None
  }

  /** The contents after a whole history, or None if some outcome in it is not a queue's. */
  function Replay<T(==)>(capacity: int, history: seq<Event<T>>): Option<seq<T>> {
    if history == [] then Some([])
    else
      match Replay(capacity, history[..|history| - 1])
      case None => None
      case Some(q) => Answer(capacity, q, history[|history| - 1])
  }

  /** The values pushed, in order. */
  function Pushes<T>(history: seq<Event<T>>): seq<T> {
    if history == [] then []
    else
      var e := history[|history| - 1];
      Pushes(history[..|history| - 1]) + if e.Pushed? then [e.v] else []
  }

  /** The values popped, in order. */
  function Pops<T>(history: seq<Event<T>>): seq<T> {
    if history == [] then []
    else
      var e := history[|history| - 1];
      Pops(history[..|history| - 1]) + if e.Popped? then [e.v] else []
  }

  lemma ReplayExtend<T>(capacity: int, history: seq<Event<T>>, e: Event<T>)
    ensures Replay(capacity, history).Some? ==>
              Replay(capacity, history + [e]) == Answer(capacity, Replay(capacity, history).value, e)
    ensures Pushes(history + [e]) == Pushes(history) + if e.Pushed? then [e.v] else []
    ensures Pops(history + [e]) == Pops(history) + if e.Popped? then [e.v] else []
  {
  }

  /** Every accepted history is first-in first-out: the pops followed by what is left are exactly
      the pushes, and a limited queue never holds more than its capacity. */
  lemma {:induction false} ReplayIsFifo<T>(capacity: int, history: seq<Event<T>>)
    requires capacity > 0
    requires Replay(capacity, history).Some?
    ensures Pushes(history) == Pops(history) + Replay(capacity, history).value
    ensures IsLimited(capacity) ==> |Replay(capacity, history).value| <= capacity
  {
    if history == [] {
    } else {
      ReplayIsFifo(capacity, history[..|history| - 1]);
    }
  }
}
