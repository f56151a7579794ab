/** Exponential backoff over real seconds, and the loop that polls a long running operation with it. */
module Backoff {

  function Max(a: real, b: real): real { if a < b then b else a }

  function Min(a: real, b: real): real { if b < a then b else a }

  function Power(base: real, k: nat): real {
    if k == 0 then 1.0 else base * Power(base, k - 1)
  }

  // ----- The k-th wait -----

  /** The parameters as the constructor leaves them. */
  datatype Schedule = Schedule(initial: real, max: real, multiplier: real)
  {
    ghost predicate Valid() {
      0.0 <= initial <= max && 1.0 <= multiplier
    }
  }

  function Clamped(initial: real, max: real, multiplier: real): (l: Schedule)
    ensures l.Valid()
    ensures l.initial == initial || (initial < 0.0 && l.initial == 0.0)
    ensures l.max == max || (max < l.initial && l.max == l.initial)
    ensures l.multiplier == multiplier || (multiplier < 1.0 && l.multiplier == 1.0)
  {
    var i := Max(initial, 0.0);
    Schedule(i, Max(max, i), Max(multiplier, 1.0))
  }

  /** What a wait time becomes after it has been waited. */
  function Increased(grow: real -> real, max: real, wait: real): real {
    if wait < max then Min(grow(wait), max) else wait
  }

  function NthCut(grow: real -> real, initial: real, max: real, k: nat): real {
    if k == 0 then initial else Increased(grow, max, NthCut(grow, initial, max, k - 1))
  }

  function Scale(multiplier: real): real -> real {
    x => multiplier * x
  }

  /** The k-th wait: each one is the one before, increased. */
  function NthWait(l: Schedule, k: nat): real {
    NthCut(Scale(l.multiplier), l.initial, l.max, k)
  }

  // For the proofs, grow is any function that does not shrink what is not negative.

  ghost predicate Grows(grow: real -> real) {
    forall x | x >= 0.0 :: x <= grow(x)
  }

  function Iterated(grow: real -> real, x: real, k: nat): real {
    if k == 0 then x else grow(Iterated(grow, x, k - 1))
  }

  /** Cutting off at every step, or once at the end, makes no difference. */
  lemma {:induction false} CutOff(grow: real -> real, initial: real, max: real, k: nat)
    requires Grows(grow) && 0.0 <= initial <= max
    ensures Iterated(grow, initial, k) >= 0.0
    ensures NthCut(grow, initial, max, k) == Min(Iterated(grow, initial, k), max)
  {
    if k == 0 {
    } else {
      CutOff(grow, initial, max, k - 1);
    }
  }

  lemma {:induction false} CutsGrow(grow: real -> real, initial: real, max: real, j: nat, k: nat)
    requires Grows(grow) && 0.0 <= initial <= max && j <= k
    ensures initial <= NthCut(grow, initial, max, j) <= NthCut(grow, initial, max, k) <= max
    decreases k
  {
    if k == 0 {
    } else {
      CutsGrow(grow, initial, max, if j < k then j else j - 1, k - 1);
    }
  }

  lemma ScaleGrows(multiplier: real)
    requires 1.0 <= multiplier
    ensures Grows(Scale(multiplier))
  {
  }

  /** Multiplying k times is multiplying by the k-th power. */
  lemma {:induction false} IteratedIsPower(multiplier: real, x: real, k: nat)
    ensures Iterated(Scale(multiplier), x, k) == x * Power(multiplier, k)
  {
    if k == 0 {
    } else {
      IteratedIsPower(multiplier, x, k - 1);
      ProductsSwap(multiplier, x, Power(multiplier, k - 1));
    }
  }

  lemma ProductsSwap(a: real, b: real, c: real)
    ensures a * (b * c) == b * (a * c)
  {
  }

  /** The k-th wait if there were no maximum. */
  function Uncut(l: Schedule, k: nat): (wait: real)
    ensures wait == l.initial * Power(l.multiplier, k)
  {
    IteratedIsPower(l.multiplier, l.initial, k);
    Iterated(Scale(l.multiplier), l.initial, k)
  }

  /** The k-th wait is the initial one times the multiplier to the k, cut off at the maximum. */
  lemma NthWaitClosedForm(l: Schedule, k: nat)
    requires l.Valid()
    ensures NthWait(l, k) == Min(Uncut(l, k), l.max)
  {
    ScaleGrows(l.multiplier);
    CutOff(Scale(l.multiplier), l.initial, l.max, k);
  }

  /** Waits never get shorter, and all lie between the initial wait and the maximum. */
  lemma WaitsGrow(l: Schedule, j: nat, k: nat)
    requires l.Valid() && j <= k
    ensures l.initial <= NthWait(l, j) <= NthWait(l, k) <= l.max
  {
    ScaleGrows(l.multiplier);
    CutsGrow(Scale(l.multiplier), l.initial, l.max, j, k);
  }

  /** Once the maximum is reached, every later wait is the maximum. */
  lemma MaximumIsKept(l: Schedule, j: nat, k: nat)
    requires l.Valid() && j <= k && NthWait(l, j) == l.max
    ensures NthWait(l, k) == l.max
  {
    WaitsGrow(l, j, k);
  }

  /** The time slept by the first n waits. */
  function TotalWait(l: Schedule, n: nat): real {
    if n == 0 then 0.0 else TotalWait(l, n - 1) + NthWait(l, n - 1)
  }

  class ExponentialBackoff {
    var initialWaitTime: real
    var currentWaitTime: real
    var maxWaitTime: real
    var waitTimeMultiplier: real
    ghost var waits: nat

    ghost function Parameters(): Schedule
      reads this
    {
      Schedule(initialWaitTime, maxWaitTime, waitTimeMultiplier)
    }

    ghost predicate Valid()
      reads this
    {
      Parameters().Valid() && currentWaitTime == NthWait(Parameters(), waits)
    }

    constructor (initialWaitTime: real, maxWaitTime: real, waitTimeMultiplier: real)
      ensures Valid() && waits == 0
      ensures Parameters() == Clamped(initialWaitTime, maxWaitTime, waitTimeMultiplier)
    {
      var initial := Max(initialWaitTime, 0.0);
      this.initialWaitTime := initial;
      currentWaitTime := initial;
      this.maxWaitTime := Max(maxWaitTime, initial);
      this.waitTimeMultiplier := Max(waitTimeMultiplier, 1.0);
      waits := 0;
    }

    /** Sleep for the current wait time, then increase it. */
    method Wait() returns (slept: real)
      requires Valid()
      modifies this
      ensures Valid() && Parameters() == old(Parameters()) && waits == old(waits) + 1
      ensures slept == NthWait(Parameters(), old(waits))
    {
      slept := currentWaitTime;
      if currentWaitTime < maxWaitTime {
        currentWaitTime := Min(waitTimeMultiplier * currentWaitTime, maxWaitTime);
      }
      waits := waits + 1;
    }
  }

  // ----- Polling a long running operation -----

  const MAX_TRIALS := 15

  /** What one poll of the server says. */
  datatype Poll = RpcFailed | OperationFailed | Done(response: string) | Pending

  datatype Outcome = Response(response: string) | Unknown | DeadlineExceeded

  const POLLING := Schedule(2.0, 120.0, 2.0)

  lemma {:induction false} TotalAtMaximum(n: nat)
    ensures NthWait(POLLING, 6 + n) == 120.0
    ensures TotalWait(POLLING, 6 + n) == 126.0 + 120.0 * n as real
  {
    if n == 0 {
      assert NthWait(POLLING, 1) == 4.0 && NthWait(POLLING, 2) == 8.0 && NthWait(POLLING, 3) == 16.0;
      assert NthWait(POLLING, 4) == 32.0 && NthWait(POLLING, 5) == 64.0 && NthWait(POLLING, 6) == 120.0;
      assert TotalWait(POLLING, 2) == 6.0;
      assert TotalWait(POLLING, 4) == 30.0;
    } else {
      TotalAtMaximum(n - 1);
    }
  }

  lemma TotalBounded(n: nat)
    requires n <= MAX_TRIALS
    ensures 0.0 <= TotalWait(POLLING, n) <= 1206.0
    ensures n == MAX_TRIALS ==> TotalWait(POLLING, n) == 1206.0
  {
    TotalGrows(POLLING, 0, n);
    TotalGrows(POLLING, n, MAX_TRIALS);
    TotalAtMaximum(9);
  }

  lemma {:induction false} TotalGrows(l: Schedule, j: nat, k: nat)
    requires l.Valid() && j <= k
    ensures TotalWait(l, j) <= TotalWait(l, k)
    decreases k
  {
    if j < k {
      TotalGrows(l, j, k - 1);
      WaitsGrow(l, 0, k - 1);
    }
  }

  /** Poll until the operation settles, at most sixteen times, sleeping after each pending poll but
      the last: at most 1206 seconds in all, whatever the server answers. */
  method WaitOperation(polls: nat -> Poll) returns (outcome: Outcome, polled: nat, slept: real)
    ensures 1 <= polled <= 16 && forall i | 0 <= i < polled - 1 :: polls(i).Pending?
    ensures polls(polled - 1).Pending? ==> polled == 16 && slept == 1206.0
    ensures outcome == match polls(polled - 1)
                       case Done(response) => Response(response)
                       case Pending => DeadlineExceeded
                       case _ => Unknown
    ensures slept == TotalWait(POLLING, polled - 1) && 0.0 <= slept <= 1206.0
  {
    var backoff := new ExponentialBackoff(2.0, 120.0, 2.0);
    var numTrials := 0;
    polled, slept := 0, 0.0;
    while true
      invariant numTrials <= MAX_TRIALS && polled == numTrials
      invariant forall i | 0 <= i < numTrials :: polls(i).Pending?
      invariant backoff.Valid() && backoff.Parameters() == POLLING && backoff.waits == numTrials
      invariant slept == TotalWait(POLLING, numTrials)
      decreases MAX_TRIALS - numTrials
    {
      TotalBounded(numTrials);
      var poll := polls(polled);
      polled := polled + 1;
      if poll.RpcFailed? {
        return Unknown, polled, slept;
      }
      if poll.OperationFailed? {
        return Unknown, polled, slept;
      }
      if poll.Done? {
        return Response(poll.response), polled, slept;
      }
      numTrials := numTrials + 1;
      if numTrials > MAX_TRIALS {
        break;
      }
      var wait := backoff.Wait();
      slept := slept + wait;
    }
    outcome := DeadlineExceeded;
  }
}
