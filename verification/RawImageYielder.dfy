/** The life cycle of the raw image yielder: when its runner exists, when it may be fed, and how
    often its callback hears about the end of the stream. */
module RawImageYielders {

  class RawImageYielder {
    var eosSignaled: bool
    var hasRunner: bool          // gstreamer_runner_ != nullptr
    ghost var eosCallbacks: nat  // callback(EOSStatus())
    ghost var signals: nat       // SignalEOS calls made by the user

    /** The runner is there exactly as long as EOS has not been signalled. */
    ghost predicate Valid()
      reads this
    {
      && hasRunner == !eosSignaled
      && eosCallbacks == signals
      && (eosSignaled <==> signals > 0)
    }

    constructor ()
      ensures Valid() && signals == 0
    {
      eosSignaled, hasRunner, eosCallbacks, signals := false, true, 0, 0;
    }

    /** Feed reaches the runner only if the runner exists. */
    method Feed(runnerAccepts: bool) returns (ok: bool)
      requires Valid()
      ensures ok <==> signals == 0 && runnerAccepts
    {
      if eosSignaled {
        return false;
      }
      assert hasRunner;
      ok := runnerAccepts;
    }

    method SignalEos()
      requires Valid()
      modifies this
      ensures Valid() && signals == old(signals) + 1
    {
      signals := signals + 1;
      eosSignaled := true;
      hasRunner := false;
      eosCallbacks := eosCallbacks + 1;
    }

    /** The destructor: over its whole life the yielder reports EOS at least once, and once for
        every SignalEOS. */
    method Destroy()
      requires Valid()
      modifies this
      ensures !hasRunner
      ensures eosCallbacks == if old(signals) == 0 then 1 else old(signals)
    {
      if !eosSignaled {
        SignalEos();
      }
    }
  }
}
