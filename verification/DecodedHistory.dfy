/** What the steps of a run have left behind in the decoded receiver: which packets were fed and whose
    headers were queued, which images were dropped, and what ended Work. */
module DecodedHistory {
  import opened BoundedFifo
  import opened DecodedReceiver

  /** What a run's labels say: the headers of the frame heads pulled, the images decoded, how often
      packets were accepted, callbacks were finished and items were popped, whether the consumer has let
      go, and whether Work was given a reason to end: no packet in time, the source's EOS, or a packet
      that was not accepted. */
  datatype Ledger<I, H> = Ledger(heads: seq<H>, images: seq<I>, accepted: nat, callbacks: nat, pops: nat,
                                 released: bool, reason: bool)

  function Enter<I, H>(g: Ledger<I, H>, l: Label<I, H>): Ledger<I, H> {
    match l
    case WorkPull(pulled) =>
      if pulled == None || pulled.value.isEos then g.(reason := true)
      else if pulled.value.isFrameHead then g.(heads := g.heads + [pulled.value.header]) else g
    case WorkFeed(fedOk) => if fedOk then g.(accepted := g.accepted + 1) else g.(reason := true)
    case DecoderYield(image) => g.(images := g.images + [image])
    case DecoderEnqueue => g.(callbacks := g.callbacks + 1)
    case ConsumerPop => g.(pops := g.pops + 1)
    case ConsumerRelease => g.(released := true)
    case _ => g
  }

  function LedgerOf<I, H>(run: seq<Label<I, H>>): Ledger<I, H> {
    if run == [] then Ledger([], [], 0, 0, 0, false, false)
    else Enter(LedgerOf(run[..|run| - 1]), run[|run| - 1])
  }

  predicate InLoop<I, H>(s: State<I, H>) {
    s.pc.Top? || s.pc.Pull? || s.pc.PushHeader? || s.pc.FeedDecoder?
  }

  /** The headers queued, and then the one that Work is pushing, are those of the frame heads pulled. */
  ghost predicate HeadersPulled<I, H>(s: State<I, H>, heads: seq<H>) {
    && |heads| == |s.headersQueued| + (if s.pc.PushHeader? then 1 else 0)
    && (forall i | 0 <= i < |s.headersQueued| :: s.headersQueued[i] == Header(i + 1, heads[i]))
    && (s.pc.PushHeader? ==> s.pc.p.header == heads[|heads| - 1])
  }

  ghost predicate Balanced<I, H>(s: State<I, H>, g: Ledger<I, H>) {
    && HeadersPulled(s, g.heads)
    && |s.decoded| == |g.images| && (forall i | 0 <= i < |s.decoded| :: s.decoded[i].0 == g.images[i])
    && s.fed == 1 + g.accepted && |s.kept| == g.callbacks && |s.popped| == g.pops
    && (s.consumerHolds <==> !g.released)
    && (g.reason ==> !InLoop(s)) && (!InLoop(s) ==> g.reason || g.released)
  }

  lemma PullBalances<I, H>(c: Config, s: State<I, H>, pulled: Option<Packet<H>>, g: Ledger<I, H>)
    requires Balanced(s, g) && Enabled(c, s, WorkPull(pulled))
    ensures Balanced(Apply(c, s, WorkPull(pulled)), Enter(g, WorkPull(pulled)))
  {
  }

  lemma PushBalances<I, H>(c: Config, s: State<I, H>, g: Ledger<I, H>)
    requires Balanced(s, g) && Enabled(c, s, WorkPushHeader)
    ensures Balanced(Apply(c, s, WorkPushHeader), g)
  {
  }

  lemma YieldBalances<I, H>(c: Config, s: State<I, H>, image: I, g: Ledger<I, H>)
    requires Balanced(s, g) && Enabled(c, s, DecoderYield(image))
    ensures Balanced(Apply(c, s, DecoderYield(image)), Enter(g, DecoderYield(image)))
  {
  }

  lemma FeedBalances<I, H>(c: Config, s: State<I, H>, fedOk: bool, g: Ledger<I, H>)
    requires Balanced(s, g) && Enabled(c, s, WorkFeed(fedOk))
    ensures Balanced(Apply(c, s, WorkFeed(fedOk)), Enter(g, WorkFeed(fedOk)))
  {
  }

  lemma EnqueueBalances<I, H>(c: Config, s: State<I, H>, g: Ledger<I, H>)
    requires Balanced(s, g) && Enabled(c, s, DecoderEnqueue)
    ensures Balanced(Apply(c, s, DecoderEnqueue), Enter(g, DecoderEnqueue))
  {
  }

  lemma PopBalances<I, H>(c: Config, s: State<I, H>, g: Ledger<I, H>)
    requires Balanced(s, g) && Enabled(c, s, ConsumerPop)
    ensures Balanced(Apply(c, s, ConsumerPop), Enter(g, ConsumerPop))
  {
  }

  lemma StepBalances<I, H>(c: Config, s: State<I, H>, l: Label<I, H>, g: Ledger<I, H>)
    requires Balanced(s, g) && Enabled(c, s, l)
    ensures Balanced(Apply(c, s, l), Enter(g, l))
  {
    match l
    case WorkPull(pulled) => PullBalances(c, s, pulled, g);
    case WorkPushHeader => PushBalances(c, s, g);
    case DecoderYield(image) => YieldBalances(c, s, image, g);
    case WorkFeed(fedOk) => FeedBalances(c, s, fedOk, g);
    case DecoderEnqueue => EnqueueBalances(c, s, g);
    case ConsumerPop => PopBalances(c, s, g);
    case _ =>
  }

  lemma LastStep<I, H>(c: Config, s: State<I, H>, run: seq<Label<I, H>>, l: Label<I, H>)
    requires ValidRun(c, s, run + [l])
    ensures ValidRun(c, s, run) && Enabled(c, Run(c, s, run), l)
    ensures Run(c, s, run + [l]) == Apply(c, Run(c, s, run), l)
    decreases run
  {
    if run == [] {
      assert run + [l] == [l];
    } else {
      assert (run + [l])[0] == run[0] && (run + [l])[1..] == run[1..] + [l];
      LastStep(c, Apply(c, s, run[0]), run[1..], l);
    }
  }

  lemma {:induction false} RunBalances<I, H>(c: Config, run: seq<Label<I, H>>)
    requires ValidRun(c, Init(), run)
    ensures Balanced(Run(c, Init(), run), LedgerOf(run))
  {
    if run == [] {
    } else {
      var before, l := run[..|run| - 1], run[|run| - 1];
      assert run == before + [l];
      LastStep(c, Init(), before, l);
      RunBalances(c, before);
      StepBalances(c, Run(c, Init(), before), l, LedgerOf(before));
    }
  }

  /** In any run: the headers queued are those of the frame heads that were pulled, in order and without
      the source's EOS, the last one perhaps still being pushed. */
  lemma HeadersAreThoseOfFrameHeads<I, H>(c: Config, run: seq<Label<I, H>>)
    requires ValidRun(c, Init(), run)
    ensures var s := Run(c, Init(), run);
            var heads := LedgerOf(run).heads;
            && |heads| == |s.headersQueued| + (if s.pc.PushHeader? then 1 else 0)
            && forall i | 0 <= i < |s.headersQueued| :: s.headersQueued[i].h == heads[i]
  {
    RunBalances(c, run);
  }

  /** In any run: Work is past its loop only if a pull timed out or gave the source's EOS, or a packet
      was not accepted, or the consumer has let go; and it is past it if one of the first three. */
  lemma WorkEndsForAReason<I, H>(c: Config, run: seq<Label<I, H>>)
    requires ValidRun(c, Init(), run)
    ensures var s := Run(c, Init(), run);
            var g := LedgerOf(run);
            && (g.reason ==> !InLoop(s)) && (!InLoop(s) ==> g.reason || g.released)
            && (s.consumerHolds <==> !g.released) && s.fed == 1 + g.accepted
  {
    RunBalances(c, run);
  }

  // ----- The destination queue -----

  ghost predicate DestFits<I, H>(c: Config, s: State<I, H>) {
    IsLimited(c.destCapacity) ==> |s.dest| <= c.destCapacity
  }

  lemma {:induction false} RunKeepsDestFit<I, H>(c: Config, s: State<I, H>, run: seq<Label<I, H>>)
    requires DestFits(c, s) && ValidRun(c, s, run)
    ensures DestFits(c, Run(c, s, run))
    decreases run
  {
    if run == [] {
    } else {
      RunKeepsDestFit(c, Apply(c, s, run[0]), run[1..]);
    }
  }

  /** After any run the destination queue is within its capacity, its consumer has had as many items as
      it popped, and the image that is in a callback will be dropped if and only if the items queued
      and not yet popped are as many as the queue can hold. */
  lemma ImageDroppedIff<I, H>(c: Config, run: seq<Label<I, H>>)
    requires c.destCapacity > 0 && ValidRun(c, Init(), run) && Run(c, Init(), run).InCallback()
    ensures var s := Run(c, Init(), run);
            var s' := Apply(c, s, DecoderEnqueue);
            var full := IsLimited(c.destCapacity) && |s.enqueued| - |s.popped| == c.destCapacity;
            var (image, header) := s.decoded[|s.kept|];
            && DestFits(c, s) && |s.popped| == LedgerOf(run).pops
            && s'.kept == s.kept + [!full]
            && s'.enqueued == (if full then s.enqueued else s.enqueued + [Image(image, header)])
  {
    RunKeepsDestFit(c, Init(), run);
    RunKeepsInv(c, Init(), run);
    RunBalances(c, run);
  }

  lemma Concat<I, H>(c: Config, s: State<I, H>, run: seq<Label<I, H>>, more: seq<Label<I, H>>)
    requires ValidRun(c, s, run) && ValidRun(c, Run(c, s, run), more)
    ensures ValidRun(c, s, run + more) && Run(c, s, run + more) == Run(c, Run(c, s, run), more)
    decreases run
  {
    if run == [] {
      assert run + more == more;
    } else {
      Concat(c, Apply(c, s, run[0]), run[1..], more);
      assert (run + more)[0] == run[0] && (run + more)[1..] == run[1..] + more;
    }
  }

  /** Between images, with a consumer that has kept up. */
  ghost predicate Quiet<I, H>(s: State<I, H>) {
    && s.pc.Top? && s.consumerHolds && s.runnerAlive && |s.kept| == |s.decoded|
    && s.headers == [] && s.dest == []
  }

  lemma ImageDelivered<I, H>(c: Config, start: State<I, H>, run: seq<Label<I, H>>, image: I)
    returns (run': seq<Label<I, H>>)
    requires c.destCapacity > 0 && ValidRun(c, start, run) && Quiet(Run(c, start, run))
    ensures ValidRun(c, start, run') && Quiet(Run(c, start, run'))
    ensures Run(c, start, run').popped == Run(c, start, run).popped + [Image(image, None)]
  {
    var l: Label<I, H> := DecoderYield(image);
    var s := Run(c, start, run);
    var s1 := Apply(c, s, l);
    var more := RunCons(c, Apply(c, s1, DecoderEnqueue), ConsumerPop, []);
    more := RunCons(c, s1, DecoderEnqueue, more);
    more := RunCons(c, s, l, more);
    Concat(c, start, run, more);
    run' := run + more;
  }

  lemma {:induction false} ImagesDelivered<I, H>(c: Config, images: seq<I>) returns (run: seq<Label<I, H>>)
    requires c.destCapacity > 0
    ensures ValidRun(c, Init(), run) && Quiet(Run(c, Init(), run))
    ensures Run(c, Init(), run).popped == seq(|images|, i requires 0 <= i < |images| => Image(images[i], None))
  {
    if images == [] {
      run := [];
    } else {
      var n := |images| - 1;
      run := ImagesDelivered(c, images[..n]);
      run := ImageDelivered(c, Init(), run, images[n]);
    }
  }

  lemma EosDelivered<I, H>(c: Config, s: State<I, H>) returns (run: seq<Label<I, H>>)
    requires c.destCapacity > 0 && Quiet(s)
    ensures ValidRun(c, s, run) && Run(c, s, run).pc.Finished? && Run(c, s, run).popped == s.popped + [Eos]
  {
    var timedOut: Label<I, H> := WorkPull(None);
    var s1 := s.(pc := Pull);
    var s2 := s.(pc := SignalEos);
    var s3 := s.(pc := DestroyRunner);
    var s4 := s.(pc := PushEos, runnerAlive := false);
    var s5 := s4.(pc := Finished, dest := s.dest + [Eos], enqueued := s.enqueued + [Eos]);
    assert Apply(c, s4, WorkPushEos) == s5 && Apply(c, s3, WorkDestroyRunner) == s4;
    run := RunCons(c, s5, ConsumerPop, []);
    run := RunCons(c, s4, WorkPushEos, run);
    run := RunCons(c, s3, WorkDestroyRunner, run);
    run := RunCons(c, s2, WorkSignalEos, run);
    run := RunCons(c, s1, timedOut, run);
    run := RunCons(c, s, WorkTop, run);
  }

  /** The safety claims are not vacuous: any images, and then the EOS, can reach a consumer. */
  lemma SomeRunDelivers<I, H>(c: Config, images: seq<I>) returns (run: seq<Label<I, H>>)
    requires c.destCapacity > 0
    ensures ValidRun(c, Init(), run) && Run(c, Init(), run).pc.Finished?
    ensures Run(c, Init(), run).popped ==
            seq(|images|, i requires 0 <= i < |images| => Image(images[i], None)) + [Eos]
  {
    run := ImagesDelivered(c, images);
    var more := EosDelivered(c, Run(c, Init(), run));
    Concat(c, Init(), run, more);
    run := run + more;
  }
}
