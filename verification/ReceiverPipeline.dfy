/** The packet receiver queue: a background worker that moves packets from a PacketReceiver into a
    bounded queue, and a consumer that pops them and may let go of its share at any time. The queue
    is atomic here; QueuedPipeline shows that the real one makes no difference. The worker sees only
    the replies to its Receives, so they may be any sequence of replies. */
module ReceiverPipeline {
  import opened BoundedFifo
  import opened PacketReceivers

  /** What travels through the queue: a packet of the server, the default-constructed packet of a
      Receive that succeeded without reading one, or the EOS packet the worker makes. */
  datatype Item<P> = FromServer(p: P) | Blank | SyntheticEos

  datatype Pc = Top | Receiving | Pushing | PushingEos | Exited

  /** replies(n) is what the n-th Receive gives. */
  datatype Config<P> = Config(capacity: int, replies: nat -> Reply<P>)
  {
    predicate Valid() { capacity > 0 }
  }

  /** A pipeline on a packet receiver in any mode. */
  function OnReceiver<P>(capacity: int, mode: Mode, server: Server<P>): Config<P> {
    Config(capacity, Replies(mode, server))
  }

  function Replies<P>(mode: Mode, server: Server<P>): nat -> Reply<P> {
    (n: nat) => NthReplyOf(mode, server, n)
  }

  datatype State<P> = State(
    q: seq<Item<P>>,
    pc: Pc,
    held: Option<Item<P>>,      // the worker's pointer `p`
    consumerHolds: bool,        // use_count() > 1
    pops: seq<Item<P>>,
    calls: nat,                 // Receives so far
    eosPushed: bool
  )

  datatype Label = WorkerStep | ConsumerPop | ConsumerRelease

  function Init<P>(): State<P> {
    State([], Top, None, true, [], 0, false)
  }

  function ItemOf<P>(r: Reply<P>): Item<P> {
    if r.packet.Some? then FromServer(r.packet.value) else Blank
  }

  /** What the worker does with the reply of a Receive. */
  function AfterReply<P>(s: State<P>, reply: Reply<P>): State<P> {
    if reply.status != OK then s.(pc := PushingEos) else s.(held := Some(ItemOf(reply)), pc := Pushing)
  }

  predicate Enabled<P>(c: Config<P>, s: State<P>, l: Label) {
    match l
    case WorkerStep =>
      && (s.pc == Pushing ==> s.held.Some?)
      && (s.pc == PushingEos ==> !IsFull(c.capacity, s.q))  // the blocking Emplace
      && s.pc != Exited
    case ConsumerPop => s.consumerHolds && s.q != []
    case ConsumerRelease => s.consumerHolds
  }

  function ApplyWorker<P>(c: Config<P>, s: State<P>): State<P>
    requires Enabled(c, s, WorkerStep)
  {
    match s.pc
    case Top => s.(pc := if !s.consumerHolds then Exited else if s.held == None then Receiving else Pushing)
    case Receiving => AfterReply(s.(calls := s.calls + 1), c.replies(s.calls))
    case Pushing =>
      // TryPush: a full queue times out and leaves `p` alone
      if IsFull(c.capacity, s.q) then s.(pc := Top)
      else s.(q := s.q + [s.held.value], held := None, pc := Top)
    case PushingEos => s.(q := s.q + [SyntheticEos], eosPushed := true, pc := Exited)
  }

  function Apply<P>(c: Config<P>, s: State<P>, l: Label): State<P>
    requires Enabled(c, s, l)
  {
    match l
    case ConsumerPop => s.(q := s.q[1..], pops := s.pops + [s.q[0]])
    case ConsumerRelease => s.(consumerHolds := false)
    case WorkerStep => ApplyWorker(c, s)
  }

  ghost predicate ValidRun<P>(c: Config<P>, s: State<P>, run: seq<Label>)
    decreases run
  {
    run == [] || (Enabled(c, s, run[0]) && ValidRun(c, Apply(c, s, run[0]), run[1..]))
  }

  ghost function Run<P>(c: Config<P>, s: State<P>, run: seq<Label>): State<P>
    requires ValidRun(c, s, run)
    decreases run
  {
    if run == [] then s else Run(c, Apply(c, s, run[0]), run[1..])
  }

  // ----- Ordered and gapless -----

  /** The items of the first `n` Receives. */
  function Items<P>(replies: nat -> Reply<P>, n: nat): (items: seq<Item<P>>)
    ensures |items| == n
  {
    seq(n, i requires 0 <= i => ItemOf(replies(i)))
  }

  ghost predicate AllSucceed<P>(replies: nat -> Reply<P>, n: nat) {
    forall i | 0 <= i < n :: replies(i).status == OK
  }

  /** Receives that have yielded an item; the last one failed if the worker is past the loop. */
  function Yielded<P>(s: State<P>): int {
    if s.eosPushed || s.pc == PushingEos then s.calls - 1 else s.calls
  }

  function Held<P>(s: State<P>): seq<Item<P>> {
    if s.held == None then [] else [s.held.value]
  }

  function Eos<P>(s: State<P>): seq<Item<P>> {
    if s.eosPushed then [SyntheticEos] else []
  }

  ghost predicate Inv<P>(c: Config<P>, s: State<P>) {
    && 0 <= Yielded(s)
    && AllSucceed(c.replies, Yielded(s))
    && (Yielded(s) < s.calls ==> c.replies(Yielded(s)).status != OK && s.held == None)
    && (s.pc == Receiving ==> s.held == None)
    && (s.pc == Pushing ==> s.held.Some?)
    && (s.eosPushed ==> s.pc == Exited)
    && (IsLimited(c.capacity) ==> |s.q| <= c.capacity)
    // received == popped, then queued, then held; a synthetic EOS comes after everything else
    && s.pops + s.q + Held(s) == Items(c.replies, Yielded(s)) + Eos(s)
  }

  lemma ReceiveKeepsInv<P>(c: Config<P>, s: State<P>)
    requires Inv(c, s) && s.pc == Receiving
    ensures Inv(c, ApplyWorker(c, s))
  {
    var reply := c.replies(s.calls);
    var s' := ApplyWorker(c, s);
    assert Items(c.replies, s.calls + 1) == Items(c.replies, s.calls) + [ItemOf(reply)];
    if reply.status == OK {
      assert s'.pops + s'.q + Held(s') == s.pops + s.q + Held(s) + [ItemOf(reply)];
    } else {
      assert s'.pops + s'.q + Held(s') == s.pops + s.q + Held(s);
    }
  }

  lemma StepKeepsInv<P>(c: Config<P>, s: State<P>, l: Label)
    requires c.Valid() && Inv(c, s) && Enabled(c, s, l)
    ensures Inv(c, Apply(c, s, l))
  {
    var s' := Apply(c, s, l);
    if l == WorkerStep && s.pc == Receiving {
      ReceiveKeepsInv(c, s);
    } else if l == WorkerStep && s.pc == PushingEos {
      assert s'.pops + s'.q + Held(s') == (s.pops + s.q + Held(s)) + [SyntheticEos];
    } else {
      assert s'.pops + s'.q + Held(s') == s.pops + s.q + Held(s);
    }
  }

  lemma {:induction false} RunKeepsInv<P>(c: Config<P>, s: State<P>, run: seq<Label>)
    requires c.Valid() && Inv(c, s) && ValidRun(c, s, run)
    ensures Inv(c, Run(c, s, run))
    decreases run
  {
    if run == [] {
    } else {
      StepKeepsInv(c, s, run[0]);
      RunKeepsInv(c, Apply(c, s, run[0]), run[1..]);
    }
  }

  /** Ordered and gapless in every interleaving, for any replies: what was popped, what is queued and
      what the worker holds are, in this order, exactly the items of the successful Receives; at most
      one synthetic EOS exists, it is the last item, and a Receive has failed before it. */
  lemma OrderedAndGapless<P>(c: Config<P>, run: seq<Label>)
    requires c.Valid() && ValidRun(c, Init(), run)
    ensures var s := Run(c, Init(), run);
            && 0 <= Yielded(s) <= s.calls
            && s.pops + s.q + Held(s) == Items(c.replies, Yielded(s)) + Eos(s)
            && SyntheticEos !in Items(c.replies, Yielded(s))
            && (s.eosPushed ==> s.pc == Exited && c.replies(s.calls - 1).status != OK)
  {
    RunKeepsInv(c, Init(), run);
  }

  /** If the n-th Receive is the first to fail, everything delivered is a prefix of the items before
      it and the EOS, and a drained queue that ended in the synthetic EOS has delivered all of them. */
  lemma DeliveredIsPrefix<P>(c: Config<P>, run: seq<Label>, n: nat)
    requires c.Valid() && ValidRun(c, Init(), run)
    requires AllSucceed(c.replies, n) && c.replies(n).status != OK
    ensures var s := Run(c, Init(), run);
            var all := Items(c.replies, n);
            && s.pops <= all + [SyntheticEos]
            && (s.eosPushed && s.q == [] ==> s.pops == all + [SyntheticEos])
  {
    RunKeepsInv(c, Init(), run);
    var s := Run(c, Init(), run);
    var all := Items(c.replies, n);
    assert Yielded(s) <= n;
    assert Items(c.replies, Yielded(s)) == all[..Yielded(s)];
    var whole := s.pops + s.q + Held(s);
    if s.eosPushed {
      assert Yielded(s) == n;
      assert all[..n] == all;
      assert s.pops == whole[..|s.pops|];
    } else {
      assert whole == all[..Yielded(s)];
      assert s.pops == whole[..|s.pops|];
    }
  }

  /** In a streaming mode, if the server does not end its stream with OK, these are the packets of the
      stream. */
  lemma DeliveredIsPrefixOfStream<P>(capacity: int, mode: Mode, server: Server<P>, run: seq<Label>)
    requires capacity > 0 && mode != UnaryReceive
    requires ValidRun(OnReceiver(capacity, mode, server), Init(), run)
    requires Source(mode, server.streaming, server.replay).final != OK
    ensures var s := Run(OnReceiver(capacity, mode, server), Init(), run);
            var packets := Source(mode, server.streaming, server.replay).packets;
            var all := seq(|packets|, i requires 0 <= i < |packets| => FromServer(packets[i]));
            && s.pops <= all + [SyntheticEos]
            && (s.eosPushed && s.q == [] ==> s.pops == all + [SyntheticEos])
  {
    var c := OnReceiver(capacity, mode, server);
    var packets := Source(mode, server.streaming, server.replay).packets;
    forall i | 0 <= i < |packets|
      ensures c.replies(i).status == OK && Items(c.replies, |packets|)[i] == FromServer(packets[i])
    {
      assert c.replies(i) == NthReplyOf(mode, server, i);
    }
    assert Items(c.replies, |packets|) == seq(|packets|, i requires 0 <= i < |packets| => FromServer(packets[i]));
    DeliveredIsPrefix(c, run, |packets|);
  }

  /** In unary mode, if the first n RPCs answer with packets and the next one does not, these are those
      packets. */
  lemma DeliveredIsPrefixOfAnswers<P>(capacity: int, server: Server<P>, run: seq<Label>, packets: seq<P>)
    requires capacity > 0
    requires ValidRun(OnReceiver(capacity, UnaryReceive, server), Init(), run)
    requires forall i | 0 <= i < |packets| :: server.unary(i) == HasPacket(packets[i])
    requires !server.unary(|packets|).HasPacket?
    ensures var s := Run(OnReceiver(capacity, UnaryReceive, server), Init(), run);
            var all := seq(|packets|, i requires 0 <= i < |packets| => FromServer(packets[i]));
            && s.pops <= all + [SyntheticEos]
            && (s.eosPushed && s.q == [] ==> s.pops == all + [SyntheticEos])
  {
    var c := OnReceiver(capacity, UnaryReceive, server);
    forall i | 0 <= i < |packets|
      ensures c.replies(i).status == OK && Items(c.replies, |packets|)[i] == FromServer(packets[i])
    {
      assert c.replies(i) == NthReplyOf(UnaryReceive, server, i);
    }
    assert c.replies(|packets|) == NthReplyOf(UnaryReceive, server, |packets|);
    assert Items(c.replies, |packets|) == seq(|packets|, i requires 0 <= i < |packets| => FromServer(packets[i]));
    DeliveredIsPrefix(c, run, |packets|);
  }

  // ----- Every item can be delivered; a stream that ends with OK yields blanks -----

  lemma {:induction false} RunConcat<P>(c: Config<P>, s: State<P>, run: seq<Label>, more: seq<Label>)
    requires ValidRun(c, s, run) && ValidRun(c, Run(c, s, run), more)
    ensures ValidRun(c, s, run + more)
    ensures Run(c, s, run + more) == Run(c, Run(c, s, run), more)
    decreases run
  {
    if run == [] {
      assert run + more == more;
    } else {
      RunConcat(c, Apply(c, s, run[0]), run[1..], more);
      assert (run + more)[1..] == run[1..] + more;
    }
  }

  lemma RunCons<P>(c: Config<P>, s: State<P>, l: Label, rest: seq<Label>) returns (run: seq<Label>)
    requires Enabled(c, s, l) && ValidRun(c, Apply(c, s, l), rest)
    ensures run == [l] + rest && ValidRun(c, s, run) && Run(c, s, run) == Run(c, Apply(c, s, l), rest)
  {
    run := [l] + rest;
    assert run[1..] == rest;
  }

  /** The worker has nothing in hand and the consumer has kept up. */
  ghost predicate Idle<P>(s: State<P>) {
    s.pc == Top && s.held == None && s.q == [] && s.consumerHolds
  }

  /** One round of the worker's loop, then one pop. */
  lemma RoundDelivers<P>(c: Config<P>, s: State<P>) returns (run: seq<Label>)
    requires c.Valid() && Idle(s) && c.replies(s.calls).status == OK
    ensures ValidRun(c, s, run) && |run| == 4
    ensures var s' := Run(c, s, run);
            && Idle(s') && s'.calls == s.calls + 1
            && s'.pops == s.pops + [ItemOf(c.replies(s.calls))]
  {
    var s1 := Apply(c, s, WorkerStep);
    var s2 := Apply(c, s1, WorkerStep);
    var s3 := Apply(c, s2, WorkerStep);
    run := RunCons(c, s3, ConsumerPop, []);
    run := RunCons(c, s2, WorkerStep, run);
    run := RunCons(c, s1, WorkerStep, run);
    run := RunCons(c, s, WorkerStep, run);
  }

  /** For every `n` Receives that succeed there is a run that delivers exactly their items. */
  lemma {:induction false} SomeRunDelivers<P>(c: Config<P>, n: nat) returns (run: seq<Label>)
    requires c.Valid() && AllSucceed(c.replies, n)
    ensures ValidRun(c, Init(), run)
    ensures var s := Run(c, Init(), run); Idle(s) && s.calls == n && s.pops == Items(c.replies, n)
  {
    if n == 0 {
      run := [];
    } else {
      var before := SomeRunDelivers(c, n - 1);
      var round := RoundDelivers(c, Run(c, Init(), before));
      RunConcat(c, Init(), before, round);
      run := before + round;
      assert Items(c.replies, n) == Items(c.replies, n - 1) + [ItemOf(c.replies(n - 1))];
    }
  }

  /** A consumer can be handed a packet that the server never sent if and only if some Receive succeeds
      without a packet before any fails. */
  lemma BlankDeliveredIff<P>(c: Config<P>)
    requires c.Valid()
    ensures (exists run :: ValidRun(c, Init(), run) && Blank in Run(c, Init(), run).pops)
            <==> exists n: nat :: AllSucceed(c.replies, n) && c.replies(n) == Reply(OK, None)
  {
    if n: nat :| AllSucceed(c.replies, n) && c.replies(n) == Reply(OK, None) {
      assert AllSucceed(c.replies, n + 1);
      var run := SomeRunDelivers(c, n + 1);
      assert Run(c, Init(), run).pops[n] == Blank;
    }
    forall run | ValidRun(c, Init(), run) && Blank in Run(c, Init(), run).pops
      ensures exists n: nat :: AllSucceed(c.replies, n) && c.replies(n) == Reply(OK, None)
    {
      BlankNeedsReply(c, run);
    }
  }

  lemma BlankNeedsReply<P>(c: Config<P>, run: seq<Label>)
    requires c.Valid() && ValidRun(c, Init(), run) && Blank in Run(c, Init(), run).pops
    ensures exists n: nat :: AllSucceed(c.replies, n) && c.replies(n) == Reply(OK, None)
  {
    RunKeepsInv(c, Init(), run);
    var s := Run(c, Init(), run);
    var n :| 0 <= n < |s.pops| && s.pops[n] == Blank;
    assert (s.pops + s.q + Held(s))[n] == Blank;
    assert Items(c.replies, Yielded(s))[n] == Blank;
    assert AllSucceed(c.replies, n);
  }

  /** On a packet receiver that is: in a streaming mode, if and only if the server ends its stream with
      OK; in unary mode never. */
  lemma BlankDeliveredIffStreamEndsOk<P>(capacity: int, mode: Mode, server: Server<P>)
    requires capacity > 0
    ensures var c := OnReceiver(capacity, mode, server);
            (exists run :: ValidRun(c, Init(), run) && Blank in Run(c, Init(), run).pops)
            <==> mode != UnaryReceive && Source(mode, server.streaming, server.replay).final == OK
  {
    var c := OnReceiver(capacity, mode, server);
    BlankDeliveredIff(c);
    var source := Source(mode, server.streaming, server.replay);
    if mode != UnaryReceive && source.final == OK {
      assert AllSucceed(c.replies, |source.packets|) && c.replies(|source.packets|) == Reply(OK, None);
    }
  }

  // ----- After the consumer has let go -----

  /** The worker will come to push its EOS to a queue that is full for good. */
  predicate WillBlock<P>(c: Config<P>, s: State<P>) {
    IsFull(c.capacity, s.q) && (s.pc == PushingEos || (s.pc == Receiving && c.replies(s.calls).status != OK))
  }

  lemma WorkerMovesOn<P>(c: Config<P>, s: State<P>, l: Label)
    requires Inv(c, s) && !s.consumerHolds && s.pc != Exited && Enabled(c, s, l)
    ensures l == WorkerStep
    ensures var s' := Apply(c, s, l);
            && !s'.consumerHolds
            && (WillBlock(c, s) ==> WillBlock(c, s') && s'.pc != Exited)
            && (!WillBlock(c, s) ==> !WillBlock(c, s'))
            && StepsLeft(s'.pc) < StepsLeft(s.pc)
  {
  }

  /** At most so many steps until the worker exits or blocks. */
  function StepsLeft(pc: Pc): nat {
    match pc
    case Exited => 0
    case Top => 1
    case PushingEos => 1
    case Pushing => 2
    case Receiving => 3
  }

  lemma {:induction false} BlockedForever<P>(c: Config<P>, s: State<P>, run: seq<Label>)
    requires c.Valid() && Inv(c, s) && !s.consumerHolds && WillBlock(c, s) && ValidRun(c, s, run)
    ensures Run(c, s, run).pc != Exited
    decreases run
  {
    if run == [] {
    } else {
      WorkerMovesOn(c, s, run[0]);
      StepKeepsInv(c, s, run[0]);
      BlockedForever(c, Apply(c, s, run[0]), run[1..]);
    }
  }

  /** Otherwise the worker exits by itself. */
  lemma {:induction false} WorkerExits<P>(c: Config<P>, s: State<P>) returns (run: seq<Label>)
    requires c.Valid() && Inv(c, s) && !s.consumerHolds && !WillBlock(c, s)
    ensures ValidRun(c, s, run) && |run| <= StepsLeft(s.pc) && Run(c, s, run).pc == Exited
    decreases StepsLeft(s.pc)
  {
    if s.pc == Exited {
      run := [];
    } else {
      WorkerMovesOn(c, s, WorkerStep);
      StepKeepsInv(c, s, WorkerStep);
      run := WorkerExits(c, Apply(c, s, WorkerStep));
      run := RunCons(c, s, WorkerStep, run);
    }
  }

  lemma {:induction false} RunsAreShort<P>(c: Config<P>, s: State<P>, run: seq<Label>)
    requires c.Valid() && Inv(c, s) && !s.consumerHolds && ValidRun(c, s, run)
    ensures |run| <= StepsLeft(s.pc)
    decreases run
  {
    if run == [] {
    } else {
      assert s.pc != Exited;
      WorkerMovesOn(c, s, run[0]);
      StepKeepsInv(c, s, run[0]);
      RunsAreShort(c, Apply(c, s, run[0]), run[1..]);
    }
  }

  /** Once the consumer has let go, the worker never exits if and only if the queue is full and it is
      pushing its EOS or about to learn of a failure; otherwise it exits, and in any case it makes at
      most three more steps. */
  lemma AbandonedWorkerBlocksIff<P>(c: Config<P>, s: State<P>)
    requires c.Valid() && Inv(c, s) && !s.consumerHolds
    ensures (forall run :: ValidRun(c, s, run) ==> Run(c, s, run).pc != Exited) <==> WillBlock(c, s)
    ensures forall run :: ValidRun(c, s, run) ==> |run| <= 3
  {
    forall run | ValidRun(c, s, run)
      ensures |run| <= 3 && (WillBlock(c, s) ==> Run(c, s, run).pc != Exited)
    {
      RunsAreShort(c, s, run);
      if WillBlock(c, s) {
        BlockedForever(c, s, run);
      }
    }
    if !WillBlock(c, s) {
      var run := WorkerExits(c, s);
    }
  }

  /** Such a worker is reachable: with room for one item, the first Receive fills the queue, the second
      is under way when the consumer lets go, and it fails. */
  lemma SomeWorkerBlocksForever<P>(c: Config<P>) returns (run: seq<Label>)
    requires c.capacity == 1 && c.replies(0).status == OK && c.replies(1).status != OK
    ensures ValidRun(c, Init(), run)
    ensures var s := Run(c, Init(), run);
            && s.pc == PushingEos && !s.consumerHolds && IsFull(c.capacity, s.q)
            && forall l :: !Enabled(c, s, l)
  {
    var s0: State<P> := Init();
    var s1 := Apply(c, s0, WorkerStep);
    var s2 := Apply(c, s1, WorkerStep);
    var s3 := Apply(c, s2, WorkerStep);
    var s4 := Apply(c, s3, WorkerStep);
    var s5 := Apply(c, s4, ConsumerRelease);
    run := RunCons(c, s5, WorkerStep, []);
    run := RunCons(c, s4, ConsumerRelease, run);
    run := RunCons(c, s3, WorkerStep, run);
    run := RunCons(c, s2, WorkerStep, run);
    run := RunCons(c, s1, WorkerStep, run);
    run := RunCons(c, s0, WorkerStep, run);
  }

  // ----- The worker's loop is the worker -----

  /** What a consumer does while the worker is elsewhere; a step that it cannot take does nothing. */
  function ByConsumer<P>(c: Config<P>, s: State<P>, steps: seq<Label>): State<P> {
    if steps == [] then s
    else
      var s1, l := ByConsumer(c, s, steps[..|steps| - 1]), steps[|steps| - 1];
      if l != WorkerStep && Enabled(c, s1, l) then Apply(c, s1, l) else s1
  }

  /** One turn: the consumer takes these steps, and then the worker takes one if it can. */
  function Turned<P>(c: Config<P>, s: State<P>, steps: seq<Label>): State<P> {
    var s1 := ByConsumer(c, s, steps);
    if Enabled(c, s1, WorkerStep) then Apply(c, s1, WorkerStep) else s1
  }

  /** The pipeline after these turns: `script[i]` is what the consumer does before the i-th of them. */
  function Scripted<P>(c: Config<P>, script: seq<seq<Label>>): State<P> {
    if script == [] then Init()
    else Turned(c, Scripted(c, script[..|script| - 1]), script[|script| - 1])
  }

  lemma RunSnoc<P>(c: Config<P>, s: State<P>, run: seq<Label>, l: Label)
    requires ValidRun(c, s, run) && Enabled(c, Run(c, s, run), l)
    ensures ValidRun(c, s, run + [l]) && Run(c, s, run + [l]) == Apply(c, Run(c, s, run), l)
    decreases run
  {
    if run == [] {
      assert run + [l] == [l];
    } else {
      RunSnoc(c, Apply(c, s, run[0]), run[1..], l);
      assert (run + [l])[0] == run[0] && (run + [l])[1..] == run[1..] + [l];
    }
  }

  lemma {:induction false} ByConsumerIsRun<P>(c: Config<P>, start: State<P>, run: seq<Label>, steps: seq<Label>)
    returns (run': seq<Label>)
    requires ValidRun(c, start, run)
    ensures ValidRun(c, start, run') && Run(c, start, run') == ByConsumer(c, Run(c, start, run), steps)
  {
    run' := run;
    if steps == [] {
    } else {
      run' := ByConsumerIsRun(c, start, run, steps[..|steps| - 1]);
      var l := steps[|steps| - 1];
      if l != WorkerStep && Enabled(c, Run(c, start, run'), l) {
        RunSnoc(c, start, run', l);
        run' := run' + [l];
      }
    }
  }

  /** Whatever turns a consumer and the worker take, they are a run of the pipeline. */
  lemma {:induction false} ScriptedIsRun<P>(c: Config<P>, script: seq<seq<Label>>) returns (run: seq<Label>)
    ensures ValidRun(c, Init(), run) && Run(c, Init(), run) == Scripted(c, script)
  {
    if script == [] {
      run := [];
    } else {
      run := ScriptedIsRun(c, script[..|script| - 1]);
      run := ByConsumerIsRun(c, Init(), run, script[|script| - 1]);
      if Enabled(c, Run(c, Init(), run), WorkerStep) {
        RunSnoc(c, Init(), run, WorkerStep);
        run := run + [WorkerStep];
      }
    }
  }

  /** And no run is forgotten: each one consists of such turns and the consumer's steps after them. */
  lemma {:induction false} EveryRunIsScripted<P>(c: Config<P>, run: seq<Label>)
    returns (script: seq<seq<Label>>, rest: seq<Label>)
    requires ValidRun(c, Init(), run)
    ensures ByConsumer(c, Scripted(c, script), rest) == Run(c, Init(), run)
  {
    if run == [] {
      script, rest := [], [];
    } else {
      var before, l := run[..|run| - 1], run[|run| - 1];
      assert run == before + [l];
      LastStep(c, Init(), before, l);
      script, rest := EveryRunIsScripted(c, before);
      if l == WorkerStep {
        assert (script + [rest])[..|script|] == script;
        script, rest := script + [rest], [];
      } else {
        assert (rest + [l])[..|rest|] == rest;
        rest := rest + [l];
      }
    }
  }

  lemma LastStep<P>(c: Config<P>, s: State<P>, run: seq<Label>, l: Label)
    requires ValidRun(c, s, run + [l])
    ensures ValidRun(c, s, run) && Enabled(c, Run(c, s, run), l)
    ensures Run(c, s, run + [l]) == Apply(c, Run(c, s, run), l)
    decreases run
  {
    if run == [] {
      assert run + [l] == [l];
    } else {
      assert (run + [l])[0] == run[0] && (run + [l])[1..] == run[1..] + [l];
      LastStep(c, Apply(c, s, run[0]), run[1..], l);
    }
  }

  lemma {:induction false} ConsumerLeavesWorker<P>(c: Config<P>, s: State<P>, steps: seq<Label>)
    ensures var s' := ByConsumer(c, s, steps);
            && s'.pc == s.pc && s'.held == s.held && s'.calls == s.calls && s'.eosPushed == s.eosPushed
            && (!s.consumerHolds ==> !s'.consumerHolds)
  {
    if steps == [] {
    } else {
      ConsumerLeavesWorker(c, s, steps[..|steps| - 1]);
    }
  }

  /** The worker's variables and what it shares with the consumer are those of this pipeline state. */
  ghost predicate Mirrors<P>(s: State<P>, pc: Pc, held: Option<Item<P>>, calls: nat, q: seq<Item<P>>, holds: bool) {
    s.pc == pc && s.held == held && s.calls == calls && s.q == q && s.consumerHolds == holds
  }

  /** trace(i) is the pipeline before turn i. */
  ghost predicate IsTrace<P>(c: Config<P>, script: seq<seq<Label>>, trace: nat -> State<P>) {
    forall i | 0 <= i < |script| :: trace(i + 1) == Turned(c, trace(i), script[i])
  }

  ghost predicate At<P>(trace: nat -> State<P>, used: nat, pc: Pc, held: Option<Item<P>>, calls: nat,
                        q: seq<Item<P>>, holds: bool) {
    Mirrors(trace(used), pc, held, calls, q, holds)
  }

  /** The consumer's steps on what it shares with the worker. */
  method Meanwhile<P>(steps: seq<Label>, q: seq<Item<P>>, holds: bool, ghost c: Config<P>, ghost s: State<P>)
    returns (q': seq<Item<P>>, holds': bool)
    requires s.q == q && s.consumerHolds == holds
    ensures var s' := ByConsumer(c, s, steps);
            Mirrors(s', s.pc, s.held, s.calls, q', holds') && s'.eosPushed == s.eosPushed
  {
    q', holds' := q, holds;
    for i := 0 to |steps|
      invariant ByConsumer(c, s, steps[..i]).q == q' && ByConsumer(c, s, steps[..i]).consumerHolds == holds'
    {
      assert steps[..i + 1][..i] == steps[..i];
      if holds' {
        match steps[i]
        case ConsumerPop => if q' != [] { q' := q'[1..]; }
        case ConsumerRelease => holds' := false;
        case WorkerStep =>
      }
    }
    assert steps[..|steps|] == steps;
    ConsumerLeavesWorker(c, s, steps);
  }

  /** What the worker finds at its next turn. */
  method Before<P>(script: seq<seq<Label>>, used: nat, q: seq<Item<P>>, holds: bool, ghost c: Config<P>,
                   ghost trace: nat -> State<P>)
    returns (q': seq<Item<P>>, holds': bool)
    requires used < |script| && IsTrace(c, script, trace)
    requires trace(used).q == q && trace(used).consumerHolds == holds
    ensures var s1 := ByConsumer(c, trace(used), script[used]);
            && Mirrors(s1, trace(used).pc, trace(used).held, trace(used).calls, q', holds')
            && trace(used + 1) == if Enabled(c, s1, WorkerStep) then Apply(c, s1, WorkerStep) else s1
  {
    assert trace(used + 1) == Turned(c, trace(used), script[used]);
    q', holds' := Meanwhile(script[used], q, holds, c, trace(used));
  }

  /** The test of the reference count. */
  method TestCount<P>(script: seq<seq<Label>>, used: nat, held: Option<Item<P>>, q: seq<Item<P>>, holds: bool,
                      ghost c: Config<P>, ghost trace: nat -> State<P>, ghost calls: nat)
    returns (exited: bool, q': seq<Item<P>>, holds': bool)
    requires used < |script| && IsTrace(c, script, trace) && At(trace, used, Top, held, calls, q, holds)
    ensures At(trace, used + 1, if exited then Exited else if held == None then Receiving else Pushing,
               held, calls, q', holds')
  {
    q', holds' := Before(script, used, q, holds, c, trace);
    exited := !holds';
  }

  method ReceiveNext<P>(receiver: PacketReceiver<P>, script: seq<seq<Label>>, used: nat, q: seq<Item<P>>, holds: bool,
                        ghost c: Config<P>, ghost trace: nat -> State<P>)
    returns (held: Option<Item<P>>, q': seq<Item<P>>, holds': bool)
    requires receiver.Valid() && c.replies == Replies(receiver.mode, receiver.server)
    requires used < |script| && IsTrace(c, script, trace) && At(trace, used, Receiving, None, receiver.calls, q, holds)
    modifies receiver
    ensures receiver.Valid()
    ensures At(trace, used + 1, if held == None then PushingEos else Pushing, held, receiver.calls, q', holds')
  {
    q', holds' := Before(script, used, q, holds, c, trace);
    var reply := receiver.Receive();
    held := if reply.status != OK then None else Some(ItemOf(reply));
  }

  /** The blocking Emplace of the EOS: it waits for as long as the queue is full. */
  method PushEos<P>(script: seq<seq<Label>>, start: nat, q: seq<Item<P>>, holds: bool, capacity: int,
                    ghost c: Config<P>, ghost trace: nat -> State<P>, ghost calls: nat)
    returns (q': seq<Item<P>>, holds': bool, exited: bool, used: nat)
    requires capacity == c.capacity && start <= |script| && IsTrace(c, script, trace)
    requires At(trace, start, PushingEos, None, calls, q, holds)
    ensures start <= used <= |script| && (exited || used == |script|)
    ensures At(trace, used, if exited then Exited else PushingEos, None, calls, q', holds')
  {
    q', holds', exited, used := q, holds, false, start;
    while used < |script| && !exited
      invariant start <= used <= |script|
      invariant At(trace, used, if exited then Exited else PushingEos, None, calls, q', holds')
      decreases |script| - used, !exited
    {
      q', holds' := Before(script, used, q', holds', c, trace);
      used := used + 1;
      if !(capacity != UNLIMITED && |q'| >= capacity) {
        q', exited := q' + [SyntheticEos], true;
      }
    }
  }

  /** A Receive and, if it fails, the EOS. */
  method ReceiveOrEnd<P>(receiver: PacketReceiver<P>, script: seq<seq<Label>>, start: nat, q: seq<Item<P>>, holds: bool,
                         capacity: int, ghost c: Config<P>, ghost trace: nat -> State<P>)
    returns (exited: bool, used: nat, held: Option<Item<P>>, q': seq<Item<P>>, holds': bool, ghost pc: Pc)
    requires receiver.Valid() && c == Config(capacity, Replies(receiver.mode, receiver.server))
    requires start < |script| && IsTrace(c, script, trace) && At(trace, start, Receiving, None, receiver.calls, q, holds)
    modifies receiver
    ensures receiver.Valid() && start < used <= |script| && At(trace, used, pc, held, receiver.calls, q', holds')
    ensures if held == None then (exited || used == |script|) && (exited <==> pc == Exited) else !exited && pc == Pushing
  {
    held, q', holds' := ReceiveNext(receiver, script, start, q, holds, c, trace);
    exited, used, pc := false, start + 1, Pushing;
    if held == None {
      q', holds', exited, used := PushEos(script, used, q', holds', capacity, c, trace, receiver.calls);
      pc := if exited then Exited else PushingEos;
    }
  }

  /** TryPush of what the worker holds: a full queue leaves it in its hands. */
  method PushHeld<P>(script: seq<seq<Label>>, used: nat, held: Option<Item<P>>, q: seq<Item<P>>, holds: bool,
                     capacity: int, ghost c: Config<P>, ghost trace: nat -> State<P>, ghost calls: nat)
    returns (held': Option<Item<P>>, q': seq<Item<P>>, holds': bool)
    requires capacity == c.capacity && held.Some?
    requires used < |script| && IsTrace(c, script, trace) && At(trace, used, Pushing, held, calls, q, holds)
    ensures At(trace, used + 1, Top, held', calls, q', holds')
  {
    q', holds' := Before(script, used, q, holds, c, trace);
    held' := held;
    if !(capacity != UNLIMITED && |q'| >= capacity) {
      q', held' := q' + [held.value], None;
    }
  }

  /** After any turns: what was pushed and what the worker holds are the items of its successful
      Receives, and it exits only after its EOS or when the consumer has let go. */
  ghost predicate InOrder<P>(c: Config<P>, s: State<P>) {
    && 0 <= Yielded(s) && AllSucceed(c.replies, Yielded(s))
    && s.pops + s.q + Held(s) == Items(c.replies, Yielded(s)) + Eos(s)
    && (s.eosPushed ==> s.pc == Exited && s.calls > 0 && c.replies(s.calls - 1).status != OK)
    && (s.pc == Exited && !s.eosPushed ==> !s.consumerHolds)
  }

  lemma {:induction false} ExitHasAReason<P>(c: Config<P>, script: seq<seq<Label>>)
    ensures var s := Scripted(c, script);
            s.pc == Exited && !s.eosPushed ==> !s.consumerHolds
  {
    if script == [] {
    } else {
      ExitHasAReason(c, script[..|script| - 1]);
      ConsumerLeavesWorker(c, Scripted(c, script[..|script| - 1]), script[|script| - 1]);
    }
  }

  lemma ScriptedInOrder<P>(c: Config<P>, script: seq<seq<Label>>)
    requires c.Valid()
    ensures InOrder(c, Scripted(c, script))
  {
    var run := ScriptedIsRun(c, script);
    RunKeepsInv(c, Init(), run);
    ExitHasAReason(c, script);
  }

  ghost function BeforeTurn<P>(c: Config<P>, script: seq<seq<Label>>, i: nat): State<P> {
    Scripted(c, if i <= |script| then script[..i] else script)
  }

  lemma OneMoreTurn<P>(c: Config<P>, script: seq<seq<Label>>, i: nat)
    requires i < |script|
    ensures BeforeTurn(c, script, i + 1) == Turned(c, BeforeTurn(c, script, i), script[i])
  {
    assert script[..i + 1][..i] == script[..i];
  }

  lemma TraceOf<P>(c: Config<P>, script: seq<seq<Label>>) returns (trace: nat -> State<P>)
    ensures IsTrace(c, script, trace)
    ensures forall i: nat :: trace(i) == BeforeTurn(c, script, i)
  {
    trace := (i: nat) => BeforeTurn(c, script, i);
    forall i | 0 <= i < |script|
      ensures trace(i + 1) == Turned(c, trace(i), script[i])
    {
      OneMoreTurn(c, script, i);
    }
  }

  /** One round of the loop, or as much of it as the script has turns for. */
  method Round<P>(receiver: PacketReceiver<P>, script: seq<seq<Label>>, start: nat, held: Option<Item<P>>,
                  q: seq<Item<P>>, holds: bool, capacity: int, ghost c: Config<P>, ghost trace: nat -> State<P>)
    returns (exited: bool, used: nat, held': Option<Item<P>>, q': seq<Item<P>>, holds': bool, ghost pc: Pc)
    requires receiver.Valid() && c == Config(capacity, Replies(receiver.mode, receiver.server))
    requires start < |script| && IsTrace(c, script, trace) && At(trace, start, Top, held, receiver.calls, q, holds)
    modifies receiver
    ensures receiver.Valid() && start < used <= |script| && At(trace, used, pc, held', receiver.calls, q', holds')
    ensures (exited <==> pc == Exited) && (used < |script| && !exited ==> pc == Top)
  {
    exited, q', holds' := TestCount(script, start, held, q, holds, c, trace, receiver.calls);
    used, held', pc := start + 1, held, if exited then Exited else if held == None then Receiving else Pushing;
    if !exited && held' == None && used < |script| {
      exited, used, held', q', holds', pc := ReceiveOrEnd(receiver, script, used, q', holds', capacity, c, trace);
    }
    if !exited && held'.Some? && used < |script| {
      held', q', holds' := PushHeld(script, used, held', q', holds', capacity, c, trace, receiver.calls);
      used, pc := used + 1, Top;
    }
  }

  /** The background worker over a fresh receiver, where `script[i]` is what the consumer does before
      the i-th thing that the worker does: test the reference count, Receive, TryPush, or one attempt
      of the blocking Emplace. The worker goes on until it exits or the script ends; its variables and
      the queue are then those of the pipeline after these turns. */
  method Worker<P>(receiver: PacketReceiver<P>, capacity: int, script: seq<seq<Label>>)
    returns (q: seq<Item<P>>, held: Option<Item<P>>, exited: bool, used: nat)
    requires receiver.Valid() && receiver.calls == 0 && capacity > 0
    modifies receiver
    ensures receiver.Valid() && used <= |script| && (exited || used == |script|)
    ensures var c := Config(capacity, Replies(receiver.mode, receiver.server));
            var s := Scripted(c, script[..used]);
            && q == s.q && held == s.held && receiver.calls == s.calls && (exited <==> s.pc == Exited)
            && InOrder(c, s)
  {
    ghost var c := Config(capacity, Replies(receiver.mode, receiver.server));
    q, held, exited, used := [], None, false, 0;
    var holds := true;
    ghost var trace := TraceOf(c, script);
    ghost var pc := Top;
    assert trace(0) == Init();
    while used < |script| && !exited
      invariant used <= |script| && receiver.Valid() && At(trace, used, pc, held, receiver.calls, q, holds)
      invariant (exited <==> pc == Exited) && (used < |script| && !exited ==> pc == Top)
      decreases |script| - used, !exited
    {
      exited, used, held, q, holds, pc := Round(receiver, script, used, held, q, holds, capacity, c, trace);
    }
    assert trace(used) == Scripted(c, script[..used]);
    ScriptedInOrder(c, script[..used]);
  }

  // ----- The callback loop -----

  /** One turn of ReceivePackets: what TryPop gave (None is a timeout) and what the callback said. */
  datatype Turn<P> = Turn(popped: Option<Item<P>>, answer: Code)

  /** The callback gets every popped item once, in order, and an EOS for every timeout, until it
      answers CANCELLED for the first time; other answers do not stop it. */
  method ReceivePackets<P>(turns: seq<Turn<P>>) returns (finished: bool, handed: seq<Item<P>>, popped: seq<Item<P>>)
    ensures |handed| <= |turns|
    ensures forall k | 0 <= k < |handed| ::
              handed[k] == if turns[k].popped.Some? then turns[k].popped.value else SyntheticEos
    ensures forall k | 0 <= k < |handed| - 1 :: turns[k].answer != CANCELLED
    ensures finished <==> exists k :: 0 <= k < |turns| && turns[k].answer == CANCELLED
    ensures if finished then handed != [] && turns[|handed| - 1].answer == CANCELLED else |handed| == |turns|
    ensures popped == PoppedItems(turns[..|handed|])
  {
    handed, popped := [], [];
    while |handed| < |turns|
      invariant |handed| <= |turns|
      invariant forall k | 0 <= k < |handed| ::
                  handed[k] == if turns[k].popped.Some? then turns[k].popped.value else SyntheticEos
      invariant forall k | 0 <= k < |handed| :: turns[k].answer != CANCELLED
      invariant popped == PoppedItems(turns[..|handed|])
      decreases |turns| - |handed|
    {
      var turn := turns[|handed|];
      assert turns[..|handed| + 1][..|handed|] == turns[..|handed|];
      if turn.popped == None {
        handed := handed + [SyntheticEos];
        if turn.answer == CANCELLED { return true, handed, popped; }
        continue;
      }
      handed, popped := handed + [turn.popped.value], popped + [turn.popped.value];
      if turn.answer == CANCELLED { return true, handed, popped; }
    }
    finished := false;
  }

  function PoppedItems<P>(turns: seq<Turn<P>>): seq<Item<P>> {
    if turns == [] then []
    else
      var last := turns[|turns| - 1].popped;
      PoppedItems(turns[..|turns| - 1]) + if last.Some? then [last.value] else []
  }
}
