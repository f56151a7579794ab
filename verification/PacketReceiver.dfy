/** The packet receiver's mode machine. A gRPC reader is the packets it will still yield and the
    status its Finish reports once they run out; it reports the same status if it is asked again. A
    unary RPC is the server's answer to it. */
module PacketReceivers {
  import opened BoundedFifo

  datatype Mode = StreamingReceive | UnaryReceive | Replay | Auto

  datatype Code = OK | OUT_OF_RANGE | CANCELLED | Other(code: int)

  datatype Stream<P> = Stream(packets: seq<P>, final: Code)

  /** The result of one Receive. `packet == None` means that `*packet` was left untouched. */
  datatype Reply<P> = Reply(status: Code, packet: Option<P>)

  type ErrorCode = c: Code | c != OK witness OUT_OF_RANGE

  const NOT_FOUND := Other(5)

  /** The answer to one ReceiveOnePacket RPC; NoPacket is a response that is not valid. */
  datatype UnaryAnswer<P> = RpcFailed(code: ErrorCode) | NoPacket | HasPacket(p: P)

  /** What the server will send: the two streams, and the answer to the n-th unary RPC. */
  datatype Server<P> = Server(streaming: Stream<P>, replay: Stream<P>, unary: nat -> UnaryAnswer<P>)

  datatype Receiver<P> = Receiver(
    mode: Mode,
    current: Mode,
    first: bool,
    readers: map<Mode, Stream<P>>,
    contexts: set<Mode>,
    disposals: nat,
    unaryReceived: nat
  )

  /** Initialize opens the replay reader first and the streaming reader second; opening one fails
      when the stub hands back a null reader. Unary mode opens none and leaves the current mode
      unset; nothing reads it then. */
  function Initialize<P>(mode: Mode, streaming: Option<Stream<P>>, replay: Option<Stream<P>>): (r: Option<Receiver<P>>)
  {
    var needReplay := mode == Auto || mode == Replay;
    var needStreaming := mode == Auto || mode == StreamingReceive;
    if (needReplay && replay == None) || (needStreaming && streaming == None) then None
    else
      var readers := if needReplay then map[Replay := replay.value] else map[];
      var readers := if needStreaming then readers[StreamingReceive := streaming.value] else readers;
      var current := if needStreaming then StreamingReceive else mode;
      Some(Receiver(mode, current, true, readers, readers.Keys, 0, 0))
  }

  /** What the next Receive may rely on. */
  ghost predicate Usable<P>(r: Receiver<P>) {
    && r.mode != UnaryReceive
    && (r.current == StreamingReceive || r.current == Replay)
    && r.current in r.readers
    && (r.first && r.mode == Auto ==>
          r.current == StreamingReceive && r.readers.Keys == r.contexts == {StreamingReceive, Replay})
  }

  function Unused(current: Mode): Mode {
    if current == Replay then StreamingReceive else Replay
  }

  /** The precondition is the pointer dereference `ctx_[mode]->TryCancel()`. */
  function Dispose<P>(r: Receiver<P>): Receiver<P>
    requires r.current == StreamingReceive || r.current == Replay
    requires Unused(r.current) in r.contexts
  {
    r.(readers := r.readers - {Unused(r.current)}, contexts := r.contexts - {Unused(r.current)},
       disposals := r.disposals + 1)
  }

  /** One Receive in a streaming mode: the next receiver state and what the caller gets. */
  function ReceiveFrom<P>(r: Receiver<P>): (res: (Receiver<P>, Reply<P>))
    requires Usable(r)
    ensures Usable(res.0) && !res.0.first
    decreases r.first
  {
    var r1 := r.(first := false);
    var reader := r1.readers[r1.current];
    if reader.packets == [] then
      if r.first && r.mode == Auto && r.current == StreamingReceive && reader.final == OUT_OF_RANGE then
        ReceiveFrom(Dispose(r1.(current := Replay)))
      else
        (r1, Reply(reader.final, None))
    else
      var r2 := r1.(readers := r1.readers[r1.current := reader.(packets := reader.packets[1..])]);
      (if r.first && r.mode == Auto then Dispose(r2) else r2, Reply(OK, Some(reader.packets[0])))
  }

  // ----- What the receiver delivers, said without its state -----

  /** Auto mode falls back to the replay stream exactly when the live stream has nothing to give
      and ends with OUT_OF_RANGE. */
  function ChosenMode<P>(mode: Mode, streaming: Stream<P>): Mode {
    if mode == Auto then
      if streaming.packets == [] && streaming.final == OUT_OF_RANGE then Replay else StreamingReceive
    else mode
  }

  function Source<P>(mode: Mode, streaming: Stream<P>, replay: Stream<P>): Stream<P> {
    if ChosenMode(mode, streaming) == Replay then replay else streaming
  }

  function NthReply<P>(source: Stream<P>, n: nat): Reply<P> {
    if n < |source.packets| then Reply(OK, Some(source.packets[n])) else Reply(source.final, None)
  }

  /** The receiver state after `n` calls: one reader is in use, it has lost its first `n` packets,
      and the unused one is gone if it was ever disposed of. */
  ghost predicate After<P>(r: Receiver<P>, mode: Mode, streaming: Stream<P>, replay: Stream<P>, n: nat) {
    && mode != UnaryReceive
    && if n == 0 then
         Some(r) == Initialize(mode, Some(streaming), Some(replay))
       else
         var source := Source(mode, streaming, replay);
         && r.mode == mode && !r.first
         && r.current == ChosenMode(mode, streaming)
         && r.current in r.readers
         && r.readers[r.current] ==
              source.(packets := source.packets[if n < |source.packets| then n else |source.packets|..])
         && r.disposals == (if mode == Auto && (r.current == Replay || streaming.packets != []) then 1 else 0)
         && r.readers.Keys == r.contexts ==
              if mode == Auto && r.disposals == 0 then {StreamingReceive, Replay} else {r.current}
  }

  lemma AfterIsUsable<P>(r: Receiver<P>, mode: Mode, streaming: Stream<P>, replay: Stream<P>, n: nat)
    requires After(r, mode, streaming, replay, n)
    ensures Usable(r) && r.first == (n == 0) && r.disposals <= 1
  {
  }

  /** In auto mode the first Receive moves on to the replay stream if the live one has nothing. */
  lemma FallBackStep<P>(r: Receiver<P>, streaming: Stream<P>, replay: Stream<P>)
    requires After(r, Auto, streaming, replay, 0) && Usable(r)
    requires streaming.packets == [] && streaming.final == OUT_OF_RANGE
    ensures After(ReceiveFrom(r).0, Auto, streaming, replay, 1)
    ensures ReceiveFrom(r).1 == NthReply(replay, 0)
  {
    var r' := Dispose(r.(first := false, current := Replay));
    assert ReceiveFrom(r) == ReceiveFrom(r');
    assert r'.readers[Replay] == replay;
  }

  lemma FirstStep<P>(r: Receiver<P>, mode: Mode, streaming: Stream<P>, replay: Stream<P>)
    requires After(r, mode, streaming, replay, 0) && Usable(r)
    requires !(mode == Auto && streaming.packets == [] && streaming.final == OUT_OF_RANGE)
    ensures After(ReceiveFrom(r).0, mode, streaming, replay, 1)
    ensures ReceiveFrom(r).1 == NthReply(Source(mode, streaming, replay), 0)
  {
    assert r.readers[r.current] == Source(mode, streaming, replay);
  }

  lemma LaterStep<P>(r: Receiver<P>, mode: Mode, streaming: Stream<P>, replay: Stream<P>, n: nat)
    requires n > 0 && After(r, mode, streaming, replay, n) && Usable(r)
    ensures After(ReceiveFrom(r).0, mode, streaming, replay, n + 1)
    ensures ReceiveFrom(r).1 == NthReply(Source(mode, streaming, replay), n)
  {
  }

  /** The n-th Receive answers with the n-th reply of the one chosen stream. */
  lemma ReceiveStep<P>(r: Receiver<P>, mode: Mode, streaming: Stream<P>, replay: Stream<P>, n: nat)
    requires After(r, mode, streaming, replay, n)
    ensures Usable(r)
    ensures After(ReceiveFrom(r).0, mode, streaming, replay, n + 1)
    ensures ReceiveFrom(r).1 == NthReply(Source(mode, streaming, replay), n)
  {
    AfterIsUsable(r, mode, streaming, replay, n);
    if n > 0 {
      LaterStep(r, mode, streaming, replay, n);
    } else if mode == Auto && streaming.packets == [] && streaming.final == OUT_OF_RANGE {
      FallBackStep(r, streaming, replay);
    } else {
      FirstStep(r, mode, streaming, replay);
    }
  }

  lemma ReceiveStepTo<P>(r: Receiver<P>, mode: Mode, streaming: Stream<P>, replay: Stream<P>, n: nat,
                         r': Receiver<P>, reply: Reply<P>)
    requires After(r, mode, streaming, replay, n) && Usable(r) && (r', reply) == ReceiveFrom(r)
    ensures After(r', mode, streaming, replay, n + 1)
    ensures reply == NthReply(Source(mode, streaming, replay), n)
  {
    ReceiveStep(r, mode, streaming, replay, n);
  }

  // ----- Unary mode, and all modes together -----

  function UnaryReply<P>(a: UnaryAnswer<P>): Reply<P> {
    match a
    case RpcFailed(code) => Reply(code, None)
    case NoPacket => Reply(NOT_FOUND, None)
    case HasPacket(p) => Reply(OK, Some(p))
  }

  /** The next unary request carries the offset configuration; `resetOffset` is the option for it. */
  predicate CarriesOffset<P>(r: Receiver<P>, resetOffset: bool) {
    r.unaryReceived == 0 && resetOffset
  }

  /** One unary Receive. */
  function ReceiveUnary<P>(r: Receiver<P>, a: UnaryAnswer<P>): (Receiver<P>, Reply<P>) {
    (if a.RpcFailed? then r else r.(unaryReceived := r.unaryReceived + 1), UnaryReply(a))
  }

  function Answered<P>(unary: nat -> UnaryAnswer<P>, n: nat): nat {
    if n == 0 then 0 else Answered(unary, n - 1) + if unary(n - 1).RpcFailed? then 0 else 1
  }

  /** The receiver state after `n` calls, in any mode. */
  ghost predicate AfterCalls<P>(r: Receiver<P>, mode: Mode, server: Server<P>, n: nat) {
    if mode == UnaryReceive then
      Initialize<P>(mode, None, None) == Some(r.(unaryReceived := 0)) && r.unaryReceived == Answered(server.unary, n)
    else
      After(r, mode, server.streaming, server.replay, n)
  }

  /** The n-th reply in any mode, said without the receiver's state. */
  function NthReplyOf<P>(mode: Mode, server: Server<P>, n: nat): Reply<P> {
    if mode == UnaryReceive then UnaryReply(server.unary(n))
    else NthReply(Source(mode, server.streaming, server.replay), n)
  }

  /** The n-th unary request carries the offset if and only if the option is set and every RPC before
      it failed. */
  lemma {:induction false} OffsetIsSentIff<P>(r: Receiver<P>, server: Server<P>, n: nat, resetOffset: bool)
    requires AfterCalls(r, UnaryReceive, server, n)
    ensures CarriesOffset(r, resetOffset) <==> resetOffset && forall i | 0 <= i < n :: server.unary(i).RpcFailed?
  {
    NoneAnsweredIff(server.unary, n);
  }

  lemma {:induction false} NoneAnsweredIff<P>(unary: nat -> UnaryAnswer<P>, n: nat)
    ensures Answered(unary, n) == 0 <==> forall i | 0 <= i < n :: unary(i).RpcFailed?
  {
    if n == 0 {
    } else {
      NoneAnsweredIff(unary, n - 1);
    }
  }

  ghost predicate UsableIn<P>(r: Receiver<P>) {
    r.mode == UnaryReceive || Usable(r)
  }

  /** One Receive; the answer matters in unary mode only. */
  function Receive<P>(r: Receiver<P>, a: UnaryAnswer<P>): (res: (Receiver<P>, Reply<P>))
    requires UsableIn(r)
    ensures UsableIn(res.0)
  {
    if r.mode == UnaryReceive then ReceiveUnary(r, a) else ReceiveFrom(r)
  }

  /** The replies of `n` calls in a row, and the receiver they leave. */
  ghost function ReceiveMany<P>(r: Receiver<P>, unary: nat -> UnaryAnswer<P>, n: nat): (res: (Receiver<P>, seq<Reply<P>>))
    requires UsableIn(r)
    ensures UsableIn(res.0) && |res.1| == n
  {
    if n == 0 then (r, [])
    else
      var (r', replies) := ReceiveMany(r, unary, n - 1);
      var (r'', reply) := Receive(r', unary(n - 1));
      (r'', replies + [reply])
  }

  lemma ReceiveStepIn<P>(r: Receiver<P>, mode: Mode, server: Server<P>, n: nat, r': Receiver<P>, reply: Reply<P>)
    requires AfterCalls(r, mode, server, n) && UsableIn(r) && (r', reply) == Receive(r, server.unary(n))
    ensures AfterCalls(r', mode, server, n + 1)
    ensures reply == NthReplyOf(mode, server, n)
  {
    if mode != UnaryReceive {
      AfterIsUsable(r, mode, server.streaming, server.replay, n);
      ReceiveStepTo(r, mode, server.streaming, server.replay, n, r', reply);
    }
  }

  ghost predicate InOrder<P>(replies: seq<Reply<P>>, mode: Mode, server: Server<P>) {
    forall i | 0 <= i < |replies| :: replies[i] == NthReplyOf(mode, server, i)
  }

  lemma OneMoreReply<P>(r: Receiver<P>, mode: Mode, server: Server<P>, replies: seq<Reply<P>>)
    requires AfterCalls(r, mode, server, |replies|) && UsableIn(r) && InOrder(replies, mode, server)
    ensures var (r', reply) := Receive(r, server.unary(|replies|));
            AfterCalls(r', mode, server, |replies| + 1) && InOrder(replies + [reply], mode, server)
  {
    var (r', reply) := Receive(r, server.unary(|replies|));
    ReceiveStepIn(r, mode, server, |replies|, r', reply);
  }

  lemma {:induction false} ManyReplies<P>(r: Receiver<P>, mode: Mode, server: Server<P>, n: nat)
    requires UsableIn(r) && AfterCalls(r, mode, server, 0)
    ensures AfterCalls(ReceiveMany(r, server.unary, n).0, mode, server, n)
    ensures InOrder(ReceiveMany(r, server.unary, n).1, mode, server)
  {
    if n == 0 {
    } else {
      ManyReplies(r, mode, server, n - 1);
      var (r', replies) := ReceiveMany(r, server.unary, n - 1);
      OneMoreReply(r', mode, server, replies);
    }
  }

  /** Over any number of calls, all replies come in order from one RPC or, in unary mode, from one RPC
      each. In the streaming modes the receiver settles on its stream at the first call, disposes of
      the other reader at most once, and always keeps the reader it uses. */
  lemma RepliesComeFromOneStream<P>(mode: Mode, server: Server<P>, n: nat)
    ensures var r := Initialize(mode, Some(server.streaming), Some(server.replay)).value;
            && UsableIn(r)
            && AfterCalls(ReceiveMany(r, server.unary, n).0, mode, server, n)
            && ReceiveMany(r, server.unary, n).1 == seq(n, i requires 0 <= i => NthReplyOf(mode, server, i))
  {
    var r := Initialize(mode, Some(server.streaming), Some(server.replay)).value;
    if mode != UnaryReceive {
      AfterIsUsable(r, mode, server.streaming, server.replay, 0);
    }
    ManyReplies(r, mode, server, n);
  }

  /** Unary mode: the i-th Receive succeeds if and only if the i-th RPC answers with a packet, which it
      then delivers; a failed RPC gives its own code, and a response that is not valid NotFound. */
  lemma UnaryReplies<P>(server: Server<P>, n: nat, i: nat)
    requires i < n
    ensures var r := Initialize<P>(UnaryReceive, None, None).value;
            var reply := ReceiveMany(r, server.unary, n).1[i];
            var answer := server.unary(i);
            && (reply.status == OK <==> answer.HasPacket?)
            && (answer.HasPacket? ==> reply == Reply(OK, Some(answer.p)))
            && (answer.RpcFailed? ==> reply == Reply(answer.code, None))
            && (answer.NoPacket? ==> reply == Reply(NOT_FOUND, None))
  {
    RepliesComeFromOneStream(UnaryReceive, server, n);
  }

  /** The streaming modes: the i-th Receive gives the i-th packet of the stream, and after the last of
      them the status that the stream ended with. The stream is the one asked for and, in auto mode,
      the live one unless that is empty and out of range. */
  lemma StreamingReplies<P>(mode: Mode, server: Server<P>, n: nat, i: nat)
    requires i < n && mode != UnaryReceive
    ensures var r := Initialize(mode, Some(server.streaming), Some(server.replay)).value;
            var live := server.streaming;
            var replayed := mode == Replay || (mode == Auto && live == Stream([], OUT_OF_RANGE));
            var source := if replayed then server.replay else live;
            UsableIn(r) && ReceiveMany(r, server.unary, n).1[i] ==
              if i < |source.packets| then Reply(OK, Some(source.packets[i])) else Reply(source.final, None)
  {
    RepliesComeFromOneStream(mode, server, n);
  }

  /** A Receive that reports success without a packet. It happens exactly when the caller asks
      again after a stream that the server ended with an OK status, and never in unary mode. */
  lemma SuccessWithoutPacket<P>(mode: Mode, server: Server<P>, n: nat)
    ensures var r := Initialize(mode, Some(server.streaming), Some(server.replay)).value;
            var source := Source(mode, server.streaming, server.replay);
            && UsableIn(r)
            && (Reply(OK, None) in ReceiveMany(r, server.unary, n).1 <==>
                  mode != UnaryReceive && n > |source.packets| && source.final == OK)
  {
    RepliesComeFromOneStream(mode, server, n);
    var r := Initialize(mode, Some(server.streaming), Some(server.replay)).value;
    var source := Source(mode, server.streaming, server.replay);
    if mode != UnaryReceive && n > |source.packets| {
      assert ReceiveMany(r, server.unary, n).1[|source.packets|] == NthReply(source, |source.packets|);
    }
  }

  /** These are the successful replies from number `start` on. */
  ghost predicate AllFrom<P>(seen: seq<Reply<P>>, mode: Mode, server: Server<P>, start: nat) {
    forall k | 0 <= k < |seen| :: seen[k] == NthReplyOf(mode, server, start + k) && seen[k].status == OK
  }

  ghost predicate NoneCancelled(answers: seq<Code>, n: nat)
    requires n <= |answers|
  {
    forall k | 0 <= k < n :: answers[k] != CANCELLED
  }

  class PacketReceiver<P(==)> {
    const mode: Mode
    const resetOffset: bool  // options_.offset_options.reset_offset
    var current: Mode
    var first: bool
    var readers: map<Mode, Stream<P>>
    var contexts: set<Mode>
    var unaryReceived: nat
    ghost var disposals: nat
    // What the server will send, and how many Receives there have been.
    const server: Server<P>
    var calls: nat

    ghost function Value(): Receiver<P>
      reads this
    {
      Receiver(mode, current, first, readers, contexts, disposals, unaryReceived)
    }

    ghost predicate Valid()
      reads this
    {
      AfterCalls(Value(), mode, server, calls)
    }

    /** The path of Initialize on which the stub returns a reader for every RPC it opens. */
    constructor (mode: Mode, resetOffset: bool, server: Server<P>)
      ensures Valid() && calls == 0
      ensures this.mode == mode && this.resetOffset == resetOffset && this.server == server
    {
      this.mode := mode;
      this.resetOffset := resetOffset;
      this.server := server;
      first, disposals, calls, unaryReceived := true, 0, 0, 0;
      current := mode;
      var rs: map<Mode, Stream<P>> := map[];
      if mode == Auto || mode == Replay {
        current := Replay;
        rs := rs[Replay := server.replay];
      }
      if mode == Auto || mode == StreamingReceive {
        current := StreamingReceive;
        rs := rs[StreamingReceive := server.streaming];
      }
      readers, contexts := rs, rs.Keys;
    }

    method DisposeUnusedClientReader()
      requires current == StreamingReceive || current == Replay
      requires Unused(current) in contexts
      modifies this`readers, this`contexts, this`disposals
      ensures Value() == Dispose(old(Value()))
    {
      if current == Replay {
        readers := readers - {StreamingReceive};
        contexts := contexts - {StreamingReceive};
      }
      if current == StreamingReceive {
        readers := readers - {Replay};
        contexts := contexts - {Replay};
      }
      disposals := disposals + 1;
    }

    method StreamingReceiveImpl() returns (reply: Reply<P>)
      requires Usable(Value())
      modifies this`current, this`first, this`readers, this`contexts, this`disposals
      ensures (Value(), reply) == ReceiveFrom(old(Value()))
      decreases first
    {
      var wasFirst := first;
      first := false;
      var reader := readers[current];
      if reader.packets == [] {
        if wasFirst && mode == Auto && current == StreamingReceive && reader.final == OUT_OF_RANGE {
          current := Replay;
          DisposeUnusedClientReader();
          reply := StreamingReceiveImpl();
        } else {
          reply := Reply(reader.final, None);
        }
        return;
      }
      readers := readers[current := reader.(packets := reader.packets[1..])];
      if wasFirst && mode == Auto {
        DisposeUnusedClientReader();
      }
      reply := Reply(OK, Some(reader.packets[0]));
    }

    /** One unary RPC. `offsetSent` is whether its request carries the offset. */
    method UnaryReceiveImpl() returns (reply: Reply<P>, offsetSent: bool)
      requires Valid() && mode == UnaryReceive
      modifies this`unaryReceived
      ensures (Value(), reply) == ReceiveUnary(old(Value()), server.unary(calls))
      ensures var answer := server.unary(calls);
              && (reply.status == OK <==> answer.HasPacket?)
              && (answer.HasPacket? ==> reply.packet == Some(answer.p))
              && (answer.RpcFailed? ==> reply == Reply(answer.code, None))
              && (answer.NoPacket? ==> reply == Reply(NOT_FOUND, None))
      ensures offsetSent <==> resetOffset && forall i | 0 <= i < calls :: server.unary(i).RpcFailed?
    {
      OffsetIsSentIff(Value(), server, calls, resetOffset);
      offsetSent := unaryReceived == 0 && resetOffset;
      match server.unary(calls) {
        case RpcFailed(code) => reply := Reply(code, None);
        case NoPacket =>
          unaryReceived := unaryReceived + 1;
          reply := Reply(NOT_FOUND, None);
        case HasPacket(p) =>
          unaryReceived := unaryReceived + 1;
          reply := Reply(OK, Some(p));
      }
    }

    method Receive() returns (reply: Reply<P>)
      requires Valid()
      modifies this
      ensures Valid() && calls == old(calls) + 1
      ensures reply == NthReplyOf(mode, server, old(calls))
    {
      if mode == UnaryReceive {
        var offsetSent;
        reply, offsetSent := UnaryReceiveImpl();
      } else {
        AfterIsUsable(Value(), mode, server.streaming, server.replay, calls);
        reply := StreamingReceiveImpl();
      }
      ReceiveStepIn(old(Value()), mode, server, calls, Value(), reply);
      calls := calls + 1;
    }

    /** Receive one more packet for the callback. */
    method ReceiveNext(seen: seq<Reply<P>>, ghost start: nat) returns (status: Code, seen': seq<Reply<P>>)
      requires Valid() && calls == start + |seen| && AllFrom(seen, mode, server, start)
      modifies this
      ensures Valid() && calls == old(calls) + 1 && status == NthReplyOf(mode, server, old(calls)).status
      ensures |seen'| == |seen| + (if status == OK then 1 else 0) && AllFrom(seen', mode, server, start)
    {
      seen' := seen;
      var reply := Receive();
      status := reply.status;
      if status == OK {
        seen' := seen' + [reply];
      }
    }

    /** Subscribe with a callback whose k-th answer is `answers[k]`. The result is None while the
        answers have run out and the subscription is still open. */
    method Subscribe(answers: seq<Code>) returns (result: Option<Code>, seen: seq<Reply<P>>)
      requires Valid()
      modifies this
      ensures Valid() && |seen| <= |answers|
      // the callback sees consecutive packets
      ensures AllFrom(seen, mode, server, old(calls))
      // and it stops at its first CANCELLED, or at the first failing Receive
      ensures result == None ==> |seen| == |answers| && NoneCancelled(answers, |seen|)
      ensures result == Some(OK) ==>
                seen != [] && answers[|seen| - 1] == CANCELLED && NoneCancelled(answers, |seen| - 1)
      ensures result.Some? && result.value != OK ==>
                && NthReplyOf(mode, server, old(calls) + |seen|).status == result.value
                && NoneCancelled(answers, |seen|)
    {
      seen := [];
      while |seen| < |answers|
        invariant Valid() && calls == old(calls) + |seen| && |seen| <= |answers|
        invariant AllFrom(seen, mode, server, old(calls)) && NoneCancelled(answers, |seen|)
        decreases |answers| - |seen|
      {
        var status;
        status, seen := ReceiveNext(seen, old(calls));
        if status != OK {
          return Some(status), seen;
        }
        if answers[|seen| - 1] == CANCELLED {
          return Some(OK), seen;
        }
      }
      result := None;
    }
  }
}
