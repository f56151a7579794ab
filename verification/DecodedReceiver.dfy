/** The decoded receiver: one thread feeds source packets to the decoder and queues the headers of
    frame heads; the decoder's thread takes a header for every image and puts the image into the
    destination queue. No callback happens after the decoder's runner is destroyed. */
module DecodedReceiver {
  import opened BoundedFifo
  import opened RawImageYielders

  datatype Packet<H> = Packet(header: H, isFrameHead: bool, isEos: bool)

  /** A header, with the number of the frame whose head carried it. Frame 0 begins with the packet that
      Initialize feeds; the numbers are not in the program, they only tell headers apart. */
  datatype Header<H> = Header(frame: nat, h: H)

  /** What goes into the destination queue: an image with the header it was given, or EOS. */
  datatype Out<I, H> = Image(image: I, header: Option<Header<H>>) | Eos

  datatype WorkPc<H> =
    | Top
    | Pull
    | PushHeader(p: Packet<H>)
    | FeedDecoder(p: Packet<H>)
    | SignalEos
    | DestroyRunner
    | PushEos
    | Finished

  datatype Config = Config(headerCapacity: int, destCapacity: int)

  datatype State<I, H> = State(
    pc: WorkPc<H>,
    consumerHolds: bool,
    runnerAlive: bool,
    fed: nat,                              // packets given to the decoder
    headers: seq<Header<H>>,               // the header queue
    headersQueued: seq<Header<H>>,         // everything pushed into it
    decoded: seq<(I, Option<Header<H>>)>,  // every image the decoder produced, with its header
    kept: seq<bool>,                       // for each finished callback, whether the image was queued
    foundAtFirst: nat,                     // headers waiting when the first image came
    dest: seq<Out<I, H>>,
    enqueued: seq<Out<I, H>>,
    popped: seq<Out<I, H>>
  )
  {
    /** The decoder thread is between taking the header and queueing the image. */
    predicate InCallback() { |kept| < |decoded| }
  }

  datatype Label<I, H> =
    | WorkTop
    | WorkPull(p: Option<Packet<H>>)       // None: the source yielded nothing within the timeout
    | WorkPushHeader
    | WorkFeed(fedOk: bool)
    | WorkSignalEos
    | WorkDestroyRunner
    | WorkPushEos
    | DecoderYield(image: I)
    | DecoderEnqueue
    | ConsumerPop
    | ConsumerRelease

  /** Initialize has already fed the first packet, without queueing its header. */
  function Init<I, H>(): State<I, H> {
    State(Top, true, true, 1, [], [], [], [], 0, [], [], [])
  }

  predicate Enabled<I, H>(c: Config, s: State<I, H>, l: Label<I, H>) {
    match l
    case WorkTop => s.pc.Top?
    case WorkPull(_) => s.pc.Pull?
    case WorkPushHeader => s.pc.PushHeader? && !IsFull(c.headerCapacity, s.headers)  // retried until it fits
    case WorkFeed(_) => s.pc.FeedDecoder?
    case WorkSignalEos => s.pc.SignalEos?
    case WorkDestroyRunner => s.pc.DestroyRunner? && !s.InCallback()
    case WorkPushEos => s.pc.PushEos? && !IsFull(c.destCapacity, s.dest)             // the blocking Emplace
    case DecoderYield(_) => s.runnerAlive && !s.InCallback()
    case DecoderEnqueue => s.InCallback()
    case ConsumerPop => s.consumerHolds && s.dest != []
    case ConsumerRelease => s.consumerHolds
  }

  function Apply<I, H>(c: Config, s: State<I, H>, l: Label<I, H>): State<I, H>
    requires Enabled(c, s, l)
  {
    match l
    case WorkTop => s.(pc := if s.consumerHolds then Pull else SignalEos)
    case WorkPull(p) =>
      s.(pc := if p == None || p.value.isEos then SignalEos
               else if p.value.isFrameHead then PushHeader(p.value) else FeedDecoder(p.value))
    case WorkPushHeader =>
      var header := Header(|s.headersQueued| + 1, s.pc.p.header);
      s.(headers := s.headers + [header], headersQueued := s.headersQueued + [header], pc := FeedDecoder(s.pc.p))
    case WorkFeed(fedOk) => if fedOk then s.(fed := s.fed + 1, pc := Top) else s.(pc := SignalEos)
    case WorkSignalEos => s.(pc := DestroyRunner)
    // the yielder then reports kNotFound to PushImagePacket, which queues nothing for it
    case WorkDestroyRunner => s.(runnerAlive := false, pc := PushEos)
    case WorkPushEos => s.(dest := s.dest + [Eos], enqueued := s.enqueued + [Eos], pc := Finished)
    case DecoderYield(image) =>
      s.(decoded := s.decoded + [(image, if s.headers == [] then None else Some(s.headers[0]))],
         headers := if s.headers == [] then [] else s.headers[1..],
         foundAtFirst := if s.decoded == [] then |s.headers| else s.foundAtFirst)
    case DecoderEnqueue =>
      var (image, header) := s.decoded[|s.kept|];
      if IsFull(c.destCapacity, s.dest) then s.(kept := s.kept + [false])
      else s.(kept := s.kept + [true], dest := s.dest + [Image(image, header)],
              enqueued := s.enqueued + [Image(image, header)])
    case ConsumerPop => s.(dest := s.dest[1..], popped := s.popped + [s.dest[0]])
    case ConsumerRelease => s.(consumerHolds := false)
  }

  ghost predicate ValidRun<I, H>(c: Config, s: State<I, H>, run: seq<Label<I, H>>)
    decreases run
  {
    run == [] || (Enabled(c, s, run[0]) && ValidRun(c, Apply(c, s, run[0]), run[1..]))
  }

  ghost function Run<I, H>(c: Config, s: State<I, H>, run: seq<Label<I, H>>): State<I, H>
    requires ValidRun(c, s, run)
    decreases run
  {
    if run == [] then s else Run(c, Apply(c, s, run[0]), run[1..])
  }

  // ----- Headers in order, images in order, one EOS at the end -----

  /** The headers that the images took, in order. */
  function Attached<I, H>(decoded: seq<(I, Option<Header<H>>)>): seq<Header<H>> {
    if decoded == [] then []
    else
      var header := decoded[|decoded| - 1].1;
      Attached(decoded[..|decoded| - 1]) + if header == None then [] else [header.value]
  }

  /** The images of the callbacks that found room, in order. */
  function Kept<I, H>(decoded: seq<(I, Option<Header<H>>)>, kept: seq<bool>): seq<Out<I, H>>
    requires |kept| <= |decoded|
  {
    if kept == [] then []
    else
      var n := |kept| - 1;
      Kept(decoded, kept[..n]) + if kept[n] then [Image(decoded[n].0, decoded[n].1)] else []
  }

  lemma AttachedAppend<I, H>(decoded: seq<(I, Option<Header<H>>)>, y: (I, Option<Header<H>>))
    ensures Attached(decoded + [y]) == Attached(decoded) + if y.1 == None then [] else [y.1.value]
  {
  }

  lemma {:induction false} KeptOfMore<I, H>(decoded: seq<(I, Option<Header<H>>)>, y: (I, Option<Header<H>>), kept: seq<bool>)
    requires |kept| <= |decoded|
    ensures Kept(decoded + [y], kept) == Kept(decoded, kept)
  {
    if kept == [] {
    } else {
      KeptOfMore(decoded, y, kept[..|kept| - 1]);
    }
  }

  lemma KeptAppend<I, H>(decoded: seq<(I, Option<Header<H>>)>, kept: seq<bool>, k: bool)
    requires |kept| < |decoded|
    ensures Kept(decoded, kept + [k]) ==
            Kept(decoded, kept) + if k then [Image(decoded[|kept|].0, decoded[|kept|].1)] else []
  {
  }

  ghost predicate Inv<I, H>(s: State<I, H>) {
    && |s.kept| <= |s.decoded| <= |s.kept| + 1
    && (!s.runnerAlive <==> s.pc.PushEos? || s.pc.Finished?)
    && (!s.runnerAlive ==> |s.kept| == |s.decoded|)
    && Attached(s.decoded) + s.headers == s.headersQueued
    && s.enqueued == s.popped + s.dest
    && s.enqueued == Kept(s.decoded, s.kept) + if s.pc.Finished? then [Eos] else []
  }

  lemma YieldKeepsInv<I, H>(c: Config, s: State<I, H>, l: Label<I, H>)
    requires Inv(s) && Enabled(c, s, l) && l.DecoderYield?
    ensures Inv(Apply(c, s, l))
  {
    var y := Apply(c, s, l).decoded[|s.decoded|];
    AttachedAppend(s.decoded, y);
    KeptOfMore(s.decoded, y, s.kept);
  }

  lemma EnqueueKeepsInv<I, H>(c: Config, s: State<I, H>, l: Label<I, H>)
    requires Inv(s) && Enabled(c, s, l) && l.DecoderEnqueue?
    ensures Inv(Apply(c, s, l))
  {
    KeptAppend(s.decoded, s.kept, Apply(c, s, l).kept[|s.kept|]);
  }

  lemma StepKeepsInv<I, H>(c: Config, s: State<I, H>, l: Label<I, H>)
    requires Inv(s) && Enabled(c, s, l)
    ensures Inv(Apply(c, s, l))
  {
    if l.DecoderYield? {
      YieldKeepsInv(c, s, l);
    } else if l.DecoderEnqueue? {
      EnqueueKeepsInv(c, s, l);
    }
  }

  lemma {:induction false} RunKeepsInv<I, H>(c: Config, s: State<I, H>, run: seq<Label<I, H>>)
    requires Inv(s) && ValidRun(c, s, run)
    ensures Inv(Run(c, s, run))
    decreases run
  {
    if run == [] {
    } else {
      StepKeepsInv(c, s, run[0]);
      RunKeepsInv(c, Apply(c, s, run[0]), run[1..]);
    }
  }

  /** In every interleaving: the consumer gets, in order, a subsequence of the decoded images with
      their headers, and the EOS, once, last, exactly when Work has finished; the headers taken by
      images are, in order, the first ones queued. */
  lemma ImagesThenOneEos<I, H>(c: Config, run: seq<Label<I, H>>)
    requires ValidRun(c, Init(), run)
    ensures var s := Run(c, Init(), run);
            && |s.kept| <= |s.decoded|
            && s.popped + s.dest == Kept(s.decoded, s.kept) + (if s.pc.Finished? then [Eos] else [])
            && Eos !in Kept(s.decoded, s.kept)
            && (s.pc.Finished? ==> |s.kept| == |s.decoded| && !s.runnerAlive)
            && Attached(s.decoded) <= s.headersQueued
  {
    RunKeepsInv(c, Init(), run);
    var s := Run(c, Init(), run);
    KeptHasNoEos(s.decoded, s.kept);
  }

  lemma {:induction false} KeptHasNoEos<I, H>(decoded: seq<(I, Option<Header<H>>)>, kept: seq<bool>)
    requires |kept| <= |decoded|
    ensures Eos !in Kept(decoded, kept)
  {
    if kept == [] {
    } else {
      KeptHasNoEos(decoded, kept[..|kept| - 1]);
    }
  }

  // ----- Does an image carry the header of its own frame? -----

  /** Headers are numbered as they are queued, from 1 on. */
  ghost predicate Numbered<I, H>(s: State<I, H>) {
    && (forall i | 0 <= i < |s.headersQueued| :: s.headersQueued[i].frame == i + 1)
    && (forall i | 0 <= i < |s.headers| :: s.headers[i].frame > 0)
    && (forall y <- s.decoded :: y.1.Some? ==> y.1.value.frame > 0)
  }

  lemma StepKeepsNumbered<I, H>(c: Config, s: State<I, H>, l: Label<I, H>)
    requires Numbered(s) && Enabled(c, s, l)
    ensures Numbered(Apply(c, s, l))
  {
  }

  lemma {:induction false} RunKeepsNumbered<I, H>(c: Config, s: State<I, H>, run: seq<Label<I, H>>)
    requires Numbered(s) && ValidRun(c, s, run)
    ensures Numbered(Run(c, s, run))
    decreases run
  {
    if run == [] {
    } else {
      StepKeepsNumbered(c, s, run[0]);
      RunKeepsNumbered(c, Apply(c, s, run[0]), run[1..]);
    }
  }

  /** Whatever the decoder does, the header of the first packet is given to no image: the image of
      frame 0 never recovers it. */
  lemma FirstHeaderIsLost<I, H>(c: Config, run: seq<Label<I, H>>)
    requires ValidRun(c, Init(), run)
    ensures forall y <- Run(c, Init(), run).decoded :: y.1.Some? ==> y.1.value.frame != 0
  {
    RunKeepsNumbered(c, Init(), run);
  }

  /** A decoder that makes one image of each frame, in order, and not before it has the frame's head;
      a frame may be spread over any number of packets. */
  predicate OneImagePerFrame<I, H>(s: State<I, H>, l: Label<I, H>) {
    l.DecoderYield? ==> |s.decoded| <= |s.headersQueued|
  }

  ghost predicate OneToOneRun<I, H>(c: Config, s: State<I, H>, run: seq<Label<I, H>>)
    requires ValidRun(c, s, run)
    decreases run
  {
    run == [] || (OneImagePerFrame(s, run[0]) && OneToOneRun(c, Apply(c, s, run[0]), run[1..]))
  }

  /** No image has been given the header of another frame. */
  ghost predicate NoForeignHeader<I, H>(s: State<I, H>) {
    forall k | 0 <= k < |s.decoded| :: s.decoded[k].1.Some? ==> s.decoded[k].1.value.frame == k
  }

  /** Every image but the first has the header of its own frame, and the first has none. */
  ghost predicate Recovered<I, H>(decoded: seq<(I, Option<Header<H>>)>) {
    forall k | 0 <= k < |decoded| ::
      if k == 0 then decoded[k].1 == None else decoded[k].1.Some? && decoded[k].1.value.frame == k
  }

  lemma RecoveredAppend<I, H>(decoded: seq<(I, Option<Header<H>>)>, y: (I, Option<Header<H>>))
    requires Recovered(decoded)
    requires if decoded == [] then y.1 == None else y.1.Some? && y.1.value.frame == |decoded|
    ensures Recovered(decoded + [y])
  {
  }

  ghost predicate FedInv<I, H>(s: State<I, H>) {
    && (forall i | 0 <= i < |s.headersQueued| :: s.headersQueued[i].frame == i + 1)
    && |s.decoded| <= |s.headersQueued| + 1
    && (s.decoded == [] ==> s.headers == s.headersQueued)
    && (s.decoded != [] ==>
          if s.foundAtFirst == 0 then Recovered(s.decoded) && s.headers == s.headersQueued[|s.decoded| - 1..]
          else s.decoded[0].1.Some? && s.decoded[0].1.value.frame == 1)
  }

  lemma YieldKeepsFed<I, H>(c: Config, s: State<I, H>, l: Label<I, H>)
    requires FedInv(s) && Enabled(c, s, l) && l.DecoderYield? && OneImagePerFrame(s, l)
    ensures FedInv(Apply(c, s, l))
  {
    var n, s' := |s.decoded|, Apply(c, s, l);
    var y := s'.decoded[n];
    if n == 0 {
      if s'.foundAtFirst == 0 {
        RecoveredAppend(s.decoded, y);
      }
    } else if s.foundAtFirst == 0 {
      assert s.headers[0] == s.headersQueued[n - 1];
      RecoveredAppend(s.decoded, y);
    }
  }

  lemma HeaderKeepsFed<I, H>(c: Config, s: State<I, H>, l: Label<I, H>)
    requires FedInv(s) && Enabled(c, s, l) && l.WorkPushHeader?
    ensures FedInv(Apply(c, s, l))
  {
  }

  lemma StepKeepsFed<I, H>(c: Config, s: State<I, H>, l: Label<I, H>)
    requires FedInv(s) && Enabled(c, s, l) && OneImagePerFrame(s, l)
    ensures FedInv(Apply(c, s, l))
  {
    if l.DecoderYield? {
      YieldKeepsFed(c, s, l);
    } else if l.WorkPushHeader? {
      HeaderKeepsFed(c, s, l);
    }
  }

  lemma {:induction false} RunKeepsFed<I, H>(c: Config, s: State<I, H>, run: seq<Label<I, H>>)
    requires FedInv(s) && ValidRun(c, s, run) && OneToOneRun(c, s, run)
    ensures FedInv(Run(c, s, run))
    decreases run
  {
    if run == [] {
    } else {
      StepKeepsFed(c, s, run[0]);
      RunKeepsFed(c, Apply(c, s, run[0]), run[1..]);
    }
  }

  /** Even with one image per frame, no image is given another frame's header if and only if the first
      image comes before the second frame's header is queued; then all images but the first recover
      their own. Otherwise already the first image takes the second frame's header. */
  lemma NoForeignHeaderIff<I, H>(c: Config, run: seq<Label<I, H>>)
    requires ValidRun(c, Init(), run) && OneToOneRun(c, Init(), run)
    ensures var s := Run(c, Init(), run);
            && (NoForeignHeader(s) <==> s.decoded == [] || s.foundAtFirst == 0)
            && (NoForeignHeader(s) ==> Recovered(s.decoded))
            && (!NoForeignHeader(s) ==> s.decoded[0].1.Some? && s.decoded[0].1.value.frame == 1)
  {
    RunKeepsFed(c, Init(), run);
  }

  /** The bad case happens: here the image of the first frame takes the second's header. */
  lemma FirstImageTakesSecondHeader<I, H>(image: I, h: H) returns (c: Config, run: seq<Label<I, H>>)
    ensures ValidRun(c, Init(), run) && OneToOneRun(c, Init(), run)
    ensures Run(c, Init(), run).fed == 1 && Run(c, Init(), run).decoded == [(image, Some(Header(1, h)))]
  {
    c := Config(1, 1);
    var p := Packet(h, true, false);
    var l1, l2, l3, l4 := WorkTop, WorkPull(Some(p)), WorkPushHeader, DecoderYield(image);
    var s0: State<I, H> := Init();
    var s1 := s0.(pc := Pull);
    var s2 := s0.(pc := PushHeader(p));
    var s3 := s0.(pc := FeedDecoder(p), headers := [Header(1, h)], headersQueued := [Header(1, h)]);
    assert Apply(c, s0, l1) == s1 && Apply(c, s1, l2) == s2 && Apply(c, s2, l3) == s3;
    run := RunCons(c, s3, l4, []);
    run := RunCons(c, s2, l3, run);
    run := RunCons(c, s1, l2, run);
    run := RunCons(c, s0, l1, run);
  }

  lemma RunCons<I, H>(c: Config, s: State<I, H>, l: Label<I, H>, rest: seq<Label<I, H>>) returns (run: seq<Label<I, H>>)
    requires Enabled(c, s, l) && ValidRun(c, Apply(c, s, l), rest)
    ensures ValidRun(c, s, run) && Run(c, s, run) == Run(c, Apply(c, s, l), rest)
    ensures OneImagePerFrame(s, l) && OneToOneRun(c, Apply(c, s, l), rest) ==> OneToOneRun(c, s, run)
    ensures NoImage(run) <==> !l.DecoderYield? && NoImage(rest)
  {
    run := [l] + rest;
    assert run[0] == l && run[1..] == rest;
    assert forall x :: x in run <==> x == l || x in rest;
  }

  // ----- The blocking push of the EOS -----

  /** Once the consumer has let go, a full destination queue stays full, whatever the decoder still
      does, and Work never finishes. */
  lemma {:induction false} FullQueueBlocksForever<I, H>(c: Config, s: State<I, H>, run: seq<Label<I, H>>)
    requires !s.consumerHolds && IsFull(c.destCapacity, s.dest) && !s.pc.Finished? && ValidRun(c, s, run)
    ensures !Run(c, s, run).pc.Finished?
    decreases run
  {
    if run == [] {
    } else {
      FullQueueBlocksForever(c, Apply(c, s, run[0]), run[1..]);
    }
  }

  /** The images that the decoder cannot but queue, or drop, before Work gets to its EOS: the one in
      its callback, and one more if only a callback can make room in the header queue. */
  function Pending<I, H>(c: Config, s: State<I, H>): nat {
    (if s.InCallback() then 1 else 0) + (if s.pc.PushHeader? && IsFull(c.headerCapacity, s.headers) then 1 else 0)
  }

  predicate HasRoom<I, H>(c: Config, s: State<I, H>) {
    !IsLimited(c.destCapacity) || |s.dest| + Pending(c, s) < c.destCapacity
  }

  /** The header queue is within its capacity, which is positive. */
  predicate HeadersFit<I, H>(c: Config, s: State<I, H>) {
    c.headerCapacity > 0 && (IsLimited(c.headerCapacity) ==> |s.headers| <= c.headerCapacity)
  }

  lemma {:induction false} RunKeepsHeadersFit<I, H>(c: Config, s: State<I, H>, run: seq<Label<I, H>>)
    requires HeadersFit(c, s) && ValidRun(c, s, run)
    ensures HeadersFit(c, Run(c, s, run))
    decreases run
  {
    if run == [] {
    } else {
      RunKeepsHeadersFit(c, Apply(c, s, run[0]), run[1..]);
    }
  }

  ghost predicate Abandoned<I, H>(c: Config, s: State<I, H>) {
    Inv(s) && HeadersFit(c, s) && !s.consumerHolds && !s.pc.Finished?
  }

  lemma NoRoomStays<I, H>(c: Config, s: State<I, H>, l: Label<I, H>)
    requires Abandoned(c, s) && !HasRoom(c, s) && Enabled(c, s, l)
    ensures Abandoned(c, Apply(c, s, l)) && !HasRoom(c, Apply(c, s, l))
  {
    StepKeepsInv(c, s, l);
  }

  lemma {:induction false} WithoutRoomNeverFinished<I, H>(c: Config, s: State<I, H>, run: seq<Label<I, H>>)
    requires Abandoned(c, s) && !HasRoom(c, s) && ValidRun(c, s, run)
    ensures !Run(c, s, run).pc.Finished?
    decreases run
  {
    if run == [] {
    } else {
      NoRoomStays(c, s, run[0]);
      WithoutRoomNeverFinished(c, Apply(c, s, run[0]), run[1..]);
    }
  }

  /** The step that brings an abandoned Work nearer to its end: a callback under way comes first, and
      Work waits for another one only if its header does not fit. */
  function Onward<I, H>(c: Config, s: State<I, H>, image: I): Label<I, H> {
    if s.InCallback() then DecoderEnqueue
    else match s.pc
      case Top => WorkTop
      case Pull => WorkPull(None)
      case PushHeader(_) => if IsFull(c.headerCapacity, s.headers) then DecoderYield(image) else WorkPushHeader
      case FeedDecoder(_) => WorkFeed(false)
      case SignalEos => WorkSignalEos
      case DestroyRunner => WorkDestroyRunner
      case _ => WorkPushEos
  }

  /** How far Work is from its end. */
  function Distance<I, H>(c: Config, s: State<I, H>): nat {
    var stage := match s.pc
      case Finished => 0
      case PushEos => 1
      case DestroyRunner => 2
      case SignalEos => 3
      case PushHeader(_) => 5
      case _ => 4;
    4 * stage + (if s.pc.PushHeader? && IsFull(c.headerCapacity, s.headers) then 2 else 0)
    + if s.InCallback() then 1 else 0
  }

  lemma OnwardStep<I, H>(c: Config, s: State<I, H>, image: I)
    requires Abandoned(c, s) && HasRoom(c, s)
    ensures var l := Onward(c, s, image);
            && Enabled(c, s, l) && Inv(Apply(c, s, l)) && HeadersFit(c, Apply(c, s, l))
            && !Apply(c, s, l).consumerHolds && Distance(c, Apply(c, s, l)) < Distance(c, s)
            && (Apply(c, s, l).pc.Finished? || HasRoom(c, Apply(c, s, l)))
  {
    StepKeepsInv(c, s, Onward(c, s, image));
  }

  lemma {:induction false} RoomLetsFinish<I, H>(c: Config, s: State<I, H>, image: I) returns (run: seq<Label<I, H>>)
    requires Abandoned(c, s) && HasRoom(c, s)
    ensures ValidRun(c, s, run) && Run(c, s, run).pc.Finished?
    decreases Distance(c, s)
  {
    OnwardStep(c, s, image);
    var l := Onward(c, s, image);
    var s' := Apply(c, s, l);
    var rest := [];
    if !s'.pc.Finished? {
      rest := RoomLetsFinish(c, s', image);
    }
    run := RunCons(c, s, l, rest);
  }

  /** The exact condition: however far an abandoned Work has got, it can finish if and only if the
      destination queue has room for its EOS behind the images that must come before it. */
  lemma AbandonedWorkFinishesIff<I, H>(c: Config, s: State<I, H>, image: I)
    requires Inv(s) && HeadersFit(c, s) && !s.consumerHolds && !s.pc.Finished?
    ensures (exists run :: ValidRun(c, s, run) && Run(c, s, run).pc.Finished?) <==>
            !IsLimited(c.destCapacity) || |s.dest| + Pending(c, s) < c.destCapacity
  {
    if HasRoom(c, s) {
      var run := RoomLetsFinish(c, s, image);
    } else {
      forall run | ValidRun(c, s, run)
        ensures !Run(c, s, run).pc.Finished?
      {
        WithoutRoomNeverFinished(c, s, run);
      }
    }
  }

  /** And every state that a run can be left in is one of these. */
  lemma AbandonedRunFinishesIff<I, H>(c: Config, run: seq<Label<I, H>>, image: I)
    requires c.headerCapacity > 0 && ValidRun(c, Init(), run)
    requires !Run(c, Init(), run).consumerHolds && !Run(c, Init(), run).pc.Finished?
    ensures var s := Run(c, Init(), run);
            (exists more :: ValidRun(c, s, more) && Run(c, s, more).pc.Finished?) <==>
            !IsLimited(c.destCapacity) || |s.dest| + Pending(c, s) < c.destCapacity
  {
    RunKeepsInv(c, Init(), run);
    RunKeepsHeadersFit(c, Init(), run);
    AbandonedWorkFinishesIff(c, Run(c, Init(), run), image);
  }

  lemma NothingEnabled<I, H>(c: Config, s: State<I, H>)
    requires s.pc.PushEos? && !s.consumerHolds && IsFull(c.destCapacity, s.dest)
    requires !s.runnerAlive && !s.InCallback()
    ensures forall l :: !Enabled(c, s, l)
  {
  }

  /** A Work thread that never ends is reachable: the consumer lets go of a queue that an image fills. */
  lemma SomeRunBlocksForever<I, H>(image: I) returns (c: Config, run: seq<Label<I, H>>)
    ensures ValidRun(c, Init(), run)
    ensures var s := Run(c, Init(), run);
            && s.pc.PushEos? && !s.consumerHolds && IsFull(c.destCapacity, s.dest)
            && forall l :: !Enabled(c, s, l)
  {
    c := Config(1, 1);
    var s0: State<I, H> := Init();
    var l1, l2, l3, l4 := DecoderYield(image), DecoderEnqueue, ConsumerRelease, WorkTop;
    var l5, l6 := WorkSignalEos, WorkDestroyRunner;
    var s1 := Apply(c, s0, l1);
    var s2 := Apply(c, s1, l2);
    var s3 := Apply(c, s2, l3);
    var s4 := Apply(c, s3, l4);
    var s5 := Apply(c, s4, l5);
    NothingEnabled(c, Apply(c, s5, l6));
    run := RunCons(c, s5, l6, []);
    run := RunCons(c, s4, l5, run);
    run := RunCons(c, s3, l4, run);
    run := RunCons(c, s2, l3, run);
    run := RunCons(c, s1, l2, run);
    run := RunCons(c, s0, l1, run);
  }

  // ----- The retried push of a header -----

  ghost predicate NoImage<I, H>(run: seq<Label<I, H>>) {
    forall l <- run :: !l.DecoderYield?
  }

  lemma {:induction false} FullHeaderQueueHoldsFeed<I, H>(c: Config, s: State<I, H>, run: seq<Label<I, H>>)
    requires s.pc.PushHeader? && IsFull(c.headerCapacity, s.headers) && ValidRun(c, s, run) && NoImage(run)
    ensures Run(c, s, run).pc == s.pc
    decreases run
  {
    if run == [] {
    } else {
      assert run[0] in run;
      FullHeaderQueueHoldsFeed(c, Apply(c, s, run[0]), run[1..]);
    }
  }

  /** Feed retries until its header fits and does not look at the consumer meanwhile: as long as the
      decoder makes no image, it gets on if and only if the header queue is not full. */
  lemma FeedGetsOnIff<I, H>(c: Config, s: State<I, H>)
    requires s.pc.PushHeader?
    ensures (exists run :: ValidRun(c, s, run) && NoImage(run) && !Run(c, s, run).pc.PushHeader?) <==>
            !IsFull(c.headerCapacity, s.headers)
  {
    if IsFull(c.headerCapacity, s.headers) {
      forall run | ValidRun(c, s, run) && NoImage(run)
        ensures Run(c, s, run).pc.PushHeader?
      {
        FullHeaderQueueHoldsFeed(c, s, run);
      }
    } else {
      var run := RunCons(c, s, WorkPushHeader, []);
      assert NoImage(run);
    }
  }

  lemma PullHead<I, H>(c: Config, s: State<I, H>, p: Packet<H>, rest: seq<Label<I, H>>) returns (run: seq<Label<I, H>>)
    requires s.pc.Top? && s.consumerHolds && p.isFrameHead && !p.isEos
    requires ValidRun(c, s.(pc := PushHeader(p)), rest)
    ensures ValidRun(c, s, run) && Run(c, s, run) == Run(c, s.(pc := PushHeader(p)), rest)
    ensures NoImage(run) <==> NoImage(rest)
  {
    run := RunCons(c, s.(pc := Pull), WorkPull(Some(p)), rest);
    run := RunCons(c, s, WorkTop, run);
  }

  lemma FeedHead<I, H>(c: Config, s: State<I, H>, p: Packet<H>, fed: State<I, H>, rest: seq<Label<I, H>>)
    returns (run: seq<Label<I, H>>)
    requires s.pc.Top? && !IsFull(c.headerCapacity, s.headers)
    requires var header := Header(|s.headersQueued| + 1, p.header);
             fed == s.(fed := s.fed + 1, headers := s.headers + [header], headersQueued := s.headersQueued + [header])
    requires ValidRun(c, fed, rest)
    ensures var pushing := s.(pc := PushHeader(p));
            ValidRun(c, pushing, run) && Run(c, pushing, run) == Run(c, fed, rest)
    ensures NoImage(run) <==> NoImage(rest)
  {
    var queued := fed.(fed := s.fed, pc := FeedDecoder(p));
    assert Apply(c, queued, WorkFeed(true)) == fed;
    run := RunCons(c, queued, WorkFeed(true), rest);
    run := RunCons(c, s.(pc := PushHeader(p)), WorkPushHeader, run);
  }

  /** This happens: two frame heads, a header queue of one, and a decoder that wants more input before
      its first image. The consumer has let go, and nothing but an image can still happen. */
  lemma SomeFeedNeedsAnImage<I, H>(h: H) returns (c: Config, run: seq<Label<I, H>>)
    ensures ValidRun(c, Init(), run) && NoImage(run)
    ensures var s := Run(c, Init(), run);
            && s.pc.PushHeader? && !s.consumerHolds && IsFull(c.headerCapacity, s.headers)
            && forall l :: Enabled(c, s, l) ==> l.DecoderYield?
  {
    c := Config(1, 1);
    var p := Packet(h, true, false);
    var fed := Init<I, H>().(fed := 2, headers := [Header(1, h)], headersQueued := [Header(1, h)]);
    run := RunCons(c, fed.(pc := PushHeader(p)), ConsumerRelease, []);
    run := PullHead(c, fed, p, run);
    run := FeedHead(c, Init(), p, fed, run);
    run := PullHead(c, Init(), p, run);
  }

  // ----- The callback -----

  /** What the callback is given: a decoded image, or a status. */
  datatype Yield<I> = Decoded(image: I) | Failed(code: Code)

  datatype Code = RESOURCE_EXHAUSTED | NOT_FOUND | OTHER_ERROR

  /** The status that the yielder reports at the end of the stream. */
  const EOS_CODE := NOT_FOUND

  /** PushImagePacket. A status queues nothing and takes no header; only ResourceExhausted, which the
      yielder never reports at its end, is answered with OK. An image does what DecoderYield and
      DecoderEnqueue do, in any state with these queues; `packs` is whether it converts to a packet. */
  method PushImagePacket<I, H>(c: Config, yielded: Yield<I>, packs: bool, headers: seq<Header<H>>, dest: seq<Out<I, H>>,
                               ghost s: State<I, H>)
    returns (ok: bool, headers': seq<Header<H>>, dest': seq<Out<I, H>>)
    requires s.runnerAlive && Inv(s) && !s.InCallback() && s.headers == headers && s.dest == dest
    ensures ok <==> if yielded.Decoded? then packs else yielded.code == RESOURCE_EXHAUSTED
    ensures !(yielded.Decoded? && packs) ==> headers' == headers && dest' == dest
    ensures yielded == Failed(EOS_CODE) ==> !ok && headers' == headers && dest' == dest
    ensures yielded.Decoded? && packs ==>
              var after := Apply(c, Apply(c, s, DecoderYield(yielded.image)), DecoderEnqueue);
              headers' == after.headers && dest' == after.dest
  {
    headers', dest' := headers, dest;
    if yielded.Failed? {
      return yielded.code == RESOURCE_EXHAUSTED, headers', dest';
    }
    if !packs {
      return false, headers', dest';
    }
    var header := None;
    if headers != [] {
      header, headers' := Some(headers[0]), headers[1..];
    }
    if !IsFull(c.destCapacity, dest) {
      dest' := dest + [Image(yielded.image, header)];
    }
    ok := true;
  }

  // ----- The Work loop -----

  /** One turn: whether the consumer still holds its share, what the source queue yields within the
      timeout, and whether the packet converts to a buffer that the runner accepts. */
  datatype Turn<H> = Turn(consumerHolds: bool, pulled: Option<Packet<H>>, accepted: bool)
  {
    /** A packet is fed that is not the source's EOS. */
    predicate Feeds() {
      consumerHolds && pulled.Some? && !pulled.value.isEos
    }
  }

  /** The headers of the frame heads among the packets that were fed. */
  function FrameHeads<H>(turns: seq<Turn<H>>): seq<H> {
    if turns == [] then []
    else
      var last := turns[|turns| - 1];
      FrameHeads(turns[..|turns| - 1]) +
      if last.Feeds() && last.pulled.value.isFrameHead then [last.pulled.value.header] else []
  }

  /** Feed: the header of a frame head is queued even if the packet is not accepted afterwards. */
  method Feed<H>(yielder: RawImageYielder, p: Packet<H>, accepted: bool, headers: seq<H>)
    returns (ok: bool, headers': seq<H>)
    requires yielder.Valid() && yielder.signals == 0
    ensures ok == accepted
    ensures headers' == headers + if p.isFrameHead then [p.header] else []
  {
    headers' := headers;
    if p.isFrameHead {
      headers' := headers' + [p.header];
    }
    ok := yielder.Feed(accepted);
  }

  /** Work: every turn but the last one used feeds a packet that is accepted. It ends with the first
      turn in which the consumer has let go, or nothing comes, or the source's EOS does, or the packet
      is not accepted; it has then queued exactly the headers of the frame heads it fed, shuts the
      decoder down once, and only then pushes one EOS behind what is in the destination queue. */
  method Work<I, H>(yielder: RawImageYielder, turns: seq<Turn<H>>, dest: seq<Out<I, H>>)
    returns (ended: bool, headers: seq<H>, used: nat, dest': seq<Out<I, H>>)
    requires yielder.Valid() && yielder.signals == 0
    modifies yielder
    ensures yielder.Valid() && used <= |turns|
    ensures headers == FrameHeads(turns[..used])
    ensures forall i | 0 <= i < used - 1 ::
              turns[i].consumerHolds && turns[i].pulled.Some? && !turns[i].pulled.value.isEos && turns[i].accepted
    ensures ended <==> used > 0 && var last := turns[used - 1];
              !(last.consumerHolds && last.pulled.Some? && !last.pulled.value.isEos && last.accepted)
    // no header comes from the last turn unless its packet was fed
    ensures used > 0 && !(turns[used - 1].consumerHolds && turns[used - 1].pulled.Some? && !turns[used - 1].pulled.value.isEos) ==>
              headers == FrameHeads(turns[..used - 1])
    ensures !ended ==> used == |turns|
    ensures yielder.signals == (if ended then 1 else 0) && yielder.hasRunner == !ended
    ensures dest' == dest + if ended then [Eos] else []
  {
    ended, headers, used, dest' := false, [], 0, dest;
    while used < |turns| && !ended
      invariant used <= |turns| && yielder.Valid() && yielder.signals == 0
      invariant headers == FrameHeads(turns[..used])
      invariant forall i | 0 <= i < used - 1 :: turns[i].Feeds() && turns[i].accepted
      invariant ended <==> used > 0 && !(turns[used - 1].Feeds() && turns[used - 1].accepted)
    {
      var turn := turns[used];
      assert turns[..used + 1][..used] == turns[..used];
      used := used + 1;
      if !turn.consumerHolds || turn.pulled == None {
        ended := true;
      } else if turn.pulled.value.isEos {
        ended := true;
      } else {
        var ok;
        ok, headers := Feed(yielder, turn.pulled.value, turn.accepted, headers);
        ended := !ok;
      }
    }
    assert used > 0 ==> turns[..used][..used - 1] == turns[..used - 1];
    if ended {
      yielder.SignalEos();
      dest' := dest' + [Eos];
    }
  }
}
