/** StatusOrData<T>: a status and a value in two unions whose lifetimes are managed by hand. */
module StatusOrDatas {

  type Id = nat

  /** StatusCode::kInternal */
  const INTERNAL := 13
  const INVALID_ARGUMENT_MESSAGE := "An OK status is not a valid constructor argument to StatusOr<T>"

  datatype Status = OkStatus | Error(code: nat, message: string)

  /** What a StatusOr is meant to be: a value, or a status that is not OK. */
  datatype StatusOr<T> = Value(value: T) | Failure(status: Status)

  /** A failure with an OK status is turned into an internal error. */
  function Failed<T>(s: Status): (r: StatusOr<T>)
    ensures r.Failure? && !r.status.OkStatus? && (!s.OkStatus? ==> r.status == s)
    ensures s.OkStatus? ==> r.status == Error(INTERNAL, INVALID_ARGUMENT_MESSAGE)
  {
    Failure(if s.OkStatus? then Error(INTERNAL, INVALID_ARGUMENT_MESSAGE) else s)
  }

  // ----- Memory: union members and their lifetimes -----

  /** A union member: storage that does or does not hold a live object. */
  datatype Slot<T> = Dead | Live(value: T)

  datatype Object<T> = Object(status: Slot<Status>, data: Slot<T>)

  /** fault: a dead object was used, a live one was constructed over, or one was left behind. */
  datatype Memory<T> = Memory(objects: map<Id, Object<T>>, built: nat, destroyed: nat, fault: bool)

  ghost function Empty<T>(): Memory<T> {
    Memory(map[], 0, 0, false)
  }

  /** The argument of a construction or an assignment: a value of the caller, or the value of a
      StatusOr, copied or moved from. What a move leaves behind is up to T. */
  datatype Source<T> = Given(value: T) | CopyOf(id: Id) | MoveOf(id: Id, residue: T)

  /** Status has no move operations, so moving a status copies it. */
  datatype StatusSource = GivenStatus(status: Status) | StatusOf(id: Id)

  ghost predicate Has<T>(m: Memory<T>, src: Source<T>) {
    src.Given? || src.id in m.objects
  }

  ghost predicate HasStatus<T>(m: Memory<T>, src: StatusSource) {
    src.GivenStatus? || src.id in m.objects
  }

  ghost function Put<T>(m: Memory<T>, id: Id, o: Object<T>): Memory<T> {
    m.(objects := m.objects[id := o])
  }

  ghost function Fault<T>(m: Memory<T>): Memory<T> {
    m.(fault := true)
  }

  ghost function Allocate<T>(m: Memory<T>, id: Id): Memory<T> {
    Put(m, id, Object(Dead, Dead))
  }

  /** The storage of an object ends; nothing in it may be alive. */
  ghost function Release<T>(m: Memory<T>, id: Id): Memory<T>
    requires id in m.objects
  {
    if m.objects[id] != Object(Dead, Dead) then Fault(m) else m.(objects := m.objects - {id})
  }

  ghost predicate Ok<T>(m: Memory<T>, id: Id)
    requires id in m.objects
  {
    m.objects[id].status == Live(OkStatus)
  }

  ghost function MakeStatus<T>(m: Memory<T>, id: Id, src: StatusSource): (m': Memory<T>)
    requires id in m.objects && HasStatus(m, src)
    ensures m'.objects.Keys == m.objects.Keys
  {
    var s := if src.GivenStatus? then Live(src.status) else m.objects[src.id].status;
    if m.objects[id].status.Live? || s.Dead? then Fault(m)
    else Put(m, id, m.objects[id].(status := s))
  }

  ghost function SetStatus<T>(m: Memory<T>, id: Id, src: StatusSource): (m': Memory<T>)
    requires id in m.objects && HasStatus(m, src)
    ensures m'.objects.Keys == m.objects.Keys
  {
    var s := if src.GivenStatus? then Live(src.status) else m.objects[src.id].status;
    if m.objects[id].status.Dead? || s.Dead? then Fault(m)
    else Put(m, id, m.objects[id].(status := s))
  }

  ghost function DestroyStatus<T>(m: Memory<T>, id: Id): (m': Memory<T>)
    requires id in m.objects
    ensures m'.objects.Keys == m.objects.Keys
  {
    if m.objects[id].status.Dead? then Fault(m) else Put(m, id, m.objects[id].(status := Dead))
  }

  /** Placement new: the argument is read, and left as the move leaves it, when the value is made. */
  ghost function MakeValue<T>(m: Memory<T>, id: Id, src: Source<T>): (m': Memory<T>)
    requires id in m.objects && Has(m, src)
    ensures m'.objects.Keys == m.objects.Keys
  {
    var v := if src.Given? then Live(src.value) else m.objects[src.id].data;
    if m.objects[id].data.Live? || v.Dead? then Fault(m)
    else
      var n := if src.MoveOf? then Put(m, src.id, m.objects[src.id].(data := Live(src.residue))) else m;
      Put(n, id, m.objects[id].(data := v)).(built := m.built + 1)
  }

  ghost function DestroyValue<T>(m: Memory<T>, id: Id): (m': Memory<T>)
    requires id in m.objects
    ensures m'.objects.Keys == m.objects.Keys
  {
    if m.objects[id].data.Dead? then Fault(m)
    else Put(m, id, m.objects[id].(data := Dead)).(destroyed := m.destroyed + 1)
  }

  ghost function EnsureNotOk<T>(m: Memory<T>, id: Id): Memory<T>
    requires id in m.objects
  {
    if Ok(m, id) then SetStatus(m, id, GivenStatus(Error(INTERNAL, INVALID_ARGUMENT_MESSAGE))) else m
  }

  // ----- The operations of StatusOrData -----

  datatype Op<T> =
    | ConstructValue(id: Id, src: Source<T>)
    | ConstructStatus(id: Id, status: StatusSource)
    | ConstructOther(id: Id, src: Source<T>)
    | AssignValue(id: Id, src: Source<T>)
    | AssignStatus(id: Id, status: StatusSource)
    | AssignOther(id: Id, src: Source<T>)
    | Destruct(id: Id)

  /** What any C++ caller respects: an object is constructed once before it is used, a value is
      referred to only where there is one, and the copy or move operations are given an object. */
  ghost predicate Legal<T>(m: Memory<T>, op: Op<T>) {
    && (op.id in m.objects <==> !(op.ConstructValue? || op.ConstructStatus? || op.ConstructOther?))
    && (match op
        case ConstructValue(_, src) => LegalValue(m, src)
        case AssignValue(_, src) => LegalValue(m, src)
        case ConstructStatus(_, s) => HasStatus(m, s)
        case AssignStatus(_, s) => HasStatus(m, s)
        case ConstructOther(_, src) => !src.Given? && Has(m, src)
        case AssignOther(_, src) => !src.Given? && Has(m, src)
        case Destruct(_) => true)
  }

  ghost predicate LegalValue<T>(m: Memory<T>, src: Source<T>) {
    Has(m, src) && (!src.Given? ==> Ok(m, src.id))
  }

  ghost function ConstructedValue<T>(m: Memory<T>, id: Id, src: Source<T>): Memory<T>
    requires id !in m.objects && Has(m, src)
  {
    MakeStatus(MakeValue(Allocate(m, id), id, src), id, GivenStatus(OkStatus))
  }

  ghost function ConstructedOther<T>(m: Memory<T>, id: Id, src: Source<T>): Memory<T>
    requires id !in m.objects && !src.Given? && Has(m, src)
  {
    if Ok(m, src.id) then ConstructedValue(m, id, src)
    else MakeStatus(Allocate(m, id), id, StatusOf(src.id))
  }

  ghost function AssignedValue<T>(m: Memory<T>, id: Id, src: Source<T>): Memory<T>
    requires id in m.objects && Has(m, src)
  {
    if Ok(m, id) then MakeValue(DestroyValue(m, id), id, src)
    else SetStatus(MakeValue(m, id, src), id, GivenStatus(OkStatus))
  }

  ghost function AssignedStatus<T>(m: Memory<T>, id: Id, s: StatusSource): Memory<T>
    requires id in m.objects && HasStatus(m, s)
  {
    var cleared := if Ok(m, id) then DestroyValue(m, id) else m;
    EnsureNotOk(SetStatus(cleared, id, s), id)
  }

  ghost function AssignedOther<T>(m: Memory<T>, id: Id, src: Source<T>): Memory<T>
    requires id in m.objects && !src.Given? && Has(m, src)
  {
    if id == src.id then m
    else if Ok(m, src.id) then AssignedValue(m, id, src)
    else AssignedStatus(m, id, StatusOf(src.id))
  }

  ghost function Destructed<T>(m: Memory<T>, id: Id): Memory<T>
    requires id in m.objects
  {
    var n := if Ok(m, id) then DestroyValue(DestroyStatus(m, id), id) else DestroyStatus(m, id);
    Release(n, id)
  }

  ghost function Step<T>(m: Memory<T>, op: Op<T>): Memory<T>
    requires Legal(m, op)
  {
    match op
    case ConstructValue(id, src) => ConstructedValue(m, id, src)
    case ConstructStatus(id, s) => EnsureNotOk(MakeStatus(Allocate(m, id), id, s), id)
    case ConstructOther(id, src) => ConstructedOther(m, id, src)
    case AssignValue(id, src) => AssignedValue(m, id, src)
    case AssignStatus(id, s) => AssignedStatus(m, id, s)
    case AssignOther(id, src) => AssignedOther(m, id, src)
    case Destruct(id) => Destructed(m, id)
  }

  /** The assignments that the documentation forbids: of a value to the object that holds it. */
  predicate AssignsToItself<T>(op: Op<T>) {
    op.AssignValue? && !op.src.Given? && op.src.id == op.id
  }

  // ----- What the operations mean -----

  ghost predicate Consistent<T>(o: Object<T>) {
    o.status.Live? && (o.data.Live? <==> o.status.value.OkStatus?)
  }

  ghost function Meaning<T>(o: Object<T>): StatusOr<T>
    requires Consistent(o)
  {
    if o.data.Live? then Value(o.data.value) else Failure(o.status.value)
  }

  ghost function LiveValues<T>(m: Memory<T>): set<Id> {
    set id | id in m.objects && m.objects[id].data.Live?
  }

  ghost predicate Counted<T>(m: Memory<T>) {
    m.built == m.destroyed + |LiveValues(m)|
  }

  ghost predicate AllConsistent<T>(m: Memory<T>) {
    forall id | id in m.objects :: Consistent(m.objects[id])
  }

  ghost predicate Inv<T>(m: Memory<T>) {
    !m.fault && AllConsistent(m) && Counted(m)
  }

  ghost function Meanings<T>(m: Memory<T>): map<Id, StatusOr<T>>
    requires AllConsistent(m)
  {
    map id | id in m.objects :: Meaning(m.objects[id])
  }

  // The reference: each operation on plain sums, without lifetimes.

  ghost function AfterMove<T>(s: map<Id, StatusOr<T>>, src: Source<T>): map<Id, StatusOr<T>> {
    if src.MoveOf? && src.id in s && s[src.id].Value? then s[src.id := Value(src.residue)] else s
  }

  ghost function StatusIn<T>(s: map<Id, StatusOr<T>>, src: StatusSource): Status {
    if src.GivenStatus? then src.status
    else if src.id in s && s[src.id].Failure? then s[src.id].status
    else OkStatus
  }

  ghost function Reference<T>(s: map<Id, StatusOr<T>>, op: Op<T>): map<Id, StatusOr<T>> {
    if op.Destruct? then s - {op.id}
    else if op.ConstructStatus? || op.AssignStatus? then s[op.id := Failed(StatusIn(s, op.status))]
    else if op.src.Given? then s[op.id := Value(op.src.value)]
    else if op.src.id !in s || op.id == op.src.id then s
    else AfterMove(s, op.src)[op.id := s[op.src.id]]
  }

  // ----- Every primitive keeps the count -----

  lemma CountedAfterMake<T>(m: Memory<T>, id: Id, src: Source<T>)
    requires id in m.objects && Has(m, src) && Counted(m)
    ensures Counted(MakeValue(m, id, src))
  {
    var m' := MakeValue(m, id, src);
    if m'.built == m.built {
      assert LiveValues(m') == LiveValues(m);
    } else {
      assert LiveValues(m') == LiveValues(m) + {id};
    }
  }

  lemma CountedAfterDestroy<T>(m: Memory<T>, id: Id)
    requires id in m.objects && Counted(m)
    ensures Counted(DestroyValue(m, id))
  {
    var m' := DestroyValue(m, id);
    assert LiveValues(m') == LiveValues(m) - {id};
  }

  lemma CountedAfterStatus<T>(m: Memory<T>, m': Memory<T>)
    requires Counted(m) && m'.built == m.built && m'.destroyed == m.destroyed
    requires m'.objects.Keys == m.objects.Keys
    requires forall id | id in m.objects :: m'.objects[id].data == m.objects[id].data
    ensures Counted(m')
  {
    assert LiveValues(m') == LiveValues(m);
  }

  lemma CountedAfterStorage<T>(m: Memory<T>, id: Id)
    requires Counted(m)
    ensures id !in m.objects ==> Counted(Allocate(m, id))
    ensures id in m.objects ==> Counted(Release(m, id))
  {
    if id !in m.objects {
      assert LiveValues(Allocate(m, id)) == LiveValues(m);
    } else {
      assert LiveValues(Release(m, id)) == LiveValues(m);
    }
  }

  // ----- What each operation leaves in memory -----

  /** Memory in which id holds the value of src and everything else is as before, except what a move
      leaves behind. */
  ghost predicate HoldsValue<T>(m: Memory<T>, id: Id, src: Source<T>, m': Memory<T>)
    requires LegalValue(m, src) && AllConsistent(m)
  {
    && !m'.fault && Counted(m')
    && var v := if src.Given? then src.value else m.objects[src.id].data.value;
       var moved := if src.MoveOf? then Put(m, src.id, Object(Live(OkStatus), Live(src.residue))) else m;
       m'.objects == moved.objects[id := Object(Live(OkStatus), Live(v))]
  }

  ghost predicate HoldsStatus<T>(m: Memory<T>, id: Id, s: Status, m': Memory<T>) {
    && !m'.fault && Counted(m')
    && m'.objects == m.objects[id := Object(Live(Failed<T>(s).status), Dead)]
  }

  ghost function StatusFrom<T>(m: Memory<T>, src: StatusSource): Status
    requires HasStatus(m, src) && AllConsistent(m)
  {
    if src.GivenStatus? then src.status else m.objects[src.id].status.value
  }

  lemma ConstructedValueCounted<T>(m: Memory<T>, id: Id, src: Source<T>)
    requires Inv(m) && id !in m.objects && LegalValue(m, src)
    ensures Counted(ConstructedValue(m, id, src))
  {
    CountedAfterStorage(m, id);
    CountedAfterMake(Allocate(m, id), id, src);
    CountedAfterStatus(MakeValue(Allocate(m, id), id, src), ConstructedValue(m, id, src));
  }

  lemma ConstructValueEffect<T>(m: Memory<T>, id: Id, src: Source<T>)
    requires Inv(m) && id !in m.objects && LegalValue(m, src)
    ensures HoldsValue(m, id, src, ConstructedValue(m, id, src))
  {
    ConstructedValueCounted(m, id, src);
  }

  lemma AssignOverValueEffect<T>(m: Memory<T>, id: Id, src: Source<T>)
    requires Inv(m) && id in m.objects && LegalValue(m, src) && (src.Given? || src.id != id)
    requires Ok(m, id)
    ensures HoldsValue(m, id, src, AssignedValue(m, id, src))
  {
    CountedAfterDestroy(m, id);
    CountedAfterMake(DestroyValue(m, id), id, src);
  }

  lemma AssignOverFailureEffect<T>(m: Memory<T>, id: Id, src: Source<T>)
    requires Inv(m) && id in m.objects && LegalValue(m, src) && (src.Given? || src.id != id)
    requires !Ok(m, id)
    ensures HoldsValue(m, id, src, AssignedValue(m, id, src))
  {
    CountedAfterMake(m, id, src);
    CountedAfterStatus(MakeValue(m, id, src), AssignedValue(m, id, src));
  }

  lemma AssignValueEffect<T>(m: Memory<T>, id: Id, src: Source<T>)
    requires Inv(m) && id in m.objects && LegalValue(m, src) && (src.Given? || src.id != id)
    ensures HoldsValue(m, id, src, AssignedValue(m, id, src))
  {
    if Ok(m, id) {
      AssignOverValueEffect(m, id, src);
    } else {
      AssignOverFailureEffect(m, id, src);
    }
  }

  lemma ConstructStatusEffect<T>(m: Memory<T>, id: Id, s: StatusSource)
    requires Inv(m) && id !in m.objects && HasStatus(m, s)
    ensures HoldsStatus(m, id, StatusFrom(m, s), EnsureNotOk(MakeStatus(Allocate(m, id), id, s), id))
  {
    CountedAfterStorage(m, id);
    CountedAfterStatus(Allocate(m, id), EnsureNotOk(MakeStatus(Allocate(m, id), id, s), id));
  }

  lemma AssignStatusEffect<T>(m: Memory<T>, id: Id, s: StatusSource)
    requires Inv(m) && id in m.objects && HasStatus(m, s)
    ensures HoldsStatus(m, id, StatusFrom(m, s), AssignedStatus(m, id, s))
  {
    var cleared := if Ok(m, id) then DestroyValue(m, id) else m;
    CountedAfterDestroy(m, id);
    ClearedStatusEffect(m, cleared, id, s);
  }

  lemma ClearedStatusEffect<T>(m: Memory<T>, cleared: Memory<T>, id: Id, s: StatusSource)
    requires AllConsistent(m) && id in m.objects && HasStatus(m, s)
    requires !cleared.fault && Counted(cleared)
    requires cleared.objects == m.objects[id := m.objects[id].(data := Dead)]
    ensures HoldsStatus(m, id, StatusFrom(m, s), EnsureNotOk(SetStatus(cleared, id, s), id))
  {
    CountedAfterStatus(cleared, EnsureNotOk(SetStatus(cleared, id, s), id));
  }

  lemma DestructEffect<T>(m: Memory<T>, id: Id)
    requires Inv(m) && id in m.objects
    ensures var m' := Destructed(m, id);
            !m'.fault && Counted(m') && m'.objects == m.objects - {id}
  {
    var m1 := DestroyStatus(m, id);
    CountedAfterStatus(m, m1);
    CountedAfterDestroy(m1, id);
    CountedAfterStorage(if Ok(m, id) then DestroyValue(m1, id) else m1, id);
  }

  // ----- Every operation keeps the invariant and means what the reference says -----

  ghost predicate Refines<T>(m: Memory<T>, op: Op<T>)
    requires Inv(m) && Legal(m, op)
  {
    Inv(Step(m, op)) && Meanings(Step(m, op)) == Reference(Meanings(m), op)
  }

  lemma ValueMeaning<T>(m: Memory<T>, id: Id, src: Source<T>, m': Memory<T>)
    requires AllConsistent(m) && LegalValue(m, src) && HoldsValue(m, id, src, m')
    ensures AllConsistent(m')
    ensures src.Given? ==> Meanings(m') == Meanings(m)[id := Value(src.value)]
    ensures !src.Given? && src.id != id ==>
              Meanings(m') == AfterMove(Meanings(m), src)[id := Meanings(m)[src.id]]
  {
  }

  lemma StatusMeaning<T>(m: Memory<T>, id: Id, s: Status, m': Memory<T>)
    requires AllConsistent(m) && HoldsStatus(m, id, s, m')
    ensures AllConsistent(m') && Meanings(m') == Meanings(m)[id := Failed(s)]
  {
  }

  lemma ValueRefines<T>(m: Memory<T>, op: Op<T>)
    requires Inv(m) && Legal(m, op) && (op.ConstructValue? || op.AssignValue?) && !AssignsToItself(op)
    ensures Refines(m, op)
  {
    if op.ConstructValue? {
      ConstructValueEffect(m, op.id, op.src);
    } else {
      AssignValueEffect(m, op.id, op.src);
    }
    ValueMeaning(m, op.id, op.src, Step(m, op));
  }

  lemma StatusRefines<T>(m: Memory<T>, op: Op<T>)
    requires Inv(m) && Legal(m, op) && (op.ConstructStatus? || op.AssignStatus?)
    ensures Refines(m, op)
  {
    if op.ConstructStatus? {
      ConstructStatusEffect(m, op.id, op.status);
    } else {
      AssignStatusEffect(m, op.id, op.status);
    }
    StatusMeaning(m, op.id, StatusFrom(m, op.status), Step(m, op));
  }

  lemma OtherValueRefines<T>(m: Memory<T>, op: Op<T>)
    requires Inv(m) && Legal(m, op) && (op.ConstructOther? || op.AssignOther?) && op.id != op.src.id
    requires Ok(m, op.src.id)
    ensures Refines(m, op)
  {
    if op.ConstructOther? {
      ConstructValueEffect(m, op.id, op.src);
    } else {
      AssignValueEffect(m, op.id, op.src);
    }
    ValueMeaning(m, op.id, op.src, Step(m, op));
  }

  lemma OtherFailureRefines<T>(m: Memory<T>, op: Op<T>)
    requires Inv(m) && Legal(m, op) && (op.ConstructOther? || op.AssignOther?) && op.id != op.src.id
    requires !Ok(m, op.src.id)
    ensures Refines(m, op)
  {
    var s := StatusOf(op.src.id);
    if op.ConstructOther? {
      ConstructStatusEffect(m, op.id, s);
    } else {
      AssignStatusEffect(m, op.id, s);
    }
    StatusMeaning(m, op.id, StatusFrom(m, s), Step(m, op));
  }

  lemma StepRefines<T>(m: Memory<T>, op: Op<T>)
    requires Inv(m) && Legal(m, op) && !AssignsToItself(op)
    ensures Refines(m, op)
  {
    if op.ConstructValue? || op.AssignValue? {
      ValueRefines(m, op);
    } else if op.ConstructStatus? || op.AssignStatus? {
      StatusRefines(m, op);
    } else if op.Destruct? {
      DestructEffect(m, op.id);
    } else if op.id != op.src.id && Ok(m, op.src.id) {
      OtherValueRefines(m, op);
    } else if op.id != op.src.id {
      OtherFailureRefines(m, op);
    }
  }

  /** The only operation that goes wrong is the one that the documentation forbids. */
  lemma StepFaultsIff<T>(m: Memory<T>, op: Op<T>)
    requires Inv(m) && Legal(m, op)
    ensures Step(m, op).fault <==> AssignsToItself(op)
  {
    if !AssignsToItself(op) {
      StepRefines(m, op);
    }
  }

  // ----- Runs -----

  /** Nothing is asked of what follows a fault. */
  ghost predicate LegalRun<T>(m: Memory<T>, ops: seq<Op<T>>)
    decreases |ops|
  {
    ops == [] || m.fault || (Legal(m, ops[0]) && LegalRun(Step(m, ops[0]), ops[1..]))
  }

  ghost function Run<T>(m: Memory<T>, ops: seq<Op<T>>): Memory<T>
    requires LegalRun(m, ops)
    decreases |ops|
  {
    if ops == [] || m.fault then m else Run(Step(m, ops[0]), ops[1..])
  }

  ghost function ReferenceRun<T>(s: map<Id, StatusOr<T>>, ops: seq<Op<T>>): map<Id, StatusOr<T>>
    decreases |ops|
  {
    if ops == [] then s else ReferenceRun(Reference(s, ops[0]), ops[1..])
  }

  ghost predicate NoSelfAssignment<T>(ops: seq<Op<T>>) {
    forall i | 0 <= i < |ops| :: !AssignsToItself(ops[i])
  }

  lemma {:induction false} RunRefines<T>(m: Memory<T>, ops: seq<Op<T>>)
    requires Inv(m) && LegalRun(m, ops)
    ensures Run(m, ops).fault <==> !NoSelfAssignment(ops)
    ensures NoSelfAssignment(ops) ==>
              Inv(Run(m, ops)) && Meanings(Run(m, ops)) == ReferenceRun(Meanings(m), ops)
    decreases |ops|
  {
    if ops == [] {
    } else {
      var op, rest := ops[0], ops[1..];
      assert ops == [op] + rest;
      StepFaultsIff(m, op);
      if AssignsToItself(op) {
        assert !NoSelfAssignment(ops);
      } else {
        StepRefines(m, op);
        RunRefines(Step(m, op), rest);
        assert NoSelfAssignment(ops) <==> NoSelfAssignment(rest);
      }
    }
  }

  /** Any run of constructions, copies, moves, assignments and destructions: it goes wrong if and only
      if a value is assigned to the object that holds it. Otherwise the live values are exactly those
      under an OK status, the objects mean what plain sums would, and once the last object is gone as
      many values were destroyed as were constructed. */
  lemma LifetimesInAnyRun<T>(ops: seq<Op<T>>)
    requires LegalRun(Empty<T>(), ops)
    ensures var m := Run(Empty<T>(), ops);
            && (m.fault <==> exists i | 0 <= i < |ops| :: AssignsToItself(ops[i]))
            && (!m.fault ==>
                  && Inv(m)
                  && Meanings(m) == ReferenceRun(map[], ops)
                  && (m.objects == map[] ==> m.built == m.destroyed))
  {
    var start := Empty<T>();
    assert LiveValues(start) == {};
    RunRefines(start, ops);
    assert Meanings(start) == map[];
    var m := Run(start, ops);
    assert m.objects == map[] ==> LiveValues(m) == {};
  }

  // ----- The class -----

  /** One object. The preconditions of MakeValue and DestroyValue are what a fault would violate, so
      that no operation faults; each one is proved to be the step above. */
  class StatusOrData<T> {
    var status: Slot<Status>
    var data: Slot<T>
    ghost var built: nat
    ghost var destroyed: nat

    ghost predicate Valid()
      reads this
    {
      Consistent(Object(status, data)) && built == destroyed + (if data.Live? then 1 else 0)
    }

    /** The memory that holds this object alone, as object 0. */
    ghost function Alone(): Memory<T>
      reads this
    {
      Memory(map[0 := Object(status, data)], built, destroyed, false)
    }

    /** The memory that holds this object as 0 and another one as 1, with the counts of this one. */
    ghost function With(other: StatusOrData<T>): Memory<T>
      reads this, other
    {
      Memory(map[0 := Object(status, data), 1 := Object(other.status, other.data)], built, destroyed, false)
    }

    /** The memory before this object is constructed from another one. */
    static ghost function Before(other: StatusOrData<T>): Memory<T>
      reads other
    {
      Memory(map[1 := Object(other.status, other.data)], 0, 0, false)
    }

    predicate Ok()
      reads this
    {
      status == Live(OkStatus)
    }

    method MakeValue(value: T)
      requires data.Dead?
      modifies `data, `built
      ensures data == Live(value) && built == old(built) + 1
    {
      data, built := Live(value), built + 1;
    }

    method DestroyValue()
      requires data.Live?
      modifies `data, `destroyed
      ensures data == Dead && destroyed == old(destroyed) + 1
    {
      data, destroyed := Dead, destroyed + 1;
    }

    method EnsureNotOk()
      requires status.Live?
      modifies `status
      ensures status == Live(Failed<T>(old(status).value).status)
    {
      if Ok() {
        status := Live(Error(INTERNAL, INVALID_ARGUMENT_MESSAGE));
      }
    }

    constructor FromValue(value: T)
      ensures Valid() && Alone() == Step(Empty(), Op.ConstructValue(0, Given(value)))
    {
      status, data, built, destroyed := Dead, Dead, 0, 0;
      new;
      MakeValue(value);
      status := Live(OkStatus);
    }

    constructor FromStatus(s: Status)
      ensures Valid() && Alone() == Step(Empty(), ConstructStatus(0, GivenStatus(s)))
    {
      status, data, built, destroyed := Live(s), Dead, 0, 0;
      new;
      EnsureNotOk();
    }

    constructor Copy(other: StatusOrData<T>)
      requires other.Valid()
      ensures Valid() && With(other) == Step(old(Before(other)), ConstructOther(0, CopyOf(1)))
    {
      status, data, built, destroyed := Dead, Dead, 0, 0;
      new;
      if other.Ok() {
        MakeValue(other.data.value);
        status := Live(OkStatus);
      } else {
        status := other.status;
      }
    }

    constructor Move(other: StatusOrData<T>, residue: T)
      requires other.Valid()
      modifies other
      ensures Valid() && other.Valid()
      ensures With(other) == Step(old(Before(other)), ConstructOther(0, MoveOf(1, residue)))
    {
      status, data, built, destroyed := Dead, Dead, 0, 0;
      new;
      if other.Ok() {
        MakeValue(other.data.value);
        other.data := Live(residue);
        status := Live(OkStatus);
      } else {
        status := other.status;
      }
    }

    method AssignValue(value: T)
      requires Valid()
      modifies this
      ensures Valid() && Alone() == Step(old(Alone()), Op.AssignValue(0, Given(value)))
    {
      if Ok() {
        DestroyValue();
        MakeValue(value);
      } else {
        MakeValue(value);
        status := Live(OkStatus);
      }
    }

    method AssignStatus(s: Status)
      requires Valid()
      modifies this
      ensures Valid() && Alone() == Step(old(Alone()), Op.AssignStatus(0, GivenStatus(s)))
    {
      if Ok() {
        DestroyValue();
      }
      status := Live(s);
      EnsureNotOk();
    }

    method CopyAssign(other: StatusOrData<T>)
      requires Valid() && other.Valid()
      modifies this
      ensures Valid() && other.Valid()
      ensures other == this ==> Alone() == Step(old(Alone()), AssignOther(0, CopyOf(0)))
      ensures other != this ==> With(other) == Step(old(With(other)), AssignOther(0, CopyOf(1)))
    {
      if this == other {
        return;
      }
      if other.Ok() {
        AssignValue(other.data.value);
      } else {
        AssignStatus(other.status.value);
      }
    }

    method MoveAssign(other: StatusOrData<T>, residue: T)
      requires Valid() && other.Valid()
      modifies this, other
      ensures Valid() && other.Valid()
      ensures other == this ==> Alone() == Step(old(Alone()), AssignOther(0, MoveOf(0, residue)))
      ensures other != this ==> With(other) == Step(old(With(other)), AssignOther(0, MoveOf(1, residue)))
    {
      if this == other {
        return;
      }
      if other.Ok() {
        AssignValue(other.data.value);
        other.data := Live(residue);
      } else {
        AssignStatus(other.status.value);
      }
    }

    /** The destructor: nothing is left alive, and every value made has been destroyed. */
    method Destruct()
      requires Valid()
      modifies this
      ensures status == Dead && data == Dead && built == destroyed
      ensures Memory(map[], built, destroyed, false) == Step(old(Alone()), Op.Destruct(0))
    {
      if Ok() {
        status := Dead;
        DestroyValue();
      } else {
        status := Dead;
      }
    }
  }
}
