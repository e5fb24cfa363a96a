/** The queue of src/packet-queue.c under every interleaving of one producer and
    one consumer. A step makes at most one access to what the other side may write,
    or one write to what it may read: head and the marker flag are written by the
    producer only, tail by the consumer only. Memory is sequentially consistent. A run is a schedule of steps; the theorems hold
    for every schedule and for any initial contents of the slots. */
module QueueInterleaving {
  import opened PacketQueue

  /** One put that has returned (or, for a publishing put, moved the head). */
  datatype PutRecord = PutRecord(event: int, data: seq<Byte>, kind: PutKind)
  type Attempt = a: PutRecord | a.kind.Stored? ==> |a.data| <= CBUF_EVENT_ENTRY_DATA_LENGTH
    witness PutRecord(0, [], Full)

  /** Where the producer stands in modac_cb_put; 'seen' is how many gets had
      been published when it read the tail. */
  datatype Producer =
    | PIdle
    | PSnap(event: int, payload: Payload, head: nat, tail: nat, seen: nat)
    | PStoreLength(event: int, payload: Payload, head: nat)
    | PStoreData(event: int, payload: Payload, head: nat)
    | PStoreFlag(event: int, payload: Payload, head: nat)
    | PMarkLength(event: int, payload: Payload, head: nat)
    | PMarkFlag(event: int, payload: Payload, head: nat)
    | PPublish(event: int, payload: Payload, head: nat, kind: PutKind)
  {
    /** The producer has begun to fill slot head and has not published it. */
    predicate Writing() { !PIdle? && !PSnap? && !(PPublish? && kind.Stale?) }
  }

  /** Where the consumer stands in modac_cb_get, with the bytes copied so far. */
  datatype Consumer =
    | CIdle
    | CSnap(tail: nat)
    | CLength(tail: nat, bytes: seq<Byte>)
    | CData(tail: nat, bytes: seq<Byte>, length: U16)
    | CPublish(tail: nat, bytes: seq<Byte>, copied: nat)
    | CReturn(tail: nat, bytes: seq<Byte>, copied: nat)

  /** A completed get: the bytes copied out of the slot, how many bytes the copy
      made in all, and the number returned, which is counted again from the slot. */
  datatype Got = Got(bytes: seq<Byte>, copied: nat, returned: nat)

  datatype State = State(
    ring: Ring,
    producer: Producer,
    consumer: Consumer,
    attempts: seq<Attempt>,
    published: nat,
    results: seq<Got>)

  datatype Action = StartPut(event: int, data: seq<Byte>) | Produce | StartGet | Consume

  predicate Shape(s: State) {
    && s.ring.Valid()
    && (!s.producer.PIdle? ==> s.producer.head < CBUF_EVENT_COUNT)
    && (!s.consumer.CIdle? ==> s.consumer.tail < CBUF_EVENT_COUNT)
  }

  // ----- the steps

  function ProduceStep(s: State): (s': State)
    requires Shape(s)
    ensures Shape(s')
  {
    var r := s.ring;
    match s.producer
    case PIdle => s
    case PSnap(event, payload, h, t, _) =>
      (match KindOfPut(CircSpace(h, t), r.overflowWritten, |payload|)
       case Stored =>
         s.(ring := r.(slots := r.slots[h := WithEvent(r.slots[h], event)]), producer := PStoreLength(event, payload, h))
       case Marked =>
         s.(ring := r.(slots := r.slots[h := WithEvent(r.slots[h], MODAC_EVENT_READ_OVERFLOW)]),
            producer := PMarkLength(event, payload, h))
       case Stale => s.(producer := PPublish(event, payload, h, Stale))
       case Full => s.(producer := PIdle, attempts := s.attempts + [PutRecord(event, payload, Full)])
       case TooLong => s)
    case PStoreLength(event, payload, h) =>
      s.(ring := r.(slots := r.slots[h := WithLength(r.slots[h], |payload|)]), producer := PStoreData(event, payload, h))
    case PStoreData(event, payload, h) =>
      s.(ring := r.(slots := r.slots[h := WithData(r.slots[h], payload)]), producer := PStoreFlag(event, payload, h))
    case PStoreFlag(event, payload, h) =>
      s.(ring := r.(overflowWritten := false), producer := PPublish(event, payload, h, Stored))
    case PMarkLength(event, payload, h) =>
      s.(ring := r.(slots := r.slots[h := WithLength(r.slots[h], 0)]), producer := PMarkFlag(event, payload, h))
    case PMarkFlag(event, payload, h) =>
      s.(ring := r.(overflowWritten := true), producer := PPublish(event, payload, h, Marked))
    case PPublish(event, payload, h, kind) =>
      s.(ring := r.(head := Next(h)), producer := PIdle,
         attempts := s.attempts + [PutRecord(event, payload, kind)])
  }

  /** What a copy of so many data bytes takes from the slot itself. */
  function InSlot(e: Entry, length: U16): seq<Byte> {
    e.data[..if length <= CBUF_EVENT_ENTRY_DATA_LENGTH then length else CBUF_EVENT_ENTRY_DATA_LENGTH]
  }

  function ConsumeStep(s: State): (s': State)
    requires Shape(s)
    ensures Shape(s')
  {
    var r := s.ring;
    match s.consumer
    case CIdle => s
    case CSnap(t) => s.(consumer := CLength(t, EventBytes(r.slots[t].event)))
    case CLength(t, bytes) => s.(consumer := CData(t, bytes, r.slots[t].length))
    case CData(t, bytes, length) => s.(consumer := CPublish(t, bytes + InSlot(r.slots[t], length), 2 + length))
    case CPublish(t, bytes, copied) =>
      s.(ring := r.(tail := Next(t)), published := s.published + 1, consumer := CReturn(t, bytes, copied))
    case CReturn(t, bytes, copied) => s.(consumer := CIdle, results := s.results + [Got(bytes, copied, 2 + r.slots[t].length)])
  }

  function Step(s: State, a: Action): (s': State)
    requires Shape(s)
    ensures Shape(s')
  {
    match a
    case StartPut(event, data) =>
      if !s.producer.PIdle? then s
      else if |data| > CBUF_EVENT_ENTRY_DATA_LENGTH then
        s.(attempts := s.attempts + [PutRecord(event, data, TooLong)])
      else s.(producer := PSnap(event, data, s.ring.head, s.ring.tail, s.published))
    case Produce => ProduceStep(s)
    case StartGet =>
      if s.consumer.CIdle? && CircCnt(s.ring.head, s.ring.tail) > 0 then s.(consumer := CSnap(s.ring.tail)) else s
    case Consume => ConsumeStep(s)
  }

  function Run(init: Memory, schedule: seq<Action>): (s: State)
    ensures Shape(s)
  {
    if schedule == [] then State(Ring(init, 0, 0, false), PIdle, CIdle, [], 0, [])
    else Step(Run(init, schedule[..|schedule| - 1]), schedule[|schedule| - 1])
  }

  // ----- the write log

  /** The puts that moved the head, in order: position j of the log went through
      slot j modulo the ring size. */
  function Log(attempts: seq<Attempt>): seq<Attempt> {
    if attempts == [] then []
    else
      var last := attempts[|attempts| - 1];
      Log(attempts[..|attempts| - 1]) + if last.kind.Accepted() then [last] else []
  }

  /** What the slot of log position j holds once that position is published. A
      stale position shows again what the slot held a full turn earlier. */
  function Content(init: Memory, log: seq<Attempt>, j: nat): Entry
    requires j < |log|
    decreases j, 1
  {
    match log[j].kind
    case Stored => StoredEntry(Before(init, log, j), log[j].event, log[j].data)
    case Marked => MarkerEntry(Before(init, log, j))
    case _ => Before(init, log, j)
  }

  /** What that slot held just before. */
  function Before(init: Memory, log: seq<Attempt>, j: nat): Entry
    requires j <= |log|
    decreases j, 0
  {
    if j < CBUF_EVENT_COUNT then init[j] else Content(init, log, j - CBUF_EVENT_COUNT)
  }

  /** An overflow marker was written and no event has been stored since. */
  predicate MarkerPending(attempts: seq<Attempt>) {
    if attempts == [] then false
    else
      match attempts[|attempts| - 1].kind
      case Stored => false
      case Marked => true
      case _ => MarkerPending(attempts[..|attempts| - 1])
  }

  /** What a put of the given kind needs of the puts before it. */
  predicate MarkRule(before: seq<Attempt>, kind: PutKind) {
    && (kind.Marked? ==> !MarkerPending(before))
    && (kind.Stale? || kind.Full? ==> MarkerPending(before))
  }

  // ----- the invariant

  /** The state of the slot being filled, given what it held before. */
  function Partial(before: Entry, p: Producer): Entry {
    match p
    case PIdle => before
    case PSnap(_, _, _, _, _) => before
    case PStoreLength(event, _, _) => WithEvent(before, event)
    case PStoreData(event, payload, _) => WithLength(WithEvent(before, event), |payload|)
    case PStoreFlag(event, payload, _) => StoredEntry(before, event, payload)
    case PMarkLength(_, _, _) => WithEvent(before, MODAC_EVENT_READ_OVERFLOW)
    case PMarkFlag(_, _, _) => MarkerEntry(before)
    case PPublish(event, payload, _, kind) =>
      match kind
      case Stored => StoredEntry(before, event, payload)
      case Marked => MarkerEntry(before)
      case _ => before
  }

  ghost predicate Indices(s: State) {
    var h := |Log(s.attempts)|;
    && s.published <= h <= s.published + CBUF_EVENT_COUNT - 1
    && s.ring.head == h % CBUF_EVENT_COUNT
    && s.ring.tail == s.published % CBUF_EVENT_COUNT
  }

  ghost predicate ProducerInv(s: State) {
    var h := |Log(s.attempts)|;
    var room := s.published + CBUF_EVENT_COUNT - 1 - h;
    var ow := s.ring.overflowWritten;
    && (!s.producer.PIdle? ==> s.producer.head == s.ring.head)
    && (!(s.producer.PPublish? && !s.producer.kind.Stale?) ==> ow == MarkerPending(s.attempts))
    && (room == 0 ==> ow)
    && match s.producer
       case PIdle => true
       case PSnap(_, _, _, tail, seen) =>
         && tail == seen % CBUF_EVENT_COUNT
         && seen <= s.published
         && h <= seen + CBUF_EVENT_COUNT - 1
         && (h == seen + CBUF_EVENT_COUNT - 1 ==> ow)
       case PStoreLength(_, _, _) => room >= 2
       case PStoreData(_, _, _) => room >= 2
       case PStoreFlag(_, _, _) => room >= 2
       case PMarkLength(_, _, _) => room >= 1 && !ow
       case PMarkFlag(_, _, _) => room >= 1 && !ow
       case PPublish(_, _, _, kind) =>
         && kind.Accepted()
         && room >= (if kind.Stored? then 2 else 1)
         && MarkRule(s.attempts, kind)
         && ow == !kind.Stored?
  }

  ghost predicate Slots(init: Memory, s: State)
    requires Shape(s)
  {
    var log := Log(s.attempts);
    && (forall j: nat | j < |log| < j + CBUF_EVENT_COUNT ::
          s.ring.slots[j % CBUF_EVENT_COUNT] == Content(init, log, j))
    && (forall k: nat | |log| < k < CBUF_EVENT_COUNT :: s.ring.slots[k] == init[k])
    && s.ring.slots[|log| % CBUF_EVENT_COUNT] == Partial(Before(init, log, |log|), s.producer)
  }

  ghost predicate ConsumerInv(init: Memory, s: State) {
    var log := Log(s.attempts);
    match s.consumer
    case CIdle => true
    case CSnap(t) => t == s.ring.tail && s.published < |log|
    case CLength(t, bytes) =>
      t == s.ring.tail && s.published < |log| && bytes == EventBytes(Content(init, log, s.published).event)
    case CData(t, bytes, length) =>
      && t == s.ring.tail && s.published < |log|
      && bytes == EventBytes(Content(init, log, s.published).event)
      && length == Content(init, log, s.published).length
    case CPublish(t, bytes, copied) =>
      && t == s.ring.tail && s.published < |log|
      && bytes == Frame(Content(init, log, s.published))
      && copied == CopyCount(Content(init, log, s.published))
    case CReturn(t, bytes, copied) =>
      && 0 < s.published <= |log|
      && t == (s.published - 1) % CBUF_EVENT_COUNT
      && bytes == Frame(Content(init, log, s.published - 1))
      && copied == CopyCount(Content(init, log, s.published - 1))
  }

  function GotFrom(e: Entry): Got { Got(Frame(e), CopyCount(e), CopyCount(e)) }

  ghost predicate Results(init: Memory, s: State) {
    var log := Log(s.attempts);
    && |s.results| == s.published - (if s.consumer.CReturn? then 1 else 0)
    && |s.results| <= |log|
    && forall i | 0 <= i < |s.results| ::
         s.results[i] == GotFrom(Content(init, log, i))
  }

  ghost predicate Marking(s: State) {
    forall i | 0 <= i < |s.attempts| :: MarkRule(s.attempts[..i], s.attempts[i].kind)
  }

  ghost predicate Inv(init: Memory, s: State) {
    && Shape(s)
    && Indices(s)
    && ProducerInv(s)
    && Slots(init, s)
    && ConsumerInv(init, s)
    && Results(init, s)
    && Marking(s)
  }

  // ----- helper lemmas

  lemma {:induction false} ContentStable(init: Memory, log: seq<Attempt>, x: Attempt, j: nat)
    requires j < |log|
    ensures Content(init, log + [x], j) == Content(init, log, j)
    ensures Before(init, log + [x], j) == Before(init, log, j)
  {
    if j >= CBUF_EVENT_COUNT {
      ContentStable(init, log, x, j - CBUF_EVENT_COUNT);
    }
  }

  lemma BeforeStable(init: Memory, log: seq<Attempt>, x: Attempt)
    ensures Before(init, log + [x], |log|) == Before(init, log, |log|)
  {
    if |log| >= CBUF_EVENT_COUNT {
      ContentStable(init, log, x, |log| - CBUF_EVENT_COUNT);
    }
  }

  lemma AppendAttempt(attempts: seq<Attempt>, x: Attempt)
    ensures x.kind.Accepted() ==> Log(attempts + [x]) == Log(attempts) + [x]
    ensures !x.kind.Accepted() ==> Log(attempts + [x]) == Log(attempts)
    ensures MarkerPending(attempts + [x])
         == (if x.kind.Stored? then false else if x.kind.Marked? then true else MarkerPending(attempts))
  {
    assert (attempts + [x])[..|attempts|] == attempts;
  }

  lemma MarkingAppend(s: State, x: Attempt)
    requires Marking(s) && MarkRule(s.attempts, x.kind)
    ensures Marking(s.(attempts := s.attempts + [x]))
  {
    var a := s.attempts + [x];
    forall i | 0 <= i < |a| ensures MarkRule(a[..i], a[i].kind) {
      assert a[..i] == s.attempts[..i];
    }
  }

  /** Positions less than a full turn apart have different slots. */
  lemma DifferentSlots(i: nat, j: nat)
    requires i < j < i + CBUF_EVENT_COUNT
    ensures i % CBUF_EVENT_COUNT != j % CBUF_EVENT_COUNT
  {
  }

  lemma FullTurn(i: nat)
    requires i >= CBUF_EVENT_COUNT
    ensures i % CBUF_EVENT_COUNT == (i - CBUF_EVENT_COUNT) % CBUF_EVENT_COUNT
  {
  }

  lemma NextSlot(i: nat)
    ensures Next(i % CBUF_EVENT_COUNT) == (i + 1) % CBUF_EVENT_COUNT
  {
  }

  lemma SpaceIsRoom(head: nat, tail: nat)
    requires tail <= head <= tail + CBUF_EVENT_COUNT - 1
    ensures CircSpace(head % CBUF_EVENT_COUNT, tail % CBUF_EVENT_COUNT) == tail + CBUF_EVENT_COUNT - 1 - head
    ensures CircCnt(head % CBUF_EVENT_COUNT, tail % CBUF_EVENT_COUNT) == head - tail
  {
    var d := head - tail;
    var turns := head / CBUF_EVENT_COUNT - tail / CBUF_EVENT_COUNT;
    assert head % CBUF_EVENT_COUNT - tail % CBUF_EVENT_COUNT == d - turns * CBUF_EVENT_COUNT;
    assert turns == 0 || turns == 1;
  }

  /** The slot that the consumer is copying, or has just freed, shows the
      published content of its position. */
  lemma SlotRead(init: Memory, s: State, j: nat)
    requires Inv(init, s)
    requires j < |Log(s.attempts)|
    requires j == s.published || j + 1 == s.published
    ensures s.ring.slots[j % CBUF_EVENT_COUNT] == Content(init, Log(s.attempts), j)
    ensures s.producer.Writing() ==> s.producer.head != j % CBUF_EVENT_COUNT
  {
    var log := Log(s.attempts);
    if |log| < j + CBUF_EVENT_COUNT {
      DifferentSlots(j, |log|);
    } else {
      assert |log| == j + CBUF_EVENT_COUNT;
      assert |log| % CBUF_EVENT_COUNT == j % CBUF_EVENT_COUNT;
      assert Before(init, log, |log|) == Content(init, log, j);
    }
  }

  // ----- every step keeps the invariant

  /** Writing the slot at the head leaves the published slots alone. */
  lemma SlotsAfterWrite(init: Memory, s: State, s': State)
    requires Shape(s) && Indices(s) && Slots(init, s) && Shape(s')
    requires s'.attempts == s.attempts
    requires s'.ring.slots == s.ring.slots[s.ring.head := s'.ring.slots[s.ring.head]]
    requires s'.ring.slots[s.ring.head] == Partial(Before(init, Log(s.attempts), |Log(s.attempts)|), s'.producer)
    ensures Slots(init, s')
  {
    var h := |Log(s.attempts)|;
    forall j: nat | j < h < j + CBUF_EVENT_COUNT
      ensures s'.ring.slots[j % CBUF_EVENT_COUNT] == Content(init, Log(s.attempts), j)
    {
      DifferentSlots(j, h);
    }
  }

  lemma ConsumerUntouched(init: Memory, s: State, s': State)
    requires Shape(s) && ConsumerInv(init, s) && Results(init, s)
    requires s'.attempts == s.attempts && s'.ring.tail == s.ring.tail && s'.published == s.published
    requires s'.consumer == s.consumer && s'.results == s.results
    ensures ConsumerInv(init, s') && Results(init, s')
  {
  }

  lemma ProducerBranch(s: State)
    requires Shape(s) && Indices(s) && ProducerInv(s)
    requires s.producer.PSnap?
    ensures var s' := ProduceStep(s);
      && (s'.attempts == s.attempts ==> Indices(s') && ProducerInv(s'))
      && (s'.attempts != s.attempts ==> s.ring.overflowWritten)
  {
    SpaceIsRoom(|Log(s.attempts)|, s.producer.seen);
  }

  /** A producer step inside the slot being filled changes nothing else. */
  lemma ProduceInSlot(init: Memory, s: State)
    requires Inv(init, s)
    requires !s.producer.PIdle? && !s.producer.PPublish?
    requires ProduceStep(s).attempts == s.attempts
    ensures Inv(init, ProduceStep(s))
  {
    var s' := ProduceStep(s);
    if s.producer.PSnap? {
      ProducerBranch(s);
    }
    SlotsAfterWrite(init, s, s');
    ConsumerUntouched(init, s, s');
  }

  lemma ProduceFull(init: Memory, s: State)
    requires Inv(init, s)
    requires s.producer.PSnap?
    requires ProduceStep(s).attempts != s.attempts
    ensures Inv(init, ProduceStep(s))
  {
    var x := PutRecord(s.producer.event, s.producer.payload, Full);
    ProducerBranch(s);
    AppendAttempt(s.attempts, x);
    MarkingAppend(s, x);
  }

  /** Growing the log does not change what is already in it. */
  lemma LogGrows(init: Memory, s: State, s': State, x: Attempt)
    requires Shape(s) && Indices(s) && ConsumerInv(init, s) && Results(init, s)
    requires Log(s'.attempts) == Log(s.attempts) + [x]
    requires s'.ring.tail == s.ring.tail && s'.published == s.published
    requires s'.consumer == s.consumer && s'.results == s.results
    ensures ConsumerInv(init, s') && Results(init, s')
  {
    var log := Log(s.attempts);
    forall j: nat | j < |log| ensures Content(init, log + [x], j) == Content(init, log, j) {
      ContentStable(init, log, x, j);
    }
  }

  lemma SlotsPublished(init: Memory, s: State, s': State, x: Attempt)
    requires Shape(s) && Slots(init, s) && Shape(s')
    requires s.producer.PPublish? && s'.producer.PIdle? && s'.ring.slots == s.ring.slots
    requires s.producer.kind.Accepted()
    requires x == PutRecord(s.producer.event, s.producer.payload, s.producer.kind)
    requires Log(s'.attempts) == Log(s.attempts) + [x]
    ensures Slots(init, s')
  {
    var log, log' := Log(s.attempts), Log(s'.attempts);
    var h := |log|;
    BeforeStable(init, log, x);
    assert Content(init, log', h) == s.ring.slots[h % CBUF_EVENT_COUNT];
    forall j: nat | j < h + 1 < j + CBUF_EVENT_COUNT
      ensures s.ring.slots[j % CBUF_EVENT_COUNT] == Content(init, log', j)
    {
      if j < h {
        ContentStable(init, log, x, j);
      }
    }
    assert s.ring.slots[(h + 1) % CBUF_EVENT_COUNT] == Before(init, log', h + 1) by {
      if h + 1 >= CBUF_EVENT_COUNT {
        FullTurn(h + 1);
        ContentStable(init, log, x, h + 1 - CBUF_EVENT_COUNT);
      }
    }
  }

  lemma PublishIndices(s: State, s': State, x: Attempt)
    requires Shape(s) && Indices(s) && ProducerInv(s)
    requires s.producer.PPublish? && s' == ProduceStep(s)
    requires x == PutRecord(s.producer.event, s.producer.payload, s.producer.kind)
    requires s'.attempts == s.attempts + [x]
    ensures Log(s'.attempts) == Log(s.attempts) + [x]
    ensures Indices(s') && ProducerInv(s')
  {
    AppendAttempt(s.attempts, x);
    NextSlot(|Log(s.attempts)|);
  }

  lemma ProducePublish(init: Memory, s: State)
    requires Inv(init, s)
    requires s.producer.PPublish?
    ensures Inv(init, ProduceStep(s))
  {
    var s' := ProduceStep(s);
    var x := PutRecord(s.producer.event, s.producer.payload, s.producer.kind);
    PublishIndices(s, s', x);
    MarkingAppend(s, x);
    SlotsPublished(init, s, s', x);
    LogGrows(init, s, s', x);
  }

  lemma ProducePreserves(init: Memory, s: State)
    requires Inv(init, s)
    ensures Inv(init, ProduceStep(s))
  {
    if s.producer.PPublish? {
      ProducePublish(init, s);
    } else if !s.producer.PIdle? {
      if ProduceStep(s).attempts == s.attempts {
        ProduceInSlot(init, s);
      } else {
        ProduceFull(init, s);
      }
    }
  }

  lemma ConsumerCopies(init: Memory, s: State)
    requires Inv(init, s)
    requires s.consumer.CSnap? || s.consumer.CLength? || s.consumer.CData? || s.consumer.CReturn?
    ensures ConsumerInv(init, ConsumeStep(s)) && Results(init, ConsumeStep(s))
  {
    SlotRead(init, s, if s.consumer.CReturn? then s.published - 1 else s.published);
  }

  lemma ConsumerPublishes(init: Memory, s: State)
    requires Shape(s) && Indices(s) && ProducerInv(s) && ConsumerInv(init, s) && Results(init, s)
    requires s.consumer.CPublish?
    ensures var s' := ConsumeStep(s);
      Indices(s') && ProducerInv(s') && ConsumerInv(init, s') && Results(init, s')
  {
    NextSlot(s.published);
  }

  lemma ConsumePreserves(init: Memory, s: State)
    requires Inv(init, s)
    ensures Inv(init, ConsumeStep(s))
  {
    if s.consumer.CPublish? {
      ConsumerPublishes(init, s);
    } else if !s.consumer.CIdle? {
      ConsumerCopies(init, s);
    }
  }

  lemma StartPutPreserves(init: Memory, s: State, event: int, data: seq<Byte>)
    requires Inv(init, s)
    ensures Inv(init, Step(s, StartPut(event, data)))
  {
    if s.producer.PIdle? && |data| > CBUF_EVENT_ENTRY_DATA_LENGTH {
      var x := PutRecord(event, data, TooLong);
      AppendAttempt(s.attempts, x);
      MarkingAppend(s, x);
    }
  }

  lemma StartGetPreserves(init: Memory, s: State)
    requires Inv(init, s)
    ensures Inv(init, Step(s, StartGet))
  {
    SpaceIsRoom(|Log(s.attempts)|, s.published);
  }

  lemma StepPreserves(init: Memory, s: State, a: Action)
    requires Inv(init, s)
    ensures Inv(init, Step(s, a))
  {
    hide Inv, ProduceStep, ConsumeStep;
    match a
    case StartPut(event, data) => StartPutPreserves(init, s, event, data);
    case Produce => ProducePreserves(init, s);
    case StartGet => StartGetPreserves(init, s);
    case Consume => ConsumePreserves(init, s);
  }

  lemma {:induction false} RunInv(init: Memory, schedule: seq<Action>)
    ensures Inv(init, Run(init, schedule))
  {
    if schedule != [] {
      RunInv(init, schedule[..|schedule| - 1]);
      StepPreserves(init, Run(init, schedule[..|schedule| - 1]), schedule[|schedule| - 1]);
    }
  }

  // ----- what every schedule guarantees

  /** Every accepted put has been taken by a get or is still counted. */
  lemma Conservation(init: Memory, schedule: seq<Action>)
    ensures var s := Run(init, schedule);
      && |Log(s.attempts)| == s.published + CircCnt(s.ring.head, s.ring.tail)
      && s.published == |s.results| + if s.consumer.CReturn? then 1 else 0
  {
    RunInv(init, schedule);
    var s := Run(init, schedule);
    SpaceIsRoom(|Log(s.attempts)|, s.published);
  }

  /** The slot in the consumer's hands is never the one being written, and the
      length read again after the tail was published is still that of the copy. */
  lemma RingSafety(init: Memory, schedule: seq<Action>)
    ensures var s := Run(init, schedule);
      && (s.producer.Writing() && !s.consumer.CIdle? ==> s.producer.head != s.consumer.tail)
      && (s.consumer.CReturn? ==> 2 + s.ring.slots[s.consumer.tail].length == s.consumer.copied)
  {
    RunInv(init, schedule);
    var s := Run(init, schedule);
    if !s.consumer.CIdle? {
      SlotRead(init, s, if s.consumer.CReturn? then s.published - 1 else s.published);
    }
  }

  predicate Lost(kind: PutKind) { kind.Full? || kind.Marked? || kind.Stale? }

  /** Put m wrote an overflow marker and nothing was stored from then to put i. */
  predicate MarkedSince(attempts: seq<Attempt>, m: nat, i: nat)
    requires m <= i < |attempts|
  {
    attempts[m].kind.Marked? && forall k | m < k <= i :: !attempts[k].kind.Stored?
  }

  lemma {:induction false} PendingMarker(attempts: seq<Attempt>) returns (m: nat)
    requires MarkerPending(attempts)
    ensures m < |attempts| && MarkedSince(attempts, m, |attempts| - 1)
  {
    var last := |attempts| - 1;
    if attempts[last].kind.Marked? {
      m := last;
    } else {
      var before := attempts[..last];
      m := PendingMarker(before);
      assert attempts[m] == before[m];
      forall k | m < k <= last ensures !attempts[k].kind.Stored? {
        assert k < last ==> attempts[k] == before[k];
      }
    }
  }

  /** Every put of legal length that does not store its event comes with a marker
      written after the last stored event and before the next one. */
  lemma NoSilentLoss(init: Memory, schedule: seq<Action>, i: nat)
    requires i < |Run(init, schedule).attempts|
    requires Lost(Run(init, schedule).attempts[i].kind)
    ensures exists m :: 0 <= m <= i && MarkedSince(Run(init, schedule).attempts, m, i)
  {
    RunInv(init, schedule);
    var a := Run(init, schedule).attempts;
    if a[i].kind.Marked? {
      assert MarkedSince(a, i, i);
    } else {
      assert MarkRule(a[..i], a[i].kind);
      var m := PendingMarker(a[..i]);
      forall k | m < k <= i ensures !a[k].kind.Stored? {
        assert k < i ==> a[..i][k] == a[k];
      }
      assert a[..i][m] == a[m];
      assert MarkedSince(a, m, i);
    }
  }

  lemma {:induction false} MarkedStaysPending(attempts: seq<Attempt>, m: nat)
    requires m < |attempts| && MarkedSince(attempts, m, |attempts| - 1)
    ensures MarkerPending(attempts)
  {
    var last := |attempts| - 1;
    if m < last && !attempts[last].kind.Marked? {
      assert MarkedSince(attempts[..last], m, last - 1);
      MarkedStaysPending(attempts[..last], m);
    }
  }

  /** Two overflow markers always have a stored event between them. */
  lemma MarkersSeparated(init: Memory, schedule: seq<Action>, i: nat, j: nat)
    requires i < j < |Run(init, schedule).attempts|
    requires Run(init, schedule).attempts[i].kind.Marked?
    requires Run(init, schedule).attempts[j].kind.Marked?
    ensures exists k | i < k < j :: Run(init, schedule).attempts[k].kind.Stored?
  {
    RunInv(init, schedule);
    var a := Run(init, schedule).attempts;
    assert MarkRule(a[..j], a[j].kind);
    if forall k | i < k < j :: !a[k].kind.Stored? {
      assert MarkedSince(a[..j], i, j - 1);
      MarkedStaysPending(a[..j], i);
    }
  }

  // ----- order and contents

  /** The message of a log position that was really written. */
  function Message(a: Attempt): seq<Byte> {
    if a.kind.Stored? then EventBytes(EventField(a.event)) + a.data
    else EventBytes(MODAC_EVENT_READ_OVERFLOW)
  }

  /** The messages written, in order. */
  function Messages(log: seq<Attempt>): seq<seq<Byte>> {
    if log == [] then []
    else
      var last := log[|log| - 1];
      Messages(log[..|log| - 1]) + if last.kind.Stale? then [] else [Message(last)]
  }

  function Bytes(results: seq<Got>): seq<seq<Byte>> {
    seq(|results|, i requires 0 <= i < |results| => results[i].bytes)
  }

  predicate StaleFree(log: seq<Attempt>) { forall i | 0 <= i < |log| :: !log[i].kind.Stale? }

  lemma WrittenFrame(init: Memory, log: seq<Attempt>, j: nat)
    requires j < |log| && (log[j].kind.Stored? || log[j].kind.Marked?)
    ensures Frame(Content(init, log, j)) == Message(log[j])
  {
  }

  lemma {:induction false} LogAccepted(attempts: seq<Attempt>)
    ensures forall i | 0 <= i < |Log(attempts)| :: Log(attempts)[i].kind.Accepted()
  {
    if attempts != [] {
      LogAccepted(attempts[..|attempts| - 1]);
    }
  }

  lemma ResultAt(init: Memory, s: State, i: nat)
    requires Shape(s) && Results(init, s) && i < |s.results|
    ensures var log := Log(s.attempts);
      && s.results[i].returned == s.results[i].copied
      && (!log[i].kind.Stale? ==> s.results[i].bytes == Message(log[i]) && s.results[i].copied == |Message(log[i])|)
      && (log[i].kind.Stale? && i >= CBUF_EVENT_COUNT ==> s.results[i] == s.results[i - CBUF_EVENT_COUNT])
      && (log[i].kind.Stale? && i < CBUF_EVENT_COUNT ==> s.results[i] == GotFrom(init[i]))
  {
    var log := Log(s.attempts);
    LogAccepted(s.attempts);
    if !log[i].kind.Stale? {
      WrittenFrame(init, log, i);
    }
  }

  /** The i-th get returns exactly the i-th position of the log: the message when
      one was written there, and otherwise what the slot held a turn before. */
  lemma DeliveredExactly(init: Memory, schedule: seq<Action>, i: nat)
    requires i < |Run(init, schedule).results|
    ensures var s := Run(init, schedule);
      var log := Log(s.attempts);
      && i < |log|
      && s.results[i].returned == s.results[i].copied
      && (!log[i].kind.Stale? ==> s.results[i].bytes == Message(log[i]) && s.results[i].copied == |Message(log[i])|)
      && (log[i].kind.Stale? && i >= CBUF_EVENT_COUNT ==> s.results[i] == s.results[i - CBUF_EVENT_COUNT])
      && (log[i].kind.Stale? && i < CBUF_EVENT_COUNT ==> s.results[i] == GotFrom(init[i]))
  {
    RunInv(init, schedule);
    var s := Run(init, schedule);
    assert Results(init, s);
    ResultAt(init, s, i);
  }

  lemma {:induction false} MessagesCount(log: seq<Attempt>)
    ensures |Messages(log)| <= |log|
    ensures |Messages(log)| == |log| <==> StaleFree(log)
  {
    if log != [] {
      var last := |log| - 1;
      MessagesCount(log[..last]);
      assert StaleFree(log) <==> StaleFree(log[..last]) && !log[last].kind.Stale?;
    }
  }

  lemma {:induction false} MessagesAt(log: seq<Attempt>, i: nat)
    requires StaleFree(log) && i < |log|
    ensures |Messages(log)| == |log| && Messages(log)[i] == Message(log[i])
  {
    MessagesCount(log);
    var last := |log| - 1;
    MessagesCount(log[..last]);
    if i < last {
      MessagesAt(log[..last], i);
    }
  }

  /** Without a stale position the reader gets a prefix of the written messages;
      once drained it has them all, and only them, exactly when no put met a
      queue with one place left while a marker was still pending. */
  lemma FifoExact(init: Memory, schedule: seq<Action>)
    ensures var s := Run(init, schedule);
      var log := Log(s.attempts);
      && (StaleFree(log) ==> Bytes(s.results) <= Messages(log))
      && (|s.results| == |log| ==> (Bytes(s.results) == Messages(log) <==> StaleFree(log)))
  {
    RunInv(init, schedule);
    var s := Run(init, schedule);
    var log := Log(s.attempts);
    MessagesCount(log);
    if StaleFree(log) {
      forall i | 0 <= i < |s.results| ensures Bytes(s.results)[i] == Messages(log)[i] {
        DeliveredExactly(init, schedule, i);
        MessagesAt(log, i);
      }
    }
  }

  // ----- the same steps without interference

  function ProduceTimes(s: State, n: nat): (s': State)
    requires Shape(s)
    ensures Shape(s')
    decreases n
  {
    if n == 0 then s else ProduceTimes(ProduceStep(s), n - 1)
  }

  function ConsumeTimes(s: State, n: nat): (s': State)
    requires Shape(s)
    ensures Shape(s')
    decreases n
  {
    if n == 0 then s else ConsumeTimes(ConsumeStep(s), n - 1)
  }

  /** A put that nothing interrupts is the put of the sequential queue. */
  lemma UninterruptedPut(s: State, event: int, data: seq<Byte>)
    requires Shape(s) && s.producer.PIdle?
    ensures var s' := ProduceTimes(Step(s, StartPut(event, data)), 5);
      && s' == s.(ring := PutRing(s.ring, event, data),
                  attempts := s.attempts + [PutRecord(event, data, PutKindOf(s.ring, data))])
  {
    var s1 := Step(s, StartPut(event, data));
    var s2 := ProduceStep(s1);
    var s3 := ProduceStep(s2);
    var s4 := ProduceStep(s3);
    var s5 := ProduceStep(s4);
    var s6 := ProduceStep(s5);
    assert ProduceTimes(s5, 1) == ProduceTimes(s6, 0) == s6;
    assert ProduceTimes(s3, 3) == ProduceTimes(s4, 2) == s6;
    assert ProduceTimes(s1, 5) == ProduceTimes(s2, 4) == s6;
  }

  /** A get that nothing interrupts is the get of the sequential queue. */
  lemma UninterruptedGet(s: State)
    requires Shape(s) && s.consumer.CIdle?
    ensures var s' := ConsumeTimes(Step(s, StartGet), 5);
      && s'.ring == GetRing(s.ring) && s'.consumer.CIdle? && s'.attempts == s.attempts && s'.producer == s.producer
      && s'.results == s.results
         + if GetBytes(s.ring) == [] then [] else [Got(GetBytes(s.ring), GetCount(s.ring), GetCount(s.ring))]
  {
    var s1 := Step(s, StartGet);
    var s2 := ConsumeStep(s1);
    var s3 := ConsumeStep(s2);
    var s4 := ConsumeStep(s3);
    var s5 := ConsumeStep(s4);
    var s6 := ConsumeStep(s5);
    assert ConsumeTimes(s5, 1) == ConsumeTimes(s6, 0) == s6;
    assert ConsumeTimes(s3, 3) == ConsumeTimes(s4, 2) == s6;
    assert ConsumeTimes(s1, 5) == ConsumeTimes(s2, 4) == s6;
  }

  // ----- stale positions do occur

  function PutTimes(r: Ring, event: int, payload: Payload, n: nat): (r': Ring)
    requires r.Valid()
    ensures r'.Valid()
  {
    if n == 0 then r else PutRing(PutTimes(r, event, payload, n - 1), event, payload)
  }

  lemma {:induction false} Filling(init: Memory, event: int, payload: Payload, n: nat)
    requires n < CBUF_EVENT_COUNT - 1
    ensures var r := PutTimes(Ring(init, 0, 0, false), event, payload, n);
      r.head == n && r.tail == 0 && !r.overflowWritten && r.slots[CBUF_EVENT_COUNT - 1] == init[CBUF_EVENT_COUNT - 1]
  {
    hide StoredEntry, MarkerEntry;
    if n > 0 {
      Filling(init, event, payload, n - 1);
      assert CircSpace(n - 1, 0) == CBUF_EVENT_COUNT - n;
      assert Next(n - 1) == n;
    }
  }

  /** A fresh queue filled to the last place, read once and put to once more: the
      put reports success, writes no slot, and the reader will be handed a slot
      that no put has filled. */
  lemma StalePutReachable(init: Memory, event: int, payload: Payload)
    ensures var r := GetRing(PutTimes(Ring(init, 0, 0, false), event, payload, CBUF_EVENT_COUNT - 1));
      && PutKindOf(r, payload) == Stale
      && PutRing(r, event, payload) == r.(head := 0)
      && r.slots[r.head] == init[CBUF_EVENT_COUNT - 1]
  {
    Filling(init, event, payload, CBUF_EVENT_COUNT - 2);
  }
}
