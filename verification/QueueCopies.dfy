/** How many bytes a get copies. The slots of a new queue are not cleared, so a get of
    a slot that no put has written may find any length there. */
module QueueCopies {
  import opened PacketQueue
  import opened QueueInterleaving

  /** sizeof(u16) + CBUF_EVENT_ENTRY_DATA_LENGTH, the buffer that a get is given. */
  const MAX_COPY: nat := 2 + CBUF_EVENT_ENTRY_DATA_LENGTH

  /** The one position on the first turn that a put can pass over. */
  const LAST: nat := CBUF_EVENT_COUNT - 1

  // ----- what the first turn of the log looks like

  predicate EarlyLog(log: seq<Attempt>) {
    && (forall j | 0 <= j < |log| && j < LAST - 1 :: log[j].kind.Stored?)
    && (|log| >= LAST ==> !log[LAST - 1].kind.Stale?)
  }

  /** A marker needs 1022 entries before it, a stale put a marker as well. */
  ghost predicate Early(s: State) {
    var h := |Log(s.attempts)|;
    && EarlyLog(Log(s.attempts))
    && match s.producer
       case PMarkLength(_, _, _) => h >= LAST - 1
       case PMarkFlag(_, _, _) => h >= LAST - 1
       case PPublish(_, _, _, kind) => (kind.Marked? ==> h >= LAST - 1) && (kind.Stale? ==> h >= LAST)
       case _ => true
  }

  lemma {:induction false} PendingInLog(attempts: seq<Attempt>)
    requires MarkerPending(attempts)
    ensures exists j :: 0 <= j < |Log(attempts)| && Log(attempts)[j].kind.Marked?
  {
    var last := |attempts| - 1;
    var before := Log(attempts[..last]);
    if attempts[last].kind.Marked? {
      assert Log(attempts)[|before|].kind.Marked?;
    } else {
      PendingInLog(attempts[..last]);
      var j :| 0 <= j < |before| && before[j].kind.Marked?;
      assert Log(attempts)[j] == before[j];
    }
  }

  lemma SnapEarly(init: Memory, s: State)
    requires Inv(init, s) && Early(s) && s.producer.PSnap?
    ensures Early(ProduceStep(s))
  {
    hide Slots, ConsumerInv, Results, Marking;
    var p := s.producer;
    var h := |Log(s.attempts)|;
    SpaceIsRoom(h, p.seen);
    AppendAttempt(s.attempts, PutRecord(p.event, p.payload, Full));
    if MarkerPending(s.attempts) {
      PendingInLog(s.attempts);
    }
  }

  lemma PublishEarly(s: State)
    requires Shape(s) && Early(s) && s.producer.PPublish? && s.producer.kind.Accepted()
    requires s.producer.kind.Stored? ==> |s.producer.payload| <= CBUF_EVENT_ENTRY_DATA_LENGTH
    ensures Early(ProduceStep(s))
  {
    AppendAttempt(s.attempts, PutRecord(s.producer.event, s.producer.payload, s.producer.kind));
  }

  lemma StepEarly(init: Memory, s: State, a: Action)
    requires Inv(init, s) && Early(s)
    ensures Early(Step(s, a))
  {
    hide Slots, ConsumerInv, Results, Marking, Indices;
    match a
    case StartPut(event, data) =>
      if s.producer.PIdle? && |data| > CBUF_EVENT_ENTRY_DATA_LENGTH {
        AppendAttempt(s.attempts, PutRecord(event, data, TooLong));
      }
    case Produce =>
      if s.producer.PSnap? {
        SnapEarly(init, s);
      } else if s.producer.PPublish? {
        PublishEarly(s);
      }
    case _ =>
  }

  lemma {:induction false} RunEarly(init: Memory, schedule: seq<Action>)
    ensures Early(Run(init, schedule))
  {
    if schedule != [] {
      RunEarly(init, schedule[..|schedule| - 1]);
      RunInv(init, schedule[..|schedule| - 1]);
      StepEarly(init, Run(init, schedule[..|schedule| - 1]), schedule[|schedule| - 1]);
    }
  }

  // ----- which copies are too long

  /** The put at the last place of the first turn passed over a slot in which the
      memory happened to hold a length that does not fit. */
  predicate BadSlotPassed(init: Memory, log: seq<Attempt>) {
    |log| > LAST && log[LAST].kind.Stale? && !init[LAST].Fits()
  }

  lemma {:induction false} LongContent(init: Memory, log: seq<Attempt>, i: nat)
    requires i < |log| && EarlyLog(log) && forall j | 0 <= j < |log| :: log[j].kind.Accepted()
    ensures !Content(init, log, i).Fits() ==> i >= LAST && BadSlotPassed(init, log)
  {
    assert log[i].kind.Accepted();
    match log[i].kind
    case Stored => assert Content(init, log, i).length == |log[i].data|;
    case Marked => assert Content(init, log, i).length == 0;
    case Stale =>
      assert Content(init, log, i) == Before(init, log, i);
      if i >= CBUF_EVENT_COUNT {
        LongContent(init, log, i - CBUF_EVENT_COUNT);
      } else {
        assert i == LAST;
      }
    case _ =>
  }

  /** In every interleaving each get copies at most the 14 bytes that its buffer holds
      if and only if no completed get was of a slot that was passed over on the first
      turn and held a length above 12. That can only be the slot of position 1023. */
  lemma CopiesFitIff(init: Memory, schedule: seq<Action>)
    ensures var s := Run(init, schedule);
      (forall i | 0 <= i < |s.results| :: s.results[i].copied <= MAX_COPY)
      <==> !(|s.results| > LAST && BadSlotPassed(init, Log(s.attempts)))
    ensures var log := Log(Run(init, schedule).attempts);
      forall j | 0 <= j < |log| && j < CBUF_EVENT_COUNT && log[j].kind.Stale? :: j == LAST
  {
    hide Content;
    RunInv(init, schedule);
    RunEarly(init, schedule);
    var s := Run(init, schedule);
    var log := Log(s.attempts);
    LogAccepted(s.attempts);
    assert Results(init, s);
    forall i | 0 <= i < |s.results| ensures s.results[i].copied > MAX_COPY ==> i >= LAST && BadSlotPassed(init, log) {
      LongContent(init, log, i);
    }
    if |s.results| > LAST && BadSlotPassed(init, log) {
      DeliveredExactly(init, schedule, LAST);
      assert s.results[LAST].copied > MAX_COPY;
    }
  }

  // ----- a copy that is too long does occur

  function Times(a: Action, n: nat): seq<Action> { seq(n, _ => a) }

  function PutActions(event: int, payload: Payload): seq<Action> { [StartPut(event, payload)] + Times(Produce, 5) }

  function GetActions(): seq<Action> { [StartGet] + Times(Consume, 5) }

  lemma RunAppend(init: Memory, schedule: seq<Action>, a: Action)
    ensures Run(init, schedule + [a]) == Step(Run(init, schedule), a)
  {
    assert (schedule + [a])[..|schedule|] == schedule;
  }

  lemma {:induction false} RunProduces(init: Memory, schedule: seq<Action>, n: nat)
    ensures Run(init, schedule + Times(Produce, n)) == ProduceTimes(Run(init, schedule), n)
    decreases n
  {
    hide ProduceStep;
    if n == 0 {
      assert schedule + Times(Produce, 0) == schedule;
    } else {
      RunAppend(init, schedule, Produce);
      RunProduces(init, schedule + [Produce], n - 1);
      assert schedule + [Produce] + Times(Produce, n - 1) == schedule + Times(Produce, n);
    }
  }

  lemma {:induction false} RunConsumes(init: Memory, schedule: seq<Action>, n: nat)
    ensures Run(init, schedule + Times(Consume, n)) == ConsumeTimes(Run(init, schedule), n)
    decreases n
  {
    hide ConsumeStep;
    if n == 0 {
      assert schedule + Times(Consume, 0) == schedule;
    } else {
      RunAppend(init, schedule, Consume);
      RunConsumes(init, schedule + [Consume], n - 1);
      assert schedule + [Consume] + Times(Consume, n - 1) == schedule + Times(Consume, n);
    }
  }

  lemma RunPut(init: Memory, schedule: seq<Action>, event: int, payload: Payload)
    requires Run(init, schedule).producer.PIdle?
    ensures var s, s' := Run(init, schedule), Run(init, schedule + PutActions(event, payload));
      && s'.ring == PutRing(s.ring, event, payload)
      && s'.producer.PIdle? && s'.consumer == s.consumer && s'.results == s.results
  {
    hide Step, PutRing;
    RunAppend(init, schedule, StartPut(event, payload));
    RunProduces(init, schedule + [StartPut(event, payload)], 5);
    UninterruptedPut(Run(init, schedule), event, payload);
    assert schedule + PutActions(event, payload) == schedule + [StartPut(event, payload)] + Times(Produce, 5);
  }

  lemma RunGet(init: Memory, schedule: seq<Action>)
    requires Run(init, schedule).consumer.CIdle?
    ensures var s, s' := Run(init, schedule), Run(init, schedule + GetActions());
      && s'.ring == GetRing(s.ring)
      && s'.producer == s.producer && s'.consumer.CIdle?
      && s'.results
         == s.results + if GetBytes(s.ring) == [] then [] else [Got(GetBytes(s.ring), GetCount(s.ring), GetCount(s.ring))]
  {
    hide Step, GetRing, GetBytes, GetCount;
    RunAppend(init, schedule, StartGet);
    RunConsumes(init, schedule + [StartGet], 5);
    UninterruptedGet(Run(init, schedule));
    assert schedule + GetActions() == schedule + [StartGet] + Times(Consume, 5);
  }

  lemma {:induction false} PutsInARow(init: Memory, event: int, payload: Payload, n: nat) returns (schedule: seq<Action>)
    ensures var s := Run(init, schedule);
      && s.ring == PutTimes(Ring(init, 0, 0, false), event, payload, n)
      && s.producer.PIdle? && s.consumer.CIdle? && s.results == []
  {
    if n == 0 {
      schedule := [];
    } else {
      var before := PutsInARow(init, event, payload, n - 1);
      RunPut(init, before, event, payload);
      schedule := before + PutActions(event, payload);
    }
  }

  /** Some more gets from a queue whose head has come round to slot 0. */
  lemma {:induction false} GetsInARow(init: Memory, before: seq<Action>, n: nat) returns (schedule: seq<Action>)
    requires var s := Run(init, before);
      s.consumer.CIdle? && s.ring.head == 0 && s.ring.tail == 1 && |s.results| == 1
    requires n < LAST
    ensures var s := Run(init, schedule);
      && s.consumer.CIdle? && |s.results| == 1 + n
      && s.ring == Run(init, before).ring.(tail := 1 + n)
  {
    if n == 0 {
      schedule := before;
    } else {
      var most := GetsInARow(init, before, n - 1);
      RunGet(init, most);
      MoreToGet(Run(init, most).ring, n);
      schedule := most + GetActions();
    }
  }

  lemma MoreToGet(r: Ring, tail: nat)
    requires r.Valid() && r.head == 0 && r.tail == tail && 1 <= tail < CBUF_EVENT_COUNT
    ensures GetBytes(r) != [] && GetCount(r) == CopyCount(r.slots[tail])
    ensures tail < LAST ==> GetRing(r) == r.(tail := tail + 1)
  {
    assert CircCnt(0, tail) == CBUF_EVENT_COUNT - tail;
  }

  /** If the last slot of the memory of a new queue holds a length above 12, filling
      the queue, reading once, putting once more and reading on makes a get copy that
      many bytes. */
  lemma LongCopyReachable(init: Memory, event: int, payload: Payload) returns (schedule: seq<Action>)
    requires !init[LAST].Fits()
    ensures var results := Run(init, schedule).results;
      |results| == CBUF_EVENT_COUNT && results[LAST].copied == 2 + init[LAST].length > MAX_COPY
  {
    hide PutTimes, Run;
    var filled := PutsInARow(init, event, payload, LAST);
    StalePutReachable(init, event, payload);
    RunGet(init, filled);
    FilledRing(init, event, payload);
    var once := filled + GetActions();
    RunPut(init, once, event, payload);
    var round := once + PutActions(event, payload);
    var most := GetsInARow(init, round, LAST - 1);
    RunGet(init, most);
    MoreToGet(Run(init, most).ring, LAST);
    schedule := most + GetActions();
  }

  lemma FilledRing(init: Memory, event: int, payload: Payload)
    ensures var r := PutTimes(Ring(init, 0, 0, false), event, payload, LAST);
      r.head == LAST && r.tail == 0 && GetBytes(r) != [] && GetRing(r) == r.(tail := 1) && r.slots[LAST] == init[LAST]
  {
    hide StoredEntry, Frame;
    Filling(init, event, payload, LAST - 1);
  }
}
