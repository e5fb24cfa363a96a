/** hw_support_evr_isr as the source of events: which events one interrupt produces,
    in which order, from the interrupt flags and the event FIFO of the card. */
module Isr {
  import opened Words
  import opened Evr
  import opened Device
  import opened PacketQueue
  import opened VirtDev
  import opened Framing

  const EVR_FIFO_EVENT_LIMIT: nat := 256

  type U32 = v: int | 0 <= v < 0x1_0000_0000

  /** What one turn of the FIFO loop reads: the event register, the two time
      registers, and whether the event flag is still set afterwards. */
  datatype FifoRead = FifoRead(event: U32, seconds: U32, timestamp: U32, more: bool)

  /** What the turns would read, as far as the loop can go. */
  type FifoReads = r: seq<FifoRead> | |r| == EVR_FIFO_EVENT_LIMIT
    witness seq(EVR_FIFO_EVENT_LIMIT, _ => FifoRead(0, 0, 0, false))

  function U32Bytes(v: U32): (b: seq<Byte>)
    ensures |b| == 4
  {
    [v % 0x100, v / 0x100 % 0x100, v / 0x1_0000 % 0x100, v / 0x100_0000]
  }

  function FifoEvent(r: FifoRead): IrqEvent { IrqEvent(false, r.event % 0x100, U32Bytes(r.seconds) + U32Bytes(r.timestamp)) }

  function Note(event: int): IrqEvent { IrqEvent(true, event, []) }

  /** How many turns the loop makes from turn i on. */
  function Turns(fifo: FifoReads, i: nat): (n: nat)
    requires i < EVR_FIFO_EVENT_LIMIT
    ensures 1 <= n <= EVR_FIFO_EVENT_LIMIT - i
    ensures forall j | i <= j < i + n - 1 :: fifo[j].more
    ensures !fifo[i + n - 1].more || i + n == EVR_FIFO_EVENT_LIMIT
    decreases EVR_FIFO_EVENT_LIMIT - i
  {
    if fifo[i].more && i + 1 < EVR_FIFO_EVENT_LIMIT then 1 + Turns(fifo, i + 1) else 1
  }

  function FifoEvents(fifo: FifoReads, n: nat): seq<IrqEvent>
    requires n <= EVR_FIFO_EVENT_LIMIT
  {
    seq(n, i requires 0 <= i < n => FifoEvent(fifo[i]))
  }

  function WithNote(events: seq<IrqEvent>, on: bool, event: int): seq<IrqEvent> {
    if on then events + [Note(event)] else events
  }

  /** The events for the queues. The data buffer event goes there, to keep its place
      among the others, although it has no data. */
  function QueueEvents(flags: Word, fifo: FifoReads): seq<IrqEvent> {
    var first := if C_EVR_IRQFLAG_DATABUF in flags then [IrqEvent(false, EVRMA_EVENT_DBUF_DATA, [])] else [];
    if C_EVR_IRQFLAG_EVENT in flags then first + FifoEvents(fifo, Turns(fifo, 0)) else first
  }

  /** The events of one interrupt. */
  function IsrEvents(flags: Word, fifo: FifoReads): seq<IrqEvent> {
    var lost := WithNote(QueueEvents(flags, fifo), C_EVR_IRQFLAG_FIFOFULL in flags, EVRMA_EVENT_ERROR_LOST);
    var delayed := WithNote(lost, C_EVR_IRQFLAG_PULSE in flags, EVRMA_EVENT_DELAYED_IRQ);
    var heart := WithNote(delayed, C_EVR_IRQFLAG_HEARTBEAT in flags, EVRMA_EVENT_ERROR_HEART);
    WithNote(heart, C_EVR_IRQFLAG_VIOLATION in flags, EVRMA_EVENT_ERROR_TAXI)
  }

  /** irq_process */
  function ArrivalOf(irq: IrqEvent): Arrival { if irq.notifyOnly then Notified(irq.event) else Queued(irq.event, irq.data) }

  /** Four bytes as a number, the low byte first. */
  function LittleEndian(b: seq<Byte>): int
    requires |b| == 4
  {
    var a0: int, a1: int, a2: int, a3: int := b[0], b[1], b[2], b[3];
    a0 + 0x100 * a1 + 0x1_0000 * a2 + 0x100_0000 * a3
  }

  lemma U32Value(v: U32)
    ensures LittleEndian(U32Bytes(v)) == v
  {
  }

  /** A FIFO event has the low eight bits of the event register for its code, and the
      seconds before the time stamp in its data, each with its low byte first. */
  lemma FifoEventMeaning(r: FifoRead)
    ensures var e := FifoEvent(r);
      && !e.notifyOnly && 0 <= e.event < 0x100 && (r.event - e.event) % 0x100 == 0
      && |e.data| == 8
      && LittleEndian(e.data[..4]) == r.seconds
      && LittleEndian(e.data[4..]) == r.timestamp
  {
    hide LittleEndian;
    U32Value(r.seconds);
    U32Value(r.timestamp);
    assert FifoEvent(r).data[..4] == U32Bytes(r.seconds) && FifoEvent(r).data[4..] == U32Bytes(r.timestamp);
  }

  /** The note that a flag other than those of the queues stands for. */
  predicate NoteOfFlag(flag: nat, event: int) {
    || (flag == C_EVR_IRQFLAG_FIFOFULL && event == EVRMA_EVENT_ERROR_LOST)
    || (flag == C_EVR_IRQFLAG_PULSE && event == EVRMA_EVENT_DELAYED_IRQ)
    || (flag == C_EVR_IRQFLAG_HEARTBEAT && event == EVRMA_EVENT_ERROR_HEART)
    || (flag == C_EVR_IRQFLAG_VIOLATION && event == EVRMA_EVENT_ERROR_TAXI)
  }

  predicate AnyNote(events: seq<IrqEvent>, event: int) { exists i :: 0 <= i < |events| && events[i] == Note(event) }

  lemma AfterNote(events: seq<IrqEvent>, on: bool, added: int, event: int)
    ensures AnyNote(WithNote(events, on, added), event) <==> AnyNote(events, event) || (on && event == added)
    ensures events <= WithNote(events, on, added)
  {
    var events' := WithNote(events, on, added);
    if AnyNote(events, event) {
      var i :| 0 <= i < |events| && events[i] == Note(event);
      assert events'[i] == Note(event);
    }
    if on && event == added {
      assert events'[|events|] == Note(event);
    }
  }

  lemma NoNoteQueued(flags: Word, fifo: FifoReads, event: int)
    ensures !AnyNote(QueueEvents(flags, fifo), event)
  {
  }

  /** An interrupt starts with the events for the queues and notes exactly what its flags
      stand for. */
  lemma NotesFollowFlags(flags: Word, fifo: FifoReads, event: int)
    ensures QueueEvents(flags, fifo) <= IsrEvents(flags, fifo)
    ensures AnyNote(IsrEvents(flags, fifo), event) <==> exists flag: nat :: flag in flags && NoteOfFlag(flag, event)
  {
    hide QueueEvents, AnyNote, WithNote;
    var queued := QueueEvents(flags, fifo);
    var lost := WithNote(queued, C_EVR_IRQFLAG_FIFOFULL in flags, EVRMA_EVENT_ERROR_LOST);
    var delayed := WithNote(lost, C_EVR_IRQFLAG_PULSE in flags, EVRMA_EVENT_DELAYED_IRQ);
    var heart := WithNote(delayed, C_EVR_IRQFLAG_HEARTBEAT in flags, EVRMA_EVENT_ERROR_HEART);
    NoNoteQueued(flags, fifo, event);
    AfterNote(queued, C_EVR_IRQFLAG_FIFOFULL in flags, EVRMA_EVENT_ERROR_LOST, event);
    AfterNote(lost, C_EVR_IRQFLAG_PULSE in flags, EVRMA_EVENT_DELAYED_IRQ, event);
    AfterNote(delayed, C_EVR_IRQFLAG_HEARTBEAT in flags, EVRMA_EVENT_ERROR_HEART, event);
    AfterNote(heart, C_EVR_IRQFLAG_VIOLATION in flags, EVRMA_EVENT_ERROR_TAXI, event);
    if event == EVRMA_EVENT_ERROR_LOST && C_EVR_IRQFLAG_FIFOFULL in flags {
      assert NoteOfFlag(C_EVR_IRQFLAG_FIFOFULL, event);
    }
    if event == EVRMA_EVENT_DELAYED_IRQ && C_EVR_IRQFLAG_PULSE in flags {
      assert NoteOfFlag(C_EVR_IRQFLAG_PULSE, event);
    }
    if event == EVRMA_EVENT_ERROR_HEART && C_EVR_IRQFLAG_HEARTBEAT in flags {
      assert NoteOfFlag(C_EVR_IRQFLAG_HEARTBEAT, event);
    }
    if event == EVRMA_EVENT_ERROR_TAXI && C_EVR_IRQFLAG_VIOLATION in flags {
      assert NoteOfFlag(C_EVR_IRQFLAG_VIOLATION, event);
    }
  }

  /** One event for each read of the FIFO, up to the first that finds no more. */
  predicate ReadOut(events: seq<IrqEvent>, fifo: FifoReads) {
    && 1 <= |events| <= EVR_FIFO_EVENT_LIMIT
    && (forall i | 0 <= i < |events| :: events[i] == FifoEvent(fifo[i]))
    && (forall i | 0 <= i < |events| - 1 :: fifo[i].more)
    && (|events| < EVR_FIFO_EVENT_LIMIT ==> !fifo[|events| - 1].more)
  }

  lemma TurnsReadOut(fifo: FifoReads)
    ensures ReadOut(FifoEvents(fifo, Turns(fifo, 0)), fifo)
  {
    hide FifoEvent;
  }

  /** The events for the queues: the data buffer event if it is flagged, and then what is
      read out of the FIFO if that is flagged. */
  lemma QueuedFollowFlags(flags: Word, fifo: FifoReads)
    ensures var q := QueueEvents(flags, fifo);
      var n := if C_EVR_IRQFLAG_DATABUF in flags then 1 else 0;
      && n <= |q|
      && (C_EVR_IRQFLAG_DATABUF in flags ==> q[0] == IrqEvent(false, EVRMA_EVENT_DBUF_DATA, []))
      && (if C_EVR_IRQFLAG_EVENT in flags then ReadOut(q[n..], fifo) else |q| == n)
  {
    hide FifoEvents, Turns, ReadOut;
    TurnsReadOut(fifo);
    var events := FifoEvents(fifo, Turns(fifo, 0));
    assert events[0..] == events;
    assert ([IrqEvent(false, EVRMA_EVENT_DBUF_DATA, [])] + events)[1..] == events;
    assert [] + events == events;
  }

  predicate AllHardware(events: seq<IrqEvent>) { forall i | 0 <= i < |events| :: HardwareArrival(ArrivalOf(events[i])) }

  lemma QueuedAreHardware(flags: Word, fifo: FifoReads)
    ensures AllHardware(QueueEvents(flags, fifo))
  {
  }

  lemma NoteIsHardware(events: seq<IrqEvent>, on: bool, event: int)
    requires AllHardware(events) && NoteCode(event)
    ensures AllHardware(WithNote(events, on, event))
  {
  }

  /** All that an interrupt hands to a VIRT_DEV has the form that keeps its byte
      stream decodable. */
  lemma IsrIsHardware(flags: Word, fifo: FifoReads)
    ensures AllHardware(IsrEvents(flags, fifo))
  {
    hide QueueEvents, AllHardware, WithNote;
    QueuedAreHardware(flags, fifo);
    var lost := WithNote(QueueEvents(flags, fifo), C_EVR_IRQFLAG_FIFOFULL in flags, EVRMA_EVENT_ERROR_LOST);
    var delayed := WithNote(lost, C_EVR_IRQFLAG_PULSE in flags, EVRMA_EVENT_DELAYED_IRQ);
    var heart := WithNote(delayed, C_EVR_IRQFLAG_HEARTBEAT in flags, EVRMA_EVENT_ERROR_HEART);
    NoteIsHardware(QueueEvents(flags, fifo), C_EVR_IRQFLAG_FIFOFULL in flags, EVRMA_EVENT_ERROR_LOST);
    NoteIsHardware(lost, C_EVR_IRQFLAG_PULSE in flags, EVRMA_EVENT_DELAYED_IRQ);
    NoteIsHardware(delayed, C_EVR_IRQFLAG_HEARTBEAT in flags, EVRMA_EVENT_ERROR_HEART);
    NoteIsHardware(heart, C_EVR_IRQFLAG_VIOLATION in flags, EVRMA_EVENT_ERROR_TAXI);
  }

  /** The loop over the event FIFO. */
  method DrainFifo(fifo: FifoReads) returns (events: seq<IrqEvent>)
    ensures events == FifoEvents(fifo, Turns(fifo, 0))
  {
    hide FifoEvent;
    events := [];
    var turn := 0;
    while turn < EVR_FIFO_EVENT_LIMIT
      invariant 0 <= turn <= EVR_FIFO_EVENT_LIMIT
      invariant events == FifoEvents(fifo, turn)
      invariant Turns(fifo, 0) == turn + if turn < EVR_FIFO_EVENT_LIMIT then Turns(fifo, turn) else 0
    {
      events := events + [FifoEvent(fifo[turn])];
      turn := turn + 1;
      if !fifo[turn - 1].more {
        break;
      }
    }
  }

  /** hw_support_evr_isr: the events in the order in which they are handed on. */
  method Isr(flags: Word, fifo: FifoReads) returns (events: seq<IrqEvent>)
    ensures events == IsrEvents(flags, fifo)
  {
    hide FifoEvents, Turns, FifoEvent;
    events := [];
    if C_EVR_IRQFLAG_DATABUF in flags {
      events := [IrqEvent(false, EVRMA_EVENT_DBUF_DATA, [])];
    }
    if C_EVR_IRQFLAG_EVENT in flags {
      var drained := DrainFifo(fifo);
      events := events + drained;
    }
    if C_EVR_IRQFLAG_FIFOFULL in flags {
      events := events + [Note(EVRMA_EVENT_ERROR_LOST)];
    }
    if C_EVR_IRQFLAG_PULSE in flags {
      events := events + [Note(EVRMA_EVENT_DELAYED_IRQ)];
    }
    if C_EVR_IRQFLAG_HEARTBEAT in flags {
      events := events + [Note(EVRMA_EVENT_ERROR_HEART)];
    }
    if C_EVR_IRQFLAG_VIOLATION in flags {
      events := events + [Note(EVRMA_EVENT_ERROR_TAXI)];
    }
  }
}
