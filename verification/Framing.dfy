/** The byte stream that a reader gets has no separators: the length of a frame
    follows from its event code. This holds for all that the hardware produces, and
    makes the stream decodable. */
module Framing {
  import opened Evr
  import opened PacketQueue
  import opened Backlog
  import opened VirtDev

  /** struct evr_data_fifo_event: two 32-bit numbers. */
  const FIFO_EVENT_DATA: nat := 8

  /** The codes of the event FIFO come with a time stamp, all others with nothing. */
  function PayloadLength(event: int): nat { if event < EVR_MAPRAM_EVENT_CODES then FIFO_EVENT_DATA else 0 }

  function EventOf(b0: Byte, b1: Byte): (e: U16) { b0 + 256 * b1 }

  predicate HardwareFrame(f: seq<Byte>) { |f| >= 2 && |f| == 2 + PayloadLength(EventOf(f[0], f[1])) }

  /** The frames of a byte stream, up to the first incomplete one. */
  function Decode(bytes: seq<Byte>): seq<seq<Byte>> {
    if |bytes| < 2 then []
    else
      var n := 2 + PayloadLength(EventOf(bytes[0], bytes[1]));
      if |bytes| < n then [] else [bytes[..n]] + Decode(bytes[n..])
  }

  lemma {:induction false} DecodeConcat(frames: seq<seq<Byte>>)
    requires forall i | 0 <= i < |frames| :: HardwareFrame(frames[i])
    ensures Decode(Concat(frames)) == frames
  {
    if frames != [] {
      var first, rest := frames[0], frames[1..];
      assert frames == [first] + rest;
      ConcatAppend([first], rest);
      ConcatOne(first);
      DecodeConcat(rest);
      assert (first + Concat(rest))[|first|..] == Concat(rest);
    }
  }

  /** A stream of hardware frames can be cut into hardware frames in one way only. */
  lemma UniqueFraming(a: seq<seq<Byte>>, b: seq<seq<Byte>>)
    requires forall i | 0 <= i < |a| :: HardwareFrame(a[i])
    requires forall i | 0 <= i < |b| :: HardwareFrame(b[i])
    requires Concat(a) == Concat(b)
    ensures a == b
  {
    DecodeConcat(a);
    DecodeConcat(b);
  }

  // ----- what the hardware puts into a queue

  /** The codes that interrupts notify; all other events go to the queues. */
  predicate NoteCode(event: int) {
    event == EVRMA_EVENT_ERROR_TAXI || event == EVRMA_EVENT_ERROR_LOST
    || event == EVRMA_EVENT_ERROR_HEART || event == EVRMA_EVENT_DELAYED_IRQ
  }

  predicate HardwareArrival(a: Arrival) {
    match a
    case Queued(event, data) =>
      (0 <= event < EVR_MAPRAM_EVENT_CODES && |data| == FIFO_EVENT_DATA) || (event == EVRMA_EVENT_DBUF_DATA && data == [])
    case Notified(event) => NoteCode(event)
  }

  /** A slot that holds what the hardware, or an overflow, puts into one. */
  predicate HardwareEntry(e: Entry) { e.length == PayloadLength(e.event) && !NoteCode(e.event) }

  /** All that can be read has the form that keeps the byte stream decodable. */
  ghost predicate Framed(p: Pending) {
    && p.Valid()
    && (forall j: nat | j < CircCnt(p.ring.head, p.ring.tail) :: HardwareEntry(Ahead(p.ring, j)))
    && (forall c | c in p.codes :: NoteCode(c))
  }

  function FrameEvent(f: seq<Byte>): int { if |f| >= 2 then EventOf(f[0], f[1]) else -1 }

  lemma EntryFrame(e: Entry)
    requires HardwareEntry(e)
    ensures e.Fits() && HardwareFrame(Frame(e)) && FrameEvent(Frame(e)) == e.event
  {
    assert EventOf(e.event % 256, e.event / 256) == e.event;
  }

  lemma CodeFrame(c: nat)
    requires NoteCode(c)
    ensures HardwareFrame(EventBytes(EventField(c))) && FrameEvent(EventBytes(EventField(c))) == c
  {
    assert EventOf(EventField(c) % 256, EventField(c) / 256) == c;
  }

  /** What a reader takes is then a hardware frame, which tells by its event whether it
      was notified or queued, and the rest stays decodable. */
  lemma TakenFramed(p: Pending, r: Reader)
    requires Framed(p) && !TakenBy(p, r).Nothing?
    ensures var t := TakenBy(p, r);
      && HardwareFrame(t.Frame()) && (t.Slot? ==> t.e.Fits())
      && (NoteCode(FrameEvent(t.Frame())) <==> t.Code?)
    ensures Framed(Without(p, TakenBy(p, r)))
  {
    hide CircCnt, HardwareFrame, FrameEvent, GetRing, Frame;
    match TakenBy(p, r)
    case Code(c) => CodeFrame(c);
    case Slot(e) =>
      assert HardwareEntry(Ahead(p.ring, 0)) by { GetAhead(p.ring); }
      GetAhead(p.ring);
      EntryFrame(e);
  }

  /** A put that passes over a slot which holds something else. */
  predicate StaleOn(p: Pending, a: Arrival)
    requires p.Valid()
  {
    a.Queued? && PutKindOf(p.ring, a.data).Stale? && !HardwareEntry(p.ring.slots[p.ring.head])
  }

  lemma PutFramed(p: Pending, event: int, data: seq<Byte>)
    requires Framed(p) && HardwareArrival(Queued(event, data))
    ensures Framed(Arrive(p, Queued(event, data))) <==> !StaleOn(p, Queued(event, data))
  {
    hide CircCnt, Ahead;
    var r, r' := p.ring, PutRing(p.ring, event, data);
    if PutKindOf(r, data).Accepted() {
      PutAhead(r, event, data);
      HeadEntry(r, event, data);
      assert HardwareEntry(Ahead(r', CircCnt(r.head, r.tail))) <==> !StaleOn(p, Queued(event, data));
    }
  }

  lemma HeadEntry(r: Ring, event: int, data: seq<Byte>)
    requires r.Valid() && PutKindOf(r, data).Accepted() && HardwareArrival(Queued(event, data))
    ensures HardwareEntry(PutRing(r, event, data).slots[r.head])
        <==> !(PutKindOf(r, data).Stale? && !HardwareEntry(r.slots[r.head]))
  {
  }

  /** What hardware puts keeps the queue decodable if and only if it is not a put that
      passes over a slot with something else in it. */
  lemma ArriveFramed(p: Pending, a: Arrival)
    requires Framed(p) && HardwareArrival(a)
    ensures Framed(Arrive(p, a)) <==> !StaleOn(p, a)
  {
    match a
    case Queued(event, data) => PutFramed(p, event, data);
    case Notified(event) =>
  }

  /** A new VIRT_DEV has nothing to decode. */
  lemma FreshFramed(memory: Memory)
    ensures Framed(Pending({}, Ring(memory, 0, 0, false)))
  {
  }
}
