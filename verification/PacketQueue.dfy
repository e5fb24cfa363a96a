/** The per-reader event queue of src/packet-queue.c: a ring of fixed slots with
    one producer (the interrupt path) and one consumer (the reading file). */
module PacketQueue {

  const CBUF_EVENT_COUNT: nat := 1024
  const CBUF_EVENT_ENTRY_DATA_LENGTH: nat := 12
  const MODAC_EVENT_READ_OVERFLOW := 0x8000

  type Byte = b: int | 0 <= b < 256
  type U16 = e: int | 0 <= e < 0x10000

  /** One slot. All the data bytes are kept: a short message leaves the tail of
      the previous one in place. The length is whatever its 16 bits hold: the
      memory of a new queue is not cleared. */
  datatype SlotContent = SlotContent(event: U16, length: U16, data: seq<Byte>)
  {
    predicate WellFormed() { |data| == CBUF_EVENT_ENTRY_DATA_LENGTH }

    /** The length is one that a put can have written. */
    predicate Fits() { length <= CBUF_EVENT_ENTRY_DATA_LENGTH }
  }
  type Entry = e: SlotContent | e.WellFormed() witness SlotContent(0, 0, seq(CBUF_EVENT_ENTRY_DATA_LENGTH, _ => 0))

  /** The slots of a new queue, with whatever the allocation left in them. */
  type Memory = m: seq<Entry> | |m| == CBUF_EVENT_COUNT
    witness seq(CBUF_EVENT_COUNT, _ => SlotContent(0, 0, seq(CBUF_EVENT_ENTRY_DATA_LENGTH, _ => 0)))

  type Payload = p: seq<Byte> | |p| <= CBUF_EVENT_ENTRY_DATA_LENGTH

  /** The number of entries to be read, and of entries that can be written.
      A size that is a power of two makes the mask of the source a remainder. */
  function CircCnt(head: int, tail: int): (n: nat) { (head - tail) % CBUF_EVENT_COUNT }

  function CircSpace(head: int, tail: int): (n: nat) { CircCnt(tail, head + 1) }

  function Next(index: nat): (n: nat)
    ensures n < CBUF_EVENT_COUNT
  {
    (index + 1) % CBUF_EVENT_COUNT
  }

  // ----- the contents of one slot

  /** An event is an int everywhere else; only its low 16 bits are stored. */
  function EventField(event: int): U16 { event % 0x10000 }

  function WithEvent(e: Entry, event: int): Entry { e.(event := EventField(event)) }

  function WithLength(e: Entry, length: nat): Entry
    requires length <= CBUF_EVENT_ENTRY_DATA_LENGTH
  {
    e.(length := length)
  }

  function WithData(e: Entry, payload: Payload): Entry { e.(data := payload + e.data[|payload|..]) }

  function StoredEntry(e: Entry, event: int, payload: Payload): Entry {
    WithData(WithLength(WithEvent(e, event), |payload|), payload)
  }

  function MarkerEntry(e: Entry): Entry { WithLength(WithEvent(e, MODAC_EVENT_READ_OVERFLOW), 0) }

  /** The event number as the two bytes in memory, low byte first. */
  function EventBytes(event: U16): (b: seq<Byte>) { [event % 256, event / 256] }

  /** The bytes of one slot that a get copies, as far as they lie in the slot. */
  function Frame(e: Entry): (f: seq<Byte>)
    ensures 2 <= |f| <= 2 + CBUF_EVENT_ENTRY_DATA_LENGTH
  {
    EventBytes(e.event) + e.data[..if e.Fits() then e.length else CBUF_EVENT_ENTRY_DATA_LENGTH]
  }

  /** How many bytes a get copies: with a length that does not fit it runs past the
      slot, and past a buffer made for the longest message. */
  function CopyCount(e: Entry): (n: nat)
    ensures n == |Frame(e)| <==> e.Fits()
    ensures n <= 2 + CBUF_EVENT_ENTRY_DATA_LENGTH <==> e.Fits()
  {
    2 + e.length
  }

  // ----- the ring

  datatype Ring = Ring(slots: seq<Entry>, head: nat, tail: nat, overflowWritten: bool)
  {
    predicate Valid() {
      && |slots| == CBUF_EVENT_COUNT
      && head < CBUF_EVENT_COUNT
      && tail < CBUF_EVENT_COUNT
    }
  }

  /** What becomes of one put: the event is stored; an overflow marker replaces it;
      the head moves over an untouched slot; there is no room; it is too long. */
  datatype PutKind = Stored | Marked | Stale | Full | TooLong
  {
    /** The put returns 0 and the head moves. */
    predicate Accepted() { Stored? || Marked? || Stale? }
  }

  /** The branches of modac_cb_put for a given free space. */
  function KindOfPut(space: nat, overflowWritten: bool, length: nat): PutKind {
    if length > CBUF_EVENT_ENTRY_DATA_LENGTH then TooLong
    else if space > 1 then Stored
    else if space == 1 then (if overflowWritten then Stale else Marked)
    else Full
  }

  function PutKindOf(r: Ring, data: seq<Byte>): PutKind {
    KindOfPut(CircSpace(r.head, r.tail), r.overflowWritten, |data|)
  }

  function PutRing(r: Ring, event: int, data: seq<Byte>): (r': Ring)
    requires r.Valid()
    ensures r'.Valid()
  {
    match PutKindOf(r, data)
    case Stored => Ring(r.slots[r.head := StoredEntry(r.slots[r.head], event, data)], Next(r.head), r.tail, false)
    case Marked => Ring(r.slots[r.head := MarkerEntry(r.slots[r.head])], Next(r.head), r.tail, true)
    case Stale => r.(head := Next(r.head))
    case Full => r
    case TooLong => r
  }

  /** The bytes that a get copies out of its slot; none when the queue is empty. */
  function GetBytes(r: Ring): seq<Byte>
    requires r.Valid()
  {
    if CircCnt(r.head, r.tail) > 0 then Frame(r.slots[r.tail]) else []
  }

  function GetCount(r: Ring): nat
    requires r.Valid()
  {
    if CircCnt(r.head, r.tail) > 0 then CopyCount(r.slots[r.tail]) else 0
  }

  function GetRing(r: Ring): (r': Ring)
    requires r.Valid()
    ensures r'.Valid()
  {
    if CircCnt(r.head, r.tail) > 0 then r.(tail := Next(r.tail)) else r
  }

  /** struct modac_circ_buf with its operations, one field write at a time. */
  class CircBuf {
    var buf: array<Entry>
    var head: nat
    var tail: nat
    var overflowWritten: bool

    ghost predicate Valid()
      reads this
    {
      buf.Length == CBUF_EVENT_COUNT && head < CBUF_EVENT_COUNT && tail < CBUF_EVENT_COUNT
    }

    ghost function Abs(): (r: Ring)
      reads this, buf
      requires Valid()
      ensures r.Valid()
    {
      Ring(buf[..], head, tail, overflowWritten)
    }

    /** modac_cb_init: the slots keep whatever the allocation left in them. */
    constructor (memory: array<Entry>)
      requires memory.Length == CBUF_EVENT_COUNT
      ensures Valid() && buf == memory
      ensures Abs() == Ring(memory[..], 0, 0, false)
    {
      buf := memory;
      head, tail := 0, 0;
      overflowWritten := false;
    }

    /** modac_cb_put; ok is false where the source returns -ENOMEM. */
    method Put(event: int, data: seq<Byte>) returns (ok: bool)
      requires Valid()
      modifies this`head, this`overflowWritten, buf
      ensures Valid() && buf == old(buf)
      ensures Abs() == PutRing(old(Abs()), event, data)
      ensures ok <==> PutKindOf(old(Abs()), data).Accepted()
    {
      var h, t := head, tail;
      if |data| > CBUF_EVENT_ENTRY_DATA_LENGTH {
        return false;
      }
      var space := CircSpace(h, t);
      if space >= 1 {
        if space > 1 {
          buf[h] := WithEvent(buf[h], event);
          buf[h] := WithLength(buf[h], |data|);
          buf[h] := WithData(buf[h], data);
          overflowWritten := false;
        } else if !overflowWritten {
          buf[h] := WithEvent(buf[h], MODAC_EVENT_READ_OVERFLOW);
          buf[h] := WithLength(buf[h], 0);
          overflowWritten := true;
        }
        head := Next(h);
        return true;
      } else {
        return false;
      }
    }

    /** modac_cb_get: the bytes copied out of the slot, and the length counted from
        the slot after the tail has been published. */
    method Get() returns (bytes: seq<Byte>, n: nat)
      requires Valid()
      modifies this`tail
      ensures Valid() && buf == old(buf)
      ensures Abs() == GetRing(old(Abs()))
      ensures bytes == GetBytes(old(Abs())) && n == GetCount(old(Abs()))
    {
      var h, t := head, tail;
      if CircCnt(h, t) > 0 {
        bytes := EventBytes(buf[t].event);
        var length := buf[t].length;
        bytes := bytes + buf[t].data[..if length <= CBUF_EVENT_ENTRY_DATA_LENGTH then length else CBUF_EVENT_ENTRY_DATA_LENGTH];
        tail := Next(t);
        return bytes, 2 + buf[t].length;
      }
      return [], 0;
    }

    /** modac_cb_available. */
    method Available() returns (available: bool)
      requires Valid()
      ensures available <==> GetBytes(Abs()) != []
    {
      available := CircCnt(head, tail) > 0;
    }
  }
}
