/** What a reader can still get from a queue: the frames between tail and head, and
    how a put and a get change them. */
module Backlog {
  import opened PacketQueue

  /** Slot j places behind the tail. */
  function Ahead(r: Ring, j: nat): Entry
    requires r.Valid()
  {
    r.slots[(r.tail + j) % CBUF_EVENT_COUNT]
  }

  /** The frames that can be read from a queue, oldest first. */
  function Frames(r: Ring): (frames: seq<seq<Byte>>)
    requires r.Valid()
    ensures |frames| == CircCnt(r.head, r.tail)
  {
    seq(CircCnt(r.head, r.tail), j requires 0 <= j < CircCnt(r.head, r.tail) => Frame(Ahead(r, j)))
  }

  /** The frame that a put adds to them: the event itself, an overflow marker, or what
      the slot holds that it passes over. */
  function PutAdds(r: Ring, event: int, data: seq<Byte>): seq<seq<Byte>>
    requires r.Valid()
  {
    match PutKindOf(r, data)
    case Stored => [EventBytes(EventField(event)) + data]
    case Marked => [EventBytes(MODAC_EVENT_READ_OVERFLOW)]
    case Stale => [Frame(r.slots[r.head])]
    case _ => []
  }

  /** The slot at the head lies behind all that can be read. */
  lemma HeadIsNew(r: Ring, j: nat)
    requires r.Valid() && j < CircCnt(r.head, r.tail)
    ensures (r.tail + j) % CBUF_EVENT_COUNT != r.head
  {
  }

  lemma HeadIsAhead(r: Ring, r': Ring, n: nat)
    requires r.Valid() && r'.Valid() && r'.tail == r.tail && n == CircCnt(r.head, r.tail)
    ensures Ahead(r', n) == r'.slots[r.head]
  {
  }

  lemma OneMore(r: Ring, r': Ring)
    requires r.Valid() && CircSpace(r.head, r.tail) >= 1
    requires r'.head == Next(r.head) && r'.tail == r.tail
    ensures CircCnt(r'.head, r'.tail) == CircCnt(r.head, r.tail) + 1
  {
  }

  lemma TailMoves(head: nat, tail: nat, j: nat)
    requires head < CBUF_EVENT_COUNT && tail < CBUF_EVENT_COUNT && CircCnt(head, tail) > 0
    ensures CircCnt(head, Next(tail)) == CircCnt(head, tail) - 1
    ensures (Next(tail) + j) % CBUF_EVENT_COUNT == (tail + (j + 1)) % CBUF_EVENT_COUNT
  {
    assert tail + 1 < CBUF_EVENT_COUNT || Next(tail) == 0;
  }

  lemma StoredFrame(e: Entry, event: int, payload: Payload)
    ensures Frame(StoredEntry(e, event, payload)) == EventBytes(EventField(event)) + payload
    ensures Frame(MarkerEntry(e)) == EventBytes(MODAC_EVENT_READ_OVERFLOW)
  {
    assert StoredEntry(e, event, payload).data[..|payload|] == payload;
  }

  /** An accepted put leaves the slots to be read as they are and adds the one at the
      head. */
  lemma PutAhead(r: Ring, event: int, data: seq<Byte>)
    requires r.Valid() && PutKindOf(r, data).Accepted()
    ensures var r' := PutRing(r, event, data);
      var n := CircCnt(r.head, r.tail);
      && CircCnt(r'.head, r'.tail) == n + 1
      && Ahead(r', n) == r'.slots[r.head]
      && forall j: nat | j < n :: Ahead(r', j) == Ahead(r, j)
  {
    var r' := PutRing(r, event, data);
    OneMore(r, r');
    HeadIsAhead(r, r', CircCnt(r.head, r.tail));
    forall j: nat | j < CircCnt(r.head, r.tail) ensures Ahead(r', j) == Ahead(r, j) {
      HeadIsNew(r, j);
    }
  }

  /** A put adds its frame at the end and changes no other. */
  lemma PutBacklog(r: Ring, event: int, data: seq<Byte>)
    requires r.Valid()
    ensures Frames(PutRing(r, event, data)) == Frames(r) + PutAdds(r, event, data)
  {
    hide CircCnt, CircSpace, Frame, Ahead, StoredEntry, MarkerEntry;
    if PutKindOf(r, data).Accepted() {
      PutAhead(r, event, data);
      if |data| <= CBUF_EVENT_ENTRY_DATA_LENGTH {
        StoredFrame(r.slots[r.head], event, data);
      }
    }
  }

  /** A get takes the first slot and leaves the others. */
  lemma GetAhead(r: Ring)
    requires r.Valid() && CircCnt(r.head, r.tail) > 0
    ensures var r' := GetRing(r);
      && CircCnt(r'.head, r'.tail) == CircCnt(r.head, r.tail) - 1
      && Ahead(r, 0) == r.slots[r.tail]
      && forall j: nat | j < CircCnt(r'.head, r'.tail) :: Ahead(r', j) == Ahead(r, j + 1)
  {
    hide CircCnt, Next;
    TailMoves(r.head, r.tail, 0);
    forall j: nat ensures Ahead(GetRing(r), j) == Ahead(r, j + 1) {
      TailMoves(r.head, r.tail, j);
    }
  }

  lemma GetBacklog(r: Ring)
    requires r.Valid() && CircCnt(r.head, r.tail) > 0
    ensures Frames(r) == [Frame(r.slots[r.tail])] + Frames(GetRing(r))
  {
    hide CircCnt, Frame, Ahead;
    GetAhead(r);
  }
}
