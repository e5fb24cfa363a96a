/** Reading from a VIRT_DEV (src/virt-dev.c): the notified events and the queue, and
    vdev_read as the steps between which interrupts and other readers may run. */
module VirtDev {
  import opened PacketQueue
  import opened EventList

  /** sizeof(u16) + CBUF_EVENT_ENTRY_DATA_LENGTH */
  const MAX_FRAME: nat := 2 + CBUF_EVENT_ENTRY_DATA_LENGTH

  // ----- what there is to read

  datatype Pending = Pending(codes: set<int>, ring: Ring)
  {
    predicate Valid() { ring.Valid() && forall c | c in codes :: InRange(c) }
  }

  /** What an interrupt does to it: modac_vdev_notify and modac_vdev_put_cb. */
  datatype Arrival = Notified(event: int) | Queued(event: int, data: seq<Byte>)

  function Arrive(p: Pending, a: Arrival): (p': Pending)
    requires p.Valid()
    ensures p'.Valid()
  {
    match a
    case Notified(event) => if InRange(event) then p.(codes := p.codes + {event}) else p
    case Queued(event, data) => p.(ring := PutRing(p.ring, event, data))
  }

  function ArriveAll(p: Pending, news: seq<Arrival>): (p': Pending)
    requires p.Valid()
    ensures p'.Valid()
  {
    if news == [] then p else Arrive(ArriveAll(p, news[..|news| - 1]), news[|news| - 1])
  }

  /** The lowest code from n on. */
  function LowestFrom(codes: set<int>, n: nat): (c: nat)
    requires n <= EVENT_LIST_TYPE_MAX_EVENTS
    ensures n <= c <= EVENT_LIST_TYPE_MAX_EVENTS
    ensures c < EVENT_LIST_TYPE_MAX_EVENTS ==> c in codes
    ensures forall x | n <= x < c :: x !in codes
    decreases EVENT_LIST_TYPE_MAX_EVENTS - n
  {
    if n == EVENT_LIST_TYPE_MAX_EVENTS || n in codes then n else LowestFrom(codes, n + 1)
  }

  function Lowest(p: Pending): nat { LowestFrom(p.codes, 0) }

  lemma NoLowest(p: Pending)
    requires p.Valid()
    ensures Lowest(p) == EVENT_LIST_TYPE_MAX_EVENTS <==> p.codes == {}
  {
    assert forall x | x in p.codes :: InRange(x);
  }

  predicate HasData(p: Pending)
    requires p.Valid()
  {
    p.codes != {} || GetBytes(p.ring) != []
  }

  function Concat(frames: seq<seq<Byte>>): seq<Byte> {
    if frames == [] then [] else Concat(frames[..|frames| - 1]) + frames[|frames| - 1]
  }

  lemma ConcatOne(frame: seq<Byte>)
    ensures Concat([frame]) == frame
  {
    assert [frame][..0] + [frame] == [frame];
  }

  lemma {:induction false} ConcatAppend(a: seq<seq<Byte>>, b: seq<seq<Byte>>)
    ensures Concat(a + b) == Concat(a) + Concat(b)
  {
    if b == [] {
      assert a + b == a;
    } else {
      assert (a + b)[..|a + b| - 1] == a + b[..|b| - 1];
      ConcatAppend(a, b[..|b| - 1]);
    }
  }

  // ----- one reader

  datatype ReadResult = Count(n: int) | EINVAL | ENODEV | EAGAIN | ERESTARTSYS

  /** Where a reader is: before the look for notified codes; before the look into the
      queue, having found no code; asleep, with its place inside given back; returned;
      or after a copy that went past its buffer, from where nothing is defined. */
  datatype Place = Looking | Between | Asleep | Returned(result: ReadResult) | Overran
  {
    /** The reader holds a place that the last close waits for. */
    predicate Inside() { Looking? || Between? || Overran? }
  }

  /** The frames are those copied to the user so far. */
  datatype Reader = Reader(bufLen: nat, nonBlock: bool, place: Place, free: int, frames: seq<seq<Byte>>)
  {
    predicate Done() { place.Returned? || place.Overran? }
  }

  /** How wait_event_interruptible and lock_direct_call end for a sleeping reader. */
  datatype Wake = Wake(interrupted: bool, denied: bool)

  /** vdev_read for a reader that has been let in. */
  function StartRead(bufLen: nat, nonBlock: bool): Reader {
    Reader(bufLen, nonBlock, if bufLen < MAX_FRAME then Returned(EINVAL) else Looking, bufLen, [])
  }

  /** One frame goes to the user. */
  function Deliver(r: Reader, frame: seq<Byte>): Reader {
    var free := r.free - |frame|;
    r.(frames := r.frames + [frame], free := free,
       place := if free >= MAX_FRAME then Looking else Returned(Count(r.bufLen - free)))
  }

  function FoundNothing(r: Reader): Place {
    if r.bufLen - r.free > 0 then Returned(Count(r.bufLen - r.free))
    else if r.nonBlock then Returned(EAGAIN)
    else Asleep
  }

  function WakeUp(w: Wake): Place {
    if w.interrupted then Returned(ERESTARTSYS) else if w.denied then Returned(ENODEV) else Looking
  }

  /** What one step takes from what there is to read. */
  datatype Taken = Nothing | Code(c: nat) | Slot(e: Entry)
  {
    function Frame(): seq<Byte> {
      match this
      case Nothing => []
      case Code(c) => EventBytes(EventField(c))
      case Slot(e) => PacketQueue.Frame(e)
    }
  }

  function TakenBy(p: Pending, r: Reader): Taken
    requires p.Valid()
  {
    match r.place
    case Looking => if Lowest(p) < EVENT_LIST_TYPE_MAX_EVENTS then Code(Lowest(p)) else Nothing
    case Between => if CircCnt(p.ring.head, p.ring.tail) > 0 then Slot(p.ring.slots[p.ring.tail]) else Nothing
    case _ => Nothing
  }

  /** There is data exactly if one of the two looks of a reader would find something. */
  lemma DataIsFound(p: Pending, r: Reader)
    requires p.Valid()
    ensures HasData(p) <==>
      !TakenBy(p, r.(place := Looking)).Nothing? || !TakenBy(p, r.(place := Between)).Nothing?
  {
    NoLowest(p);
  }

  function Without(p: Pending, t: Taken): (p': Pending)
    requires p.Valid()
    ensures p'.Valid()
  {
    match t
    case Nothing => p
    case Code(c) => p.(codes := p.codes - {c as int})
    case Slot(_) => p.(ring := GetRing(p.ring))
  }

  function ReaderAfter(r: Reader, t: Taken, w: Wake): Reader {
    match t
    case Code(_) => Deliver(r, t.Frame())
    case Slot(e) =>
      if e.Fits() then Deliver(r, t.Frame()) else Deliver(r, t.Frame()).(place := Overran)
    case Nothing =>
      match r.place
      case Looking => r.(place := Between)
      case Between => r.(place := FoundNothing(r))
      case Asleep => r.(place := WakeUp(w))
      case _ => r
  }

  // ----- what holds for a reader, whatever goes on around it

  predicate FrameSized(frame: seq<Byte>) { 2 <= |frame| <= MAX_FRAME }

  /** Only whole frames have been copied, they make up what is used of the buffer, and
      a number returned is the number of their bytes, never 0. */
  predicate ReaderOk(r: Reader) {
    && r.free + |Concat(r.frames)| == r.bufLen
    && r.free >= 0
    && (forall i | 0 <= i < |r.frames| :: FrameSized(r.frames[i]))
    && (r.place.Looking? || r.place.Between? ==> r.free >= MAX_FRAME)
    && (r.place.Asleep? ==> r.frames == [] && !r.nonBlock && r.bufLen >= MAX_FRAME)
    && (r.place.Returned? ==>
          if r.place.result.Count? then r.frames != [] && r.place.result.n == |Concat(r.frames)| > 0 else r.frames == [])
  }

  lemma NoFramesNoBytes(r: Reader)
    requires ReaderOk(r)
    ensures r.bufLen - r.free > 0 <==> r.frames != []
  {
    if r.frames != [] {
      assert FrameSized(r.frames[|r.frames| - 1]);
    }
  }

  lemma DeliverOk(r: Reader, frame: seq<Byte>)
    requires ReaderOk(r) && (r.place.Looking? || r.place.Between?) && FrameSized(frame)
    ensures ReaderOk(Deliver(r, frame)) && ReaderOk(Deliver(r, frame).(place := Overran))
  {
    assert (r.frames + [frame])[..|r.frames|] == r.frames;
  }

  lemma StepOk(p: Pending, r: Reader, w: Wake)
    requires p.Valid() && ReaderOk(r)
    ensures ReaderOk(ReaderAfter(r, TakenBy(p, r), w))
  {
    var t := TakenBy(p, r);
    if t.Nothing? {
      NoFramesNoBytes(r);
    } else {
      DeliverOk(r, t.Frame());
    }
  }

  lemma StartOk(bufLen: nat, nonBlock: bool)
    ensures ReaderOk(StartRead(bufLen, nonBlock))
  {
  }

  // ----- one read among interrupts

  /** One step of a reader: what arrives before it, and how its sleep ends if it
      sleeps. */
  datatype Turn = Turn(news: seq<Arrival>, wake: Wake)

  function StepReader(p: Pending, r: Reader, turn: Turn): (s: (Pending, Reader))
    requires p.Valid()
    ensures s.0.Valid()
  {
    var p1 := ArriveAll(p, turn.news);
    var t := TakenBy(p1, r);
    (Without(p1, t), ReaderAfter(r, t, turn.wake))
  }

  function Follow(p: Pending, r: Reader, turns: seq<Turn>): (s: (Pending, Reader))
    requires p.Valid()
    ensures s.0.Valid()
  {
    if turns == [] then (p, r)
    else
      var (p1, r1) := Follow(p, r, turns[..|turns| - 1]);
      StepReader(p1, r1, turns[|turns| - 1])
  }

  lemma FollowNone(p: Pending, r: Reader, turns: seq<Turn>)
    requires p.Valid()
    ensures Follow(p, r, turns[..0]) == (p, r)
  {
  }

  lemma FollowOne(p: Pending, r: Reader, turns: seq<Turn>, k: nat)
    requires p.Valid() && k < |turns|
    ensures Follow(p, r, turns[..k + 1])
         == StepReader(Follow(p, r, turns[..k]).0, Follow(p, r, turns[..k]).1, turns[k])
  {
    assert turns[..k + 1][..k] == turns[..k];
  }

  lemma SamePlace(r: Reader, frame: seq<Byte>)
    ensures var r' := r.(place := Between);
      && Deliver(r', frame) == Deliver(r, frame)
      && r'.(place := FoundNothing(r')) == r.(place := FoundNothing(r))
  {
  }

  /** Following some turns and then some more. */
  lemma {:induction false} FollowMore(p: Pending, r: Reader, turns: seq<Turn>, k: nat, m: nat)
    requires p.Valid() && k <= m <= |turns|
    ensures Follow(p, r, turns[..m]) == Follow(Follow(p, r, turns[..k]).0, Follow(p, r, turns[..k]).1, turns[k..m])
  {
    hide StepReader;
    if m > k {
      FollowMore(p, r, turns, k, m - 1);
      FollowOne(p, r, turns, m - 1);
      assert turns[k..m][..m - 1 - k] == turns[k..m - 1];
    }
  }

  lemma NoFrames()
    ensures Concat([]) == []
  {
  }

  lemma DeliverConcat(r: Reader, frame: seq<Byte>)
    ensures Concat(Deliver(r, frame).frames) == Concat(r.frames) + frame
  {
    assert (r.frames + [frame])[..|r.frames|] == r.frames;
  }

  /** Whatever arrives between and inside its calls of read_get, a read returns whole
      frames only, a number of bytes exactly when it returns frames, which is then
      their length and at most that of the buffer. */
  lemma {:induction false} WholeFramesOnly(p: Pending, bufLen: nat, nonBlock: bool, turns: seq<Turn>)
    requires p.Valid()
    ensures var r := Follow(p, StartRead(bufLen, nonBlock), turns).1;
      && r.bufLen == bufLen && r.nonBlock == nonBlock
      && ReaderOk(r)
      && (r.place.Returned? && r.place.result.Count? ==> 0 < r.place.result.n <= bufLen)
  {
    hide ReaderOk;
    if turns == [] {
      StartOk(bufLen, nonBlock);
    } else {
      WholeFramesOnly(p, bufLen, nonBlock, turns[..|turns| - 1]);
      var (p1, r1) := Follow(p, StartRead(bufLen, nonBlock), turns[..|turns| - 1]);
      StepOk(ArriveAll(p1, turns[|turns| - 1].news), r1, turns[|turns| - 1].wake);
    }
    CountOk(Follow(p, StartRead(bufLen, nonBlock), turns).1);
  }

  lemma CountOk(r: Reader)
    requires ReaderOk(r)
    ensures r.place.Returned? && r.place.result.Count? ==> 0 < r.place.result.n <= r.bufLen
  {
  }

  /** What there is to read at look k. */
  function AtLook(p: Pending, r: Reader, turns: seq<Turn>, k: nat): (p': Pending)
    requires p.Valid() && k < |turns|
    ensures p'.Valid()
  {
    ArriveAll(Follow(p, r, turns[..k]).0, turns[k].news)
  }

  /** Look k found no notified code, the next look found the queue empty. */
  predicate LookedInVain(p: Pending, r: Reader, turns: seq<Turn>, k: nat)
    requires p.Valid() && k + 1 < |turns|
  {
    && Follow(p, r, turns[..k]).1.place.Looking? && AtLook(p, r, turns, k).codes == {}
    && Follow(p, r, turns[..k + 1]).1.place.Between? && GetBytes(AtLook(p, r, turns, k + 1).ring) == []
  }

  lemma BetweenLooks(p: Pending, bufLen: nat, nonBlock: bool, turns: seq<Turn>)
    requires p.Valid() && Follow(p, StartRead(bufLen, nonBlock), turns).1.place.Between?
    ensures |turns| > 0
    ensures Follow(p, StartRead(bufLen, nonBlock), turns[..|turns| - 1]).1.place.Looking?
    ensures AtLook(p, StartRead(bufLen, nonBlock), turns, |turns| - 1).codes == {}
  {
    NoLowest(AtLook(p, StartRead(bufLen, nonBlock), turns, |turns| - 1));
  }

  lemma EmptyQueue(r: Ring)
    requires r.Valid()
    ensures GetBytes(r) == [] <==> CircCnt(r.head, r.tail) == 0
  {
  }

  lemma VainInPrefix(p: Pending, r: Reader, turns: seq<Turn>, m: nat, k: nat)
    requires p.Valid() && k + 1 < m <= |turns| && LookedInVain(p, r, turns[..m], k)
    ensures LookedInVain(p, r, turns, k)
  {
    hide Follow, ArriveAll, GetBytes;
    assert turns[..m][..k] == turns[..k] && turns[..m][..k + 1] == turns[..k + 1];
  }

  predicate ReturnedWithRoom(r: Reader) {
    r.place.Returned? && (r.place.result.EAGAIN? || (r.place.result.Count? && r.bufLen - r.place.result.n >= MAX_FRAME))
  }

  lemma RoomOnlyFromBetween(p: Pending, r: Reader, w: Wake)
    requires p.Valid() && ReaderOk(r) && ReturnedWithRoom(ReaderAfter(r, TakenBy(p, r), w))
    ensures ReaderAfter(r, TakenBy(p, r), w) == r || (r.place.Between? && GetBytes(p.ring) == [])
  {
    EmptyQueue(p.ring);
  }

  lemma VainAtEnd(p: Pending, bufLen: nat, nonBlock: bool, turns: seq<Turn>)
    requires p.Valid() && |turns| > 0
    requires Follow(p, StartRead(bufLen, nonBlock), turns[..|turns| - 1]).1.place.Between?
    requires GetBytes(AtLook(p, StartRead(bufLen, nonBlock), turns, |turns| - 1).ring) == []
    ensures |turns| > 1 && LookedInVain(p, StartRead(bufLen, nonBlock), turns, |turns| - 2)
  {
    hide ArriveAll, GetBytes, Follow;
    var before := turns[..|turns| - 1];
    BetweenLooks(p, bufLen, nonBlock, before);
    assert before[..|before| - 1] == turns[..|turns| - 2];
  }

  /** A read that returns with room for another frame has looked in vain: its last two
      looks found no notified code, and then the queue empty. */
  lemma {:induction false} StopsWhenNothingFound(p: Pending, bufLen: nat, nonBlock: bool, turns: seq<Turn>) returns (k: nat)
    requires p.Valid() && ReturnedWithRoom(Follow(p, StartRead(bufLen, nonBlock), turns).1)
    ensures k + 1 < |turns| && LookedInVain(p, StartRead(bufLen, nonBlock), turns, k)
    ensures Follow(p, StartRead(bufLen, nonBlock), turns[..k + 2]).1 == Follow(p, StartRead(bufLen, nonBlock), turns).1
  {
    hide ArriveAll, GetBytes, LookedInVain, ReaderAfter, ReaderOk, TakenBy, Without;
    var start := StartRead(bufLen, nonBlock);
    if turns == [] {
      assert false;
    } else {
      var m := |turns| - 1;
      var r1 := Follow(p, start, turns[..m]).1;
      WholeFramesOnly(p, bufLen, nonBlock, turns[..m]);
      RoomOnlyFromBetween(AtLook(p, start, turns, m), r1, turns[m].wake);
      if r1.place.Between? && GetBytes(AtLook(p, start, turns, m).ring) == [] {
        VainAtEnd(p, bufLen, nonBlock, turns);
        k := m - 1;
        assert turns[..k + 2] == turns;
      } else {
        k := StopsWhenNothingFound(p, bufLen, nonBlock, turns[..m]);
        VainInPrefix(p, start, turns, m, k);
        assert turns[..m][..k + 2] == turns[..k + 2];
      }
    }
  }

  /** Reader r, at turn k of these, slept and was woken like that. */
  predicate Woken(p: Pending, r: Reader, turns: seq<Turn>, k: nat, interrupted: bool, denied: bool)
    requires p.Valid() && k < |turns|
  {
    && Follow(p, r, turns[..k]).1.place.Asleep?
    && turns[k].wake.interrupted == interrupted && (!interrupted ==> turns[k].wake.denied == denied)
  }

  /** Why a read is where it is: only one that may sleep sleeps; it returns an error for
      the buffer exactly if that is too small for a frame, for having found nothing only if
      it may not sleep, for a signal only when that ends its sleep, and for the end of the
      device only when entry is denied after a sleep that no signal ended. */
  ghost predicate Reasons(p: Pending, bufLen: nat, nonBlock: bool, turns: seq<Turn>)
    requires p.Valid()
  {
    var start := StartRead(bufLen, nonBlock);
    var place := Follow(p, start, turns).1.place;
    && (place == Returned(EINVAL) <==> bufLen < MAX_FRAME)
    && (place == Returned(EAGAIN) ==> nonBlock)
    && (place.Asleep? ==> !nonBlock)
    && (place == Returned(ERESTARTSYS) ==> exists k: nat :: k < |turns| && Woken(p, start, turns, k, true, false))
    && (place == Returned(ENODEV) ==> exists k: nat :: k < |turns| && Woken(p, start, turns, k, false, true))
  }

  lemma DeliverReasons(r: Reader, frame: seq<Byte>)
    ensures var place := Deliver(r, frame).place; place.Looking? || (place.Returned? && place.result.Count?)
  {
  }

  /** What one step adds to the reasons. */
  lemma StepReasons(r: Reader, t: Taken, w: Wake)
    ensures var place := ReaderAfter(r, t, w).place;
      && (place == Returned(EINVAL) ==> r.place == place)
      && (place == Returned(EAGAIN) ==> r.place == place || r.nonBlock)
      && (place.Asleep? ==> !r.nonBlock)
      && (place == Returned(ERESTARTSYS) ==> r.place == place || (r.place.Asleep? && w.interrupted))
      && (place == Returned(ENODEV) ==> r.place == place || (r.place.Asleep? && !w.interrupted && w.denied))
  {
    hide Deliver, Frame;
    DeliverReasons(r, t.Frame());
  }

  lemma DoneStays(p: Pending, r: Reader, w: Wake)
    requires p.Valid() && r.place.Returned?
    ensures ReaderAfter(r, TakenBy(p, r), w) == r
  {
  }

  lemma {:induction false} ReturnReasons(p: Pending, bufLen: nat, nonBlock: bool, turns: seq<Turn>)
    requires p.Valid()
    ensures Reasons(p, bufLen, nonBlock, turns)
  {
    hide ReaderAfter, TakenBy, ArriveAll, Without, ReaderOk;
    var start := StartRead(bufLen, nonBlock);
    if turns != [] {
      var m := |turns| - 1;
      var (p1, r1) := Follow(p, start, turns[..m]);
      var p2 := ArriveAll(p1, turns[m].news);
      ReturnReasons(p, bufLen, nonBlock, turns[..m]);
      WholeFramesOnly(p, bufLen, nonBlock, turns[..m]);
      StepReasons(r1, TakenBy(p2, r1), turns[m].wake);
      if r1.place.Returned? {
        DoneStays(p2, r1, turns[m].wake);
        if r1.place == Returned(ERESTARTSYS) || r1.place == Returned(ENODEV) {
          var interrupted := r1.place == Returned(ERESTARTSYS);
          var k: nat :| k < m && Woken(p, start, turns[..m], k, interrupted, !interrupted);
          assert turns[..m][..k] == turns[..k];
          assert Woken(p, start, turns, k, interrupted, !interrupted);
        }
      } else if r1.place.Asleep? {
        assert Woken(p, start, turns, m, turns[m].wake.interrupted, turns[m].wake.denied);
        assert turns[m].wake.interrupted ==> Woken(p, start, turns, m, true, false);
      }
    }
  }

  // ----- the VIRT_DEV in place

  /** struct vdev_data, with the direct access counter of its descriptor. */
  class VirtualDevice {
    const cbEvents: CircBuf
    const notifiedEvents: EventBitmap
    var directAccessDenied: bool
    var directAccessActiveCount: int

    ghost predicate Valid()
      reads this, cbEvents, cbEvents.buf, notifiedEvents, notifiedEvents.mask
    {
      && cbEvents.Valid() && notifiedEvents.Valid()
      && cbEvents.buf as object != notifiedEvents.mask
    }

    ghost function Abs(): (p: Pending)
      reads this, cbEvents, cbEvents.buf, notifiedEvents, notifiedEvents.mask
      requires Valid()
      ensures p.Valid()
    {
      Pending(notifiedEvents.codes, cbEvents.Abs())
    }

    /** init_dev */
    constructor (memory: array<Entry>)
      requires memory.Length == CBUF_EVENT_COUNT
      ensures Valid() && Abs() == Pending({}, Ring(memory[..], 0, 0, false))
      ensures !directAccessDenied && directAccessActiveCount == 0
    {
      cbEvents := new CircBuf(memory);
      notifiedEvents := new EventBitmap();
      directAccessDenied, directAccessActiveCount := false, 0;
    }

    method LockDirectCall() returns (admitted: bool)
      modifies this`directAccessActiveCount
      ensures admitted <==> !directAccessDenied
      ensures directAccessActiveCount == old(directAccessActiveCount) + if admitted then 1 else 0
    {
      if directAccessDenied {
        admitted := false;
      } else {
        directAccessActiveCount := directAccessActiveCount + 1;
        admitted := true;
      }
    }

    method UnlockDirectCall()
      modifies this`directAccessActiveCount
      ensures directAccessActiveCount == old(directAccessActiveCount) - 1
    {
      directAccessActiveCount := directAccessActiveCount - 1;
    }

    /** modac_vdev_notify */
    method Notify(event: int)
      requires Valid()
      modifies notifiedEvents`codes, notifiedEvents.mask
      ensures Valid() && notifiedEvents.mask == old(notifiedEvents.mask)
      ensures Abs() == Arrive(old(Abs()), Notified(event))
    {
      notifiedEvents.Add(event);
    }

    /** modac_vdev_put_cb */
    method PutCb(event: int, data: seq<Byte>)
      requires Valid()
      modifies cbEvents`head, cbEvents`overflowWritten, cbEvents.buf
      ensures Valid() && cbEvents.buf == old(cbEvents.buf)
      ensures Abs() == Arrive(old(Abs()), Queued(event, data))
    {
      hide PutRing;
      var saved := cbEvents.Put(event, data);
    }

    /** read_has_data */
    method ReadHasData() returns (has: bool)
      requires Valid()
      ensures has <==> HasData(Abs())
    {
      has := cbEvents.Available();
      if !has {
        var none := notifiedEvents.IsEmpty();
        has := !none;
      }
    }

    /** What interrupts do before the next step of a reader. */
    method Interrupts(news: seq<Arrival>)
      requires Valid()
      modifies notifiedEvents`codes, notifiedEvents.mask, cbEvents`head, cbEvents`overflowWritten, cbEvents.buf
      ensures Valid() && notifiedEvents.mask == old(notifiedEvents.mask) && cbEvents.buf == old(cbEvents.buf)
      ensures Abs() == ArriveAll(old(Abs()), news)
    {
      hide Arrive;
      var i := 0;
      while i < |news|
        invariant 0 <= i <= |news|
        invariant Valid() && notifiedEvents.mask == old(notifiedEvents.mask) && cbEvents.buf == old(cbEvents.buf)
        invariant Abs() == ArriveAll(old(Abs()), news[..i])
      {
        assert news[..i + 1][..i] == news[..i];
        match news[i] {
          case Notified(event) => Notify(event);
          case Queued(event, data) => PutCb(event, data);
        }
        i := i + 1;
      }
      assert news[..i] == news;
    }

    /** read_get, first part: the lowest notified code, or -1. */
    method TakeNotified() returns (event: int)
      requires Valid()
      modifies notifiedEvents`codes, notifiedEvents.mask
      ensures Valid() && notifiedEvents.mask == old(notifiedEvents.mask)
      ensures var c := Lowest(old(Abs()));
        if c < EVENT_LIST_TYPE_MAX_EVENTS then event == c && Abs() == Without(old(Abs()), Code(c))
        else event < 0 && Abs() == old(Abs())
    {
      event := notifiedEvents.ExtractOne();
      if event >= 0 {
        notifiedEvents.Remove(event);
      }
    }

    /** read_get, second part: the oldest entry of the queue with the number of bytes
        copied for it, or no bytes. */
    method TakeQueued() returns (bytes: seq<Byte>, n: nat)
      requires Valid()
      modifies cbEvents`tail
      ensures Valid()
      ensures bytes == GetBytes(old(Abs()).ring) && n == GetCount(old(Abs()).ring)
      ensures Abs() == old(Abs()).(ring := GetRing(old(Abs()).ring))
    {
      hide GetBytes, GetCount, GetRing;
      bytes, n := cbEvents.Get();
    }

    /** One call of TakeNotified as a step of a reader; the bytes are those of the code
        found, if any. */
    method LookForCode(ghost r: Reader, turn: Turn) returns (bytes: seq<Byte>, ghost r': Reader)
      requires Valid() && r.place.Looking?
      modifies notifiedEvents`codes, notifiedEvents.mask, cbEvents`head, cbEvents`overflowWritten, cbEvents.buf
      ensures Valid() && notifiedEvents.mask == old(notifiedEvents.mask) && cbEvents.buf == old(cbEvents.buf)
      ensures (Abs(), r') == StepReader(old(Abs()), r, turn)
      ensures if bytes == [] then r' == r.(place := Between) else r' == Deliver(r, bytes) && FrameSized(bytes)
    {
      hide ArriveAll;
      Interrupts(turn.news);
      ghost var p := Abs();
      var event := TakeNotified();
      if event < 0 {
        return [], r.(place := Between);
      }
      bytes := EventBytes(EventField(event));
      r' := Deliver(r, bytes);
    }

    /** One call of TakeQueued as a step of a reader. */
    method LookIntoQueue(ghost r: Reader, turn: Turn) returns (bytes: seq<Byte>, n: nat, ghost r': Reader)
      requires Valid() && r.place.Between?
      modifies notifiedEvents`codes, notifiedEvents.mask
      modifies cbEvents`head, cbEvents`tail, cbEvents`overflowWritten, cbEvents.buf
      ensures Valid() && notifiedEvents.mask == old(notifiedEvents.mask) && cbEvents.buf == old(cbEvents.buf)
      ensures (Abs(), r') == StepReader(old(Abs()), r, turn)
      ensures if n == 0 then bytes == [] && r' == r.(place := FoundNothing(r))
        else if n > MAX_FRAME then r' == Deliver(r, bytes).(place := Overran)
        else r' == Deliver(r, bytes) && n == |bytes| && FrameSized(bytes)
    {
      hide ArriveAll;
      Interrupts(turn.news);
      ghost var p := Abs();
      bytes, n := TakeQueued();
      r' :=
        if n == 0 then r.(place := FoundNothing(r))
        else if n > MAX_FRAME then Deliver(r, bytes).(place := Overran)
        else Deliver(r, bytes);
    }

    /** read_get, taking one turn for the look for a code and, if there is none, another
        for the look into the queue; 'stopped' when there is no turn for that. */
    method ReadGet(ghost r: Reader, turns: seq<Turn>, used: nat)
      returns (bytes: seq<Byte>, n: nat, stopped: bool, next: nat, ghost r': Reader)
      requires Valid() && r.place.Looking? && used < |turns|
      modifies notifiedEvents`codes, notifiedEvents.mask
      modifies cbEvents`head, cbEvents`tail, cbEvents`overflowWritten, cbEvents.buf
      ensures Valid() && notifiedEvents.mask == old(notifiedEvents.mask) && cbEvents.buf == old(cbEvents.buf)
      ensures used < next <= |turns| && (Abs(), r') == Follow(old(Abs()), r, turns[used..next])
      ensures
        if stopped then next == |turns| && r' == r.(place := Between)
        else if n == 0 then bytes == [] && r' == r.(place := FoundNothing(r))
        else if n > MAX_FRAME then r' == Deliver(r, bytes).(place := Overran)
        else r' == Deliver(r, bytes) && n == |bytes| && FrameSized(bytes)
    {
      hide StepReader, Deliver, FoundNothing;
      FollowNone(Abs(), r, turns[used..]);
      next, n, stopped := used + 1, 0, false;
      bytes, r' := LookForCode(r, turns[used]);
      FollowOne(old(Abs()), r, turns[used..], 0);
      assert turns[used..][..1] == turns[used..used + 1];
      if bytes != [] {
        n := |bytes|;
        return;
      }
      if next == |turns| {
        stopped := true;
        return;
      }
      next := next + 1;
      bytes, n, r' := LookIntoQueue(r', turns[used + 1]);
      FollowOne(old(Abs()), r, turns[used..], 1);
      assert turns[used..][..2] == turns[used..used + 2];
      SamePlace(r, bytes);
    }

    /** The end of wait_event_interruptible, and entering again. */
    method SleepAndReenter(ghost r: Reader, turn: Turn) returns (place: Place, ghost r': Reader)
      requires Valid() && r.place.Asleep?
      modifies this`directAccessActiveCount, this`directAccessDenied
      modifies notifiedEvents`codes, notifiedEvents.mask, cbEvents`head, cbEvents`overflowWritten, cbEvents.buf
      ensures Valid() && notifiedEvents.mask == old(notifiedEvents.mask) && cbEvents.buf == old(cbEvents.buf)
      ensures (Abs(), r') == StepReader(old(Abs()), r, turn)
      ensures r' == r.(place := place) && (place.Looking? || place == Returned(ERESTARTSYS) || place == Returned(ENODEV))
      ensures directAccessActiveCount == old(directAccessActiveCount) + if place.Looking? then 1 else 0
      ensures place.Looking? ==> !directAccessDenied
    {
      hide ArriveAll;
      Interrupts(turn.news);
      directAccessDenied := turn.wake.denied;
      if turn.wake.interrupted {
        place := Returned(ERESTARTSYS);
      } else {
        var entered := LockDirectCall();
        place := if entered then Looking else Returned(ENODEV);
      }
      r' := r.(place := place);
    }

    /** vdev_read. The steps between which interrupts run take one turn each; when the
        turns are used up the reader is left where it is. */
    method Read(bufLen: nat, nonBlock: bool, turns: seq<Turn>) returns (place: Place, buff: seq<Byte>, used: nat, ghost r: Reader)
      requires Valid()
      modifies this`directAccessActiveCount, this`directAccessDenied
      modifies notifiedEvents`codes, notifiedEvents.mask, cbEvents`head, cbEvents`tail, cbEvents`overflowWritten, cbEvents.buf
      ensures Valid()
      ensures old(directAccessDenied) ==> place == Returned(ENODEV) && buff == [] && used == 0 && Abs() == old(Abs())
      ensures !old(directAccessDenied) ==>
                && used <= |turns| && (used < |turns| ==> place.Returned? || place.Overran?)
                && (Abs(), r) == Follow(old(Abs()), StartRead(bufLen, nonBlock), turns[..used])
                && place == r.place && buff == Concat(r.frames)
      ensures directAccessActiveCount == old(directAccessActiveCount) + if place.Inside() then 1 else 0
    {
      hide Follow, StepReader, ReaderAfter, ArriveAll, Concat, GetBytes, GetRing, GetCount, CircCnt, PutRing, EventBytes;
      NoFrames();
      r, buff, used := StartRead(bufLen, nonBlock), [], 0;
      FollowNone(Abs(), r, turns);
      place := if bufLen < MAX_FRAME then Returned(EINVAL) else Looking;
      var entered := LockDirectCall();
      if !entered {
        place := Returned(ENODEV);
        return;
      }
      if bufLen < MAX_FRAME {
        UnlockDirectCall();
        return;
      }
      var countRead, bufStillFree: int := 0, bufLen;
      while bufStillFree >= MAX_FRAME
        invariant Valid() && 0 <= used <= |turns|
        invariant cbEvents.buf == old(cbEvents.buf) && notifiedEvents.mask == old(notifiedEvents.mask)
        invariant directAccessActiveCount == old(directAccessActiveCount) + 1 && !directAccessDenied
        invariant buff == Concat(r.frames) && place == r.place
        invariant Follow(old(Abs()), StartRead(bufLen, nonBlock), turns[..used]) == (Abs(), r)
        invariant r.bufLen == bufLen && r.nonBlock == nonBlock && r.free == bufStillFree == bufLen - countRead
        invariant place == if bufStillFree >= MAX_FRAME then Looking else Returned(Count(countRead))
        decreases |turns| - used
      {
        if used == |turns| {
          return;
        }
        ghost var r0 := r;
        var evbuf, n, stopped, next;
        evbuf, n, stopped, next, r := ReadGet(r, turns, used);
        FollowMore(old(Abs()), StartRead(bufLen, nonBlock), turns, used, next);
        used := next;
        if stopped {
          place := Between;
          return;
        }
        if n == 0 {
          if countRead > 0 {
            place := Returned(Count(countRead));
            UnlockDirectCall();
            return;
          }
          if nonBlock {
            place := Returned(EAGAIN);
            UnlockDirectCall();
            return;
          }
          UnlockDirectCall();
          place := Asleep;
          if used == |turns| {
            return;
          }
          place, r := SleepAndReenter(r, turns[used]);
          FollowOne(old(Abs()), StartRead(bufLen, nonBlock), turns, used);
          used := used + 1;
          if !place.Looking? {
            return;
          }
        } else {
          DeliverConcat(r0, evbuf);
          buff := buff + evbuf;
          if n > MAX_FRAME {
            place := Overran;
            return;
          }
          bufStillFree := bufStillFree - n;
          countRead := countRead + n;
          place := if bufStillFree >= MAX_FRAME then Looking else Returned(Count(countRead));
        }
      }
      UnlockDirectCall();
    }
  }
}
