/** The events of one VIRT_DEV from its creation on: what arrives, and any number of
    readers that take it, one look at a time and in any order. */
module Reading {
  import opened EventList
  import opened PacketQueue
  import opened Backlog
  import opened VirtDev
  import opened Framing

  /** One look of a reader that found something, and how many arrivals were before it. */
  datatype Taking = Taking(reader: nat, what: Taken, after: nat)

  /** A reader with the frames of its reads before this one. */
  datatype Seat = Seat(reader: Reader, past: seq<seq<Byte>>)

  /** What there is to read and who reads; and what has happened: the arrivals, the
      frames that the puts among them added to the queue, and the takings. 'allStored'
      is whether no put has met a full queue, 'clean' whether hardware alone has put
      something in and no put has passed over a slot with something else in it. */
  datatype Feed = Feed(
    pending: Pending,
    seats: map<nat, Seat>,
    arrived: seq<Arrival>,
    added: seq<seq<Byte>>,
    taken: seq<Taking>,
    allStored: bool,
    clean: bool)

  function Fresh(memory: Memory): (f: Feed)
    ensures f.pending.Valid()
  {
    Feed(Pending({}, Ring(memory, 0, 0, false)), map[], [], [], [], true, true)
  }

  function Adds(p: Pending, a: Arrival): seq<seq<Byte>>
    requires p.Valid()
  {
    match a
    case Notified(_) => []
    case Queued(event, data) => PutAdds(p.ring, event, data)
  }

  function Receive(f: Feed, a: Arrival): (f': Feed)
    requires f.pending.Valid()
    ensures f'.pending.Valid()
  {
    f.(pending := Arrive(f.pending, a),
       arrived := f.arrived + [a],
       added := f.added + Adds(f.pending, a),
       allStored := f.allStored && (a.Queued? ==> PutKindOf(f.pending.ring, a.data).Stored?),
       clean := f.clean && HardwareArrival(a) && !StaleOn(f.pending, a))
  }

  /** A reader calls vdev_read and is let in. */
  function Begin(f: Feed, i: nat, bufLen: nat, nonBlock: bool): Feed {
    if i !in f.seats then f.(seats := f.seats[i := Seat(StartRead(bufLen, nonBlock), [])])
    else if !f.seats[i].reader.Done() then f
    else f.(seats := f.seats[i := Seat(StartRead(bufLen, nonBlock), f.seats[i].past + f.seats[i].reader.frames)])
  }

  /** A reader makes its next step. */
  function Go(f: Feed, i: nat, w: Wake): (f': Feed)
    requires f.pending.Valid()
    ensures f'.pending.Valid()
  {
    if i !in f.seats then f
    else
      var t := TakenBy(f.pending, f.seats[i].reader);
      f.(pending := Without(f.pending, t),
         seats := f.seats[i := f.seats[i].(reader := ReaderAfter(f.seats[i].reader, t, w))],
         taken := if t.Nothing? then f.taken else f.taken + [Taking(i, t, |f.arrived|)])
  }

  // ----- what was taken, in order

  function TakenFrames(taken: seq<Taking>): seq<seq<Byte>> {
    seq(|taken|, k requires 0 <= k < |taken| => taken[k].what.Frame())
  }

  /** Those out of the queue. */
  function QueueFrames(taken: seq<Taking>): seq<seq<Byte>> {
    if taken == [] then []
    else
      var last := taken[|taken| - 1];
      QueueFrames(taken[..|taken| - 1]) + if last.what.Slot? then [last.what.Frame()] else []
  }

  /** Those taken by one reader. */
  function FramesOf(taken: seq<Taking>, i: nat): seq<seq<Byte>> {
    if taken == [] then []
    else
      var last := taken[|taken| - 1];
      FramesOf(taken[..|taken| - 1], i) + if last.reader == i then [last.what.Frame()] else []
  }

  lemma TakeOne(taken: seq<Taking>, x: Taking, i: nat)
    ensures QueueFrames(taken + [x]) == QueueFrames(taken) + if x.what.Slot? then [x.what.Frame()] else []
    ensures FramesOf(taken + [x], i) == FramesOf(taken, i) + if x.reader == i then [x.what.Frame()] else []
    ensures TakenFrames(taken + [x]) == TakenFrames(taken) + [x.what.Frame()]
  {
    assert (taken + [x])[..|taken|] == taken;
  }

  /** The frames of the arrivals that were for the queue. */
  function QueuedFrames(arrived: seq<Arrival>): seq<seq<Byte>> {
    if arrived == [] then []
    else
      var last := arrived[|arrived| - 1];
      QueuedFrames(arrived[..|arrived| - 1]) + if last.Queued? then [EventBytes(EventField(last.event)) + last.data] else []
  }

  // ----- the invariant

  /** Nothing gets lost, doubled or out of order between the puts and the takings. */
  predicate Conserved(f: Feed)
    requires f.pending.Valid()
  {
    QueueFrames(f.taken) + Frames(f.pending.ring) == f.added
  }

  /** Each reader has what it took, in whole frames. */
  ghost predicate Shares(f: Feed) {
    && (forall i | i in f.seats ::
          ReaderOk(f.seats[i].reader) && FramesOf(f.taken, i) == f.seats[i].past + f.seats[i].reader.frames)
    && (forall i | i !in f.seats :: FramesOf(f.taken, i) == [])
  }

  ghost predicate Decodable(f: Feed) {
    && Framed(f.pending)
    && (forall k | 0 <= k < |f.taken| ::
          HardwareFrame(f.taken[k].what.Frame()) && (NoteCode(FrameEvent(f.taken[k].what.Frame())) <==> !f.taken[k].what.Slot?))
    && (forall i | i in f.seats :: !f.seats[i].reader.place.Overran?)
  }

  predicate AllHardware(arrived: seq<Arrival>) { forall k | 0 <= k < |arrived| :: HardwareArrival(arrived[k]) }

  ghost predicate FeedInv(f: Feed) {
    && f.pending.Valid()
    && Conserved(f)
    && Shares(f)
    && (f.clean ==> Decodable(f))
    && (f.allStored ==> f.added == QueuedFrames(f.arrived))
    && (f.allStored && AllHardware(f.arrived) ==> f.clean)
  }

  lemma FreshInv(memory: Memory)
    ensures FeedInv(Fresh(memory))
  {
    FreshFramed(memory);
  }

  lemma ReceiveConserves(f: Feed, a: Arrival)
    requires f.pending.Valid() && Conserved(f)
    ensures Conserved(Receive(f, a))
  {
    match a
    case Notified(_) =>
    case Queued(event, data) => PutBacklog(f.pending.ring, event, data);
  }

  lemma ReceiveLog(f: Feed, a: Arrival)
    requires f.pending.Valid()
    requires f.allStored ==> f.added == QueuedFrames(f.arrived)
    ensures Receive(f, a).allStored ==> Receive(f, a).added == QueuedFrames(Receive(f, a).arrived)
  {
    assert (f.arrived + [a])[..|f.arrived|] == f.arrived;
  }

  lemma ReceiveHardware(f: Feed, a: Arrival)
    requires f.allStored && AllHardware(f.arrived) ==> f.clean
    requires f.pending.Valid()
    ensures Receive(f, a).allStored && AllHardware(Receive(f, a).arrived) ==> Receive(f, a).clean
  {
    hide HardwareArrival;
    var arrived := f.arrived + [a];
    if AllHardware(arrived) {
      assert HardwareArrival(arrived[|f.arrived|]);
      assert forall k | 0 <= k < |f.arrived| :: arrived[k] == f.arrived[k];
    }
  }

  lemma ReceiveInv(f: Feed, a: Arrival)
    requires FeedInv(f)
    ensures FeedInv(Receive(f, a))
  {
    hide Conserved, HardwareArrival, Framed, Arrive, PutKindOf, AllHardware, Adds, StaleOn;
    ReceiveConserves(f, a);
    ReceiveLog(f, a);
    ReceiveHardware(f, a);
    if Receive(f, a).clean {
      ArriveFramed(f.pending, a);
    }
  }

  lemma BeginInv(f: Feed, i: nat, bufLen: nat, nonBlock: bool)
    requires FeedInv(f)
    ensures FeedInv(Begin(f, i, bufLen, nonBlock))
  {
    hide QueueFrames, Frames, Framed, ReaderOk, FramesOf;
    StartOk(bufLen, nonBlock);
    if i in f.seats {
      var had := f.seats[i].past + f.seats[i].reader.frames;
      assert had + [] == had;
    }
  }

  lemma WithoutSlot(p: Pending, r: Reader)
    requires p.Valid()
    ensures var t := TakenBy(p, r);
      Frames(p.ring) == (if t.Slot? then [t.Frame()] else []) + Frames(Without(p, t).ring)
  {
    hide Frame, GetRing, CircCnt, Frames;
    var t := TakenBy(p, r);
    if t.Slot? {
      GetBacklog(p.ring);
    } else {
      assert [] + Frames(p.ring) == Frames(p.ring);
    }
  }

  lemma GoConserves(f: Feed, i: nat, w: Wake)
    requires f.pending.Valid() && Conserved(f)
    ensures Conserved(Go(f, i, w))
  {
    hide QueueFrames, Frames, TakenBy, Without, ReaderAfter;
    if i in f.seats {
      var t := TakenBy(f.pending, f.seats[i].reader);
      TakeOne(f.taken, Taking(i, t, |f.arrived|), i);
      WithoutSlot(f.pending, f.seats[i].reader);
      assert t.Nothing? ==> [] + Frames(Without(f.pending, t).ring) == Frames(Without(f.pending, t).ring);
    }
  }

  lemma GoShares(f: Feed, i: nat, w: Wake)
    requires f.pending.Valid() && Shares(f)
    ensures Shares(Go(f, i, w))
  {
    hide FramesOf, ReaderOk, Frame, CircCnt, Without;
    if i in f.seats {
      var t := TakenBy(f.pending, f.seats[i].reader);
      var f' := Go(f, i, w);
      StepOk(f.pending, f.seats[i].reader, w);
      forall j: nat ensures FramesOf(f'.taken, j) == FramesOf(f.taken, j) + if !t.Nothing? && j == i then [t.Frame()] else [] {
        TakeOne(f.taken, Taking(i, t, |f.arrived|), j);
      }
    }
  }

  lemma GoDecodable(f: Feed, i: nat, w: Wake)
    requires f.pending.Valid() && Decodable(f)
    ensures Decodable(Go(f, i, w))
  {
    hide Framed, HardwareFrame, FrameEvent, NoteCode, CircCnt;
    if i in f.seats && !TakenBy(f.pending, f.seats[i].reader).Nothing? {
      TakenFramed(f.pending, f.seats[i].reader);
    }
  }

  lemma GoInv(f: Feed, i: nat, w: Wake)
    requires FeedInv(f)
    ensures FeedInv(Go(f, i, w))
  {
    hide Conserved, Shares, Decodable, TakenBy, Without, ReaderAfter;
    GoConserves(f, i, w);
    GoShares(f, i, w);
    if f.clean {
      GoDecodable(f, i, w);
    }
  }

  // ----- the notified codes

  /** Each taking of the code was before the n-th arrival. */
  predicate TakenBefore(taken: seq<Taking>, c: int, n: nat) {
    forall j | 0 <= j < |taken| && taken[j].what.Code? && taken[j].what.c == c :: taken[j].after <= n
  }

  /** The code has been notified since it was taken last. */
  ghost predicate NoteWaits(arrived: seq<Arrival>, taken: seq<Taking>, c: int) {
    exists n: nat :: n < |arrived| && arrived[n] == Notified(c) && TakenBefore(taken, c, n)
  }

  /** What is notified is what has been notified since it was taken last, and whatever was
      taken had been. */
  ghost predicate NotesKept(f: Feed) {
    && (forall k | 0 <= k < |f.taken| :: f.taken[k].after <= |f.arrived|)
    && (forall c | InRange(c) :: c in f.pending.codes <==> NoteWaits(f.arrived, f.taken, c))
    && forall k | 0 <= k < |f.taken| && f.taken[k].what.Code? ::
         InRange(f.taken[k].what.c) && NoteWaits(f.arrived[..f.taken[k].after], f.taken[..k], f.taken[k].what.c)
  }

  lemma FreshNotes(memory: Memory)
    ensures NotesKept(Fresh(memory))
  {
  }

  lemma BeginNotes(f: Feed, i: nat, bufLen: nat, nonBlock: bool)
    requires NotesKept(f)
    ensures NotesKept(Begin(f, i, bufLen, nonBlock))
  {
    hide NoteWaits;
  }

  lemma OneMoreNote(arrived: seq<Arrival>, taken: seq<Taking>, a: Arrival, c: int)
    requires forall k | 0 <= k < |taken| :: taken[k].after <= |arrived|
    ensures NoteWaits(arrived + [a], taken, c) <==> NoteWaits(arrived, taken, c) || a == Notified(c)
  {
    if NoteWaits(arrived, taken, c) {
      var n: nat :| n < |arrived| && arrived[n] == Notified(c) && TakenBefore(taken, c, n);
      assert (arrived + [a])[n] == Notified(c);
    }
    if a == Notified(c) {
      assert (arrived + [a])[|arrived|] == Notified(c) && TakenBefore(taken, c, |arrived|);
    }
  }

  lemma ArriveCodes(p: Pending, a: Arrival, c: int)
    requires p.Valid() && InRange(c)
    ensures c in Arrive(p, a).codes <==> c in p.codes || a == Notified(c)
  {
    hide PutRing;
  }

  lemma ReceiveNotes(f: Feed, a: Arrival)
    requires f.pending.Valid() && NotesKept(f)
    ensures NotesKept(Receive(f, a))
  {
    hide NoteWaits, Arrive, Adds, PutKindOf, HardwareArrival, StaleOn;
    var f' := Receive(f, a);
    forall c | InRange(c) ensures c in f'.pending.codes <==> NoteWaits(f'.arrived, f'.taken, c) {
      OneMoreNote(f.arrived, f.taken, a, c);
      ArriveCodes(f.pending, a, c);
    }
    forall k | 0 <= k < |f.taken| ensures f'.arrived[..f.taken[k].after] == f.arrived[..f.taken[k].after] {
    }
  }

  lemma OneMoreTaking(arrived: seq<Arrival>, taken: seq<Taking>, x: Taking, c: int)
    requires x.after == |arrived|
    ensures NoteWaits(arrived, taken + [x], c) <==> NoteWaits(arrived, taken, c) && !(x.what.Code? && x.what.c == c)
  {
    var taken' := taken + [x];
    if NoteWaits(arrived, taken', c) {
      var n: nat :| n < |arrived| && arrived[n] == Notified(c) && TakenBefore(taken', c, n);
      assert taken'[|taken|] == x;
      assert forall j | 0 <= j < |taken| :: taken'[j] == taken[j];
      assert TakenBefore(taken, c, n);
    }
    if NoteWaits(arrived, taken, c) && !(x.what.Code? && x.what.c == c) {
      var n: nat :| n < |arrived| && arrived[n] == Notified(c) && TakenBefore(taken, c, n);
      assert TakenBefore(taken', c, n);
    }
  }

  /** What a look takes of the codes. */
  lemma LookCodes(p: Pending, r: Reader, c: int)
    requires p.Valid()
    ensures var t := TakenBy(p, r);
      && (t.Code? ==> InRange(t.c) && t.c in p.codes)
      && (c in Without(p, t).codes <==> c in p.codes && !(t.Code? && t.c == c))
  {
    hide GetRing, CircCnt;
  }

  lemma GoNotes(f: Feed, i: nat, w: Wake)
    requires f.pending.Valid() && NotesKept(f)
    ensures NotesKept(Go(f, i, w))
  {
    hide NoteWaits, TakenBy, Without, ReaderAfter;
    if i in f.seats {
      var t := TakenBy(f.pending, f.seats[i].reader);
      var f' := Go(f, i, w);
      forall c | InRange(c) ensures c in f'.pending.codes <==> NoteWaits(f'.arrived, f'.taken, c) {
        LookCodes(f.pending, f.seats[i].reader, c);
        OneMoreTaking(f.arrived, f.taken, Taking(i, t, |f.arrived|), c);
      }
      LookCodes(f.pending, f.seats[i].reader, 0);
      forall k | 0 <= k < |f'.taken| && f'.taken[k].what.Code?
        ensures InRange(f'.taken[k].what.c) && NoteWaits(f'.arrived[..f'.taken[k].after], f'.taken[..k], f'.taken[k].what.c)
      {
        if k < |f.taken| {
          assert f'.taken[..k] == f.taken[..k];
        } else {
          assert f'.taken[..k] == f.taken && f'.arrived[..|f.arrived|] == f.arrived;
        }
      }
    }
  }

  // ----- the bytes that the readers got

  /** Everything copied to readers, in the order of copying. */
  function Stream(f: Feed): seq<Byte> { Concat(TakenFrames(f.taken)) }

  function WithoutNotes(frames: seq<seq<Byte>>): seq<seq<Byte>> {
    if frames == [] then []
    else
      var last := frames[|frames| - 1];
      WithoutNotes(frames[..|frames| - 1]) + if NoteCode(FrameEvent(last)) then [] else [last]
  }

  lemma {:induction false} QueueFramesTold(taken: seq<Taking>)
    requires forall k | 0 <= k < |taken| :: NoteCode(FrameEvent(taken[k].what.Frame())) <==> !taken[k].what.Slot?
    ensures WithoutNotes(TakenFrames(taken)) == QueueFrames(taken)
  {
    hide FrameEvent, NoteCode;
    if taken != [] {
      QueueFramesTold(taken[..|taken| - 1]);
      assert TakenFrames(taken)[..|taken| - 1] == TakenFrames(taken[..|taken| - 1]);
    }
  }

  /** As long as the queue is clean its bytes decode to exactly the takings, and no
      reader has been overrun. */
  lemma StreamDecodes(f: Feed)
    requires FeedInv(f) && f.clean
    ensures Decode(Stream(f)) == TakenFrames(f.taken)
    ensures WithoutNotes(Decode(Stream(f))) == QueueFrames(f.taken)
    ensures forall i | i in f.seats :: !f.seats[i].reader.place.Overran?
  {
    hide Decode, HardwareFrame, FrameEvent, NoteCode;
    DecodeConcat(TakenFrames(f.taken));
    QueueFramesTold(f.taken);
  }

  // ----- one read, as vdev_read makes it

  function ReceiveAll(f: Feed, news: seq<Arrival>): (f': Feed)
    requires f.pending.Valid()
    ensures f'.pending.Valid()
  {
    if news == [] then f else Receive(ReceiveAll(f, news[..|news| - 1]), news[|news| - 1])
  }

  lemma {:induction false} ReceiveAllInv(f: Feed, news: seq<Arrival>)
    requires FeedInv(f)
    ensures FeedInv(ReceiveAll(f, news))
    ensures ReceiveAll(f, news).pending == ArriveAll(f.pending, news)
    ensures ReceiveAll(f, news).seats == f.seats && ReceiveAll(f, news).taken == f.taken
  {
    hide Conserved, Shares, Decodable, QueuedFrames, AllHardware, Arrive;
    if news != [] {
      ReceiveAllInv(f, news[..|news| - 1]);
      ReceiveInv(ReceiveAll(f, news[..|news| - 1]), news[|news| - 1]);
    }
  }

  lemma {:induction false} ReceiveAllNotes(f: Feed, news: seq<Arrival>)
    requires f.pending.Valid() && NotesKept(f)
    ensures NotesKept(ReceiveAll(f, news))
  {
    hide NotesKept, Receive;
    if news != [] {
      ReceiveAllNotes(f, news[..|news| - 1]);
      ReceiveNotes(ReceiveAll(f, news[..|news| - 1]), news[|news| - 1]);
    }
  }

  /** The steps of reader i with what arrives before each. */
  function TakeTurns(f: Feed, i: nat, turns: seq<Turn>): (f': Feed)
    requires f.pending.Valid()
    ensures f'.pending.Valid()
  {
    if turns == [] then f
    else
      var last := turns[|turns| - 1];
      Go(ReceiveAll(TakeTurns(f, i, turns[..|turns| - 1]), last.news), i, last.wake)
  }

  /** What vdev_read does is so many steps of its reader. */
  lemma {:induction false} ReadIsSteps(f: Feed, i: nat, turns: seq<Turn>)
    requires FeedInv(f) && i in f.seats
    ensures var f' := TakeTurns(f, i, turns);
      && FeedInv(f') && i in f'.seats && f'.seats[i].past == f.seats[i].past
      && (f'.pending, f'.seats[i].reader) == Follow(f.pending, f.seats[i].reader, turns)
  {
    hide Conserved, Shares, Decodable, QueuedFrames, AllHardware, TakenBy, Without, ReaderAfter, ArriveAll, ReceiveAll;
    if turns != [] {
      var last := turns[|turns| - 1];
      var f1 := TakeTurns(f, i, turns[..|turns| - 1]);
      ReadIsSteps(f, i, turns[..|turns| - 1]);
      ReceiveAllInv(f1, last.news);
      GoInv(ReceiveAll(f1, last.news), i, last.wake);
    }
  }

  /** A VIRT_DEV in any state to which one reader comes. */
  function Visited(p: Pending, bufLen: nat, nonBlock: bool): Feed
    requires p.Valid()
  {
    Feed(p, map[0 := Seat(StartRead(bufLen, nonBlock), [])], [], Frames(p.ring), [], false, false)
  }

  lemma VisitedInv(p: Pending, bufLen: nat, nonBlock: bool)
    requires p.Valid()
    ensures FeedInv(Visited(p, bufLen, nonBlock))
    ensures Framed(p) ==> FeedInv(Visited(p, bufLen, nonBlock).(clean := true))
  {
    hide Framed, Frames;
    StartOk(bufLen, nonBlock);
  }

  /** The frames of one read are, in order, the codes and queue entries taken by it; and
      the entries taken with those still there are those there before with those that
      the puts in between added. */
  lemma ReadDelivers(p: Pending, bufLen: nat, nonBlock: bool, turns: seq<Turn>)
    requires p.Valid()
    ensures var f := TakeTurns(Visited(p, bufLen, nonBlock), 0, turns);
      var (left, r) := Follow(p, StartRead(bufLen, nonBlock), turns);
      && f.pending == left
      && r.frames == FramesOf(f.taken, 0)
      && Frames(p.ring) <= f.added
      && QueueFrames(f.taken) + Frames(left.ring) == f.added
  {
    hide Frames, FramesOf, QueueFrames, Follow;
    VisitedInv(p, bufLen, nonBlock);
    ReadIsSteps(Visited(p, bufLen, nonBlock), 0, turns);
    AddedGrows(Visited(p, bufLen, nonBlock), 0, turns);
  }

  lemma {:induction false} ReceivedGrows(f: Feed, news: seq<Arrival>)
    requires f.pending.Valid()
    ensures f.added <= ReceiveAll(f, news).added
  {
    hide Adds, Arrive;
    if news != [] {
      ReceivedGrows(f, news[..|news| - 1]);
    }
  }

  lemma {:induction false} AddedGrows(f: Feed, i: nat, turns: seq<Turn>)
    requires f.pending.Valid()
    ensures f.added <= TakeTurns(f, i, turns).added
  {
    hide Go, ReceiveAll;
    if turns != [] {
      AddedGrows(f, i, turns[..|turns| - 1]);
      var f1 := TakeTurns(f, i, turns[..|turns| - 1]);
      ReceivedGrows(f1, turns[|turns| - 1].news);
      GoAdds(ReceiveAll(f1, turns[|turns| - 1].news), i, turns[|turns| - 1].wake);
    }
  }

  lemma GoAdds(f: Feed, i: nat, w: Wake)
    requires f.pending.Valid()
    ensures Go(f, i, w).added == f.added
  {
  }

  /** Whatever hardware events arrive between and inside the looks of a read, its bytes
      decode to exactly the frames that were taken for it, it is not overrun, and what
      is left stays decodable. */
  lemma ReadDecodes(p: Pending, bufLen: nat, nonBlock: bool, turns: seq<Turn>)
    requires Framed(p) && TakeTurns(Visited(p, bufLen, nonBlock).(clean := true), 0, turns).clean
    ensures var (left, r) := Follow(p, StartRead(bufLen, nonBlock), turns);
      Decode(Concat(r.frames)) == r.frames && !r.place.Overran? && Framed(left)
  {
    hide Ahead, HardwareEntry, Frames, Follow, Decode, HardwareFrame, TakeTurns;
    var f := Visited(p, bufLen, nonBlock).(clean := true);
    VisitedInv(p, bufLen, nonBlock);
    ReadIsSteps(f, 0, turns);
    var f' := TakeTurns(f, 0, turns);
    FramesOfHardware(f'.taken, 0);
    assert [] + f'.seats[0].reader.frames == f'.seats[0].reader.frames;
    DecodeConcat(f'.seats[0].reader.frames);
  }

  lemma {:induction false} FramesOfHardware(taken: seq<Taking>, i: nat)
    requires forall k | 0 <= k < |taken| :: HardwareFrame(taken[k].what.Frame())
    ensures forall k | 0 <= k < |FramesOf(taken, i)| :: HardwareFrame(FramesOf(taken, i)[k])
  {
    hide HardwareFrame;
    if taken != [] {
      FramesOfHardware(taken[..|taken| - 1], i);
    }
  }
}
