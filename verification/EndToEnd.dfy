/** From the interrupt to the reader: one device in any run of calls and interrupts,
    with a queue for each VIRT_DEV from its creation to its end, and any number of
    readers of each that make their steps in between. */
module EndToEnd {
  import opened Device
  import opened DeviceTable
  import opened EventList
  import opened PacketQueue
  import opened Backlog
  import opened VirtDev
  import opened Framing
  import opened Reading
  import opened Isr

  datatype World = World(d: Dev, feeds: map<nat, Feed>)

  /** A call or interrupt, with the memory that a new VIRT_DEV would get for its queue;
      a reader entering; a reader making a step. */
  datatype Event =
    | Happens(op: Op, memory: Memory)
    | Reads(id: nat, reader: nat, bufLen: nat, nonBlock: bool)
    | Goes(id: nat, reader: nat, wake: Wake)

  function Arrivals(log: seq<IrqEvent>): seq<Arrival> {
    seq(|log|, i requires 0 <= i < |log| => ArrivalOf(log[i]))
  }

  /** The calls of irq_process for one interrupt event. */
  function Handed(d: Dev, irq: IrqEvent): seq<Call> {
    if d.live && InRange(irq.event) then CallsFor(d.table[irq.event], irq) else []
  }

  function FeedAfter(w: World, op: Op, id: nat, memory: Memory): (f: Feed)
    requires id in w.feeds ==> w.feeds[id].pending.Valid()
    ensures f.pending.Valid()
  {
    if id !in w.feeds then Fresh(memory)
    else if op.Interrupt? then ReceiveAll(w.feeds[id], Arrivals(CallsTo(Handed(w.d, op.irq), id)))
    else w.feeds[id]
  }

  ghost predicate WorldOk(w: World) {
    && Shape(w.d)
    && w.feeds.Keys == w.d.vdevs.Keys
    && forall id | id in w.feeds :: w.feeds[id].pending.Valid()
  }

  /** A VIRT_DEV gets a new queue when it is created, and loses it when it is destroyed. */
  ghost function Step(w: World, e: Event): (w': World)
    requires WorldOk(w)
    ensures WorldOk(w')
  {
    match e
    case Happens(op, memory) =>
      StepShape(w.d, op);
      World(Device.Step(w.d, op), map id | id in Device.Step(w.d, op).vdevs :: FeedAfter(w, op, id, memory))
    case Reads(id, reader, bufLen, nonBlock) =>
      if id in w.feeds && w.d.IsOpen(id) then w.(feeds := w.feeds[id := Begin(w.feeds[id], reader, bufLen, nonBlock)]) else w
    case Goes(id, reader, wake) =>
      if id in w.feeds then w.(feeds := w.feeds[id := Go(w.feeds[id], reader, wake)]) else w
  }

  ghost function Run(d0: Dev, events: seq<Event>): (w: World)
    requires Start(d0)
    ensures WorldOk(w)
  {
    if events == [] then World(d0, map[]) else Step(Run(d0, events[..|events| - 1]), events[|events| - 1])
  }

  /** The calls among the events. */
  function Ops(events: seq<Event>): seq<Op> {
    if events == [] then []
    else
      var last := events[|events| - 1];
      Ops(events[..|events| - 1]) + if last.Happens? then [last.op] else []
  }

  lemma {:induction false} RunIsRun(d0: Dev, events: seq<Event>)
    requires Start(d0)
    ensures Run(d0, events).d == Device.Run(d0, Ops(events))
  {
    hide Device.Step, FeedAfter, Start;
    if events != [] {
      var before, last := events[..|events| - 1], events[|events| - 1];
      RunIsRun(d0, before);
      if last.Happens? {
        assert Ops(events)[..|Ops(events)| - 1] == Ops(before);
      } else {
        assert Ops(events) == Ops(before);
      }
    }
  }

  // ----- what a VIRT_DEV is owed

  /** The interrupt events since the VIRT_DEV was created that occurred, while the device
      was there, within its subscription intervals. */
  ghost function Owed(d0: Dev, events: seq<Event>, id: nat): seq<IrqEvent>
    requires Start(d0)
  {
    if events == [] then []
    else
      var before, last := events[..|events| - 1], events[|events| - 1];
      var w := Run(d0, before);
      if id !in w.feeds then []
      else if last.Happens? && last.op.Interrupt? && w.d.live && Interval(d0, Ops(before), id, last.op.irq.event) then
        Owed(d0, before, id) + [last.op.irq]
      else Owed(d0, before, id)
  }

  lemma OneMoreEvent(d0: Dev, events: seq<Event>, e: Event, id: nat)
    requires Start(d0)
    ensures var w := Run(d0, events);
      && Run(d0, events + [e]) == Step(w, e)
      && Owed(d0, events + [e], id)
         == (if id !in w.feeds then []
             else if e.Happens? && e.op.Interrupt? && w.d.live && Interval(d0, Ops(events), id, e.op.irq.event) then
               Owed(d0, events, id) + [e.op.irq]
             else Owed(d0, events, id))
  {
    hide Step, Interval;
    assert (events + [e])[..|events + [e]| - 1] == events;
  }

  lemma HandedOnce(d0: Dev, events: seq<Event>, irq: IrqEvent, id: Subscriber)
    requires Start(d0)
    ensures var d := Run(d0, events).d;
      CallsTo(Handed(d, irq), id) == if d.live && Interval(d0, Ops(events), id, irq.event) then [irq] else []
  {
    RunIsRun(d0, events);
    IntervalIsSubscribed(d0, Ops(events), id, irq.event);
    RunTableInv(d0, Ops(events));
    var d := Run(d0, events).d;
    if d.live && InRange(irq.event) {
      RowCalls(d.table[irq.event], irq, id);
    }
  }

  ghost predicate FeedOk(d0: Dev, events: seq<Event>, id: nat)
    requires Start(d0) && id in Run(d0, events).feeds
  {
    FeedInv(Run(d0, events).feeds[id]) && Run(d0, events).feeds[id].arrived == Arrivals(Owed(d0, events, id))
  }

  lemma ReceiveOwed(f: Feed, irq: IrqEvent, log: seq<IrqEvent>)
    requires f.pending.Valid() && f.arrived == Arrivals(log)
    ensures ReceiveAll(f, Arrivals([irq])).arrived == Arrivals(log + [irq])
    ensures ReceiveAll(f, Arrivals([])) == f
  {
    hide Arrive, ArrivalOf;
    assert Arrivals([irq])[..0] == [];
    assert Arrivals(log + [irq]) == Arrivals(log) + [ArrivalOf(irq)];
  }

  lemma CallKeeps(d0: Dev, events: seq<Event>, op: Op, memory: Memory, id: nat)
    requires Start(d0) && id in Device.Step(Run(d0, events).d, op).vdevs
    requires id in Run(d0, events).feeds ==> FeedOk(d0, events, id)
    ensures id in Run(d0, events + [Happens(op, memory)]).feeds
    ensures FeedOk(d0, events + [Happens(op, memory)], id)
  {
    hide Device.Step, FeedInv, ReceiveAll, Handed, Interval, Arrivals, Run, Owed;
    var w := Run(d0, events);
    OneMoreEvent(d0, events, Happens(op, memory), id);
    if id !in w.feeds {
      FreshInv(memory);
      EmptyArrivals();
    } else if op.Interrupt? {
      assert 1 <= id;
      HandedOnce(d0, events, op.irq, id);
      ReceiveAllInv(w.feeds[id], Arrivals(CallsTo(Handed(w.d, op.irq), id)));
      ReceiveOwed(w.feeds[id], op.irq, Owed(d0, events, id));
    }
  }

  lemma EmptyArrivals()
    ensures Arrivals([]) == []
  {
  }

  lemma ReadsKeeps(d0: Dev, events: seq<Event>, e: Event, id: nat)
    requires Start(d0) && e.Reads? && id in Run(d0, events).feeds && FeedOk(d0, events, id)
    ensures id in Run(d0, events + [e]).feeds && FeedOk(d0, events + [e], id)
  {
    hide FeedInv, Begin, Run, Owed, Start;
    OneMoreEvent(d0, events, e, id);
    var f := Run(d0, events).feeds[id];
    BeginInv(f, e.reader, e.bufLen, e.nonBlock);
    BeginSame(f, e.reader, e.bufLen, e.nonBlock);
  }

  lemma GoesKeeps(d0: Dev, events: seq<Event>, e: Event, id: nat)
    requires Start(d0) && e.Goes? && id in Run(d0, events).feeds && FeedOk(d0, events, id)
    ensures id in Run(d0, events + [e]).feeds && FeedOk(d0, events + [e], id)
  {
    hide FeedInv, Go, Run, Owed, Start;
    OneMoreEvent(d0, events, e, id);
    var f := Run(d0, events).feeds[id];
    PendingValid(f);
    GoInv(f, e.reader, e.wake);
    GoSame(f, e.reader, e.wake);
  }

  lemma PendingValid(f: Feed)
    requires FeedInv(f)
    ensures f.pending.Valid()
  {
  }

  lemma BeginSame(f: Feed, i: nat, bufLen: nat, nonBlock: bool)
    ensures Begin(f, i, bufLen, nonBlock).arrived == f.arrived
  {
  }

  lemma GoSame(f: Feed, i: nat, w: Wake)
    requires f.pending.Valid()
    ensures Go(f, i, w).arrived == f.arrived
  {
  }

  lemma ReaderSameKeys(d0: Dev, events: seq<Event>, e: Event)
    requires Start(d0) && !e.Happens?
    ensures Run(d0, events + [e]).feeds.Keys == Run(d0, events).feeds.Keys
  {
    hide Go, Begin, Run, Start;
    OneMoreEvent(d0, events, e, 0);
  }

  lemma {:induction false} RunFeedOk(d0: Dev, events: seq<Event>, id: nat)
    requires Start(d0) && id in Run(d0, events).feeds
    ensures FeedOk(d0, events, id)
  {
    hide FeedOk, Device.Step, Start;
    if events == [] {
      assert false;
    } else {
      var before, last := events[..|events| - 1], events[|events| - 1];
      assert before + [last] == events;
      if last.Happens? {
        if id in Run(d0, before).feeds {
          RunFeedOk(d0, before, id);
        }
        CallKeeps(d0, before, last.op, last.memory, id);
      } else {
        ReaderSameKeys(d0, before, last);
        RunFeedOk(d0, before, id);
        if last.Reads? {
          ReadsKeeps(d0, before, last, id);
        } else {
          GoesKeeps(d0, before, last, id);
        }
      }
    }
  }

  // ----- the events on the wire

  function WireFrame(irq: IrqEvent): seq<Byte> { EventBytes(EventField(irq.event)) + irq.data }

  /** Those of the events that are for the queues, as bytes. */
  function WireFrames(log: seq<IrqEvent>): seq<seq<Byte>> {
    if log == [] then []
    else
      var last := log[|log| - 1];
      WireFrames(log[..|log| - 1]) + if last.notifyOnly then [] else [WireFrame(last)]
  }

  lemma {:induction false} QueuedAreWireFrames(log: seq<IrqEvent>)
    ensures QueuedFrames(Arrivals(log)) == WireFrames(log)
  {
    if log != [] {
      QueuedAreWireFrames(log[..|log| - 1]);
      assert Arrivals(log)[..|log| - 1] == Arrivals(log[..|log| - 1]);
    }
  }

  /** In every run, for every VIRT_DEV: what readers have taken out of its queue with
      what is still in it is what the puts since its creation have put in, in order
      and byte for byte; each reader has, in whole frames, exactly what it took. */
  lemma NothingIsLost(d0: Dev, events: seq<Event>, id: nat)
    requires Start(d0) && id in Run(d0, events).feeds
    ensures var f := Run(d0, events).feeds[id];
      && QueueFrames(f.taken) + Frames(f.pending.ring) == f.added
      && forall i | i in f.seats ::
           ReaderOk(f.seats[i].reader) && FramesOf(f.taken, i) == f.seats[i].past + f.seats[i].reader.frames
  {
    hide QueueFrames, Frames, FramesOf, ReaderOk, Decodable, QueuedFrames;
    RunFeedOk(d0, events, id);
  }

  /** In every run in which no put to the queue of a VIRT_DEV has met a full queue: what
      readers have taken out of it with what is still in it is exactly what the
      VIRT_DEV is owed, each event once, in order and unchanged. If the interrupts are
      those of the hardware, the bytes that the readers got decode to what they took,
      so that the decoded bytes without the notes, with what is still in the queue, are
      what is owed; and no reader is overrun. */
  lemma InterruptsReachTheReaders(d0: Dev, events: seq<Event>, id: nat)
    requires Start(d0) && id in Run(d0, events).feeds && Run(d0, events).feeds[id].allStored
    ensures var f := Run(d0, events).feeds[id];
      var log := Owed(d0, events, id);
      && QueueFrames(f.taken) + Frames(f.pending.ring) == WireFrames(log)
      && (Isr.AllHardware(log) ==>
            && Decode(Stream(f)) == TakenFrames(f.taken)
            && WithoutNotes(Decode(Stream(f))) + Frames(f.pending.ring) == WireFrames(log)
            && forall i | i in f.seats :: !f.seats[i].reader.place.Overran?)
  {
    hide QueueFrames, Frames, Shares, Decodable, QueuedFrames, Decode, Stream, HardwareArrival, ArrivalOf, Owed, Run;
    RunFeedOk(d0, events, id);
    var f := Run(d0, events).feeds[id];
    var log := Owed(d0, events, id);
    QueuedAreWireFrames(log);
    if Isr.AllHardware(log) {
      HardwareLog(log);
      StreamDecodes(f);
    }
  }

  lemma HardwareLog(log: seq<IrqEvent>)
    requires Isr.AllHardware(log)
    ensures Reading.AllHardware(Arrivals(log))
  {
  }

  // ----- the notified codes

  lemma StepNotes(w: World, e: Event, id: nat)
    requires WorldOk(w) && id in Step(w, e).feeds
    requires id in w.feeds ==> NotesKept(w.feeds[id])
    ensures NotesKept(Step(w, e).feeds[id])
  {
    hide NotesKept, Device.Step, Begin, Go, ReceiveAll, Handed, Arrivals;
    match e
    case Happens(op, memory) =>
      if id !in w.feeds {
        FreshNotes(memory);
      } else if op.Interrupt? {
        ReceiveAllNotes(w.feeds[id], Arrivals(CallsTo(Handed(w.d, op.irq), id)));
      }
    case Reads(i, reader, bufLen, nonBlock) => BeginNotes(w.feeds[id], reader, bufLen, nonBlock);
    case Goes(i, reader, wake) => GoNotes(w.feeds[id], reader, wake);
  }

  lemma {:induction false} RunNotes(d0: Dev, events: seq<Event>, id: nat)
    requires Start(d0) && id in Run(d0, events).feeds
    ensures NotesKept(Run(d0, events).feeds[id])
  {
    hide NotesKept, Step, Start;
    if events == [] {
      assert false;
    } else {
      var before, last := events[..|events| - 1], events[|events| - 1];
      if id in Run(d0, before).feeds {
        RunNotes(d0, before, id);
      }
      StepNotes(Run(d0, before), last, id);
    }
  }

  /** There is a note of the code among these events, and the code has not been taken
      since. */
  ghost predicate NoteOwed(log: seq<IrqEvent>, taken: seq<Taking>, c: int) {
    exists n: nat :: n < |log| && log[n].notifyOnly && log[n].event == c && TakenBefore(taken, c, n)
  }

  lemma NoteWaitsIsOwed(log: seq<IrqEvent>, taken: seq<Taking>, c: int)
    ensures NoteWaits(Arrivals(log), taken, c) <==> NoteOwed(log, taken, c)
  {
    hide TakenBefore;
    if NoteWaits(Arrivals(log), taken, c) {
      var n: nat :| n < |log| && Arrivals(log)[n] == Notified(c) && TakenBefore(taken, c, n);
      assert log[n].notifyOnly && log[n].event == c;
    }
    if NoteOwed(log, taken, c) {
      var n: nat :| n < |log| && log[n].notifyOnly && log[n].event == c && TakenBefore(taken, c, n);
      assert Arrivals(log)[n] == Notified(c);
    }
  }

  /** In every run, for every VIRT_DEV and code: the code is there to be read exactly if
      the VIRT_DEV is owed a note of it that has come since the code was taken last; and
      each time it was taken there was such a note. So no note that is owed is lost, none
      is read that is not owed, and notes that come together are read once. */
  lemma NotesReachTheReaders(d0: Dev, events: seq<Event>, id: nat, c: int)
    requires Start(d0) && id in Run(d0, events).feeds && InRange(c)
    ensures var f := Run(d0, events).feeds[id];
      var log := Owed(d0, events, id);
      && (c in f.pending.codes <==> NoteOwed(log, f.taken, c))
      && forall k | 0 <= k < |f.taken| && f.taken[k].what.Code? && f.taken[k].what.c == c ::
           f.taken[k].after <= |log| && NoteOwed(log[..f.taken[k].after], f.taken[..k], c)
  {
    hide Run, Start, Owed, Conserved, Shares, Decodable, NoteOwed, NoteWaits, ArrivalOf;
    RunFeedOk(d0, events, id);
    RunNotes(d0, events, id);
    var f := Run(d0, events).feeds[id];
    var log := Owed(d0, events, id);
    NoteWaitsIsOwed(log, f.taken, c);
    forall k | 0 <= k < |f.taken| && f.taken[k].what.Code? && f.taken[k].what.c == c
      ensures f.taken[k].after <= |log| && NoteOwed(log[..f.taken[k].after], f.taken[..k], c)
    {
      assert f.arrived[..f.taken[k].after] == Arrivals(log[..f.taken[k].after]);
      NoteWaitsIsOwed(log[..f.taken[k].after], f.taken[..k], c);
    }
  }

  /** The number with a taking is that of the events owed when it happened. */
  lemma TakingsAreDated(d0: Dev, events: seq<Event>, e: Event, id: nat)
    requires Start(d0) && id in Run(d0, events).feeds && id in Run(d0, events + [e]).feeds
    ensures var before, after := Run(d0, events).feeds[id].taken, Run(d0, events + [e]).feeds[id].taken;
      || after == before
      || (e.Goes? && e.id == id && exists what: Taken :: after == before + [Taking(e.reader, what, |Owed(d0, events, id)|)])
  {
    hide Run, Start, Owed, FeedInv, Device.Step, ReceiveAll, TakenBy, Without, ReaderAfter;
    RunFeedOk(d0, events, id);
    OneMoreEvent(d0, events, e, id);
    var f := Run(d0, events).feeds[id];
    match e
    case Happens(op, memory) =>
      if op.Interrupt? {
        ReceiveAllInv(f, Arrivals(CallsTo(Handed(Run(d0, events).d, op.irq), id)));
      }
    case Reads(_, _, _, _) =>
    case Goes(i, reader, wake) => GoTaken(f, reader, wake);
  }

  lemma GoTaken(f: Feed, i: nat, w: Wake)
    requires f.pending.Valid()
    ensures Go(f, i, w).taken == f.taken || exists what: Taken :: Go(f, i, w).taken == f.taken + [Taking(i, what, |f.arrived|)]
  {
  }

  /** The interrupts of the run are what the interrupt routine makes of some flags and
      some contents of the event FIFO. */
  ghost predicate FromHardware(events: seq<Event>) {
    forall k | 0 <= k < |events| && events[k].Happens? && events[k].op.Interrupt? ::
      exists flags, fifo :: events[k].op.irq in IsrEvents(flags, fifo)
  }

  lemma {:induction false} OwedIsHardware(d0: Dev, events: seq<Event>, id: nat)
    requires Start(d0) && FromHardware(events)
    ensures Isr.AllHardware(Owed(d0, events, id))
  {
    hide HardwareArrival, IsrEvents, Interval, Run, Start;
    if events != [] {
      var before, last := events[..|events| - 1], events[|events| - 1];
      OwedIsHardware(d0, before, id);
      if last.Happens? && last.op.Interrupt? {
        var flags, fifo :| last.op.irq in IsrEvents(flags, fifo);
        IsrIsHardware(flags, fifo);
      }
    }
  }
}
