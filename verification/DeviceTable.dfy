/** The dispatch table over whole runs of the device: it stays well formed, holds
    open VIRT_DEVs only, never runs out of places, and delivers every interrupt
    event exactly once to each VIRT_DEV subscribed at that moment. */
module DeviceTable {
  import opened EvrCard
  import opened EventList
  import opened Rm
  import opened Device

  ghost predicate TableInv(d: Dev) {
    && ValidTable(d.table)
    && forall s: Subscriber, e: int | Subscribed(d.table, s, e) :: d.IsOpen(s)
  }

  /** The ids of live VIRT_DEVs are at most as many as a row has places. */
  lemma FewVDevs(d: Dev)
    requires Shape(d)
    ensures |d.vdevs.Keys| <= EVENT_DISPATCH_LIST_MAX_SUBSCRIBERS
  {
    IdsBound(d.vdevs.Keys, MAX_VIRT_DEVS_PER_MNG_DEV);
  }

  lemma {:induction false} IdsBound(ids: set<nat>, n: nat)
    requires forall k | k in ids :: 1 <= k <= n
    ensures |ids| <= n
  {
    if n == 0 {
      assert ids == {};
    } else {
      IdsBound(ids - {n}, n - 1);
    }
  }

  /** A subscription to an event code in range always finds a place: -ENOMEM is
      never returned. */
  lemma AddNeverFull(d: Dev, id: nat, event: int)
    requires Shape(d) && TableInv(d) && d.IsOpen(id)
    ensures AddCodeOf(d.table, id, event) == if InRange(event) then Added else InvalidEvent
  {
    if InRange(event) {
      FewVDevs(d);
      AddAlwaysFits(d.table, id, event, d.vdevs.Keys);
    }
  }

  // ----- when a subscription begins and ends

  /** The call gives id the event. */
  predicate Begins(d: Dev, op: Op, id: nat, e: int) {
    op.Subscribe? && op.id == id && op.event == e && op.action.SubscribeEvent? && InRange(e) && d.live && d.IsOpen(id)
  }

  /** The call takes the event away from id. */
  predicate Ends(d: Dev, op: Op, id: nat, e: int) {
    match op
    case Subscribe(i, event, action, _) =>
      i == id && d.live && d.IsOpen(id) && (action.ClearEvents? || (action.UnsubscribeEvent? && event == e))
    case Close(i, _) => i == id && LastClose(d, id)
    case _ => false
  }

  predicate TableQuiet(op: Op) { !op.Subscribe? && !op.Close? && !op.Destroy? }

  lemma QuietTable(d: Dev, op: Op)
    requires Shape(d) && TableQuiet(op)
    ensures Step(d, op).table == d.table
  {
  }

  lemma StepSubscribed(d: Dev, op: Op, id: Subscriber, e: int)
    requires Shape(d) && TableInv(d)
    ensures Subscribed(Step(d, op).table, id, e) <==> Begins(d, op, id, e) || (Subscribed(d.table, id, e) && !Ends(d, op, id, e))
  {
    hide OnSubscribeChange, InitAllRes, InitCard, DoCommand, Layout, FreeOwner, AddSubscriber, RemoveSubscriber, RemoveAll;
    match op
    case Subscribe(i, event, action, granted) =>
      if d.live && d.IsOpen(i) {
        AddNeverFull(d, i, event);
        TableRefinesRelation(d.table, i, event, id, e);
      }
    case Close(i, granted) =>
      if LastClose(d, i) {
        TableRefinesRelation(d.table, i, 0, id, e);
      }
    case Destroy(i, granted) =>
      if i in d.vdevs {
        TableRefinesRelation(d.table, i, 0, id, e);
      }
    case _ => QuietTable(d, op);
  }

  /** A VIRT_DEV that is open stays so unless it is closed for the last time. */
  lemma StepOpen(d: Dev, op: Op, id: nat)
    requires Shape(d) && d.IsOpen(id)
    requires !(op.Close? && op.id == id && LastClose(d, id))
    ensures Step(d, op).IsOpen(id)
  {
    hide OnSubscribeChange, InitAllRes, InitCard, DoCommand, Layout, FreeOwner, RemoveAll;
  }

  lemma StepValidTable(d: Dev, op: Op)
    requires Shape(d) && TableInv(d)
    ensures ValidTable(Step(d, op).table)
  {
    match op
    case Subscribe(i, event, action, granted) =>
      if d.live && d.IsOpen(i) {
        TableRefinesRelation(d.table, i, event, i, event);
      }
    case Close(i, granted) =>
      if LastClose(d, i) {
        TableRefinesRelation(d.table, i, 0, i, 0);
      }
    case Destroy(i, granted) =>
      if i in d.vdevs {
        TableRefinesRelation(d.table, i, 0, i, 0);
      }
    case _ => QuietTable(d, op);
  }

  lemma StepTableInv(d: Dev, op: Op)
    requires Shape(d) && TableInv(d)
    ensures TableInv(Step(d, op))
  {
    StepValidTable(d, op);
    var d' := Step(d, op);
    forall s: Subscriber, e: int | Subscribed(d'.table, s, e) ensures d'.IsOpen(s) {
      StepSubscribed(d, op, s, e);
      StepOpen(d, op, s);
    }
  }

  lemma BeforeBoth(row: Row, a: Subscriber, b: Subscriber)
    ensures Before(row, a, b) ==> a in row && b in row
  {
  }

  /** Of two VIRT_DEVs subscribed to an event after a call, the one that was subscribed
      before it comes first; if both were, they are in the order in which they were. */
  lemma StepOrder(d: Dev, op: Op, a: Subscriber, b: Subscriber, e: nat)
    requires Shape(d) && TableInv(d) && InRange(e) && a != b
    requires Subscribed(Step(d, op).table, a, e) && Subscribed(Step(d, op).table, b, e)
    ensures Before(Step(d, op).table[e], a, b)
        <==> if Subscribed(d.table, a, e) && Subscribed(d.table, b, e) then Before(d.table[e], a, b) else Subscribed(d.table, a, e)
  {
    hide OnSubscribeChange, InitAllRes, InitCard, DoCommand, Layout, FreeOwner, AddSubscriber, RemoveSubscriber, RemoveAll, Before;
    BeforeBoth(d.table[e], a, b);
    StepSubscribed(d, op, a, e);
    StepSubscribed(d, op, b, e);
    match op
    case Subscribe(i, event, action, granted) =>
      if d.live && d.IsOpen(i) {
        AddNeverFull(d, i, event);
        TableKeepsOrder(d.table, i, event, a, b, e);
        TableRefinesRelation(d.table, i, event, a, e);
        TableRefinesRelation(d.table, i, event, b, e);
      }
    case Close(i, granted) =>
      if LastClose(d, i) {
        TableKeepsOrder(d.table, i, 0, a, b, e);
        TableRefinesRelation(d.table, i, 0, a, e);
        TableRefinesRelation(d.table, i, 0, b, e);
      }
    case Destroy(i, granted) =>
      if i in d.vdevs {
        TableKeepsOrder(d.table, i, 0, a, b, e);
        TableRefinesRelation(d.table, i, 0, a, e);
        TableRefinesRelation(d.table, i, 0, b, e);
      }
    case _ => QuietTable(d, op);
  }

  lemma {:induction false} RunTableInv(d0: Dev, ops: seq<Op>)
    requires Start(d0)
    ensures TableInv(Run(d0, ops))
  {
    if ops != [] {
      RunTableInv(d0, ops[..|ops| - 1]);
      StepTableInv(Run(d0, ops[..|ops| - 1]), ops[|ops| - 1]);
    }
  }

  // ----- fan-out

  /** Whether id is subscribed to e after the calls, told from the calls alone. */
  ghost predicate Interval(d0: Dev, ops: seq<Op>, id: nat, e: int)
    requires Start(d0)
  {
    if ops == [] then false
    else
      var before, last := ops[..|ops| - 1], ops[|ops| - 1];
      Begins(Run(d0, before), last, id, e) || (Interval(d0, before, id, e) && !Ends(Run(d0, before), last, id, e))
  }

  /** The interrupt events that id is owed: each one that arrives while the device
      is live and id is subscribed to it. */
  ghost function Owed(d0: Dev, ops: seq<Op>, id: nat): seq<IrqEvent>
    requires Start(d0)
  {
    if ops == [] then []
    else
      var before, last := ops[..|ops| - 1], ops[|ops| - 1];
      Owed(d0, before, id)
      + if last.Interrupt? && Run(d0, before).live && Interval(d0, before, id, last.irq.event) then [last.irq] else []
  }

  /** The events that the calls of irq_process handed to id, in order. */
  function CallsTo(calls: seq<Call>, id: nat): seq<IrqEvent> {
    if calls == [] then []
    else
      var last := calls[|calls| - 1];
      CallsTo(calls[..|calls| - 1], id) + if last.vdev == id then [last.irq] else []
  }

  lemma {:induction false} CallsToConcat(a: seq<Call>, b: seq<Call>, id: nat)
    ensures CallsTo(a + b, id) == CallsTo(a, id) + CallsTo(b, id)
  {
    if b == [] {
      assert a + b == a;
    } else {
      assert (a + b)[..|a + b| - 1] == a + b[..|b| - 1];
      CallsToConcat(a, b[..|b| - 1], id);
    }
  }

  /** One row calls each of its subscribers once. */
  lemma {:induction false} RowCalls(row: Row, irq: IrqEvent, id: nat)
    requires ValidRow(row)
    ensures CallsTo(CallsFor(row, irq), id) == if id in row then [irq] else []
  {
    if row != [] {
      var before := row[..|row| - 1];
      RowCalls(before, irq, id);
      assert CallsFor(row, irq)[..|row| - 1] == CallsFor(before, irq);
      assert row == before + [row[|row| - 1]];
    }
  }

  lemma {:induction false} IntervalIsSubscribed(d0: Dev, ops: seq<Op>, id: Subscriber, e: int)
    requires Start(d0)
    ensures Interval(d0, ops, id, e) <==> Subscribed(Run(d0, ops).table, id, e)
  {
    if ops != [] {
      var before := ops[..|ops| - 1];
      IntervalIsSubscribed(d0, before, id, e);
      RunTableInv(d0, before);
      StepSubscribed(Run(d0, before), ops[|ops| - 1], id, e);
    }
  }

  lemma QuietCalls(d: Dev, op: Op)
    requires Shape(d) && !op.Interrupt?
    ensures Step(d, op).calls == d.calls
  {
  }

  lemma InterruptCalls(d: Dev, irq: IrqEvent, id: Subscriber)
    requires ValidTable(d.table)
    ensures CallsTo(DoInterrupt(d, irq).calls, id)
         == CallsTo(d.calls, id) + if d.live && Subscribed(d.table, id, irq.event) then [irq] else []
  {
    if d.live && InRange(irq.event) {
      RowCalls(d.table[irq.event], irq, id);
      CallsToConcat(d.calls, CallsFor(d.table[irq.event], irq), id);
    }
  }

  lemma StartCalls(d0: Dev)
    requires Start(d0)
    ensures d0.calls == []
  {
  }

  /** Over any run, what a VIRT_DEV was handed is exactly what it was owed, in
      order and without duplicates. */
  lemma {:induction false} ExactlyOnce(d0: Dev, ops: seq<Op>, id: Subscriber)
    requires Start(d0)
    ensures CallsTo(Run(d0, ops).calls, id) == Owed(d0, ops, id)
  {
    hide DoCreate, DoDestroy, DoAlloc, DoInit, DoOpen, DoClose, DoSubscribe, DoIoctl, DoInterrupt, TableInv, InitAllRes, Start;
    if ops == [] {
      StartCalls(d0);
    } else {
      var before, last := ops[..|ops| - 1], ops[|ops| - 1];
      var d := Run(d0, before);
      ExactlyOnce(d0, before, id);
      if last.Interrupt? {
        IntervalIsSubscribed(d0, before, id, last.irq.event);
        RunTableInv(d0, before);
        InterruptCalls(d, last.irq, id);
      } else {
        QuietCalls(d, last);
      }
    }
  }
}
