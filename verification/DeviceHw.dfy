/** The card over whole runs of the device: the hardware works with the shadow at
    every operation boundary, follows the subscriptions exactly unless INIT has
    cleared their marks, and keeps every pulse generator as its owner left it. */
module DeviceHw {
  import opened Words
  import opened Evr
  import opened EvrCard
  import opened EvrEffects
  import opened EventList
  import opened Rm
  import opened Device
  import opened DeviceTable
  import opened DeviceOwners

  // ----- what does not concern the subscriptions

  /** Nothing that the subscriptions determine differs. */
  ghost predicate SameMarks(a: Hw, b: Hw) {
    && Flushed(b)
    && SameInternal(a, b)
    && Read(b.regs, EVR_REG_IRQEN) == Read(a.regs, EVR_REG_IRQEN)
  }

  lemma SameMarksSync(a: Hw, b: Hw, subs: set<int>)
    requires Flushed(a) && SameMarks(a, b)
    ensures InSync(a, subs) <==> InSync(b, subs)
    ensures IrqInSync(a, subs) <==> IrqInSync(b, subs)
  {
  }

  lemma SameMarksTransitive(a: Hw, b: Hw, c: Hw)
    requires SameMarks(a, b) && SameMarks(b, c)
    ensures SameMarks(a, c)
  {
  }

  lemma SamePulseTransitive(a: Hw, b: Hw, c: Hw, q: nat)
    requires SamePulse(a, b, q) && SamePulse(b, c, q)
    ensures SamePulse(a, c, q)
  {
  }

  lemma NothingChanged(a: Hw, q: nat)
    requires Flushed(a)
    ensures SameMarks(a, a) && SamePulse(a, a, q)
  {
  }

  lemma InitResSpares(hw: Hw, t: nat, x: nat, q: PulseIndex)
    requires Flushed(hw) && (t == 0 ==> x < EVR_MAX_PULSEGEN_COUNT)
    ensures SameMarks(hw, InitRes(hw, TypeOf(t), x))
    ensures (t == 0 ==> x != q) ==> SamePulse(hw, InitRes(hw, TypeOf(t), x), q)
  {
    if t == 0 {
      InitResIsolated(hw, x);
    }
  }

  /** Making listed resources idle keeps the marks, and every pulse generator that
      is not among them. */
  lemma {:induction false} InitListedSpares(hw: Hw, t: nat, indices: seq<nat>, n: nat, q: PulseIndex)
    requires Flushed(hw) && n <= |indices|
    requires t == 0 ==> forall j | 0 <= j < n :: indices[j] < EVR_MAX_PULSEGEN_COUNT
    ensures SameMarks(hw, InitListed(hw, t, indices, n))
    ensures (t == 0 ==> q !in indices[..n]) ==> SamePulse(hw, InitListed(hw, t, indices, n), q)
  {
    if n > 0 {
      var before := InitListed(hw, t, indices, n - 1);
      InitListedSpares(hw, t, indices, n - 1, q);
      InitResSpares(before, t, indices[n - 1], q);
      SameMarksTransitive(hw, before, InitListed(hw, t, indices, n));
      if t == 0 ==> q !in indices[..n] {
        assert t == 0 ==> indices[n - 1] in indices[..n];
        assert t == 0 ==> forall x | x in indices[..n - 1] :: x in indices[..n];
        SamePulseTransitive(hw, before, InitListed(hw, t, indices, n), q);
      }
    }
  }

  lemma InitAllResSpares(d: Dev, id: nat, q: PulseIndex)
    requires Shape(d) && id in d.vdevs && Flushed(d.hw)
    ensures |d.vdevs[id].lists| == 2
    ensures SameMarks(d.hw, InitAllRes(d, id))
    ensures q !in d.vdevs[id].lists[0] ==> SamePulse(d.hw, InitAllRes(d, id), q)
  {
    var v := d.vdevs[id];
    assert ListsOk(d, v);
    assert v.lists[0][..|v.lists[0]|] == v.lists[0];
    var mid := InitListed(d.hw, 0, v.lists[0], |v.lists[0]|);
    InitListedSpares(d.hw, 0, v.lists[0], |v.lists[0]|, q);
    InitListedSpares(mid, 1, v.lists[1], |v.lists[1]|, q);
    SameMarksTransitive(d.hw, mid, InitAllRes(d, id));
    if q !in v.lists[0] {
      SamePulseTransitive(d.hw, mid, InitAllRes(d, id), q);
    }
  }

  // ----- the hardware follows the subscriptions

  /** The calls that end in on_subscribe_change while the device is there. */
  predicate Refreshes(d: Dev, op: Op) {
    && d.live
    && match op
       case Subscribe(id, event, action, _) => d.IsOpen(id) && (action.SubscribeEvent? ==> InRange(event))
       case Close(id, _) => LastClose(d, id)
       case Destroy(id, _) => id in d.vdevs && !d.IsOpen(id) && d.opening != id
       case _ => false
  }

  /** Whether INIT has taken away marks that no refresh has put back since. */
  ghost predicate MarksLost(d0: Dev, ops: seq<Op>)
    requires Start(d0)
  {
    if ops == [] then false
    else
      var d, last := Run(d0, ops[..|ops| - 1]), ops[|ops| - 1];
      if Refreshes(d, last) then false
      else if last.Init? && InitRuns(d, last.id, last.header) then AnyFifoEvent(Union(d.table))
      else MarksLost(d0, ops[..|ops| - 1])
  }

  ghost predicate Follows(d0: Dev, ops: seq<Op>)
    requires Start(d0)
  {
    var d := Run(d0, ops);
    && Flushed(d.hw)
    && (d.live ==> IrqInSync(d.hw, Union(d.table)) && (InSync(d.hw, Union(d.table)) <==> !MarksLost(d0, ops)))
  }

  lemma RefreshStep(d: Dev, op: Op)
    requires Shape(d) && TableInv(d) && Refreshes(d, op)
    ensures InSync(Step(d, op).hw, Union(Step(d, op).table))
  {
    hide OnSubscribeChange, InSync, Layout, RemoveAll, InitAllRes, DoClose, DoSubscribe;
    match op
    case Subscribe(id, event, action, granted) =>
      AddNeverFull(d, id, event);
      SubscribeSync(d, id, event, action, granted);
    case Close(id, granted) => CloseSync(d, id, granted);
    case Destroy(id, granted) =>
      SubscribeSynchronises(d.hw, Union(RemoveAll(d.table, id)), granted);
  }

  lemma SubscribeSync(d: Dev, id: nat, event: int, action: Action, granted: bool)
    requires Shape(d) && d.live && d.IsOpen(id)
    requires AddCodeOf(d.table, id, event).Added? || !action.SubscribeEvent?
    ensures var d' := DoSubscribe(d, id, event, action, granted);
      InSync(d'.hw, Union(d'.table))
  {
    hide OnSubscribeChange, InSync, Layout, RemoveAll, AddSubscriber, RemoveSubscriber;
    SubscribeSynchronises(d.hw, Union(DoSubscribe(d, id, event, action, granted).table), granted);
  }

  lemma CloseSync(d: Dev, id: nat, granted: bool)
    requires Shape(d) && d.live && LastClose(d, id)
    ensures var d' := DoClose(d, id, granted);
      InSync(d'.hw, Union(d'.table))
  {
    hide OnSubscribeChange, InSync, Layout, RemoveAll, InitAllRes;
    SubscribeSynchronises(HwOnLastClose(d, id), Union(RemoveAll(d.table, id)), granted);
  }

  lemma IoctlMarks(d: Dev, id: nat, relType: int, relIndex: int, cmd: Command)
    requires Shape(d) && Flushed(d.hw)
    ensures var d' := DoIoctl(d, id, relType, relIndex, cmd);
      && d' == d.(hw := d'.hw)
      && (d'.hw == d.hw
          || exists x: PulseIndex :: GetOwner(d.Defs(), d.states, 0, x) == Owner(id) && OnlyPulse(d.hw, d'.hw, x))
  {
    var d' := DoIoctl(d, id, relType, relIndex, cmd);
    if d'.hw != d.hw {
      var r := VresDesc(d.vdevs[id], relType, relIndex);
      CommandIsolated(d.hw, d.pulsegens, TypeOf(r.t), r.x, cmd);
    }
  }

  /** The steps that neither refresh nor initialise. */
  lemma OtherStep(d: Dev, op: Op)
    requires Shape(d) && Flushed(d.hw)
    requires !Refreshes(d, op) && !(op.Init? && InitRuns(d, op.id, op.header)) && !op.Subscribe?
    ensures var d' := Step(d, op);
      && SameMarks(d.hw, d'.hw)
      && (d'.live ==> d.live && d'.table == d.table)
  {
    match op
    case Ioctl(id, relType, relIndex, cmd) => IoctlMarks(d, id, relType, relIndex, cmd);
    case HwReset(id) =>
      if d.live && id in d.vdevs {
        InitAllResSpares(d, id, 0);
      }
    case _ =>
  }

  lemma FlushedStep(d: Dev, op: Op)
    requires Shape(d) && TableInv(d) && Flushed(d.hw)
    ensures Flushed(Step(d, op).hw)
  {
    if Refreshes(d, op) {
      RefreshStep(d, op);
    } else if op.Init? && InitRuns(d, op.id, op.header) {
      InitCardFrame(d.hw, |d.pulsegens|);
    } else if op.Subscribe? {
      IdleSubscribe(d, op);
    } else {
      OtherStep(d, op);
    }
  }

  lemma IdleSubscribe(d: Dev, op: Op)
    requires Shape(d) && TableInv(d) && op.Subscribe? && !Refreshes(d, op)
    ensures Step(d, op) == d
  {
    if d.live && d.IsOpen(op.id) {
      AddNeverFull(d, op.id, op.event);
    }
  }

  lemma InitMarks(d: Dev)
    requires IrqInSync(d.hw, Union(d.table))
    ensures var hw' := InitCard(d.hw, |d.pulsegens|);
      && IrqInSync(hw', Union(d.table))
      && (InSync(hw', Union(d.table)) <==> !AnyFifoEvent(Union(d.table)))
  {
    InitCardFrame(d.hw, |d.pulsegens|);
    InitialMarks(InitCard(d.hw, |d.pulsegens|), Union(d.table));
  }

  /** At every operation boundary the hardware works with the shadow; while the
      device is there IRQEN is what the subscriptions need; and the hardware saves
      exactly the subscribed event codes if and only if no INIT has cleared marks
      since the subscriptions were last refreshed. */
  lemma {:induction false} HardwareFollows(d0: Dev, ops: seq<Op>)
    requires Start(d0)
    ensures Follows(d0, ops)
  {
    if ops != [] {
      var before, op := ops[..|ops| - 1], ops[|ops| - 1];
      var d := Run(d0, before);
      HardwareFollows(d0, before);
      RunTableInv(d0, before);
      FlushedStep(d, op);
      if Refreshes(d, op) {
        RefreshStep(d, op);
      } else if op.Init? && InitRuns(d, op.id, op.header) {
        InitMarks(d);
      } else if op.Subscribe? {
        IdleSubscribe(d, op);
      } else {
        OtherStep(d, op);
        SameMarksSync(d.hw, Step(d, op).hw, Union(d.table));
      }
    }
  }

  // ----- isolation

  /** The calls that may concern what belongs to v: those made through v itself,
      and those of the manager that name v or the whole card. */
  predicate Concerns(d: Dev, op: Op, v: nat)
    requires Shape(d)
  {
    match op
    case Init(id, header) => InitRuns(d, id, header)
    case Destroy(id, _) => id == v
    case Close(id, _) => id == v
    case Ioctl(id, _, _, _) => id == v
    case HwReset(id) => id == v
    case _ => false
  }

  /** A call through a VIRT_DEV changes pulse generators of its own only, no
      internal function of any code, and nothing else of the device. */
  lemma IoctlIsolated(d0: Dev, ops: seq<Op>, id: nat, relType: int, relIndex: int, cmd: Command)
    requires Start(d0)
    ensures var d := Run(d0, ops);
      var d' := DoIoctl(d, id, relType, relIndex, cmd);
      && d' == d.(hw := d'.hw)
      && SameMarks(d.hw, d'.hw)
      && forall q: PulseIndex | GetOwner(d.Defs(), d.states, 0, q) != Owner(id) :: SamePulse(d.hw, d'.hw, q)
  {
    hide SamePulse, SameInternal, DoIoctl, Flushed;
    HardwareFollows(d0, ops);
    var d := Run(d0, ops);
    IoctlMarks(d, id, relType, relIndex, cmd);
    NothingChanged(d.hw, 0);
    forall q: PulseIndex | GetOwner(d.Defs(), d.states, 0, q) != Owner(id)
      ensures SamePulse(d.hw, DoIoctl(d, id, relType, relIndex, cmd).hw, q)
    {
      NothingChanged(d.hw, q);
    }
  }

  lemma RefreshRam(hw: Hw, subs: set<int>, granted: bool)
    ensures OnSubscribeChange(hw, subs, granted).ram == FifoMarked(hw.ram, subs)
  {
  }

  lemma RefreshActions(hw: Hw, subs: set<int>, granted: bool, q: PulseIndex, k: nat)
    requires Flushed(hw) && k < EVR_MAPRAM_EVENT_CODES
    ensures var hw' := OnSubscribeChange(hw, subs, granted);
      SameActions(hw.ram[k], hw'.ram[k], q) && SameActions(ActiveRam(hw.regs)[k], ActiveRam(hw'.regs)[k], q)
  {
    hide OnSubscribeChange, FifoInSync, IrqInSync, ActiveRam;
    SubscribeSynchronises(hw, subs, granted);
    RefreshRam(hw, subs, granted);
  }

  lemma RefreshSparesPulse(hw: Hw, subs: set<int>, granted: bool, q: PulseIndex)
    requires Flushed(hw)
    ensures SamePulse(hw, OnSubscribeChange(hw, subs, granted), q)
  {
    forall offset: nat | offset in {0, 4, 8, 12}
      ensures Read(hw.regs, PulseReg(q, offset)) == Read(OnSubscribeChange(hw, subs, granted).regs, PulseReg(q, offset))
    {
      RefreshRegister(hw, subs, granted, PulseReg(q, offset));
    }
    forall k: nat | k < EVR_MAPRAM_EVENT_CODES
      ensures var hw' := OnSubscribeChange(hw, subs, granted);
        SameActions(hw.ram[k], hw'.ram[k], q) && SameActions(ActiveRam(hw.regs)[k], ActiveRam(hw'.regs)[k], q)
    {
      RefreshActions(hw, subs, granted, q, k);
    }
  }

  lemma RefreshOrNot(hw: Hw, hw': Hw, subs: set<int>, granted: bool, q: PulseIndex)
    requires Flushed(hw)
    requires hw' == hw || hw' == OnSubscribeChange(hw, subs, granted)
    ensures SamePulse(hw, hw', q)
  {
    if hw' != hw {
      RefreshSparesPulse(hw, subs, granted, q);
    }
  }

  lemma SubscribeHw(d: Dev, id: nat, event: int, action: Action, granted: bool)
    requires Shape(d)
    ensures var d' := DoSubscribe(d, id, event, action, granted);
      d'.hw == d.hw || d'.hw == OnSubscribeChange(d.hw, Union(d'.table), granted)
  {
  }

  lemma DestroyHw(d: Dev, id: nat, granted: bool)
    requires Shape(d)
    ensures var d' := DoDestroy(d, id, granted);
      d'.hw == d.hw || d'.hw == OnSubscribeChange(d.hw, Union(d'.table), granted)
  {
  }

  lemma SubscribeSpares(d: Dev, id: nat, event: int, action: Action, granted: bool, q: PulseIndex)
    requires Shape(d) && Flushed(d.hw)
    ensures SamePulse(d.hw, DoSubscribe(d, id, event, action, granted).hw, q)
  {
    SubscribeHw(d, id, event, action, granted);
    var d' := DoSubscribe(d, id, event, action, granted);
    RefreshOrNot(d.hw, d'.hw, Union(d'.table), granted, q);
  }

  lemma DestroySpares(d: Dev, id: nat, granted: bool, q: PulseIndex)
    requires Shape(d) && Flushed(d.hw)
    ensures SamePulse(d.hw, DoDestroy(d, id, granted).hw, q)
  {
    DestroyHw(d, id, granted);
    var d' := DoDestroy(d, id, granted);
    RefreshOrNot(d.hw, d'.hw, Union(d'.table), granted, q);
  }

  lemma CloseSpares(d: Dev, id: nat, granted: bool, q: PulseIndex)
    requires OwnInv(d) && Flushed(d.hw)
    requires GetOwner(d.Defs(), d.states, 0, q) != Owner(id)
    ensures SamePulse(d.hw, DoClose(d, id, granted).hw, q)
  {
    hide SamePulse, OnSubscribeChange, InitAllRes, RemoveAll;
    NothingChanged(d.hw, q);
    if LastClose(d, id) && d.live {
      NotListed(d, id, q);
      InitAllResSpares(d, id, q);
      var idle := HwOnLastClose(d, id);
      RefreshSparesPulse(idle, Union(RemoveAll(d.table, id)), granted, q);
      SamePulseTransitive(d.hw, idle, DoClose(d, id, granted).hw, q);
    }
  }

  lemma NotListed(d: Dev, id: nat, q: PulseIndex)
    requires OwnInv(d) && id in d.vdevs
    requires GetOwner(d.Defs(), d.states, 0, q) != Owner(id)
    ensures |d.vdevs[id].lists| == 2 && q !in d.vdevs[id].lists[0]
  {
    assert ListsOk(d, d.vdevs[id]);
    assert ListInv(d, id, 0);
  }

  /** One step that does not concern v leaves v's pulse generators as they are. */
  lemma StepPrivate(d: Dev, op: Op, v: nat, q: PulseIndex)
    requires OwnInv(d) && TableInv(d) && Flushed(d.hw)
    requires GetOwner(d.Defs(), d.states, 0, q) == Owner(v) && !Concerns(d, op, v)
    ensures SamePulse(d.hw, Step(d, op).hw, q)
  {
    hide SamePulse, OnSubscribeChange, DoSubscribe, DoDestroy, DoClose, DoIoctl, TableInv, OwnersLive, ListInv, Flushed;
    NothingChanged(d.hw, q);
    match op
    case Subscribe(id, event, action, granted) => SubscribeSpares(d, id, event, action, granted, q);
    case Destroy(id, granted) => DestroySpares(d, id, granted, q);
    case Close(id, granted) => CloseSpares(d, id, granted, q);
    case Ioctl(id, relType, relIndex, cmd) => IoctlMarks(d, id, relType, relIndex, cmd);
    case HwReset(id) =>
      if d.live && id in d.vdevs {
        NotListed(d, id, q);
        InitAllResSpares(d, id, q);
      }
    case _ =>
  }

  lemma StepKeepsOwner(d: Dev, op: Op, v: nat, q: PulseIndex)
    requires Shape(d)
    requires GetOwner(d.Defs(), d.states, 0, q) == Owner(v) && !Concerns(d, op, v)
    ensures Shape(Step(d, op))
    ensures GetOwner(Step(d, op).Defs(), Step(d, op).states, 0, q) == Owner(v)
  {
    StepShape(d, op);
    if Quiet(op) {
      QuietStep(d, op);
    } else {
      match op
      case Alloc(id, resName, fixedIndex, args) => AllocOwners(d.Defs(), d.states, resName, fixedIndex, args, id);
      case Destroy(id, granted) => FreeOwnerOwners(d.Defs(), d.states, id);
      case Create(id, name, nodeMade) =>
    }
  }

  ghost predicate NoneConcerns(d0: Dev, ops: seq<Op>, more: seq<Op>, v: nat)
    requires Start(d0)
  {
    more == [] ||
    (NoneConcerns(d0, ops, more[..|more| - 1], v) && !Concerns(Run(d0, ops + more[..|more| - 1]), more[|more| - 1], v))
  }

  /** A pulse generator stays exactly as its owner left it through any calls of
      other VIRT_DEVs, of the manager about other VIRT_DEVs, and of interrupts. */
  lemma {:induction false} PulsesArePrivate(d0: Dev, ops: seq<Op>, more: seq<Op>, v: nat, q: PulseIndex)
    requires Start(d0) && NoneConcerns(d0, ops, more, v)
    requires GetOwner(Run(d0, ops).Defs(), Run(d0, ops).states, 0, q) == Owner(v)
    ensures SamePulse(Run(d0, ops).hw, Run(d0, ops + more).hw, q)
    ensures GetOwner(Run(d0, ops + more).Defs(), Run(d0, ops + more).states, 0, q) == Owner(v)
  {
    hide Step, SamePulse, Concerns, TableInv, OwnInv, GetOwner;
    if more == [] {
      assert ops + more == ops;
      HardwareFollows(d0, ops);
      NothingChanged(Run(d0, ops).hw, q);
    } else {
      var upto, op := ops + more[..|more| - 1], more[|more| - 1];
      PulsesArePrivate(d0, ops, more[..|more| - 1], v, q);
      assert (ops + more)[..|ops + more| - 1] == upto;
      var d := Run(d0, upto);
      assert Run(d0, ops + more) == Step(d, op);
      RunOwners(d0, upto);
      RunTableInv(d0, upto);
      HardwareFollows(d0, upto);
      StepPrivate(d, op, v, q);
      StepKeepsOwner(d, op, v, q);
      SamePulseTransitive(Run(d0, ops).hw, d.hw, Step(d, op).hw, q);
    }
  }
}
