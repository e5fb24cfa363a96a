/** One MNG_DEV of src/mng-dev.c with its VIRT_DEVs: the dispatch table, the owner
    table and the card together, as a state machine over the calls that reach it.
    Each call runs under the device lock and is one step. */
module Device {
  import opened Evr
  import opened EvrCard
  import opened EvrEffects
  import opened EventList
  import opened Rm
  import PacketQueue

  const MAX_VIRT_DEVS_PER_MNG_DEV: nat := 31
  const MODAC_RES_PER_VIRT_DEV_MAX_COUNT: nat := 32
  const MODAC_RES_TYPE_NONE := -1

  /** struct modac_vdev_des; for each resource type the resources listed, in the
      order of allocation. */
  datatype VDev = VDev(name: string, lists: seq<seq<nat>>, usage: nat, leaveResSet: bool)

  /** An event as an interrupt delivers it: to the queues, or as a mere note. */
  datatype IrqEvent = IrqEvent(notifyOnly: bool, event: int, data: seq<PacketQueue.Byte>)

  /** One call of irq_process. */
  datatype Call = Call(vdev: Subscriber, irq: IrqEvent)

  datatype Dev = Dev(
    pulsegens: PulseTable,
    outputs: nat,
    states: seq<ResState>,
    vdevs: map<nat, VDev>,
    table: Table,
    hw: Hw,
    live: bool,
    opening: nat,
    calls: seq<Call>)
  {
    function Defs(): (defs: seq<ResDef>)
      ensures |defs| == 2
    {
      EvrDefs(pulsegens, outputs)
    }

    predicate IsOpen(id: nat) { id in vdevs && vdevs[id].usage > 0 }
  }

  datatype Action = SubscribeEvent | UnsubscribeEvent | ClearEvents | OtherAction

  /** A resource as a call names it. */
  datatype Vres = Vres(t: int, x: int)

  /** Those in the header of a call of the manager. */
  type Header = h: seq<Vres> | |h| == 2 witness [Vres(MODAC_RES_TYPE_NONE, 0), Vres(MODAC_RES_TYPE_NONE, 0)]

  /** The calls. 'granted' is whether the system gives an interrupt that is asked
      for, 'nodeMade' whether the device node of a new VIRT_DEV could be made. */
  datatype Op =
    | Create(id: nat, name: string, nodeMade: bool)
    | Destroy(id: nat, granted: bool)
    | Alloc(id: nat, resName: string, fixedIndex: int, args: Filters)
    | Init(id: nat, header: Header)
    | Open(id: nat)
    | CountOpen
    | Close(id: nat, granted: bool)
    | Subscribe(id: nat, event: int, action: Action, granted: bool)
    | Ioctl(id: nat, relType: int, relIndex: int, cmd: Command)
    | HwReset(id: nat)
    | SetLeave(id: nat, leave: bool)
    | Interrupt(irq: IrqEvent)
    | Unplug

  function TypeOf(t: int): ResType { if t == 0 then PulseGen else if t == 1 then Output else Unknown }

  // ----- what must hold for the steps to be defined

  predicate ListsOk(d: Dev, v: VDev) {
    && |v.lists| == 2
    && forall t, j | 0 <= t < 2 && 0 <= j < |v.lists[t]| :: v.lists[t][j] < d.Defs()[t].count
  }

  ghost predicate Shape(d: Dev) {
    && Layout(d.Defs(), d.states)
    && (forall id | id in d.vdevs :: 1 <= id <= MAX_VIRT_DEVS_PER_MNG_DEV && ListsOk(d, d.vdevs[id]))
  }

  // ----- the steps

  /** on_subscribe_change */
  function Refresh(d: Dev, granted: bool): Dev {
    if d.live then d.(hw := OnSubscribeChange(d.hw, Union(d.table), granted)) else d
  }

  predicate NameUsed(d: Dev, name: string) { exists id | id in d.vdevs :: d.vdevs[id].name == name }

  /** The first free id from n on, or one past the last. */
  function FirstFreeId(d: Dev, n: nat): (id: nat)
    requires 1 <= n <= MAX_VIRT_DEVS_PER_MNG_DEV + 1
    ensures n <= id <= MAX_VIRT_DEVS_PER_MNG_DEV + 1
    ensures id <= MAX_VIRT_DEVS_PER_MNG_DEV ==> id !in d.vdevs
    ensures forall k | n <= k < id :: k in d.vdevs
    decreases MAX_VIRT_DEVS_PER_MNG_DEV + 1 - n
  {
    if n > MAX_VIRT_DEVS_PER_MNG_DEV || n !in d.vdevs then n else FirstFreeId(d, n + 1)
  }

  function DoCreate(d: Dev, id: nat, name: string, nodeMade: bool): Dev {
    if !d.live || id > MAX_VIRT_DEVS_PER_MNG_DEV || NameUsed(d, name) then d
    else
      var chosen := if id == 0 then FirstFreeId(d, 1) else id;
      if chosen > MAX_VIRT_DEVS_PER_MNG_DEV || chosen in d.vdevs || !nodeMade then d
      else d.(vdevs := d.vdevs[chosen := VDev(name, [[], []], 0, false)])
  }

  /** Only a VIRT_DEV that nobody has open, or is about to open, is destroyed here. */
  function DoDestroy(d: Dev, id: nat, granted: bool): Dev
    requires Shape(d)
  {
    if !d.live || id !in d.vdevs || d.IsOpen(id) || d.opening == id then d
    else
      var d1 := Refresh(d.(table := RemoveAll(d.table, id)), granted);
      d1.(states := FreeOwner(d1.states, id), vdevs := d1.vdevs - {id})
  }

  /** vdev_on_res_add: the list of a type holds no more than so many. */
  function ResAdd(v: VDev, t: nat, x: nat): VDev
    requires t < |v.lists|
  {
    if |v.lists[t]| >= MODAC_RES_PER_VIRT_DEV_MAX_COUNT then v else v.(lists := v.lists[t := v.lists[t] + [x]])
  }

  function DoAlloc(d: Dev, id: nat, resName: string, fixedIndex: int, args: Filters): Dev
    requires Shape(d)
  {
    if !d.live || id !in d.vdevs || d.IsOpen(id) then d
    else
      var o := AllocOutcomeOf(d.Defs(), d.states, resName, fixedIndex, args);
      if !o.Seized? then d
      else
        d.(states := AllocStates(d.states, o, id),
           vdevs := d.vdevs[id := ResAdd(d.vdevs[id], d.states[o.at].resType, d.states[o.at].arrayIndex)])
  }

  datatype Descriptor = NotFound | Found(t: nat, x: nat)

  /** mngdev_vdev_get_vres_desc: from the number a VIRT_DEV uses to the card's. */
  function VresDesc(v: VDev, relType: int, relIndex: int): Descriptor {
    if relType < 0 || relType >= |v.lists| then NotFound
    else if relIndex < 0 || relIndex >= |v.lists[relType]| then NotFound
    else Found(relType, v.lists[relType][relIndex])
  }

  /** The VIRT_DEV lists and owns the resource. */
  predicate MayUse(d: Dev, id: nat, relType: int, relIndex: int)
    requires Shape(d) && id in d.vdevs
  {
    var r := VresDesc(d.vdevs[id], relType, relIndex);
    r.Found? && GetOwner(d.Defs(), d.states, r.t, r.x) == Owner(id)
  }

  /** The header names only resources that the VIRT_DEV in it may use. */
  predicate HeaderOk(d: Dev, id: nat, header: Header)
    requires Shape(d)
  {
    forall i | 0 <= i < |header| && header[i].t != MODAC_RES_TYPE_NONE :: id in d.vdevs && MayUse(d, id, header[i].t, header[i].x)
  }

  /** MNG_DEV_EVR_IOC_INIT; refused when the VIRT_DEV named in its header is open or
      may not use the resources there. */
  predicate InitRuns(d: Dev, id: nat, header: Header)
    requires Shape(d)
  {
    d.live && !d.IsOpen(id) && HeaderOk(d, id, header)
  }

  function DoInit(d: Dev, id: nat, header: Header): Dev
    requires Shape(d)
  {
    if InitRuns(d, id, header) then d.(hw := InitCard(d.hw, |d.pulsegens|)) else d
  }

  function WithUsage(d: Dev, id: nat, usage: nat): Dev
    requires id in d.vdevs
  {
    d.(vdevs := d.vdevs[id := d.vdevs[id].(usage := usage)])
  }

  /** modac_c_vdev_on_open up to the reference. The table of VIRT_DEVs is locked from
      before it to the end of the open, so that no two opens overlap. */
  function DoOpen(d: Dev, id: nat): Dev {
    if !d.live || id !in d.vdevs || d.opening != 0 then d else d.(opening := id)
  }

  /** The rest of it; the pointer is not looked at again. */
  function DoCountOpen(d: Dev): Dev {
    if d.opening !in d.vdevs then d else WithUsage(d, d.opening, d.vdevs[d.opening].usage + 1).(opening := 0)
  }

  /** The init_res calls for the first n resources listed for a type. */
  function InitListed(hw: Hw, t: nat, indices: seq<nat>, n: nat): Hw
    requires n <= |indices|
    requires t == 0 ==> forall j | 0 <= j < n :: indices[j] < EVR_MAX_PULSEGEN_COUNT
  {
    if n == 0 then hw else InitRes(InitListed(hw, t, indices, n - 1), TypeOf(t), indices[n - 1])
  }

  /** modac_c_vdev_init_res */
  function InitAllRes(d: Dev, id: nat): Hw
    requires Shape(d) && id in d.vdevs
  {
    var v := d.vdevs[id];
    assert ListsOk(d, v);
    InitListed(InitListed(d.hw, 0, v.lists[0], |v.lists[0]|), 1, v.lists[1], |v.lists[1]|)
  }

  predicate LastClose(d: Dev, id: nat) { id in d.vdevs && d.vdevs[id].usage == 1 }

  /** The card after the last close: its resources are made idle unless they are
      to be left as they are. */
  function HwOnLastClose(d: Dev, id: nat): Hw
    requires Shape(d) && id in d.vdevs
  {
    if d.live && !d.vdevs[id].leaveResSet then InitAllRes(d, id) else d.hw
  }

  /** modac_c_vdev_on_close, up to the release of the device reference. */
  function DoClose(d: Dev, id: nat, granted: bool): Dev
    requires Shape(d)
  {
    if !d.IsOpen(id) then d
    else if !LastClose(d, id) then WithUsage(d, id, d.vdevs[id].usage - 1)
    else Refresh(WithUsage(d, id, 0).(hw := HwOnLastClose(d, id), table := RemoveAll(d.table, id)), granted)
  }

  /** modac_c_vdev_subscribe */
  function DoSubscribe(d: Dev, id: nat, event: int, action: Action, granted: bool): Dev
    requires Shape(d)
  {
    if !d.live || !d.IsOpen(id) then d
    else
      match action
      case SubscribeEvent =>
        if AddCodeOf(d.table, id, event).Added? then Refresh(d.(table := AddSubscriber(d.table, id, event)), granted) else d
      case UnsubscribeEvent => Refresh(d.(table := RemoveSubscriber(d.table, id, event)), granted)
      case ClearEvents => Refresh(d.(table := RemoveAll(d.table, id)), granted)
      case OtherAction => Refresh(d, granted)
  }

  /** modac_c_vdev_do_ioctl for a call that names a resource. */
  function DoIoctl(d: Dev, id: nat, relType: int, relIndex: int, cmd: Command): Dev
    requires Shape(d)
  {
    if !d.live || !d.IsOpen(id) || relType == MODAC_RES_TYPE_NONE || !cmd.Valid() || !MayUse(d, id, relType, relIndex) then d
    else
      var r := VresDesc(d.vdevs[id], relType, relIndex);
      d.(hw := DoCommand(d.hw, d.pulsegens, TypeOf(r.t), r.x, cmd).0)
  }

  function DoInterrupt(d: Dev, irq: IrqEvent): Dev {
    if d.live && InRange(irq.event) then d.(calls := d.calls + CallsFor(d.table[irq.event], irq)) else d
  }

  /** The calls for the subscribers of one row, in order. */
  function CallsFor(row: Row, irq: IrqEvent): seq<Call> { seq(|row|, i requires 0 <= i < |row| => Call(row[i], irq)) }

  function Step(d: Dev, op: Op): Dev
    requires Shape(d)
  {
    match op
    case Create(id, name, nodeMade) => DoCreate(d, id, name, nodeMade)
    case Destroy(id, granted) => DoDestroy(d, id, granted)
    case Alloc(id, resName, fixedIndex, args) => DoAlloc(d, id, resName, fixedIndex, args)
    case Init(id, header) => DoInit(d, id, header)
    case Open(id) => DoOpen(d, id)
    case CountOpen => DoCountOpen(d)
    case Close(id, granted) => DoClose(d, id, granted)
    case Subscribe(id, event, action, granted) => DoSubscribe(d, id, event, action, granted)
    case Ioctl(id, relType, relIndex, cmd) => DoIoctl(d, id, relType, relIndex, cmd)
    case HwReset(id) => if d.live && id in d.vdevs then d.(hw := InitAllRes(d, id)) else d
    case SetLeave(id, leave) =>
      if d.live && id in d.vdevs then d.(vdevs := d.vdevs[id := d.vdevs[id].(leaveResSet := leave)]) else d
    case Interrupt(irq) => DoInterrupt(d, irq)
    case Unplug => d.(live := false)
  }

  // ----- runs

  lemma AllocShape(d: Dev, id: nat, resName: string, fixedIndex: int, args: Filters)
    requires Shape(d)
    ensures Shape(DoAlloc(d, id, resName, fixedIndex, args))
  {
    AllocOwners(d.Defs(), d.states, resName, fixedIndex, args, id);
    var d' := DoAlloc(d, id, resName, fixedIndex, args);
    if d' != d {
      var o := AllocOutcomeOf(d.Defs(), d.states, resName, fixedIndex, args);
      assert Resource(d.Defs(), d.states[o.at].resType, d.states[o.at].arrayIndex);
      assert ListsOk(d, d.vdevs[id]);
      assert ListsOk(d', d'.vdevs[id]);
      forall k | k in d'.vdevs ensures ListsOk(d', d'.vdevs[k]) {
        assert k != id ==> ListsOk(d, d.vdevs[k]);
      }
    }
  }

  lemma SameVDevsShape(d: Dev, d': Dev)
    requires Shape(d) && Layout(d.Defs(), d'.states)
    requires d'.pulsegens == d.pulsegens && d'.outputs == d.outputs
    requires forall k | k in d'.vdevs :: k in d.vdevs && d'.vdevs[k].lists == d.vdevs[k].lists
    ensures Shape(d')
  {
    forall k | k in d'.vdevs ensures ListsOk(d', d'.vdevs[k]) {
      assert ListsOk(d, d.vdevs[k]);
    }
  }

  lemma CreateShape(d: Dev, id: nat, name: string, nodeMade: bool)
    requires Shape(d)
    ensures Shape(DoCreate(d, id, name, nodeMade))
  {
    var d' := DoCreate(d, id, name, nodeMade);
    forall k | k in d'.vdevs ensures ListsOk(d', d'.vdevs[k]) {
      assert k in d.vdevs ==> ListsOk(d, d.vdevs[k]);
    }
  }

  /** Ownership is a matter of creating, destroying and allocating only. */
  predicate SameOwnership(d: Dev, d': Dev) {
    && d'.pulsegens == d.pulsegens && d'.outputs == d.outputs
    && d'.states == d.states
    && d'.vdevs.Keys == d.vdevs.Keys
    && forall k | k in d.vdevs :: d'.vdevs[k].lists == d.vdevs[k].lists && d'.vdevs[k].name == d.vdevs[k].name
  }

  predicate Quiet(op: Op) { !op.Create? && !op.Destroy? && !op.Alloc? }

  lemma CloseQuiet(d: Dev, id: nat, granted: bool)
    requires Shape(d)
    ensures SameOwnership(d, DoClose(d, id, granted))
  {
    hide OnSubscribeChange, InitAllRes, RemoveAll, Layout;
  }

  lemma SubscribeQuiet(d: Dev, id: nat, event: int, action: Action, granted: bool)
    requires Shape(d)
    ensures SameOwnership(d, DoSubscribe(d, id, event, action, granted))
  {
    hide OnSubscribeChange, RemoveAll, AddSubscriber, RemoveSubscriber, Layout;
  }

  lemma IoctlQuiet(d: Dev, id: nat, relType: int, relIndex: int, cmd: Command)
    requires Shape(d)
    ensures SameOwnership(d, DoIoctl(d, id, relType, relIndex, cmd))
  {
  }

  lemma QuietStep(d: Dev, op: Op)
    requires Shape(d) && Quiet(op)
    ensures SameOwnership(d, Step(d, op))
  {
    hide OnSubscribeChange, InitAllRes, InitCard, DoCommand, Layout, DoClose, DoSubscribe, DoIoctl;
    match op
    case Close(id, granted) => CloseQuiet(d, id, granted);
    case Subscribe(id, event, action, granted) => SubscribeQuiet(d, id, event, action, granted);
    case Ioctl(id, relType, relIndex, cmd) => IoctlQuiet(d, id, relType, relIndex, cmd);
    case _ =>
  }

  lemma DestroyShape(d: Dev, id: nat, granted: bool)
    requires Shape(d)
    ensures Shape(DoDestroy(d, id, granted))
  {
    FreeOwnerOwners(d.Defs(), d.states, id);
    SameVDevsShape(d, DoDestroy(d, id, granted));
  }

  lemma StepShape(d: Dev, op: Op)
    requires Shape(d)
    ensures Shape(Step(d, op))
  {
    if Quiet(op) {
      QuietStep(d, op);
      SameVDevsShape(d, Step(d, op));
    } else {
      match op
      case Create(id, name, nodeMade) => CreateShape(d, id, name, nodeMade);
      case Alloc(id, resName, fixedIndex, args) => AllocShape(d, id, resName, fixedIndex, args);
      case Destroy(id, granted) => DestroyShape(d, id, granted);
    }
  }

  /** A card that has just been bound: no VIRT_DEVs, no owners, no subscriptions. */
  ghost predicate Start(d: Dev) {
    && Layout(d.Defs(), d.states)
    && (forall i | 0 <= i < |d.states| :: d.states[i].owner == NO_OWNER)
    && d.vdevs == map[]
    && d.table == EmptyTable()
    && Ready(d.hw)
    && d.live && d.opening == 0
    && d.calls == []
  }

  ghost function Run(d0: Dev, ops: seq<Op>): (d: Dev)
    requires Start(d0)
    ensures Shape(d)
  {
    if ops == [] then d0
    else
      var before := Run(d0, ops[..|ops| - 1]);
      StepShape(before, ops[|ops| - 1]);
      Step(before, ops[|ops| - 1])
  }
}
