/** struct mngdev_data and the calls that work on it in place. Every call is tied
    to the step of the device model that it makes, so that what holds for all runs
    of that model holds for any sequence of these calls. */
module MngDev {
  import opened Evr
  import opened EvrCard
  import opened EvrEffects
  import opened EvrDriver
  import opened EventList
  import opened Rm
  import opened Device

  datatype Errno = Success | ENODEV | ENXIO | EACCES | EINVAL | EEXIST | EMFILE | EADDRINUSE | ENOMEM | EDRIVER

  function CreateCode(d: Dev, id: nat, name: string, nodeMade: bool): Errno {
    if !d.live then ENODEV
    else if id > MAX_VIRT_DEVS_PER_MNG_DEV then EINVAL
    else if NameUsed(d, name) then EEXIST
    else if id == 0 && FirstFreeId(d, 1) > MAX_VIRT_DEVS_PER_MNG_DEV then EMFILE
    else if id in d.vdevs && id != 0 then EEXIST
    else if nodeMade then Success else EDRIVER
  }

  function AllocCode(d: Dev, id: nat, resName: string, fixedIndex: int, args: Filters): Errno {
    if !d.live then ENODEV
    else if id !in d.vdevs then ENXIO
    else if d.IsOpen(id) then EACCES
    else match AllocOutcomeOf(d.Defs(), d.states, resName, fixedIndex, args)
      case Seized(_) => Success
      case AddrInUse => EADDRINUSE
      case NoAccess => EACCES
  }

  function SubscribeCode(d: Dev, id: Subscriber, event: int, action: Action): Errno {
    if !d.live then ENODEV
    else if !action.SubscribeEvent? then Success
    else match AddCodeOf(d.table, id, event)
      case Added => Success
      case InvalidEvent => EINVAL
      case NoMemory => ENOMEM
  }

  function IoctlCode(d: Dev, id: nat, relType: int, relIndex: int, cmd: Command): Errno
    requires Shape(d) && id in d.vdevs && cmd.Valid()
  {
    if !d.live then ENODEV
    else if !MayUse(d, id, relType, relIndex) then EACCES
    else
      var r := VresDesc(d.vdevs[id], relType, relIndex);
      if DoCommand(d.hw, d.pulsegens, TypeOf(r.t), r.x, cmd).1 == Ok then Success else EINVAL
  }

  /** Where an allocation that succeeds has its resource listed. */
  lemma AllocPlace(d: Dev, id: nat, resName: string, fixedIndex: int, args: Filters)
    requires Shape(d) && id in d.vdevs
    ensures |d.vdevs[id].lists| == 2
    ensures var o := AllocOutcomeOf(d.Defs(), d.states, resName, fixedIndex, args);
      o.Seized? ==>
        && d.states[o.at].resType < 2
        && AllocStates(d.states, o, id)[o.at] == d.states[o.at].(owner := id)
  {
    assert ListsOk(d, d.vdevs[id]);
    var o := AllocOutcomeOf(d.Defs(), d.states, resName, fixedIndex, args);
    if o.Seized? {
      assert Resource(d.Defs(), d.states[o.at].resType, d.states[o.at].arrayIndex);
    }
  }

  lemma MayUseFound(d: Dev, id: nat, relType: int, relIndex: int)
    requires Shape(d) && id in d.vdevs
    ensures MayUse(d, id, relType, relIndex) ==> VresDesc(d.vdevs[id], relType, relIndex).Found?
  {
  }

  lemma NewIsStart(d: Dev)
    requires Layout(d.Defs(), d.states) && forall i | 0 <= i < |d.states| :: d.states[i].owner == NO_OWNER
    requires d.vdevs == map[] && d.table == EmptyTable() && Ready(d.hw)
    requires d.live && d.opening == 0 && d.calls == []
    ensures Shape(d) && Start(d)
  {
  }

  class MngDevice {
    const pulsegens: PulseTable
    const outputs: nat
    const dispatch: DispatchList
    const rm: ResourceManager
    const card: Card
    var vdevs: map<nat, VDev>
    var refValid: bool
    var opening: nat
    ghost var calls: seq<Call>

    ghost predicate Apart()
      reads this, dispatch, rm, card
    {
      && card.mapRam as object != dispatch.subs
      && card.mapRam as object != rm.resStates && card.mapRam as object != rm.typeData
      && dispatch.subs as object != rm.resStates && dispatch.subs as object != rm.typeData
      && rm.resStates as object != rm.typeData
    }

    ghost predicate Valid()
      reads this, dispatch, dispatch.subs, rm, rm.resStates, rm.typeData, card, card.mapRam
    {
      && Apart()
      && dispatch.Valid() && rm.Valid() && card.Valid()
      && rm.defs == EvrDefs(pulsegens, outputs)
      && card.pulsegens == pulsegens
      && Shape(Abs())
    }

    ghost function Abs(): Dev
      reads this, dispatch, rm, rm.resStates, card, card.mapRam
      requires card.Valid()
    {
      Dev(pulsegens, outputs, rm.States(), vdevs, dispatch.table, card.State(), refValid, opening, calls)
    }

    /** modac_mngdev_create, once the card, the owner table and the device node
        could be made: it starts with no subscriptions. */
    constructor (registers: Regs, bridge: Bridge, pulsegens: PulseTable, outputs: nat)
      ensures Valid() && Start(Abs())
      ensures fresh(dispatch) && fresh(dispatch.subs) && fresh(rm) && fresh(rm.resStates) && fresh(rm.typeData)
      ensures fresh(card) && fresh(card.mapRam)
      ensures this.pulsegens == pulsegens && this.outputs == outputs
    {
      hide OnSubscribeChange, Layout, RamMapInit, Ready, EmptyTable, EvrDefs, Start, Shape;
      this.pulsegens, this.outputs := pulsegens, outputs;
      dispatch := new DispatchList();
      card := new Card(registers, bridge, pulsegens);
      rm := new ResourceManager(EvrDefs(pulsegens, outputs));
      vdevs, refValid, opening, calls := map[], true, 0, [];
      new;
      var subscriptions := new EventBitmap();
      ghost var hw := card.State();
      card.SubscribeChange(subscriptions, false);
      CreatedReady(hw, false);
      NewIsStart(Abs());
    }

    /** on_subscribe_change */
    method OnSubscriptionsChanged(granted: bool)
      requires Valid()
      modifies card`regs, card`irqEnabled, card.mapRam
      ensures Valid() && card.mapRam == old(card.mapRam)
      ensures Abs() == Refresh(old(Abs()), granted)
    {
      hide OnSubscribeChange, Layout;
      var allSubscriptions := new EventBitmap();
      dispatch.AddSubscribedEvents(allSubscriptions);
      assert allSubscriptions.codes == Union(dispatch.table);
      if refValid {
        card.SubscribeChange(allSubscriptions, granted);
      }
    }

    /** mngdev_event_dispatch_list_remove_all */
    method RemoveAllSubscriptions(id: Subscriber, granted: bool)
      requires Valid()
      modifies dispatch`table, dispatch.subs, card`regs, card`irqEnabled, card.mapRam
      ensures Valid() && card.mapRam == old(card.mapRam) && dispatch.subs == old(dispatch.subs)
      ensures Abs() == Refresh(old(Abs()).(table := RemoveAll(old(Abs()).table, id)), granted)
    {
      hide OnSubscribeChange, Layout, RemoveAll;
      dispatch.RemoveAllOf(id);
      OnSubscriptionsChanged(granted);
    }

    // ----- the calls of the manager

    /** The search for a free id. */
    method ChooseId(id: nat) returns (chosen: nat, code: Errno)
      requires Valid() && id <= MAX_VIRT_DEVS_PER_MNG_DEV
      ensures code == if id == 0 && FirstFreeId(Abs(), 1) > MAX_VIRT_DEVS_PER_MNG_DEV then EMFILE else Success
      ensures code == Success ==> chosen == if id == 0 then FirstFreeId(Abs(), 1) else id
    {
      if id != 0 {
        return id, Success;
      }
      chosen, code := 1, EMFILE;
      while chosen <= MAX_VIRT_DEVS_PER_MNG_DEV
        invariant 1 <= chosen <= MAX_VIRT_DEVS_PER_MNG_DEV + 1
        invariant FirstFreeId(Abs(), 1) == FirstFreeId(Abs(), chosen)
      {
        if chosen !in vdevs {
          return chosen, Success;
        }
        chosen := chosen + 1;
      }
    }

    /** MNG_DEV_IOC_CREATE */
    method Create(id: nat, name: string, nodeMade: bool) returns (code: Errno)
      requires Valid()
      modifies this`vdevs
      ensures Valid() && Abs() == DoCreate(old(Abs()), id, name, nodeMade)
      ensures code == CreateCode(old(Abs()), id, name, nodeMade)
    {
      if !refValid {
        return ENODEV;
      }
      if id > MAX_VIRT_DEVS_PER_MNG_DEV {
        return EINVAL;
      }
      if exists k | k in vdevs :: vdevs[k].name == name {
        return EEXIST;
      }
      var chosen;
      chosen, code := ChooseId(id);
      if code != Success {
        return;
      }
      if chosen in vdevs {
        return EEXIST;
      }
      if !nodeMade {
        return EDRIVER;
      }
      CreateShape(Abs(), id, name, nodeMade);
      vdevs := vdevs[chosen := VDev(name, [[], []], 0, false)];
    }

    /** MNG_DEV_IOC_DESTROY of a VIRT_DEV that nobody has open. */
    method Destroy(id: nat, granted: bool) returns (code: Errno)
      requires Valid() && !Abs().IsOpen(id) && opening != id
      modifies this`vdevs, rm.resStates, dispatch`table, dispatch.subs, card`regs, card`irqEnabled, card.mapRam
      ensures Valid() && Abs() == DoDestroy(old(Abs()), id, granted)
      ensures code == if old(refValid) && id in old(vdevs) then Success else ENODEV
    {
      hide OnSubscribeChange, Layout, RemoveAll, FreeOwner;
      if !refValid {
        return ENODEV;
      }
      if id !in vdevs {
        return ENODEV;
      }
      DestroyShape(Abs(), id, granted);
      RemoveAllSubscriptions(id, granted);
      rm.Free(id);
      vdevs := vdevs - {id};
      code := Success;
    }

    /** vdev_on_res_add; its result is not looked at. */
    method AddResource(id: nat, t: nat, x: nat)
      requires id in vdevs && t < |vdevs[id].lists|
      modifies this`vdevs
      ensures vdevs == old(vdevs)[id := ResAdd(old(vdevs)[id], t, x)]
    {
      var v := vdevs[id];
      if |v.lists[t]| >= MODAC_RES_PER_VIRT_DEV_MAX_COUNT {
        return;
      }
      vdevs := vdevs[id := v.(lists := v.lists[t := v.lists[t] + [x]])];
    }

    /** MNG_DEV_IOC_ALLOC */
    method Allocate(id: nat, resName: string, fixedIndex: int, args: Filters) returns (code: Errno)
      requires Valid()
      modifies this`vdevs, rm.resStates
      ensures Valid() && Abs() == DoAlloc(old(Abs()), id, resName, fixedIndex, args)
      ensures code == AllocCode(old(Abs()), id, resName, fixedIndex, args)
    {
      hide Layout, AllocOutcomeOf;
      if !refValid {
        return ENODEV;
      }
      if id !in vdevs {
        return ENXIO;
      }
      if vdevs[id].usage > 0 {
        return EACCES;
      }
      AllocShape(Abs(), id, resName, fixedIndex, args);
      AllocPlace(Abs(), id, resName, fixedIndex, args);
      var o, t, x := rm.Alloc(id, resName, fixedIndex, args);
      match o
      case Seized(_) =>
        AddResource(id, t, x);
        return Success;
      case AddrInUse => return EADDRINUSE;
      case NoAccess => return EACCES;
    }

    /** The check of a resource that a call names for a VIRT_DEV. */
    method CheckResource(id: nat, relType: int, relIndex: int) returns (desc: Descriptor)
      requires Valid() && id in vdevs
      ensures desc == if MayUse(Abs(), id, relType, relIndex) then VresDesc(vdevs[id], relType, relIndex) else NotFound
    {
      hide Layout;
      desc := VresDesc(vdevs[id], relType, relIndex);
      if desc.NotFound? {
        return;
      }
      var owner := rm.OwnerOf(desc.t, desc.x);
      if owner != Owner(id) {
        desc := NotFound;
      }
    }

    /** MNG_DEV_EVR_IOC_INIT with the VIRT_DEV and the resources named in its header. */
    method InitializeCard(id: nat, header: Header) returns (code: Errno)
      requires Valid()
      modifies card`regs, card.mapRam
      ensures Valid() && card.mapRam == old(card.mapRam)
      ensures Abs() == DoInit(old(Abs()), id, header)
      ensures code == if !refValid then ENODEV else if InitRuns(old(Abs()), id, header) then Success else EACCES
    {
      hide InitCard, Layout, MayUse;
      if !refValid {
        return ENODEV;
      }
      if id in vdevs && vdevs[id].usage > 0 {
        return EACCES;
      }
      var i := 0;
      while i < 2
        invariant 0 <= i <= 2
        invariant forall k | 0 <= k < i && header[k].t != MODAC_RES_TYPE_NONE ::
          id in vdevs && MayUse(Abs(), id, header[k].t, header[k].x)
        modifies {}
      {
        if header[i].t != MODAC_RES_TYPE_NONE {
          if id !in vdevs {
            return EACCES;
          }
          var desc := CheckResource(id, header[i].t, header[i].x);
          if desc.NotFound? {
            MayUseFound(Abs(), id, header[i].t, header[i].x);
            return EACCES;
          }
          MayUseFound(Abs(), id, header[i].t, header[i].x);
        }
        i := i + 1;
      }
      card.Initialize();
      code := Success;
    }

    /** modac_mngdev_destroy as far as the calls here can see it. */
    method Invalidate()
      requires Valid()
      modifies this`refValid
      ensures Valid() && Abs() == old(Abs()).(live := false)
    {
      SameVDevsShape(Abs(), Abs().(live := false));
      refValid := false;
    }

    // ----- the calls of a VIRT_DEV

    /** modac_c_vdev_on_open up to the device reference, under the lock that lets one
        open pass at a time. */
    method OnOpen(id: nat) returns (code: Errno)
      requires Valid() && opening == 0
      modifies this`opening
      ensures Valid() && Abs() == DoOpen(old(Abs()), id)
      ensures code == if refValid && id in vdevs then Success else ENODEV
    {
      if !refValid || id !in vdevs {
        return ENODEV;
      }
      StepShape(Abs(), Op.Open(id));
      opening := id;
      code := Success;
    }

    /** The rest of modac_c_vdev_on_open, whether or not the device is still there. */
    method CountOpen()
      requires Valid() && opening in vdevs
      modifies this`vdevs, this`opening
      ensures Valid() && Abs() == DoCountOpen(old(Abs()))
    {
      StepShape(Abs(), Op.CountOpen);
      vdevs := vdevs[opening := vdevs[opening].(usage := vdevs[opening].usage + 1)];
      opening := 0;
    }

    /** The init_res calls for the resources of one type. */
    method InitResourcesOfType(t: nat, indices: seq<nat>)
      requires Valid()
      requires t == 0 ==> forall j | 0 <= j < |indices| :: indices[j] < EVR_MAX_PULSEGEN_COUNT
      modifies card`regs, card.mapRam
      ensures Valid() && card.mapRam == old(card.mapRam)
      ensures Abs() == old(Abs()).(hw := InitListed(old(Abs()).hw, t, indices, |indices|))
    {
      hide Layout, InitRes;
      var j := 0;
      while j < |indices|
        invariant 0 <= j <= |indices|
        invariant Valid() && card.mapRam == old(card.mapRam)
        invariant Abs() == old(Abs()).(hw := InitListed(old(Abs()).hw, t, indices, j))
      {
        card.InitResource(TypeOf(t), indices[j]);
        j := j + 1;
      }
    }

    /** modac_c_vdev_init_res */
    method InitResources(id: nat)
      requires Valid() && id in vdevs
      modifies card`regs, card.mapRam
      ensures Valid() && card.mapRam == old(card.mapRam)
      ensures Abs() == old(Abs()).(hw := InitAllRes(old(Abs()), id))
    {
      hide Layout, InitListed;
      assert ListsOk(Abs(), vdevs[id]);
      InitResourcesOfType(0, vdevs[id].lists[0]);
      InitResourcesOfType(1, vdevs[id].lists[1]);
    }

    /** Writing to the file that resets the card's part of a VIRT_DEV. */
    method HwReset(id: nat) returns (code: Errno)
      requires Valid()
      modifies card`regs, card.mapRam
      ensures Valid() && card.mapRam == old(card.mapRam)
      ensures Abs() == Step(old(Abs()), Op.HwReset(id))
      ensures code == if refValid && id in vdevs then Success else ENODEV
    {
      hide Layout, InitAllRes;
      if !refValid || id !in vdevs {
        return ENODEV;
      }
      InitResources(id);
      code := Success;
    }

    method SetLeave(id: nat, leave: bool) returns (code: Errno)
      requires Valid()
      modifies this`vdevs
      ensures Valid() && Abs() == Step(old(Abs()), Op.SetLeave(id, leave))
      ensures code == if refValid && id in old(vdevs) then Success else ENODEV
    {
      if !refValid || id !in vdevs {
        return ENODEV;
      }
      StepShape(Abs(), Op.SetLeave(id, leave));
      vdevs := vdevs[id := vdevs[id].(leaveResSet := leave)];
      code := Success;
    }

    /** modac_c_vdev_on_close up to the release of the device reference. */
    method OnClose(id: Subscriber, granted: bool)
      requires Valid() && Abs().IsOpen(id)
      modifies this`vdevs, dispatch`table, dispatch.subs, card`regs, card`irqEnabled, card.mapRam
      ensures Valid() && Abs() == DoClose(old(Abs()), id, granted)
    {
      hide OnSubscribeChange, Layout, InitAllRes, RemoveAll;
      StepShape(Abs(), Op.Close(id, granted));
      ReleaseVDev(id);
      if vdevs[id].usage < 1 {
        RemoveAllSubscriptions(id, granted);
      }
    }

    /** The part of a close before the subscriptions are removed. */
    method ReleaseVDev(id: Subscriber)
      requires Valid() && Abs().IsOpen(id)
      modifies this`vdevs, card`regs, card.mapRam
      ensures Valid() && card.mapRam == old(card.mapRam)
      ensures var d := old(Abs());
        Abs() == WithUsage(d, id, d.vdevs[id].usage - 1).(hw := if LastClose(d, id) then HwOnLastClose(d, id) else d.hw)
    {
      hide Layout, InitListed;
      ghost var d := Abs();
      vdevs := vdevs[id := vdevs[id].(usage := vdevs[id].usage - 1)];
      SameVDevsShape(d, Abs());
      if vdevs[id].usage < 1 {
        if !vdevs[id].leaveResSet {
          if refValid {
            InitResources(id);
          }
        }
      }
    }

    /** modac_c_vdev_subscribe */
    method Subscribe(id: Subscriber, event: int, action: Action, granted: bool) returns (code: Errno)
      requires Valid() && Abs().IsOpen(id)
      modifies dispatch`table, dispatch.subs, card`regs, card`irqEnabled, card.mapRam
      ensures Valid() && Abs() == DoSubscribe(old(Abs()), id, event, action, granted)
      ensures code == SubscribeCode(old(Abs()), id, event, action)
    {
      hide OnSubscribeChange, Layout, RemoveAll, RemoveSubscriber;
      if !refValid {
        return ENODEV;
      }
      match action {
        case SubscribeEvent =>
          var added := dispatch.Add(id, event);
          if !added.Added? {
            return if added.InvalidEvent? then EINVAL else ENOMEM;
          }
        case UnsubscribeEvent => dispatch.Remove(id, event);
        case ClearEvents => dispatch.RemoveAllOf(id);
        case OtherAction =>
      }
      OnSubscriptionsChanged(granted);
      code := Success;
    }

    /** modac_c_vdev_do_ioctl for a call that names a resource. */
    method Ioctl(id: nat, relType: int, relIndex: int, cmd: Command) returns (code: Errno)
      requires Valid() && Abs().IsOpen(id) && relType != MODAC_RES_TYPE_NONE && cmd.Valid()
      modifies card`regs, card.mapRam
      ensures Valid() && card.mapRam == old(card.mapRam)
      ensures Abs() == DoIoctl(old(Abs()), id, relType, relIndex, cmd)
      ensures code == IoctlCode(old(Abs()), id, relType, relIndex, cmd)
    {
      hide Layout, DoCommand, MayUse;
      if !refValid {
        return ENODEV;
      }
      var desc := CheckResource(id, relType, relIndex);
      MayUseFound(Abs(), id, relType, relIndex);
      if desc.NotFound? {
        return EACCES;
      }
      var r := card.Ioctl(TypeOf(desc.t), desc.x, cmd);
      code := if r == Ok then Success else EINVAL;
    }

    // ----- interrupts

    /** modac_mngdev_process_event: the calls of irq_process, in order. */
    method ProcessEvent(irq: IrqEvent) returns (called: seq<Call>)
      requires Valid() && refValid
      modifies this`calls
      ensures Valid() && Abs() == DoInterrupt(old(Abs()), irq)
      ensures calls == old(calls) + called
      ensures called == if InRange(irq.event) then CallsFor(dispatch.table[irq.event], irq) else []
    {
      SameVDevsShape(Abs(), DoInterrupt(Abs(), irq));
      var subscribers := dispatch.ForAllSubscribers(irq.event);
      called := seq(|subscribers|, i requires 0 <= i < |subscribers| => Call(subscribers[i], irq));
      calls := calls + called;
      assert calls == DoInterrupt(old(Abs()), irq).calls;
    }
  }
}
