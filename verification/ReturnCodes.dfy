/** What the calls return against what they do. */
module ReturnCodes {
  import opened EvrCard
  import opened EvrEffects
  import opened EventList
  import opened Rm
  import opened Device
  import opened DeviceTable
  import opened DeviceEffects
  import opened DeviceHw
  import opened MngDev

  /** A creation reports success exactly if there is a new VIRT_DEV. */
  lemma CreateTells(d0: Dev, ops: seq<Op>, id: nat, name: string, nodeMade: bool)
    requires Start(d0)
    ensures var d := Run(d0, ops);
      CreateCode(d, id, name, nodeMade) == Success <==> Step(d, Create(id, name, nodeMade)) != d
  {
    hide Run, Start, Layout;
  }

  /** An allocation reports success exactly if something is allocated, and that the
      resource is in use exactly if the index named is that of one with an owner. */
  lemma AllocTells(d0: Dev, ops: seq<Op>, id: nat, resName: string, index: int, args: Filters)
    requires Start(d0)
    ensures var d := Run(d0, ops);
      var code := AllocCode(d, id, resName, index, args);
      && (code == Success <==> Step(d, Alloc(id, resName, index, args)) != d)
      && (code == EADDRINUSE <==>
            && Allocates(d, id) && index != MODAC_RM_ALLOC_FROM_POOL
            && exists t: nat :: t < 2 && resName == NameOf(t) && Resource(d.Defs(), t, index) && !Unused(d, t, index))
  {
    hide Run, Start, Layout;
    AllocStepTells(Run(d0, ops), id, resName, index, args);
  }

  lemma AllocStepTells(d: Dev, id: nat, resName: string, index: int, args: Filters)
    requires Shape(d)
    ensures var code := AllocCode(d, id, resName, index, args);
      && (code == Success <==> DoAlloc(d, id, resName, index, args) != d)
      && (code == EADDRINUSE <==>
            && Allocates(d, id) && index != MODAC_RM_ALLOC_FROM_POOL
            && exists t: nat :: t < 2 && resName == NameOf(t) && Resource(d.Defs(), t, index) && !Unused(d, t, index))
  {
    hide Layout, AllocOutcomeOf, Rm.NamesDiffer, GetOwner, NameOf;
    var o := AllocOutcomeOf(d.Defs(), d.states, resName, index, args);
    NamesTell(d);
    if Allocates(d, id) && o.Seized? {
      AllocChanges(d, id, resName, index, args);
    }
    if index == MODAC_RM_ALLOC_FROM_POOL {
      PoolNotInUse(d, resName, args);
    } else {
      FixedTakesTheOne(d.Defs(), d.states, resName, index, args);
      forall t: nat | t < 2 ensures d.Defs()[t].name == NameOf(t) {
      }
    }
  }

  lemma PoolNotInUse(d: Dev, resName: string, args: Filters)
    ensures !AllocOutcomeOf(d.Defs(), d.states, resName, MODAC_RM_ALLOC_FROM_POOL, args).AddrInUse?
  {
  }

  /** A call for a resource is refused as not allowed exactly if the number is not in the
      list, and reports success exactly if it is that of a pulse generator and the values
      to be set have no more bits than it has. */
  lemma IoctlTells(d0: Dev, ops: seq<Op>, id: nat, t: int, k: int, cmd: Command)
    requires Start(d0) && cmd.Valid() && Run(d0, ops).IsOpen(id)
    ensures var d := Run(d0, ops);
      var code := IoctlCode(d, id, t, k, cmd);
      assert ListsOk(d, d.vdevs[id]);
      && (code == ENODEV <==> !d.live)
      && (code == EACCES <==> d.live && !InList(d, id, t, k))
      && (code == Success <==>
            && d.live && t == 0 && InList(d, id, 0, k)
            && (cmd.ParamSet? ==> ParamsHaveBits(d.pulsegens[d.vdevs[id].lists[0][k]], cmd.prescaler, cmd.delay, cmd.width)))
  {
    hide Run, Start, Layout, MayUse, TooLarge, HasBits, PulseParamSet, PulsePropSet, MapRamSet;
    var d := Run(d0, ops);
    assert ListsOk(d, d.vdevs[id]);
    MayUseIff(d0, ops, id, t, k);
    if t == 0 && InList(d, id, 0, k) && cmd.ParamSet? {
      ParamsFitIff(d.pulsegens[d.vdevs[id].lists[0][k]], cmd.prescaler, cmd.delay, cmd.width);
    }
  }

  /** A subscription reports success unless the device is gone or the code to be
      subscribed is out of range; there is always room for it. */
  lemma SubscribeTells(d0: Dev, ops: seq<Op>, id: Subscriber, event: int, action: Action)
    requires Start(d0) && Run(d0, ops).IsOpen(id)
    ensures SubscribeCode(Run(d0, ops), id, event, action)
         == if !Run(d0, ops).live then ENODEV
            else if action.SubscribeEvent? && !InRange(event) then EINVAL
            else Success
  {
    hide Run, Start, Layout, TableInv;
    RunTableInv(d0, ops);
    AddNeverFull(Run(d0, ops), id, event);
  }
}
