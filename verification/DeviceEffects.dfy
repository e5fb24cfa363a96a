/** What the calls of the device do, in every state that a run reaches, told without the
    functions of the steps: to which resource, to which VIRT_DEV, and what is as before. */
module DeviceEffects {
  import opened Words
  import opened Evr
  import opened EvrCard
  import opened EvrEffects
  import opened EventList
  import opened Rm
  import opened Device
  import opened DeviceTable
  import opened DeviceOwners
  import opened DeviceHw
  import opened DeviceVDevs
  import opened DeviceControl
  import opened DeviceWitnesses

  // ----- the resources of a VIRT_DEV by their numbers

  /** The number leads to a place in one of the lists of the VIRT_DEV. */
  predicate InList(d: Dev, id: nat, t: int, k: int)
    requires Shape(d) && id in d.vdevs
  {
    assert ListsOk(d, d.vdevs[id]);
    0 <= t < 2 && 0 <= k < |d.vdevs[id].lists[t]|
  }

  /** In every run a VIRT_DEV may use exactly the resources in its lists. */
  lemma MayUseIff(d0: Dev, ops: seq<Op>, id: nat, t: int, k: int)
    requires Start(d0) && id in Run(d0, ops).vdevs
    ensures MayUse(Run(d0, ops), id, t, k) <==> InList(Run(d0, ops), id, t, k)
  {
    hide Run, Start, Layout;
    ListedIsOwned(d0, ops, id, t, k);
    var d := Run(d0, ops);
    assert ListsOk(d, d.vdevs[id]);
  }

  /** INIT runs exactly if the VIRT_DEV of its header is closed and has all the resources
      in it, of those that are named at all. */
  lemma InitRunsIff(d0: Dev, ops: seq<Op>, id: nat, header: Header)
    requires Start(d0)
    ensures var d := Run(d0, ops);
      InitRuns(d, id, header) <==>
        && d.live && !(id in d.vdevs && d.vdevs[id].usage > 0)
        && forall i | 0 <= i < 2 && header[i].t != MODAC_RES_TYPE_NONE ::
             id in d.vdevs && InList(d, id, header[i].t, header[i].x)
  {
    hide Run, Start, Layout, MayUse, InList;
    var d := Run(d0, ops);
    if id in d.vdevs {
      forall i | 0 <= i < 2 ensures MayUse(d, id, header[i].t, header[i].x) <==> InList(d, id, header[i].t, header[i].x) {
        MayUseIff(d0, ops, id, header[i].t, header[i].x);
      }
    }
  }

  /** INIT leaves every pulse generator idle, enables the outputs, and touches nothing but
      the card; one that does not run touches nothing. */
  lemma InitTakesEffect(d0: Dev, ops: seq<Op>, id: nat, header: Header, q: PulseIndex)
    requires Start(d0) && q < |Run(d0, ops).pulsegens|
    ensures var d := Run(d0, ops);
      var d' := Step(d, Op.Init(id, header));
      && d' == d.(hw := d'.hw)
      && if InitRuns(d, id, header) then Idle(d'.hw, q) && C_EVR_CTRL_OUTEN in Read(d'.hw.regs, EVR_REG_CTRL) else d' == d
  {
    hide Run, Start, Layout, InitRuns, InitCard, Idle, FlushWrites;
    var d := Run(d0, ops);
    if InitRuns(d, id, header) {
      InitIdlesAll(d.hw, |d.pulsegens|, q);
      InitOtherCtrl(d.hw, |d.pulsegens|);
      assert C_EVR_CTRL_OUTEN in OtherCtrl(InitCard(d.hw, |d.pulsegens|).regs);
    }
  }

  // ----- the calls of a VIRT_DEV for a resource

  /** The three parameters of a pulse generator are the same. */
  predicate SameParams(a: Hw, b: Hw, p: nat) {
    var start := EVR_REG_PULSES + EVR_REG_PULSE_SLOT_SIZE * p;
    ParamsAre(b, p, Read(a.regs, start + EVR_REG_PULSE_PRESC_OFFSET), Read(a.regs, start + EVR_REG_PULSE_DELAY_OFFSET),
              Read(a.regs, start + EVR_REG_PULSE_WIDTH_OFFSET))
  }

  ghost predicate SameAllActs(a: Hw, b: Hw, p: nat) { forall code: nat | code < EVR_MAPRAM_EVENT_CODES :: SameActs(a, b, p, code) }

  /** What a call leaves on pulse generator p. */
  ghost predicate Takes(a: Hw, b: Hw, bits: PulseBits, p: nat, cmd: Command)
    requires cmd.Valid()
  {
    match cmd
    case ParamSet(prescaler, delay, width) =>
      if ParamsHaveBits(bits, prescaler, delay, width) then
        ParamsAre(b, p, prescaler, delay, width) && ControlWord(b, p) == ControlWord(a, p) && SameAllActs(a, b, p)
      else b == a
    case PropSet(enable, polarity, cfg) =>
      && PropsAre(b, p, enable, polarity, cfg) && OtherPropBits(ControlWord(b, p)) == OtherPropBits(ControlWord(a, p))
      && SameParams(a, b, p) && SameAllActs(a, b, p)
    case MapSet(all) =>
      && (forall code: nat | code < EVR_MAPRAM_EVENT_CODES :: Acts(b, p, code, all[code]))
      && SameParams(a, b, p) && ControlWord(b, p) == ControlWord(a, p)
    case MapSetForEvent(event, one) =>
      && Acts(b, p, event, one)
      && (forall code: nat | code < EVR_MAPRAM_EVENT_CODES && code != event :: SameActs(a, b, p, code))
      && SameParams(a, b, p) && ControlWord(b, p) == ControlWord(a, p)
    case Get => b == a
  }

  lemma RegistersActs(hw: Hw, regs: Regs, p: nat)
    requires forall a: nat | a >= EVR_REG_MAPRAM1 :: Read(regs, a) == Read(hw.regs, a)
    requires Read(regs, EVR_REG_CTRL) == Read(hw.regs, EVR_REG_CTRL)
    ensures SameAllActs(hw, hw.(regs := regs), p)
  {
  }

  lemma MapSetRegisters(hw: Hw, p: PulseIndex, first: nat, actions: seq<BitSet8>)
    requires first + |actions| <= EVR_MAPRAM_EVENT_CODES
    ensures SameParams(hw, MapRamSet(hw, p, first, actions), p)
    ensures ControlWord(MapRamSet(hw, p, first, actions), p) == ControlWord(hw, p)
  {
    hide Flush, SetMap;
    var changed := hw.(ram := SetMap(hw.ram, p, first, actions));
    FlushPulseFrame(changed, p, EVR_REG_PULSE_CTRL_OFFSET);
    FlushPulseFrame(changed, p, EVR_REG_PULSE_PRESC_OFFSET);
    FlushPulseFrame(changed, p, EVR_REG_PULSE_DELAY_OFFSET);
    FlushPulseFrame(changed, p, EVR_REG_PULSE_WIDTH_OFFSET);
  }

  lemma ParamSetTakes(hw: Hw, bits: PulseBits, p: PulseIndex, cmd: Command)
    requires cmd.ParamSet?
    ensures Takes(hw, PulseParamSet(hw, bits, p, cmd.prescaler, cmd.delay, cmd.width), bits, p, cmd)
  {
    hide ParamsHaveBits, ParamsFit, SameAllActs;
    ParamSetEffect(hw, bits, p, cmd.prescaler, cmd.delay, cmd.width);
    RegistersActs(hw, SetPulseParams(hw.regs, p, cmd.prescaler, cmd.delay, cmd.width), p);
    RegistersActs(hw, hw.regs, p);
  }

  lemma PropSetTakes(hw: Hw, bits: PulseBits, p: PulseIndex, cmd: Command)
    requires cmd.PropSet?
    ensures Takes(hw, PulsePropSet(hw, p, cmd.enable, cmd.polarity, cmd.cfg), bits, p, cmd)
  {
    hide SameAllActs, PropWord, OtherPropBits;
    PropSetEffect(hw, p, cmd.enable, cmd.polarity, cmd.cfg);
    RegistersActs(hw, PulsePropSet(hw, p, cmd.enable, cmd.polarity, cmd.cfg).regs, p);
  }

  lemma MapSetTakes(hw: Hw, bits: PulseBits, p: PulseIndex, cmd: Command)
    requires Flushed(hw) && cmd.Valid() && cmd.MapSet?
    ensures Takes(hw, MapRamSet(hw, p, 0, cmd.all), bits, p, cmd)
  {
    hide MapRamSet, Flushed, SameParams, ControlWord, Acts, SameActs;
    MapSetRegisters(hw, p, 0, cmd.all);
    forall code: nat | code < EVR_MAPRAM_EVENT_CODES ensures Acts(MapRamSet(hw, p, 0, cmd.all), p, code, cmd.all[code]) {
      SetOneCode(hw, p, 0, cmd.all, code);
    }
  }

  lemma MapSetForEventTakes(hw: Hw, bits: PulseBits, p: PulseIndex, cmd: Command)
    requires Flushed(hw) && cmd.Valid() && cmd.MapSetForEvent?
    ensures Takes(hw, MapRamSet(hw, p, cmd.event, [cmd.one]), bits, p, cmd)
  {
    hide MapRamSet, Flushed, SameParams, ControlWord, Acts, SameActs;
    MapSetRegisters(hw, p, cmd.event, [cmd.one]);
    SetOneCode(hw, p, cmd.event, [cmd.one], cmd.event);
    forall code: nat | code < EVR_MAPRAM_EVENT_CODES && code != cmd.event
      ensures SameActs(hw, MapRamSet(hw, p, cmd.event, [cmd.one]), p, code)
    {
      SetOneCode(hw, p, cmd.event, [cmd.one], code);
    }
  }

  lemma CommandTakes(hw: Hw, pulsegens: PulseTable, p: PulseIndex, cmd: Command)
    requires Flushed(hw) && cmd.Valid() && p < |pulsegens|
    ensures Takes(hw, DoCommand(hw, pulsegens, PulseGen, p, cmd).0, pulsegens[p], p, cmd)
  {
    hide Takes, Flushed, PulseParamSet, PulsePropSet, MapRamSet;
    match cmd
    case ParamSet(_, _, _) => ParamSetTakes(hw, pulsegens[p], p, cmd);
    case PropSet(_, _, _) => PropSetTakes(hw, pulsegens[p], p, cmd);
    case MapSet(_) => MapSetTakes(hw, pulsegens[p], p, cmd);
    case MapSetForEvent(_, _) => MapSetForEventTakes(hw, pulsegens[p], p, cmd);
    case Get => GetTakes(hw, pulsegens[p], p);
  }

  lemma GetTakes(hw: Hw, bits: PulseBits, p: nat)
    ensures Takes(hw, hw, bits, p, Command.Get)
  {
  }

  /** The call for number k of list t takes effect on the pulse generator that is in that
      place of the list, and on nothing else; it changes nothing if there is none, for an
      output, on a VIRT_DEV that is not open, or without the device. */
  ghost predicate IoctlDoes(d: Dev, d': Dev, id: nat, t: int, k: int, cmd: Command)
    requires Shape(d) && cmd.Valid()
  {
    if d.live && d.IsOpen(id) && t == 0 && InList(d, id, 0, k) then
      assert ListsOk(d, d.vdevs[id]);
      var p := d.vdevs[id].lists[0][k];
      && d' == d.(hw := d'.hw)
      && Takes(d.hw, d'.hw, d.pulsegens[p], p, cmd)
      && OnlyPulse(d.hw, d'.hw, p)
    else d' == d
  }

  lemma IoctlTakesEffect(d0: Dev, ops: seq<Op>, id: nat, t: int, k: int, cmd: Command)
    requires Start(d0) && cmd.Valid()
    ensures IoctlDoes(Run(d0, ops), Step(Run(d0, ops), Op.Ioctl(id, t, k, cmd)), id, t, k, cmd)
  {
    hide Run, Start, Layout, IoctlDoes, MayUse, InList, Step, Flushed;
    var d := Run(d0, ops);
    HardwareFollows(d0, ops);
    if d.live && d.IsOpen(id) {
      MayUseIff(d0, ops, id, t, k);
    }
    IoctlStep(d, id, t, k, cmd);
  }

  lemma IoctlStep(d: Dev, id: nat, t: int, k: int, cmd: Command)
    requires Shape(d) && Flushed(d.hw) && cmd.Valid()
    requires d.live && d.IsOpen(id) ==> (MayUse(d, id, t, k) <==> InList(d, id, t, k))
    ensures IoctlDoes(d, Step(d, Op.Ioctl(id, t, k, cmd)), id, t, k, cmd)
  {
    hide Layout, Takes, OnlyPulse, MayUse, Flushed, DoIoctl;
    if d.live && d.IsOpen(id) && InList(d, id, t, k) {
      ListedCommand(d, id, t, k, cmd);
    } else {
      UnlistedCommand(d, id, t, k, cmd);
    }
  }

  lemma ListedCommand(d: Dev, id: nat, t: int, k: int, cmd: Command)
    requires Shape(d) && Flushed(d.hw) && cmd.Valid()
    requires d.live && d.IsOpen(id) && InList(d, id, t, k) && MayUse(d, id, t, k)
    ensures IoctlDoes(d, DoIoctl(d, id, t, k, cmd), id, t, k, cmd)
  {
    hide Layout, Takes, OnlyPulse, MayUse, Flushed;
    assert ListsOk(d, d.vdevs[id]);
    var p := d.vdevs[id].lists[t][k];
    if t == 0 {
      CommandTakes(d.hw, d.pulsegens, p, cmd);
      CommandOnly(d.hw, d.pulsegens, p, cmd);
    }
  }

  lemma UnlistedCommand(d: Dev, id: nat, t: int, k: int, cmd: Command)
    requires Shape(d)
    requires !d.live || !d.IsOpen(id) || !MayUse(d, id, t, k)
    ensures DoIoctl(d, id, t, k, cmd) == d
  {
    hide Layout, MayUse;
  }

  lemma CommandOnly(hw: Hw, pulsegens: PulseTable, p: PulseIndex, cmd: Command)
    requires Flushed(hw) && cmd.Valid() && p < |pulsegens|
    ensures OnlyPulse(hw, DoCommand(hw, pulsegens, PulseGen, p, cmd).0, p)
  {
    hide DoCommand, Flushed;
    CommandIsolated(hw, pulsegens, PulseGen, p, cmd);
  }

  // ----- destroying and allocating

  /** All that tells who owns what is the same but for one VIRT_DEV. */
  ghost predicate SameOthers(d: Dev, d': Dev, id: nat) {
    && d'.pulsegens == d.pulsegens && d'.outputs == d.outputs && d'.live == d.live && d'.opening == d.opening && d'.calls == d.calls
    && forall v: nat | v != id :: (v in d'.vdevs <==> v in d.vdevs) && (v in d.vdevs ==> d'.vdevs[v] == d.vdevs[v])
  }

  lemma DestroyVDevs(d: Dev, id: nat, granted: bool)
    requires Shape(d) && d.live && id in d.vdevs && !d.IsOpen(id) && d.opening != id
    ensures var d' := DoDestroy(d, id, granted);
      && Shape(d') && id !in d'.vdevs && SameOthers(d, d', id)
      && d'.states == FreeOwner(d.states, id) && d'.table == RemoveAll(d.table, id)
  {
    hide OnSubscribeChange, Layout, RemoveAll, FreeOwner;
    DestroyShape(d, id, granted);
  }

  /** The destruction of a VIRT_DEV that is closed takes it away, with its subscriptions,
      and frees all that it owned; the other VIRT_DEVs keep their entries, what they own
      and their subscriptions. */
  ghost predicate Destroyed(d: Dev, d': Dev, id: Subscriber)
    requires Shape(d)
  {
    && Shape(d')
    && d'.vdevs.Keys == d.vdevs.Keys - {id}
    && SameOthers(d, d', id)
    && (forall t, x | Resource(d.Defs(), t, x) ::
          GetOwner(d'.Defs(), d'.states, t, x)
          == if GetOwner(d.Defs(), d.states, t, x) == Owner(id) then Unowned else GetOwner(d.Defs(), d.states, t, x))
    && (forall v: nat, t: nat | t < 2 :: Owned(d', v, t) == if v == id then {} else Owned(d, v, t))
    && forall v: Subscriber, e: int :: Subscribed(d'.table, v, e) <==> Subscribed(d.table, v, e) && v != id
  }

  lemma OwnedWithout(d: Dev, d': Dev, id: nat, v: nat, t: nat)
    requires Shape(d) && Shape(d') && t < 2
    requires d'.pulsegens == d.pulsegens && d'.outputs == d.outputs
    requires forall x | Resource(d.Defs(), t, x) ::
               GetOwner(d'.Defs(), d'.states, t, x)
               == if GetOwner(d.Defs(), d.states, t, x) == Owner(id) then Unowned else GetOwner(d.Defs(), d.states, t, x)
    ensures Owned(d', v, t) == if v == id then {} else Owned(d, v, t)
  {
    hide Layout, GetOwner;
    forall x | 0 <= x < d.Defs()[t].count
      ensures x in Owned(d', v, t) <==> v != id && x in Owned(d, v, t)
    {
      assert Resource(d.Defs(), t, x);
    }
    if v == id {
      forall x ensures x !in Owned(d', v, t) {
      }
    }
  }

  lemma DestroyEffect(d: Dev, id: Subscriber, granted: bool)
    requires Shape(d) && TableInv(d) && d.live && id in d.vdevs && !d.IsOpen(id) && d.opening != id
    ensures Destroyed(d, Step(d, Op.Destroy(id, granted)), id)
  {
    hide DoDestroy, Layout, GetOwner, FreeOwner, RemoveAll, Owned;
    var d' := Step(d, Op.Destroy(id, granted));
    DestroyVDevs(d, id, granted);
    FreeOwnerOwners(d.Defs(), d.states, id);
    forall v: nat, t: nat | t < 2 ensures Owned(d', v, t) == if v == id then {} else Owned(d, v, t) {
      OwnedWithout(d, d', id, v, t);
    }
    forall v: Subscriber, e: int ensures Subscribed(d'.table, v, e) <==> Subscribed(d.table, v, e) && v != id {
      TableRefinesRelation(d.table, id, 0, v, e);
    }
  }

  lemma DestroyDestroys(d0: Dev, ops: seq<Op>, id: Subscriber, granted: bool)
    requires Start(d0)
    ensures var d := Run(d0, ops);
      var d' := Step(d, Op.Destroy(id, granted));
      if d.live && id in d.vdevs && !d.IsOpen(id) && d.opening != id then Destroyed(d, d', id) else d' == d
  {
    hide Run, Start, Layout, Destroyed, OnSubscribeChange;
    var d := Run(d0, ops);
    RunTableInv(d0, ops);
    if d.live && id in d.vdevs && !d.IsOpen(id) && d.opening != id {
      DestroyEffect(d, id, granted);
    }
  }

  /** The VIRT_DEV has been given the resource, at the end of its list if there is room,
      and nothing else is different. */
  ghost predicate Given(d: Dev, d': Dev, id: nat, t: nat, x: nat)
    requires Shape(d) && id in d.vdevs && t < 2
  {
    && Shape(d') && id in d'.vdevs
    && SameOthers(d, d', id) && d'.hw == d.hw && d'.table == d.table
    && (forall v: nat, u: nat | u < 2 :: Owned(d', v, u) == if v == id && u == t then Owned(d, v, u) + {x as int} else Owned(d, v, u))
    && assert ListsOk(d, d.vdevs[id]);
       var v, v' := d.vdevs[id], d'.vdevs[id];
       && v' == v.(lists := v'.lists) && |v'.lists| == 2
       && v'.lists[1 - t] == v.lists[1 - t]
       && v'.lists[t] == if |v.lists[t]| < MODAC_RES_PER_VIRT_DEV_MAX_COUNT then v.lists[t] + [x] else v.lists[t]
  }

  /** The name under which a type of resource is asked for. */
  function NameOf(t: nat): string { if t == 0 then "pulsegen" else "output" }

  lemma NamesTell(d: Dev)
    ensures Rm.NamesDiffer(d.Defs())
    ensures d.Defs()[0].name == NameOf(0) && d.Defs()[1].name == NameOf(1)
  {
    assert |d.Defs()[0].name| != |d.Defs()[1].name|;
  }

  lemma SeizedIsGiven(d: Dev, id: nat, resName: string, fixedIndex: int, args: Filters)
    requires Shape(d) && d.live && id in d.vdevs && !d.IsOpen(id)
    requires AllocOutcomeOf(d.Defs(), d.states, resName, fixedIndex, args).Seized?
    ensures var at := AllocOutcomeOf(d.Defs(), d.states, resName, fixedIndex, args).at;
      && d.states[at].resType < 2
      && Given(d, DoAlloc(d, id, resName, fixedIndex, args), id, d.states[at].resType, d.states[at].arrayIndex)
  {
    hide Layout, AllocOutcomeOf, GetOwner, Owned;
    var d' := DoAlloc(d, id, resName, fixedIndex, args);
    AllocShape(d, id, resName, fixedIndex, args);
    AllocChanges(d, id, resName, fixedIndex, args);
    assert ListsOk(d, d.vdevs[id]);
    forall v: nat, u: nat | u < 2
      ensures var o := AllocOutcomeOf(d.Defs(), d.states, resName, fixedIndex, args);
        Owned(d', v, u) == if v == id && u == d.states[o.at].resType then Owned(d, v, u) + {d.states[o.at].arrayIndex as int} else Owned(d, v, u)
    {
      AllocOwned(d, id, resName, fixedIndex, args, v, u);
    }
    AllocOwned(d, id, resName, fixedIndex, args, id, 0);
  }

  lemma AllocChanges(d: Dev, id: nat, resName: string, fixedIndex: int, args: Filters)
    requires Shape(d) && d.live && id in d.vdevs && !d.IsOpen(id)
    requires AllocOutcomeOf(d.Defs(), d.states, resName, fixedIndex, args).Seized?
    ensures DoAlloc(d, id, resName, fixedIndex, args) != d
  {
    hide Layout, AllocOutcomeOf;
    var o := AllocOutcomeOf(d.Defs(), d.states, resName, fixedIndex, args);
    AllocTarget(d.Defs(), d.states, resName, fixedIndex, args);
    assert DoAlloc(d, id, resName, fixedIndex, args).states[o.at].owner == id;
  }

  predicate Unused(d: Dev, t: nat, x: int)
    requires Shape(d)
  {
    Resource(d.Defs(), t, x) && GetOwner(d.Defs(), d.states, t, x) == Unowned
  }

  predicate Allocates(d: Dev, id: nat) { d.live && id in d.vdevs && !d.IsOpen(id) }

  /** An allocation by index gives a closed VIRT_DEV the resource of that type and index if
      there is one that nobody owns, and otherwise changes nothing. */
  lemma AllocByIndex(d0: Dev, ops: seq<Op>, id: nat, t: nat, index: int, args: Filters)
    requires Start(d0) && t < 2 && index != MODAC_RM_ALLOC_FROM_POOL
    ensures var d := Run(d0, ops);
      var d' := Step(d, Op.Alloc(id, NameOf(t), index, args));
      if Allocates(d, id) && Unused(d, t, index) then Given(d, d', id, t, index) else d' == d
  {
    hide Run, Start, Layout, Given, DoAlloc;
    IndexStep(Run(d0, ops), id, t, index, args);
  }

  lemma IndexStep(d: Dev, id: nat, t: nat, index: int, args: Filters)
    requires Shape(d) && t < 2 && index != MODAC_RM_ALLOC_FROM_POOL
    ensures var d' := DoAlloc(d, id, NameOf(t), index, args);
      if Allocates(d, id) && Unused(d, t, index) then Given(d, d', id, t, index) else d' == d
  {
    hide Layout, Given, AllocOutcomeOf, GetOwner, Rm.NamesDiffer;
    NamesTell(d);
    FixedTakesTheOne(d.Defs(), d.states, NameOf(t), index, args);
    if Allocates(d, id) {
      if Unused(d, t, index) {
        PlaceHolds(d.Defs(), d.states, t, index);
        SeizedIsGiven(d, id, NameOf(t), index, args);
      } else {
        OtherName(d, t);
      }
    }
  }

  lemma OtherName(d: Dev, t: nat)
    requires t < 2
    ensures forall u | 0 <= u < 2 && d.Defs()[u].name == NameOf(t) :: u == t
  {
    NamesTell(d);
  }

  /** A free pulse generator that has the bits asked for. */
  predicate Suits(d: Dev, x: int, args: Filters)
    requires Shape(d)
  {
    Unused(d, 0, x) && Meets(d.pulsegens[x], args)
  }

  /** No other that suits wastes fewer bits, and none before it as few. */
  predicate BestOf(d: Dev, x: nat, args: Filters)
    requires Shape(d)
  {
    && Suits(d, x, args)
    && forall y | 0 <= y < |d.pulsegens| && Suits(d, y, args) ::
         if y < x then Surplus(d.pulsegens[x], args) < Surplus(d.pulsegens[y], args)
         else Surplus(d.pulsegens[x], args) <= Surplus(d.pulsegens[y], args)
  }

  lemma FreeFits(d: Dev, j: nat, args: Filters)
    requires Shape(d) && j < |d.states|
    ensures FreeFit(d.Defs(), d.states[j], NameOf(0), d.pulsegens, args)
            <==> d.states[j].resType == 0 && j == d.states[j].arrayIndex && Suits(d, j, args)
  {
    NamesTell(d);
    var s := d.states[j];
    assert Resource(d.Defs(), s.resType, s.arrayIndex) && j == PlaceOf(d.Defs(), s.resType, s.arrayIndex);
  }

  lemma PulsesFirst(d: Dev, x: nat)
    requires Shape(d) && x < |d.pulsegens|
    ensures x < |d.states| && d.states[x].resType == 0 && d.states[x].arrayIndex == x
  {
    PlaceHolds(d.Defs(), d.states, 0, x);
  }

  lemma PoolStep(d: Dev, id: nat, args: Filters)
    requires Shape(d)
    ensures var d' := DoAlloc(d, id, NameOf(0), MODAC_RM_ALLOC_FROM_POOL, args);
      if Allocates(d, id) && exists x: nat :: Suits(d, x, args) then exists x: nat :: BestOf(d, x, args) && Given(d, d', id, 0, x)
      else d' == d
  {
    hide Layout, Given, AllocOutcomeOf, Suits, FreeFit, Surplus;
    var d' := DoAlloc(d, id, NameOf(0), MODAC_RM_ALLOC_FROM_POOL, args);
    var o := AllocOutcomeOf(d.Defs(), d.states, NameOf(0), MODAC_RM_ALLOC_FROM_POOL, args);
    OtherName(d, 0);
    PoolTakesBestFit(d.Defs(), d.states, NameOf(0), d.pulsegens, args);
    forall j: nat | j < |d.states|
      ensures FreeFit(d.Defs(), d.states[j], NameOf(0), d.pulsegens, args)
              <==> d.states[j].resType == 0 && j == d.states[j].arrayIndex && Suits(d, j, args)
    {
      FreeFits(d, j, args);
    }
    forall y: nat | Suits(d, y, args)
      ensures y < |d.states| && d.states[y].arrayIndex == y && FreeFit(d.Defs(), d.states[y], NameOf(0), d.pulsegens, args)
    {
      SuitsIsPulse(d, y, args);
      PulsesFirst(d, y);
    }
    if Allocates(d, id) && o.Seized? {
      SeizedIsGiven(d, id, NameOf(0), MODAC_RM_ALLOC_FROM_POOL, args);
      SuitsIsPulse(d, o.at, args);
      assert BestOf(d, o.at, args);
    }
  }

  lemma SuitsIsPulse(d: Dev, x: int, args: Filters)
    requires Shape(d) && Suits(d, x, args)
    ensures 0 <= x < |d.pulsegens|
  {
  }

  /** An allocation from the pool gives a closed VIRT_DEV, with the bits that the call asks
      for, the pulse generator that nobody owns and that fits best, and changes nothing if
      none fits. */
  lemma AllocFromPool(d0: Dev, ops: seq<Op>, id: nat, args: Filters)
    requires Start(d0)
    ensures var d := Run(d0, ops);
      var d' := Step(d, Op.Alloc(id, NameOf(0), MODAC_RM_ALLOC_FROM_POOL, args));
      if Allocates(d, id) && exists x: nat :: Suits(d, x, args) then exists x: nat :: BestOf(d, x, args) && Given(d, d', id, 0, x)
      else d' == d
  {
    hide Run, Start, Layout, Given, DoAlloc, BestOf, Suits;
    PoolStep(Run(d0, ops), id, args);
  }

  /** There is no pool of outputs, and nothing else has a name. */
  lemma NothingToAllocate(d0: Dev, ops: seq<Op>, id: nat, resName: string, index: int, args: Filters)
    requires Start(d0) && resName != NameOf(0)
    requires index == MODAC_RM_ALLOC_FROM_POOL || resName != NameOf(1)
    ensures Step(Run(d0, ops), Op.Alloc(id, resName, index, args)) == Run(d0, ops)
  {
    hide Run, Start, Layout, Best, FirstFixed;
    var d := Run(d0, ops);
    NamesTell(d);
    if index == MODAC_RM_ALLOC_FROM_POOL {
      BestSpec(d.Defs(), d.states, resName, args, |d.states|);
    } else {
      FirstFixedSpec(d.Defs(), d.states, resName, index, 0);
    }
  }

  /** What a VIRT_DEV had when it was destroyed can be allocated again. */
  lemma DestroyedIsFree(d0: Dev, ops: seq<Op>, id: Subscriber, granted: bool, other: nat, t: nat, x: nat, args: Filters)
    requires Start(d0) && t < 2 && other != id
    requires var d := Run(d0, ops);
      d.live && id in d.vdevs && !d.IsOpen(id) && d.opening != id && Allocates(d, other) && x in Owned(d, id, t)
    ensures var d' := Run(d0, ops + [Op.Destroy(id, granted)]);
      other in d'.vdevs && Given(d', Step(d', Op.Alloc(other, NameOf(t), x, args)), other, t, x)
  {
    hide Run, Start, Layout, Given, DoDestroy, DoAlloc;
    RunAppend(d0, ops, Op.Destroy(id, granted));
    DestroyDestroys(d0, ops, id, granted);
    AllocByIndex(d0, ops + [Op.Destroy(id, granted)], other, t, x, args);
  }

  // ----- resetting, and leaving as it is

  /** A reset makes the pulse generators in the list of the VIRT_DEV idle and leaves the
      others alone; without the device or the VIRT_DEV it changes nothing. */
  lemma HwResetIdles(d0: Dev, ops: seq<Op>, id: nat, q: PulseIndex)
    requires Start(d0)
    ensures var d := Run(d0, ops);
      var d' := Step(d, Op.HwReset(id));
      if d.live && id in d.vdevs then
        assert ListsOk(d, d.vdevs[id]);
        d' == d.(hw := d'.hw) && if q in d.vdevs[id].lists[0] then Idle(d'.hw, q) else SamePulse(d.hw, d'.hw, q)
      else d' == d
  {
    hide Run, Start, Layout, Idle, SamePulse, Step, Flushed;
    HardwareFollows(d0, ops);
    HwResetStep(Run(d0, ops), id, q);
  }

  lemma HwResetStep(d: Dev, id: nat, q: PulseIndex)
    requires Shape(d) && Flushed(d.hw)
    ensures var d' := Step(d, Op.HwReset(id));
      if d.live && id in d.vdevs then
        assert ListsOk(d, d.vdevs[id]);
        d' == d.(hw := d'.hw) && if q in d.vdevs[id].lists[0] then Idle(d'.hw, q) else SamePulse(d.hw, d'.hw, q)
      else d' == d
  {
    hide Layout, Idle, SamePulse, InitAllRes, Flushed;
    if d.live && id in d.vdevs {
      assert ListsOk(d, d.vdevs[id]);
      InitAllResSpares(d, id, q);
      if q in d.vdevs[id].lists[0] {
        InitAllResIdles(d, id, q);
      }
    }
  }

  /** Whether the resources of id are to be left at its last close, told from the calls
      since it was created. */
  ghost predicate ToBeLeft(d0: Dev, ops: seq<Op>, id: nat)
    requires Start(d0)
  {
    if ops == [] then false
    else
      var before, last := Run(d0, ops[..|ops| - 1]), ops[|ops| - 1];
      if id !in before.vdevs then false
      else if last.SetLeave? && last.id == id && before.live then last.leave
      else ToBeLeft(d0, ops[..|ops| - 1], id)
  }

  lemma StepLeave(d: Dev, op: Op, id: nat)
    requires Shape(d) && id in Step(d, op).vdevs
    ensures Step(d, op).vdevs[id].leaveResSet
         == if id !in d.vdevs then false
            else if op.SetLeave? && op.id == id && d.live then op.leave
            else d.vdevs[id].leaveResSet
  {
    hide OnSubscribeChange, InitAllRes, InitCard, DoCommand, Layout, RemoveAll, FreeOwner, AllocOutcomeOf, HeaderOk, MayUse;
  }

  lemma {:induction false} LeaveIsLastSet(d0: Dev, ops: seq<Op>, id: nat)
    requires Start(d0) && id in Run(d0, ops).vdevs
    ensures Run(d0, ops).vdevs[id].leaveResSet <==> ToBeLeft(d0, ops, id)
  {
    hide Step, Ready;
    if ops != [] {
      var before := ops[..|ops| - 1];
      if id in Run(d0, before).vdevs {
        LeaveIsLastSet(d0, before, id);
      }
      StepLeave(Run(d0, before), ops[|ops| - 1], id);
    }
  }
}
