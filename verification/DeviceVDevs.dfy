/** The VIRT_DEVs themselves over whole runs of the device: their names, how often
    they are open, in which state one is created and one is left. */
module DeviceVDevs {
  import opened Evr
  import opened EvrCard
  import opened EvrEffects
  import opened EventList
  import opened Rm
  import opened Device
  import opened DeviceTable
  import opened DeviceOwners
  import opened DeviceHw

  // ----- until the device is unplugged

  lemma StepLive(d: Dev, op: Op)
    requires Shape(d)
    ensures Step(d, op).live <==> d.live && !op.Unplug?
  {
    hide OnSubscribeChange, InitAllRes, InitCard, DoCommand, Layout, RemoveAll, FreeOwner, AllocOutcomeOf, HeaderOk, MayUse;
  }

  /** The device is there until it is unplugged, and then never again. */
  lemma {:induction false} LiveUntilUnplugged(d0: Dev, ops: seq<Op>)
    requires Start(d0)
    ensures Run(d0, ops).live <==> Unplug !in ops
  {
    hide Step, Ready;
    if ops != [] {
      var before := ops[..|ops| - 1];
      LiveUntilUnplugged(d0, before);
      StepLive(Run(d0, before), ops[|ops| - 1]);
      assert ops == before + [ops[|ops| - 1]];
    }
  }

  lemma StepGone(d: Dev, op: Op)
    requires Shape(d) && !d.live
    ensures var d' := Step(d, op);
      && d'.hw == d.hw && d'.states == d.states && d'.calls == d.calls && d'.vdevs.Keys == d.vdevs.Keys
      && forall id | id in d.vdevs :: d'.vdevs[id] == d.vdevs[id].(usage := d'.vdevs[id].usage)
  {
    hide OnSubscribeChange, InitAllRes, InitCard, DoCommand, Layout, RemoveAll, FreeOwner, AllocOutcomeOf, HeaderOk, MayUse;
  }

  /** Once the device is unplugged no call touches the card, the owners or the VIRT_DEVs any
      more, but for the counting of files, and no event is handed on. */
  lemma {:induction false} UntouchedOnceGone(d0: Dev, ops: seq<Op>, more: seq<Op>)
    requires Start(d0) && Unplug in ops
    ensures var d, d' := Run(d0, ops), Run(d0, ops + more);
      && d'.hw == d.hw && d'.states == d.states && d'.calls == d.calls && d'.vdevs.Keys == d.vdevs.Keys
      && forall id | id in d.vdevs :: d'.vdevs[id] == d.vdevs[id].(usage := d'.vdevs[id].usage)
  {
    hide Step, Ready;
    if more == [] {
      assert ops + more == ops;
    } else {
      var upto := ops + more[..|more| - 1];
      UntouchedOnceGone(d0, ops, more[..|more| - 1]);
      assert (ops + more)[..|ops + more| - 1] == upto;
      LiveUntilUnplugged(d0, upto);
      StepGone(Run(d0, upto), more[|more| - 1]);
    }
  }

  // ----- names

  ghost predicate NamesDiffer(d: Dev) {
    forall a, b | a in d.vdevs && b in d.vdevs && a != b :: d.vdevs[a].name != d.vdevs[b].name
  }

  lemma StepNames(d: Dev, op: Op)
    requires Shape(d) && NamesDiffer(d)
    ensures NamesDiffer(Step(d, op))
  {
    hide OnSubscribeChange, InitAllRes, Layout, DoClose, DoSubscribe, DoIoctl, RemoveAll;
    if Quiet(op) {
      QuietStep(d, op);
    }
  }

  /** No two VIRT_DEVs of a device have the same name. */
  lemma {:induction false} RunNames(d0: Dev, ops: seq<Op>)
    requires Start(d0)
    ensures NamesDiffer(Run(d0, ops))
  {
    hide Step;
    if ops != [] {
      RunNames(d0, ops[..|ops| - 1]);
      StepNames(Run(d0, ops[..|ops| - 1]), ops[|ops| - 1]);
    }
  }

  /** A creation succeeds exactly when the device is there, the name is not used, the
      id asked for is free, or any is when none is asked for, and a node can be made.
      The new VIRT_DEV is closed, owns nothing and is subscribed to nothing. */
  lemma CreateGivesFreshVDev(d0: Dev, ops: seq<Op>, id: nat, name: string, nodeMade: bool)
    requires Start(d0)
    ensures var d := Run(d0, ops);
      var d' := DoCreate(d, id, name, nodeMade);
      var free := if id == 0 then FirstFreeId(d, 1) else id;
      && (d' != d ==>
            && d' == d.(vdevs := d.vdevs[free := VDev(name, [[], []], 0, false)])
            && free !in d.vdevs
            && (forall e: int :: free != 0 && !Subscribed(d'.table, free, e))
            && (forall t: nat | t < 2 :: Owned(d, free, t) == {}))
      && (d' != d <==>
            d.live && nodeMade && !NameUsed(d, name) && id <= MAX_VIRT_DEVS_PER_MNG_DEV
            && if id == 0 then exists k :: 1 <= k <= MAX_VIRT_DEVS_PER_MNG_DEV && k !in d.vdevs else id !in d.vdevs)
  {
    hide OnSubscribeChange, Layout, Step;
    var d := Run(d0, ops);
    var free := if id == 0 then FirstFreeId(d, 1) else id;
    RunTableInv(d0, ops);
    RunOwners(d0, ops);
    if DoCreate(d, id, name, nodeMade) != d {
      forall e: int ensures free != 0 && !Subscribed(d.table, free, e) {
        assert !d.IsOpen(free);
      }
      forall t: nat | t < 2 ensures Owned(d, free, t) == {} {
        UnknownOwnsNothing(d, free, t);
      }
    }
  }

  lemma UnknownOwnsNothing(d: Dev, id: nat, t: nat)
    requires OwnInv(d) && t < 2 && id !in d.vdevs
    ensures Owned(d, id, t) == {}
  {
    forall x | 0 <= x < d.Defs()[t].count ensures GetOwner(d.Defs(), d.states, t, x) != Owner(id) {
      assert Resource(d.Defs(), t, x);
    }
  }

  // ----- opens and closes

  /** Open files and opens under way, told from the calls alone. */
  ghost function OpenFiles(d0: Dev, ops: seq<Op>, id: nat): nat
    requires Start(d0)
  {
    if ops == [] then 0
    else
      var before, last := Run(d0, ops[..|ops| - 1]), ops[|ops| - 1];
      var n := OpenFiles(d0, ops[..|ops| - 1], id);
      match last
      case Open(i) => if i == id && before.live && id in before.vdevs && before.opening == 0 then n + 1 else n
      case Close(i, _) => if i == id && before.IsOpen(id) && n > 0 then n - 1 else n
      case _ => n
  }

  function UsageOf(d: Dev, id: nat): nat {
    (if id in d.vdevs then d.vdevs[id].usage else 0) + if d.opening == id && id != 0 then 1 else 0
  }

  predicate OpeningKnown(d: Dev) { d.opening == 0 || d.opening in d.vdevs }

  lemma StepOpening(d: Dev, op: Op)
    requires Shape(d) && OpeningKnown(d)
    ensures OpeningKnown(Step(d, op))
  {
    hide OnSubscribeChange, InitAllRes, InitCard, DoCommand, Layout, RemoveAll, FreeOwner, AllocOutcomeOf, HeaderOk, MayUse;
  }

  lemma StepUsage(d: Dev, op: Op, id: nat)
    requires Shape(d) && OpeningKnown(d)
    ensures UsageOf(Step(d, op), id) == match op
      case Open(i) => if i == id && d.live && id in d.vdevs && d.opening == 0 then UsageOf(d, id) + 1 else UsageOf(d, id)
      case Close(i, _) => if i == id && d.IsOpen(id) then UsageOf(d, id) - 1 else UsageOf(d, id)
      case _ => UsageOf(d, id)
  {
    hide OnSubscribeChange, InitAllRes, InitCard, DoCommand, Layout, RemoveAll, FreeOwner, AllocOutcomeOf, HeaderOk, MayUse;
  }

  /** In every run the usage counter of a VIRT_DEV, with the open that is on its way to
      be counted, is the number of its files that have been opened and not closed; an
      open that began before the device was unplugged is counted after it. */
  lemma {:induction false} UsageIsOpenFiles(d0: Dev, ops: seq<Op>, id: nat)
    requires Start(d0)
    ensures OpenFiles(d0, ops, id) == UsageOf(Run(d0, ops), id) && OpeningKnown(Run(d0, ops))
  {
    hide Step;
    if ops != [] {
      UsageIsOpenFiles(d0, ops[..|ops| - 1], id);
      StepOpening(Run(d0, ops[..|ops| - 1]), ops[|ops| - 1]);
      StepUsage(Run(d0, ops[..|ops| - 1]), ops[|ops| - 1], id);
    }
  }

  // ----- the last close

  lemma InitResIdles(hw: Hw, q: PulseIndex)
    ensures Idle(InitRes(hw, PulseGen, q), q)
  {
    var cleared := hw.(regs := ClearPulse(hw.regs, q), ram := NoActions(hw.ram, q));
    FlushMakesFlushed(cleared);
    forall offset: nat | offset in {0, 4, 8, 12} ensures Read(Flush(cleared).regs, PulseReg(q, offset)) == {} {
      FlushPulseFrame(cleared, q, offset);
    }
    forall k | 0 <= k < EVR_MAPRAM_EVENT_CODES ensures NoAction(cleared.ram[k], q) {}
  }

  lemma SameIsIdle(a: Hw, b: Hw, q: nat)
    requires SamePulse(a, b, q) && Idle(a, q)
    ensures Idle(b, q)
  {
    forall k | 0 <= k < EVR_MAPRAM_EVENT_CODES ensures NoAction(b.ram[k], q) && NoAction(ActiveRam(b.regs)[k], q) {
      assert NoAction(a.ram[k], q) && NoAction(ActiveRam(a.regs)[k], q);
    }
  }

  lemma {:induction false} InitListedIdles(hw: Hw, indices: seq<nat>, n: nat, q: PulseIndex)
    requires Flushed(hw) && n <= |indices| && q in indices[..n]
    requires forall j | 0 <= j < n :: indices[j] < EVR_MAX_PULSEGEN_COUNT
    ensures Idle(InitListed(hw, 0, indices, n), q)
  {
    hide Idle, SamePulse, SameMarks, InitRes, Flushed;
    var before := InitListed(hw, 0, indices, n - 1);
    if indices[n - 1] == q {
      InitResIdles(before, q);
    } else {
      assert q in indices[..n - 1];
      InitListedIdles(hw, indices, n - 1, q);
      InitListedFlushed(hw, indices, n - 1, q);
      InitResSpares(before, 0, indices[n - 1], q);
      SameIsIdle(before, InitListed(hw, 0, indices, n), q);
    }
  }

  lemma InitListedFlushed(hw: Hw, indices: seq<nat>, n: nat, q: PulseIndex)
    requires Flushed(hw) && n <= |indices|
    requires forall j | 0 <= j < n :: indices[j] < EVR_MAX_PULSEGEN_COUNT
    ensures Flushed(InitListed(hw, 0, indices, n))
  {
    InitListedSpares(hw, 0, indices, n, q);
  }

  lemma InitAllResIdles(d: Dev, id: nat, q: PulseIndex)
    requires Shape(d) && id in d.vdevs && Flushed(d.hw)
    requires |d.vdevs[id].lists| == 2 && q in d.vdevs[id].lists[0]
    ensures Idle(InitAllRes(d, id), q)
  {
    hide Idle, SamePulse;
    var list := d.vdevs[id].lists[0];
    assert ListsOk(d, d.vdevs[id]);
    assert list[..|list|] == list;
    var mid := InitListed(d.hw, 0, list, |list|);
    InitListedIdles(d.hw, list, |list|, q);
    InitListedSpares(d.hw, 0, list, |list|, q);
    InitListedSpares(mid, 1, d.vdevs[id].lists[1], |d.vdevs[id].lists[1]|, q);
    SameIsIdle(mid, InitAllRes(d, id), q);
  }

  /** The last close of a VIRT_DEV on a device that is there leaves each pulse
      generator in its list idle, or exactly as it was if it is to be left. */
  lemma LastCloseIdles(d0: Dev, ops: seq<Op>, id: nat, granted: bool, q: PulseIndex)
    requires Start(d0) && Run(d0, ops).live && LastClose(Run(d0, ops), id)
    requires |Run(d0, ops).vdevs[id].lists| == 2 && q in Run(d0, ops).vdevs[id].lists[0]
    ensures var d := Run(d0, ops);
      var d' := DoClose(d, id, granted);
      if d.vdevs[id].leaveResSet then SamePulse(d.hw, d'.hw, q) else Idle(d'.hw, q)
  {
    hide Idle, SamePulse, OnSubscribeChange, InitAllRes, RemoveAll, Step;
    var d := Run(d0, ops);
    HardwareFollows(d0, ops);
    InitAllResSpares(d, id, q);
    var closed := HwOnLastClose(d, id);
    RefreshSparesPulse(closed, Union(RemoveAll(d.table, id)), granted, q);
    if !d.vdevs[id].leaveResSet {
      InitAllResIdles(d, id, q);
      SameIsIdle(closed, DoClose(d, id, granted).hw, q);
    }
  }
}
