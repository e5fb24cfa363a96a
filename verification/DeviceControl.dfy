/** The registers that govern the whole card, over whole runs of the device: CTRL, the
    data buffer control, the bridge, and the internal functions of the MAP RAM. */
module DeviceControl {
  import opened Words
  import opened Evr
  import opened EvrCard
  import opened EvrEffects
  import opened EventList
  import opened Rm
  import opened Device
  import opened DeviceTable
  import opened DeviceHw

  /** Nothing that governs the whole card differs, apart from which bank of the MAP RAM is
      in use. */
  predicate SameControl(a: Hw, b: Hw) {
    && b.bridge == a.bridge && b.irqEnabled == a.irqEnabled
    && OtherCtrl(b.regs) == OtherCtrl(a.regs)
    && (C_EVR_CTRL_MAP_RAM_ENABLE in Read(a.regs, EVR_REG_CTRL) ==> C_EVR_CTRL_MAP_RAM_ENABLE in Read(b.regs, EVR_REG_CTRL))
    && Read(b.regs, EVR_REG_IRQEN) == Read(a.regs, EVR_REG_IRQEN)
    && Read(b.regs, EVR_REG_PCIE_INT_SLAC) == Read(a.regs, EVR_REG_PCIE_INT_SLAC)
    && Read(b.regs, EVR_REG_DATA_BUF_CTRL) == Read(a.regs, EVR_REG_DATA_BUF_CTRL)
    && (FunctionsSet(a.ram) ==> FunctionsSet(b.ram))
  }

  lemma FlushControl(hw: Hw)
    ensures SameControl(hw, Flush(hw))
  {
    hide FlushWrites, FunctionsSet;
    FlushOtherCtrl(hw);
    FlushKeepsCtrl(hw.regs, hw.ram);
    FlushFrame(hw.regs, hw.ram, EVR_REG_IRQEN);
    FlushFrame(hw.regs, hw.ram, EVR_REG_PCIE_INT_SLAC);
    FlushFrame(hw.regs, hw.ram, EVR_REG_DATA_BUF_CTRL);
  }

  lemma SetMapFunctions(ram: MapRam, p: PulseIndex, first: nat, actions: seq<BitSet8>)
    requires first + |actions| <= EVR_MAPRAM_EVENT_CODES
    ensures FunctionsSet(ram) ==> FunctionsSet(SetMap(ram, p, first, actions))
  {
  }

  /** Writing to the registers of pulse generators and to the actions of one. */
  lemma PulseControl(hw: Hw, regs: Regs, p: PulseIndex, first: nat, actions: seq<BitSet8>)
    requires first + |actions| <= EVR_MAPRAM_EVENT_CODES
    requires forall a: nat | a < EVR_REG_PULSES :: Read(regs, a) == Read(hw.regs, a)
    ensures SameControl(hw, hw.(regs := regs))
    ensures SameControl(hw, Flush(hw.(regs := regs, ram := SetMap(hw.ram, p, first, actions))))
  {
    hide Flush, FunctionsSet, SetMap;
    SetMapFunctions(hw.ram, p, first, actions);
    FlushControl(hw.(regs := regs, ram := SetMap(hw.ram, p, first, actions)));
  }

  lemma CommandControl(hw: Hw, pulsegens: PulseTable, resType: ResType, index: int, cmd: Command)
    requires cmd.Valid()
    ensures SameControl(hw, DoCommand(hw, pulsegens, resType, index, cmd).0)
  {
    hide SameControl, Flush, SetMap, TooLarge, PropWord;
    if resType.PulseGen? && 0 <= index < |pulsegens| {
      match cmd
      case ParamSet(prescaler, delay, width) =>
        PulseControl(hw, hw.regs, 0, 0, []);
        PulseControl(hw, SetPulseParams(hw.regs, index, prescaler, delay, width), 0, 0, []);
      case PropSet(enable, polarity, cfg) =>
        PulseControl(hw, PulsePropSet(hw, index, enable, polarity, cfg).regs, 0, 0, []);
      case MapSet(all) => PulseControl(hw, hw.regs, index, 0, all);
      case MapSetForEvent(event, one) => PulseControl(hw, hw.regs, index, event, [one]);
      case Get => PulseControl(hw, hw.regs, 0, 0, []);
    } else {
      PulseControl(hw, hw.regs, 0, 0, []);
    }
  }

  lemma InitResControl(hw: Hw, resType: ResType, p: nat)
    requires resType.PulseGen? ==> p < EVR_MAX_PULSEGEN_COUNT
    ensures SameControl(hw, InitRes(hw, resType, p))
  {
    hide Flush, SetMap, FunctionsSet;
    if resType.PulseGen? {
      PulseControl(hw, ClearPulse(hw.regs, p), p, 0, seq(EVR_MAPRAM_EVENT_CODES, _ => {}));
    }
  }

  lemma {:induction false} InitListedControl(hw: Hw, t: nat, indices: seq<nat>, n: nat)
    requires n <= |indices|
    requires t == 0 ==> forall j | 0 <= j < n :: indices[j] < EVR_MAX_PULSEGEN_COUNT
    ensures SameControl(hw, InitListed(hw, t, indices, n))
  {
    hide InitRes, FunctionsSet;
    if n > 0 {
      InitListedControl(hw, t, indices, n - 1);
      InitResControl(InitListed(hw, t, indices, n - 1), TypeOf(t), indices[n - 1]);
    }
  }

  lemma InitAllResControl(d: Dev, id: nat)
    requires Shape(d) && id in d.vdevs
    ensures SameControl(d.hw, InitAllRes(d, id))
  {
    hide InitListed, FunctionsSet;
    var v := d.vdevs[id];
    assert ListsOk(d, v);
    InitListedControl(d.hw, 0, v.lists[0], |v.lists[0]|);
    InitListedControl(InitListed(d.hw, 0, v.lists[0], |v.lists[0]|), 1, v.lists[1], |v.lists[1]|);
  }

  lemma InitControl(hw: Hw, count: nat)
    ensures SameControl(OutputsEnabled(hw), InitCard(hw, count))
    ensures FunctionsSet(InitCard(hw, count).ram)
    ensures C_EVR_CTRL_MAP_RAM_ENABLE in Read(InitCard(hw, count).regs, EVR_REG_CTRL)
  {
    hide ClearPulses, Flush, FunctionsSet, OtherCtrl;
    var cleared := hw.(regs := ClearPulses(hw.regs, count));
    ClearPulsesFrame(hw.regs, count, EVR_REG_CTRL);
    ClearPulsesFrame(hw.regs, count, EVR_REG_IRQEN);
    ClearPulsesFrame(hw.regs, count, EVR_REG_PCIE_INT_SLAC);
    ClearPulsesFrame(hw.regs, count, EVR_REG_DATA_BUF_CTRL);
    InitialFunctions({});
    InitOtherCtrl(hw, count);
    OutputsOther(hw);
    FlushControl(cleared.(ram := InitialRam()));
    FlushEnables(cleared.(ram := InitialRam()));
  }

  lemma OutputsOther(hw: Hw)
    ensures OtherCtrl(OutputsEnabled(hw).regs) == OtherCtrl(hw.regs) + {C_EVR_CTRL_OUTEN}
  {
  }

  lemma FlushEnables(hw: Hw)
    ensures C_EVR_CTRL_MAP_RAM_ENABLE in Read(Flush(hw).regs, EVR_REG_CTRL) && Flush(hw).ram == hw.ram
  {
    hide FlushWrites;
    FlushKeepsCtrl(hw.regs, hw.ram);
  }

  // ----- the steps

  predicate Initialises(d: Dev, op: Op)
    requires Shape(d)
  {
    op.Init? && InitRuns(d, op.id, op.header)
  }

  /** The card at the refresh that a call ends with. */
  function BeforeRefresh(d: Dev, op: Op): Hw
    requires Shape(d) && Refreshes(d, op)
  {
    if op.Close? then HwOnLastClose(d, op.id) else d.hw
  }

  lemma RefreshIs(d: Dev, op: Op)
    requires Shape(d) && TableInv(d) && Refreshes(d, op)
    ensures op.Subscribe? || op.Close? || op.Destroy?
    ensures Step(d, op).hw == OnSubscribeChange(BeforeRefresh(d, op), Union(Step(d, op).table), op.granted)
    ensures SameControl(d.hw, BeforeRefresh(d, op)) && d.live && Step(d, op).live
  {
    hide OnSubscribeChange, Layout, RemoveAll, RemoveSubscriber, InitAllRes, FunctionsSet;
    match op
    case Subscribe(id, event, action, granted) => AddNeverFull(d, id, event);
    case Close(id, granted) => InitAllResControl(d, id);
    case Destroy(id, granted) =>
  }

  lemma QuietControl(d: Dev, op: Op)
    requires Shape(d) && TableInv(d) && !Refreshes(d, op) && !Initialises(d, op)
    ensures SameControl(d.hw, Step(d, op).hw)
    ensures Step(d, op).live ==> d.live && Union(Step(d, op).table) == Union(d.table)
  {
    hide OnSubscribeChange, Layout, InitAllRes, FunctionsSet, DoCommand, InitCard;
    if op.Subscribe? {
      IdleSubscribe(d, op);
    } else {
      match op
      case Ioctl(id, relType, relIndex, cmd) =>
        if Step(d, op).hw != d.hw {
          var r := VresDesc(d.vdevs[id], relType, relIndex);
          CommandControl(d.hw, d.pulsegens, TypeOf(r.t), r.x, cmd);
        }
      case HwReset(id) =>
        if d.live && id in d.vdevs {
          InitAllResControl(d, id);
        }
      case _ =>
    }
  }

  // ----- CTRL and the internal functions

  /** Whether an INIT has run. */
  ghost predicate Initialised(d0: Dev, ops: seq<Op>)
    requires Start(d0)
  {
    ops != [] && (Initialises(Run(d0, ops[..|ops| - 1]), ops[|ops| - 1]) || Initialised(d0, ops[..|ops| - 1]))
  }

  /** What every step keeps: the MAP RAM enabled and each internal function at its code. */
  predicate Working(hw: Hw) { C_EVR_CTRL_MAP_RAM_ENABLE in Read(hw.regs, EVR_REG_CTRL) && FunctionsSet(hw.ram) }

  lemma StepCtrl(d: Dev, op: Op)
    requires Shape(d) && TableInv(d)
    ensures OtherCtrl(Step(d, op).hw.regs) == OtherCtrl(d.hw.regs) + if Initialises(d, op) then {C_EVR_CTRL_OUTEN} else {}
    ensures Working(d.hw) ==> Working(Step(d, op).hw)
  {
    hide OnSubscribeChange, Layout, FunctionsSet, InitCard, InitRuns, Refreshes, Union, TableInv;
    if Initialises(d, op) {
      InitOtherCtrl(d.hw, |d.pulsegens|);
      InitControl(d.hw, |d.pulsegens|);
    } else if Refreshes(d, op) {
      RefreshIs(d, op);
      RefreshOtherCtrl(BeforeRefresh(d, op), Union(Step(d, op).table), op.granted);
      RefreshEnablesRam(BeforeRefresh(d, op), Union(Step(d, op).table), op.granted);
      if Working(d.hw) {
        RefreshFunctions(BeforeRefresh(d, op), Union(Step(d, op).table), op.granted);
      }
    } else {
      QuietControl(d, op);
    }
  }

  /** In every run CTRL is as it was at the start, but for the bank in use, and for the
      outputs, which are enabled if and only if they were or an INIT has run since. */
  lemma {:induction false} CtrlOverRuns(d0: Dev, ops: seq<Op>)
    requires Start(d0)
    ensures OtherCtrl(Run(d0, ops).hw.regs)
         == OtherCtrl(d0.hw.regs) + if Initialised(d0, ops) then {C_EVR_CTRL_OUTEN} else {}
    ensures Working(Run(d0, ops).hw)
  {
    hide Step, OtherCtrl, Initialises, FunctionsSet, TableInv;
    if ops != [] {
      CtrlOverRuns(d0, ops[..|ops| - 1]);
      RunTableInv(d0, ops[..|ops| - 1]);
      StepCtrl(Run(d0, ops[..|ops| - 1]), ops[|ops| - 1]);
    }
  }

  lemma {:induction false} InitialisedStays(d0: Dev, ops: seq<Op>, more: seq<Op>)
    requires Start(d0) && Initialised(d0, ops)
    ensures Initialised(d0, ops + more)
  {
    if more == [] {
      assert ops + more == ops;
    } else {
      InitialisedStays(d0, ops, more[..|more| - 1]);
      assert (ops + more)[..|ops + more| - 1] == ops + more[..|more| - 1];
    }
  }

  /** A bit of CTRL that is set, other than those of the banks, is never cleared: above all
      the outputs that INIT has enabled stay enabled, whoever does what. */
  lemma CtrlBitsStay(d0: Dev, ops: seq<Op>, more: seq<Op>, b: nat)
    requires Start(d0) && b != C_EVR_CTRL_MAP_RAM_ENABLE && b != C_EVR_CTRL_MAP_RAM_SELECT
    requires b in Read(Run(d0, ops).hw.regs, EVR_REG_CTRL)
    ensures b in Read(Run(d0, ops + more).hw.regs, EVR_REG_CTRL)
  {
    hide Run, Initialised, Start, Working;
    CtrlOverRuns(d0, ops);
    CtrlOverRuns(d0, ops + more);
    assert b in OtherCtrl(Run(d0, ops).hw.regs);
    if Initialised(d0, ops) {
      InitialisedStays(d0, ops, more);
    }
    assert b in OtherCtrl(Run(d0, ops + more).hw.regs);
  }

  /** In every run the hardware does each internal function at its code and nowhere else;
      the saving of codes, which follows the subscriptions, is a function too. */
  lemma FunctionsOverRuns(d0: Dev, ops: seq<Op>, code: nat, b: nat)
    requires Start(d0) && code < EVR_MAPRAM_EVENT_CODES && b < 32 && b != C_EVR_MAP_SAVE_EVENT
    ensures b in ActiveWord(Run(d0, ops).hw, code, EVR_REG_MAPRAM_INT_FUNC_OFFSET) <==> Causes(code, b)
  {
    hide Run, Start, OtherCtrl, ActiveWord, ActiveRam;
    CtrlOverRuns(d0, ops);
    HardwareFollows(d0, ops);
    ActiveWords(Run(d0, ops).hw, code);
  }

  // ----- the data buffer and the bridge

  ghost predicate ControlFollows(d0: Dev, ops: seq<Op>)
    requires Start(d0)
  {
    var d := Run(d0, ops);
    d.live ==>
      && DataBufferInStep(d.hw, Union(d.table))
      && (d.hw.irqEnabled <==> Union(d.table) != {})
  }

  lemma RefreshControl(d: Dev, op: Op)
    requires Shape(d) && TableInv(d) && Refreshes(d, op)
    requires IrqInSync(d.hw, Union(d.table)) && DataBufferInStep(d.hw, Union(d.table))
    ensures var d' := Step(d, op);
      DataBufferInStep(d'.hw, Union(d'.table)) && (d'.hw.irqEnabled <==> Union(d'.table) != {})
  {
    hide OnSubscribeChange, Step, Union, FunctionsSet, Refreshes, HwOnLastClose, IrqBits;
    RefreshIs(d, op);
    RefreshDataBuffer(BeforeRefresh(d, op), Union(d.table), Union(Step(d, op).table), op.granted);
    RefreshBridge(BeforeRefresh(d, op), Union(Step(d, op).table), op.granted);
  }

  /** In every run, while the device is there, the data buffer is switched on exactly if
      its event has a subscriber, and the bridge has been asked for interrupts exactly if
      any event has. */
  lemma {:induction false} ControlOverRuns(d0: Dev, ops: seq<Op>)
    requires Start(d0)
    ensures ControlFollows(d0, ops)
  {
    hide Step, Union, FunctionsSet, Refreshes, Initialises, TableInv, InitCard, InSync;
    if ops == [] {
      StartControl(d0);
    } else {
      var before, op := ops[..|ops| - 1], ops[|ops| - 1];
      var d := Run(d0, before);
      ControlOverRuns(d0, before);
      HardwareFollows(d0, before);
      RunTableInv(d0, before);
      if Refreshes(d, op) {
        RefreshIs(d, op);
        RefreshControl(d, op);
      } else if Initialises(d, op) {
        InitStep(d, op);
      } else {
        QuietControl(d, op);
      }
    }
  }

  lemma InitStep(d: Dev, op: Op)
    requires Shape(d) && Initialises(d, op)
    ensures Step(d, op) == d.(hw := Step(d, op).hw)
    ensures SameControl(OutputsEnabled(d.hw), Step(d, op).hw)
  {
    hide InitCard, FunctionsSet;
    InitControl(d.hw, |d.pulsegens|);
  }

  lemma EmptyUnion()
    ensures Union(EmptyTable()) == {}
  {
  }

  lemma StartControl(d0: Dev)
    requires Start(d0)
    ensures ControlFollows(d0, [])
  {
    EmptyUnion();
  }

  /** Whether the system granted the request of the latest refresh that had to ask for
      interrupts. */
  ghost predicate Granted(d0: Dev, ops: seq<Op>)
    requires Start(d0)
  {
    if ops == [] then false
    else
      var d, last := Run(d0, ops[..|ops| - 1]), ops[|ops| - 1];
      if Refreshes(d, last) && Union(d.table) == {} && Union(Step(d, last).table) != {} then last.granted
      else Granted(d0, ops[..|ops| - 1])
  }

  lemma SameBridge(a: Hw, b: Hw)
    requires SameControl(a, b)
    ensures BridgeOn(b) <==> BridgeOn(a)
  {
  }

  lemma RefreshBridgeStep(d: Dev, op: Op, granted: bool)
    requires Shape(d) && TableInv(d) && Refreshes(d, op) && !d.hw.bridge.Plain?
    requires d.hw.irqEnabled <==> Union(d.table) != {}
    requires BridgeOn(d.hw) <==> Union(d.table) != {} && granted
    ensures var d' := Step(d, op);
      && d'.hw.bridge == d.hw.bridge
      && (BridgeOn(d'.hw) <==>
            Union(d'.table) != {} && if Union(d.table) == {} && Union(d'.table) != {} then op.granted else granted)
  {
    hide OnSubscribeChange, Step, Union, FunctionsSet, Refreshes, HwOnLastClose, BridgeOn;
    RefreshIs(d, op);
    SameBridge(d.hw, BeforeRefresh(d, op));
    RefreshBridge(BeforeRefresh(d, op), Union(Step(d, op).table), op.granted);
  }

  /** In every run, while the device is there, a bridge that is off at the start is on if
      and only if an event has a subscriber and the system has granted the interrupt. */
  lemma {:induction false} BridgeOverRuns(d0: Dev, ops: seq<Op>)
    requires Start(d0) && !d0.hw.bridge.Plain? && !BridgeOn(d0.hw) && Run(d0, ops).live
    ensures var d := Run(d0, ops);
      && d.hw.bridge == d0.hw.bridge
      && (BridgeOn(d.hw) <==> Union(d.table) != {} && Granted(d0, ops))
  {
    hide Step, Union, FunctionsSet, Refreshes, Initialises, TableInv, InitCard, InSync, BridgeOn, OutputsEnabled;
    if ops != [] {
      var before, op := ops[..|ops| - 1], ops[|ops| - 1];
      var d := Run(d0, before);
      RunTableInv(d0, before);
      ControlOverRuns(d0, before);
      if Refreshes(d, op) {
        RefreshIs(d, op);
        BridgeOverRuns(d0, before);
        RefreshBridgeStep(d, op, Granted(d0, before));
      } else if Initialises(d, op) {
        InitStep(d, op);
        BridgeOverRuns(d0, before);
        SameBridge(OutputsEnabled(d.hw), Step(d, op).hw);
        OutputsBridge(d.hw);
      } else {
        QuietControl(d, op);
        BridgeOverRuns(d0, before);
        SameBridge(d.hw, Step(d, op).hw);
      }
    }
  }

  lemma OutputsBridge(hw: Hw)
    ensures BridgeOn(OutputsEnabled(hw)) <==> BridgeOn(hw)
    ensures OutputsEnabled(hw).bridge == hw.bridge
  {
  }
}
