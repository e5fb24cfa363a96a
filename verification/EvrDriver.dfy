/** struct evr_hw_data and the code that works on it and on the registers, loop by
    loop. Every method is tied to the function of EvrCard that it computes. */
module EvrDriver {
  import opened Words
  import opened Evr
  import opened EvrCard
  import opened EventList

  class Card {
    var regs: Regs
    var mapRam: array<MapItem>
    var irqEnabled: bool
    const bridge: Bridge
    const pulsegens: PulseTable

    ghost predicate Valid()
      reads this
    {
      mapRam.Length == EVR_MAPRAM_EVENT_CODES
    }

    ghost function State(): Hw
      reads this, mapRam
      requires Valid()
    {
      Hw(regs, mapRam[..], bridge, irqEnabled)
    }

    /** The non-simulation part of hw_support_evr_init. */
    constructor (registers: Regs, bridge: Bridge, pulsegens: PulseTable)
      ensures Valid() && fresh(mapRam)
      ensures this.bridge == bridge && this.pulsegens == pulsegens
      ensures exists ram: MapRam :: State() == RamMapInit(Hw(registers, ram, bridge, false))
      ensures State().ram == InitialRam()
    {
      this.regs := registers;
      this.mapRam := new MapItem[EVR_MAPRAM_EVENT_CODES](_ => MapItem({}, {}, {}, {}));
      this.irqEnabled := false;
      this.bridge := bridge;
      this.pulsegens := pulsegens;
      new;
      ghost var ram: MapRam := mapRam[..];
      RamMapInitialize();
      assert State() == RamMapInit(Hw(registers, ram, bridge, false));
    }

    method WriteReg(address: nat, value: Word)
      modifies this`regs
      ensures regs == old(regs)[address := value]
    {
      regs := regs[address := value];
    }

    /** save_map_ram */
    method SaveMapRam(address: nat)
      requires Valid()
      modifies this`regs
      ensures regs == Apply(old(regs), SaveWrites(address, mapRam[..], EVR_MAPRAM_EVENT_CODES))
    {
      var i := 0;
      while i < EVR_MAPRAM_EVENT_CODES
        invariant 0 <= i <= EVR_MAPRAM_EVENT_CODES
        invariant regs == Apply(old(regs), SaveWrites(address, mapRam[..], i))
      {
        ghost var before := regs;
        WriteReg(address + i * EVR_REG_MAPRAM_SLOT_SIZE + EVR_REG_MAPRAM_CLEAR_OFFSET, mapRam[i].pulseClear);
        WriteReg(address + i * EVR_REG_MAPRAM_SLOT_SIZE + EVR_REG_MAPRAM_SET_OFFSET, mapRam[i].pulseSet);
        WriteReg(address + i * EVR_REG_MAPRAM_SLOT_SIZE + EVR_REG_MAPRAM_TRIGGET_OFFSET, mapRam[i].pulseTrigger);
        WriteReg(address + i * EVR_REG_MAPRAM_SLOT_SIZE + EVR_REG_MAPRAM_INT_FUNC_OFFSET, mapRam[i].intEvent);
        ApplyFour(before, address, i, mapRam[i]);
        ApplyConcat(old(regs), SaveWrites(address, mapRam[..], i), ItemWrites(address, i, mapRam[i]));
        i := i + 1;
      }
    }

    /** evr_ram_map_change_flush */
    method RamMapChangeFlush()
      requires Valid()
      modifies this`regs
      ensures State() == Flush(old(State()))
    {
      var ctrl := Read(regs, EVR_REG_CTRL);
      var newRamOffset :=
        if C_EVR_CTRL_MAP_RAM_SELECT in ctrl then EVR_REG_MAPRAM1 else EVR_REG_MAPRAM2;
      SaveMapRam(newRamOffset);
      var switched: Word := ctrl - {C_EVR_CTRL_MAP_RAM_ENABLE, C_EVR_CTRL_MAP_RAM_SELECT};
      switched := switched + {C_EVR_CTRL_MAP_RAM_ENABLE};
      if newRamOffset == EVR_REG_MAPRAM2 {
        switched := switched + {C_EVR_CTRL_MAP_RAM_SELECT};
      }
      assert switched == SwitchedCtrl(ctrl);
      ghost var saved := SaveWrites(newRamOffset, mapRam[..], EVR_MAPRAM_EVENT_CODES);
      WriteReg(EVR_REG_CTRL, switched);
      assert FlushWrites(old(regs), mapRam[..])[..|saved|] == saved;
    }

    /** evr_ram_map_init */
    method RamMapInitialize()
      requires Valid()
      modifies this`regs, mapRam
      ensures State() == RamMapInit(old(State()))
    {
      forall k | 0 <= k < mapRam.Length {
        mapRam[k] := MapItem({}, {}, {}, {});
      }
      mapRam[0x70] := mapRam[0x70].(intEvent := {0});
      mapRam[0x71] := mapRam[0x71].(intEvent := {1});
      mapRam[0x7a] := mapRam[0x7a].(intEvent := {5});
      mapRam[0x7b] := mapRam[0x7b].(intEvent := {4});
      mapRam[0x7c] := mapRam[0x7c].(intEvent := {2});
      mapRam[0x7d] := mapRam[0x7d].(intEvent := {3});
      assert mapRam[..] == InitialRam();
      RamMapChangeFlush();
    }

    method SetPulseParameters(p: nat, prescaler: Word, delay: Word, width: Word)
      modifies this`regs
      ensures regs == SetPulseParams(old(regs), p, prescaler, delay, width)
    {
      var start := EVR_REG_PULSES + EVR_REG_PULSE_SLOT_SIZE * p;
      WriteReg(start + EVR_REG_PULSE_PRESC_OFFSET, prescaler);
      WriteReg(start + EVR_REG_PULSE_DELAY_OFFSET, delay);
      WriteReg(start + EVR_REG_PULSE_WIDTH_OFFSET, width);
    }

    /** MNG_DEV_EVR_IOC_INIT */
    method Initialize()
      requires Valid()
      modifies this`regs, mapRam
      ensures State() == InitCard(old(State()), |pulsegens|)
    {
      hide RamMapInit, OutputsEnabled, SetPulseParams;
      var ipulse := 0;
      while ipulse < |pulsegens|
        invariant 0 <= ipulse <= |pulsegens|
        invariant regs == ClearPulses(old(regs), ipulse)
        invariant mapRam[..] == old(mapRam[..])
      {
        SetPulseParameters(ipulse, {}, {}, {});
        WriteReg(PulseReg(ipulse, EVR_REG_PULSE_CTRL_OFFSET), {});
        ipulse := ipulse + 1;
      }
      RamMapInitialize();
      OutputEnable();
    }

    /** evr_output_enable with a true state */
    method OutputEnable()
      requires Valid()
      modifies this`regs
      ensures State() == OutputsEnabled(old(State()))
    {
      var ctrl := Read(regs, EVR_REG_CTRL);
      WriteReg(EVR_REG_CTRL, ctrl + {C_EVR_CTRL_OUTEN});
    }

    /** The loop of the map-RAM set calls over the shadow. */
    method SetActionsInShadow(p: PulseIndex, first: nat, actions: seq<BitSet8>)
      requires Valid() && first + |actions| <= EVR_MAPRAM_EVENT_CODES
      modifies mapRam
      ensures mapRam[..] == SetMap(old(mapRam[..]), p, first, actions)
    {
      var i := 0;
      while i < |actions|
        invariant 0 <= i <= |actions|
        invariant mapRam[..] == SetMap(old(mapRam[..]), p, first, actions[..i])
      {
        var item := mapRam[first + i];
        item := item.(pulseClear := WithBit(item.pulseClear, p, EVR_PULSE_CFG_BIT_CLEAR in actions[i]));
        item := item.(pulseSet := WithBit(item.pulseSet, p, EVR_PULSE_CFG_BIT_SET in actions[i]));
        item := item.(pulseTrigger := WithBit(item.pulseTrigger, p, EVR_PULSE_CFG_BIT_TRIGGER in actions[i]));
        mapRam[first + i] := item;
        i := i + 1;
      }
      assert actions[..i] == actions;
    }

    /** The loop of the map-RAM get calls. */
    method GetActionsFromShadow(p: PulseIndex, first: nat, count: nat) returns (actions: seq<BitSet8>)
      requires Valid() && first + count <= EVR_MAPRAM_EVENT_CODES
      ensures actions == GetMap(mapRam[..], p, first, count)
    {
      actions := [];
      var i := 0;
      while i < count
        invariant 0 <= i <= count
        invariant actions == GetMap(mapRam[..], p, first, i)
      {
        var one: BitSet8 := {};
        if p in mapRam[first + i].pulseClear {
          one := one + {EVR_PULSE_CFG_BIT_CLEAR};
        }
        if p in mapRam[first + i].pulseSet {
          one := one + {EVR_PULSE_CFG_BIT_SET};
        }
        if p in mapRam[first + i].pulseTrigger {
          one := one + {EVR_PULSE_CFG_BIT_TRIGGER};
        }
        assert one == GetActions(mapRam[first + i], p);
        actions := actions + [one];
        i := i + 1;
      }
    }

    /** The calls of a VIRT_DEV in hw_support_evr_ioctl that set something. */
    method Ioctl(resType: ResType, index: int, cmd: Command) returns (code: Code)
      requires Valid() && cmd.Valid()
      modifies this`regs, mapRam
      ensures (State(), code) == DoCommand(old(State()), pulsegens, resType, index, cmd)
    {
      if !resType.PulseGen? {
        return Invalid;
      }
      if index < 0 || index >= |pulsegens| {
        return Invalid;
      }
      match cmd
      case ParamSet(prescaler, delay, width) =>
        if TooLarge(prescaler, pulsegens[index].prescaler) {
          return Invalid;
        }
        if TooLarge(delay, pulsegens[index].delay) {
          return Invalid;
        }
        if TooLarge(width, pulsegens[index].width) {
          return Invalid;
        }
        SetPulseParameters(index, prescaler, delay, width);
        return Ok;
      case PropSet(enable, polarity, cfg) =>
        var address := PulseReg(index, EVR_REG_PULSE_CTRL_OFFSET);
        WriteReg(address, PropWord(Read(regs, address), enable, polarity, cfg));
        return Ok;
      case MapSet(all) =>
        SetActionsInShadow(index, 0, all);
        RamMapChangeFlush();
        return Ok;
      case MapSetForEvent(event, one) =>
        SetActionsInShadow(index, event, [one]);
        RamMapChangeFlush();
        return Ok;
      case Get =>
        return Ok;
    }

    /** VEVR_IOC_PULSE_PARAM_GET */
    method ReadPulseParams(p: PulseIndex) returns (prescaler: Word, delay: Word, width: Word)
      requires Valid()
      ensures (prescaler, delay, width) == PulseParamGet(State(), p)
    {
      var start := EVR_REG_PULSES + EVR_REG_PULSE_SLOT_SIZE * p;
      prescaler := Read(regs, start + EVR_REG_PULSE_PRESC_OFFSET);
      delay := Read(regs, start + EVR_REG_PULSE_DELAY_OFFSET);
      width := Read(regs, start + EVR_REG_PULSE_WIDTH_OFFSET);
    }

    /** VEVR_IOC_PULSE_PROP_GET */
    method ReadPulseProps(p: PulseIndex) returns (enable: bool, polarity: bool, cfg: BitSet8)
      requires Valid()
      ensures (enable, polarity, cfg) == PulsePropGet(State(), p)
    {
      var pctrl := Read(regs, EVR_REG_PULSES + EVR_REG_PULSE_SLOT_SIZE * p + EVR_REG_PULSE_CTRL_OFFSET);
      enable := pctrl - {C_EVR_PULSE_ENA} != {};
      polarity := pctrl - {C_EVR_PULSE_POLARITY} != {};
      cfg := {};
      if C_EVR_PULSE_MAP_RESET_ENA in pctrl {
        cfg := cfg + {EVR_PULSE_CFG_BIT_CLEAR};
      }
      if C_EVR_PULSE_MAP_SET_ENA in pctrl {
        cfg := cfg + {EVR_PULSE_CFG_BIT_SET};
      }
      if C_EVR_PULSE_MAP_TRIG_ENA in pctrl {
        cfg := cfg + {EVR_PULSE_CFG_BIT_TRIGGER};
      }
      assert cfg == PulsePropGet(State(), p).2;
    }

    /** hw_support_evr_init_res */
    method InitResource(resType: ResType, p: nat)
      requires Valid() && (resType.PulseGen? ==> p < EVR_MAX_PULSEGEN_COUNT)
      modifies this`regs, mapRam
      ensures State() == InitRes(old(State()), resType, p)
    {
      if resType.PulseGen? {
        SetPulseParameters(p, {}, {}, {});
        WriteReg(PulseReg(p, EVR_REG_PULSE_CTRL_OFFSET), {});
        var i := 0;
        while i < EVR_MAPRAM_EVENT_CODES
          invariant 0 <= i <= EVR_MAPRAM_EVENT_CODES
          invariant regs == ClearPulse(old(regs), p)
          invariant mapRam[..] == SetMap(old(mapRam[..]), p, 0, seq(i, _ => {}))
        {
          mapRam[i] := mapRam[i].(pulseClear := mapRam[i].pulseClear - {p});
          mapRam[i] := mapRam[i].(pulseSet := mapRam[i].pulseSet - {p});
          mapRam[i] := mapRam[i].(pulseTrigger := mapRam[i].pulseTrigger - {p});
          i := i + 1;
        }
        assert mapRam[..] == NoActions(old(mapRam[..]), p);
        RamMapChangeFlush();
      }
    }

    /** evrma_pci_irq_set as far as the card's registers are concerned, while the
        device is bound. */
    method SetIrq(enabled: bool, granted: bool)
      requires Valid()
      modifies this`regs, this`irqEnabled
      ensures State() == IrqSet(old(State()), enabled, granted)
    {
      if enabled && !irqEnabled {
        if granted {
          if bridge.Lattice? {
            WriteReg(EVR_REG_IRQEN, Read(regs, EVR_REG_IRQEN) + {C_EVR_IRQ_PCIEE});
          } else if bridge.Slac? {
            WriteReg(EVR_REG_PCIE_INT_SLAC, {0});
          }
        }
      } else if !enabled && irqEnabled {
        if bridge.Lattice? {
          WriteReg(EVR_REG_IRQEN, Read(regs, EVR_REG_IRQEN) - {C_EVR_IRQ_PCIEE});
        } else if bridge.Slac? {
          WriteReg(EVR_REG_PCIE_INT_SLAC, {});
        }
      }
      irqEnabled := enabled;
    }

    /** hw_support_evr_on_subscribe_change */
    method SubscribeChange(subs: EventBitmap, granted: bool)
      requires Valid() && subs.Valid()
      modifies this`regs, this`irqEnabled, mapRam
      ensures State() == OnSubscribeChange(old(State()), subs.codes, granted)
    {
      hide IrqSet, Flush, DataBufCtrl, IrqEnabled, AnyFifoEvent;
      var prev, anyFifo := MarkAndFlush(subs, granted);
      ProgramDataBuf(prev, subs);
      EnableInterrupts(prev, subs, anyFifo);
    }

    method MarkAndFlush(subs: EventBitmap, granted: bool) returns (prev: Word, anyFifo: bool)
      requires Valid() && subs.Valid()
      modifies this`regs, this`irqEnabled, mapRam
      ensures subs.Valid()
      ensures var hw1 := IrqSet(old(State()), subs.codes != {}, granted);
        && prev == Read(hw1.regs, EVR_REG_IRQEN)
        && State() == Flush(hw1.(ram := FifoMarked(hw1.ram, subs.codes)))
      ensures anyFifo <==> AnyFifoEvent(subs.codes)
    {
      var noneNeeded := subs.IsEmpty();
      SetIrq(!noneNeeded, granted);
      prev := Read(regs, EVR_REG_IRQEN);
      anyFifo := MarkFifoEvents(subs);
      RamMapChangeFlush();
    }

    method ProgramDataBuf(prev: Word, subs: EventBitmap)
      requires subs.Valid()
      modifies this`regs
      ensures subs.Valid()
      ensures regs == DataBufCtrl(old(regs), prev, subs.codes)
    {
      var needed := subs.Test(EVRMA_EVENT_DBUF_DATA);
      if needed {
        if C_EVR_IRQFLAG_DATABUF !in prev {
          WriteReg(EVR_REG_DATA_BUF_CTRL, {C_EVR_DATABUF_MODE, C_EVR_DATABUF_LOAD});
        }
      } else {
        WriteReg(EVR_REG_DATA_BUF_CTRL, {C_EVR_DATABUF_STOP});
      }
    }

    method EnableInterrupts(prev: Word, subs: EventBitmap, anyFifo: bool)
      requires Valid() && subs.Valid()
      requires anyFifo <==> AnyFifoEvent(subs.codes)
      modifies this`regs
      ensures State() == IrqEnabled(old(State()), prev, subs.codes)
    {
      var needed := NeededInterrupts(subs, anyFifo);
      var irqEnable := KeptIrqBits(prev) + needed;
      if prev != irqEnable {
        WriteReg(EVR_REG_IRQEN, irqEnable);
      }
    }

    method NeededInterrupts(subs: EventBitmap, anyFifo: bool) returns (needed: Word)
      requires subs.Valid()
      requires anyFifo <==> AnyFifoEvent(subs.codes)
      ensures needed == IrqBits(subs.codes)
    {
      var none := subs.IsEmpty();
      var dataBuf := subs.Test(EVRMA_EVENT_DBUF_DATA);
      var taxi := subs.Test(EVRMA_EVENT_ERROR_TAXI);
      var delayed := subs.Test(EVRMA_EVENT_DELAYED_IRQ);
      var heart := subs.Test(EVRMA_EVENT_ERROR_HEART);
      var lost := subs.Test(EVRMA_EVENT_ERROR_LOST);
      needed := SourceBits(!none, anyFifo, dataBuf, taxi, delayed, heart, lost);
    }

    method MarkFifoEvents(subs: EventBitmap) returns (any: bool)
      requires Valid() && subs.Valid()
      modifies mapRam
      ensures subs.Valid()
      ensures mapRam[..] == FifoMarked(old(mapRam[..]), subs.codes)
      ensures any <==> AnyFifoEvent(subs.codes)
    {
      any := false;
      var ievent := 0;
      while ievent < EVR_MAPRAM_EVENT_CODES
        invariant 0 <= ievent <= EVR_MAPRAM_EVENT_CODES
        invariant subs.Valid()
        invariant any <==> exists e :: 0 <= e < ievent && e in subs.codes
        invariant forall k | 0 <= k < EVR_MAPRAM_EVENT_CODES ::
          mapRam[k] == if k < ievent then FifoMarked(old(mapRam[..]), subs.codes)[k] else old(mapRam[..])[k]
      {
        var evst := subs.Test(ievent);
        if evst {
          any := true;
          mapRam[ievent] := mapRam[ievent].(intEvent := mapRam[ievent].intEvent + {C_EVR_MAP_SAVE_EVENT});
        } else {
          mapRam[ievent] := mapRam[ievent].(intEvent := mapRam[ievent].intEvent - {C_EVR_MAP_SAVE_EVENT});
        }
        ievent := ievent + 1;
      }
    }
  }
}
