/** The operations of src/evr.c and src/evr-irq-events.c on the card, first as
    functions of its state and then step by step on the driver's own data. */
module EvrCard {
  import opened Words
  import opened Evr

  /** What stands between the card and the PCI bus; PLX bridges and cards without
      one do not use the registers modelled here. */
  datatype Bridge = Plain | Lattice | Slac

  datatype Hw = Hw(regs: Regs, ram: MapRam, bridge: Bridge, irqEnabled: bool)

  datatype Code = Ok | Invalid

  /** The hardware works with the MAP RAM that the driver believes it has. */
  predicate Flushed(hw: Hw) { ActiveRam(hw.regs) == hw.ram }

  function Flush(hw: Hw): Hw { hw.(regs := Apply(hw.regs, FlushWrites(hw.regs, hw.ram))) }

  // ----- initialisation

  function InitialFunction(k: nat): Word {
    if k == 0x70 then {0}
    else if k == 0x71 then {1}
    else if k == 0x7a then {5}
    else if k == 0x7b then {4}
    else if k == 0x7c then {2}
    else if k == 0x7d then {3}
    else {}
  }

  function InitialRam(): MapRam {
    seq(EVR_MAPRAM_EVENT_CODES, k requires 0 <= k < EVR_MAPRAM_EVENT_CODES => MapItem(InitialFunction(k), {}, {}, {}))
  }

  /** evr_ram_map_init */
  function RamMapInit(hw: Hw): Hw { Flush(hw.(ram := InitialRam())) }

  function PulseReg(p: nat, offset: nat): nat { EVR_REG_PULSES + EVR_REG_PULSE_SLOT_SIZE * p + offset }

  function SetPulseParams(regs: Regs, p: nat, prescaler: Word, delay: Word, width: Word): Regs {
    regs[PulseReg(p, EVR_REG_PULSE_PRESC_OFFSET) := prescaler]
        [PulseReg(p, EVR_REG_PULSE_DELAY_OFFSET) := delay]
        [PulseReg(p, EVR_REG_PULSE_WIDTH_OFFSET) := width]
  }

  function ClearPulse(regs: Regs, p: nat): Regs {
    SetPulseParams(regs, p, {}, {}, {})[PulseReg(p, EVR_REG_PULSE_CTRL_OFFSET) := {}]
  }

  function ClearPulses(regs: Regs, count: nat): Regs {
    if count == 0 then regs else ClearPulse(ClearPulses(regs, count - 1), count - 1)
  }

  /** MNG_DEV_EVR_IOC_INIT, without the 16-bit output mapping registers. */
  function InitCard(hw: Hw, pulsegenCount: nat): Hw {
    OutputsEnabled(RamMapInit(hw.(regs := ClearPulses(hw.regs, pulsegenCount))))
  }

  /** evr_output_enable */
  function OutputsEnabled(hw: Hw): Hw {
    hw.(regs := hw.regs[EVR_REG_CTRL := Read(hw.regs, EVR_REG_CTRL) + {C_EVR_CTRL_OUTEN}])
  }

  // ----- one pulse generator

  datatype PulseBits = PulseBits(prescaler: nat, delay: nat, width: nat)

  /** The largest value for a property of that many bits. */
  function MaxForBitInfo(bits: nat): nat { if bits == 0 then 1 else Pow2(bits) - 1 }

  predicate TooLarge(value: Word, bits: nat) { Value(value) > MaxForBitInfo(bits) }

  predicate ParamsFit(bits: PulseBits, prescaler: Word, delay: Word, width: Word) {
    !TooLarge(prescaler, bits.prescaler) && !TooLarge(delay, bits.delay) && !TooLarge(width, bits.width)
  }

  function PulseParamSet(hw: Hw, bits: PulseBits, p: nat, prescaler: Word, delay: Word, width: Word): Hw {
    if ParamsFit(bits, prescaler, delay, width) then hw.(regs := SetPulseParams(hw.regs, p, prescaler, delay, width)) else hw
  }

  function WithBit(w: Word, bit: nat, on: bool): Word
    requires bit < 32
  {
    if on then w + {bit} else w - {bit}
  }

  /** The new pulse control word of VEVR_IOC_PULSE_PROP_SET. */
  function PropWord(pctrl: Word, enable: bool, polarity: bool, cfg: BitSet8): Word {
    var w1 := WithBit(pctrl, C_EVR_PULSE_ENA, enable);
    var w2 := WithBit(w1, C_EVR_PULSE_POLARITY, polarity);
    var w3 := WithBit(w2, C_EVR_PULSE_MAP_RESET_ENA, EVR_PULSE_CFG_BIT_CLEAR in cfg);
    var w4 := WithBit(w3, C_EVR_PULSE_MAP_SET_ENA, EVR_PULSE_CFG_BIT_SET in cfg);
    WithBit(w4, C_EVR_PULSE_MAP_TRIG_ENA, EVR_PULSE_CFG_BIT_TRIGGER in cfg)
  }

  function PulsePropSet(hw: Hw, p: nat, enable: bool, polarity: bool, cfg: BitSet8): Hw {
    var address := PulseReg(p, EVR_REG_PULSE_CTRL_OFFSET);
    hw.(regs := hw.regs[address := PropWord(Read(hw.regs, address), enable, polarity, cfg)])
  }

  function PulseParamGet(hw: Hw, p: nat): (Word, Word, Word) {
    (Read(hw.regs, PulseReg(p, EVR_REG_PULSE_PRESC_OFFSET)),
     Read(hw.regs, PulseReg(p, EVR_REG_PULSE_DELAY_OFFSET)),
     Read(hw.regs, PulseReg(p, EVR_REG_PULSE_WIDTH_OFFSET)))
  }

  /** Enable and polarity are read with inverted masks: from all bits but their own. */
  function PulsePropGet(hw: Hw, p: nat): (bool, bool, BitSet8) {
    var pctrl := Read(hw.regs, PulseReg(p, EVR_REG_PULSE_CTRL_OFFSET));
    (pctrl - {C_EVR_PULSE_ENA} != {}, pctrl - {C_EVR_PULSE_POLARITY} != {},
     (if C_EVR_PULSE_MAP_RESET_ENA in pctrl then {EVR_PULSE_CFG_BIT_CLEAR} else {})
     + (if C_EVR_PULSE_MAP_SET_ENA in pctrl then {EVR_PULSE_CFG_BIT_SET} else {})
     + (if C_EVR_PULSE_MAP_TRIG_ENA in pctrl then {EVR_PULSE_CFG_BIT_TRIGGER} else {}))
  }

  type PulseIndex = p: nat | p < EVR_MAX_PULSEGEN_COUNT

  function SetActions(item: MapItem, p: PulseIndex, actions: BitSet8): MapItem {
    MapItem(
      item.intEvent,
      WithBit(item.pulseTrigger, p, EVR_PULSE_CFG_BIT_TRIGGER in actions),
      WithBit(item.pulseSet, p, EVR_PULSE_CFG_BIT_SET in actions),
      WithBit(item.pulseClear, p, EVR_PULSE_CFG_BIT_CLEAR in actions))
  }

  function GetActions(item: MapItem, p: PulseIndex): BitSet8 {
    (if p in item.pulseClear then {EVR_PULSE_CFG_BIT_CLEAR} else {})
    + (if p in item.pulseSet then {EVR_PULSE_CFG_BIT_SET} else {})
    + (if p in item.pulseTrigger then {EVR_PULSE_CFG_BIT_TRIGGER} else {})
  }

  /** The shadow with the actions of p replaced for the codes from 'first' on. */
  function SetMap(ram: MapRam, p: PulseIndex, first: nat, actions: seq<BitSet8>): MapRam
    requires first + |actions| <= EVR_MAPRAM_EVENT_CODES
  {
    seq(EVR_MAPRAM_EVENT_CODES, k requires 0 <= k < EVR_MAPRAM_EVENT_CODES =>
      if first <= k < first + |actions| then SetActions(ram[k], p, actions[k - first]) else ram[k])
  }

  function GetMap(ram: MapRam, p: PulseIndex, first: nat, count: nat): seq<BitSet8>
    requires first + count <= EVR_MAPRAM_EVENT_CODES
  {
    seq<BitSet8>(count, i requires 0 <= i < count => GetActions(ram[first + i], p))
  }

  function MapRamSet(hw: Hw, p: PulseIndex, first: nat, actions: seq<BitSet8>): Hw
    requires first + |actions| <= EVR_MAPRAM_EVENT_CODES
  {
    Flush(hw.(ram := SetMap(hw.ram, p, first, actions)))
  }

  function NoActions(ram: MapRam, p: PulseIndex): MapRam {
    SetMap(ram, p, 0, seq(EVR_MAPRAM_EVENT_CODES, _ => {}))
  }

  datatype ResType = PulseGen | Output | Unknown

  /** hw_support_evr_init_res */
  function InitRes(hw: Hw, resType: ResType, p: nat): Hw
    requires resType.PulseGen? ==> p < EVR_MAX_PULSEGEN_COUNT
  {
    if resType.PulseGen? then Flush(hw.(regs := ClearPulse(hw.regs, p), ram := NoActions(hw.ram, p))) else hw
  }

  /** The calls of a VIRT_DEV that change a pulse generator, and those that do not. */
  datatype Command =
    | ParamSet(prescaler: Word, delay: Word, width: Word)
    | PropSet(enable: bool, polarity: bool, cfg: BitSet8)
    | MapSet(all: seq<BitSet8>)
    | MapSetForEvent(event: nat, one: BitSet8)
    | Get
  {
    /** What the argument structures of the calls can hold. */
    predicate Valid() {
      && (MapSet? ==> |all| == EVR_MAPRAM_EVENT_CODES)
      && (MapSetForEvent? ==> event < EVR_MAPRAM_EVENT_CODES)
    }
  }

  type PulseTable = t: seq<PulseBits> | |t| <= EVR_MAX_PULSEGEN_COUNT

  /** hw_support_evr_ioctl for a VIRT_DEV on a real card, given the resource that
      the caller was allowed to name. */
  function DoCommand(hw: Hw, pulsegens: PulseTable, resType: ResType, index: int, cmd: Command): (Hw, Code)
    requires cmd.Valid()
  {
    if !resType.PulseGen? || index < 0 || index >= |pulsegens| then (hw, Invalid)
    else
      match cmd
      case ParamSet(prescaler, delay, width) =>
        (PulseParamSet(hw, pulsegens[index], index, prescaler, delay, width),
         if ParamsFit(pulsegens[index], prescaler, delay, width) then Ok else Invalid)
      case PropSet(enable, polarity, cfg) => (PulsePropSet(hw, index, enable, polarity, cfg), Ok)
      case MapSet(all) => (MapRamSet(hw, index, 0, all), Ok)
      case MapSetForEvent(event, one) => (MapRamSet(hw, index, event, [one]), Ok)
      case Get => (hw, Ok)
  }

  // ----- subscriptions

  /** The bridge is told about interrupts only when that changes; 'granted' is
      whether the system gave the interrupt. */
  function IrqSet(hw: Hw, enabled: bool, granted: bool): Hw {
    var on := enabled && !hw.irqEnabled && granted;
    var off := !enabled && hw.irqEnabled;
    var irqen := Read(hw.regs, EVR_REG_IRQEN);
    var regs :=
      if !on && !off then hw.regs
      else match hw.bridge
        case Plain => hw.regs
        case Lattice => hw.regs[EVR_REG_IRQEN := WithBit(irqen, C_EVR_IRQ_PCIEE, on)]
        case Slac => hw.regs[EVR_REG_PCIE_INT_SLAC := if on then {0} else {}];
    hw.(regs := regs, irqEnabled := enabled)
  }

  function FifoMarked(ram: MapRam, subs: set<int>): MapRam {
    seq(EVR_MAPRAM_EVENT_CODES, k requires 0 <= k < EVR_MAPRAM_EVENT_CODES =>
      ram[k].(intEvent := WithBit(ram[k].intEvent, C_EVR_MAP_SAVE_EVENT, k in subs)))
  }

  predicate AnyFifoEvent(subs: set<int>) { exists e :: 0 <= e < EVR_MAPRAM_EVENT_CODES && e in subs }

  function BitIf(on: bool, bit: nat): Word
    requires bit < 32
  {
    if on then {bit} else {}
  }

  function SourceBits(any: bool, fifo: bool, dataBuf: bool, taxi: bool, delayed: bool, heart: bool, lost: bool): Word {
    BitIf(any, C_EVR_IRQ_MASTER_ENABLE)
    + BitIf(fifo, C_EVR_IRQFLAG_EVENT)
    + BitIf(dataBuf, C_EVR_IRQFLAG_DATABUF)
    + BitIf(taxi, C_EVR_IRQFLAG_VIOLATION)
    + BitIf(delayed, C_EVR_IRQFLAG_PULSE)
    + BitIf(heart, C_EVR_IRQFLAG_HEARTBEAT)
    + BitIf(lost, C_EVR_IRQFLAG_FIFOFULL)
  }

  /** The interrupt sources that a set of subscribed codes needs. */
  function IrqBits(subs: set<int>): Word {
    SourceBits(subs != {}, AnyFifoEvent(subs), EVRMA_EVENT_DBUF_DATA in subs, EVRMA_EVENT_ERROR_TAXI in subs,
               EVRMA_EVENT_DELAYED_IRQ in subs, EVRMA_EVENT_ERROR_HEART in subs, EVRMA_EVENT_ERROR_LOST in subs)
  }

  function KeptIrqBits(irqen: Word): Word { irqen * {C_EVR_IRQ_PCIEE} }

  function DataBufCtrl(regs: Regs, prev: Word, subs: set<int>): Regs {
    if EVRMA_EVENT_DBUF_DATA !in subs then regs[EVR_REG_DATA_BUF_CTRL := {C_EVR_DATABUF_STOP}]
    else if C_EVR_IRQFLAG_DATABUF in prev then regs
    else regs[EVR_REG_DATA_BUF_CTRL := {C_EVR_DATABUF_MODE, C_EVR_DATABUF_LOAD}]
  }

  function EnableWord(prev: Word, subs: set<int>): Word { KeptIrqBits(prev) + IrqBits(subs) }

  function IrqEnabled(hw: Hw, prev: Word, subs: set<int>): Hw {
    if prev != EnableWord(prev, subs) then hw.(regs := hw.regs[EVR_REG_IRQEN := EnableWord(prev, subs)]) else hw
  }

  /** hw_support_evr_on_subscribe_change on a real card */
  function OnSubscribeChange(hw: Hw, subs: set<int>, granted: bool): Hw {
    var hw1 := IrqSet(hw, subs != {}, granted);
    var prev := Read(hw1.regs, EVR_REG_IRQEN);
    var hw2 := Flush(hw1.(ram := FifoMarked(hw1.ram, subs)));
    IrqEnabled(hw2.(regs := DataBufCtrl(hw2.regs, prev, subs)), prev, subs)
  }

  /** The hardware saves exactly the subscribed codes into its event FIFO. */
  predicate FifoInSync(hw: Hw, subs: set<int>) {
    forall k | 0 <= k < EVR_MAPRAM_EVENT_CODES :: C_EVR_MAP_SAVE_EVENT in ActiveRam(hw.regs)[k].intEvent <==> k in subs
  }

  /** The interrupt enable register asks for exactly what is subscribed, apart
      from the bit that belongs to the bridge. */
  predicate IrqInSync(hw: Hw, subs: set<int>) {
    Read(hw.regs, EVR_REG_IRQEN) == KeptIrqBits(Read(hw.regs, EVR_REG_IRQEN)) + IrqBits(subs)
  }

  predicate InSync(hw: Hw, subs: set<int>) { Flushed(hw) && FifoInSync(hw, subs) && IrqInSync(hw, subs) }

  // ----- lemmas on the operations

  lemma FlushMakesFlushed(hw: Hw)
    ensures Flushed(Flush(hw))
  {
    FlushResult(hw.regs, hw.ram);
  }

  /** Registers outside CTRL and the MAP RAM do not influence what the hardware
      sees of the MAP RAM. */
  lemma ActiveRamFrame(regs: Regs, regs': Regs)
    requires forall a: nat | a >= EVR_REG_MAPRAM1 :: Read(regs', a) == Read(regs, a)
    requires C_EVR_CTRL_MAP_RAM_SELECT in Read(regs', EVR_REG_CTRL) <==> C_EVR_CTRL_MAP_RAM_SELECT in Read(regs, EVR_REG_CTRL)
    ensures ActiveRam(regs') == ActiveRam(regs)
  {
  }

  lemma ClearPulseFrame(regs: Regs, p: nat, a: nat)
    requires a < PulseReg(p, 0) || a >= PulseReg(p + 1, 0)
    ensures Read(ClearPulse(regs, p), a) == Read(regs, a)
  {
  }

  lemma {:induction false} ClearPulsesFrame(regs: Regs, count: nat, a: nat)
    requires a < EVR_REG_PULSES || a >= PulseReg(count, 0)
    ensures Read(ClearPulses(regs, count), a) == Read(regs, a)
  {
    if count > 0 {
      ClearPulsesFrame(regs, count - 1, a);
      ClearPulseFrame(ClearPulses(regs, count - 1), count - 1, a);
    }
  }

  /** A write outside the MAP RAM that keeps the bank selection. */
  lemma WriteKeepsFlushed(hw: Hw, address: nat, value: Word)
    requires Flushed(hw) && address < EVR_REG_MAPRAM1
    requires address == EVR_REG_CTRL ==> Read(hw.regs, EVR_REG_CTRL) <= value
    requires address == EVR_REG_CTRL ==> (C_EVR_CTRL_MAP_RAM_SELECT in value ==> C_EVR_CTRL_MAP_RAM_SELECT in Read(hw.regs, EVR_REG_CTRL))
    ensures Flushed(hw.(regs := hw.regs[address := value]))
  {
    ActiveRamFrame(hw.regs, hw.regs[address := value]);
  }

  lemma OutputsEnabledFrame(hw: Hw)
    requires Flushed(hw)
    ensures Flushed(OutputsEnabled(hw)) && OutputsEnabled(hw).ram == hw.ram
    ensures Read(OutputsEnabled(hw).regs, EVR_REG_IRQEN) == Read(hw.regs, EVR_REG_IRQEN)
  {
    WriteKeepsFlushed(hw, EVR_REG_CTRL, Read(hw.regs, EVR_REG_CTRL) + {C_EVR_CTRL_OUTEN});
  }

  lemma FlushedCard(hw: Hw)
    ensures Flushed(Flush(hw)) && Flush(hw).ram == hw.ram
    ensures Read(Flush(hw).regs, EVR_REG_IRQEN) == Read(hw.regs, EVR_REG_IRQEN)
  {
    FlushMakesFlushed(hw);
    FlushFrame(hw.regs, hw.ram, EVR_REG_IRQEN);
  }

  lemma InitCardFrame(hw: Hw, count: nat)
    ensures var hw' := InitCard(hw, count);
      && Flushed(hw') && hw'.ram == InitialRam()
      && Read(hw'.regs, EVR_REG_IRQEN) == Read(hw.regs, EVR_REG_IRQEN)
  {
    var cleared := hw.(regs := ClearPulses(hw.regs, count));
    ClearPulsesFrame(hw.regs, count, EVR_REG_IRQEN);
    FlushedCard(cleared.(ram := InitialRam()));
    OutputsEnabledFrame(RamMapInit(cleared));
  }

  lemma DataBufFrame(hw: Hw, prev: Word, subs: set<int>)
    requires Flushed(hw)
    ensures Flushed(hw.(regs := DataBufCtrl(hw.regs, prev, subs)))
    ensures Read(DataBufCtrl(hw.regs, prev, subs), EVR_REG_IRQEN) == Read(hw.regs, EVR_REG_IRQEN)
  {
    WriteKeepsFlushed(hw, EVR_REG_DATA_BUF_CTRL, {C_EVR_DATABUF_STOP});
    WriteKeepsFlushed(hw, EVR_REG_DATA_BUF_CTRL, {C_EVR_DATABUF_MODE, C_EVR_DATABUF_LOAD});
  }

  lemma IrqEnabledFrame(hw: Hw, prev: Word, subs: set<int>)
    requires Flushed(hw) && Read(hw.regs, EVR_REG_IRQEN) == prev
    ensures Flushed(IrqEnabled(hw, prev, subs)) && IrqEnabled(hw, prev, subs).ram == hw.ram
    ensures IrqInSync(IrqEnabled(hw, prev, subs), subs)
  {
    WriteKeepsFlushed(hw, EVR_REG_IRQEN, EnableWord(prev, subs));
    KeptStaysKept(prev, subs);
  }

  /** The enable word that is written keeps the bridge's bit as it was. */
  lemma KeptStaysKept(prev: Word, subs: set<int>)
    ensures KeptIrqBits(EnableWord(prev, subs)) == KeptIrqBits(prev)
  {
    assert C_EVR_IRQ_PCIEE !in IrqBits(subs);
  }

  lemma FifoMarksInSync(hw: Hw, ram: MapRam, subs: set<int>)
    requires Flushed(hw) && hw.ram == FifoMarked(ram, subs)
    ensures FifoInSync(hw, subs)
  {
  }

  /** After a change of subscriptions the card is in step with them, whatever
      state it was in before. */
  lemma SubscribeSynchronises(hw: Hw, subs: set<int>, granted: bool)
    ensures InSync(OnSubscribeChange(hw, subs, granted), subs)
  {
    var hw1 := IrqSet(hw, subs != {}, granted);
    var prev := Read(hw1.regs, EVR_REG_IRQEN);
    var marked := hw1.(ram := FifoMarked(hw1.ram, subs));
    FlushedCard(marked);
    var hw2 := Flush(marked);
    DataBufFrame(hw2, prev, subs);
    IrqEnabledFrame(hw2.(regs := DataBufCtrl(hw2.regs, prev, subs)), prev, subs);
    FifoMarksInSync(OnSubscribeChange(hw, subs, granted), hw1.ram, subs);
  }

  /** The bit of IRQEN that belongs to the bridge is left as the bridge set it. */
  lemma SubscribeKeepsBridgeBit(hw: Hw, subs: set<int>, granted: bool)
    ensures KeptIrqBits(Read(OnSubscribeChange(hw, subs, granted).regs, EVR_REG_IRQEN))
         == KeptIrqBits(Read(IrqSet(hw, subs != {}, granted).regs, EVR_REG_IRQEN))
  {
    var hw1 := IrqSet(hw, subs != {}, granted);
    FlushedCard(hw1.(ram := FifoMarked(hw1.ram, subs)));
    KeptStaysKept(Read(hw1.regs, EVR_REG_IRQEN), subs);
  }

  lemma InitialMarks(hw: Hw, subs: set<int>)
    requires Flushed(hw) && hw.ram == InitialRam()
    ensures FifoInSync(hw, subs) <==> !AnyFifoEvent(subs)
  {
    if AnyFifoEvent(subs) {
      var e :| 0 <= e < EVR_MAPRAM_EVENT_CODES && e in subs;
      assert C_EVR_MAP_SAVE_EVENT !in ActiveRam(hw.regs)[e].intEvent;
    }
  }

  /** INIT keeps the card in step exactly when no event FIFO code is subscribed:
      it clears their marks, and nothing else that matters here. */
  lemma InitKeepsSyncIff(hw: Hw, count: nat, subs: set<int>)
    requires InSync(hw, subs)
    ensures InSync(InitCard(hw, count), subs) <==> !AnyFifoEvent(subs)
  {
    InitCardFrame(hw, count);
    InitialMarks(InitCard(hw, count), subs);
  }

  // ----- what an operation on one pulse generator leaves alone

  predicate SameActions(a: MapItem, b: MapItem, q: nat) {
    && (q in a.pulseClear <==> q in b.pulseClear)
    && (q in a.pulseSet <==> q in b.pulseSet)
    && (q in a.pulseTrigger <==> q in b.pulseTrigger)
  }

  /** Pulse generator q is the same in both states: its four registers, and its
      bit in every action word of the shadow and of the hardware. */
  ghost predicate SamePulse(a: Hw, b: Hw, q: nat) {
    && (forall offset: nat | offset in {0, 4, 8, 12} :: Read(a.regs, PulseReg(q, offset)) == Read(b.regs, PulseReg(q, offset)))
    && (forall k | 0 <= k < EVR_MAPRAM_EVENT_CODES :: SameActions(a.ram[k], b.ram[k], q))
    && (forall k | 0 <= k < EVR_MAPRAM_EVENT_CODES :: SameActions(ActiveRam(a.regs)[k], ActiveRam(b.regs)[k], q))
  }

  /** No internal function of any event code differs, in shadow and hardware. */
  predicate SameInternal(a: Hw, b: Hw) {
    && (forall k | 0 <= k < EVR_MAPRAM_EVENT_CODES :: a.ram[k].intEvent == b.ram[k].intEvent)
    && (forall k | 0 <= k < EVR_MAPRAM_EVENT_CODES :: ActiveRam(a.regs)[k].intEvent == ActiveRam(b.regs)[k].intEvent)
  }

  /** What one operation on pulse generator p may change. */
  ghost predicate OnlyPulse(a: Hw, b: Hw, p: nat) {
    && Flushed(b)
    && SameInternal(a, b)
    && Read(b.regs, EVR_REG_IRQEN) == Read(a.regs, EVR_REG_IRQEN)
    && forall q: nat | q < EVR_MAX_PULSEGEN_COUNT && q != p :: SamePulse(a, b, q)
  }

  lemma RegistersOnly(hw: Hw, hw': Hw, p: PulseIndex)
    requires Flushed(hw) && hw'.ram == hw.ram
    requires forall a: nat | a < PulseReg(p, 0) || a >= PulseReg(p + 1, 0) :: Read(hw'.regs, a) == Read(hw.regs, a)
    ensures OnlyPulse(hw, hw', p)
  {
    ActiveRamFrame(hw.regs, hw'.regs);
  }

  lemma PulseParamSetIsolated(hw: Hw, bits: PulseBits, p: PulseIndex, prescaler: Word, delay: Word, width: Word)
    requires Flushed(hw)
    ensures OnlyPulse(hw, PulseParamSet(hw, bits, p, prescaler, delay, width), p)
  {
    RegistersOnly(hw, PulseParamSet(hw, bits, p, prescaler, delay, width), p);
  }

  lemma PulsePropSetIsolated(hw: Hw, p: PulseIndex, enable: bool, polarity: bool, cfg: BitSet8)
    requires Flushed(hw)
    ensures OnlyPulse(hw, PulsePropSet(hw, p, enable, polarity, cfg), p)
  {
    RegistersOnly(hw, PulsePropSet(hw, p, enable, polarity, cfg), p);
  }

  lemma SetMapOthers(ram: MapRam, p: PulseIndex, first: nat, actions: seq<BitSet8>, q: nat, k: nat)
    requires first + |actions| <= EVR_MAPRAM_EVENT_CODES && k < EVR_MAPRAM_EVENT_CODES && q != p
    ensures SameActions(ram[k], SetMap(ram, p, first, actions)[k], q)
    ensures ram[k].intEvent == SetMap(ram, p, first, actions)[k].intEvent
  {
  }

  lemma FlushPulseFrame(hw: Hw, q: PulseIndex, offset: nat)
    requires offset in {0, 4, 8, 12}
    ensures Read(Flush(hw).regs, PulseReg(q, offset)) == Read(hw.regs, PulseReg(q, offset))
  {
    FlushFrame(hw.regs, hw.ram, PulseReg(q, offset));
  }

  lemma SetMapIsolated(hw: Hw, regs: Regs, p: PulseIndex, first: nat, actions: seq<BitSet8>)
    requires Flushed(hw) && first + |actions| <= EVR_MAPRAM_EVENT_CODES
    requires forall a: nat | a < PulseReg(p, 0) || a >= PulseReg(p + 1, 0) :: Read(regs, a) == Read(hw.regs, a)
    ensures OnlyPulse(hw, Flush(hw.(regs := regs, ram := SetMap(hw.ram, p, first, actions))), p)
  {
    var changed := hw.(regs := regs, ram := SetMap(hw.ram, p, first, actions));
    var hw' := Flush(changed);
    FlushMakesFlushed(changed);
    FlushFrame(regs, changed.ram, EVR_REG_IRQEN);
    forall k: nat | k < EVR_MAPRAM_EVENT_CODES ensures hw.ram[k].intEvent == hw'.ram[k].intEvent {
      SetMapOthers(hw.ram, p, first, actions, p + 1, k);
    }
    forall q: nat | q < EVR_MAX_PULSEGEN_COUNT && q != p ensures SamePulse(hw, hw', q) {
      forall offset: nat | offset in {0, 4, 8, 12} ensures Read(hw.regs, PulseReg(q, offset)) == Read(hw'.regs, PulseReg(q, offset)) {
        FlushPulseFrame(changed, q, offset);
      }
      forall k: nat | k < EVR_MAPRAM_EVENT_CODES ensures SameActions(hw.ram[k], hw'.ram[k], q) {
        SetMapOthers(hw.ram, p, first, actions, q, k);
      }
    }
  }

  lemma MapRamSetIsolated(hw: Hw, p: PulseIndex, first: nat, actions: seq<BitSet8>)
    requires Flushed(hw) && first + |actions| <= EVR_MAPRAM_EVENT_CODES
    ensures OnlyPulse(hw, MapRamSet(hw, p, first, actions), p)
  {
    SetMapIsolated(hw, hw.regs, p, first, actions);
    assert hw.(regs := hw.regs, ram := SetMap(hw.ram, p, first, actions)) == hw.(ram := SetMap(hw.ram, p, first, actions));
  }

  lemma InitResIsolated(hw: Hw, p: PulseIndex)
    requires Flushed(hw)
    ensures OnlyPulse(hw, InitRes(hw, PulseGen, p), p)
  {
    SetMapIsolated(hw, ClearPulse(hw.regs, p), p, 0, seq(EVR_MAPRAM_EVENT_CODES, _ => {}));
  }

  /** Whatever a call does, it does to the pulse generator that it names. */
  lemma CommandIsolated(hw: Hw, pulsegens: PulseTable, resType: ResType, index: int, cmd: Command)
    requires Flushed(hw) && cmd.Valid()
    ensures var (hw', code) := DoCommand(hw, pulsegens, resType, index, cmd);
      hw' == hw || (resType.PulseGen? && 0 <= index < |pulsegens| && OnlyPulse(hw, hw', index))
  {
    if resType.PulseGen? && 0 <= index < |pulsegens| {
      match cmd
      case ParamSet(prescaler, delay, width) => PulseParamSetIsolated(hw, pulsegens[index], index, prescaler, delay, width);
      case PropSet(enable, polarity, cfg) => PulsePropSetIsolated(hw, index, enable, polarity, cfg);
      case MapSet(all) => MapRamSetIsolated(hw, index, 0, all);
      case MapSetForEvent(event, one) => MapRamSetIsolated(hw, index, event, [one]);
      case Get =>
    }
  }

  // ----- reading back what was set

  /** A get returns what was set, masked to the three action bits. */
  lemma MapRamRoundTrip(hw: Hw, p: PulseIndex, first: nat, actions: seq<BitSet8>)
    requires first + |actions| <= EVR_MAPRAM_EVENT_CODES
    ensures var hw' := MapRamSet(hw, p, first, actions);
      && GetMap(hw'.ram, p, first, |actions|)
         == seq(|actions|, i requires 0 <= i < |actions| =>
              actions[i] * {EVR_PULSE_CFG_BIT_CLEAR, EVR_PULSE_CFG_BIT_SET, EVR_PULSE_CFG_BIT_TRIGGER})
      && ActiveRam(hw'.regs) == hw'.ram
  {
    FlushMakesFlushed(hw.(ram := SetMap(hw.ram, p, first, actions)));
    var got := GetMap(MapRamSet(hw, p, first, actions).ram, p, first, |actions|);
    forall i | 0 <= i < |actions| ensures got[i] == actions[i] * {EVR_PULSE_CFG_BIT_CLEAR, EVR_PULSE_CFG_BIT_SET, EVR_PULSE_CFG_BIT_TRIGGER} {
      ActionsRoundTrip(hw.ram[first + i], p, actions[i]);
    }
  }

  lemma ActionsRoundTrip(item: MapItem, p: PulseIndex, actions: BitSet8)
    ensures GetActions(SetActions(item, p, actions), p)
         == actions * {EVR_PULSE_CFG_BIT_CLEAR, EVR_PULSE_CFG_BIT_SET, EVR_PULSE_CFG_BIT_TRIGGER}
  {
  }

  lemma ActionsCommute(item: MapItem, p: PulseIndex, a: BitSet8, q: PulseIndex, b: BitSet8)
    requires p != q
    ensures SetActions(SetActions(item, p, a), q, b) == SetActions(SetActions(item, q, b), p, a)
  {
  }

  /** Sets on different pulse generators commute, on the shadow and as far as the
      hardware sees. */
  lemma MapRamSetsCommute(hw: Hw, p: PulseIndex, i: nat, a: seq<BitSet8>, q: PulseIndex, j: nat, b: seq<BitSet8>)
    requires p != q && i + |a| <= EVR_MAPRAM_EVENT_CODES && j + |b| <= EVR_MAPRAM_EVENT_CODES
    ensures var x := MapRamSet(MapRamSet(hw, p, i, a), q, j, b);
      var y := MapRamSet(MapRamSet(hw, q, j, b), p, i, a);
      x.ram == y.ram && ActiveRam(x.regs) == ActiveRam(y.regs)
  {
    var x, y := SetMap(SetMap(hw.ram, p, i, a), q, j, b), SetMap(SetMap(hw.ram, q, j, b), p, i, a);
    forall k | 0 <= k < EVR_MAPRAM_EVENT_CODES ensures x[k] == y[k] {
      if i <= k < i + |a| && j <= k < j + |b| {
        ActionsCommute(hw.ram[k], p, a[k - i], q, b[k - j]);
      }
    }
    assert x == y;
    FlushMakesFlushed(MapRamSet(hw, p, i, a).(ram := x));
    FlushMakesFlushed(MapRamSet(hw, q, j, b).(ram := y));
  }

  /** The first n codes set one at a time. */
  function SetOneByOne(ram: MapRam, p: PulseIndex, full: seq<BitSet8>, n: nat): MapRam
    requires n <= |full| == EVR_MAPRAM_EVENT_CODES
  {
    if n == 0 then ram else SetMap(SetOneByOne(ram, p, full, n - 1), p, n - 1, [full[n - 1]])
  }

  /** Setting every code with the per-event form is the 256-event form. */
  lemma {:induction false} PerEventFormAgrees(ram: MapRam, p: PulseIndex, full: seq<BitSet8>, n: nat)
    requires n <= |full| == EVR_MAPRAM_EVENT_CODES
    ensures SetOneByOne(ram, p, full, n) == SetMap(ram, p, 0, full[..n])
  {
    if n > 0 {
      PerEventFormAgrees(ram, p, full, n - 1);
    }
  }

  /** Parameters read back as they were set, unless one of them is too large for the
      pulse generator: then none is set. */
  lemma PulseParamRoundTrip(hw: Hw, bits: PulseBits, p: PulseIndex, prescaler: Word, delay: Word, width: Word)
    ensures PulseParamGet(PulseParamSet(hw, bits, p, prescaler, delay, width), p)
         == if Value(prescaler) <= MaxForBitInfo(bits.prescaler)
               && Value(delay) <= MaxForBitInfo(bits.delay)
               && Value(width) <= MaxForBitInfo(bits.width)
            then (prescaler, delay, width) else PulseParamGet(hw, p)
  {
    hide Value, MaxForBitInfo;
    assert PulseReg(p, EVR_REG_PULSE_PRESC_OFFSET) < PulseReg(p, EVR_REG_PULSE_DELAY_OFFSET) < PulseReg(p, EVR_REG_PULSE_WIDTH_OFFSET);
  }

  /** The bits of the pulse control word that the properties do not concern. */
  function OtherPropBits(pctrl: Word): Word {
    pctrl - {C_EVR_PULSE_ENA, C_EVR_PULSE_POLARITY, C_EVR_PULSE_MAP_RESET_ENA, C_EVR_PULSE_MAP_SET_ENA, C_EVR_PULSE_MAP_TRIG_ENA}
  }

  /** The action enables read back as they were set, reduced to the three bits.
      Enable reads back right if and only if it equals 'some other bit is set', and
      so does polarity. */
  lemma PulsePropReadBack(hw: Hw, p: PulseIndex, enable: bool, polarity: bool, cfg: BitSet8)
    ensures var (e, pol, c) := PulsePropGet(PulsePropSet(hw, p, enable, polarity, cfg), p);
      var mapped := cfg * {EVR_PULSE_CFG_BIT_CLEAR, EVR_PULSE_CFG_BIT_SET, EVR_PULSE_CFG_BIT_TRIGGER} != {};
      var others := OtherPropBits(Read(hw.regs, PulseReg(p, EVR_REG_PULSE_CTRL_OFFSET))) != {};
      && c == cfg * {EVR_PULSE_CFG_BIT_CLEAR, EVR_PULSE_CFG_BIT_SET, EVR_PULSE_CFG_BIT_TRIGGER}
      && (e == enable <==> enable == (polarity || mapped || others))
      && (pol == polarity <==> polarity == (enable || mapped || others))
  {
    var pctrl := Read(hw.regs, PulseReg(p, EVR_REG_PULSE_CTRL_OFFSET));
    var w := PropWord(pctrl, enable, polarity, cfg);
    hide PropWord;
    assert Read(PulsePropSet(hw, p, enable, polarity, cfg).regs, PulseReg(p, EVR_REG_PULSE_CTRL_OFFSET)) == w;
    WordBits(pctrl, enable, polarity, cfg);
    WordRest(pctrl, enable, polarity, cfg, C_EVR_PULSE_ENA);
    WordRest(pctrl, enable, polarity, cfg, C_EVR_PULSE_POLARITY);
  }

  /** Each property is one bit of the control word; the other bits stay. */
  lemma WordBits(pctrl: Word, enable: bool, polarity: bool, cfg: BitSet8)
    ensures var w := PropWord(pctrl, enable, polarity, cfg);
      && (C_EVR_PULSE_ENA in w <==> enable)
      && (C_EVR_PULSE_POLARITY in w <==> polarity)
      && (C_EVR_PULSE_MAP_RESET_ENA in w <==> EVR_PULSE_CFG_BIT_CLEAR in cfg)
      && (C_EVR_PULSE_MAP_SET_ENA in w <==> EVR_PULSE_CFG_BIT_SET in cfg)
      && (C_EVR_PULSE_MAP_TRIG_ENA in w <==> EVR_PULSE_CFG_BIT_TRIGGER in cfg)
      && OtherPropBits(w) == OtherPropBits(pctrl)
  {
  }

  /** What is left of the control word without one of its first and fifth bits. */
  lemma WordRest(pctrl: Word, enable: bool, polarity: bool, cfg: BitSet8, bit: nat)
    requires bit == C_EVR_PULSE_ENA || bit == C_EVR_PULSE_POLARITY
    ensures var other := if bit == C_EVR_PULSE_ENA then polarity else enable;
      PropWord(pctrl, enable, polarity, cfg) - {bit} == {} <==>
        !other && cfg * {EVR_PULSE_CFG_BIT_CLEAR, EVR_PULSE_CFG_BIT_SET, EVR_PULSE_CFG_BIT_TRIGGER} == {} && OtherPropBits(pctrl) == {}
  {
    hide PropWord;
    WordBits(pctrl, enable, polarity, cfg);
    var w := PropWord(pctrl, enable, polarity, cfg);
    var rest := w - {bit};
    var mapped := cfg * {EVR_PULSE_CFG_BIT_CLEAR, EVR_PULSE_CFG_BIT_SET, EVR_PULSE_CFG_BIT_TRIGGER};
    if rest == {} {
      assert forall b | b in mapped :: false by {
        assert C_EVR_PULSE_MAP_RESET_ENA !in rest && C_EVR_PULSE_MAP_SET_ENA !in rest && C_EVR_PULSE_MAP_TRIG_ENA !in rest;
      }
      assert C_EVR_PULSE_ENA !in rest && C_EVR_PULSE_POLARITY !in rest;
      assert OtherPropBits(w) <= rest;
    } else if mapped == {} && OtherPropBits(pctrl) == {} {
      assert EVR_PULSE_CFG_BIT_CLEAR !in mapped && EVR_PULSE_CFG_BIT_SET !in mapped && EVR_PULSE_CFG_BIT_TRIGGER !in mapped;
      assert forall b | b in rest :: b !in OtherPropBits(w);
      assert rest <= {C_EVR_PULSE_ENA, C_EVR_PULSE_POLARITY};
    }
  }

  /** Enabling an idle pulse generator, and nothing else, reads back as not enabled. */
  lemma EnableReadsBackWrong(hw: Hw, p: PulseIndex)
    requires Read(hw.regs, PulseReg(p, EVR_REG_PULSE_CTRL_OFFSET)) == {}
    ensures PulsePropGet(PulsePropSet(hw, p, true, false, {}), p).0 == false
  {
    var others := OtherPropBits({});
    assert others == {};
    PulsePropReadBack(hw, p, true, false, {});
  }
}
