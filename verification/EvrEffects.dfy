/** What the operations leave in the registers of the card, told bit by bit and address
    by address. */
module EvrEffects {
  import opened Words
  import opened Evr
  import opened EvrCard

  // ----- the CTRL register

  /** CTRL without the two bits of the MAP RAM banks. */
  function OtherCtrl(regs: Regs): Word {
    Read(regs, EVR_REG_CTRL) - {C_EVR_CTRL_MAP_RAM_ENABLE, C_EVR_CTRL_MAP_RAM_SELECT}
  }

  /** A flush inverts the selection of the bank, leaves the MAP RAM enabled, and every
      other bit of CTRL as it is. */
  lemma FlushKeepsCtrl(regs: Regs, ram: MapRam)
    ensures var before, after := Read(regs, EVR_REG_CTRL), Read(Apply(regs, FlushWrites(regs, ram)), EVR_REG_CTRL);
      && (forall b | b != C_EVR_CTRL_MAP_RAM_ENABLE && b != C_EVR_CTRL_MAP_RAM_SELECT :: b in after <==> b in before)
      && C_EVR_CTRL_MAP_RAM_ENABLE in after
      && (C_EVR_CTRL_MAP_RAM_SELECT in after <==> C_EVR_CTRL_MAP_RAM_SELECT !in before)
  {
    FlushFrame(regs, ram, EVR_REG_CTRL);
  }

  lemma FlushOtherCtrl(hw: Hw)
    ensures OtherCtrl(Flush(hw).regs) == OtherCtrl(hw.regs)
  {
    FlushKeepsCtrl(hw.regs, hw.ram);
  }

  // ----- the words of the MAP RAM that the hardware works with

  /** One of the four words of an event code in the bank that is selected. */
  function ActiveWord(hw: Hw, code: nat, offset: nat): Word {
    Read(hw.regs, (if C_EVR_CTRL_MAP_RAM_SELECT in Read(hw.regs, EVR_REG_CTRL) then EVR_REG_MAPRAM2 else EVR_REG_MAPRAM1)
                  + code * EVR_REG_MAPRAM_SLOT_SIZE + offset)
  }

  lemma ActiveWords(hw: Hw, code: nat)
    requires Flushed(hw) && code < EVR_MAPRAM_EVENT_CODES
    ensures ActiveWord(hw, code, EVR_REG_MAPRAM_CLEAR_OFFSET) == hw.ram[code].pulseClear
    ensures ActiveWord(hw, code, EVR_REG_MAPRAM_SET_OFFSET) == hw.ram[code].pulseSet
    ensures ActiveWord(hw, code, EVR_REG_MAPRAM_TRIGGET_OFFSET) == hw.ram[code].pulseTrigger
    ensures ActiveWord(hw, code, EVR_REG_MAPRAM_INT_FUNC_OFFSET) == hw.ram[code].intEvent
  {
    assert ActiveRam(hw.regs)[code] == hw.ram[code];
  }

  /** The hardware does exactly these actions on pulse generator p at the event code. */
  predicate Acts(hw: Hw, p: nat, code: nat, actions: BitSet8) {
    && (p in ActiveWord(hw, code, EVR_REG_MAPRAM_CLEAR_OFFSET) <==> EVR_PULSE_CFG_BIT_CLEAR in actions)
    && (p in ActiveWord(hw, code, EVR_REG_MAPRAM_SET_OFFSET) <==> EVR_PULSE_CFG_BIT_SET in actions)
    && (p in ActiveWord(hw, code, EVR_REG_MAPRAM_TRIGGET_OFFSET) <==> EVR_PULSE_CFG_BIT_TRIGGER in actions)
  }

  predicate SameActs(a: Hw, b: Hw, p: nat, code: nat) {
    && (p in ActiveWord(a, code, EVR_REG_MAPRAM_CLEAR_OFFSET) <==> p in ActiveWord(b, code, EVR_REG_MAPRAM_CLEAR_OFFSET))
    && (p in ActiveWord(a, code, EVR_REG_MAPRAM_SET_OFFSET) <==> p in ActiveWord(b, code, EVR_REG_MAPRAM_SET_OFFSET))
    && (p in ActiveWord(a, code, EVR_REG_MAPRAM_TRIGGET_OFFSET) <==> p in ActiveWord(b, code, EVR_REG_MAPRAM_TRIGGET_OFFSET))
  }

  lemma SetOneCode(hw: Hw, p: PulseIndex, first: nat, actions: seq<BitSet8>, code: nat)
    requires Flushed(hw) && first + |actions| <= EVR_MAPRAM_EVENT_CODES && code < EVR_MAPRAM_EVENT_CODES
    ensures var hw' := MapRamSet(hw, p, first, actions);
      if first <= code < first + |actions| then Acts(hw', p, code, actions[code - first]) else SameActs(hw, hw', p, code)
  {
    hide ActiveWord, Flush, ActiveRam;
    var changed := hw.(ram := SetMap(hw.ram, p, first, actions));
    FlushedCard(changed);
    ActiveWords(hw, code);
    ActiveWords(Flush(changed), code);
  }

  // ----- one pulse generator

  /** The three parameters at their addresses. */
  predicate ParamsAre(hw: Hw, p: nat, prescaler: Word, delay: Word, width: Word) {
    var start := EVR_REG_PULSES + EVR_REG_PULSE_SLOT_SIZE * p;
    && Read(hw.regs, start + EVR_REG_PULSE_PRESC_OFFSET) == prescaler
    && Read(hw.regs, start + EVR_REG_PULSE_DELAY_OFFSET) == delay
    && Read(hw.regs, start + EVR_REG_PULSE_WIDTH_OFFSET) == width
  }

  function ControlWord(hw: Hw, p: nat): Word {
    Read(hw.regs, EVR_REG_PULSES + EVR_REG_PULSE_SLOT_SIZE * p + EVR_REG_PULSE_CTRL_OFFSET)
  }

  /** Each property has its bit in the control word. */
  predicate PropsAre(hw: Hw, p: nat, enable: bool, polarity: bool, cfg: BitSet8) {
    var w := ControlWord(hw, p);
    && (C_EVR_PULSE_ENA in w <==> enable)
    && (C_EVR_PULSE_POLARITY in w <==> polarity)
    && (C_EVR_PULSE_MAP_RESET_ENA in w <==> EVR_PULSE_CFG_BIT_CLEAR in cfg)
    && (C_EVR_PULSE_MAP_SET_ENA in w <==> EVR_PULSE_CFG_BIT_SET in cfg)
    && (C_EVR_PULSE_MAP_TRIG_ENA in w <==> EVR_PULSE_CFG_BIT_TRIGGER in cfg)
  }

  /** A value needs no more than so many bits; of none, a single one is allowed. */
  predicate HasBits(w: Word, bits: nat) { forall b | b in w :: b < if bits == 0 then 1 else bits }

  predicate ParamsHaveBits(bits: PulseBits, prescaler: Word, delay: Word, width: Word) {
    HasBits(prescaler, bits.prescaler) && HasBits(delay, bits.delay) && HasBits(width, bits.width)
  }

  lemma {:induction false} ValueAtLeast(w: set<nat>, n: nat, b: nat)
    requires b < n && b in w
    ensures ValueBelow(w, n) >= Pow2(b)
  {
    if b < n - 1 {
      ValueAtLeast(w, n - 1, b);
    }
  }

  lemma {:induction false} ValueStops(w: set<nat>, n: nat, m: nat)
    requires m <= n && forall b | b in w :: b < m
    ensures ValueBelow(w, n) == ValueBelow(w, m)
  {
    if m < n {
      ValueStops(w, n - 1, m);
    }
  }

  lemma {:induction false} Pow2Grows(m: nat, n: nat)
    requires m <= n
    ensures Pow2(m) <= Pow2(n)
  {
    if m < n {
      Pow2Grows(m, n - 1);
    }
  }

  /** A value is accepted for a property of so many bits exactly when it needs no more. */
  lemma TooLargeIsTooManyBits(w: Word, bits: nat)
    ensures TooLarge(w, bits) <==> !HasBits(w, bits)
  {
    var n := if bits == 0 then 1 else bits;
    assert Pow2(1) == 2;
    assert MaxForBitInfo(bits) == Pow2(n) - 1;
    if HasBits(w, bits) {
      var m := if n < 32 then n else 32;
      ValueStops(w, 32, m);
      ValueBound(w, m);
      Pow2Grows(m, n);
    } else {
      var b :| b in w && b >= n;
      ValueAtLeast(w, 32, b);
      Pow2Grows(n, b);
    }
  }

  lemma ParamsFitIff(bits: PulseBits, prescaler: Word, delay: Word, width: Word)
    ensures ParamsFit(bits, prescaler, delay, width) <==> ParamsHaveBits(bits, prescaler, delay, width)
  {
    hide HasBits, TooLarge;
    TooLargeIsTooManyBits(prescaler, bits.prescaler);
    TooLargeIsTooManyBits(delay, bits.delay);
    TooLargeIsTooManyBits(width, bits.width);
  }

  lemma ParamSetEffect(hw: Hw, bits: PulseBits, p: nat, prescaler: Word, delay: Word, width: Word)
    ensures var hw' := PulseParamSet(hw, bits, p, prescaler, delay, width);
      if ParamsHaveBits(bits, prescaler, delay, width) then ParamsAre(hw', p, prescaler, delay, width) else hw' == hw
  {
    hide ParamsFit, ParamsHaveBits;
    ParamsFitIff(bits, prescaler, delay, width);
  }

  lemma PropSetEffect(hw: Hw, p: nat, enable: bool, polarity: bool, cfg: BitSet8)
    ensures var hw' := PulsePropSet(hw, p, enable, polarity, cfg);
      PropsAre(hw', p, enable, polarity, cfg) && OtherPropBits(ControlWord(hw', p)) == OtherPropBits(ControlWord(hw, p))
  {
    hide PropWord;
    WordBits(ControlWord(hw, p), enable, polarity, cfg);
  }

  // ----- INIT

  /** Pulse generator q does nothing: its registers are 0 and no code acts on it. */
  ghost predicate Idle(hw: Hw, q: nat) {
    && (forall offset: nat | offset in {0, 4, 8, 12} :: Read(hw.regs, PulseReg(q, offset)) == {})
    && (forall k | 0 <= k < EVR_MAPRAM_EVENT_CODES :: NoAction(hw.ram[k], q))
    && (forall k | 0 <= k < EVR_MAPRAM_EVENT_CODES :: NoAction(ActiveRam(hw.regs)[k], q))
  }

  predicate NoAction(item: MapItem, q: nat) { q !in item.pulseClear && q !in item.pulseSet && q !in item.pulseTrigger }

  const C_EVR_MAP_HEARTBEAT_EVENT: nat := 5
  const C_EVR_MAP_RESETPRESC_EVENT: nat := 4
  const C_EVR_MAP_TIMESTAMP_RESET: nat := 3
  const C_EVR_MAP_TIMESTAMP_CLK: nat := 2
  const C_EVR_MAP_SECONDS_1: nat := 1
  const C_EVR_MAP_SECONDS_0: nat := 0

  /** The event code that causes an internal function, if INIT assigns one. */
  predicate Causes(code: nat, function_: nat) {
    || (function_ == C_EVR_MAP_SECONDS_0 && code == 0x70)
    || (function_ == C_EVR_MAP_SECONDS_1 && code == 0x71)
    || (function_ == C_EVR_MAP_HEARTBEAT_EVENT && code == 0x7a)
    || (function_ == C_EVR_MAP_RESETPRESC_EVENT && code == 0x7b)
    || (function_ == C_EVR_MAP_TIMESTAMP_CLK && code == 0x7c)
    || (function_ == C_EVR_MAP_TIMESTAMP_RESET && code == 0x7d)
  }

  lemma {:induction false} ClearedPulses(regs: Regs, count: nat, q: nat, offset: nat)
    requires q < count && offset in {0, 4, 8, 12}
    ensures Read(ClearPulses(regs, count), PulseReg(q, offset)) == {}
  {
    if q < count - 1 {
      ClearedPulses(regs, count - 1, q, offset);
      ClearPulseFrame(ClearPulses(regs, count - 1), count - 1, PulseReg(q, offset));
    }
  }

  lemma OutputsEnabledRegister(hw: Hw, a: nat)
    requires a != EVR_REG_CTRL
    ensures Read(OutputsEnabled(hw).regs, a) == Read(hw.regs, a)
  {
  }

  lemma InitPulseRegister(hw: Hw, count: nat, q: PulseIndex, offset: nat)
    requires q < count && offset in {0, 4, 8, 12}
    ensures Read(InitCard(hw, count).regs, PulseReg(q, offset)) == {}
  {
    hide ClearPulses;
    var cleared := hw.(regs := ClearPulses(hw.regs, count));
    ClearedPulses(hw.regs, count, q, offset);
    FlushPulseFrame(cleared.(ram := InitialRam()), q, offset);
    OutputsEnabledRegister(RamMapInit(cleared), PulseReg(q, offset));
  }

  /** INIT leaves every pulse generator idle. */
  lemma InitIdlesAll(hw: Hw, count: nat, q: PulseIndex)
    requires q < count
    ensures Idle(InitCard(hw, count), q)
  {
    hide InitCard, ActiveRam;
    InitCardFrame(hw, count);
    var hw' := InitCard(hw, count);
    forall offset: nat | offset in {0, 4, 8, 12} ensures Read(hw'.regs, PulseReg(q, offset)) == {} {
      InitPulseRegister(hw, count, q, offset);
    }
    forall k: nat | k < EVR_MAPRAM_EVENT_CODES ensures NoAction(InitialRam()[k], q) {
    }
    assert ActiveRam(hw'.regs) == InitialRam();
  }

  /** After INIT the hardware does exactly the six internal functions, each at its code,
      and saves no code. */
  lemma InitFunctions(hw: Hw, count: nat, code: nat, function_: nat)
    requires code < EVR_MAPRAM_EVENT_CODES
    ensures function_ in ActiveWord(InitCard(hw, count), code, EVR_REG_MAPRAM_INT_FUNC_OFFSET) <==> Causes(code, function_)
  {
    hide InitCard;
    InitCardFrame(hw, count);
    ActiveWords(InitCard(hw, count), code);
    assert InitialRam()[code].intEvent == InitialFunction(code);
  }

  lemma {:induction false} ClearPulsesCtrl(regs: Regs, count: nat)
    ensures Read(ClearPulses(regs, count), EVR_REG_CTRL) == Read(regs, EVR_REG_CTRL)
  {
    ClearPulsesFrame(regs, count, EVR_REG_CTRL);
  }

  /** INIT enables the outputs and changes no other bit of CTRL but those of the banks. */
  lemma InitOtherCtrl(hw: Hw, count: nat)
    ensures OtherCtrl(InitCard(hw, count).regs) == OtherCtrl(hw.regs) + {C_EVR_CTRL_OUTEN}
  {
    hide ClearPulses, FlushWrites;
    var cleared := hw.(regs := ClearPulses(hw.regs, count));
    ClearPulsesCtrl(hw.regs, count);
    FlushOtherCtrl(cleared.(ram := InitialRam()));
  }

  // ----- a change of subscriptions

  lemma IrqSetRegister(hw: Hw, enabled: bool, granted: bool, a: nat)
    requires a != EVR_REG_IRQEN && a != EVR_REG_PCIE_INT_SLAC
    ensures Read(IrqSet(hw, enabled, granted).regs, a) == Read(hw.regs, a)
  {
  }

  lemma RefreshTailRegister(hw: Hw, prev: Word, subs: set<int>, a: nat)
    requires a != EVR_REG_IRQEN && a != EVR_REG_DATA_BUF_CTRL
    ensures Read(IrqEnabled(hw.(regs := DataBufCtrl(hw.regs, prev, subs)), prev, subs).regs, a) == Read(hw.regs, a)
  {
  }

  /** A refresh writes to no other registers than these below the MAP RAM. */
  lemma RefreshRegister(hw: Hw, subs: set<int>, granted: bool, a: nat)
    requires a < EVR_REG_MAPRAM1
    requires a != EVR_REG_CTRL && a != EVR_REG_IRQEN && a != EVR_REG_PCIE_INT_SLAC && a != EVR_REG_DATA_BUF_CTRL
    ensures Read(OnSubscribeChange(hw, subs, granted).regs, a) == Read(hw.regs, a)
  {
    var hw1 := IrqSet(hw, subs != {}, granted);
    var marked := FifoMarked(hw1.ram, subs);
    IrqSetRegister(hw, subs != {}, granted, a);
    FlushFrame(hw1.regs, marked, a);
    RefreshTailRegister(Flush(hw1.(ram := marked)), Read(hw1.regs, EVR_REG_IRQEN), subs, a);
  }

  lemma RefreshOtherCtrl(hw: Hw, subs: set<int>, granted: bool)
    ensures OtherCtrl(OnSubscribeChange(hw, subs, granted).regs) == OtherCtrl(hw.regs)
  {
    hide FlushWrites;
    var hw1 := IrqSet(hw, subs != {}, granted);
    var marked := hw1.(ram := FifoMarked(hw1.ram, subs));
    IrqSetRegister(hw, subs != {}, granted, EVR_REG_CTRL);
    FlushOtherCtrl(marked);
    RefreshTailRegister(Flush(marked), Read(hw1.regs, EVR_REG_IRQEN), subs, EVR_REG_CTRL);
  }

  /** The data buffer loads while its event is subscribed, and is stopped without. */
  predicate DataBufferInStep(hw: Hw, subs: set<int>) {
    Read(hw.regs, EVR_REG_DATA_BUF_CTRL)
    == if EVRMA_EVENT_DBUF_DATA in subs then {C_EVR_DATABUF_MODE, C_EVR_DATABUF_LOAD} else {C_EVR_DATABUF_STOP}
  }

  lemma IrqSetOtherBits(hw: Hw, enabled: bool, granted: bool, bit: nat)
    requires bit < 32 && bit != C_EVR_IRQ_PCIEE
    ensures bit in Read(IrqSet(hw, enabled, granted).regs, EVR_REG_IRQEN) <==> bit in Read(hw.regs, EVR_REG_IRQEN)
  {
  }

  lemma RefreshDataBuffer(hw: Hw, before: set<int>, subs: set<int>, granted: bool)
    requires IrqInSync(hw, before) && DataBufferInStep(hw, before)
    ensures DataBufferInStep(OnSubscribeChange(hw, subs, granted), subs)
  {
    hide FlushWrites, FifoMarked;
    var hw1 := IrqSet(hw, subs != {}, granted);
    var prev := Read(hw1.regs, EVR_REG_IRQEN);
    var hw2 := Flush(hw1.(ram := FifoMarked(hw1.ram, subs)));
    IrqSetRegister(hw, subs != {}, granted, EVR_REG_DATA_BUF_CTRL);
    IrqSetOtherBits(hw, subs != {}, granted, C_EVR_IRQFLAG_DATABUF);
    FlushFrame(hw1.regs, FifoMarked(hw1.ram, subs), EVR_REG_DATA_BUF_CTRL);
    DataBufBit(hw, before);
  }

  lemma DataBufBit(hw: Hw, subs: set<int>)
    requires IrqInSync(hw, subs)
    ensures C_EVR_IRQFLAG_DATABUF in Read(hw.regs, EVR_REG_IRQEN) <==> EVRMA_EVENT_DBUF_DATA in subs
  {
  }

  /** Whether the bridge passes interrupts on, for the bridges that are told so in the
      registers of the card. */
  predicate BridgeOn(hw: Hw) {
    match hw.bridge
    case Plain => false
    case Lattice => C_EVR_IRQ_PCIEE in Read(hw.regs, EVR_REG_IRQEN)
    case Slac => Read(hw.regs, EVR_REG_PCIE_INT_SLAC) != {}
  }

  /** A refresh switches the bridge on when interrupts come to be needed and are granted,
      off when they stop being needed, and otherwise leaves it. */
  lemma RefreshBridge(hw: Hw, subs: set<int>, granted: bool)
    ensures var hw' := OnSubscribeChange(hw, subs, granted);
      && hw'.bridge == hw.bridge
      && (hw'.irqEnabled <==> subs != {})
      && (!hw.bridge.Plain? ==>
            (BridgeOn(hw') <==> if hw.irqEnabled == (subs != {}) || (subs != {} && !granted) then BridgeOn(hw) else subs != {}))
  {
    hide FlushWrites, FifoMarked;
    var hw1 := IrqSet(hw, subs != {}, granted);
    var marked := hw1.(ram := FifoMarked(hw1.ram, subs));
    SubscribeKeepsBridgeBit(hw, subs, granted);
    KeptIsBit(Read(hw1.regs, EVR_REG_IRQEN));
    KeptIsBit(Read(OnSubscribeChange(hw, subs, granted).regs, EVR_REG_IRQEN));
    FlushFrame(hw1.regs, marked.ram, EVR_REG_PCIE_INT_SLAC);
    RefreshTailRegister(Flush(marked), Read(hw1.regs, EVR_REG_IRQEN), subs, EVR_REG_PCIE_INT_SLAC);
  }

  lemma KeptIsBit(w: Word)
    ensures C_EVR_IRQ_PCIEE in KeptIrqBits(w) <==> C_EVR_IRQ_PCIEE in w
  {
  }

  // ----- a card that has been set up

  /** The internal functions of every code are those that belong to it, apart from the
      saving of codes. */
  predicate FunctionsSet(ram: MapRam) {
    forall k, b | 0 <= k < EVR_MAPRAM_EVENT_CODES && 0 <= b < 32 && b != C_EVR_MAP_SAVE_EVENT ::
      b in ram[k].intEvent <==> Causes(k, b)
  }

  lemma InitialFunctions(subs: set<int>)
    ensures FunctionsSet(InitialRam()) && FunctionsSet(FifoMarked(InitialRam(), subs))
  {
  }

  lemma RefreshFunctions(hw: Hw, subs: set<int>, granted: bool)
    requires FunctionsSet(hw.ram)
    ensures FunctionsSet(OnSubscribeChange(hw, subs, granted).ram)
  {
    assert OnSubscribeChange(hw, subs, granted).ram == FifoMarked(hw.ram, subs);
  }

  /** Set up for no subscriptions, with the MAP RAM enabled. */
  predicate Ready(hw: Hw) {
    && InSync(hw, {}) && !hw.irqEnabled
    && DataBufferInStep(hw, {})
    && C_EVR_CTRL_MAP_RAM_ENABLE in Read(hw.regs, EVR_REG_CTRL)
    && FunctionsSet(hw.ram)
  }

  lemma RefreshEnablesRam(hw: Hw, subs: set<int>, granted: bool)
    ensures C_EVR_CTRL_MAP_RAM_ENABLE in Read(OnSubscribeChange(hw, subs, granted).regs, EVR_REG_CTRL)
  {
    hide FlushWrites, FifoMarked;
    var hw1 := IrqSet(hw, subs != {}, granted);
    var marked := hw1.(ram := FifoMarked(hw1.ram, subs));
    FlushKeepsCtrl(marked.regs, marked.ram);
    RefreshTailRegister(Flush(marked), Read(hw1.regs, EVR_REG_IRQEN), subs, EVR_REG_CTRL);
  }

  lemma RefreshStopsDataBuffer(hw: Hw, granted: bool)
    ensures DataBufferInStep(OnSubscribeChange(hw, {}, granted), {})
  {
    hide Flush;
  }

  /** A change to no subscriptions after the MAP RAM was initialised sets the card up,
      whatever was in its registers. */
  lemma CreatedReady(hw: Hw, granted: bool)
    requires hw.ram == InitialRam()
    ensures Ready(OnSubscribeChange(hw, {}, granted))
  {
    hide OnSubscribeChange, InSync, FunctionsSet, DataBufferInStep;
    SubscribeSynchronises(hw, {}, granted);
    RefreshStopsDataBuffer(hw, granted);
    RefreshEnablesRam(hw, {}, granted);
    InitialFunctions({});
    RefreshFunctions(hw, {}, granted);
    RefreshBridge(hw, {}, granted);
  }
}
