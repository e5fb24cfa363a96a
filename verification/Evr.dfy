/** The event receiver card of src/evr.c and src/evr-irq-events.c: its registers,
    the shadow of the MAP RAM kept by the driver, and the operations on them. */
module Evr {
  import opened Words

  // ----- register addresses and bits

  const EVR_REG_CTRL: nat := 0x0004
  const EVR_REG_IRQEN: nat := 0x000C
  const EVR_REG_PCIE_INT_SLAC: nat := 0x0014
  const EVR_REG_DATA_BUF_CTRL: nat := 0x0020
  const EVR_REG_PULSES: nat := 0x0200
  const EVR_REG_MAPRAM1: nat := 0x4000
  const EVR_REG_MAPRAM2: nat := 0x5000

  const EVR_REG_PULSE_SLOT_SIZE: nat := 16
  const EVR_REG_PULSE_CTRL_OFFSET: nat := 0x0
  const EVR_REG_PULSE_PRESC_OFFSET: nat := 0x4
  const EVR_REG_PULSE_DELAY_OFFSET: nat := 0x8
  const EVR_REG_PULSE_WIDTH_OFFSET: nat := 0xC

  const EVR_REG_MAPRAM_SLOT_SIZE: nat := 16
  const EVR_REG_MAPRAM_CLEAR_OFFSET: nat := 12
  const EVR_REG_MAPRAM_SET_OFFSET: nat := 8
  const EVR_REG_MAPRAM_TRIGGET_OFFSET: nat := 4
  const EVR_REG_MAPRAM_INT_FUNC_OFFSET: nat := 0
  const EVR_MAPRAM_EVENT_CODES: nat := 256
  const EVR_MAX_PULSEGEN_COUNT: nat := 16

  const C_EVR_CTRL_OUTEN: nat := 27
  const C_EVR_CTRL_MAP_RAM_ENABLE: nat := 9
  const C_EVR_CTRL_MAP_RAM_SELECT: nat := 8

  const C_EVR_IRQ_MASTER_ENABLE: nat := 31
  const C_EVR_IRQ_PCIEE: nat := 30
  const C_EVR_IRQFLAG_DATABUF: nat := 5
  const C_EVR_IRQFLAG_PULSE: nat := 4
  const C_EVR_IRQFLAG_EVENT: nat := 3
  const C_EVR_IRQFLAG_HEARTBEAT: nat := 2
  const C_EVR_IRQFLAG_FIFOFULL: nat := 1
  const C_EVR_IRQFLAG_VIOLATION: nat := 0

  const C_EVR_DATABUF_LOAD: nat := 15
  const C_EVR_DATABUF_STOP: nat := 14
  const C_EVR_DATABUF_MODE: nat := 12

  const C_EVR_PULSE_POLARITY: nat := 4
  const C_EVR_PULSE_MAP_RESET_ENA: nat := 3
  const C_EVR_PULSE_MAP_SET_ENA: nat := 2
  const C_EVR_PULSE_MAP_TRIG_ENA: nat := 1
  const C_EVR_PULSE_ENA: nat := 0

  const C_EVR_MAP_SAVE_EVENT: nat := 31

  const EVR_PULSE_CFG_BIT_CLEAR: nat := 0
  const EVR_PULSE_CFG_BIT_SET: nat := 1
  const EVR_PULSE_CFG_BIT_TRIGGER: nat := 2

  const EVRMA_EVENT_ERROR_TAXI := 0x100
  const EVRMA_EVENT_ERROR_LOST := 0x101
  const EVRMA_EVENT_ERROR_HEART := 0x102
  const EVRMA_EVENT_DELAYED_IRQ := 0x104
  const EVRMA_EVENT_DBUF_DATA := 0x105

  // ----- registers

  type Regs = map<nat, Word>

  function Read(regs: Regs, address: nat): Word { if address in regs then regs[address] else {} }

  datatype RegWrite = RegWrite(address: nat, value: Word)

  /** The registers after a sequence of writes. */
  function Apply(regs: Regs, writes: seq<RegWrite>): Regs {
    if writes == [] then regs
    else
      var last := writes[|writes| - 1];
      Apply(regs, writes[..|writes| - 1])[last.address := last.value]
  }

  lemma {:induction false} ApplyConcat(regs: Regs, a: seq<RegWrite>, b: seq<RegWrite>)
    ensures Apply(regs, a + b) == Apply(Apply(regs, a), b)
  {
    if b == [] {
      assert a + b == a;
    } else {
      assert (a + b)[..|a + b| - 1] == a + b[..|b| - 1];
      ApplyConcat(regs, a, b[..|b| - 1]);
    }
  }

  lemma {:induction false} ApplyMiss(regs: Regs, writes: seq<RegWrite>, address: nat)
    requires forall i | 0 <= i < |writes| :: writes[i].address != address
    ensures Read(Apply(regs, writes), address) == Read(regs, address)
  {
    if writes != [] {
      ApplyMiss(regs, writes[..|writes| - 1], address);
    }
  }

  // ----- the MAP RAM and its shadow

  /** One event code of the MAP RAM: the internal functions and, for each pulse
      generator, a bit in each of the three action words. */
  datatype MapItem = MapItem(intEvent: Word, pulseTrigger: Word, pulseSet: Word, pulseClear: Word)

  type MapRam = r: seq<MapItem> | |r| == EVR_MAPRAM_EVENT_CODES
    witness seq(EVR_MAPRAM_EVENT_CODES, _ => MapItem({}, {}, {}, {}))

  function SlotAddress(base: nat, k: nat): nat { base + k * EVR_REG_MAPRAM_SLOT_SIZE }

  /** The four writes for one event code, in the order of save_map_ram. */
  function ItemWrites(base: nat, k: nat, item: MapItem): (ws: seq<RegWrite>)
    ensures |ws| == 4
  {
    [ RegWrite(SlotAddress(base, k) + EVR_REG_MAPRAM_CLEAR_OFFSET, item.pulseClear),
      RegWrite(SlotAddress(base, k) + EVR_REG_MAPRAM_SET_OFFSET, item.pulseSet),
      RegWrite(SlotAddress(base, k) + EVR_REG_MAPRAM_TRIGGET_OFFSET, item.pulseTrigger),
      RegWrite(SlotAddress(base, k) + EVR_REG_MAPRAM_INT_FUNC_OFFSET, item.intEvent) ]
  }

  function SaveWrites(base: nat, ram: MapRam, n: nat): (ws: seq<RegWrite>)
    requires n <= EVR_MAPRAM_EVENT_CODES
    ensures |ws| == 4 * n
  {
    if n == 0 then [] else SaveWrites(base, ram, n - 1) + ItemWrites(base, n - 1, ram[n - 1])
  }

  function BankItem(regs: Regs, base: nat, k: nat): MapItem {
    MapItem(
      Read(regs, SlotAddress(base, k) + EVR_REG_MAPRAM_INT_FUNC_OFFSET),
      Read(regs, SlotAddress(base, k) + EVR_REG_MAPRAM_TRIGGET_OFFSET),
      Read(regs, SlotAddress(base, k) + EVR_REG_MAPRAM_SET_OFFSET),
      Read(regs, SlotAddress(base, k) + EVR_REG_MAPRAM_CLEAR_OFFSET))
  }

  /** The bank the hardware works with, and the one it does not. */
  function ActiveBase(ctrl: Word): nat {
    if C_EVR_CTRL_MAP_RAM_SELECT in ctrl then EVR_REG_MAPRAM2 else EVR_REG_MAPRAM1
  }

  function InactiveBase(ctrl: Word): nat {
    if C_EVR_CTRL_MAP_RAM_SELECT in ctrl then EVR_REG_MAPRAM1 else EVR_REG_MAPRAM2
  }

  /** The MAP RAM as the hardware sees it. */
  function ActiveRam(regs: Regs): MapRam {
    seq(EVR_MAPRAM_EVENT_CODES, k requires 0 <= k < EVR_MAPRAM_EVENT_CODES =>
      BankItem(regs, ActiveBase(Read(regs, EVR_REG_CTRL)), k))
  }

  function SwitchedCtrl(ctrl: Word): Word {
    (ctrl - {C_EVR_CTRL_MAP_RAM_ENABLE, C_EVR_CTRL_MAP_RAM_SELECT})
    + {C_EVR_CTRL_MAP_RAM_ENABLE}
    + if InactiveBase(ctrl) == EVR_REG_MAPRAM2 then {C_EVR_CTRL_MAP_RAM_SELECT} else {}
  }

  /** All the writes of evr_ram_map_change_flush. */
  function FlushWrites(regs: Regs, ram: MapRam): seq<RegWrite> {
    var ctrl := Read(regs, EVR_REG_CTRL);
    SaveWrites(InactiveBase(ctrl), ram, EVR_MAPRAM_EVENT_CODES) + [RegWrite(EVR_REG_CTRL, SwitchedCtrl(ctrl))]
  }

  lemma {:induction false} SaveWriteAt(base: nat, ram: MapRam, n: nat, i: nat)
    requires n <= EVR_MAPRAM_EVENT_CODES && i < 4 * n
    ensures SaveWrites(base, ram, n)[i] == ItemWrites(base, i / 4, ram[i / 4])[i % 4]
  {
    if i < 4 * (n - 1) {
      SaveWriteAt(base, ram, n - 1, i);
    } else {
      assert i / 4 == n - 1;
    }
  }

  lemma ItemUntouched(regs: Regs, writes: seq<RegWrite>, base: nat, k: nat)
    requires forall i | 0 <= i < |writes| ::
               !(SlotAddress(base, k) <= writes[i].address < SlotAddress(base, k) + EVR_REG_MAPRAM_SLOT_SIZE)
    ensures BankItem(Apply(regs, writes), base, k) == BankItem(regs, base, k)
  {
    ApplyMiss(regs, writes, SlotAddress(base, k) + EVR_REG_MAPRAM_CLEAR_OFFSET);
    ApplyMiss(regs, writes, SlotAddress(base, k) + EVR_REG_MAPRAM_SET_OFFSET);
    ApplyMiss(regs, writes, SlotAddress(base, k) + EVR_REG_MAPRAM_TRIGGET_OFFSET);
    ApplyMiss(regs, writes, SlotAddress(base, k) + EVR_REG_MAPRAM_INT_FUNC_OFFSET);
  }

  lemma {:induction false} SavedBank(regs: Regs, base: nat, ram: MapRam, n: nat, k: nat)
    requires k < n <= EVR_MAPRAM_EVENT_CODES
    ensures BankItem(Apply(regs, SaveWrites(base, ram, n)), base, k) == ram[k]
  {
    var before := SaveWrites(base, ram, n - 1);
    var four := ItemWrites(base, n - 1, ram[n - 1]);
    var mid := Apply(regs, before);
    ApplyConcat(regs, before, four);
    if k < n - 1 {
      SavedBank(regs, base, ram, n - 1, k);
      ItemUntouched(mid, four, base, k);
    } else {
      FourWrites(mid, base, k, ram[k]);
    }
  }

  lemma ApplyFour(regs: Regs, base: nat, k: nat, item: MapItem)
    ensures var ws := ItemWrites(base, k, item);
      Apply(regs, ws) == regs[ws[0].address := ws[0].value][ws[1].address := ws[1].value]
                             [ws[2].address := ws[2].value][ws[3].address := ws[3].value]
  {
    var ws := ItemWrites(base, k, item);
    assert ws[..3][..2] == ws[..2] && ws[..2][..1] == ws[..1] && ws[..1][..0] == [];
    assert Apply(regs, ws[..1]) == regs[ws[0].address := ws[0].value];
    assert Apply(regs, ws[..2]) == Apply(regs, ws[..1])[ws[1].address := ws[1].value];
    assert Apply(regs, ws[..3]) == Apply(regs, ws[..2])[ws[2].address := ws[2].value];
  }

  lemma FourWrites(regs: Regs, base: nat, k: nat, item: MapItem)
    ensures BankItem(Apply(regs, ItemWrites(base, k, item)), base, k) == item
  {
    ApplyFour(regs, base, k, item);
  }

  predicate InBank(base: nat, address: nat) { base <= address < base + EVR_MAPRAM_EVENT_CODES * EVR_REG_MAPRAM_SLOT_SIZE }

  /** A flush writes each word of the inactive bank once, and then CTRL. */
  lemma FlushWriteAddresses(regs: Regs, ram: MapRam)
    ensures var ws := FlushWrites(regs, ram);
      var base := InactiveBase(Read(regs, EVR_REG_CTRL));
      && |ws| == 1025
      && (forall i | 0 <= i < 1024 :: InBank(base, ws[i].address))
      && (forall i, j | 0 <= i < j < 1024 :: ws[i].address != ws[j].address)
      && ws[1024].address == EVR_REG_CTRL
  {
    var base := InactiveBase(Read(regs, EVR_REG_CTRL));
    forall i | 0 <= i < 1024
      ensures FlushWrites(regs, ram)[i].address == base + 16 * (i / 4) + 12 - 4 * (i % 4)
    {
      SaveWriteAt(base, ram, EVR_MAPRAM_EVENT_CODES, i);
    }
  }

  /** Up to the write of CTRL the hardware sees the old MAP RAM, whatever part of
      the new one has been written; after it, exactly the new one. */
  lemma FlushIsAtomic(regs: Regs, ram: MapRam, done: nat)
    requires done <= 1025
    ensures |FlushWrites(regs, ram)| == 1025
    ensures ActiveRam(Apply(regs, FlushWrites(regs, ram)[..done])) == if done < 1025 then ActiveRam(regs) else ram
  {
    FlushWriteAddresses(regs, ram);
    var ws := FlushWrites(regs, ram);
    var ctrl := Read(regs, EVR_REG_CTRL);
    if done < 1025 {
      var regs' := Apply(regs, ws[..done]);
      ApplyMiss(regs, ws[..done], EVR_REG_CTRL);
      forall k: nat | k < EVR_MAPRAM_EVENT_CODES
        ensures BankItem(regs', ActiveBase(ctrl), k) == BankItem(regs, ActiveBase(ctrl), k)
      {
        ItemUntouched(regs, ws[..done], ActiveBase(ctrl), k);
      }
    } else {
      FlushResult(regs, ram);
      assert ws[..done] == ws;
    }
  }

  lemma FlushResult(regs: Regs, ram: MapRam)
    ensures ActiveRam(Apply(regs, FlushWrites(regs, ram))) == ram
  {
    var ctrl := Read(regs, EVR_REG_CTRL);
    var save := SaveWrites(InactiveBase(ctrl), ram, EVR_MAPRAM_EVENT_CODES);
    var ws := FlushWrites(regs, ram);
    assert ws[..|ws| - 1] == save;
    assert Apply(regs, ws) == Apply(regs, save)[EVR_REG_CTRL := SwitchedCtrl(ctrl)];
    forall k: nat | k < EVR_MAPRAM_EVENT_CODES
      ensures BankItem(Apply(regs, ws), InactiveBase(ctrl), k) == ram[k]
    {
      SavedBank(regs, InactiveBase(ctrl), ram, EVR_MAPRAM_EVENT_CODES, k);
    }
  }

  /** A flush touches the MAP RAM banks and two bits of CTRL only. */
  lemma FlushFrame(regs: Regs, ram: MapRam, address: nat)
    requires address < EVR_REG_MAPRAM1
    ensures address != EVR_REG_CTRL ==> Read(Apply(regs, FlushWrites(regs, ram)), address) == Read(regs, address)
    ensures Read(Apply(regs, FlushWrites(regs, ram)), EVR_REG_CTRL) == SwitchedCtrl(Read(regs, EVR_REG_CTRL))
  {
    FlushWriteAddresses(regs, ram);
    if address != EVR_REG_CTRL {
      ApplyMiss(regs, FlushWrites(regs, ram), address);
    }
  }
}
