/** The activity counter of src/pci-evr.c: what keeps the interrupt routine and the
    switching of interrupts away from a card that is being removed. */
module PciEvr {

  /** How far a card has come: being probed, in use, and the stages of its removal:
      2 taken from the counter, the interrupt given back, cleaned up. */
  datatype Phase = Probing | Bound | Subtracted | Freed | CleanedUp

  /** evrma_pci_irq_set: not running; past its check of the counter; done with the
      interrupt but not yet with the flag. It runs under the mutex. */
  datatype Setter = NotSetting | Checked(enabled: bool) | Acted(enabled: bool)

  /** Interrupt routines in flight are counted by where they are: past the increment,
      in the body, or past a check that failed. 'registered' is how many more times
      the interrupt was requested than given back, 'refusals' how many requests the
      system turned down. */
  datatype Pci = Pci(
    phase: Phase,
    activity: int,
    counted: nat,
    body: nat,
    skipping: nat,
    setter: Setter,
    irqEnabled: bool,
    registered: int,
    refusals: nat)
  {
    function InFlight(): nat { counted + body + skipping }
  }

  datatype Action =
    | FinishProbe
    | IsrStart | IsrCheck | IsrBodyEnds | IsrSkipEnds
    | SetCheck(enabled: bool) | SetAct(granted: bool) | SetStore
    | RemoveSubtract | RemoveFree | RemoveLook

  function Act(s: Pci, enabled: bool, granted: bool): Pci {
    if enabled && !s.irqEnabled then
      (if granted then s.(registered := s.registered + 1) else s.(refusals := s.refusals + 1))
    else if !enabled && s.irqEnabled then s.(registered := s.registered - 1)
    else s
  }

  /** 'serial': the system runs one interrupt routine of the card at a time. */
  function Step(s: Pci, a: Action, serial: bool): Pci {
    match a
    case FinishProbe => if s.phase.Probing? then s.(phase := Bound, activity := 2) else s
    case IsrStart =>
      if s.phase.Probing? || (serial && s.InFlight() > 0) then s
      else s.(activity := s.activity + 1, counted := s.counted + 1)
    case IsrCheck =>
      if s.counted == 0 then s
      else if s.activity >= 2 then s.(counted := s.counted - 1, body := s.body + 1)
      else s.(counted := s.counted - 1, skipping := s.skipping + 1)
    case IsrBodyEnds => if s.body == 0 then s else s.(body := s.body - 1, activity := s.activity - 1)
    case IsrSkipEnds => if s.skipping == 0 then s else s.(skipping := s.skipping - 1, activity := s.activity - 1)
    case SetCheck(enabled) => if s.setter.NotSetting? && s.activity >= 2 then s.(setter := Checked(enabled)) else s
    case SetAct(granted) =>
      if s.setter.Checked? then Act(s, s.setter.enabled, granted).(setter := Acted(s.setter.enabled)) else s
    case SetStore => if s.setter.Acted? then s.(irqEnabled := s.setter.enabled, setter := NotSetting) else s
    case RemoveSubtract =>
      if s.phase.Bound? && s.setter.NotSetting? then s.(phase := Subtracted, activity := s.activity - 2) else s
    case RemoveFree =>
      if s.phase.Subtracted? then s.(phase := Freed, registered := s.registered - if s.irqEnabled then 1 else 0) else s
    case RemoveLook => if s.phase.Freed? && !(s.activity > 0) then s.(phase := CleanedUp) else s
  }

  /** A slot that has just been seized. */
  function Seized(): Pci { Pci(Probing, 0, 0, 0, 0, NotSetting, false, 0, 0) }

  function Run(schedule: seq<Action>, serial: bool): Pci {
    if schedule == [] then Seized()
    else Step(Run(schedule[..|schedule| - 1], serial), schedule[|schedule| - 1], serial)
  }

  /** Whether the driver should hold the interrupt. */
  function Wanted(s: Pci): int {
    if s.phase.Freed? || s.phase.CleanedUp? then 0
    else if s.setter.Acted? then (if s.setter.enabled then 1 else 0)
    else if s.irqEnabled then 1 else 0
  }

  // ----- with any number of interrupt routines

  /** What a card in use has in the counter. */
  function Share(phase: Phase): int { if phase.Bound? then 2 else 0 }

  predicate CounterInv(s: Pci) { s.activity == Share(s.phase) + s.counted + s.body + s.skipping }

  lemma CounterStep(s: Pci, a: Action, serial: bool)
    requires CounterInv(s) && (s.phase.Probing? ==> s.InFlight() == 0)
    ensures CounterInv(Step(s, a, serial))
    ensures Step(s, a, serial).phase.Probing? ==> Step(s, a, serial).InFlight() == 0
  {
  }

  lemma {:induction false} CounterIsActivity(schedule: seq<Action>, serial: bool)
    ensures var s := Run(schedule, serial);
      CounterInv(s) && (s.phase.Probing? ==> s.InFlight() == 0)
  {
    hide Step;
    if schedule != [] {
      CounterIsActivity(schedule[..|schedule| - 1], serial);
      CounterStep(Run(schedule[..|schedule| - 1], serial), schedule[|schedule| - 1], serial);
    }
  }

  // ----- with one interrupt routine at a time

  predicate SerialInv(s: Pci) {
    && CounterInv(s)
    && s.InFlight() <= 1
    && (s.phase.Probing? ==> s.InFlight() == 0)
    && (s.phase.CleanedUp? ==> s.body == 0)
    && (!s.phase.Bound? ==> s.setter.NotSetting?)
    && s.registered == Wanted(s) - s.refusals
  }

  lemma SerialStep(s: Pci, a: Action, serial: bool)
    requires SerialInv(s) && serial
    ensures SerialInv(Step(s, a, serial))
  {
  }

  lemma SeizedInv(s: Pci)
    requires s.phase.Probing? && s.activity == 0 && s.counted == 0 && s.body == 0 && s.skipping == 0
    requires s.setter.NotSetting? && !s.irqEnabled && s.registered == 0 && s.refusals == 0
    ensures SerialInv(s)
  {
  }

  lemma {:induction false} SerialRun(schedule: seq<Action>, serial: bool)
    requires serial
    ensures SerialInv(Run(schedule, serial))
  {
    hide Step, Wanted, CounterInv;
    if schedule == [] {
      SeizedInv(Seized());
    } else {
      SerialRun(schedule[..|schedule| - 1], serial);
      SerialStep(Run(schedule[..|schedule| - 1], serial), schedule[|schedule| - 1], serial);
    }
  }

  /** The card is cleaned up only while no interrupt routine is past its check, and
      none gets there afterwards; interrupts are switched only while the card is in
      use, never once the removal has taken its 2. */
  lemma RemovalIsSafe(schedule: seq<Action>)
    ensures var s := Run(schedule, true);
      && s.activity == Share(s.phase) + s.InFlight()
      && (s.phase.CleanedUp? ==> s.body == 0)
      && (!s.setter.NotSetting? ==> s.phase.Bound?)
  {
    SerialRun(schedule, true);
  }

  /** The wait of the removal ends exactly when no interrupt routine is in flight. */
  lemma WaitEndsIffQuiet(schedule: seq<Action>)
    requires Run(schedule, true).phase.Freed?
    ensures Step(Run(schedule, true), RemoveLook, true).phase.CleanedUp? <==> Run(schedule, true).InFlight() == 0
  {
    SerialRun(schedule, true);
  }

  /** The interrupt is held exactly as often as it is wanted if and only if the
      system has never turned down a request: the driver notes a request as done
      even when it was refused, and gives back later what it never got. */
  lemma BalancedIffGranted(schedule: seq<Action>)
    ensures var s := Run(schedule, true);
      && (s.registered == Wanted(s) <==> s.refusals == 0)
      && (s.refusals == 0 ==> 0 <= s.registered <= 1)
      && (s.refusals == 0 && (s.phase.Freed? || s.phase.CleanedUp?) ==> s.registered == 0)
  {
    SerialRun(schedule, true);
  }

  /** One refused request is enough: the removal gives back an interrupt that the
      driver does not have. */
  lemma RefusedThenFreed(schedule: seq<Action>)
    requires var s := Run(schedule, true);
      s.phase.Bound? && s.setter.NotSetting? && !s.irqEnabled && s.registered == 0
    ensures Run(schedule + [SetCheck(true)] + [SetAct(false)] + [SetStore] + [RemoveSubtract] + [RemoveFree], true).registered == -1
  {
    CounterIsActivity(schedule, true);
    var s2 := Step(Step(Run(schedule, true), SetCheck(true), true), SetAct(false), true);
    assert s2.setter == Acted(true) && s2.registered == 0;
    RunAppend(schedule, SetCheck(true), true);
    RunAppend(schedule + [SetCheck(true)], SetAct(false), true);
    RunAppend(schedule + [SetCheck(true)] + [SetAct(false)], SetStore, true);
    RunAppend(schedule + [SetCheck(true)] + [SetAct(false)] + [SetStore], RemoveSubtract, true);
    RunAppend(schedule + [SetCheck(true)] + [SetAct(false)] + [SetStore] + [RemoveSubtract], RemoveFree, true);
  }

  /** One routine at a time is needed: with two in flight the counter stays at 2 after
      the removal has taken its share, and interrupts can be switched on a card that
      is being removed. */
  lemma TwoRoutinesDefeatTheCheck(schedule: seq<Action>)
    requires var s := Run(schedule, false);
      s.phase.Bound? && s.setter.NotSetting? && s.InFlight() == 0
    ensures var s := Run(schedule + [IsrStart] + [IsrStart] + [RemoveSubtract] + [SetCheck(true)], false);
      s.phase.Subtracted? && s.setter.Checked?
  {
    CounterIsActivity(schedule, false);
    var s0 := Run(schedule, false);
    var s1 := Step(s0, IsrStart, false);
    var s2 := Step(s1, IsrStart, false);
    var s3 := Step(s2, RemoveSubtract, false);
    assert s3.activity == 2 && s3.setter.NotSetting?;
    RunAppend(schedule, IsrStart, false);
    RunAppend(schedule + [IsrStart], IsrStart, false);
    RunAppend(schedule + [IsrStart] + [IsrStart], RemoveSubtract, false);
    RunAppend(schedule + [IsrStart] + [IsrStart] + [RemoveSubtract], SetCheck(true), false);
  }

  lemma RunAppend(schedule: seq<Action>, a: Action, serial: bool)
    ensures Run(schedule + [a], serial) == Step(Run(schedule, serial), a, serial)
  {
    assert (schedule + [a])[..|schedule + [a]| - 1] == schedule;
  }

  // ----- the card in place

  /** struct pci_mrf_data as far as the counter and the interrupt are concerned. */
  class PciCard {
    var phase: Phase
    var activity: int
    var irqEnabled: bool
    var registered: int
    var refusals: nat

    /** The card between calls, with no interrupt routine in flight. */
    ghost function Abs(): Pci
      reads this
    {
      Pci(phase, activity, 0, 0, 0, NotSetting, irqEnabled, registered, refusals)
    }

    constructor ()
      ensures Abs() == Seized()
    {
      phase, activity, irqEnabled, registered, refusals := Probing, 0, false, 0, 0;
    }

    method FinishProbe()
      requires phase.Probing?
      modifies this
      ensures Abs() == Step(old(Abs()), Action.FinishProbe, true)
    {
      activity := 2;
      phase := Bound;
    }

    /** evrma_pci_isr for an interrupt that is the card's; whether its body ran. */
    method Isr() returns (ran: bool)
      modifies this`activity
      ensures ran <==> old(activity) >= 1
      ensures Abs() == old(Abs())
    {
      activity := activity + 1;
      ran := activity >= 2;
      activity := activity - 1;
    }

    /** evrma_pci_irq_set */
    method IrqSet(enabled: bool, granted: bool)
      modifies this
      ensures Abs() == Step(Step(Step(old(Abs()), SetCheck(enabled), true), SetAct(granted), true), SetStore, true)
    {
      if activity >= 2 {
        if enabled && !irqEnabled {
          if granted {
            registered := registered + 1;
          } else {
            refusals := refusals + 1;
          }
        } else if !enabled && irqEnabled {
          registered := registered - 1;
        }
        irqEnabled := enabled;
      }
    }

    /** evrma_pci_remove up to its wait. */
    method BeginRemove()
      requires phase.Bound?
      modifies this
      ensures Abs() == Step(Step(old(Abs()), RemoveSubtract, true), RemoveFree, true)
    {
      activity := activity - 2;
      phase := Subtracted;
      if irqEnabled {
        registered := registered - 1;
      }
      phase := Freed;
    }
  }
}
