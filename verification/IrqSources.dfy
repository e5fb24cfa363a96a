/** The interrupts that the card is asked for against the events that its interrupts
    bring: a source is enabled exactly if one of its events is subscribed. */
module IrqSources {
  import opened Words
  import opened Evr
  import opened EvrCard
  import opened EvrEffects
  import opened EventList
  import opened Device
  import opened DeviceHw
  import opened Isr

  /** The flags with a source of their own. */
  predicate IsSource(flag: nat) {
    || flag == C_EVR_IRQFLAG_DATABUF || flag == C_EVR_IRQFLAG_EVENT || flag == C_EVR_IRQFLAG_FIFOFULL
    || flag == C_EVR_IRQFLAG_PULSE || flag == C_EVR_IRQFLAG_HEARTBEAT || flag == C_EVR_IRQFLAG_VIOLATION
  }

  /** An interrupt with that flag alone can bring the event. */
  ghost predicate Brings(flag: nat, fifo: FifoReads, c: int)
    requires flag < 32
  {
    exists i :: 0 <= i < |IsrEvents({flag}, fifo)| && IsrEvents({flag}, fifo)[i].event == c
  }

  ghost predicate CanBring(flag: nat, c: int)
    requires flag < 32
  {
    exists fifo: FifoReads :: Brings(flag, fifo, c)
  }

  function SameCode(c: int): FifoReads
    requires 0 <= c < EVR_MAPRAM_EVENT_CODES
  {
    seq(EVR_FIFO_EVENT_LIMIT, _ => FifoRead(c, 0, 0, false))
  }

  lemma OnlyFifo(fifo: FifoReads)
    ensures IsrEvents({C_EVR_IRQFLAG_EVENT}, fifo) == FifoEvents(fifo, Turns(fifo, 0))
  {
    hide FifoEvents, Turns;
    assert [] + FifoEvents(fifo, Turns(fifo, 0)) == FifoEvents(fifo, Turns(fifo, 0));
  }

  lemma BringsFifo(c: int)
    ensures CanBring(C_EVR_IRQFLAG_EVENT, c) <==> 0 <= c < EVR_MAPRAM_EVENT_CODES
  {
    hide IsrEvents, Turns;
    forall fifo: FifoReads ensures Brings(C_EVR_IRQFLAG_EVENT, fifo, c) ==> 0 <= c < EVR_MAPRAM_EVENT_CODES {
      OnlyFifo(fifo);
    }
    if 0 <= c < EVR_MAPRAM_EVENT_CODES {
      var fifo := SameCode(c);
      OnlyFifo(fifo);
      assert IsrEvents({C_EVR_IRQFLAG_EVENT}, fifo)[0] == FifoEvent(fifo[0]);
      assert Brings(C_EVR_IRQFLAG_EVENT, fifo, c);
    }
  }

  lemma BringsOne(flag: nat, event: int, fifo: FifoReads, c: int)
    requires flag < 32 && |IsrEvents({flag}, fifo)| == 1 && IsrEvents({flag}, fifo)[0].event == event
    ensures Brings(flag, fifo, c) <==> c == event
  {
    assert IsrEvents({flag}, fifo)[0].event == event;
  }

  /** An interrupt with a flag that is not that of the FIFO brings one event. */
  lemma OneEvent(flag: nat, event: int, fifo: FifoReads)
    requires IsSource(flag)
    requires NoteOfFlag(flag, event) || (flag == C_EVR_IRQFLAG_DATABUF && event == EVRMA_EVENT_DBUF_DATA)
    ensures |IsrEvents({flag}, fifo)| == 1 && IsrEvents({flag}, fifo)[0].event == event
  {
    hide FifoEvents, Turns;
  }

  lemma BringsOnly(flag: nat, event: int, c: int)
    requires IsSource(flag)
    requires NoteOfFlag(flag, event) || (flag == C_EVR_IRQFLAG_DATABUF && event == EVRMA_EVENT_DBUF_DATA)
    ensures CanBring(flag, c) <==> c == event
  {
    hide IsrEvents;
    forall fifo: FifoReads ensures Brings(flag, fifo, c) <==> c == event {
      OneEvent(flag, event, fifo);
      BringsOne(flag, event, fifo, c);
    }
    assert Brings(flag, SameCode(0), c) <==> c == event;
  }

  /** A source is enabled exactly if an event that its interrupts can bring is
      subscribed, interrupts at all exactly if anything is, and nothing else is enabled
      but what belongs to the bridge. */
  lemma EnabledIffSubscribed(hw: Hw, subs: set<int>, flag: nat)
    requires IrqInSync(hw, subs)
    ensures var irqen := Read(hw.regs, EVR_REG_IRQEN);
      && (IsSource(flag) ==> (flag in irqen <==> exists c :: c in subs && CanBring(flag, c)))
      && (C_EVR_IRQ_MASTER_ENABLE in irqen <==> subs != {})
      && forall b | b in irqen :: IsSource(b) || b == C_EVR_IRQ_MASTER_ENABLE || b == C_EVR_IRQ_PCIEE
  {
    hide CanBring;
    if flag == C_EVR_IRQFLAG_EVENT {
      forall c ensures CanBring(flag, c) <==> 0 <= c < EVR_MAPRAM_EVENT_CODES {
        BringsFifo(c);
      }
    } else if IsSource(flag) {
      var event :=
        if flag == C_EVR_IRQFLAG_DATABUF then EVRMA_EVENT_DBUF_DATA
        else if flag == C_EVR_IRQFLAG_FIFOFULL then EVRMA_EVENT_ERROR_LOST
        else if flag == C_EVR_IRQFLAG_PULSE then EVRMA_EVENT_DELAYED_IRQ
        else if flag == C_EVR_IRQFLAG_HEARTBEAT then EVRMA_EVENT_ERROR_HEART
        else EVRMA_EVENT_ERROR_TAXI;
      forall c ensures CanBring(flag, c) <==> c == event {
        BringsOnly(flag, event, c);
      }
      if event in subs {
        assert CanBring(flag, event);
      }
    }
  }

  /** After any change of subscriptions, from any state of the card. */
  lemma RefreshEnables(hw: Hw, subs: set<int>, granted: bool, flag: nat)
    ensures var hw' := OnSubscribeChange(hw, subs, granted);
      var irqen := Read(hw'.regs, EVR_REG_IRQEN);
      && (IsSource(flag) ==> (flag in irqen <==> exists c :: c in subs && CanBring(flag, c)))
      && (C_EVR_IRQ_MASTER_ENABLE in irqen <==> subs != {})
      && forall b | b in irqen :: IsSource(b) || b == C_EVR_IRQ_MASTER_ENABLE || b == C_EVR_IRQ_PCIEE
  {
    hide OnSubscribeChange, CanBring, IsSource;
    SubscribeSynchronises(hw, subs, granted);
    EnabledIffSubscribed(OnSubscribeChange(hw, subs, granted), subs, flag);
  }

  /** In every run, while the device is there, each source is enabled exactly if an event
      that it can bring has a subscriber. */
  lemma SourcesFollowSubscribers(d0: Dev, ops: seq<Op>, flag: nat)
    requires Start(d0) && Run(d0, ops).live && IsSource(flag)
    ensures var d := Run(d0, ops);
      flag in Read(d.hw.regs, EVR_REG_IRQEN)
      <==> exists s: Subscriber, c: int :: Subscribed(d.table, s, c) && CanBring(flag, c)
  {
    hide CanBring, Run, IsSource;
    var d := Run(d0, ops);
    HardwareFollows(d0, ops);
    EnabledIffSubscribed(d.hw, Union(d.table), flag);
    forall c: int ensures c in Union(d.table) <==> exists s: Subscriber :: Subscribed(d.table, s, c) {
      UnionIsSubscribed(d.table, c);
    }
  }
}
