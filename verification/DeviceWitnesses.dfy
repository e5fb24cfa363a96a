/** Runs of the device in which it does not do what one would expect: a resource owned
    but not listed, and events subscribed that the card does not save. */
module DeviceWitnesses {
  import opened Evr
  import opened EvrCard
  import opened EvrEffects
  import opened EventList
  import opened Rm
  import opened Device
  import opened DeviceTable
  import opened DeviceOwners
  import opened DeviceHw

  lemma RunAppend(d0: Dev, ops: seq<Op>, op: Op)
    requires Start(d0)
    ensures Run(d0, ops + [op]) == Step(Run(d0, ops), op)
  {
    hide Step;
    assert (ops + [op])[..|ops + [op]| - 1] == ops;
  }

  // ----- more than 32 resources of one type

  function UpTo(n: nat): seq<nat> { seq(n, k => k) }

  /** What the list of a VIRT_DEV holds of the first n outputs. */
  function WithOutputs(n: nat): VDev {
    VDev("", [[], UpTo(if n <= MODAC_RES_PER_VIRT_DEV_MAX_COUNT then n else MODAC_RES_PER_VIRT_DEV_MAX_COUNT)], 0, false)
  }

  lemma AddOutput(n: nat)
    ensures ResAdd(WithOutputs(n), 1, n) == WithOutputs(n + 1)
  {
    assert UpTo(n) + [n] == UpTo(n + 1);
  }

  /** VIRT_DEV 1 has been given the first n outputs. */
  ghost predicate GivenOutputs(d0: Dev, d: Dev, n: nat) {
    && Shape(d) && d.live
    && d.pulsegens == d0.pulsegens && d.outputs == d0.outputs
    && d.vdevs == map[1 := WithOutputs(n)]
    && forall x | 0 <= x < d.outputs ::
         GetOwner(d.Defs(), d.states, 1, x) == if x < n then Owner(1) else Unowned
  }

  lemma AfterCreate(d0: Dev)
    requires Start(d0)
    ensures GivenOutputs(d0, Run(d0, [Create(1, "", true)]), 0)
  {
    RunAppend(d0, [], Create(1, "", true));
    assert [] + [Create(1, "", true)] == [Create(1, "", true)];
    assert UpTo(0) == [];
    forall x | 0 <= x < d0.outputs ensures GetOwner(d0.Defs(), d0.states, 1, x) == Unowned {
      assert Resource(d0.Defs(), 1, x);
      PlaceHolds(d0.Defs(), d0.states, 1, x);
    }
  }

  lemma OneMoreOutput(d0: Dev, d: Dev, n: nat, args: Filters)
    requires GivenOutputs(d0, d, n) && n < d.outputs
    ensures GivenOutputs(d0, DoAlloc(d, 1, "output", n, args), n + 1)
  {
    hide Layout, TypeStart, AllocOutcomeOf;
    var d' := DoAlloc(d, 1, "output", n, args);
    assert d.Defs()[1].name == "output" && Resource(d.Defs(), 1, n);
    assert |d.Defs()[0].name| != |d.Defs()[1].name|;
    FixedTakesTheOne(d.Defs(), d.states, "output", n, args);
    AllocOwners(d.Defs(), d.states, "output", n, args, 1);
    PlaceHolds(d.Defs(), d.states, 1, n);
    AllocShape(d, 1, "output", n, args);
    AddOutput(n);
    var at := PlaceOf(d.Defs(), 1, n);
    assert AllocOutcomeOf(d.Defs(), d.states, "output", n, args) == Seized(at);
    assert d'.vdevs == d.vdevs[1 := ResAdd(d.vdevs[1], 1, n)];
    forall x | 0 <= x < d.outputs
      ensures GetOwner(d'.Defs(), d'.states, 1, x) == if x < n + 1 then Owner(1) else Unowned
    {
      assert Resource(d.Defs(), 1, x);
    }
  }

  lemma {:induction false} GiveOutputs(d0: Dev, n: nat, args: Filters) returns (ops: seq<Op>)
    requires Start(d0) && n <= d0.outputs
    ensures GivenOutputs(d0, Run(d0, ops), n)
  {
    hide Step, GivenOutputs;
    if n == 0 {
      AfterCreate(d0);
      ops := [Create(1, "", true)];
    } else {
      var before := GiveOutputs(d0, n - 1, args);
      RunAppend(d0, before, Alloc(1, "output", n - 1, args));
      LiveGiven(d0, Run(d0, before), n - 1, args);
      ops := before + [Alloc(1, "output", n - 1, args)];
    }
  }

  lemma LiveGiven(d0: Dev, d: Dev, n: nat, args: Filters)
    requires GivenOutputs(d0, d, n) && n < d0.outputs
    ensures GivenOutputs(d0, Step(d, Alloc(1, "output", n, args)), n + 1)
  {
    hide DoAlloc;
    OneMoreOutput(d0, d, n, args);
  }

  lemma CountGiven(d0: Dev, d: Dev, n: nat)
    requires GivenOutputs(d0, d, n) && n <= d.outputs
    ensures |Owned(d, 1, 1)| == n
  {
    hide Layout, GetOwner;
    ListedCount(UpTo(n));
    forall x | x in Owned(d, 1, 1) ensures x in Listed(UpTo(n)) {
      assert UpTo(n)[x] == x;
    }
    assert Owned(d, 1, 1) == Listed(UpTo(n));
  }

  /** On a card with more than 32 outputs a VIRT_DEV can own 33 of them and list 32. */
  lemma ListFallsBehind(d0: Dev, args: Filters) returns (ops: seq<Op>)
    requires Start(d0) && d0.outputs > MODAC_RES_PER_VIRT_DEV_MAX_COUNT
    ensures var d := Run(d0, ops);
      && 1 in d.vdevs && |d.vdevs[1].lists| == 2
      && |d.vdevs[1].lists[1]| == MODAC_RES_PER_VIRT_DEV_MAX_COUNT
      && |Owned(d, 1, 1)| == MODAC_RES_PER_VIRT_DEV_MAX_COUNT + 1
      && Listed(d.vdevs[1].lists[1]) != Owned(d, 1, 1)
  {
    hide Layout, TypeStart;
    ops := GiveOutputs(d0, MODAC_RES_PER_VIRT_DEV_MAX_COUNT + 1, args);
    CountGiven(d0, Run(d0, ops), MODAC_RES_PER_VIRT_DEV_MAX_COUNT + 1);
    OwnershipAgreement(d0, ops, 1, 1);
  }

  // ----- INIT while events are subscribed

  const NO_RESOURCES: Header := [Vres(MODAC_RES_TYPE_NONE, 0), Vres(MODAC_RES_TYPE_NONE, 0)]

  lemma SubscribedOnce(d0: Dev, e: nat) returns (ops: seq<Op>)
    requires Start(d0) && e < EVR_MAPRAM_EVENT_CODES
    ensures var d := Run(d0, ops);
      d.live && d.vdevs.Keys == {1} && e in Union(d.table)
  {
    hide OnSubscribeChange, Layout, Ready;
    var o1 := [Create(1, "", true)];
    var o2 := o1 + [Open(1)];
    var o3 := o2 + [CountOpen];
    ops := o3 + [Subscribe(1, e, SubscribeEvent, true)];
    assert [] + o1 == o1;
    RunAppend(d0, [], Create(1, "", true));
    RunAppend(d0, o1, Open(1));
    RunAppend(d0, o2, CountOpen);
    RunAppend(d0, o3, Subscribe(1, e, SubscribeEvent, true));
    var d3 := Run(d0, o3);
    assert d3.vdevs == map[1 := VDev("", [[], []], 1, false)] && d3.table == EmptyTable() && d3.live;
    SubscribeFirst(d3, e);
  }

  lemma SubscribeFirst(d: Dev, e: nat)
    requires Shape(d) && d.live && d.IsOpen(1) && d.table == EmptyTable() && InRange(e)
    ensures var d' := DoSubscribe(d, 1, e, SubscribeEvent, true);
      d'.live && d'.vdevs == d.vdevs && e in Union(d'.table)
  {
    hide OnSubscribeChange;
  }

  /** INIT with a header that names nothing runs while an event is subscribed, and the
      card does not save the event any more. */
  lemma InitLosesMarks(d0: Dev, e: nat) returns (ops: seq<Op>)
    requires Start(d0) && e < EVR_MAPRAM_EVENT_CODES
    ensures MarksLost(d0, ops)
    ensures var d := Run(d0, ops);
      d.live && e in Union(d.table) && !InSync(d.hw, Union(d.table))
  {
    hide InSync, InitCard, Layout;
    var before := SubscribedOnce(d0, e);
    ops := before + [Init(0, NO_RESOURCES)];
    RunAppend(d0, before, Init(0, NO_RESOURCES));
    assert ops[..|ops| - 1] == before;
    var d := Run(d0, before);
    assert InitRuns(d, 0, NO_RESOURCES);
    assert AnyFifoEvent(Union(d.table));
    HardwareFollows(d0, ops);
  }
}
