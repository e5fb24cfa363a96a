/** Who owns what, over whole runs of the device: the owner table names live
    VIRT_DEVs only and agrees with the list that each VIRT_DEV keeps. */
module DeviceOwners {
  import opened EvrCard
  import opened EventList
  import opened Rm
  import opened Device

  /** The resources of type t that the owner table gives to id. */
  ghost function Owned(d: Dev, id: nat, t: nat): set<int>
    requires Shape(d) && t < 2
  {
    set x | 0 <= x < d.Defs()[t].count && GetOwner(d.Defs(), d.states, t, x) == Owner(id)
  }

  /** The list of a VIRT_DEV for one type: distinct resources that it owns, as
      many as it owns up to the length of the table that holds the list. */
  ghost predicate ListInv(d: Dev, id: nat, t: nat)
    requires Shape(d) && id in d.vdevs && t < 2
  {
    assert ListsOk(d, d.vdevs[id]);
    var list := d.vdevs[id].lists[t];
    var owned := |Owned(d, id, t)|;
    && (forall i, j | 0 <= i < j < |list| :: list[i] != list[j])
    && (forall i | 0 <= i < |list| :: list[i] in Owned(d, id, t))
    && |list| == if owned <= MODAC_RES_PER_VIRT_DEV_MAX_COUNT then owned else MODAC_RES_PER_VIRT_DEV_MAX_COUNT
  }

  ghost predicate OwnersLive(d: Dev)
    requires Shape(d)
  {
    forall t, x | Resource(d.Defs(), t, x) && GetOwner(d.Defs(), d.states, t, x).Owner? ::
      GetOwner(d.Defs(), d.states, t, x).id in d.vdevs.Keys
  }

  ghost predicate OwnInv(d: Dev) {
    && Shape(d)
    && OwnersLive(d)
    && forall id, t | id in d.vdevs && 0 <= t < 2 :: ListInv(d, id, t)
  }

  lemma SameLists(d: Dev, d': Dev, id: nat, t: nat)
    requires Shape(d) && Shape(d') && id in d.vdevs && id in d'.vdevs && t < 2
    requires d'.vdevs[id].lists == d.vdevs[id].lists && Owned(d', id, t) == Owned(d, id, t)
    requires ListInv(d, id, t)
    ensures ListInv(d', id, t)
  {
    assert ListsOk(d', d'.vdevs[id]);
  }

  lemma QuietOwners(d: Dev, op: Op)
    requires OwnInv(d) && Quiet(op)
    ensures OwnInv(Step(d, op))
  {
    var d' := Step(d, op);
    StepShape(d, op);
    QuietStep(d, op);
    forall id, t | id in d'.vdevs && 0 <= t < 2 ensures ListInv(d', id, t) {
      assert ListInv(d, id, t);
      SameLists(d, d', id, t);
    }
  }

  lemma CreateOwners(d: Dev, id: nat, name: string, nodeMade: bool)
    requires OwnInv(d)
    ensures OwnInv(DoCreate(d, id, name, nodeMade))
  {
    var d' := DoCreate(d, id, name, nodeMade);
    CreateShape(d, id, name, nodeMade);
    forall k, t | k in d'.vdevs && 0 <= t < 2 ensures ListInv(d', k, t) {
      assert Owned(d', k, t) == Owned(d, k, t);
      if k in d.vdevs {
        assert ListInv(d, k, t);
        SameLists(d, d', k, t);
      } else {
        assert Owned(d, k, t) == {};
      }
    }
  }

  lemma DestroyOwners(d: Dev, id: nat, granted: bool)
    requires OwnInv(d)
    ensures OwnInv(DoDestroy(d, id, granted))
  {
    hide OnSubscribeChange, Layout, RemoveAll, FreeOwner;
    var d' := DoDestroy(d, id, granted);
    DestroyShape(d, id, granted);
    FreeOwnerOwners(d.Defs(), d.states, id);
    if d' != d {
      forall k, t | k in d'.vdevs && 0 <= t < 2 ensures ListInv(d', k, t) {
        assert Owned(d', k, t) == Owned(d, k, t);
        assert ListInv(d, k, t);
        SameLists(d, d', k, t);
      }
    }
  }

  /** The list of the VIRT_DEV that an allocation serves. */
  lemma AllocList(d: Dev, d': Dev, id: nat, t: nat, x: nat)
    requires Shape(d) && Shape(d') && id in d.vdevs && id in d'.vdevs && t < 2
    requires ListInv(d, id, t) && x !in Owned(d, id, t)
    requires Owned(d', id, t) == Owned(d, id, t) + {x}
    requires t < |d.vdevs[id].lists| && d'.vdevs[id] == ResAdd(d.vdevs[id], t, x)
    ensures ListInv(d', id, t)
  {
    assert ListsOk(d', d'.vdevs[id]);
    assert |Owned(d', id, t)| == |Owned(d, id, t)| + 1;
  }

  /** What an allocation that succeeds adds to the resources owned. */
  lemma AllocOwned(d: Dev, id: nat, resName: string, fixedIndex: int, args: Filters, k: nat, t: nat)
    requires Shape(d) && t < 2
    requires Shape(DoAlloc(d, id, resName, fixedIndex, args)) && DoAlloc(d, id, resName, fixedIndex, args) != d
    ensures var d' := DoAlloc(d, id, resName, fixedIndex, args);
      var o := AllocOutcomeOf(d.Defs(), d.states, resName, fixedIndex, args);
      && o.Seized?
      && var rt, rx := d.states[o.at].resType, d.states[o.at].arrayIndex;
      && Resource(d.Defs(), rt, rx) && GetOwner(d.Defs(), d.states, rt, rx) == Unowned
      && Owned(d', k, t) == if k == id && t == rt then Owned(d, k, t) + {rx} else Owned(d, k, t)
  {
    var d' := DoAlloc(d, id, resName, fixedIndex, args);
    var o := AllocOutcomeOf(d.Defs(), d.states, resName, fixedIndex, args);
    AllocOwners(d.Defs(), d.states, resName, fixedIndex, args, id);
    var rt, rx := d.states[o.at].resType, d.states[o.at].arrayIndex;
    PlaceHolds(d.Defs(), d.states, rt, rx);
    forall x | 0 <= x < d.Defs()[t].count
      ensures x in Owned(d', k, t) <==> x in Owned(d, k, t) || (k == id && t == rt && x == rx)
    {
      assert Resource(d.Defs(), t, x);
    }
  }

  lemma AllocLists(d: Dev, id: nat, resName: string, fixedIndex: int, args: Filters, k: nat, t: nat)
    requires OwnInv(d) && t < 2 && k in d.vdevs
    requires Shape(DoAlloc(d, id, resName, fixedIndex, args))
    ensures ListInv(DoAlloc(d, id, resName, fixedIndex, args), k, t)
  {
    var d' := DoAlloc(d, id, resName, fixedIndex, args);
    assert ListInv(d, k, t);
    if d' != d {
      AllocOwned(d, id, resName, fixedIndex, args, k, t);
      var o := AllocOutcomeOf(d.Defs(), d.states, resName, fixedIndex, args);
      assert ListsOk(d, d.vdevs[k]) && ListsOk(d', d'.vdevs[k]);
      if k == id && t == d.states[o.at].resType {
        AllocList(d, d', id, t, d.states[o.at].arrayIndex);
      }
    }
  }

  lemma AllocKeepsOwners(d: Dev, id: nat, resName: string, fixedIndex: int, args: Filters)
    requires OwnInv(d)
    ensures OwnInv(DoAlloc(d, id, resName, fixedIndex, args))
  {
    var d' := DoAlloc(d, id, resName, fixedIndex, args);
    AllocShape(d, id, resName, fixedIndex, args);
    AllocOwners(d.Defs(), d.states, resName, fixedIndex, args, id);
    forall k, t | k in d'.vdevs && 0 <= t < 2 ensures ListInv(d', k, t) {
      AllocLists(d, id, resName, fixedIndex, args, k, t);
    }
  }

  lemma StepOwners(d: Dev, op: Op)
    requires OwnInv(d)
    ensures OwnInv(Step(d, op))
  {
    if Quiet(op) {
      QuietOwners(d, op);
    } else {
      match op
      case Create(id, name, nodeMade) => CreateOwners(d, id, name, nodeMade);
      case Destroy(id, granted) => DestroyOwners(d, id, granted);
      case Alloc(id, resName, fixedIndex, args) => AllocKeepsOwners(d, id, resName, fixedIndex, args);
    }
  }

  lemma {:induction false} RunOwners(d0: Dev, ops: seq<Op>)
    requires Start(d0)
    ensures OwnInv(Run(d0, ops))
  {
    if ops == [] {
      forall t, x | Resource(d0.Defs(), t, x) ensures GetOwner(d0.Defs(), d0.states, t, x) == Unowned {
        PlaceHolds(d0.Defs(), d0.states, t, x);
      }
    } else {
      RunOwners(d0, ops[..|ops| - 1]);
      StepOwners(Run(d0, ops[..|ops| - 1]), ops[|ops| - 1]);
    }
  }

  // ----- what every run guarantees

  function Listed(list: seq<nat>): set<int> { set i | 0 <= i < |list| :: list[i] }

  lemma {:induction false} ListedCount(list: seq<nat>)
    requires forall i, j | 0 <= i < j < |list| :: list[i] != list[j]
    ensures |Listed(list)| == |list|
  {
    if list != [] {
      var last := |list| - 1;
      ListedCount(list[..last]);
      assert Listed(list) == Listed(list[..last]) + {list[last]};
    }
  }

  lemma SubsetEqual(a: set<int>, b: set<int>)
    requires a <= b && |a| == |b|
    ensures a == b
  {
    assert b == a + (b - a);
  }

  /** In every reachable state: each owner is a live VIRT_DEV; what a VIRT_DEV lists
      is distinct and its own; and its list for a type is all that it owns exactly
      when that is no more than the list can hold. */
  lemma OwnershipAgreement(d0: Dev, ops: seq<Op>, id: nat, t: nat)
    requires Start(d0) && t < 2
    requires id in Run(d0, ops).vdevs
    ensures var d := Run(d0, ops);
      && OwnersLive(d)
      && ListsOk(d, d.vdevs[id])
      && (forall i, j | 0 <= i < j < |d.vdevs[id].lists[t]| :: d.vdevs[id].lists[t][i] != d.vdevs[id].lists[t][j])
      && Listed(d.vdevs[id].lists[t]) <= Owned(d, id, t)
      && (Listed(d.vdevs[id].lists[t]) == Owned(d, id, t) <==> |Owned(d, id, t)| <= MODAC_RES_PER_VIRT_DEV_MAX_COUNT)
  {
    RunOwners(d0, ops);
    var d := Run(d0, ops);
    assert ListsOk(d, d.vdevs[id]);
    assert ListInv(d, id, t);
    var list := d.vdevs[id].lists[t];
    ListedCount(list);
    if |Owned(d, id, t)| <= MODAC_RES_PER_VIRT_DEV_MAX_COUNT {
      SubsetEqual(Listed(list), Owned(d, id, t));
    }
  }

  /** No resource is in the lists of two VIRT_DEVs. */
  lemma ListsDisjoint(d0: Dev, ops: seq<Op>, id: nat, other: nat, t: nat)
    requires Start(d0) && t < 2 && id != other
    requires id in Run(d0, ops).vdevs && other in Run(d0, ops).vdevs
    ensures var d := Run(d0, ops);
      && ListsOk(d, d.vdevs[id]) && ListsOk(d, d.vdevs[other])
      && Listed(d.vdevs[id].lists[t]) !! Listed(d.vdevs[other].lists[t])
  {
    OwnershipAgreement(d0, ops, id, t);
    OwnershipAgreement(d0, ops, other, t);
    var d := Run(d0, ops);
    assert Owned(d, id, t) !! Owned(d, other, t);
  }

  /** The numbers that a VIRT_DEV uses always lead to resources that it owns: the
      ownership check of its calls never fails on a number in its list. */
  lemma ListedIsOwned(d0: Dev, ops: seq<Op>, id: nat, relType: int, relIndex: int)
    requires Start(d0) && id in Run(d0, ops).vdevs
    ensures var d := Run(d0, ops);
      match VresDesc(d.vdevs[id], relType, relIndex)
      case NotFound => true
      case Found(t, x) => t < 2 && GetOwner(d.Defs(), d.states, t, x) == Owner(id)
  {
    RunOwners(d0, ops);
    var d := Run(d0, ops);
    assert ListsOk(d, d.vdevs[id]);
    if 0 <= relType < 2 {
      assert ListInv(d, id, relType);
    }
  }
}
