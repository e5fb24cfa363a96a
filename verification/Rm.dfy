/** The resource manager of src/rm.c: one flat table of owners for the resources
    of all types, with allocation by index or by best fit. */
module Rm {
  import opened EvrCard

  const NO_OWNER := -1
  const MODAC_RM_ALLOC_FROM_POOL := -1
  const MODAC_RES_TYPE_MAX_COUNT: nat := 16
  const MNG_DEV_IOCTL_RES_ARG_FILTER_MAX_COUNT: nat := 8

  type Filters = a: seq<int> | |a| == MNG_DEV_IOCTL_RES_ARG_FILTER_MAX_COUNT
    witness seq(MNG_DEV_IOCTL_RES_ARG_FILTER_MAX_COUNT, _ => 0)

  /** How suitable a free resource is: the 'suits' callback of its type. */
  datatype Suits = PulsegenSuits(pulsegens: PulseTable) | OutputSuits

  datatype ResDef = ResDef(name: string, count: nat, suits: Suits)

  /** Where the resources of one type are in the flat table. */
  datatype TypeData = TypeData(start: nat, count: nat)

  datatype ResState = ResState(resType: nat, arrayIndex: nat, owner: int)

  // ----- suitability

  /** pulsegen_property_suitability */
  function PropertySuitability(tested: int, wanted: int): int {
    if tested < wanted then 0 else 32 + wanted - tested + 1
  }

  /** pulsegen_suits */
  function PulsegenSuitability(pulsegens: PulseTable, index: int, args: Filters): int {
    if index < 0 || index >= |pulsegens| then 0
    else
      var s1 := PropertySuitability(pulsegens[index].prescaler, args[0]);
      if s1 < 1 then 0
      else
        var s2 := PropertySuitability(pulsegens[index].delay, args[1]);
        if s2 < 1 then 0
        else
          var s3 := PropertySuitability(pulsegens[index].width, args[2]);
          if s3 < 1 then 0 else s1 + s2 + s3
  }

  function Suitability(suits: Suits, index: int, args: Filters): int {
    match suits
    case PulsegenSuits(pulsegens) => PulsegenSuitability(pulsegens, index, args)
    case OutputSuits => 0
  }

  /** All three properties have the bits asked for, and at most 32 more. */
  predicate Meets(p: PulseBits, args: Filters) {
    && args[0] <= p.prescaler <= args[0] + 32
    && args[1] <= p.delay <= args[1] + 32
    && args[2] <= p.width <= args[2] + 32
  }

  function Surplus(p: PulseBits, args: Filters): int {
    (p.prescaler - args[0]) + (p.delay - args[1]) + (p.width - args[2])
  }

  /** A pulse generator suits exactly when it meets all three requests, and the
      better the fewer bits it wastes. */
  lemma SuitabilityIsSurplus(pulsegens: PulseTable, index: int, args: Filters)
    ensures PulsegenSuitability(pulsegens, index, args) > 0 <==> 0 <= index < |pulsegens| && Meets(pulsegens[index], args)
    ensures PulsegenSuitability(pulsegens, index, args) > 0 ==>
              PulsegenSuitability(pulsegens, index, args) == 99 - Surplus(pulsegens[index], args)
  {
  }

  // ----- the flat table

  /** The place of the first resource of a type. */
  function TypeStart(defs: seq<ResDef>, t: nat): nat
    requires t <= |defs|
  {
    if t == 0 then 0 else TypeStart(defs, t - 1) + defs[t - 1].count
  }

  lemma {:induction false} TypeStartMonotone(defs: seq<ResDef>, t: nat, u: nat)
    requires t < u <= |defs|
    ensures TypeStart(defs, t) + defs[t].count <= TypeStart(defs, u)
  {
    if t + 1 < u {
      TypeStartMonotone(defs, t, u - 1);
    }
  }

  predicate Resource(defs: seq<ResDef>, t: int, x: int) { 0 <= t < |defs| && 0 <= x < defs[t].count }

  function PlaceOf(defs: seq<ResDef>, t: nat, x: nat): nat
    requires Resource(defs, t, x)
  {
    TypeStart(defs, t) + x
  }

  /** Every resource has its place, every place its resource. */
  ghost predicate Layout(defs: seq<ResDef>, states: seq<ResState>) {
    && |states| == TypeStart(defs, |defs|)
    && forall i | 0 <= i < |states| ::
         Resource(defs, states[i].resType, states[i].arrayIndex) && i == PlaceOf(defs, states[i].resType, states[i].arrayIndex)
  }

  lemma PlacesDiffer(defs: seq<ResDef>, t: nat, x: nat, u: nat, y: nat)
    requires Resource(defs, t, x) && Resource(defs, u, y)
    ensures PlaceOf(defs, t, x) < TypeStart(defs, |defs|)
    ensures PlaceOf(defs, t, x) == PlaceOf(defs, u, y) ==> t == u && x == y
  {
    TypeStartMonotone(defs, t, |defs|);
    if t < u {
      TypeStartMonotone(defs, t, u);
    } else if u < t {
      TypeStartMonotone(defs, u, t);
    }
  }

  lemma PlaceHolds(defs: seq<ResDef>, states: seq<ResState>, t: nat, x: nat)
    requires Layout(defs, states) && Resource(defs, t, x)
    ensures PlaceOf(defs, t, x) < |states|
    ensures states[PlaceOf(defs, t, x)].resType == t && states[PlaceOf(defs, t, x)].arrayIndex == x
  {
    PlacesDiffer(defs, t, x, t, x);
    var s := states[PlaceOf(defs, t, x)];
    PlacesDiffer(defs, t, x, s.resType, s.arrayIndex);
  }

  // ----- allocation

  datatype AllocOutcome = Seized(at: nat) | AddrInUse | NoAccess

  predicate Named(defs: seq<ResDef>, s: ResState, name: string) { s.resType < |defs| && defs[s.resType].name == name }

  predicate Candidate(defs: seq<ResDef>, s: ResState, name: string) { Named(defs, s, name) && s.owner == NO_OWNER }

  function SuitabilityOf(defs: seq<ResDef>, s: ResState, args: Filters): int {
    if s.resType < |defs| then Suitability(defs[s.resType].suits, s.arrayIndex, args) else 0
  }

  /** The most suitable of the first n, the earliest on a tie; -1 for none. */
  function Best(defs: seq<ResDef>, states: seq<ResState>, name: string, args: Filters, n: nat): (b: int)
    requires n <= |states|
    ensures -1 <= b < n
  {
    if n == 0 then -1
    else
      var b := Best(defs, states, name, args, n - 1);
      if Candidate(defs, states[n - 1], name)
         && SuitabilityOf(defs, states[n - 1], args) > (if b < 0 then 0 else SuitabilityOf(defs, states[b], args))
      then n - 1 else b
  }

  /** The first resource with that name and index from n on. */
  function FirstFixed(defs: seq<ResDef>, states: seq<ResState>, name: string, index: int, n: nat): (f: nat)
    requires n <= |states|
    ensures n <= f <= |states|
    decreases |states| - n
  {
    if n == |states| || (Named(defs, states[n], name) && states[n].arrayIndex == index) then n
    else FirstFixed(defs, states, name, index, n + 1)
  }

  function AllocOutcomeOf(defs: seq<ResDef>, states: seq<ResState>, name: string, fixedIndex: int, args: Filters): (o: AllocOutcome)
    ensures o.Seized? ==> o.at < |states|
  {
    if fixedIndex == MODAC_RM_ALLOC_FROM_POOL then
      var b := Best(defs, states, name, args, |states|);
      if b >= 0 then Seized(b) else NoAccess
    else
      var f := FirstFixed(defs, states, name, fixedIndex, 0);
      if f == |states| then NoAccess
      else if states[f].owner != NO_OWNER then AddrInUse
      else Seized(f)
  }

  function AllocStates(states: seq<ResState>, o: AllocOutcome, owner: int): seq<ResState>
    requires o.Seized? ==> o.at < |states|
  {
    if o.Seized? then states[o.at := states[o.at].(owner := owner)] else states
  }

  lemma {:induction false} BestSpec(defs: seq<ResDef>, states: seq<ResState>, name: string, args: Filters, n: nat)
    requires n <= |states|
    ensures var b := Best(defs, states, name, args, n);
      && (b >= 0 ==> Candidate(defs, states[b], name) && SuitabilityOf(defs, states[b], args) > 0)
      && (forall j | 0 <= j < n && Candidate(defs, states[j], name) ::
            SuitabilityOf(defs, states[j], args) <= if b < 0 then 0 else SuitabilityOf(defs, states[b], args))
      && (forall j | 0 <= j < b && Candidate(defs, states[j], name) ::
            SuitabilityOf(defs, states[j], args) < SuitabilityOf(defs, states[b], args))
  {
    if n > 0 {
      BestSpec(defs, states, name, args, n - 1);
    }
  }

  /** Pool allocation of pulse generators: it fails exactly when no free one meets
      the request; otherwise it takes a free one that does, with the least
      surplus of all that do, and the first of those. */
  lemma PoolTakesBestFit(defs: seq<ResDef>, states: seq<ResState>, name: string, pulsegens: PulseTable, args: Filters)
    requires Layout(defs, states)
    requires forall t | 0 <= t < |defs| && defs[t].name == name :: defs[t].suits == PulsegenSuits(pulsegens)
    ensures var o := AllocOutcomeOf(defs, states, name, MODAC_RM_ALLOC_FROM_POOL, args);
      && (o.NoAccess? <==> forall j | 0 <= j < |states| :: !FreeFit(defs, states[j], name, pulsegens, args))
      && (o.Seized? ==>
            && FreeFit(defs, states[o.at], name, pulsegens, args)
            && (forall j | 0 <= j < |states| && FreeFit(defs, states[j], name, pulsegens, args) ::
                  Surplus(pulsegens[states[o.at].arrayIndex], args) <= Surplus(pulsegens[states[j].arrayIndex], args))
            && (forall j | 0 <= j < o.at && FreeFit(defs, states[j], name, pulsegens, args) ::
                  Surplus(pulsegens[states[o.at].arrayIndex], args) < Surplus(pulsegens[states[j].arrayIndex], args)))
      && !o.AddrInUse?
  {
    BestSpec(defs, states, name, args, |states|);
    forall j | 0 <= j < |states| && Candidate(defs, states[j], name)
      ensures FreeFit(defs, states[j], name, pulsegens, args) <==> SuitabilityOf(defs, states[j], args) > 0
      ensures FreeFit(defs, states[j], name, pulsegens, args) ==>
                SuitabilityOf(defs, states[j], args) == 99 - Surplus(pulsegens[states[j].arrayIndex], args)
    {
      SuitabilityIsSurplus(pulsegens, states[j].arrayIndex, args);
    }
  }

  predicate FreeFit(defs: seq<ResDef>, s: ResState, name: string, pulsegens: PulseTable, args: Filters) {
    Candidate(defs, s, name) && s.arrayIndex < |pulsegens| && Meets(pulsegens[s.arrayIndex], args)
  }

  /** With requests that are not negative and properties of at most 32 bits, to
      meet a request is to have at least the bits asked for. */
  lemma MeetsIsEnoughBits(p: PulseBits, args: Filters)
    requires p.prescaler <= 32 && p.delay <= 32 && p.width <= 32
    requires args[0] >= 0 && args[1] >= 0 && args[2] >= 0
    ensures Meets(p, args) <==> args[0] <= p.prescaler && args[1] <= p.delay && args[2] <= p.width
  {
  }

  // ----- ownership

  datatype OwnerResult = Owner(id: int) | Unowned | BadDescriptor

  /** modac_rm_get_owner: no search. */
  function GetOwner(defs: seq<ResDef>, states: seq<ResState>, t: int, x: int): OwnerResult
    requires |states| == TypeStart(defs, |defs|)
  {
    if !Resource(defs, t, x) then BadDescriptor
    else
      PlacesDiffer(defs, t, x, t, x);
      var owner := states[PlaceOf(defs, t, x)].owner;
      if owner == NO_OWNER then Unowned else Owner(owner)
  }

  /** The same by a linear scan. */
  function ScanOwner(states: seq<ResState>, t: int, x: int): OwnerResult {
    if states == [] then BadDescriptor
    else if states[0].resType == t && states[0].arrayIndex == x then
      (if states[0].owner == NO_OWNER then Unowned else Owner(states[0].owner))
    else ScanOwner(states[1..], t, x)
  }

  lemma {:induction false} ScanFinds(states: seq<ResState>, t: int, x: int, i: nat)
    requires i <= |states|
    requires forall j | 0 <= j < i :: !(states[j].resType == t && states[j].arrayIndex == x)
    requires i < |states| ==> states[i].resType == t && states[i].arrayIndex == x
    ensures ScanOwner(states, t, x)
         == if i == |states| then BadDescriptor else if states[i].owner == NO_OWNER then Unowned else Owner(states[i].owner)
  {
    if i > 0 {
      ScanFinds(states[1..], t, x, i - 1);
    }
  }

  /** The direct look-up agrees with the scan, for every type and index. */
  lemma LookupAgreesWithScan(defs: seq<ResDef>, states: seq<ResState>, t: int, x: int)
    requires Layout(defs, states)
    ensures GetOwner(defs, states, t, x) == ScanOwner(states, t, x)
  {
    if Resource(defs, t, x) {
      PlaceHolds(defs, states, t, x);
      ScanFinds(states, t, x, PlaceOf(defs, t, x));
    } else {
      ScanFinds(states, t, x, |states|);
    }
  }

  /** Changing owners only does not move resources. */
  lemma LayoutKept(defs: seq<ResDef>, states: seq<ResState>, states': seq<ResState>)
    requires Layout(defs, states) && |states'| == |states|
    requires forall i | 0 <= i < |states| ::
               states'[i].resType == states[i].resType && states'[i].arrayIndex == states[i].arrayIndex
    ensures Layout(defs, states')
  {
    forall i | 0 <= i < |states'|
      ensures Resource(defs, states'[i].resType, states'[i].arrayIndex) && i == PlaceOf(defs, states'[i].resType, states'[i].arrayIndex)
    {
      assert Resource(defs, states[i].resType, states[i].arrayIndex);
    }
  }

  lemma SeizedOwner(defs: seq<ResDef>, states: seq<ResState>, at: nat, owner: int, t: int, x: int)
    requires Layout(defs, states) && at < |states| && owner != NO_OWNER
    requires Resource(defs, t, x)
    ensures GetOwner(defs, AllocStates(states, Seized(at), owner), t, x)
         == if t == states[at].resType && x == states[at].arrayIndex then Owner(owner) else GetOwner(defs, states, t, x)
  {
    PlaceHolds(defs, states, t, x);
  }

  /** What one allocation does to every look-up. */
  lemma AllocOwners(defs: seq<ResDef>, states: seq<ResState>, name: string, fixedIndex: int, args: Filters, owner: int)
    requires Layout(defs, states) && owner != NO_OWNER
    ensures var o := AllocOutcomeOf(defs, states, name, fixedIndex, args);
      var states' := AllocStates(states, o, owner);
      && Layout(defs, states')
      && (o.Seized? ==>
            && states[o.at].owner == NO_OWNER
            && Named(defs, states[o.at], name)
            && (fixedIndex != MODAC_RM_ALLOC_FROM_POOL ==> states[o.at].arrayIndex == fixedIndex))
      && forall t, x | Resource(defs, t, x) ::
           GetOwner(defs, states', t, x)
           == if o.Seized? && t == states[o.at].resType && x == states[o.at].arrayIndex then Owner(owner)
              else GetOwner(defs, states, t, x)
  {
    var o := AllocOutcomeOf(defs, states, name, fixedIndex, args);
    AllocTarget(defs, states, name, fixedIndex, args);
    LayoutKept(defs, states, AllocStates(states, o, owner));
    if o.Seized? {
      forall t, x | Resource(defs, t, x)
        ensures GetOwner(defs, AllocStates(states, o, owner), t, x)
             == if t == states[o.at].resType && x == states[o.at].arrayIndex then Owner(owner) else GetOwner(defs, states, t, x)
      {
        SeizedOwner(defs, states, o.at, owner, t, x);
      }
    }
  }

  lemma AllocTarget(defs: seq<ResDef>, states: seq<ResState>, name: string, fixedIndex: int, args: Filters)
    ensures var o := AllocOutcomeOf(defs, states, name, fixedIndex, args);
      o.Seized? ==>
        && states[o.at].owner == NO_OWNER
        && Named(defs, states[o.at], name)
        && (fixedIndex != MODAC_RM_ALLOC_FROM_POOL ==> states[o.at].arrayIndex == fixedIndex)
  {
    if fixedIndex == MODAC_RM_ALLOC_FROM_POOL {
      BestSpec(defs, states, name, args, |states|);
    } else {
      FirstFixedSpec(defs, states, name, fixedIndex, 0);
    }
  }

  lemma {:induction false} FirstFixedSpec(defs: seq<ResDef>, states: seq<ResState>, name: string, index: int, n: nat)
    requires n <= |states|
    ensures var f := FirstFixed(defs, states, name, index, n);
      && (f < |states| ==> Named(defs, states[f], name) && states[f].arrayIndex == index)
      && forall j | n <= j < f :: !(Named(defs, states[j], name) && states[j].arrayIndex == index)
    decreases |states| - n
  {
    if n < |states| && !(Named(defs, states[n], name) && states[n].arrayIndex == index) {
      FirstFixedSpec(defs, states, name, index, n + 1);
    }
  }

  predicate NamesDiffer(defs: seq<ResDef>) { forall t, u | 0 <= t < u < |defs| :: defs[t].name != defs[u].name }

  /** Allocation by index looks at the one resource with that name and index: it fails
      as in use if it has an owner, and with the other error if there is none such. */
  lemma FixedTakesTheOne(defs: seq<ResDef>, states: seq<ResState>, name: string, fixedIndex: int, args: Filters)
    requires Layout(defs, states) && NamesDiffer(defs) && fixedIndex != MODAC_RM_ALLOC_FROM_POOL
    ensures var o := AllocOutcomeOf(defs, states, name, fixedIndex, args);
      && (o.NoAccess? <==> !exists t :: 0 <= t < |defs| && defs[t].name == name && Resource(defs, t, fixedIndex))
      && forall t | 0 <= t < |defs| && defs[t].name == name && Resource(defs, t, fixedIndex) ::
           if GetOwner(defs, states, t, fixedIndex).Unowned? then o == Seized(PlaceOf(defs, t, fixedIndex)) else o == AddrInUse
  {
    hide TypeStart;
    FirstFixedSpec(defs, states, name, fixedIndex, 0);
    var f := FirstFixed(defs, states, name, fixedIndex, 0);
    if f < |states| {
      assert Resource(defs, states[f].resType, states[f].arrayIndex);
    }
    forall t | 0 <= t < |defs| && defs[t].name == name && Resource(defs, t, fixedIndex)
      ensures f < |states| && f == PlaceOf(defs, t, fixedIndex)
    {
      PlaceHolds(defs, states, t, fixedIndex);
      assert f <= PlaceOf(defs, t, fixedIndex);
      assert states[f].resType == t;
    }
  }

  /** modac_rm_free_owner */
  function FreeOwner(states: seq<ResState>, owner: int): seq<ResState> {
    seq(|states|, i requires 0 <= i < |states| =>
      if states[i].owner == owner then states[i].(owner := NO_OWNER) else states[i])
  }

  /** Freeing an owner frees all that it has and nothing else. */
  lemma FreeOwnerOwners(defs: seq<ResDef>, states: seq<ResState>, owner: int)
    requires Layout(defs, states)
    ensures Layout(defs, FreeOwner(states, owner))
    ensures forall t, x | Resource(defs, t, x) ::
              GetOwner(defs, FreeOwner(states, owner), t, x)
              == if GetOwner(defs, states, t, x) == Owner(owner) then Unowned else GetOwner(defs, states, t, x)
  {
    LayoutKept(defs, states, FreeOwner(states, owner));
    forall t, x | Resource(defs, t, x) ensures PlaceOf(defs, t, x) < |states| {
      PlacesDiffer(defs, t, x, t, x);
    }
  }

  // ----- the manager in place

  /** struct res_data */
  class ResourceManager {
    const defs: seq<ResDef>
    var resStates: array<ResState>
    var typeData: array<TypeData>

    ghost predicate Valid()
      reads this, resStates, typeData
    {
      && typeData.Length == MODAC_RES_TYPE_MAX_COUNT
      && |defs| <= MODAC_RES_TYPE_MAX_COUNT
      && (forall t {:trigger typeData[t]} | 0 <= t < |defs| :: typeData[t] == TypeData(TypeStart(defs, t), defs[t].count))
      && Layout(defs, resStates[..])
    }

    ghost function States(): seq<ResState>
      reads this, resStates
    {
      resStates[..]
    }

    /** modac_rm_init for at most as many types as the fixed tables hold. */
    constructor (defs: seq<ResDef>)
      requires |defs| <= MODAC_RES_TYPE_MAX_COUNT
      ensures Valid() && this.defs == defs
      ensures fresh(resStates) && fresh(typeData)
      ensures forall i | 0 <= i < |States()| :: States()[i].owner == NO_OWNER
    {
      this.defs := defs;
      var data, resourceCount := CountResources(defs);
      var states := FillResources(defs, resourceCount);
      resStates, typeData := states, data;
    }

    /** modac_rm_alloc; 'at' is the place seized. */
    method Alloc(owner: int, name: string, fixedIndex: int, args: Filters) returns (o: AllocOutcome, resType: nat, index: nat)
      requires Valid()
      modifies resStates
      ensures Valid() && resStates == old(resStates)
      ensures o == AllocOutcomeOf(defs, old(States()), name, fixedIndex, args)
      ensures States() == AllocStates(old(States()), o, owner)
      ensures o.Seized? ==> resType == States()[o.at].resType && index == States()[o.at].arrayIndex
    {
      hide Suitability, PlaceOf;
      var maxSuitability, most, i := 0, -1, 0;
      ghost var states := States();
      resType, index := 0, 0;
      while i < resStates.Length
        modifies {}
        invariant 0 <= i <= resStates.Length
        invariant fixedIndex == MODAC_RM_ALLOC_FROM_POOL ==>
          most == Best(defs, states, name, args, i) && maxSuitability == if most < 0 then 0 else SuitabilityOf(defs, states[most], args)
        invariant fixedIndex != MODAC_RM_ALLOC_FROM_POOL ==>
          most == -1 && FirstFixed(defs, states, name, fixedIndex, 0) == FirstFixed(defs, states, name, fixedIndex, i)
      {
        var s := resStates[i];
        assert s == states[i];
        if defs[s.resType].name == name {
          if fixedIndex == MODAC_RM_ALLOC_FROM_POOL {
            if s.owner == NO_OWNER {
              var suitability := Suitability(defs[s.resType].suits, s.arrayIndex, args);
              if suitability > maxSuitability {
                most := i;
                maxSuitability := suitability;
              }
            }
          } else if s.arrayIndex == fixedIndex {
            if s.owner != NO_OWNER {
              return AddrInUse, 0, 0;
            }
            most := i;
            break;
          }
        }
        i := i + 1;
      }
      if most < 0 {
        return NoAccess, 0, 0;
      }
      o, resType, index := Seized(most), resStates[most].resType, resStates[most].arrayIndex;
      resStates[most] := resStates[most].(owner := owner);
      assert States() == AllocStates(states, o, owner);
      LayoutKept(defs, states, States());
    }

    /** modac_rm_free_owner */
    method Free(owner: int)
      requires Valid()
      modifies resStates
      ensures Valid() && resStates == old(resStates)
      ensures States() == FreeOwner(old(States()), owner)
    {
      var i := 0;
      while i < resStates.Length
        invariant 0 <= i <= resStates.Length
        invariant forall j | 0 <= j < resStates.Length ::
          resStates[j] == if j < i then FreeOwner(old(States()), owner)[j] else old(States())[j]
      {
        if resStates[i].owner == owner {
          resStates[i] := resStates[i].(owner := NO_OWNER);
        }
        i := i + 1;
      }
      assert States() == FreeOwner(old(States()), owner);
      LayoutKept(defs, old(States()), States());
    }

    /** modac_rm_get_res_count_for_type; -1 stands for -EINVAL. */
    method CountForType(t: int) returns (count: int)
      requires Valid()
      ensures count == if 0 <= t < |defs| then defs[t].count else -1
    {
      if t < 0 || t >= |defs| {
        return -1;
      }
      return typeData[t].count;
    }

    method OwnerOf(t: int, x: int) returns (r: OwnerResult)
      requires Valid()
      ensures r == GetOwner(defs, States(), t, x)
      ensures r == ScanOwner(States(), t, x)
    {
      LookupAgreesWithScan(defs, States(), t, x);
      if t < 0 || t >= |defs| {
        return BadDescriptor;
      }
      if x < 0 || x >= typeData[t].count {
        return BadDescriptor;
      }
      PlacesDiffer(defs, t, x, t, x);
      var owner := resStates[typeData[t].start + x].owner;
      return if owner == NO_OWNER then Unowned else Owner(owner);
    }
  }

  /** The first loop of modac_rm_init. */
  method CountResources(defs: seq<ResDef>) returns (data: array<TypeData>, resourceCount: nat)
    requires |defs| <= MODAC_RES_TYPE_MAX_COUNT
    ensures fresh(data) && data.Length == MODAC_RES_TYPE_MAX_COUNT
    ensures resourceCount == TypeStart(defs, |defs|)
    ensures forall t {:trigger data[t]} | 0 <= t < |defs| :: data[t] == TypeData(TypeStart(defs, t), defs[t].count)
  {
    data := new TypeData[MODAC_RES_TYPE_MAX_COUNT](_ => TypeData(0, 0));
    resourceCount := 0;
    var ih := 0;
    while ih < |defs|
      invariant 0 <= ih <= |defs|
      invariant resourceCount == TypeStart(defs, ih)
      invariant forall t {:trigger data[t]} | 0 <= t < ih :: data[t] == TypeData(TypeStart(defs, t), defs[t].count)
    {
      data[ih] := TypeData(resourceCount, defs[ih].count);
      resourceCount := resourceCount + defs[ih].count;
      ih := ih + 1;
    }
  }

  /** The nested loops of modac_rm_init. */
  method FillResources(defs: seq<ResDef>, resourceCount: nat) returns (states: array<ResState>)
    requires resourceCount == TypeStart(defs, |defs|)
    ensures fresh(states) && Layout(defs, states[..])
    ensures forall i | 0 <= i < states.Length :: states[i].owner == NO_OWNER
  {
    states := new ResState[resourceCount](_ => ResState(0, 0, NO_OWNER));
    var ires, ih := 0, 0;
    while ih < |defs|
      invariant 0 <= ih <= |defs|
      invariant ires == TypeStart(defs, ih)
      invariant Filled(defs, states[..], ires)
    {
      TypeStartMonotone(defs, ih, |defs|);
      var ih2 := 0;
      while ih2 < defs[ih].count
        invariant 0 <= ih2 <= defs[ih].count
        invariant ires == TypeStart(defs, ih) + ih2
        invariant Filled(defs, states[..], ires)
      {
        states[ires] := ResState(ih, ih2, NO_OWNER);
        ires := ires + 1;
        ih2 := ih2 + 1;
      }
      ih := ih + 1;
    }
  }

  /** modac_rm_init, with its error for too many types. */
  method Init(defs: seq<ResDef>) returns (rm: ResourceManager?)
    ensures rm == null <==> |defs| > MODAC_RES_TYPE_MAX_COUNT
    ensures rm != null ==> fresh(rm) && rm.Valid() && rm.defs == defs && forall i | 0 <= i < |rm.States()| :: rm.States()[i].owner == NO_OWNER
  {
    if |defs| > MODAC_RES_TYPE_MAX_COUNT {
      return null;
    }
    rm := new ResourceManager(defs);
  }

  ghost predicate Filled(defs: seq<ResDef>, states: seq<ResState>, n: nat) {
    && n <= |states|
    && (forall i | 0 <= i < n ::
          Resource(defs, states[i].resType, states[i].arrayIndex) && i == PlaceOf(defs, states[i].resType, states[i].arrayIndex))
    && forall i | 0 <= i < |states| :: states[i].owner == NO_OWNER
  }

  /** The two resource types of the card, in table order. */
  function EvrDefs(pulsegens: PulseTable, outputs: nat): (defs: seq<ResDef>)
    ensures |defs| == 2
  {
    [ResDef("pulsegen", |pulsegens|, PulsegenSuits(pulsegens)), ResDef("output", outputs, OutputSuits)]
  }
}
