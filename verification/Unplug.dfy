/** The device and its life together: the files of VIRT_DEVs that hold the reference
    are those that the usage counters count. */
module Unplug {
  import opened EvrCard
  import opened EventList
  import opened Rm
  import opened Device
  import opened DeviceVDevs
  import opened DevRef
  import Lifecycle

  /** 'files' has the id of its VIRT_DEV for each file that is open or about to be. */
  datatype Joint = Joint(life: Lifecycle.Life, d: Dev, files: multiset<nat>)

  datatype Event =
    | Opens(id: nat, inode: Inode, roomForNew: bool)
    | Counts
    | Closes(id: nat, inode: Inode, granted: bool)
    | Manages(action: Lifecycle.Action)
    | Removes
    | Calls(op: Op)

  /** A VIRT_DEV is found in its slot, no other open is under way, and the reference can
      be taken. */
  predicate OpenSucceeds(j: Joint, id: nat, inode: Inode, roomForNew: bool) {
    && id in j.d.vdevs && j.d.opening == 0
    && (j.life.removal.NotBegun? || j.life.removal.MngSlotCleared?)
    && GetCodeOf(j.life.ref, inode, roomForNew).Got?
  }

  /** The file is open, not about to be. */
  predicate IsFile(j: Joint, id: nat, inode: Inode) {
    j.files[id] > (if j.d.opening == id then 1 else 0) && inode in j.life.vdevOpen
  }

  predicate OfManager(a: Lifecycle.Action) { a.MngOpen? || a.MngCheckPid? || a.MngRelease? }

  predicate Other(op: Op) { !op.Open? && !op.CountOpen? && !op.Close? && !op.Unplug? }

  function Step(j: Joint, e: Event): Joint
    requires Shape(j.d)
  {
    match e
    case Opens(id, inode, roomForNew) =>
      if OpenSucceeds(j, id, inode, roomForNew) then
        Joint(Lifecycle.DoVDevOpen(j.life, inode, roomForNew), DoOpen(j.d, id), j.files + multiset{id})
      else j
    case Counts => j.(d := DoCountOpen(j.d))
    case Closes(id, inode, granted) =>
      if IsFile(j, id, inode) then
        Joint(Lifecycle.DoVDevRelease(j.life, inode), DoClose(j.d, id, granted), j.files - multiset{id})
      else j
    case Manages(action) => if OfManager(action) then j.(life := Lifecycle.Step(j.life, action)) else j
    case Removes =>
      Joint(Lifecycle.DoRemove(j.life), if j.life.removal.SlotsCleared? then j.d.(live := false) else j.d, j.files)
    case Calls(op) => if Other(op) then j.(d := Device.Step(j.d, op)) else j
  }

  ghost predicate Inv(j: Joint) {
    && Lifecycle.Inv(j.life)
    && Shape(j.d) && OpeningKnown(j.d)
    && (j.d.live <==> j.life.ref.valid)
    && |j.files| == |j.life.vdevOpen|
    && (forall id: nat :: j.files[id] == UsageOf(j.d, id))
  }

  lemma OpensKeeps(j: Joint, id: nat, inode: Inode, roomForNew: bool)
    requires Inv(j)
    ensures Inv(Step(j, Opens(id, inode, roomForNew)))
  {
    hide Lifecycle.Inv, Lists, AddInode, Find;
    if OpenSucceeds(j, id, inode, roomForNew) {
      Lifecycle.StepKeeps(j.life, Lifecycle.VDevOpen(inode, roomForNew));
      StepShape(j.d, Op.Open(id));
      forall k: nat ensures (j.files + multiset{id})[k] == UsageOf(DoOpen(j.d, id), k) {
        StepUsage(j.d, Op.Open(id), k);
      }
    }
  }

  lemma CountsKeeps(j: Joint)
    requires Inv(j)
    ensures Inv(Step(j, Counts))
  {
    hide Lifecycle.Inv, DoCountOpen, UsageOf;
    StepShape(j.d, CountOpen);
    StepOpening(j.d, CountOpen);
    forall k: nat ensures UsageOf(DoCountOpen(j.d), k) == UsageOf(j.d, k) {
      StepUsage(j.d, CountOpen, k);
    }
    CountOpenLive(j.d);
  }

  lemma CountOpenLive(d: Dev)
    ensures DoCountOpen(d).live == d.live
  {
  }

  lemma CloseLive(d: Dev, id: nat, granted: bool)
    requires Shape(d)
    ensures DoClose(d, id, granted).live == d.live
  {
    hide OnSubscribeChange, InitAllRes, Layout, RemoveAll;
  }

  lemma ReleaseFiles(s: Lifecycle.Life, inode: Inode)
    requires inode in s.vdevOpen
    ensures |Lifecycle.DoVDevRelease(s, inode).vdevOpen| == |s.vdevOpen| - 1
    ensures Lifecycle.DoVDevRelease(s, inode).ref.valid == s.ref.valid
  {
    hide DropInode, Find;
  }

  lemma ClosesKeeps(j: Joint, id: nat, inode: Inode, granted: bool)
    requires Inv(j)
    ensures Inv(Step(j, Closes(id, inode, granted)))
  {
    hide Lifecycle.Inv, Lifecycle.DoVDevRelease, DoClose, Layout;
    if IsFile(j, id, inode) {
      Lifecycle.StepKeeps(j.life, Lifecycle.VDevRelease(inode));
      ReleaseFiles(j.life, inode);
      StepShape(j.d, Close(id, granted));
      StepOpening(j.d, Close(id, granted));
      CloseLive(j.d, id, granted);
      assert j.d.IsOpen(id);
      forall k: nat ensures (j.files - multiset{id})[k] == UsageOf(DoClose(j.d, id, granted), k) {
        StepUsage(j.d, Close(id, granted), k);
      }
    }
  }

  lemma ManagerFiles(s: Lifecycle.Life, a: Lifecycle.Action)
    requires OfManager(a)
    ensures Lifecycle.Step(s, a).vdevOpen == s.vdevOpen && Lifecycle.Step(s, a).ref.valid == s.ref.valid
  {
    hide DropInode, AddInode, Find;
  }

  lemma RemoveFiles(s: Lifecycle.Life)
    ensures Lifecycle.DoRemove(s).vdevOpen == s.vdevOpen
    ensures Lifecycle.DoRemove(s).ref.valid == (s.ref.valid && !s.removal.SlotsCleared?)
  {
    hide DropInode, Find;
  }

  lemma OtherLive(d: Dev, op: Op)
    requires Shape(d) && Other(op)
    ensures Device.Step(d, op).live == d.live
  {
    hide OnSubscribeChange, InitAllRes, InitCard, DoCommand, Layout, RemoveAll, FreeOwner, AllocOutcomeOf, HeaderOk, MayUse;
  }

  lemma CallsKeeps(j: Joint, op: Op)
    requires Inv(j)
    ensures Inv(Step(j, Calls(op)))
  {
    hide Lifecycle.Inv, Device.Step, UsageOf;
    if Other(op) {
      StepShape(j.d, op);
      StepOpening(j.d, op);
      OtherLive(j.d, op);
      forall k: nat ensures UsageOf(Device.Step(j.d, op), k) == UsageOf(j.d, k) {
        StepUsage(j.d, op, k);
      }
    }
  }

  lemma StepKeeps(j: Joint, e: Event)
    requires Inv(j)
    ensures Inv(Step(j, e))
  {
    hide Lifecycle.Inv, Layout, Lifecycle.Step, Lifecycle.DoRemove;
    match e
    case Opens(id, inode, roomForNew) => OpensKeeps(j, id, inode, roomForNew);
    case Counts => CountsKeeps(j);
    case Closes(id, inode, granted) => ClosesKeeps(j, id, inode, granted);
    case Manages(action) =>
      if OfManager(action) {
        Lifecycle.StepKeeps(j.life, action);
        ManagerFiles(j.life, action);
      }
    case Removes =>
      Lifecycle.RemoveKeeps(j.life);
      RemoveFiles(j.life);
      SameVDevsShape(j.d, Step(j, e).d);
    case Calls(op) => CallsKeeps(j, op);
  }

  ghost function Run(d0: Dev, events: seq<Event>): (j: Joint)
    requires Start(d0)
    ensures Inv(j)
  {
    if events == [] then
      var j := Joint(Lifecycle.Created(), d0, multiset{});
      Lifecycle.RunInv([]);
      StartUsage(d0);
      j
    else
      var before := Run(d0, events[..|events| - 1]);
      StepKeeps(before, events[|events| - 1]);
      Step(before, events[|events| - 1])
  }

  lemma StartUsage(d: Dev)
    requires Start(d)
    ensures forall id: nat :: UsageOf(d, id) == 0
  {
  }

  /** In every run, unplugging included: the usage counter of each VIRT_DEV, with the open
      that is on its way to be counted, is the number of its files; together these are
      the files that hold the reference; and once the device is destroyed no VIRT_DEV
      has a file. */
  lemma UsageIsFiles(d0: Dev, events: seq<Event>, id: nat)
    requires Start(d0)
    ensures var j := Run(d0, events);
      && UsageOf(j.d, id) == j.files[id]
      && |j.files| == |j.life.vdevOpen|
      && (j.life.destroyed > 0 ==> j.files == multiset{} && UsageOf(j.d, id) == 0)
  {
    hide Lists;
    var j := Run(d0, events);
    if j.life.destroyed > 0 {
      assert |j.life.Holders()| == 0;
      assert |j.life.Holders()| == |j.life.mngOpen| + |j.life.opening| + |j.life.refused| + |j.life.vdevOpen|;
    }
  }
}
