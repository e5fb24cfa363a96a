/** Opening, closing and hot-unplugging one MNG_DEV with its VIRT_DEVs, by any
    number of files and in any order: who holds the device reference, and when
    the device is destroyed. Each step is a section under one lock. */
module Lifecycle {
  import opened DevRef

  /** How far modac_mngdev_destroy has come: the slot of the MNG_DEV is cleared, then
      those of its VIRT_DEVs, then the reference is withdrawn, and at last the
      creator's own hold is given back. */
  datatype Removal = NotBegun | MngSlotCleared | SlotsCleared | Withdrawn | Finished

  /** Inodes of the files that hold the reference: files that are open; opens of
      the MNG_DEV that have not yet come to look at the pid; and opens that were
      refused there, for which no file exists but the hold remains. */
  datatype Life = Life(
    ref: Ref,
    pidSet: bool,
    mngOpen: multiset<Inode>,
    opening: multiset<Inode>,
    refused: multiset<Inode>,
    vdevOpen: multiset<Inode>,
    removal: Removal,
    destroyed: nat,
    panics: nat)
  {
    function Holders(): multiset<Inode> { mngOpen + opening + refused + vdevOpen }

    /** The creator holds the reference from devref_init to the end of the removal. */
    function CreatorHold(): nat { if removal.Finished? then 0 else 1 }
  }

  datatype Action =
    | MngOpen(inode: Inode, roomForNew: bool)
    | MngCheckPid(inode: Inode)
    | MngRelease(inode: Inode)
    | VDevOpen(inode: Inode, roomForNew: bool)
    | VDevRelease(inode: Inode)
    | Remove

  /** modac_mng_check_on_open for a device found in its table. */
  function Hold(s: Life, inode: Inode, roomForNew: bool): Life { s.(ref := GetRef(s.ref, inode, roomForNew)) }

  /** drvdat_put */
  function Put(s: Life, inode: nat): Life {
    var ref := PutRef(s.ref, inode);
    s.(ref := ref,
       panics := s.panics + if Panics(s.ref, inode) then 1 else 0,
       destroyed := s.destroyed + if ref.count == 0 then 1 else 0)
  }

  function DoMngOpen(s: Life, inode: Inode, roomForNew: bool): Life {
    if !s.removal.NotBegun? then s
    else if GetCodeOf(s.ref, inode, roomForNew).Got? then Hold(s, inode, roomForNew).(opening := s.opening + multiset{inode})
    else s
  }

  function DoMngCheckPid(s: Life, inode: Inode): Life {
    if inode !in s.opening then s
    else if s.pidSet then s.(opening := s.opening - multiset{inode}, refused := s.refused + multiset{inode})
    else s.(opening := s.opening - multiset{inode}, mngOpen := s.mngOpen + multiset{inode}, pidSet := true)
  }

  function DoMngRelease(s: Life, inode: Inode): Life {
    if inode !in s.mngOpen then s
    else Put(s.(pidSet := false, mngOpen := s.mngOpen - multiset{inode}), inode)
  }

  function DoVDevOpen(s: Life, inode: Inode, roomForNew: bool): Life {
    if !s.removal.NotBegun? && !s.removal.MngSlotCleared? then s
    else if GetCodeOf(s.ref, inode, roomForNew).Got? then Hold(s, inode, roomForNew).(vdevOpen := s.vdevOpen + multiset{inode})
    else s
  }

  function DoVDevRelease(s: Life, inode: Inode): Life {
    if inode !in s.vdevOpen then s
    else Put(s.(vdevOpen := s.vdevOpen - multiset{inode}), inode)
  }

  /** The next step of modac_mngdev_destroy. */
  function DoRemove(s: Life): Life {
    match s.removal
    case NotBegun => s.(removal := MngSlotCleared)
    case MngSlotCleared => s.(removal := SlotsCleared)
    case SlotsCleared => s.(removal := Withdrawn, ref := s.ref.(valid := false))
    case Withdrawn => Put(s.(removal := Finished), 0)
    case Finished => s
  }

  function Step(s: Life, a: Action): Life {
    match a
    case MngOpen(inode, roomForNew) => DoMngOpen(s, inode, roomForNew)
    case MngCheckPid(inode) => DoMngCheckPid(s, inode)
    case MngRelease(inode) => DoMngRelease(s, inode)
    case VDevOpen(inode, roomForNew) => DoVDevOpen(s, inode, roomForNew)
    case VDevRelease(inode) => DoVDevRelease(s, inode)
    case Remove => DoRemove(s)
  }

  /** A device that has just been created. */
  function Created(): Life {
    Life(Ref(true, 1, []), false, multiset{}, multiset{}, multiset{}, multiset{}, NotBegun, 0, 0)
  }

  function Run(schedule: seq<Action>): Life {
    if schedule == [] then Created() else Step(Run(schedule[..|schedule| - 1]), schedule[|schedule| - 1])
  }

  // ----- the invariant

  ghost predicate Inv(s: Life) {
    && Lists(s.ref.inodes, s.Holders())
    && s.ref.count == s.CreatorHold() + |s.Holders()|
    && s.panics == 0
    && s.destroyed == (if s.ref.count == 0 then 1 else 0)
    && (s.ref.valid <==> !s.removal.Withdrawn? && !s.removal.Finished?)
    && |s.mngOpen| == (if s.pidSet then 1 else 0)
  }

  lemma HoldKeeps(s: Life, s': Life, inode: Inode, roomForNew: bool)
    requires Inv(s) && s.ref.valid && GetCodeOf(s.ref, inode, roomForNew).Got?
    requires s' == Hold(s, inode, roomForNew).(opening := s.opening + multiset{inode})
          || s' == Hold(s, inode, roomForNew).(vdevOpen := s.vdevOpen + multiset{inode})
    ensures Inv(s')
  {
    hide Lists, AddInode, Find;
    AddInodeLists(s.ref.inodes, s.Holders(), inode);
    assert s'.Holders() == s.Holders() + multiset{inode};
  }

  /** A file that gives back its hold. */
  lemma PutKeeps(s: Life, s1: Life, inode: Inode)
    requires Inv(s) && inode in s.Holders()
    requires s1.Holders() == s.Holders() - multiset{inode}
    requires s1.ref == s.ref && s1.removal == s.removal && s1.destroyed == s.destroyed && s1.panics == s.panics
    requires |s1.mngOpen| == (if s1.pidSet then 1 else 0)
    ensures Inv(Put(s1, inode))
  {
    hide Lists, DropInode, Find;
    DropInodeLists(s.ref.inodes, s.Holders(), inode);
    assert |s.Holders() - multiset{inode}| == |s.Holders()| - 1;
  }

  lemma MngReleaseKeeps(s: Life, inode: Inode)
    requires Inv(s)
    ensures Inv(DoMngRelease(s, inode))
  {
    hide Inv, Put;
    if inode in s.mngOpen {
      var s1 := s.(pidSet := false, mngOpen := s.mngOpen - multiset{inode});
      assert s1.Holders() == s.Holders() - multiset{inode};
      OneFile(s, inode);
      PutKeeps(s, s1, inode);
    }
  }

  /** The MNG_DEV has one open file at most. */
  lemma OneFile(s: Life, inode: Inode)
    requires Inv(s) && inode in s.mngOpen
    ensures s.mngOpen - multiset{inode} == multiset{} && s.pidSet
  {
    assert s.mngOpen == (s.mngOpen - multiset{inode}) + multiset{inode};
  }

  lemma VDevReleaseKeeps(s: Life, inode: Inode)
    requires Inv(s)
    ensures Inv(DoVDevRelease(s, inode))
  {
    hide Lists, Put;
    if inode in s.vdevOpen {
      var s1 := s.(vdevOpen := s.vdevOpen - multiset{inode});
      assert s1.Holders() == s.Holders() - multiset{inode};
      PutKeeps(s, s1, inode);
    }
  }

  lemma CheckPidKeeps(s: Life, inode: Inode)
    requires Inv(s)
    ensures Inv(DoMngCheckPid(s, inode))
  {
    hide Lists;
    if inode in s.opening {
      assert DoMngCheckPid(s, inode).Holders() == s.Holders();
    }
  }

  lemma RemoveKeeps(s: Life)
    requires Inv(s)
    ensures Inv(DoRemove(s))
  {
    hide Lists;
    assert DoRemove(s).Holders() == s.Holders();
  }

  lemma StepKeeps(s: Life, a: Action)
    requires Inv(s)
    ensures Inv(Step(s, a))
  {
    hide Lists, GetCodeOf;
    match a
    case MngOpen(inode, roomForNew) =>
      if Step(s, a) != s {
        HoldKeeps(s, Step(s, a), inode, roomForNew);
      }
    case MngCheckPid(inode) => CheckPidKeeps(s, inode);
    case MngRelease(inode) => MngReleaseKeeps(s, inode);
    case VDevOpen(inode, roomForNew) =>
      if Step(s, a) != s {
        HoldKeeps(s, Step(s, a), inode, roomForNew);
      }
    case VDevRelease(inode) => VDevReleaseKeeps(s, inode);
    case Remove => RemoveKeeps(s);
  }

  lemma {:induction false} RunInv(schedule: seq<Action>)
    ensures Inv(Run(schedule))
  {
    if schedule != [] {
      RunInv(schedule[..|schedule| - 1]);
      StepKeeps(Run(schedule[..|schedule| - 1]), schedule[|schedule| - 1]);
    }
  }

  // ----- what every run guarantees

  /** The count is the creator's hold plus all files and refused opens; the list has
      one entry for each of their inodes, with positive counts that add up to the
      count without the creator's hold; and a put never misses its inode. */
  lemma ReferenceConservation(schedule: seq<Action>)
    ensures var s := Run(schedule);
      && s.ref.count == s.CreatorHold() + |s.mngOpen| + |s.opening| + |s.refused| + |s.vdevOpen|
      && Distinct(s.ref.inodes)
      && (forall i | 0 <= i < |s.ref.inodes| :: s.ref.inodes[i].count == s.Holders()[s.ref.inodes[i].inode] > 0)
      && Total(s.ref.inodes) == s.ref.count - s.CreatorHold()
      && s.panics == 0
  {
    RunInv(schedule);
    var s := Run(schedule);
    ListsTotal(s.ref.inodes, s.Holders());
  }

  /** No open file and no open under way survives a destroyed device, and no open,
      close or removal can reach one: what is left does not change any more. */
  lemma NothingAfterDestroy(schedule: seq<Action>, a: Action)
    requires Run(schedule).destroyed > 0
    ensures var s := Run(schedule);
      && s.destroyed == 1 && s.removal.Finished? && s.Holders() == multiset{} && !s.pidSet
      && Step(s, a) == s
  {
    RunInv(schedule);
    var s := Run(schedule);
    assert s.Holders() == multiset{};
    assert forall n: Inode :: n !in s.Holders();
    assert forall n: Inode :: n in s.mngOpen ==> n in s.Holders();
    assert forall n: Inode :: n in s.opening ==> n in s.Holders();
    assert forall n: Inode :: n in s.vdevOpen ==> n in s.Holders();
  }

  /** What one call of an action does to the count. */
  predicate CountMoved(s: Life, s': Life, mayPut: bool) {
    s'.ref.count == s.ref.count || s'.ref.count == s.ref.count + 1 || (mayPut && s'.ref.count == s.ref.count - 1)
  }

  lemma OpenMoves(s: Life, a: Action)
    requires a.MngOpen? || a.VDevOpen? || a.MngCheckPid?
    ensures CountMoved(s, Step(s, a), false)
  {
    hide AddInode, Find;
  }

  lemma CloseMoves(s: Life, a: Action)
    requires a.MngRelease? || a.VDevRelease?
    ensures CountMoved(s, Step(s, a), true)
  {
    hide DropInode, Find, Panics;
  }

  lemma RemoveMoves(s: Life)
    ensures CountMoved(s, DoRemove(s), s.removal.Withdrawn?)
  {
    hide DropInode, Find, Panics;
  }

  lemma CountMoves(s: Life, a: Action)
    ensures CountMoved(s, Step(s, a), a.MngRelease? || a.VDevRelease? || (a.Remove? && s.removal.Withdrawn?))
  {
    hide DoMngOpen, DoMngCheckPid, DoMngRelease, DoVDevOpen, DoVDevRelease, DoRemove;
    match a
    case MngOpen(_, _) => OpenMoves(s, a);
    case VDevOpen(_, _) => OpenMoves(s, a);
    case MngCheckPid(_) => OpenMoves(s, a);
    case Remove => RemoveMoves(s);
    case _ => CloseMoves(s, a);
  }

  /** The device is destroyed exactly by the put that takes the count from 1 to 0:
      the last close, or the end of the removal when no file is open. */
  lemma DestroyedByLastPut(schedule: seq<Action>, a: Action)
    ensures var s, s' := Run(schedule), Step(Run(schedule), a);
      && (s'.destroyed != s.destroyed <==> s.ref.count == 1 && s'.ref.count == 0)
      && (s'.destroyed != s.destroyed ==>
            && s'.destroyed == 1 && s'.removal.Finished?
            && (a.MngRelease? || a.VDevRelease? || (a.Remove? && s.removal.Withdrawn?)))
  {
    hide Lists, Step;
    var s := Run(schedule);
    RunInv(schedule);
    StepKeeps(s, a);
    CountMoves(s, a);
    if s.destroyed > 0 {
      NothingAfterDestroy(schedule, a);
    }
  }

  lemma WithdrawnStep(s: Life, a: Action)
    requires !s.ref.valid
    ensures !Step(s, a).ref.valid && Step(s, a).ref.count <= s.ref.count
  {
    hide DropInode, AddInode, Find, Panics;
  }

  /** The holds that come from opens of the MNG_DEV, and those of VIRT_DEVs. */
  function MngHolds(s: Life): multiset<Inode> { s.mngOpen + s.opening + s.refused }

  lemma CheckPidHolds(s: Life, inode: Inode)
    ensures MngHolds(DoMngCheckPid(s, inode)) == MngHolds(s) && DoMngCheckPid(s, inode).vdevOpen == s.vdevOpen
  {
  }

  lemma PutFiles(s: Life, inode: nat)
    ensures MngHolds(Put(s, inode)) == MngHolds(s) && Put(s, inode).vdevOpen == s.vdevOpen
  {
    hide DropInode, Panics;
  }

  lemma ReleaseHolds(s: Life, inode: Inode)
    ensures MngHolds(DoMngRelease(s, inode)) <= MngHolds(s) && DoMngRelease(s, inode).vdevOpen == s.vdevOpen
  {
    hide Put;
    PutFiles(s.(pidSet := false, mngOpen := s.mngOpen - multiset{inode}), inode);
  }

  lemma VDevReleaseHolds(s: Life, inode: Inode)
    ensures MngHolds(DoVDevRelease(s, inode)) == MngHolds(s) && DoVDevRelease(s, inode).vdevOpen <= s.vdevOpen
  {
    hide Put;
    PutFiles(s.(vdevOpen := s.vdevOpen - multiset{inode}), inode);
  }

  lemma RemoveHolds(s: Life)
    ensures MngHolds(DoRemove(s)) == MngHolds(s) && DoRemove(s).vdevOpen == s.vdevOpen
  {
    hide Put;
    PutFiles(s.(removal := Finished), 0);
  }

  lemma WithdrawnFiles(s: Life, a: Action)
    requires !s.ref.valid
    ensures Step(s, a).vdevOpen <= s.vdevOpen && MngHolds(Step(s, a)) <= MngHolds(s)
  {
    hide MngHolds, DoMngCheckPid, DoMngRelease, DoVDevRelease, DoRemove;
    match a
    case MngCheckPid(inode) => CheckPidHolds(s, inode);
    case MngRelease(inode) => ReleaseHolds(s, inode);
    case VDevRelease(inode) => VDevReleaseHolds(s, inode);
    case Remove => RemoveHolds(s);
    case _ =>
  }

  /** Once the reference is withdrawn the count never grows, whatever happens from then
      on, and no open begins: an open of the MNG_DEV that is under way may still become
      an open file or be refused, but together they only get fewer. */
  lemma {:induction false} OnlyFallsOnceWithdrawn(schedule: seq<Action>, more: seq<Action>)
    requires !Run(schedule).ref.valid
    ensures var s, s' := Run(schedule), Run(schedule + more);
      && !s'.ref.valid && s'.ref.count <= s.ref.count
      && s'.vdevOpen <= s.vdevOpen && MngHolds(s') <= MngHolds(s)
  {
    hide Step, MngHolds;
    if more == [] {
      assert schedule + more == schedule;
    } else {
      var before := more[..|more| - 1];
      assert (schedule + more)[..|schedule + more| - 1] == schedule + before;
      OnlyFallsOnceWithdrawn(schedule, before);
      WithdrawnStep(Run(schedule + before), more[|more| - 1]);
      WithdrawnFiles(Run(schedule + before), more[|more| - 1]);
    }
  }

  /** With the removal finished and every file closed, the device has been destroyed
      if and only if no open of it was ever refused as busy. */
  lemma DestroyedUnlessRefused(schedule: seq<Action>)
    requires var s := Run(schedule);
      s.removal.Finished? && s.mngOpen == s.opening == s.vdevOpen == multiset{}
    ensures Run(schedule).destroyed == 1 <==> Run(schedule).refused == multiset{}
  {
    hide Lists;
    RunInv(schedule);
    var s := Run(schedule);
    assert s.Holders() == s.refused;
  }

  lemma RefusedStep(s: Life, a: Action)
    ensures Step(s, a).refused == s.refused
         || (a.MngCheckPid? && s.pidSet && Step(s, a).refused == s.refused + multiset{a.inode})
  {
    hide DropInode, AddInode, Find, Panics;
  }

  /** An open is refused only while another file has the MNG_DEV open; each refusal
      leaves one hold behind for good. */
  lemma RefusedForGood(schedule: seq<Action>, a: Action)
    ensures var s, s' := Run(schedule), Step(Run(schedule), a);
      && s.refused <= s'.refused
      && (s'.refused != s.refused ==> |s.mngOpen| == 1 && |s'.refused| == |s.refused| + 1)
  {
    hide Lists, Step;
    RunInv(schedule);
    RefusedStep(Run(schedule), a);
  }

  lemma RunAppend(schedule: seq<Action>, a: Action)
    ensures Run(schedule + [a]) == Step(Run(schedule), a)
  {
    assert (schedule + [a])[..|schedule|] == schedule;
  }

  /** A file opens the MNG_DEV, another is refused, the first is closed, the card is
      removed: every file is closed and the device is never destroyed. */
  lemma RefusedOpenLeaks(first: Inode, second: Inode) returns (schedule: seq<Action>)
    requires first != second
    ensures var s := Run(schedule);
      s.removal.Finished? && s.mngOpen == s.opening == s.vdevOpen == multiset{} && s.destroyed == 0 && s.ref.count == 1
  {
    schedule := BusyOpen(first, second);
    var s := Run(schedule);
    RunAppend(schedule, Remove);
    RunAppend(schedule + [Remove], Remove);
    RunAppend(schedule + [Remove] + [Remove], Remove);
    RunAppend(schedule + [Remove] + [Remove] + [Remove], Remove);
    schedule := schedule + [Remove] + [Remove] + [Remove] + [Remove];
    RemovedQuietly(s);
    RunInv(schedule);
  }

  lemma RemovedQuietly(s: Life)
    requires s.removal.NotBegun? && s.ref.count == 2
    ensures DoRemove(DoRemove(DoRemove(DoRemove(s)))) == s.(removal := Finished, ref := s.ref.(valid := false, count := 1))
  {
  }

  lemma BusyOpen(first: Inode, second: Inode) returns (schedule: seq<Action>)
    requires first != second
    ensures var s := Run(schedule);
      && s.removal.NotBegun? && s.ref.count == 2 && s.destroyed == 0
      && s.mngOpen == s.opening == s.vdevOpen == multiset{} && s.refused == multiset{second}
  {
    RunAppend([], MngOpen(first, true));
    RunAppend([MngOpen(first, true)], MngCheckPid(first));
    var s2 := Run([MngOpen(first, true)] + [MngCheckPid(first)]);
    assert s2 == Created().(ref := Ref(true, 2, [InodeRef(first, 1)]), pidSet := true, mngOpen := multiset{first});
    schedule := [MngOpen(first, true)] + [MngCheckPid(first)];
    RunAppend(schedule, MngOpen(second, true));
    RunAppend(schedule + [MngOpen(second, true)], MngCheckPid(second));
    RunAppend(schedule + [MngOpen(second, true)] + [MngCheckPid(second)], MngRelease(first));
    schedule := schedule + [MngOpen(second, true)] + [MngCheckPid(second)] + [MngRelease(first)];
    SecondOpen(s2, first, second);
  }

  lemma SecondOpen(s: Life, first: Inode, second: Inode)
    requires first != second
    requires s == Created().(ref := Ref(true, 2, [InodeRef(first, 1)]), pidSet := true, mngOpen := multiset{first})
    ensures var s' := Step(Step(Step(s, MngOpen(second, true)), MngCheckPid(second)), MngRelease(first));
      && s'.removal.NotBegun? && s'.ref.count == 2 && s'.destroyed == 0
      && s'.mngOpen == s'.opening == s'.vdevOpen == multiset{} && s'.refused == multiset{second}
  {
  }
}
