/** The device reference of src/devref.h: a pointer that may be withdrawn, a
    count of its holders, and a list that says how often each inode holds it. */
module DevRef {

  /** An inode pointer; where NULL is possible it is the number 0. */
  type Inode = n: nat | n != 0 witness 1

  /** struct inod_ref */
  datatype InodeRef = InodeRef(inode: Inode, count: int)

  datatype Ref = Ref(valid: bool, count: int, inodes: seq<InodeRef>)

  datatype GetCode = Got | Gone | NoMemory

  /** The first entry of an inode, or the length of the list. */
  function Find(inodes: seq<InodeRef>, inode: Inode): (i: nat)
    ensures i <= |inodes|
    ensures i < |inodes| ==> inodes[i].inode == inode
    ensures forall j | 0 <= j < i :: inodes[j].inode != inode
  {
    if inodes == [] || inodes[0].inode == inode then 0 else 1 + Find(inodes[1..], inode)
  }

  function AddInode(inodes: seq<InodeRef>, inode: Inode): seq<InodeRef> {
    var i := Find(inodes, inode);
    if i < |inodes| then inodes[i := InodeRef(inode, inodes[i].count + 1)] else [InodeRef(inode, 1)] + inodes
  }

  function DropInode(inodes: seq<InodeRef>, inode: Inode): seq<InodeRef> {
    var i := Find(inodes, inode);
    if i == |inodes| then inodes
    else if inodes[i].count == 1 then inodes[..i] + inodes[i + 1..]
    else inodes[i := InodeRef(inode, inodes[i].count - 1)]
  }

  function GetCodeOf(r: Ref, inode: nat, roomForNew: bool): GetCode {
    if !r.valid then Gone
    else if inode != 0 && Find(r.inodes, inode) == |r.inodes| && !roomForNew then NoMemory
    else Got
  }

  /** devref_get; a new list entry needs memory. */
  function GetRef(r: Ref, inode: nat, roomForNew: bool): Ref {
    if !GetCodeOf(r, inode, roomForNew).Got? then r
    else r.(count := r.count + 1, inodes := if inode == 0 then r.inodes else AddInode(r.inodes, inode))
  }

  /** devref_put */
  function PutRef(r: Ref, inode: nat): Ref {
    r.(count := r.count - 1, inodes := if inode == 0 then r.inodes else DropInode(r.inodes, inode))
  }

  /** The inode that is put is not in the list. */
  predicate Panics(r: Ref, inode: nat) { inode != 0 && Find(r.inodes, inode) == |r.inodes| }

  // ----- what the list stands for

  predicate Distinct(inodes: seq<InodeRef>) {
    forall i, j | 0 <= i < j < |inodes| :: inodes[i].inode != inodes[j].inode
  }

  predicate Counted(inodes: seq<InodeRef>, holders: multiset<Inode>) {
    forall i | 0 <= i < |inodes| :: inodes[i].count == holders[inodes[i].inode] > 0
  }

  predicate Listed(inodes: seq<InodeRef>, n: Inode) { Find(inodes, n) < |inodes| }

  /** Each inode has one entry, which counts how often it is among the holders. */
  ghost predicate Lists(inodes: seq<InodeRef>, holders: multiset<Inode>) {
    && Distinct(inodes)
    && Counted(inodes, holders)
    && forall n: Inode | n in holders :: Listed(inodes, n)
  }

  lemma ListedAt(inodes: seq<InodeRef>, i: nat)
    requires i < |inodes|
    ensures Listed(inodes, inodes[i].inode)
  {
  }

  /** One entry that gets another positive count. */
  lemma RecountLists(inodes: seq<InodeRef>, holders: multiset<Inode>, i: nat, count: nat)
    requires Lists(inodes, holders) && i < |inodes| && count > 0
    ensures Lists(inodes[i := InodeRef(inodes[i].inode, count)], holders[inodes[i].inode := count])
  {
    hide Find;
    var inode := inodes[i].inode;
    var inodes' := inodes[i := InodeRef(inode, count)];
    forall n: Inode | n in holders[inode := count] ensures Listed(inodes', n) {
      var at := if n == inode then i else Find(inodes, n);
      assert n != inode ==> Listed(inodes, n);
      ListedAt(inodes', at);
    }
  }

  lemma PrependLists(inodes: seq<InodeRef>, holders: multiset<Inode>, inode: Inode)
    requires Lists(inodes, holders) && !Listed(inodes, inode)
    ensures Lists([InodeRef(inode, 1)] + inodes, holders[inode := 1])
  {
    hide Find;
    var inodes' := [InodeRef(inode, 1)] + inodes;
    assert inodes'[0].inode == inode;
    forall n: Inode | n in holders[inode := 1] ensures Listed(inodes', n) {
      var at := if n == inode then 0 else Find(inodes, n) + 1;
      assert n != inode ==> Listed(inodes, n);
      ListedAt(inodes', at);
    }
  }

  lemma RemoveLists(inodes: seq<InodeRef>, holders: multiset<Inode>, i: nat)
    requires Lists(inodes, holders) && i < |inodes|
    ensures Lists(inodes[..i] + inodes[i + 1..], holders[inodes[i].inode := 0])
  {
    hide Find;
    var inodes' := inodes[..i] + inodes[i + 1..];
    forall n: Inode | n in holders[inodes[i].inode := 0] ensures Listed(inodes', n) {
      assert Listed(inodes, n);
      var j := Find(inodes, n);
      ListedAt(inodes', if j > i then j - 1 else j);
    }
  }

  lemma AddInodeLists(inodes: seq<InodeRef>, holders: multiset<Inode>, inode: Inode)
    requires Lists(inodes, holders)
    ensures Lists(AddInode(inodes, inode), holders + multiset{inode})
  {
    hide Find, Lists;
    var i := Find(inodes, inode);
    if i < |inodes| {
      assert holders + multiset{inode} == holders[inode := holders[inode] + 1];
      CountAt(inodes, holders, i);
      RecountLists(inodes, holders, i, holders[inode] + 1);
    } else {
      CountOfUnlisted(inodes, holders, inode);
      assert holders + multiset{inode} == holders[inode := 1];
      PrependLists(inodes, holders, inode);
    }
  }

  lemma CountAt(inodes: seq<InodeRef>, holders: multiset<Inode>, i: nat)
    requires Lists(inodes, holders) && i < |inodes|
    ensures inodes[i].count == holders[inodes[i].inode] > 0
  {
  }

  lemma CountOfUnlisted(inodes: seq<InodeRef>, holders: multiset<Inode>, inode: Inode)
    requires Lists(inodes, holders)
    ensures inode in holders <==> Find(inodes, inode) < |inodes|
  {
    assert inode in holders ==> Listed(inodes, inode);
  }

  lemma DropInodeLists(inodes: seq<InodeRef>, holders: multiset<Inode>, inode: Inode)
    requires Lists(inodes, holders) && inode in holders
    ensures Find(inodes, inode) < |inodes|
    ensures Lists(DropInode(inodes, inode), holders - multiset{inode})
  {
    hide Find, Lists;
    var i := Find(inodes, inode);
    CountOfUnlisted(inodes, holders, inode);
    CountAt(inodes, holders, i);
    assert holders - multiset{inode} == holders[inode := holders[inode] - 1];
    if inodes[i].count == 1 {
      RemoveLists(inodes, holders, i);
    } else {
      RecountLists(inodes, holders, i, holders[inode] - 1);
    }
  }

  function Total(inodes: seq<InodeRef>): int {
    if inodes == [] then 0 else inodes[0].count + Total(inodes[1..])
  }

  lemma EmptyLists(holders: multiset<Inode>)
    requires Lists([], holders)
    ensures holders == multiset{}
  {
    forall n: Inode ensures n !in holders {
      assert !Listed([], n);
    }
  }

  /** The counts of the list add up to the number of holders. */
  lemma {:induction false} ListsTotal(inodes: seq<InodeRef>, holders: multiset<Inode>)
    requires Lists(inodes, holders)
    ensures Total(inodes) == |holders|
  {
    hide Lists;
    if inodes == [] {
      EmptyLists(holders);
    } else {
      var first := inodes[0].inode;
      var rest := holders[first := 0];
      assert inodes[..0] + inodes[1..] == inodes[1..];
      RemoveLists(inodes, holders, 0);
      CountAt(inodes, holders, 0);
      ListsTotal(inodes[1..], rest);
      assert |rest| == |holders| - holders[first];
    }
  }

  // ----- the reference in place

  /** struct devref */
  class DeviceReference {
    var refPtr: bool
    var refCnt: int
    var locked: bool
    var inodes: seq<InodeRef>

    ghost function Abs(): Ref
      reads this
    {
      Ref(refPtr, refCnt, inodes)
    }

    /** devref_init */
    constructor ()
      ensures Abs() == Ref(true, 1, []) && !locked
    {
      refPtr, refCnt, locked, inodes := true, 1, false, [];
    }

    method Lock()
      requires !locked
      modifies this`locked
      ensures locked
    {
      locked := true;
    }

    method Unlock()
      requires locked
      modifies this`locked
      ensures !locked
    {
      locked := false;
    }

    /** devref_get: on success, and only then, the reference is left locked. */
    method Get(inode: nat, roomForNew: bool) returns (code: GetCode)
      requires !locked
      modifies this
      ensures code == GetCodeOf(old(Abs()), inode, roomForNew)
      ensures Abs() == GetRef(old(Abs()), inode, roomForNew)
      ensures locked <==> code.Got?
    {
      Lock();
      if !refPtr {
        Unlock();
        return Gone;
      }
      refCnt := refCnt + 1;
      if inode != 0 {
        var i := 0;
        while i < |inodes|
          invariant 0 <= i <= Find(inodes, inode)
          invariant Abs() == old(Abs()).(count := old(refCnt) + 1) && locked
        {
          if inodes[i].inode == inode {
            inodes := inodes[i := InodeRef(inode, inodes[i].count + 1)];
            return Got;
          }
          i := i + 1;
        }
        if !roomForNew {
          refCnt := refCnt - 1;
          Unlock();
          return NoMemory;
        }
        inodes := [InodeRef(inode, 1)] + inodes;
      }
      code := Got;
    }

    /** devref_put: returns the new count; the reference is unlocked. */
    method Put(inode: nat) returns (count: int, panic: bool)
      requires locked
      modifies this
      ensures Abs() == PutRef(old(Abs()), inode) && count == refCnt
      ensures panic <==> Panics(old(Abs()), inode)
      ensures !locked
    {
      refCnt := refCnt - 1;
      count, panic := refCnt, false;
      if inode != 0 {
        var i := 0;
        while i < |inodes|
          invariant 0 <= i <= Find(inodes, inode)
          invariant Abs() == old(Abs()).(count := old(refCnt) - 1) && locked
          invariant count == refCnt && !panic
        {
          if inodes[i].inode == inode {
            inodes := inodes[i := InodeRef(inode, inodes[i].count - 1)];
            if inodes[i].count == 0 {
              inodes := inodes[..i] + inodes[i + 1..];
            }
            Unlock();
            return;
          }
          i := i + 1;
        }
        panic := true;
      }
      Unlock();
    }

    /** devref_invalidate */
    method Invalidate()
      requires locked
      modifies this`refPtr
      ensures Abs() == old(Abs()).(valid := false)
    {
      refPtr := false;
    }
  }
}
