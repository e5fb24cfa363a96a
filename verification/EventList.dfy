/** Event bitmaps and the dispatch table of src/event-list.c. */
module EventList {

  const EVENT_LIST_TYPE_MAX_EVENTS: nat := 512
  const EVENT_DISPATCH_LIST_MAX_SUBSCRIBERS: nat := 31

  predicate InRange(event: int) { 0 <= event < EVENT_LIST_TYPE_MAX_EVENTS }

  /** struct event_list_type: one bit for each event code. */
  class EventBitmap {
    var mask: array<bool>
    ghost var codes: set<int>

    /** The codes are those whose bits are set. */
    ghost predicate Valid()
      reads this, mask
    {
      && mask.Length == EVENT_LIST_TYPE_MAX_EVENTS
      && (forall e | e in codes :: InRange(e))
      && forall e | InRange(e) :: mask[e] <==> e in codes
    }

    constructor ()
      ensures Valid() && fresh(mask) && codes == {}
    {
      mask := new bool[EVENT_LIST_TYPE_MAX_EVENTS](_ => false);
      codes := {};
    }

    method Clear()
      requires Valid()
      modifies this`codes, mask
      ensures Valid() && codes == {}
    {
      forall e | 0 <= e < mask.Length {
        mask[e] := false;
      }
      codes := {};
    }

    method IsEmpty() returns (empty: bool)
      requires Valid()
      ensures empty <==> codes == {}
    {
      var e := 0;
      while e < mask.Length && !mask[e]
        invariant 0 <= e <= mask.Length
        invariant forall c | 0 <= c < e :: c !in codes
      {
        e := e + 1;
      }
      empty := e == mask.Length;
    }

    method Test(event: int) returns (there: bool)
      requires Valid()
      ensures there <==> event in codes
    {
      if event < 0 || event >= EVENT_LIST_TYPE_MAX_EVENTS {
        return false;
      }
      return mask[event];
    }

    method Add(event: int)
      requires Valid()
      modifies this`codes, mask
      ensures Valid() && codes == old(codes) + (if InRange(event) then {event} else {})
    {
      if event < 0 || event >= EVENT_LIST_TYPE_MAX_EVENTS {
        return;
      }
      mask[event] := true;
      codes := codes + {event};
    }

    method Remove(event: int)
      requires Valid()
      modifies this`codes, mask
      ensures Valid() && codes == old(codes) - {event}
    {
      if event < 0 || event >= EVENT_LIST_TYPE_MAX_EVENTS {
        return;
      }
      mask[event] := false;
      codes := codes - {event};
    }

    /** The lowest code that is set, or a negative value. */
    method ExtractOne() returns (event: int)
      requires Valid()
      ensures codes == {} ==> event == -1
      ensures codes != {} ==> event in codes && forall c | c in codes :: event <= c
    {
      event := 0;
      while event < mask.Length && !mask[event]
        invariant 0 <= event <= mask.Length
        invariant forall c | 0 <= c < event :: c !in codes
      {
        event := event + 1;
      }
      if event == mask.Length {
        event := -1;
      }
    }
  }

  // ----- the dispatch table on values

  /** A subscriber is a pointer; 0 stands for NULL. */
  type Subscriber = s: nat | s != 0 witness 1
  type Row = seq<Subscriber>

  function AddRow(row: Row, s: Subscriber): Row {
    if s in row || |row| >= EVENT_DISPATCH_LIST_MAX_SUBSCRIBERS then row else row + [s]
  }

  /** The row without the first entry of s; the rest moves up by one. */
  function RemoveRow(row: Row, s: Subscriber): Row {
    if row == [] then []
    else if row[0] == s then row[1..]
    else [row[0]] + RemoveRow(row[1..], s)
  }

  predicate ValidRow(row: Row) {
    && |row| <= EVENT_DISPATCH_LIST_MAX_SUBSCRIBERS
    && forall i, j | 0 <= i < j < |row| :: row[i] != row[j]
  }

  type Table = t: seq<Row> | |t| == EVENT_LIST_TYPE_MAX_EVENTS witness seq(EVENT_LIST_TYPE_MAX_EVENTS, _ => [])

  predicate ValidTable(t: Table) { forall e | 0 <= e < |t| :: ValidRow(t[e]) }

  function EmptyTable(): Table { seq(EVENT_LIST_TYPE_MAX_EVENTS, _ => []) }

  function AddSubscriber(t: Table, s: Subscriber, event: int): Table {
    if InRange(event) then t[event := AddRow(t[event], s)] else t
  }

  function RemoveSubscriber(t: Table, s: Subscriber, event: int): Table {
    if InRange(event) then t[event := RemoveRow(t[event], s)] else t
  }

  function RemoveAll(t: Table, s: Subscriber): Table {
    seq(EVENT_LIST_TYPE_MAX_EVENTS, e requires 0 <= e < EVENT_LIST_TYPE_MAX_EVENTS => RemoveRow(t[e], s))
  }

  /** The relation that the table stands for. */
  predicate Subscribed(t: Table, s: Subscriber, event: int) { InRange(event) && s in t[event] }

  /** The codes with at least one subscriber. */
  function Union(t: Table): set<int> { set e | 0 <= e < EVENT_LIST_TYPE_MAX_EVENTS && t[e] != [] }

  lemma {:induction false} RemoveRowKeeps(row: Row, s: Subscriber)
    requires ValidRow(row)
    ensures ValidRow(RemoveRow(row, s))
    ensures s !in RemoveRow(row, s)
    ensures forall x: Subscriber | x != s :: x in RemoveRow(row, s) <==> x in row
    ensures s !in row ==> RemoveRow(row, s) == row
  {
    if row != [] {
      assert row == [row[0]] + row[1..];
      assert forall x: Subscriber | x != row[0] :: x in row <==> x in row[1..];
      if row[0] != s {
        RemoveRowKeeps(row[1..], s);
        var rest := RemoveRow(row[1..], s);
        assert row[0] !in rest;
        assert |rest| <= |row[1..]| by { RemoveRowLength(row[1..], s); }
      }
    }
  }

  lemma RemoveRowLength(row: Row, s: Subscriber)
    ensures |RemoveRow(row, s)| == if s in row then |row| - 1 else |row|
  {
    if row != [] && row[0] != s {
      assert row == [row[0]] + row[1..];
    }
  }

  /** Removing the entry at position i is one move of the tail. */
  lemma {:induction false} RemoveRowAt(row: Row, s: Subscriber, i: nat)
    requires i < |row| && row[i] == s && s !in row[..i]
    ensures RemoveRow(row, s) == row[..i] + row[i + 1..]
  {
    if i > 0 {
      assert row[1..][..i - 1] == row[..i][1..];
      RemoveRowAt(row[1..], s, i - 1);
    }
  }

  /** In this row a stands before b. */
  predicate Before(row: Row, a: Subscriber, b: Subscriber) { exists i, j :: 0 <= i < j < |row| && row[i] == a && row[j] == b }

  lemma BeforeInTail(row: Row, a: Subscriber, b: Subscriber)
    requires row != [] && ValidRow(row)
    ensures Before(row, a, b) <==> (row[0] == a && b in row[1..]) || Before(row[1..], a, b)
  {
    if Before(row, a, b) {
      var i, j :| 0 <= i < j < |row| && row[i] == a && row[j] == b;
      assert row[1..][j - 1] == b;
      if i > 0 {
        assert row[1..][i - 1] == a;
      }
    }
    if Before(row[1..], a, b) {
      var i, j :| 0 <= i < j < |row| - 1 && row[1..][i] == a && row[1..][j] == b;
      assert row[i + 1] == a && row[j + 1] == b;
    }
    if row[0] == a && b in row[1..] {
      var j :| 0 <= j < |row| - 1 && row[1..][j] == b;
      assert row[0] == a && row[j + 1] == b;
    }
  }

  lemma {:induction false} RemoveRowOrder(row: Row, s: Subscriber, a: Subscriber, b: Subscriber)
    requires ValidRow(row) && a != s && b != s
    ensures Before(RemoveRow(row, s), a, b) <==> Before(row, a, b)
  {
    hide Before;
    if row == [] {
    } else {
      BeforeInTail(row, a, b);
      if row[0] != s {
        var row' := RemoveRow(row, s);
        RemoveRowOrder(row[1..], s, a, b);
        RemoveRowKeeps(row, s);
        RemoveRowKeeps(row[1..], s);
        assert row'[1..] == RemoveRow(row[1..], s);
        BeforeInTail(row', a, b);
      }
    }
  }

  lemma AddRowOrder(row: Row, s: Subscriber, a: Subscriber, b: Subscriber)
    requires ValidRow(row) && s !in row && |row| < EVENT_DISPATCH_LIST_MAX_SUBSCRIBERS
    ensures Before(AddRow(row, s), a, b) <==> Before(row, a, b) || (a in row && b == s)
  {
    var row' := row + [s];
    if Before(row', a, b) {
      var i, j :| 0 <= i < j < |row'| && row'[i] == a && row'[j] == b;
      assert row[i] == a;
      if j < |row| {
        assert row[j] == b;
      }
    }
    if Before(row, a, b) {
      var i, j :| 0 <= i < j < |row| && row[i] == a && row[j] == b;
      assert row'[i] == a && row'[j] == b;
    }
    if a in row && b == s {
      var i :| 0 <= i < |row| && row[i] == a;
      assert row'[i] == a && row'[|row|] == s;
    }
  }

  /** Adding and removing keep the others of a row in their order, and put who is new
      behind them. */
  lemma TableKeepsOrder(t: Table, s: Subscriber, event: int, a: Subscriber, b: Subscriber, e: nat)
    requires ValidTable(t) && InRange(e)
    ensures e != event || (a != s && b != s) ==> (Before(RemoveSubscriber(t, s, event)[e], a, b) <==> Before(t[e], a, b))
    ensures a != s && b != s ==> (Before(RemoveAll(t, s)[e], a, b) <==> Before(t[e], a, b))
    ensures Before(AddSubscriber(t, s, event)[e], a, b) <==>
              Before(t[e], a, b) || (e == event && b == s && s !in t[e] && |t[e]| < EVENT_DISPATCH_LIST_MAX_SUBSCRIBERS && a in t[e])
  {
    hide Before, RemoveRow;
    if a != s && b != s {
      RemoveRowOrder(t[e], s, a, b);
    }
    if s !in t[e] && |t[e]| < EVENT_DISPATCH_LIST_MAX_SUBSCRIBERS {
      AddRowOrder(t[e], s, a, b);
    }
  }

  /** Adding to a row with a free place, or to one that has it, adds one pair and
      nothing else; removing takes one pair away. */
  lemma TableRefinesRelation(t: Table, s: Subscriber, event: int, x: Subscriber, e: int)
    requires ValidTable(t)
    ensures ValidTable(AddSubscriber(t, s, event)) && ValidTable(RemoveSubscriber(t, s, event)) && ValidTable(RemoveAll(t, s))
    ensures InRange(event) && (s in t[event] || |t[event]| < EVENT_DISPATCH_LIST_MAX_SUBSCRIBERS) ==>
              (Subscribed(AddSubscriber(t, s, event), x, e) <==> Subscribed(t, x, e) || (x == s && e == event))
    ensures Subscribed(RemoveSubscriber(t, s, event), x, e) <==> Subscribed(t, x, e) && !(x == s && e == event)
    ensures Subscribed(RemoveAll(t, s), x, e) <==> Subscribed(t, x, e) && x != s
  {
    forall i | 0 <= i < |t| ensures ValidRow(RemoveRow(t[i], s)) {
      RemoveRowKeeps(t[i], s);
    }
    if InRange(e) {
      RemoveRowKeeps(t[e], s);
    }
  }

  lemma UnionIsSubscribed(t: Table, e: int)
    ensures e in Union(t) <==> exists s: Subscriber :: Subscribed(t, s, e)
  {
    if e in Union(t) {
      assert Subscribed(t, t[e][0], e);
    }
  }

  /** A row of distinct live subscribers is no longer than their number. */
  lemma {:induction false} Pigeonhole(row: Row, live: set<nat>)
    requires forall i, j | 0 <= i < j < |row| :: row[i] != row[j]
    requires forall s | s in row :: s in live
    ensures |row| <= |live|
  {
    if row != [] {
      var rest := row[1..];
      forall s | s in rest ensures s in live - {row[0]} {}
      Pigeonhole(rest, live - {row[0]});
    }
  }

  /** With fewer live subscribers than places, or with the caller among at most as
      many as there are places, an add for a legal code finds a place. */
  lemma AddAlwaysFits(t: Table, s: Subscriber, event: int, live: set<nat>)
    requires ValidTable(t) && InRange(event)
    requires s in live && |live| <= EVENT_DISPATCH_LIST_MAX_SUBSCRIBERS
    requires forall x: Subscriber, e: int | Subscribed(t, x, e) :: x in live
    ensures s in t[event] || |t[event]| < EVENT_DISPATCH_LIST_MAX_SUBSCRIBERS
  {
    var row := t[event];
    if s !in row {
      forall x | x in row ensures x in live - {s} {
        assert Subscribed(t, x, event);
      }
      Pigeonhole(row, live - {s});
    }
  }

  // ----- the dispatch table in place

  datatype AddCode = Added | InvalidEvent | NoMemory

  function AddCodeOf(t: Table, s: Subscriber, event: int): AddCode {
    if !InRange(event) then InvalidEvent
    else if s in t[event] || |t[event]| < EVENT_DISPATCH_LIST_MAX_SUBSCRIBERS then Added
    else NoMemory
  }

  /** struct event_dispatch_list: a fixed block of places for each event code, the
      used ones first. */
  class DispatchList {
    var subs: array<nat>
    ghost var table: Table

    static function Base(event: int): int { event * EVENT_DISPATCH_LIST_MAX_SUBSCRIBERS }

    /** Place j of an event: its j-th subscriber, and NULL behind the last. */
    ghost predicate PlaceOk(e: int, j: int)
      reads this, subs
      requires subs.Length == Base(EVENT_LIST_TYPE_MAX_EVENTS)
      requires InRange(e) && 0 <= j < EVENT_DISPATCH_LIST_MAX_SUBSCRIBERS
    {
      subs[Base(e) + j] == if j < |table[e]| then table[e][j] else 0
    }

    ghost predicate RowOk(e: int)
      reads this, subs
      requires subs.Length == Base(EVENT_LIST_TYPE_MAX_EVENTS)
      requires InRange(e)
    {
      && |table[e]| <= EVENT_DISPATCH_LIST_MAX_SUBSCRIBERS
      && forall j | 0 <= j < EVENT_DISPATCH_LIST_MAX_SUBSCRIBERS :: PlaceOk(e, j)
    }

    ghost predicate Valid()
      reads this, subs
    {
      && subs.Length == Base(EVENT_LIST_TYPE_MAX_EVENTS)
      && forall e | InRange(e) :: RowOk(e)
    }

    /** event_dispatch_list_init. */
    constructor ()
      ensures Valid() && fresh(subs) && table == EmptyTable()
    {
      subs := new nat[Base(EVENT_LIST_TYPE_MAX_EVENTS)](_ => 0);
      table := EmptyTable();
    }

    method Add(s: Subscriber, event: int) returns (code: AddCode)
      requires Valid()
      modifies this`table, subs
      ensures Valid()
      ensures table == AddSubscriber(old(table), s, event)
      ensures code == AddCodeOf(old(table), s, event)
    {
      if event < 0 || event >= EVENT_LIST_TYPE_MAX_EVENTS {
        return InvalidEvent;
      }
      ghost var row := table[event];
      assert RowOk(event);
      var i := 0;
      while i < EVENT_DISPATCH_LIST_MAX_SUBSCRIBERS
        invariant 0 <= i <= |row|
        invariant s !in row[..i]
      {
        assert PlaceOk(event, i);
        if subs[Base(event) + i] == 0 {
          subs[Base(event) + i] := s;
          table := table[event := row + [s]];
          assert row == row[..i];
          forall e | InRange(e) ensures RowOk(e) {
            assert old(RowOk(e));
            forall j | 0 <= j < EVENT_DISPATCH_LIST_MAX_SUBSCRIBERS ensures PlaceOk(e, j) {
              assert old(PlaceOk(e, j));
            }
          }
          return Added;
        }
        if subs[Base(event) + i] == s {
          assert row[i] == s;
          return Added;
        }
        i := i + 1;
      }
      assert row == row[..i];
      return NoMemory;
    }

    method Remove(s: Subscriber, event: int)
      requires Valid()
      modifies this`table, subs
      ensures Valid()
      ensures table == RemoveSubscriber(old(table), s, event)
    {
      hide RemoveRow;
      if event < 0 || event >= EVENT_LIST_TYPE_MAX_EVENTS {
        return;
      }
      ghost var row := table[event];
      assert RowOk(event);
      var i, base := 0, Base(event);
      while i < EVENT_DISPATCH_LIST_MAX_SUBSCRIBERS
        invariant 0 <= i <= |row|
        invariant s !in row[..i]
      {
        assert PlaceOk(event, i);
        if subs[base + i] == 0 {
          break;
        }
        if subs[base + i] == s {
          RemoveRowAt(row, s, i);
          forall k | base + i <= k < base + EVENT_DISPATCH_LIST_MAX_SUBSCRIBERS - 1 {
            subs[k] := subs[k + 1];
          }
          subs[base + EVENT_DISPATCH_LIST_MAX_SUBSCRIBERS - 1] := 0;
          table := table[event := RemoveRow(row, s)];
          forall e | InRange(e) ensures RowOk(e) {
            assert old(RowOk(e));
            forall j | 0 <= j < EVENT_DISPATCH_LIST_MAX_SUBSCRIBERS ensures PlaceOk(e, j) {
              assert old(PlaceOk(e, j));
              if e == event && i <= j < EVENT_DISPATCH_LIST_MAX_SUBSCRIBERS - 1 {
                assert old(PlaceOk(e, j + 1));
                assert subs[base + j] == old(subs[base + j + 1]);
              }
            }
          }
          return;
        }
        i := i + 1;
      }
      RemoveAbsent(row, s);
    }

    method RemoveAllOf(s: Subscriber)
      requires Valid()
      modifies this`table, subs
      ensures Valid() && table == RemoveAll(old(table), s)
    {
      var ievent := 0;
      while ievent < EVENT_LIST_TYPE_MAX_EVENTS
        invariant 0 <= ievent <= EVENT_LIST_TYPE_MAX_EVENTS
        invariant Valid()
        invariant forall e | InRange(e) :: table[e] == if e < ievent then RemoveRow(old(table)[e], s) else old(table)[e]
      {
        Remove(s, ievent);
        ievent := ievent + 1;
      }
    }

    /** event_dispatch_list_add_subscribed_events. */
    method AddSubscribedEvents(allEvents: EventBitmap)
      requires Valid() && allEvents.Valid()
      requires allEvents.mask as object != subs
      modifies allEvents`codes, allEvents.mask
      ensures Valid() && allEvents.Valid()
      ensures allEvents.codes == old(allEvents.codes) + Union(table)
    {
      var ievent := 0;
      while ievent < EVENT_LIST_TYPE_MAX_EVENTS
        invariant 0 <= ievent <= EVENT_LIST_TYPE_MAX_EVENTS
        invariant Valid() && allEvents.Valid()
        invariant allEvents.codes == old(allEvents.codes) + (set e | e in Union(table) && e < ievent)
      {
        assert RowOk(ievent) && PlaceOk(ievent, 0);
        if subs[Base(ievent)] != 0 {
          allEvents.Add(ievent);
        }
        ievent := ievent + 1;
      }
    }

    /** event_dispatch_list_for_all_subscribers: the callbacks, in call order. */
    method ForAllSubscribers(event: int) returns (called: seq<Subscriber>)
      requires Valid()
      ensures called == if InRange(event) then table[event] else []
    {
      called := [];
      if event < 0 || event >= EVENT_LIST_TYPE_MAX_EVENTS {
        return;
      }
      assert RowOk(event);
      var i := 0;
      while i < EVENT_DISPATCH_LIST_MAX_SUBSCRIBERS
        invariant 0 <= i <= |table[event]|
        invariant called == table[event][..i]
      {
        assert PlaceOk(event, i);
        if subs[Base(event) + i] == 0 {
          break;
        }
        called := called + [subs[Base(event) + i]];
        i := i + 1;
      }
    }
  }

  lemma {:induction false} RemoveAbsent(row: Row, s: Subscriber)
    requires s !in row
    ensures RemoveRow(row, s) == row
  {
    if row != [] {
      RemoveAbsent(row[1..], s);
    }
  }
}
