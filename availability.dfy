/** The two decisions the store makes about tables: which tables a date
    still offers (`getAvailableTables`, by date only) and which table a new
    booking gets (`createBooking`'s first fit, by date and time). */
module Availability {
  import opened Records
  import opened StoreTypes

  /** Booking `b` holds table `tableId`: it is not canceled and names it. */
  predicate Occupies(b: Booking, tableId: string) {
    b.status != Canceled && b.tableId == Some(tableId)
  }

  /** Some booking on `date`, at any time, holds the table. */
  ghost predicate BookedOn(bookings: seq<Booking>, date: string, tableId: string) {
    exists i :: 0 <= i < |bookings| && bookings[i].date == date && Occupies(bookings[i], tableId)
  }

  /** Some booking at exactly `date` and `time` holds the table. */
  ghost predicate HeldAt(bookings: seq<Booking>, date: string, time: string, tableId: string) {
    exists i :: 0 <= i < |bookings| && bookings[i].date == date && bookings[i].time == time
                && Occupies(bookings[i], tableId)
  }

  // ---------------------------------------------------------------------
  // Availability resolver

  function ActiveOn(date: string): Booking -> bool {
    (b: Booking) => b.date == date && b.status != Canceled
  }

  /** The `tableId`s of the non-canceled bookings on `date`, one entry per
      booking, unset ones included. */
  function BookedTableIds(bookings: seq<Booking>, date: string): (r: seq<Option<string>>)
    ensures forall id {:trigger BookedOn(bookings, date, id)} ::
      Some(id) in r <==> BookedOn(bookings, date, id)
  {
    var active := Filter(bookings, ActiveOn(date));
    var r := seq(|active|, i requires 0 <= i < |active| => active[i].tableId);
    assert forall id {:trigger BookedOn(bookings, date, id)} ::
      Some(id) in r ==> BookedOn(bookings, date, id) by {
      forall id | Some(id) in r ensures BookedOn(bookings, date, id) {
        var i :| 0 <= i < |r| && r[i] == Some(id);
        var j :| 0 <= j < |bookings| && bookings[j] == active[i];
        assert bookings[j].date == date && Occupies(bookings[j], id);
      }
    }
    assert forall id {:trigger BookedOn(bookings, date, id)} ::
      BookedOn(bookings, date, id) ==> Some(id) in r by {
      forall id | BookedOn(bookings, date, id) ensures Some(id) in r {
        var j :| 0 <= j < |bookings| && bookings[j].date == date && Occupies(bookings[j], id);
        assert ActiveOn(date)(bookings[j]);
        var i :| 0 <= i < |active| && active[i] == bookings[j];
        assert r[i] == Some(id);
      }
    }
    r
  }

  /** Every stored table, in store order, with `isAvailable` forced to false
      when a non-canceled booking on `date` names it. */
  function AvailableTables(tables: seq<TableAvailability>, bookings: seq<Booking>, date: string)
    : (r: seq<TableAvailability>)
    ensures |r| == |tables|
    ensures forall i :: 0 <= i < |tables| ==>
      r[i].id == tables[i].id && r[i].tableNumber == tables[i].tableNumber
      && r[i].capacity == tables[i].capacity
    ensures forall i :: 0 <= i < |tables| ==>
      (r[i].isAvailable <==> tables[i].isAvailable && !BookedOn(bookings, date, tables[i].id))
  {
    var booked := BookedTableIds(bookings, date);
    seq(|tables|, i requires 0 <= i < |tables| =>
      tables[i].(isAvailable := if Some(tables[i].id) in booked then false else tables[i].isAvailable))
  }

  /** The resolver looks at dates only: moving bookings to other times of
      the same day changes nothing it reports. */
  lemma {:induction false} ResolverIgnoresTime(
    tables: seq<TableAvailability>, bookings: seq<Booking>, retimed: seq<Booking>, date: string)
    requires |retimed| == |bookings|
    requires forall i :: 0 <= i < |bookings| ==> retimed[i] == bookings[i].(time := retimed[i].time)
    ensures AvailableTables(tables, bookings, date) == AvailableTables(tables, retimed, date)
  {
    forall id ensures BookedOn(bookings, date, id) <==> BookedOn(retimed, date, id) {
      if BookedOn(bookings, date, id) {
        var i :| 0 <= i < |bookings| && bookings[i].date == date && Occupies(bookings[i], id);
        assert retimed[i].date == date && Occupies(retimed[i], id);
      }
      if BookedOn(retimed, date, id) {
        var i :| 0 <= i < |retimed| && retimed[i].date == date && Occupies(retimed[i], id);
        assert bookings[i].date == date && Occupies(bookings[i], id);
      }
    }
  }

  // ---------------------------------------------------------------------
  // Booking allocator

  /** The table is flagged available, seats the party and is not held at
      the draft's date and time. */
  ghost predicate Fits(t: TableAvailability, bookings: seq<Booking>, draft: BookingDraft) {
    t.isAvailable && t.capacity >= draft.guests && !HeldAt(bookings, draft.date, draft.time, t.id)
  }

  function SameSlotActive(draft: BookingDraft): Booking -> bool {
    (b: Booking) => b.date == draft.date && b.time == draft.time && b.status != Canceled
  }

  function NamesTable(tableId: string): Booking -> bool {
    (b: Booking) => b.tableId == Some(tableId)
  }

  /** The allocator's test for one table, computed as the store computes it:
      filter the bookings to the slot, then ask whether one names the table. */
  predicate Qualifies(t: TableAvailability, bookings: seq<Booking>, draft: BookingDraft)
    ensures Qualifies(t, bookings, draft) <==> Fits(t, bookings, draft)
  {
    var slot := Filter(bookings, SameSlotActive(draft));
    var clash := Any(slot, NamesTable(t.id));
    assert clash <==> HeldAt(bookings, draft.date, draft.time, t.id) by {
      if clash {
        var i :| 0 <= i < |slot| && NamesTable(t.id)(slot[i]);
        var j :| 0 <= j < |bookings| && bookings[j] == slot[i];
        assert bookings[j].date == draft.date && bookings[j].time == draft.time
               && Occupies(bookings[j], t.id);
      }
      if HeldAt(bookings, draft.date, draft.time, t.id) {
        var j :| 0 <= j < |bookings| && bookings[j].date == draft.date
                 && bookings[j].time == draft.time && Occupies(bookings[j], t.id);
        assert SameSlotActive(draft)(bookings[j]);
        var i :| 0 <= i < |slot| && slot[i] == bookings[j];
        assert NamesTable(t.id)(slot[i]);
      }
    }
    t.isAvailable && t.capacity >= draft.guests && !clash
  }

  function QualifiesFor(bookings: seq<Booking>, draft: BookingDraft): TableAvailability -> bool {
    (t: TableAvailability) => Qualifies(t, bookings, draft)
  }

  /** The first table in store order that fits the draft, if any. */
  function ChooseTable(tables: seq<TableAvailability>, bookings: seq<Booking>, draft: BookingDraft)
    : (r: Option<TableAvailability>)
    ensures r.None? <==> forall j :: 0 <= j < |tables| ==> !Fits(tables[j], bookings, draft)
    ensures r.Some? ==> exists k :: (0 <= k < |tables| && tables[k] == r.value
                                     && Fits(tables[k], bookings, draft)
                                     && forall j :: 0 <= j < k ==> !Fits(tables[j], bookings, draft))
  {
    var r := Find(tables, QualifiesFor(bookings, draft));
    assert r.Some? ==> exists k :: (0 <= k < |tables| && tables[k] == r.value
                                    && Fits(tables[k], bookings, draft)
                                    && forall j :: 0 <= j < k ==> !Fits(tables[j], bookings, draft)) by {
      if r.Some? {
        var k :| FirstMatch(tables, QualifiesFor(bookings, draft), k) && tables[k] == r.value;
        assert QualifiesFor(bookings, draft)(tables[k]);
      }
    }
    r
  }

  /** The allocator's choice is the first fitting table. */
  lemma ChooseTableIsFirstFit(tables: seq<TableAvailability>, bookings: seq<Booking>, draft: BookingDraft, k: int)
    requires 0 <= k < |tables| && Fits(tables[k], bookings, draft)
    requires forall j :: 0 <= j < k ==> !Fits(tables[j], bookings, draft)
    ensures ChooseTable(tables, bookings, draft) == Some(tables[k])
  {
    var r := ChooseTable(tables, bookings, draft);
    var k' :| 0 <= k' < |tables| && tables[k'] == r.value && Fits(tables[k'], bookings, draft)
              && forall j :: 0 <= j < k' ==> !Fits(tables[j], bookings, draft);
    assert k' <= k && k <= k';
  }

  /** The chosen table's id; the store falls back to "no table" whenever
      that id is falsy, so an empty id also leaves the booking unassigned. */
  function AssignedTableId(choice: Option<TableAvailability>): Option<string> {
    if choice.Some? && choice.value.id != "" then Some(choice.value.id) else None
  }

  /** The record `createBooking` stores for `draft` under the new `id`. */
  function NewBooking(draft: BookingDraft, id: string, tables: seq<TableAvailability>, bookings: seq<Booking>)
    : (b: Booking)
    ensures b.id == id && b.name == draft.name && b.email == draft.email && b.phone == draft.phone
      && b.date == draft.date && b.time == draft.time && b.guests == draft.guests
      && b.specialRequests == draft.specialRequests && b.status == draft.status
    ensures b.tableId.Some? ==> exists k :: (0 <= k < |tables| && tables[k].id == b.tableId.value
                                             && Fits(tables[k], bookings, draft)
                                             && forall j :: 0 <= j < k ==> !Fits(tables[j], bookings, draft))
    ensures b.tableId.None? ==>
      (forall j :: 0 <= j < |tables| ==> !Fits(tables[j], bookings, draft))
      || exists k :: 0 <= k < |tables| && tables[k].id == ""
           && Fits(tables[k], bookings, draft) && forall j :: 0 <= j < k ==> !Fits(tables[j], bookings, draft)
  {
    Booking(id, draft.name, draft.email, draft.phone, draft.date, draft.time, draft.guests,
            AssignedTableId(ChooseTable(tables, bookings, draft)), draft.specialRequests, draft.status)
  }

  /** A `tableId` carried by the draft never reaches the stored record: the
      result is the same whatever the draft names. */
  lemma DraftTableIdIsOverwritten(
    draft: BookingDraft, other: Option<string>, id: string, tables: seq<TableAvailability>, bookings: seq<Booking>)
    ensures NewBooking(draft.(tableId := other), id, tables, bookings) == NewBooking(draft, id, tables, bookings)
  {
    var d' := draft.(tableId := other);
    var choice := ChooseTable(tables, bookings, draft);
    if choice.Some? {
      var k :| 0 <= k < |tables| && tables[k] == choice.value && Fits(tables[k], bookings, draft)
               && forall j :: 0 <= j < k ==> !Fits(tables[j], bookings, draft);
      ChooseTableIsFirstFit(tables, bookings, d', k);
    } else {
      assert forall j :: 0 <= j < |tables| ==> !Fits(tables[j], bookings, d');
    }
  }

  ghost predicate NonEmptyTableIds(tables: seq<TableAvailability>) {
    forall i :: 0 <= i < |tables| ==> tables[i].id != ""
  }

  /** When no table id is empty, a booking goes without a table exactly when
      no table fits it. */
  lemma UnassignedIffNoTableFits(draft: BookingDraft, id: string, tables: seq<TableAvailability>, bookings: seq<Booking>)
    requires NonEmptyTableIds(tables)
    ensures NewBooking(draft, id, tables, bookings).tableId.None?
            <==> forall j :: 0 <= j < |tables| ==> !Fits(tables[j], bookings, draft)
  {
    var choice := ChooseTable(tables, bookings, draft);
    if choice.Some? {
      var k :| 0 <= k < |tables| && tables[k] == choice.value;
      assert choice.value.id != "";
    }
  }

  // ---------------------------------------------------------------------
  // The allocator's invariant

  /** No two non-canceled bookings at the same date and time name the same
      table. */
  ghost predicate NoDoubleBooking(bookings: seq<Booking>) {
    forall i, j :: 0 <= i < j < |bookings| && bookings[i].status != Canceled
      && bookings[j].status != Canceled && bookings[i].date == bookings[j].date
      && bookings[i].time == bookings[j].time && bookings[i].tableId.Some?
      ==> bookings[i].tableId != bookings[j].tableId
  }

  /** Appending the allocator's record keeps the invariant. */
  lemma CreateBookingKeepsNoDoubleBooking(
    draft: BookingDraft, id: string, tables: seq<TableAvailability>, bookings: seq<Booking>)
    requires NoDoubleBooking(bookings)
    ensures NoDoubleBooking(bookings + [NewBooking(draft, id, tables, bookings)])
  {
    var b := NewBooking(draft, id, tables, bookings);
    var after := bookings + [b];
    if b.tableId.Some? {
      var k :| 0 <= k < |tables| && tables[k].id == b.tableId.value && Fits(tables[k], bookings, draft);
      forall i | 0 <= i < |bookings| && bookings[i].status != Canceled && bookings[i].date == b.date
          && bookings[i].time == b.time
        ensures bookings[i].tableId != b.tableId
      {
        assert !(bookings[i].date == draft.date && bookings[i].time == draft.time
                 && Occupies(bookings[i], tables[k].id));
      }
    }
    forall i, j | 0 <= i < j < |after| && after[i].status != Canceled
      && after[j].status != Canceled && after[i].date == after[j].date
      && after[i].time == after[j].time && after[i].tableId.Some?
      ensures after[i].tableId != after[j].tableId
    {
      if j < |bookings| {
        assert after[i] == bookings[i] && after[j] == bookings[j];
      } else {
        assert after[i] == bookings[i] && after[j] == b;
      }
    }
  }
}
