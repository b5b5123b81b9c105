/** The allocator and the resolver run on the store's seed tables: t1 (2
    seats), t2 (4), t3 (6, flagged unavailable), t4 (4), t5 (8), t6 (2,
    flagged unavailable). */
module Scenarios {
  import opened Records
  import opened StoreTypes
  import opened Availability
  import opened Store

  const Day := "2025-06-01"

  function Request(guests: int, time: string): BookingDraft {
    BookingDraft("Guest", "guest@example.com", "555-0100", Day, time, guests, None, None, Pending)
  }

  /** `b` is a live booking in the 7 PM slot of `Day` holding `tableId`. */
  predicate HoldsSevenPm(b: Booking, tableId: string) {
    b.date == Day && b.time == "7:00 PM" && Occupies(b, tableId)
  }

  lemma FirstFourGuestBookingTakesT2(id: string)
    ensures NewBooking(Request(4, "7:00 PM"), id, SeedTables, []).tableId == Some("t2")
  {
    ChooseTableIsFirstFit(SeedTables, [], Request(4, "7:00 PM"), 1);
  }

  lemma SecondFourGuestBookingTakesT4(b1: Booking, id: string)
    requires HoldsSevenPm(b1, "t2")
    ensures NewBooking(Request(4, "7:00 PM"), id, SeedTables, [b1]).tableId == Some("t4")
  {
    var d := Request(4, "7:00 PM");
    assert [b1][0] == b1;
    assert !Fits(SeedTables[1], [b1], d);
    ChooseTableIsFirstFit(SeedTables, [b1], d, 3);
  }

  lemma ThirdFourGuestBookingTakesT5(b1: Booking, b2: Booking, id: string)
    requires HoldsSevenPm(b1, "t2") && HoldsSevenPm(b2, "t4")
    ensures NewBooking(Request(4, "7:00 PM"), id, SeedTables, [b1, b2]).tableId == Some("t5")
  {
    var d := Request(4, "7:00 PM");
    var held := [b1, b2];
    assert held[0] == b1 && held[1] == b2;
    assert !Fits(SeedTables[1], held, d) && !Fits(SeedTables[3], held, d);
    ChooseTableIsFirstFit(SeedTables, held, d, 4);
  }

  lemma FourthFourGuestBookingGetsNoTable(b1: Booking, b2: Booking, b3: Booking, id: string)
    requires HoldsSevenPm(b1, "t2") && HoldsSevenPm(b2, "t4") && HoldsSevenPm(b3, "t5")
    ensures NewBooking(Request(4, "7:00 PM"), id, SeedTables, [b1, b2, b3]).tableId == None
  {
    var d := Request(4, "7:00 PM");
    var held := [b1, b2, b3];
    assert held[0] == b1 && held[1] == b2 && held[2] == b3;
    assert !Fits(SeedTables[1], held, d) && !Fits(SeedTables[3], held, d) && !Fits(SeedTables[4], held, d);
  }

  /** Four-guest bookings for one slot take t2, then t4, then t5, and the
      fourth is stored without a table. */
  lemma FourGuestBookingsFillTablesInOrder()
    ensures var d := Request(4, "7:00 PM");
            var b1 := NewBooking(d, "booking-1", SeedTables, []);
            var b2 := NewBooking(d, "booking-2", SeedTables, [b1]);
            var b3 := NewBooking(d, "booking-3", SeedTables, [b1, b2]);
            var b4 := NewBooking(d, "booking-4", SeedTables, [b1, b2, b3]);
            b1.tableId == Some("t2") && b2.tableId == Some("t4")
            && b3.tableId == Some("t5") && b4.tableId == None
  {
    var d := Request(4, "7:00 PM");
    FirstFourGuestBookingTakesT2("booking-1");
    var b1 := NewBooking(d, "booking-1", SeedTables, []);
    SecondFourGuestBookingTakesT4(b1, "booking-2");
    var b2 := NewBooking(d, "booking-2", SeedTables, [b1]);
    ThirdFourGuestBookingTakesT5(b1, b2, "booking-3");
    var b3 := NewBooking(d, "booking-3", SeedTables, [b1, b2]);
    FourthFourGuestBookingGetsNoTable(b1, b2, b3, "booking-4");
  }

  /** After a 7 PM booking takes t2, the resolver reports t2 unavailable for
      the whole day, yet the allocator still gives t2 to an 8 PM booking. */
  lemma ResolverAndAllocatorDisagreeAcrossTimes()
    ensures var b1 := NewBooking(Request(4, "7:00 PM"), "booking-1", SeedTables, []);
            b1.tableId == Some("t2")
            && !AvailableTables(SeedTables, [b1], Day)[1].isAvailable
            && NewBooking(Request(4, "8:00 PM"), "booking-2", SeedTables, [b1]).tableId == Some("t2")
  {
    var t := SeedTables;
    ChooseTableIsFirstFit(t, [], Request(4, "7:00 PM"), 1);
    var b1 := NewBooking(Request(4, "7:00 PM"), "booking-1", t, []);
    assert [b1][0] == b1;
    assert BookedOn([b1], Day, "t2");
    ChooseTableIsFirstFit(t, [b1], Request(4, "8:00 PM"), 1);
  }
}
