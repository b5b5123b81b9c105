/** The store's find-by-id updates, its delete and its appends, stated on the
    lists they change: each update finds the first record with the id,
    rejects when there is none, and otherwise rewrites that one record. */
module Updates {
  import opened Records
  import opened StoreTypes
  import opened Availability

  function BookingIdIs(id: string): Booking -> bool {
    (b: Booking) => b.id == id
  }

  function TableIdIs(id: string): TableAvailability -> bool {
    (t: TableAvailability) => t.id == id
  }

  function MenuItemIdIs(id: string): MenuItem -> bool {
    (m: MenuItem) => m.id == id
  }

  function GalleryImageIdIs(id: string): GalleryImage -> bool {
    (g: GalleryImage) => g.id == id
  }

  function StatusSetTo(status: Status): Booking -> Booking {
    (b: Booking) => b.(status := status)
  }

  function FlagSetTo(isAvailable: bool): TableAvailability -> TableAvailability {
    (t: TableAvailability) => t.(isAvailable := isAvailable)
  }

  function ReplacedBy<T>(x: T): T -> T {
    (_: T) => x
  }

  // ---------------------------------------------------------------------
  // updateBookingStatus

  /** The bookings after setting the status of the first booking with `id`;
      None (the "not found" rejection) when no booking has it. Any status
      may replace any other. */
  function WithStatus(bookings: seq<Booking>, id: string, status: Status): (r: Option<seq<Booking>>)
    ensures r.None? <==> forall j :: 0 <= j < |bookings| ==> bookings[j].id != id
    ensures r.Some? ==> |r.value| == |bookings|
    ensures r.Some? ==> exists k :: (0 <= k < |bookings| && bookings[k].id == id
                                     && (forall j :: 0 <= j < k ==> bookings[j].id != id)
                                     && r.value[k] == bookings[k].(status := status)
                                     && forall j :: 0 <= j < |bookings| && j != k ==> r.value[j] == bookings[j])
  {
    var r := UpdateFirst(bookings, BookingIdIs(id), StatusSetTo(status));
    assert r.None? <==> NoMatch(bookings, BookingIdIs(id));
    r
  }

  lemma StatusUpdateIdempotent(bookings: seq<Booking>, id: string, status: Status)
    ensures WithStatus(bookings, id, status).Some? ==>
      WithStatus(WithStatus(bookings, id, status).value, id, status) == WithStatus(bookings, id, status)
  {
    UpdateFirstIdempotent(bookings, BookingIdIs(id), StatusSetTo(status));
  }

  /** The status change would bring a canceled booking back into force. */
  ghost predicate ReopensCanceled(bookings: seq<Booking>, id: string, status: Status) {
    status != Canceled
    && exists k :: FirstMatch(bookings, BookingIdIs(id), k) && bookings[k].status == Canceled
  }

  /** A status change that does not reopen a canceled booking keeps the
      allocator's invariant. */
  lemma StatusUpdateKeepsNoDoubleBooking(bookings: seq<Booking>, id: string, status: Status)
    requires NoDoubleBooking(bookings)
    requires !ReopensCanceled(bookings, id, status)
    ensures WithStatus(bookings, id, status).Some? ==> NoDoubleBooking(WithStatus(bookings, id, status).value)
  {
    match FindIndex(bookings, BookingIdIs(id))
    case None =>
    case Some(k) =>
      assert FirstMatch(bookings, BookingIdIs(id), k);
      var after := bookings[k := bookings[k].(status := status)];
      assert WithStatus(bookings, id, status) == Some(after);
      forall i, j | 0 <= i < j < |after| && after[i].status != Canceled
        && after[j].status != Canceled && after[i].date == after[j].date
        && after[i].time == after[j].time && after[i].tableId.Some?
        ensures after[i].tableId != after[j].tableId
      {
        assert bookings[i].status != Canceled && bookings[j].status != Canceled;
      }
  }

  /** The transitions the admin screen offers: a pending booking may be
      confirmed or canceled, a confirmed one completed. */
  predicate AdminOffers(from: Status, to: Status) {
    (from == Pending && (to == Confirmed || to == Canceled)) || (from == Confirmed && to == Completed)
  }

  /** Status changes made through the admin screen keep the invariant,
      provided the booking the admin acts on is the first with its id: the
      store updates that first one (`DuplicateIdCanDoubleBook` shows what
      happens otherwise). */
  lemma AdminTransitionKeepsNoDoubleBooking(bookings: seq<Booking>, k: nat, status: Status)
    requires NoDoubleBooking(bookings)
    requires k < |bookings| && FirstMatch(bookings, BookingIdIs(bookings[k].id), k)
    requires AdminOffers(bookings[k].status, status)
    ensures WithStatus(bookings, bookings[k].id, status).Some?
    ensures NoDoubleBooking(WithStatus(bookings, bookings[k].id, status).value)
  {
    var id := bookings[k].id;
    FirstMatchIsFound(bookings, BookingIdIs(id), k);
    StatusUpdateKeepsNoDoubleBooking(bookings, id, status);
  }

  /** The store itself does not stop a canceled booking from being
      reopened, and reopening it can put two bookings on one table. */
  lemma ReopeningCanDoubleBook()
    ensures var held := Booking("b1", "A", "a@x", "1", "2025-06-01", "7:00 PM", 2, Some("t1"), None, Pending);
            var dropped := Booking("b2", "B", "b@x", "2", "2025-06-01", "7:00 PM", 2, Some("t1"), None, Canceled);
            var bookings := [held, dropped];
            NoDoubleBooking(bookings)
            && WithStatus(bookings, "b2", Confirmed) == Some([held, dropped.(status := Confirmed)])
            && !NoDoubleBooking(WithStatus(bookings, "b2", Confirmed).value)
  {
    var held := Booking("b1", "A", "a@x", "1", "2025-06-01", "7:00 PM", 2, Some("t1"), None, Pending);
    var dropped := Booking("b2", "B", "b@x", "2", "2025-06-01", "7:00 PM", 2, Some("t1"), None, Canceled);
    var bookings := [held, dropped];
    assert FirstMatch(bookings, BookingIdIs("b2"), 1);
    FirstMatchIsFound(bookings, BookingIdIs("b2"), 1);
    var after := [held, dropped.(status := Confirmed)];
    assert bookings[1 := StatusSetTo(Confirmed)(bookings[1])] == after;
    assert after[0].tableId == after[1].tableId;
  }

  /** With two bookings under one id, the admin's offered transition on the
      later one is applied to the earlier, canceled one instead, which
      reopens it onto a held table. */
  lemma DuplicateIdCanDoubleBook()
    ensures var first := Booking("X", "A", "a@x", "1", "2025-06-01", "7:00 PM", 2, Some("t1"), None, Canceled);
            var other := Booking("Y", "B", "b@x", "2", "2025-06-01", "7:00 PM", 2, Some("t1"), None, Pending);
            var clicked := Booking("X", "C", "c@x", "3", "2025-06-01", "7:00 PM", 2, Some("t2"), None, Pending);
            var bookings := [first, other, clicked];
            NoDoubleBooking(bookings)
            && AdminOffers(clicked.status, Confirmed)
            && WithStatus(bookings, clicked.id, Confirmed) == Some([first.(status := Confirmed), other, clicked])
            && !NoDoubleBooking(WithStatus(bookings, clicked.id, Confirmed).value)
  {
    var first := Booking("X", "A", "a@x", "1", "2025-06-01", "7:00 PM", 2, Some("t1"), None, Canceled);
    var other := Booking("Y", "B", "b@x", "2", "2025-06-01", "7:00 PM", 2, Some("t1"), None, Pending);
    var clicked := Booking("X", "C", "c@x", "3", "2025-06-01", "7:00 PM", 2, Some("t2"), None, Pending);
    var bookings := [first, other, clicked];
    assert FirstMatch(bookings, BookingIdIs("X"), 0);
    FirstMatchIsFound(bookings, BookingIdIs("X"), 0);
    var after := [first.(status := Confirmed), other, clicked];
    assert bookings[0 := StatusSetTo(Confirmed)(bookings[0])] == after;
    assert after[0].tableId == after[1].tableId;
  }

  // ---------------------------------------------------------------------
  // updateTableAvailability

  /** The tables after setting the flag of the first table with `id`; None
      when no table has it. */
  function WithTableFlag(tables: seq<TableAvailability>, id: string, isAvailable: bool)
    : (r: Option<seq<TableAvailability>>)
    ensures r.None? <==> forall j :: 0 <= j < |tables| ==> tables[j].id != id
    ensures r.Some? ==> |r.value| == |tables|
    ensures r.Some? ==> exists k :: (0 <= k < |tables| && tables[k].id == id
                                     && (forall j :: 0 <= j < k ==> tables[j].id != id)
                                     && r.value[k] == tables[k].(isAvailable := isAvailable)
                                     && forall j :: 0 <= j < |tables| && j != k ==> r.value[j] == tables[j])
  {
    var r := UpdateFirst(tables, TableIdIs(id), FlagSetTo(isAvailable));
    assert r.None? <==> NoMatch(tables, TableIdIs(id));
    r
  }

  lemma TableFlagUpdateIdempotent(tables: seq<TableAvailability>, id: string, isAvailable: bool)
    ensures WithTableFlag(tables, id, isAvailable).Some? ==>
      WithTableFlag(WithTableFlag(tables, id, isAvailable).value, id, isAvailable)
        == WithTableFlag(tables, id, isAvailable)
  {
    UpdateFirstIdempotent(tables, TableIdIs(id), FlagSetTo(isAvailable));
  }

  // ---------------------------------------------------------------------
  // updateMenuItem, updateGalleryImage

  /** The menu after replacing the first item with `item.id` by `item`;
      None when no item has that id. */
  function WithMenuItem(items: seq<MenuItem>, item: MenuItem): (r: Option<seq<MenuItem>>)
    ensures r.None? <==> forall j :: 0 <= j < |items| ==> items[j].id != item.id
    ensures r.Some? ==> |r.value| == |items|
    ensures r.Some? ==> exists k :: (0 <= k < |items| && items[k].id == item.id
                                     && (forall j :: 0 <= j < k ==> items[j].id != item.id)
                                     && r.value[k] == item
                                     && forall j :: 0 <= j < |items| && j != k ==> r.value[j] == items[j])
  {
    var r := UpdateFirst(items, MenuItemIdIs(item.id), ReplacedBy(item));
    assert r.None? <==> NoMatch(items, MenuItemIdIs(item.id));
    r
  }

  lemma MenuItemUpdateIdempotent(items: seq<MenuItem>, item: MenuItem)
    ensures WithMenuItem(items, item).Some? ==>
      WithMenuItem(WithMenuItem(items, item).value, item) == WithMenuItem(items, item)
  {
    UpdateFirstIdempotent(items, MenuItemIdIs(item.id), ReplacedBy(item));
  }

  /** The gallery after replacing the first image with `image.id` by
      `image`; None when no image has that id. */
  function WithGalleryImage(images: seq<GalleryImage>, image: GalleryImage): (r: Option<seq<GalleryImage>>)
    ensures r.None? <==> forall j :: 0 <= j < |images| ==> images[j].id != image.id
    ensures r.Some? ==> |r.value| == |images|
    ensures r.Some? ==> exists k :: (0 <= k < |images| && images[k].id == image.id
                                     && (forall j :: 0 <= j < k ==> images[j].id != image.id)
                                     && r.value[k] == image
                                     && forall j :: 0 <= j < |images| && j != k ==> r.value[j] == images[j])
  {
    var r := UpdateFirst(images, GalleryImageIdIs(image.id), ReplacedBy(image));
    assert r.None? <==> NoMatch(images, GalleryImageIdIs(image.id));
    r
  }

  lemma GalleryImageUpdateIdempotent(images: seq<GalleryImage>, image: GalleryImage)
    ensures WithGalleryImage(images, image).Some? ==>
      WithGalleryImage(WithGalleryImage(images, image).value, image) == WithGalleryImage(images, image)
  {
    UpdateFirstIdempotent(images, GalleryImageIdIs(image.id), ReplacedBy(image));
  }

  // ---------------------------------------------------------------------
  // deleteGalleryImage

  /** The gallery after removing the first image with `id`, the others kept
      in order; unchanged when no image has it. */
  function WithoutGalleryImage(images: seq<GalleryImage>, id: string): (r: seq<GalleryImage>)
    ensures (forall j :: 0 <= j < |images| ==> images[j].id != id) ==> r == images
    ensures (exists j :: 0 <= j < |images| && images[j].id == id) ==>
      |r| == |images| - 1
      && Count(r, GalleryImageIdIs(id)) == Count(images, GalleryImageIdIs(id)) - 1
    ensures (exists j :: 0 <= j < |images| && images[j].id == id) ==>
      exists k :: (0 <= k < |images| && images[k].id == id
                   && (forall j :: 0 <= j < k ==> images[j].id != id)
                   && r[..k] == images[..k] && r[k..] == images[k + 1..])
  {
    var p := GalleryImageIdIs(id);
    assert NoMatch(images, p) <==> forall j :: 0 <= j < |images| ==> images[j].id != id;
    RemoveFirstCount(images, p);
    RemoveFirst(images, p)
  }

  // ---------------------------------------------------------------------
  // addMenuItem, addGalleryImage, addTable

  function NewMenuItem(draft: MenuItemDraft, id: string): MenuItem {
    MenuItem(id, draft.name, draft.description, draft.price, draft.image, draft.category)
  }

  function NewGalleryImage(draft: GalleryImageDraft, id: string): GalleryImage {
    GalleryImage(id, draft.url, draft.alt, draft.category)
  }

  function NewTable(draft: TableDraft, id: string): TableAvailability {
    TableAvailability(id, draft.tableNumber, draft.capacity, draft.isAvailable)
  }

  /** Deleting an image just added under an id no other image has gives back
      the gallery as it was. */
  lemma DeleteUndoesAddGalleryImage(images: seq<GalleryImage>, draft: GalleryImageDraft, id: string)
    requires forall j :: 0 <= j < |images| ==> images[j].id != id
    ensures WithoutGalleryImage(images + [NewGalleryImage(draft, id)], id) == images
  {
    RemoveAppended(images, NewGalleryImage(draft, id), GalleryImageIdIs(id));
  }

  /** A menu item added under an id no other item has is the one a later
      update of that id replaces. */
  lemma UpdateFindsAddedMenuItem(items: seq<MenuItem>, draft: MenuItemDraft, item: MenuItem)
    requires forall j :: 0 <= j < |items| ==> items[j].id != item.id
    ensures WithMenuItem(items + [NewMenuItem(draft, item.id)], item) == Some(items + [item])
  {
    var added := items + [NewMenuItem(draft, item.id)];
    AppendedIsFound(items, NewMenuItem(draft, item.id), MenuItemIdIs(item.id));
    assert added[|items| := item] == items + [item];
  }

  /** A table added under an id no other table has is the one a later
      availability toggle of that id changes. */
  lemma ToggleFindsAddedTable(tables: seq<TableAvailability>, draft: TableDraft, id: string, isAvailable: bool)
    requires forall j :: 0 <= j < |tables| ==> tables[j].id != id
    ensures WithTableFlag(tables + [NewTable(draft, id)], id, isAvailable)
            == Some(tables + [NewTable(draft, id).(isAvailable := isAvailable)])
  {
    var added := tables + [NewTable(draft, id)];
    AppendedIsFound(tables, NewTable(draft, id), TableIdIs(id));
    assert added[|tables| := NewTable(draft, id).(isAvailable := isAvailable)]
           == tables + [NewTable(draft, id).(isAvailable := isAvailable)];
  }
}
