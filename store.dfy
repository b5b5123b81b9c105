/** The mock record store: four lists kept in memory, the operations that
    read and change them, and the data the store starts with. Latency is not
    modelled: each operation answers at once, with its result or its
    rejection. */
module Store {
  import opened Records
  import opened StoreTypes
  import opened Availability
  import opened Updates
  import opened Ids

  const SeedTables: seq<TableAvailability> := [
    TableAvailability("t1", 1, 2, true),
    TableAvailability("t2", 2, 4, true),
    TableAvailability("t3", 3, 6, false),
    TableAvailability("t4", 4, 4, true),
    TableAvailability("t5", 5, 8, true),
    TableAvailability("t6", 6, 2, false)
  ]

  const SeedMenuItems: seq<MenuItem> := [
    MenuItem("1", "Traditional Kitfo",
      "Freshly minced raw beef seasoned with mitmita (spicy chili powder) and niter kibbeh (clarified butter infused with herbs and spices).",
      1899, "https://images.unsplash.com/photo-1608835291093-394b0c943a75?w=800&auto=format&fit=crop&q=80",
      "Signature Dishes"),
    MenuItem("2", "Lega Tibs",
      "Tender pieces of meat saut\U{e9}ed with rosemary, onions, and peppers, served sizzling hot.",
      1699, "https://images.unsplash.com/photo-1605491130710-81aef37f9635?w=800&auto=format&fit=crop&q=80",
      "Main Courses"),
    MenuItem("3", "Vegetarian Combo",
      "A combination of various vegetarian dishes including misir wot (spicy red lentils), kik alicha (split peas), gomen (collard greens), and tikil gomen (cabbage and carrots).",
      1499, "https://images.unsplash.com/photo-1567982047351-7935297eff55?w=800&auto=format&fit=crop&q=80",
      "Vegetarian"),
    MenuItem("4", "Doro Wot",
      "Spicy chicken stew simmered with berbere spice, served with a hard-boiled egg.",
      1799, "https://images.unsplash.com/photo-1572656631137-7935297eff55?w=800&auto=format&fit=crop&q=80",
      "Main Courses"),
    MenuItem("5", "Shiro",
      "A thick, spicy stew made from ground chickpeas, often served with injera.",
      1299, "https://images.unsplash.com/photo-1511690743698-d9d85f2fbf38?w=800&auto=format&fit=crop&q=80",
      "Vegetarian"),
    MenuItem("6", "Ethiopian Coffee Ceremony",
      "Traditional coffee ceremony with freshly roasted beans, served with popcorn.",
      999, "https://images.unsplash.com/photo-1518057111178-44a106bad636?w=800&auto=format&fit=crop&q=80",
      "Beverages")
  ]

  const SeedGalleryImages: seq<GalleryImage> := [
    GalleryImage("g1", "https://images.unsplash.com/photo-1559925393-8be0ec4767c8?w=800&auto=format&fit=crop&q=80",
      "Restaurant interior view with traditional Ethiopian decor", "Interior"),
    GalleryImage("g2", "https://images.unsplash.com/photo-1517248135467-4c7edcad34c4?w=800&auto=format&fit=crop&q=80",
      "Cozy seating area with traditional low tables", "Interior"),
    GalleryImage("g3", "https://images.unsplash.com/photo-1555396273-367ea4eb4db5?w=800&auto=format&fit=crop&q=80",
      "Chef preparing traditional Ethiopian dishes", "Kitchen"),
    GalleryImage("g4", "https://images.unsplash.com/photo-1414235077428-338989a2e8c0?w=800&auto=format&fit=crop&q=80",
      "Beautiful plating of Ethiopian cuisine", "Food"),
    GalleryImage("g5", "https://images.unsplash.com/photo-1544148103-0773bf10d330?w=800&auto=format&fit=crop&q=80",
      "Traditional coffee ceremony setup", "Culture"),
    GalleryImage("g6", "https://images.unsplash.com/photo-1528605248644-14dd04022da1?w=800&auto=format&fit=crop&q=80",
      "Exterior view of the restaurant", "Exterior")
  ]

  class MockStore {
    var bookings: seq<Booking>
    var tables: seq<TableAvailability>
    var menuItems: seq<MenuItem>
    var galleryImages: seq<GalleryImage>

    /** The store as the process starts it: no bookings, the seed tables,
        menu and gallery. */
    constructor ()
      ensures bookings == [] && tables == SeedTables
      ensures menuItems == SeedMenuItems && galleryImages == SeedGalleryImages
    {
      bookings := [];
      tables := SeedTables;
      menuItems := SeedMenuItems;
      galleryImages := SeedGalleryImages;
    }

    method GetMenuItems() returns (r: seq<MenuItem>)
      ensures r == menuItems
    {
      r := menuItems;
    }

    method GetGalleryImages() returns (r: seq<GalleryImage>)
      ensures r == galleryImages
    {
      r := galleryImages;
    }

    method GetAllBookings() returns (r: seq<Booking>)
      ensures r == bookings
    {
      r := bookings;
    }

    /** One entry per stored table, in store order, with its id, number and
        capacity; available when its own flag is set and no non-canceled
        booking on `date`, at any time, names it. */
    method GetAvailableTables(date: string) returns (r: seq<TableAvailability>)
      ensures |r| == |tables|
      ensures forall i :: 0 <= i < |tables| ==>
        r[i].id == tables[i].id && r[i].tableNumber == tables[i].tableNumber
        && r[i].capacity == tables[i].capacity
      ensures forall i :: 0 <= i < |tables| ==>
        (r[i].isAvailable <==> tables[i].isAvailable && !BookedOn(bookings, date, tables[i].id))
    {
      r := AvailableTables(tables, bookings, date);
    }

    /** Stores `draft` under an id minted from the clock reading `now`, with
        the first fitting table, if any, and returns the stored record. */
    method CreateBooking(draft: BookingDraft, now: nat) returns (b: Booking)
      modifies this`bookings
      ensures b == NewBooking(draft, MintId(BookingPrefix, now), tables, old(bookings))
      ensures bookings == old(bookings) + [b]
    {
      b := NewBooking(draft, MintId(BookingPrefix, now), tables, bookings);
      bookings := bookings + [b];
    }

    method UpdateBookingStatus(id: string, status: Status) returns (r: Result<Booking>)
      modifies this`bookings
      ensures WithStatus(old(bookings), id, status).None? ==>
        r == Err(BookingNotFound) && bookings == old(bookings)
      ensures WithStatus(old(bookings), id, status).Some? ==>
        Some(bookings) == WithStatus(old(bookings), id, status)
        && r == Ok(bookings[FindIndex(old(bookings), BookingIdIs(id)).value])
    {
      var index := FindIndex(bookings, BookingIdIs(id));
      if index.None? {
        r := Err(BookingNotFound);
        return;
      }
      var k := index.value;
      bookings := bookings[k := bookings[k].(status := status)];
      r := Ok(bookings[k]);
    }

    method UpdateTableAvailability(id: string, isAvailable: bool) returns (r: Result<TableAvailability>)
      modifies this`tables
      ensures WithTableFlag(old(tables), id, isAvailable).None? ==>
        r == Err(TableNotFound) && tables == old(tables)
      ensures WithTableFlag(old(tables), id, isAvailable).Some? ==>
        Some(tables) == WithTableFlag(old(tables), id, isAvailable)
        && r == Ok(tables[FindIndex(old(tables), TableIdIs(id)).value])
    {
      var index := FindIndex(tables, TableIdIs(id));
      if index.None? {
        r := Err(TableNotFound);
        return;
      }
      var k := index.value;
      tables := tables[k := tables[k].(isAvailable := isAvailable)];
      r := Ok(tables[k]);
    }

    method UpdateMenuItem(item: MenuItem) returns (r: Result<MenuItem>)
      modifies this`menuItems
      ensures WithMenuItem(old(menuItems), item).None? ==>
        r == Err(MenuItemNotFound) && menuItems == old(menuItems)
      ensures WithMenuItem(old(menuItems), item).Some? ==>
        Some(menuItems) == WithMenuItem(old(menuItems), item) && r == Ok(item)
    {
      var index := FindIndex(menuItems, MenuItemIdIs(item.id));
      if index.None? {
        r := Err(MenuItemNotFound);
        return;
      }
      menuItems := menuItems[index.value := item];
      r := Ok(item);
    }

    method AddMenuItem(draft: MenuItemDraft, now: nat) returns (item: MenuItem)
      modifies this`menuItems
      ensures item == NewMenuItem(draft, MintId(MenuPrefix, now))
      ensures menuItems == old(menuItems) + [item]
    {
      item := NewMenuItem(draft, MintId(MenuPrefix, now));
      menuItems := menuItems + [item];
    }

    method AddGalleryImage(draft: GalleryImageDraft, now: nat) returns (image: GalleryImage)
      modifies this`galleryImages
      ensures image == NewGalleryImage(draft, MintId(GalleryPrefix, now))
      ensures galleryImages == old(galleryImages) + [image]
    {
      image := NewGalleryImage(draft, MintId(GalleryPrefix, now));
      galleryImages := galleryImages + [image];
    }

    method UpdateGalleryImage(image: GalleryImage) returns (r: Result<GalleryImage>)
      modifies this`galleryImages
      ensures WithGalleryImage(old(galleryImages), image).None? ==>
        r == Err(GalleryImageNotFound) && galleryImages == old(galleryImages)
      ensures WithGalleryImage(old(galleryImages), image).Some? ==>
        Some(galleryImages) == WithGalleryImage(old(galleryImages), image) && r == Ok(image)
    {
      var index := FindIndex(galleryImages, GalleryImageIdIs(image.id));
      if index.None? {
        r := Err(GalleryImageNotFound);
        return;
      }
      galleryImages := galleryImages[index.value := image];
      r := Ok(image);
    }

    /** Removes the first image with `id`, if there is one; always answers
        true. */
    method DeleteGalleryImage(id: string) returns (deleted: bool)
      modifies this`galleryImages
      ensures deleted
      ensures galleryImages == WithoutGalleryImage(old(galleryImages), id)
    {
      var index := FindIndex(galleryImages, GalleryImageIdIs(id));
      if index.Some? {
        var k := index.value;
        galleryImages := galleryImages[..k] + galleryImages[k + 1..];
      }
      deleted := true;
    }

    method AddTable(draft: TableDraft, now: nat) returns (table: TableAvailability)
      modifies this`tables
      ensures table == NewTable(draft, MintId(TablePrefix, now))
      ensures tables == old(tables) + [table]
    {
      table := NewTable(draft, MintId(TablePrefix, now));
      tables := tables + [table];
    }
  }
}
