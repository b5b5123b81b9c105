/** The records the store keeps (src/types/index.ts) and the drafts its
    `add*` and `createBooking` operations take: a record without its id. */
module StoreTypes {
  import opened Records

  /** A menu item; `price` is kept in integer cents, since the store never
      computes with it. */
  datatype MenuItem = MenuItem(
    id: string, name: string, description: string, price: int, image: string, category: string)

  datatype MenuItemDraft = MenuItemDraft(
    name: string, description: string, price: int, image: string, category: string)

  /** A table with its manually set default availability. */
  datatype TableAvailability = TableAvailability(
    id: string, tableNumber: int, capacity: int, isAvailable: bool)

  datatype TableDraft = TableDraft(tableNumber: int, capacity: int, isAvailable: bool)

  datatype Status = Pending | Confirmed | Canceled | Completed

  /** A reservation; `tableId` and `specialRequests` are optional fields. */
  datatype Booking = Booking(
    id: string, name: string, email: string, phone: string, date: string, time: string,
    guests: int, tableId: Option<string>, specialRequests: Option<string>, status: Status)

  /** Everything of a booking but its id; a `tableId` in it is overwritten
      by the allocator. */
  datatype BookingDraft = BookingDraft(
    name: string, email: string, phone: string, date: string, time: string,
    guests: int, tableId: Option<string>, specialRequests: Option<string>, status: Status)

  datatype GalleryImage = GalleryImage(id: string, url: string, alt: string, category: string)

  datatype GalleryImageDraft = GalleryImageDraft(url: string, alt: string, category: string)

  /** The rejection of a find-by-id update, with the store's message. */
  datatype StoreError = NotFound(message: string)

  const BookingNotFound := NotFound("Booking not found")
  const TableNotFound := NotFound("Table not found")
  const MenuItemNotFound := NotFound("Menu item not found")
  const GalleryImageNotFound := NotFound("Gallery image not found")

  /** A resolved (`Ok`) or rejected (`Err`) store call. */
  datatype Result<T> = Ok(value: T) | Err(error: StoreError)
}
