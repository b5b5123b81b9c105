# Restaurant reservation store: a Dafny model

This project models the in-memory record store behind a restaurant website's
booking pages and admin dashboard (`src/services/mockData.ts`, with the
record types of `src/types/index.ts`). The store keeps four lists: bookings,
tables, menu items and gallery images. The model covers:

- **Availability resolver** `getAvailableTables(date)`. It returns every table,
  with `isAvailable` forced to false when a non-canceled booking on that date,
  at any time, names the table.
- **First-fit allocator** `createBooking(draft)`. It gives the new booking the
  first table, in store order, that is flagged available, seats the party,
  and is not held by a non-canceled booking at the same date and time. It then
  appends the booking, with or without a table.
- **Find-by-id updates** of a booking's status, a table's flag, a menu item and
  a gallery image. Each rejects with "not found" when no record has the id.
- **Appends** of menu items, gallery images and tables.
- **Delete** `deleteGalleryImage`. It removes the first image with the id and
  always answers true.

Layout:

- `records.dfy` (module `Records`): the generic list operations the store is
  built from. These are `findIndex`, `find`, `filter`, `some`, the
  find-by-index update, and the one-element `splice`.
- `ids.dfy` (module `Ids`): ids of the form `<kind>-<Date.now()>`.
- `types.dfy` (module `StoreTypes`): the records, the id-less drafts, the
  status enum and the "not found" rejection.
- `availability.dfy` (module `Availability`): the resolver, the allocator and
  the no-double-booking invariant.
- `updates.dfy` (module `Updates`): the updates, the delete and the appends as
  functions on lists, with their lemmas.
- `store.dfy` (module `Store`): class `MockStore`. Its four `seq` fields are the
  store's arrays, and its methods change them in place. Each method's
  `ensures` ties the new state and the answer to the functions above. The
  module also holds the seed data.
- `scenarios.dfy` (module `Scenarios`): the allocator and the resolver run on
  the seed tables.

Details of the code that the model keeps:

- The allocator scans tables in store order.
- The resolver returns every table, with a per-date flag. It does not return
  only the free tables.
- A booking draft is a booking without its id, so it may carry a `tableId`.
  The allocator overwrites it (`DraftTableIdIsOverwritten`).
- The admin screen offers only pending→confirmed, pending→canceled and
  confirmed→completed (`AdminOffers`). The store itself accepts any change.
- The store falls back to "no table" whenever the chosen table's id is falsy
  (src/services/mockData.ts:184). A table whose id is the empty string
  therefore leaves the booking without a table. `NewBooking` keeps
  this. `UnassignedIffNoTableFits` shows it cannot matter while every table id
  is non-empty, which holds for the seed tables and for minted ids.

## Model

| member | source | states |
|---|---|---|
| `Records.FindIndex` | src/services/mockData.ts:204-209 | the index returned satisfies the predicate and none before it does; None only when no element satisfies it |
| `Records.Find` | src/services/mockData.ts:175-179 | None exactly when nothing matches; otherwise the element at the first matching position |
| `Records.Any` | src/services/mockData.ts:176-178 | true exactly when some element satisfies the predicate |
| `Records.Filter` | src/services/mockData.ts:150-151 | one entry per satisfying element; every kept element is from the input and satisfies the predicate; every satisfying input element is kept |
| `Records.FilterSingleton` | src/services/mockData.ts:150-151 | a one-element list is kept whole when its element satisfies the predicate and emptied otherwise |
| `Records.FilterAppend` | src/services/mockData.ts:150-151 | filtering a concatenation is the concatenation of the filtered parts, so the input order is kept |
| `Records.UpdateFirst` | src/services/mockData.ts:204-211 | None exactly when nothing matches; otherwise same length, only the first match rewritten by `f`, every other position unchanged |
| `Records.UpdateFirstIdempotent` | src/services/mockData.ts:204-211 | repeating a find-by-id update whose rewrite keeps the id and is idempotent changes nothing more |
| `Records.RemoveFirst` | src/services/mockData.ts:287-290 | unchanged when nothing matches; otherwise one shorter, with the elements before and after the first match kept in order |
| `Records.RemoveFirstCount` | src/services/mockData.ts:287-290 | removal takes out exactly one matching element when there is one and none otherwise |
| `Records.AppendedIsFound` | src/services/mockData.ts:252 | a record appended behind records without its id is the one `findIndex` reports |
| `Records.RemoveAppended` | src/services/mockData.ts:287-290 | removing a just-appended record whose id nothing else has restores the list |
| `Ids.Decimal` | src/services/mockData.ts:183 | the decimal form of the clock reading: non-empty, all digits, no leading zero, one digit long exactly below 10, and its digits spell the reading |
| `Ids.DecimalInjective` | src/services/mockData.ts:183 | distinct clock readings are written differently |
| `Ids.MintId` | src/services/mockData.ts:183 | a minted id starts with its kind prefix and is longer than it |
| `Ids.MintIdInjective` | src/services/mockData.ts:183 | two ids of one kind are equal exactly when minted at the same millisecond |
| `Availability.BookedTableIds` | src/services/mockData.ts:150-152 | a table id is in the list exactly when a non-canceled booking on that date names it |
| `Availability.AvailableTables` | src/services/mockData.ts:147-162 | one entry per stored table in store order, with id, number and capacity copied; available iff the stored flag is set and no non-canceled booking on the date names the table |
| `Availability.ResolverIgnoresTime` | src/services/mockData.ts:150-151 | changing the times of bookings leaves the resolver's answer unchanged |
| `Availability.Qualifies` | src/services/mockData.ts:175-179 | the allocator's filter-then-some test holds exactly when the table is flagged available, seats the party and is not held at the same date and time |
| `Availability.ChooseTable` | src/services/mockData.ts:175-179 | None exactly when no table fits; otherwise a fitting table with no fitting table before it in store order |
| `Availability.ChooseTableIsFirstFit` | src/services/mockData.ts:175-179 | the first fitting table is the one chosen |
| `Availability.NewBooking` | src/services/mockData.ts:181-185 | every draft field but `tableId` is copied, the new id is set, and the table is the first fitting one; unset only when none fits or its id is empty |
| `Availability.DraftTableIdIsOverwritten` | src/services/mockData.ts:181-185 | the stored record does not depend on the `tableId` the draft carries |
| `Availability.UnassignedIffNoTableFits` | src/services/mockData.ts:184 | with non-empty table ids, a booking is stored without a table exactly when no table fits |
| `Availability.CreateBookingKeepsNoDoubleBooking` | src/services/mockData.ts:175-188 | appending the allocator's record keeps "no two non-canceled bookings at one date and time share a table" |
| `Updates.WithStatus` | src/services/mockData.ts:202-214 | rejected exactly when no booking has the id; otherwise only the first such booking's status changes, to the requested one, whatever it was |
| `Updates.StatusUpdateIdempotent` | src/services/mockData.ts:204-211 | setting the same status twice equals setting it once |
| `Updates.StatusUpdateKeepsNoDoubleBooking` | src/services/mockData.ts:211 | a status change that does not reopen a canceled booking keeps the no-double-booking invariant |
| `Updates.AdminTransitionKeepsNoDoubleBooking` | src/components/admin/BookingManagement.tsx:180-213 | when the booking the admin acts on is the first with its id, the transitions the admin screen offers succeed and keep the invariant |
| `Updates.DuplicateIdCanDoubleBook` | src/services/mockData.ts:204-211 | with two bookings under one id, an offered transition on the later one is applied to the earlier canceled one and can put two live bookings on one table in one slot |
| `Updates.ReopeningCanDoubleBook` | src/services/mockData.ts:211 | the store lets a canceled booking be reopened, and that can put two live bookings on one table in one slot |
| `Updates.WithTableFlag` | src/services/mockData.ts:217-228 | rejected exactly when no table has the id; otherwise only the first such table's flag changes |
| `Updates.TableFlagUpdateIdempotent` | src/services/mockData.ts:219-225 | setting the same flag twice equals setting it once |
| `Updates.WithMenuItem` | src/services/mockData.ts:231-242 | rejected exactly when no item has the id; otherwise the first such item is replaced whole and nothing else changes |
| `Updates.MenuItemUpdateIdempotent` | src/services/mockData.ts:233-239 | replacing an item twice equals replacing it once |
| `Updates.WithGalleryImage` | src/services/mockData.ts:271-282 | rejected exactly when no image has the id; otherwise the first such image is replaced whole and nothing else changes |
| `Updates.GalleryImageUpdateIdempotent` | src/services/mockData.ts:273-279 | replacing an image twice equals replacing it once |
| `Updates.WithoutGalleryImage` | src/services/mockData.ts:285-293 | unchanged for an absent id; otherwise one image fewer, exactly one fewer with that id, the others in order |
| `Updates.DeleteUndoesAddGalleryImage` | src/services/mockData.ts:258-293 | deleting an image just added under an unused id restores the gallery |
| `Updates.UpdateFindsAddedMenuItem` | src/services/mockData.ts:231-255 | an update of an item just added under an id no other item has replaces that item and nothing else |
| `Updates.ToggleFindsAddedTable` | src/services/mockData.ts:296-306 | a flag toggle of a table just added under an id no other table has changes that table and nothing else |
| `Store.MockStore.constructor` | src/services/mockData.ts:5-137 | the store starts with no bookings and the seed tables, menu and gallery |
| `Store.MockStore.GetMenuItems` | src/services/mockData.ts:140-144 | answers the stored menu |
| `Store.MockStore.GetGalleryImages` | src/services/mockData.ts:165-169 | answers the stored gallery |
| `Store.MockStore.GetAllBookings` | src/services/mockData.ts:195-199 | answers the stored bookings |
| `Store.MockStore.GetAvailableTables` | src/services/mockData.ts:147-162 | one entry per stored table with its fields copied and the date-only availability rule; the store is not changed |
| `Store.MockStore.CreateBooking` | src/services/mockData.ts:172-192 | appends exactly the allocator's record under the minted id and changes nothing else |
| `Store.MockStore.UpdateBookingStatus` | src/services/mockData.ts:202-214 | "Booking not found" and no change for an unknown id; otherwise the new bookings are `WithStatus` and the answer is the updated record |
| `Store.MockStore.UpdateTableAvailability` | src/services/mockData.ts:217-228 | "Table not found" and no change for an unknown id; otherwise the new tables are `WithTableFlag` and the answer is the updated table |
| `Store.MockStore.UpdateMenuItem` | src/services/mockData.ts:231-242 | "Menu item not found" and no change for an unknown id; otherwise the new menu is `WithMenuItem` and the answer is the item |
| `Store.MockStore.AddMenuItem` | src/services/mockData.ts:245-255 | appends exactly one item with the draft's fields and the minted id |
| `Store.MockStore.AddGalleryImage` | src/services/mockData.ts:258-268 | appends exactly one image with the draft's fields and the minted id |
| `Store.MockStore.UpdateGalleryImage` | src/services/mockData.ts:271-282 | "Gallery image not found" and no change for an unknown id; otherwise the new gallery is `WithGalleryImage` and the answer is the image |
| `Store.MockStore.DeleteGalleryImage` | src/services/mockData.ts:285-293 | the new gallery is `WithoutGalleryImage` and the answer is always true |
| `Store.MockStore.AddTable` | src/services/mockData.ts:296-306 | appends exactly one table with the draft's fields and the minted id |
| `Scenarios.FirstFourGuestBookingTakesT2` | src/services/mockData.ts:175-185 | on the seed tables, the first four-guest booking gets t2 (t1 seats two) |
| `Scenarios.SecondFourGuestBookingTakesT4` | src/services/mockData.ts:175-185 | with t2 held in the slot, the next four-guest booking gets t4 (t3 is flagged unavailable) |
| `Scenarios.ThirdFourGuestBookingTakesT5` | src/services/mockData.ts:175-185 | with t2 and t4 held, the next gets t5 |
| `Scenarios.FourthFourGuestBookingGetsNoTable` | src/services/mockData.ts:175-185 | with t2, t4 and t5 held, the next is stored without a table |
| `Scenarios.FourGuestBookingsFillTablesInOrder` | src/services/mockData.ts:172-192 | four successive four-guest bookings in one slot get t2, t4, t5 and no table |
| `Scenarios.ResolverAndAllocatorDisagreeAcrossTimes` | src/services/mockData.ts:147-192 | after a 7 PM booking takes t2, the resolver reports t2 unavailable all day, yet an 8 PM booking is still given t2 |

## Left out

- Latency: the `Promise`/`setTimeout` wrappers only delay delivery. Each operation answers at once, and a rejection is an `Err` result.
- Clock: `Date.now()` is the parameter `now`. The store does not guarantee fresh ids, so no method requires one. Two records of one kind created in the same millisecond get the same id (`Ids.MintIdInjective`), and lemmas that need a fresh id take it as a hypothesis.
- Aliasing: `getMenuItems`, `getGalleryImages`, the update answers, and the records answered by `createBooking`, `addMenuItem`, `addGalleryImage` and `addTable` are the live arrays or the very objects pushed into the store, and `getAllBookings` copies only the array. The model returns values, so later changes seen through such a shared reference are not captured.
- `findIndex` answers -1 when nothing matches; the model answers `None`.
- Prices are JavaScript floating-point numbers. The store only copies them, so they are integer cents here.
- Store.MockStore.CreateBooking: guests, capacities and table numbers are JavaScript numbers. They are modelled as integers, so NaN or fractional party sizes are not covered.
- Updates.AdminTransitionKeepsNoDoubleBooking: holds only when the booking acted on is the first with its id, because the store updates the first booking with that id; `Updates.DuplicateIdCanDoubleBook` shows the invariant can break when ids collide.
- Status transitions are not checked by the store, and the model checks none. The admin screen's choices appear only as `AdminOffers`.
- Pages, form components, the admin screens' local state (including the hard-coded table list of the table-management screen), category filters, the authentication stub and build configuration are presentation code outside the store and are not part of this model.
