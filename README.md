# ResNet reservation and catalogue core, in Dafny

ResNet is a restaurant back end: restaurants, their tables, bookings, menus
(categories and products), orders, restaurant-listing requests and job
applications. This project models its service layer, which is the logic that decides
whether a request is accepted and what the database holds afterwards. It
proves properties of that model.

- **Booking engine** (`BookingService`). A booking holds its table for a fixed
  two-hour window from its start time. Create and update refuse:
  - a start at or before "now";
  - an unknown table;
  - a guest count outside 1..seats;
  - a window that overlaps an active (not cancelled) booking of the same table.

  Update leaves the booking itself out of the overlap check. Cancel refuses a
  booking that is already cancelled. Every store operation keeps the active
  bookings of each table pairwise disjoint.
- **Availability** (`TableService`, `RestaurantService`). One table is free for
  a window when no active booking of it meets that window. A restaurant's
  available tables are its tables less the booked ones. The restaurant
  service's copy of that query, with the window fixed at two hours, is proved
  to answer exactly what the table service answers.
- **Guarded keyed stores.** Each service checks something before it changes
  the store:
  - restaurant names are unique ignoring case;
  - category names are unique ignoring case and surrounding white space;
  - a category with products cannot be deleted;
  - a product needs a restaurant–category link;
  - order fields are validated by order type;
  - order cancellation is not idempotent;
  - request and application statuses are limited to an allowed set.
- **Helpers.** The `Response<T>` envelope, the `ValidFilter` page clamping, and
  the paged, key-ordered table listing.

The database is one `DataContext` object (module `Data`). It holds:
- a `map` per entity set, keyed by the row's id;
- a `set` for the restaurant–category link table;
- one identity counter `nextId`, which hands out fresh keys.

Its `Valid()` predicate states the invariants the services keep:
- keys lie below the counter and equal the row's id;
- every booking spans exactly two hours;
- active bookings of one table do not overlap;
- restaurant names are unique ignoring case;
- category names are trimmed and unique ignoring case.

Each service is a module of methods over that object. Each method's `modifies`
clause names the stores it changes. Each method states the response for every
refusal, when it succeeds (an if-and-only-if), and the complete new content of
what it changes. The queries are functions that `read` the context. A write
that the database refuses (a delete under a restrict rule, a product update
naming a missing restaurant or category) ends in the `Thrown` outcome:
`SaveChangesAsync` throws, no response is returned and nothing is saved. An
update whose assignments leave the row as it was writes nothing, so
`SaveChangesAsync` returns 0 and the service answers 400 "… not updated".

Times are integers (minutes). The current time is a parameter. `decimal` and
`double` amounts are reals. Strings are `seq<char>`. Lower-casing and trimming are
those of ASCII.

The booking service reads and writes a `BookingTime` field
(ResNet.Infrastructure/Services/BookingService.cs:84-107, 150). The booking
entity and its request bodies carry `BookingFrom` and `BookingTo` instead
(ResNet.Doman/Entities/Booking.cs:22-26), and a migration renamed
`BookingTime` to `BookingTo`. The model follows the service code:
- the request's time is the start of the window;
- a stored booking gets `bookingFrom := time` and `bookingTo := time + 120`;
- the service's overlap test compares start against start + 2 h, as written.

Only the booking service writes bookings. As a result, every stored booking
spans exactly two hours, and the booking service's test and the table
service's `BookingFrom`/`BookingTo` test then agree.
`BookingService.ConflictIffNotAvailable` proves this.

## Model

| member | source | states |
|---|---|---|
| Responses.FromData | ResNet.Doman/Responses/Response.cs:14-20 | the data constructor yields a success with status 200, no message and the given data |
| Responses.FromError | ResNet.Doman/Responses/Response.cs:22-28 | the error constructor yields a failure with no data, the given status code and the given message |
| Responses.SuccessIsDataConstructor | ResNet.Doman/Responses/Response.cs:30-39 | `Success(data)` is field for field what the data constructor builds |
| Responses.SuccessWithMessageKeepsMessage | ResNet.Doman/Responses/Response.cs:41-50 | `Success(data, message)` is a 200 success carrying both data and message, and differs from `Success(data)` |
| Responses.MakeValidFilter | ResNet.Doman/Responses/ValidFilter.cs:8-12 | page number at least 1 and page size at least 12; values at or above the bounds pass through unchanged, values below become the bound |
| Responses.ValidFilterIdempotent | ResNet.Doman/Responses/ValidFilter.cs:10-11 | clamping an already clamped filter changes nothing |
| Responses.SkipCountNonNegative | ResNet.Infrastructure/Services/TableService.cs:50 | the skip offset `(PageNumber - 1) * PageSize` of every clamped filter is non-negative |
| Responses.Page | ResNet.Infrastructure/Services/TableService.cs:50-51 | `Skip(skip).Take(take)`: at most `take` rows; exactly `take` when enough remain, the rest of the list on a partial last page, none past the end; row i is row skip + i of the input |
| Responses.Paginate | ResNet.Infrastructure/Services/TableService.cs:44-56 | a page carries the page number and size of `new ValidFilter(...)`, the total count of the whole query, exactly as many rows as `Take` leaves after skipping `(PageNumber - 1) * PageSize`, and row i of the page is row skip + i of the query |
| Responses.EveryRowOnItsPage | ResNet.Infrastructure/Services/TableService.cs:44-56 | every row of the query can be reached by paging: row i is entry `i % size` of page `i / size + 1` |
| Responses.PagesAreConsecutive | ResNet.Infrastructure/Services/TableService.cs:50-51 | a page followed by more rows is full, and the next page starts with the row right after it |
| Text.ToLower | ResNet.Infrastructure/Services/RestaurantService.cs:88 | lower-casing keeps the length and lowers each character |
| Text.ToLowerIdempotent | ResNet.Infrastructure/Services/RestaurantService.cs:88 | lowering twice is lowering once |
| Text.TrimStart | ResNet.Infrastructure/Services/CategoryService.cs:71 | the result is a suffix of the input that does not start with white space |
| Text.TrimEnd | ResNet.Infrastructure/Services/CategoryService.cs:71 | the result is a prefix of the input that does not end with white space |
| Text.TrimStartDropsWhiteSpace | ResNet.Infrastructure/Services/CategoryService.cs:71 | everything `TrimStart` drops is white space |
| Text.TrimEndDropsWhiteSpace | ResNet.Infrastructure/Services/CategoryService.cs:71 | everything `TrimEnd` drops is white space |
| Text.TrimIsTrimmed | ResNet.Infrastructure/Services/CategoryService.cs:112 | `Trim` leaves no white space at either end |
| Text.TrimOfTrimmed | ResNet.Infrastructure/Services/CategoryService.cs:112 | trimming a trimmed string changes nothing |
| Text.ToLowerKeepsTrimmed | ResNet.Infrastructure/Services/CategoryService.cs:101-104 | a string is trimmed exactly when its lower-cased form is |
| Text.BlankIffTrimsToEmpty | ResNet.Infrastructure/Services/OrderService.cs:87 | a present string is null-or-white-space exactly when trimming leaves nothing |
| Overlap.TouchingIntervalsDoNotOverlap | ResNet.Infrastructure/Services/TableService.cs:162-163 | windows that only share an end point do not overlap |
| Linq.Rows | ResNet.Infrastructure/Services/TableService.cs:48-49 | listing the keys of a range yields at most one row per key |
| Linq.RowsMembership | ResNet.Infrastructure/Services/TableService.cs:48-49 | a row is listed exactly when its key is stored and lies in the range |
| Linq.RowsIncreasing | ResNet.Infrastructure/Services/TableService.cs:49 | rows come out in strictly increasing id order (`OrderBy(t => t.Id)`) |
| Linq.Where | ResNet.Infrastructure/Services/TableService.cs:196 | a filtered row is a row of the input that passes the filter |
| Linq.WhereKeeps | ResNet.Infrastructure/Services/TableService.cs:196 | no row that passes the filter is dropped |
| Linq.WhereMembership | ResNet.Infrastructure/Services/TableService.cs:196 | a row is in the filtered list exactly when it is in the input and passes |
| Linq.WhereIsSubsequence | ResNet.Infrastructure/Services/TableService.cs:196 | filtering deletes rows and keeps the order of the rest |
| Linq.WhereIncreasing | ResNet.Infrastructure/Services/TableService.cs:196 | filtering a list in id order keeps it in id order |
| Linq.WhereExtensional | ResNet.Infrastructure/Services/RestaurantService.cs:291 | filters that agree on every row select the same list |
| Data.DataContext.constructor | ResNet.Infrastructure/Data/DataContext.cs:11-20 | an empty database satisfies every store invariant |
| BookingService.StoreKeepsDisjoint | ResNet.Infrastructure/Services/BookingService.cs:94-109 | storing a two-hour booking that passed the overlap check keeps the active bookings of every table pairwise disjoint |
| BookingService.CreateBooking | ResNet.Infrastructure/Services/BookingService.cs:80-117 | the response for each refusal in order (past time, unknown table, guests outside 1..seats, overlap); success exactly when all four checks pass; on success one new Pending booking for [t, t + 2 h) under a fresh key and nothing else changed; on refusal nothing changed; the disjointness invariant is kept |
| BookingService.UpdateBooking | ResNet.Infrastructure/Services/BookingService.cs:119-161 | NotFound for a missing id, then the same four refusals checked against the booking's own table with the booking itself excluded; a booking left as it was is answered 400 "Booking update failed" with nothing changed; it succeeds exactly when every check passes and the booking changes; on success only time, guests and status change, never the table; invariant kept |
| BookingService.CancelBooking | ResNet.Infrastructure/Services/BookingService.cs:163-181 | NotFound for a missing id; an error when already cancelled (not idempotent); otherwise only its status becomes Cancelled |
| BookingService.DeleteBooking | ResNet.Infrastructure/Services/BookingService.cs:183-198 | NotFound for a missing id; otherwise exactly that booking is removed, whatever its status |
| BookingService.ResubmittingOwnTimeDoesNotConflict | ResNet.Infrastructure/Services/BookingService.cs:137-145 | in a valid store an active booking resubmitted with its own start never meets the update's overlap check |
| BookingService.SelfExclusionIsNeeded | ResNet.Infrastructure/Services/BookingService.cs:138 | without the `b.Id != id` clause every active booking would conflict with itself |
| BookingService.ExactlyTwoHoursApartDoNotConflict | ResNet.Infrastructure/Services/BookingService.cs:98-99 | in any store, a start exactly when an active booking ends, or exactly two hours before it starts, conflicts only if another booking blocks it; a start one minute before it ends always conflicts |
| BookingService.ConflictIffNotAvailable | ResNet.Infrastructure/Services/BookingService.cs:94-101 | on two-hour bookings the booking service's conflict test holds exactly when the table service reports the table not free for the same two hours |
| TableService.GetTablesByRestaurantId | ResNet.Infrastructure/Services/TableService.cs:27-57 | the page carries the filter's clamped page number and size, the count of all matching tables, and exactly the matching tables `Skip`/`Take` select from the skip offset on, in id order |
| TableService.TablesOfSpec | ResNet.Infrastructure/Services/TableService.cs:31-33 | the restaurant's table list holds exactly its stored tables, in id order |
| TableService.MatchingTablesSpec | ResNet.Infrastructure/Services/TableService.cs:31-42 | the filtered list holds exactly the restaurant's tables meeting every given criterion (status, minimum and maximum seats), in id order |
| TableService.IsTableAvailable | ResNet.Infrastructure/Services/TableService.cs:151-168 | always a 200 success; true exactly when every active booking of the table ends by the start or starts at or after the end |
| TableService.HarmlessBookingDoesNotBlock | ResNet.Infrastructure/Services/TableService.cs:158-165 | a cancelled booking, or one only touching the window, has no effect on whether the table is free |
| TableService.GetAvailableTables | ResNet.Infrastructure/Services/TableService.cs:170-201 | always a 200 success; the result keeps the restaurant's tables in order, dropping some; with no time it is all of them |
| TableService.NotBookedIffAvailable | ResNet.Infrastructure/Services/TableService.cs:185-196 | a table of the restaurant is missing from the booked ids exactly when `IsTableAvailableAsync` reports it free for the same window |
| TableService.AvailableTablesAreTheFreeOnes | ResNet.Infrastructure/Services/TableService.cs:179-196 | with a time, a table is listed exactly when it is a stored table of the restaurant that is free for [time, time + duration), duration defaulting to two hours; the list is in id order |
| TableService.AddTable | ResNet.Infrastructure/Services/TableService.cs:75-95 | refused exactly when the restaurant is unknown; otherwise one new Available table under a fresh key and nothing else changed |
| TableService.UpdateTable | ResNet.Infrastructure/Services/TableService.cs:97-129 | NotFound for a missing id; the restaurant is checked only when it changes; an update that leaves the row as it was is answered 400 "Table not updated" with nothing changed; it succeeds exactly when the checks pass and the row changes; on success restaurant, seats and status are overwritten and nothing else changes |
| TableService.BookingsWithoutTables | ResNet.Infrastructure/Data/DataContext.cs:68-73 | the cascade keeps exactly the bookings whose table survives, unchanged |
| TableService.SubmapKeepsBookingInvariants | ResNet.Infrastructure/Data/DataContext.cs:68-73 | removing bookings keeps the two-hour and disjointness invariants |
| TableService.DeleteTable | ResNet.Infrastructure/Services/TableService.cs:131-149 | NotFound for a missing id; the save throws and nothing changes exactly when an order refers to the table (the order–table key restricts deletes, Migrations/20250713142103_UpdatedBookingLogics.cs:67-73); otherwise the table and, by cascade, exactly its bookings are removed |
| RestaurantService.AddRestaurant | ResNet.Infrastructure/Services/RestaurantService.cs:84-102 | refused exactly when a stored name equals the new one ignoring case; otherwise one new restaurant under a fresh key; names stay unique ignoring case |
| RestaurantService.UpdateRestaurant | ResNet.Infrastructure/Services/RestaurantService.cs:104-135 | NotFound for a missing id; the name check is skipped when the name changes only in case, otherwise a name held by another restaurant is refused; an update that leaves the row as it was is answered 400 "Restaurant not updated" with nothing changed; it succeeds exactly when the checks pass and the row changes; on success exactly the eight fields are overwritten; names stay unique |
| RestaurantService.DeleteRestaurant | ResNet.Infrastructure/Services/RestaurantService.cs:137-152 | NotFound for a missing id; the save throws and nothing changes exactly when an order refers to one of its tables; otherwise the restaurant and, by cascade, its tables, their bookings, its products and its category links are removed and nothing else |
| RestaurantService.AddCategoryToRestaurant | ResNet.Infrastructure/Services/RestaurantService.cs:237-263 | NotFound for a missing restaurant, then for a missing category; refused when the link exists; otherwise exactly one link is added |
| RestaurantService.GetMenuByRestaurantId | ResNet.Infrastructure/Services/RestaurantService.cs:205-235 | NotFound exactly when the restaurant is unknown; otherwise a success carrying a menu |
| RestaurantService.MenuSpec | ResNet.Infrastructure/Services/RestaurantService.cs:215-222 | the menu lists exactly the restaurant's products whose category is linked to it, and exactly the categories linked to it |
| RestaurantService.GetAvailableTables | ResNet.Infrastructure/Services/RestaurantService.cs:265-295 | always a 200 success carrying a list |
| RestaurantService.BookedTablesAgree | ResNet.Infrastructure/Services/RestaurantService.cs:276-289 | the restaurant service's booked-table ids for a time are the table service's for the two hours from it |
| RestaurantService.AvailableTablesAgree | ResNet.Infrastructure/Services/RestaurantService.cs:265-295 | the restaurant's copy of the query answers exactly what the table service's answers with the duration given as or defaulted to two hours, with or without a time |
| CategoryService.AddCategoryAsWritten | ResNet.Infrastructure/Services/CategoryService.cs:66-88 | as written: refused exactly when a stored name, lowered, equals the new name trimmed and lowered; on success the name is stored as sent |
| CategoryService.AsWrittenAdmitsDuplicateNames | ResNet.Infrastructure/Services/CategoryService.cs:70-80 | adding " a" and then " A" succeeds twice and leaves two categories whose names are equal ignoring case |
| CategoryService.SpacedNamesCollide | ResNet.Infrastructure/Services/CategoryService.cs:70-80 | the same two-step run for any white-space character followed by any ASCII letter, sent in lower case and then in upper case |
| CategoryService.StoreKeepsCanonical | ResNet.Infrastructure/Services/CategoryService.cs:70-80 | storing a trimmed name that no other category holds ignoring case keeps names canonical |
| CategoryService.AddKeepsCanonical | ResNet.Infrastructure/Services/CategoryService.cs:70-80 | a name the add check lets through, stored trimmed, keeps stored names trimmed and unique ignoring case |
| CategoryService.AddCategory | ResNet.Infrastructure/Services/CategoryService.cs:66-88 | refused exactly when the name is taken by the source's own comparison; otherwise one new category with the trimmed name; names stay trimmed and unique ignoring case |
| CategoryService.NameHeldMeansSameName | ResNet.Infrastructure/Services/CategoryService.cs:70-71 | against trimmed stored names, the check refuses exactly the names equal to a stored one ignoring case and surrounding white space |
| CategoryService.RenameIsFree | ResNet.Infrastructure/Services/CategoryService.cs:101-112 | a rename the update accepts, including one that skips the check, yields a trimmed name held by no other category |
| CategoryService.UpdateKeepsCanonical | ResNet.Infrastructure/Services/CategoryService.cs:101-114 | storing an accepted rename keeps names canonical |
| CategoryService.UpdateCategory | ResNet.Infrastructure/Services/CategoryService.cs:90-123 | NotFound for a missing id with nothing changed; the check is skipped when the name changes only in case, otherwise a name held by another category is refused; an update that leaves the row as it was is answered 400 "Category not updated" with nothing changed; it succeeds exactly when the checks pass and the row changes; on success the trimmed name, description and image are stored; names stay canonical |
| CategoryService.DeleteCategory | ResNet.Infrastructure/Services/CategoryService.cs:125-150 | NotFound for a missing id; refused while any product has the category; otherwise the category and its links are removed |
| OrderService.CreateOrderError | ResNet.Infrastructure/Services/OrderService.cs:87-137 | every type is refused without a non-blank name and phone; then Delivery without an address, AtTable without a table id or with an unknown table, and any other type get their own messages; accepted exactly for Pickup, addressed Delivery and AtTable at a stored table |
| OrderService.CreateOrder | ResNet.Infrastructure/Services/OrderService.cs:83-153 | refused with the validation message exactly when validation fails; otherwise one new Pending order stamped now under a fresh key and nothing else changed |
| OrderService.CancelOrder | ResNet.Infrastructure/Services/OrderService.cs:155-179 | NotFound for a missing id; an error when already cancelled (not idempotent); otherwise only the status becomes Cancelled |
| OrderService.Patched | ResNet.Infrastructure/Services/OrderService.cs:192-195 | each of name, phone, status and amount is replaced when given and kept when not; every other field is kept |
| OrderService.PatchLaws | ResNet.Infrastructure/Services/OrderService.cs:192-195 | an empty patch changes nothing and applying a patch twice is applying it once |
| OrderService.UpdateOrder | ResNet.Infrastructure/Services/OrderService.cs:181-204 | NotFound for a missing id; a patch that leaves the order as it was (an empty patch, say) is answered 400 "Order not updated" with nothing changed; it succeeds exactly when the patched order differs, and then the order becomes its patched form and nothing else changes |
| ProductService.AddProduct | ResNet.Infrastructure/Services/ProductService.cs:77-97 | refused exactly when (restaurant, category) is not a link; otherwise exactly one new product under a fresh key, stamped with the current time as its creation time |
| ProductService.UpdateProduct | ResNet.Infrastructure/Services/ProductService.cs:99-125 | NotFound for a missing id; a product left as it was is answered 400 "Product not updated"; a change naming a restaurant or category that does not exist makes the save throw (required foreign keys, ResNet.Infrastructure/Data/DataContext.cs:26-38) with the products unchanged; otherwise it succeeds and the seven fields are overwritten, keeping id and creation time, without any link check |
| ProductService.DeleteProduct | ResNet.Infrastructure/Services/ProductService.cs:127-145 | NotFound for a missing id; otherwise exactly that product is removed (order items are not modelled) |
| RestaurantRequestService.CreateRequest | ResNet.Infrastructure/Services/RestaurantRequestService.cs:63-81 | refused exactly when a request for the same name ignoring case is not rejected; otherwise one new Pending request; no two unrejected requests share a name afterwards if none did before |
| RestaurantRequestService.RejectedRequestDoesNotBlock | ResNet.Infrastructure/Services/RestaurantRequestService.cs:67 | a rejected request never decides whether a new one is refused |
| RestaurantRequestService.UpdateRequestStatus | ResNet.Infrastructure/Services/RestaurantRequestService.cs:83-104 | NotFound for a missing id; refused for a status outside Pending, Accepted, Rejected; the status it already has is answered 400 "Status not updated" with nothing changed; otherwise only the status changes, from any other status |
| RestaurantRequestService.RevivingRejectedRequestCanDuplicate | ResNet.Infrastructure/Services/RestaurantRequestService.cs:91-94 | moving a rejected request back to Pending is accepted and can leave two unrejected requests for one name |
| RestaurantRequestService.DeleteRequest | ResNet.Infrastructure/Services/RestaurantRequestService.cs:106-121 | NotFound for a missing id; otherwise exactly that request is removed |
| JobApplicationService.CreateApplication | ResNet.Infrastructure/Services/JobApplicationService.cs:69-83 | never refused; one new application, Pending whatever was sent, under a fresh key |
| JobApplicationService.UpdateApplicationStatus | ResNet.Infrastructure/Services/JobApplicationService.cs:85-107 | NotFound for a missing id; refused for a status outside Pending, Accepted, Rejected; the status it already has is answered 400 "Status not updated" with nothing changed; otherwise only the status changes |
| JobApplicationService.DeleteApplication | ResNet.Infrastructure/Services/JobApplicationService.cs:110-125 | NotFound for a missing id; otherwise exactly that application is removed |

## Left out

- Persistence failure in general (a lost connection, a failed disk) is not modelled: the store accepts every write the database rules allow. The `SaveChangesAsync() == 0` branch of an add, a delete or a cancel cannot fire, since each of those writes a row. On an update it fires when the assignments leave the tracked row as it was (EF Core then writes nothing); that case is modelled in all eight updates as the "… not updated" answer. The same branch in the image upload and delete methods is left out with those methods.
- Logging, `async`/`await`, EF Core tracking and the object–DTO mapping are left out; a response carries the stored entity.
- The current time is a parameter (`now`); no clock is read.
- Getters other than those named above (`GetBookingsAsync` and its date filter, the get-by-id and paged list methods of the other services) are not modelled.
- Booking codes: no shown code generates or looks one up, so the model has no booking code.
- Concurrency: the check-then-insert race between two concurrent bookings cannot be stated in a sequential model.
- Notifications and e-mail sent after status updates, and every image upload and delete method (file system), are left out.
- ProductService.DeleteProduct: order items and the restrict rule between order items and products (ResNet.Infrastructure/Data/DataContext.cs:40-45) are not modelled. This delete, and RestaurantService.DeleteRestaurant's cascade to products, therefore succeed in the model where the database would refuse them while an order item refers to one of those products.
- RestaurantService.DeleteRestaurant: an order's restaurant key is not modelled, and its delete rule is not part of this model. The model lets the restrict rule on an order's table decide, so the delete throws while an order refers to one of the restaurant's tables, whichever restaurant that order belongs to.
- A Pickup or Delivery order that carries a `TableId` is stored with it unchecked; the database would refuse the insert when no table has that id, and the model does not.
- The parameterless `Response()` constructor is not modelled; it exists only for serialisation.
- `PagedResponse<T>` is modelled by its constructor arguments (`Paged`); its own source is not part of this model.
- Lower-casing, trimming and `OrdinalIgnoreCase` comparison are those of ASCII; culture-dependent and Unicode casing and white space are not modelled. `OrdinalIgnoreCase` equality is modelled as equality of lower-cased strings.
- Keys come from one counter shared by all stores; the database keeps one sequence per table, which differs only in the key values chosen.
- Database listing order is modelled as ascending key order wherever the source lists rows without `OrderBy`.
- `decimal` and `double` are exact reals; rounding is not modelled.
- An order created without an amount gets 0 (the mapper turns a missing `decimal?` into the entity's default).
- The shown `CreateOrderDto` lacks `Type` and `TableId`, and the shown product DTOs lack `RestaurantId`, yet the services read them (ResNet.Infrastructure/Services/OrderService.cs:95, 111; ProductService.cs:82, 115). The model follows the service code and gives the request bodies those fields.
- The values of `OrderStatus`, `OrderType` and `TableStatus` are taken to be their names; those constants files are not part of this model.
- Request-body validation attributes (`[Required]`, `[Range]`, `[MaxLength]`) run in ASP.NET before the services and are not modelled.
- The deletes of restaurants, tables and categories also remove the dependent rows the database cascades: tables, bookings, products and restaurant–category links. The link rows are removed by the required-foreign-key convention, since their mapping is not part of this model.
- RestaurantService.GetAvailableTables: its own contract states only success; what it returns is stated by `RestaurantService.AvailableTablesAgree`, which equates it with the table service's query.
- TableService.GetAvailableTables: its own contract states order and subset; exact membership is stated by `TableService.AvailableTablesAreTheFreeOnes`.
- RestaurantService.GetMenuByRestaurantId: its own contract states the NotFound case; the contents of the menu are stated by `RestaurantService.MenuSpec`.

## Findings

| source | as written | input that shows it | evidently intended | confidence | as-written member | corrected member |
|---|---|---|---|---|---|---|
| ResNet.Infrastructure/Services/CategoryService.cs:70-80 | the name check compares the trimmed, lowered new name with the stored names lowered, but the new row keeps the name as sent, untrimmed | add " a", then add " A": the first is stored as " a"; the second is checked as "a" against " a", passes, and is stored as " A"; the two names are equal ignoring case | store `Name.Trim()` on add, as update does at line 112, so stored names are trimmed and unique ignoring case | not executed | CategoryService.AsWrittenAdmitsDuplicateNames | CategoryService.AddCategory |
