# Room-booking store, modelled in Dafny

This project models the in-memory booking store of a small Express server
(`server.js`). The server keeps three arrays: `rooms`, `bookings` and
`customers`. It hands out ids as "current length + 1". It answers two
writing requests, POST /rooms and POST /bookings, and three reading ones.
The HTTP layer is stripped away. Each handler becomes one operation on a
`BookingStore` object whose three fields are sequences.

- `common.dfy` (module `Common`): `Option`/`Result`, JavaScript truthiness of
  a request field, and `Find`, the first-match scan behind the `find` calls
  at lines 43, 49 and 78 of `server.js`.
- `time_order.dfy` (`TimeOrder`): JavaScript's `<` on strings, which is
  lexicographic. Dates and times are compared as strings. Lemmas show it is
  a strict total order.
- `entities.dfy` (`Entities`): rooms, bookings, customer-index entries and
  their summaries, request bodies with possibly missing fields, error kinds.
- `conflict.dfy` (`Conflict`): the handler's three-disjunct overlap test,
  written disjunct for disjunct. For well-formed ranges it is proved equal
  to half-open intersection. Back-to-back slots are proved not to clash.
- `store_model.dfy` (`StoreModel`): lookups and filters over the
  collections; an independent definition of what the customer index must
  hold; the store invariant; lemmas showing both writing handlers keep it.
- `store.dfy` (`Store`): the `BookingStore` class with `CreateRoom`,
  `AdmitBooking` and the raw customer-index query.
- `views.dfy` (`Views`): the two joining GET handlers as functions.
- `scenario.dfy` (`Scenario`): a client using only the contracts. It books
  09:00-10:00, is refused 09:30-10:30, and is granted the adjacent
  10:00-11:00. A room with an empty name, a booking for an unknown room and
  a count for an unknown customer are refused.

The store invariant (`StoreModel.StoreInvariant`, the class's `Valid()`)
says five things:
- the i-th room and the i-th booking have id i + 1, so ids are unique;
- every booking is "Booked";
- every booking's room id finds a room;
- no booking clashes, by the handler's own test, with an earlier booking;
- the customer index matches the bookings. It has one entry per customer
  name, in order of first booking. Each entry holds, in admission order, the
  summaries of exactly that customer's bookings, naming the room its id
  finds.

Modelling choices:
- A missing request field is `None`. A string is truthy unless missing or
  empty. A number is truthy unless missing or 0. An array (amenities) is
  truthy whenever present, even when empty.
- The admission instant (`new Date().toISOString()`) is the parameter `now`.
- The count query reads the name of the room found by id. With no such room
  the handler would throw. That is the error `MissingRoom`, and the
  function's contract shows it cannot happen when every booking's room
  exists, which the store invariant guarantees.
- The handler never checks that a start time comes before its end time. The
  invariant kept on every store is therefore the handler's own one: no
  booking clashes with an earlier one. Pairwise disjointness of half-open
  ranges (`StoreModel.AdmittedBookingsDisjoint`) is derived when all stored
  ranges are well formed.
- Because times are strings, an unpadded "9:00" sorts after "10:00". The
  model keeps this string order; it does not reinterpret times.

## Model

| member | source | states |
|---|---|---|
| `Common.Find` | server.js:49-56 | returns the index of the first element satisfying the predicate, or None exactly when no element does (the scan behind the `find` calls at lines 43, 49 and 78) |
| `Common.TruthyString` | server.js:19 | a string field passes `!field` only when present and not "" |
| `Common.TruthyNumber` | server.js:19 | a numeric field passes `!field` only when present and not 0 |
| `Common.TruthyList` | server.js:19 | an array field passes `!field` whenever present, even when empty |
| `Entities.RoomFieldsTruthy` | server.js:19 | name, seats, amenities and price all truthy, as the room validation demands |
| `Entities.BookingFieldsTruthy` | server.js:39 | customerName, date, startTime, endTime and roomId all truthy, as the booking validation demands |
| `TimeOrder.Less` | server.js:53-55 | JavaScript's `<` on two strings: lexicographic by character, a proper prefix first |
| `TimeOrder.LessIrreflexive` | server.js:53-55 | no time string is before itself |
| `TimeOrder.LessTransitive` | server.js:53-55 | string order is transitive |
| `TimeOrder.LessTrichotomous` | server.js:53-55 | any two time strings are equal or ordered one way or the other |
| `TimeOrder.LessAsymmetric` | server.js:53-55 | `a < b` excludes `b < a` |
| `Conflict.Clashes` | server.js:49-56 | the predicate given to `bookings.find`: same room, same date, and one of the three disjuncts, with `>=` and `<=` read as a negated `Less` |
| `Conflict.ClashesIffIntersect` | server.js:49-56 | for ranges with start before end, the three-disjunct test holds iff the room and date match and the half-open ranges intersect (both directions) |
| `Conflict.AdjacentSlotsDoNotClash` | server.js:53-55 | a requested slot starting at the existing end, or ending at the existing start, is not a conflict |
| `StoreModel.FindRoom` | server.js:140 | finds no room exactly when no room has the id; a room it finds is in the catalogue and has that id |
| `StoreModel.ForCustomer` | server.js:128-130 | keeps exactly the bookings with that customer name, and is empty iff no booking has the name |
| `StoreModel.ForRoom` | server.js:107-109 | keeps exactly the bookings for that room id, and is empty iff no booking names the room; order and multiplicity are stated by `StoreModel.ForRoomAppend` |
| `StoreModel.ForRoomAppend` | server.js:107-109 | the room filter keeps booking order and lists each booking once: a booking appended last appears last, exactly once, when it is for the room, and not otherwise |
| `StoreModel.ForCustomerAppend` | server.js:128-130 | the customer filter keeps booking order and lists each booking once: a booking appended last appears last, exactly once, when it carries the name, and not otherwise |
| `StoreModel.SummaryOf` | server.js:84-88 | the summary the index stores for a booking: the room's name, the date, the start and the end time |
| `StoreModel.CustomerNames` | server.js:78-90 | lists exactly the names some booking carries, each once |
| `StoreModel.FindRoomByPosition` | server.js:43 | with ids assigned as position + 1, the room found for id n is the n-th room, and none is found outside 1..number of rooms |
| `StoreModel.IdsUnique` | server.js:12 | ids assigned as position + 1 are pairwise distinct for rooms and for bookings |
| `StoreModel.AddRoomKeepsInvariant` | server.js:23-30 | appending a room with id = number of rooms + 1 keeps the whole store invariant, including the existing customer summaries |
| `StoreModel.IndexHasUniqueNames` | server.js:78-90 | in a consistent customer index no two entries share a name, so the `find` at line 78 has at most one candidate |
| `Store.RecordSummary` | server.js:78-99 | with unique names: the summary is appended to the entry with the customer's name and every other entry is unchanged, or, when no entry has the name, one entry with a one-summary list is appended at the end; names stay unique |
| `StoreModel.EntryAfterAdmission` | server.js:78-98 | after a booking is appended, a name's summaries are its old ones plus, when the booking carries that name, the booking's summary at the end |
| `StoreModel.EntryUpdated` | server.js:91-98 | an index entry extended with the summary when it is the booking customer's, and kept otherwise, holds the summaries of that name's bookings after the append |
| `StoreModel.EntriesAfterRepeatCustomer` | server.js:91-98 | when the customer is already indexed, every entry keeps its name and holds the summaries of its name's bookings after the append |
| `StoreModel.EntriesAfterNewCustomer` | server.js:79-90 | when the customer is not yet indexed, every existing entry is unchanged and still holds the summaries of its name's bookings after the append |
| `StoreModel.FirstSummary` | server.js:79-90 | the first booking under a name gives that name exactly one summary, the booking's |
| `StoreModel.IndexAfterRepeatCustomer` | server.js:91-98 | appending the summary to a known customer's entry keeps the index consistent with the extended booking list |
| `StoreModel.IndexAfterNewCustomer` | server.js:79-90 | adding a one-summary entry at the end for an unknown customer keeps the index consistent with the extended booking list |
| `StoreModel.AdmitKeepsNoClashes` | server.js:49-75 | appending a booking that clashes with no existing booking keeps "no booking clashes with an earlier one" |
| `StoreModel.AdmitKeepsInvariant` | server.js:64-99 | appending a booking with the next id, status "Booked", an existing room and no clash, with the matching customer-index update, keeps the whole invariant |
| `StoreModel.AdmittedBookingsDisjoint` | server.js:49-75 | when all stored ranges are well formed, no two bookings for the same room and date have intersecting half-open ranges |
| `Store.BookingStore.constructor` | server.js:7-9 | the store starts with three empty collections and satisfies its invariant |
| `Store.BookingStore.CustomersWithBookings` | server.js:122 | the raw customer index lists each customer once, in order of first booking, with the summaries of exactly their bookings in admission order |
| `Store.BookingStore.CreateRoom` | server.js:15-32 | any falsy field gives ValidationError and changes nothing; otherwise exactly one room with id = old count + 1 and the given fields is appended; bookings and customers are unchanged; the invariant is kept |
| `Store.BookingStore.AdmitBooking` | server.js:35-102 | a falsy field gives ValidationError, an unknown room id gives InvalidRoomId, a clash with any existing booking gives SlotTaken, each changing nothing; otherwise one "Booked" booking with the next id, the given fields and the admission instant is appended, and the customer index gains its summary in the existing entry or in a new last entry; rooms never change; the invariant is kept |
| `Views.RoomsWithBookings` | server.js:106-116 | one view per room in catalogue order, with that room's name and bookings; "Booked" iff some booking names the room, "Available" iff none does |
| `Views.DetailOf` | server.js:138-147 | the detail the count query reports for a booking: customer name, joined room name, date, start, end, booking id, admission instant and status |
| `Views.Details` | server.js:138-147 | fails exactly when some booking's room id finds no room; otherwise one detail per booking, in order, carrying the found room's name |
| `Views.CustomerBookingCount` | server.js:128-150 | NotFound iff no booking has the name; the only other failure is a missing room, impossible when every booking's room exists; on success the count equals the number of that customer's bookings and the details follow booking order |
| `Views.DetailsAppend` | server.js:138-147 | the details of a booking list with one more booking are the old details followed by the new booking's detail |
| `Views.CountAfterAdmission` | server.js:128-150 | appending a booking makes its customer's count query succeed with one more booking, the new detail at the end |
| `Views.CountOfOthersUnchanged` | server.js:128-130 | appending a booking leaves every other customer's count query unchanged |

## Left out

- HTTP: routing, JSON body parsing, status codes, response serialisation and the listening socket with its log line (server.js:1-5, 153-155). Handlers return a `Result` whose error kind stands for the 400/404 answer and its message.
- JSON type coercion: request fields have fixed types (`roomId` is an integer), so a string "1" that `===` would not match id 1 is not representable. NaN and `null` are not modelled among the falsy values.
- The wall-clock call `new Date().toISOString()` (server.js:72) is the opaque parameter `now`.
- Concurrency: each handler runs to completion on one thread, so each is one atomic method.
- Amenities and price are stored and echoed only. Price is an integer here; the source accepts any JSON number.
- String order: JavaScript compares UTF-16 code units, the model compares characters by code point. The two differ only between characters above U+FFFF and characters in U+E000-U+FFFF.
- The customer index entries are values in a sequence. The source pushes onto the `bookings` array of the entry object in place. Nothing else holds a reference to that object, so no aliasing is lost.
