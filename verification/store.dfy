/**
 * The store object and its two writing handlers. The three module-level
 * arrays of the server are the fields of one object; POST /rooms and
 * POST /bookings are its methods, each an indivisible unit of work that
 * either answers with an error and changes nothing or appends what it
 * created.
 */
module Store {
  import opened Common
  import opened Entities
  import opened Conflict
  import opened StoreModel

  /** The slot a booking request asks for; only meaningful once its fields are truthy. */
  function RequestedSlot(req: BookingRequest): Slot
    requires BookingFieldsTruthy(req)
  {
    Slot(req.roomId.value, req.date.value, req.startTime.value, req.endTime.value)
  }

  /**
   * The customer-index update of POST /bookings: find the entry for `name`
   * and push the summary onto it, or append a new entry when there is none.
   */
  method RecordSummary(customers: seq<Customer>, name: string, s: Summary) returns (updated: seq<Customer>)
    requires UniqueNames(customers)
    ensures SummaryRecorded(customers, updated, name, s)
    ensures UniqueNames(updated)
  {
    var k := Find(customers, (c: Customer) => c.name == name);
    if k.None? {
      updated := customers + [Customer(name, [s])];
      assert name !in Names(customers);
    } else {
      var entry := customers[k.value];
      updated := customers[k.value := entry.(bookings := entry.bookings + [s])];
      assert Names(customers)[k.value] == name;
    }
  }

  class BookingStore {
    var rooms: seq<Room>
    var bookings: seq<Booking>
    var customers: seq<Customer>

    ghost predicate Valid()
      reads this
    {
      StoreInvariant(rooms, bookings, customers)
    }

    /** The store as the process starts: three empty collections. */
    constructor ()
      ensures Valid()
      ensures rooms == [] && bookings == [] && customers == []
    {
      rooms, bookings, customers := [], [], [];
    }

    /**
     * GET /customers/bookings: the customer index as stored. It lists each
     * customer who has booked once, in the order of their first booking,
     * with the summaries of exactly their bookings in admission order.
     */
    function CustomersWithBookings(): (r: seq<Customer>)
      reads this
      requires Valid()
      ensures Names(r) == CustomerNames(bookings)
      ensures forall k :: 0 <= k < |r| ==> r[k].bookings == Summaries(rooms, ForCustomer(bookings, r[k].name))
    {
      customers
    }

    /** POST /rooms. */
    method CreateRoom(req: RoomRequest) returns (res: Result<Room, Error>)
      requires Valid()
      modifies this
      ensures Valid()
      ensures bookings == old(bookings) && customers == old(customers)
      ensures !RoomFieldsTruthy(req) ==> res == Failure(ValidationError) && rooms == old(rooms)
      ensures RoomFieldsTruthy(req) ==>
                && res == Success(Room(|old(rooms)| + 1, req.name.value, req.seats.value,
                                       req.amenities.value, req.price.value))
                && rooms == old(rooms) + [res.value]
    {
      if !RoomFieldsTruthy(req) {
        return Failure(ValidationError);
      }
      var room := Room(|rooms| + 1, req.name.value, req.seats.value, req.amenities.value, req.price.value);
      AddRoomKeepsInvariant(rooms, bookings, customers, room);
      rooms := rooms + [room];
      return Success(room);
    }

    /**
     * POST /bookings, with `now` standing for the wall-clock instant the
     * handler stamps on the booking.
     */
    method AdmitBooking(req: BookingRequest, now: string) returns (res: Result<Booking, Error>)
      requires Valid()
      modifies this
      ensures Valid()
      ensures rooms == old(rooms)
      ensures res.Failure? ==> bookings == old(bookings) && customers == old(customers)
      ensures !BookingFieldsTruthy(req) ==> res == Failure(ValidationError)
      ensures BookingFieldsTruthy(req) ==>
                if FindRoom(old(rooms), req.roomId.value).None? then
                  res == Failure(InvalidRoomId)
                else if exists i :: 0 <= i < |old(bookings)| && Clashes(old(bookings)[i], RequestedSlot(req)) then
                  res == Failure(SlotTaken)
                else
                  && res == Success(Booking(|old(bookings)| + 1, req.customerName.value, req.date.value,
                                            req.startTime.value, req.endTime.value, req.roomId.value, BOOKED, now))
                  && bookings == old(bookings) + [res.value]
      ensures res.Success? ==>
                SummaryRecorded(old(customers), customers, res.value.customerName,
                                SummaryOf(FindRoom(rooms, res.value.roomId).value, res.value))
    {
      if !BookingFieldsTruthy(req) {
        return Failure(ValidationError);
      }
      var name, roomId := req.customerName.value, req.roomId.value;
      var slot := Slot(roomId, req.date.value, req.startTime.value, req.endTime.value);

      var r := Find(rooms, (room: Room) => room.id == roomId);
      if r.None? {
        return Failure(InvalidRoomId);
      }
      var room := rooms[r.value];
      FindRoomByPosition(rooms, roomId);

      var existing := Find(bookings, (b: Booking) => Clashes(b, slot));
      if existing.Some? {
        return Failure(SlotTaken);
      }

      var booking := Booking(|bookings| + 1, name, slot.date, slot.startTime, slot.endTime, roomId, BOOKED, now);
      var summary := SummaryOf(room, booking);
      IndexHasUniqueNames(rooms, bookings, customers);
      var customers' := RecordSummary(customers, name, summary);
      AdmitKeepsInvariant(rooms, bookings, customers, booking, customers');
      bookings := bookings + [booking];
      customers := customers';
      return Success(booking);
    }
  }
}
