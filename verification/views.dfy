/**
 * The read-only GET handlers that join rooms and bookings:
 * GET /rooms/bookings and GET /customers/:customerName/bookings/count.
 * (GET /customers/bookings returns the customer index as it is; see
 * BookingStore.CustomersWithBookings.)
 */
module Views {
  import opened Common
  import opened Entities
  import opened StoreModel

  /** One element of the GET /rooms/bookings answer. */
  datatype RoomView = RoomView(name: string, bookedStatus: string, bookings: seq<Booking>)

  /** One booking as the count query reports it, with its room's name joined in. */
  datatype Detail = Detail(
    customerName: string,
    roomName: string,
    date: string,
    startTime: string,
    endTime: string,
    bookingId: int,
    bookingDate: string,
    bookingStatus: string)

  /** The answer of the count query. */
  datatype CountView = CountView(customerName: string, bookingCount: nat, bookings: seq<Detail>)

  function DetailOf(room: Room, b: Booking): Detail {
    Detail(b.customerName, room.name, b.date, b.startTime, b.endTime, b.id, b.bookingDate, b.status)
  }

  /**
   * GET /rooms/bookings: every room in catalogue order, "Booked" exactly when
   * some booking names it and "Available" otherwise, with that room's
   * bookings in admission order.
   */
  function RoomsWithBookings(rooms: seq<Room>, bookings: seq<Booking>): (r: seq<RoomView>)
    ensures |r| == |rooms|
    ensures forall i :: 0 <= i < |rooms| ==>
              && r[i].name == rooms[i].name
              && r[i].bookings == ForRoom(bookings, rooms[i].id)
              && (r[i].bookedStatus == BOOKED <==>
                    exists j :: 0 <= j < |bookings| && bookings[j].roomId == rooms[i].id)
              && (r[i].bookedStatus == AVAILABLE <==>
                    forall j :: 0 <= j < |bookings| ==> bookings[j].roomId != rooms[i].id)
  {
    seq(|rooms|, i requires 0 <= i < |rooms| =>
      var mine := ForRoom(bookings, rooms[i].id);
      RoomView(rooms[i].name, if |mine| > 0 then BOOKED else AVAILABLE, mine))
  }

  /**
   * The `map` of the count query: each booking with its room's name, looked
   * up by id. A booking whose room id finds no room makes the whole query
   * fail (the handler would throw when it reads `.name` of undefined).
   */
  function Details(rooms: seq<Room>, bookings: seq<Booking>): (r: Option<seq<Detail>>)
    ensures r.None? <==> exists i :: 0 <= i < |bookings| && FindRoom(rooms, bookings[i].roomId).None?
    ensures r.Some? ==>
              && |r.value| == |bookings|
              && forall i :: 0 <= i < |bookings| ==>
                   r.value[i] == DetailOf(FindRoom(rooms, bookings[i].roomId).value, bookings[i])
  {
    if bookings == [] then Some([])
    else match FindRoom(rooms, bookings[0].roomId)
      case None => None
      case Some(room) =>
        match Details(rooms, bookings[1..])
        case None => None
        case Some(rest) => Some([DetailOf(room, bookings[0])] + rest)
  }

  /**
   * GET /customers/:customerName/bookings/count: NotFound exactly when no
   * booking carries the name; otherwise the number of that customer's
   * bookings and their details in admission order. On a store whose
   * bookings all name existing rooms the room join never fails.
   */
  function CustomerBookingCount(rooms: seq<Room>, bookings: seq<Booking>, name: string): (r: Result<CountView, Error>)
    ensures r == Failure(NotFound) <==> forall i :: 0 <= i < |bookings| ==> bookings[i].customerName != name
    ensures r.Failure? ==> r.error == NotFound || r.error == MissingRoom
    ensures Resolves(rooms, bookings) ==> r.Failure? ==> r.error == NotFound
    ensures r.Success? ==>
              var mine := ForCustomer(bookings, name);
              && r.value.customerName == name
              && r.value.bookingCount == |mine| == |r.value.bookings|
              && forall k :: 0 <= k < |mine| ==>
                   && FindRoom(rooms, mine[k].roomId).Some?
                   && r.value.bookings[k] == DetailOf(FindRoom(rooms, mine[k].roomId).value, mine[k])
  {
    var mine := ForCustomer(bookings, name);
    if |mine| == 0 then Failure(NotFound)
    else match Details(rooms, mine)
      case None => Failure(MissingRoom)
      case Some(details) => Success(CountView(name, |mine|, details))
  }

  /** The details of a list with one more booking end with that booking's detail. */
  lemma {:induction false} DetailsAppend(rooms: seq<Room>, bookings: seq<Booking>, b: Booking)
    requires Details(rooms, bookings).Some? && FindRoom(rooms, b.roomId).Some?
    ensures Details(rooms, bookings + [b])
         == Some(Details(rooms, bookings).value + [DetailOf(FindRoom(rooms, b.roomId).value, b)])
  {
    if bookings == [] {
      assert bookings + [b] == [b] && [b][1..] == [];
      assert Details(rooms, []) == Some([]);
      var d := DetailOf(FindRoom(rooms, b.roomId).value, b);
      assert Details(rooms, [b]) == Some([d] + []);
      assert Details(rooms, bookings).value + [d] == [d] + [];
    } else {
      assert (bookings + [b])[0] == bookings[0];
      assert (bookings + [b])[1..] == bookings[1..] + [b];
      var room := FindRoom(rooms, bookings[0].roomId).value;
      assert Details(rooms, bookings) == Some([DetailOf(room, bookings[0])] + Details(rooms, bookings[1..]).value);
      DetailsAppend(rooms, bookings[1..], b);
      var rest := Details(rooms, bookings[1..]).value;
      var d := DetailOf(FindRoom(rooms, b.roomId).value, b);
      assert Details(rooms, bookings + [b]) == Some([DetailOf(room, bookings[0])] + (rest + [d]));
      assert [DetailOf(room, bookings[0])] + (rest + [d]) == ([DetailOf(room, bookings[0])] + rest) + [d];
    }
  }

  /**
   * Admitting a booking adds exactly one detail, at the end, to its
   * customer's count view.
   */
  lemma {:induction false} CountAfterAdmission(rooms: seq<Room>, bookings: seq<Booking>, b: Booking)
    requires Resolves(rooms, bookings + [b])
    ensures var before := CustomerBookingCount(rooms, bookings, b.customerName);
            var after := CustomerBookingCount(rooms, bookings + [b], b.customerName);
            && FindRoom(rooms, b.roomId).Some?
            && after.Success?
            && after.value.bookingCount == |ForCustomer(bookings, b.customerName)| + 1
            && after.value.bookings
               == (if before.Success? then before.value.bookings else [])
                  + [DetailOf(FindRoom(rooms, b.roomId).value, b)]
  {
    var name := b.customerName;
    var mine := ForCustomer(bookings, name);
    ForCustomerAppend(bookings, b, name);
    assert b in bookings + [b];
    assert Resolves(rooms, bookings);
    assert Details(rooms, mine).Some?;
    DetailsAppend(rooms, mine, b);
    assert Details(rooms, []) == Some([]);
  }

  /** Admitting a booking leaves every other customer's count view as it was. */
  lemma {:induction false} CountOfOthersUnchanged(rooms: seq<Room>, bookings: seq<Booking>, b: Booking, name: string)
    requires name != b.customerName
    ensures CustomerBookingCount(rooms, bookings + [b], name) == CustomerBookingCount(rooms, bookings, name)
  {
    ForCustomerAppend(bookings, b, name);
    assert ForCustomer(bookings + [b], name) == ForCustomer(bookings, name);
  }
}
