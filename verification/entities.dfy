/**
 * The records the store keeps and the error kinds its handlers answer with.
 * Rooms and bookings carry the id the store assigned them; a booking refers
 * to its room by id only. A customer entry is the denormalised history of
 * one customer name: one summary per admitted booking, in admission order.
 */
module Entities {
  import opened Common

  /** A room as POST /rooms stores it. Amenities and price are only echoed. */
  datatype Room = Room(id: int, name: string, seats: int, amenities: seq<string>, price: int)

  /** A booking as POST /bookings stores it; `bookingDate` is the admission instant. */
  datatype Booking = Booking(
    id: int,
    customerName: string,
    date: string,
    startTime: string,
    endTime: string,
    roomId: int,
    status: string,
    bookingDate: string)

  /** What the customer index records of one booking: the room's name, not its id. */
  datatype Summary = Summary(roomName: string, date: string, startTime: string, endTime: string)

  datatype Customer = Customer(name: string, bookings: seq<Summary>)

  /** The status every stored booking carries. */
  const BOOKED: string := "Booked"

  /** The status a room without bookings is reported with. */
  const AVAILABLE: string := "Available"

  datatype Error =
    | ValidationError   // "All fields are required"
    | InvalidRoomId     // "Invalid roomId"
    | SlotTaken         // "Room already booked for this time slot"
    | NotFound          // "No bookings found for this customer"
    | MissingRoom       // the room join of the count query found no room (a TypeError)

  /** The request body of POST /rooms; a missing field is None. */
  datatype RoomRequest = RoomRequest(
    name: Option<string>,
    seats: Option<int>,
    amenities: Option<seq<string>>,
    price: Option<int>)

  /** The request body of POST /bookings; a missing field is None. */
  datatype BookingRequest = BookingRequest(
    customerName: Option<string>,
    date: Option<string>,
    startTime: Option<string>,
    endTime: Option<string>,
    roomId: Option<int>)



  /** The validation test of POST /rooms: every field truthy. */
  predicate RoomFieldsTruthy(req: RoomRequest) {
    TruthyString(req.name) && TruthyNumber(req.seats) && TruthyList(req.amenities) && TruthyNumber(req.price)
  }

  /** The validation test of POST /bookings: every field truthy. */
  predicate BookingFieldsTruthy(req: BookingRequest) {
    TruthyString(req.customerName) && TruthyString(req.date) && TruthyString(req.startTime)
    && TruthyString(req.endTime) && TruthyNumber(req.roomId)
  }
}
