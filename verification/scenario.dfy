/**
 * A client of the store that relies on the handlers' contracts alone: a
 * room is created, a booking is admitted, an overlapping request for the
 * same room and date is refused, and a back-to-back one is admitted.
 */
module Scenario {
  import opened Common
  import opened Entities
  import opened Conflict
  import opened StoreModel
  import opened Store
  import opened Views

  method FirstBooking(now: string) returns (store: BookingStore)
    ensures fresh(store) && store.Valid()
    ensures store.rooms == [Room(1, "Alpha", 10, ["TV"], 50)]
    ensures store.bookings == [Booking(1, "Ann", "2024-01-01", "09:00", "10:00", 1, BOOKED, now)]
  {
    store := new BookingStore();
    var room := store.CreateRoom(RoomRequest(Some("Alpha"), Some(10), Some(["TV"]), Some(50)));
    assert room.Success? && room.value.id == 1;
    assert store.rooms == [room.value] && store.bookings == [];

    var ann := store.AdmitBooking(BookingRequest(Some("Ann"), Some("2024-01-01"), Some("09:00"), Some("10:00"), Some(1)), now);
    assert ann.Success? && ann.value.id == 1;
  }

  /** A room request with an empty name is refused and adds no room. */
  method EmptyNameRefused() {
    var store := new BookingStore();
    var missing := store.CreateRoom(RoomRequest(Some(""), Some(10), Some([]), Some(50)));
    assert missing == Failure(ValidationError);
    assert store.rooms == [];
  }

  /** A booking naming a room id no room has is refused. */
  method UnknownRoomRefused(now: string) {
    var store := FirstBooking(now);
    assert FindRoom(store.rooms, 7).None?;
    var noRoom := store.AdmitBooking(BookingRequest(Some("Bo"), Some("2024-01-01"), Some("12:00"), Some("13:00"), Some(7)), now);
    assert noRoom == Failure(InvalidRoomId);
  }

  /** A request overlapping the first booking's range is refused and changes nothing. */
  method OverlapRefused(now: string) {
    var store := FirstBooking(now);
    var ann := store.bookings[0];
    var overlapping := BookingRequest(Some("Bo"), Some("2024-01-01"), Some("09:30"), Some("10:30"), Some(1));
    assert Clashes(ann, RequestedSlot(overlapping));
    var bo := store.AdmitBooking(overlapping, now);
    assert bo == Failure(SlotTaken);
    assert |store.bookings| == 1;
  }

  /** A request starting where the first booking ends is admitted with the next id. */
  method AdjacentAdmitted(now: string) {
    var store := FirstBooking(now);
    var ann := store.bookings[0];
    var adjacent := BookingRequest(Some("Bo"), Some("2024-01-01"), Some("10:00"), Some("11:00"), Some(1));
    AdjacentSlotsDoNotClash(ann, RequestedSlot(adjacent));
    var bo := store.AdmitBooking(adjacent, now);
    assert bo.Success? && bo.value.id == 2;
  }

  /** Counting the bookings of a name nobody booked under is answered with NotFound. */
  method UnknownCustomer(now: string) {
    var store := FirstBooking(now);
    var nobody := CustomerBookingCount(store.rooms, store.bookings, "Nobody");
    assert nobody == Failure(NotFound);
  }
}
