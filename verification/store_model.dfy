/**
 * The store's three collections seen as values: the lookups and filters the
 * handlers perform on them, an independent definition of what the customer
 * index must contain, and the invariant every handler keeps.
 */
module StoreModel {
  import opened Common
  import opened Entities
  import opened Conflict

  /** `rooms.find(room => room.id === id)`, as the count query performs it. */
  function FindRoom(rooms: seq<Room>, id: int): (r: Option<Room>)
    ensures r.None? <==> forall i :: 0 <= i < |rooms| ==> rooms[i].id != id
    ensures r.Some? ==> r.value in rooms && r.value.id == id
  {
    if rooms == [] then None
    else if rooms[0].id == id then Some(rooms[0])
    else FindRoom(rooms[1..], id)
  }

  /** `bookings.filter(booking => booking.customerName === name)`. */
  function ForCustomer(bookings: seq<Booking>, name: string): (r: seq<Booking>)
    ensures forall b :: b in r <==> b in bookings && b.customerName == name
    ensures r == [] <==> forall i :: 0 <= i < |bookings| ==> bookings[i].customerName != name
  {
    if bookings == [] then []
    else
      var last := bookings[|bookings| - 1];
      assert bookings == bookings[..|bookings| - 1] + [last];
      ForCustomer(bookings[..|bookings| - 1], name) + (if last.customerName == name then [last] else [])
  }

  /** `bookings.filter(booking => booking.roomId === id)`. */
  function ForRoom(bookings: seq<Booking>, id: int): (r: seq<Booking>)
    ensures forall b :: b in r <==> b in bookings && b.roomId == id
    ensures r == [] <==> forall i :: 0 <= i < |bookings| ==> bookings[i].roomId != id
  {
    if bookings == [] then []
    else
      var last := bookings[|bookings| - 1];
      assert bookings == bookings[..|bookings| - 1] + [last];
      ForRoom(bookings[..|bookings| - 1], id) + (if last.roomId == id then [last] else [])
  }

  /**
   * The names of the customers who have booked, each once, in the order of
   * their first booking.
   */
  function CustomerNames(bookings: seq<Booking>): (names: seq<string>)
    ensures forall n :: n in names <==> exists i :: 0 <= i < |bookings| && bookings[i].customerName == n
    ensures forall i, j :: 0 <= i < j < |names| ==> names[i] != names[j]
  {
    if bookings == [] then []
    else
      var earlier := bookings[..|bookings| - 1];
      var init := CustomerNames(earlier);
      var n := bookings[|bookings| - 1].customerName;
      assert forall i :: 0 <= i < |earlier| ==> earlier[i] == bookings[i];
      if n in init then init else init + [n]
  }

  function Names(customers: seq<Customer>): seq<string> {
    seq(|customers|, k requires 0 <= k < |customers| => customers[k].name)
  }

  /** Every booking's room id finds a room. */
  ghost predicate Resolves(rooms: seq<Room>, bookings: seq<Booking>) {
    forall b :: b in bookings ==> FindRoom(rooms, b.roomId).Some?
  }

  function SummaryOf(room: Room, b: Booking): Summary {
    Summary(room.name, b.date, b.startTime, b.endTime)
  }

  /** The summaries of `bookings`, each naming the room its id finds. */
  function Summaries(rooms: seq<Room>, bookings: seq<Booking>): seq<Summary>
    requires Resolves(rooms, bookings)
  {
    seq(|bookings|, i requires 0 <= i < |bookings| => SummaryOf(FindRoom(rooms, bookings[i].roomId).value, bookings[i]))
  }

  /** Ids are assigned as position + 1. */
  ghost predicate RoomIdsArePositions(rooms: seq<Room>) {
    forall i :: 0 <= i < |rooms| ==> rooms[i].id == i + 1
  }

  ghost predicate BookingIdsArePositions(bookings: seq<Booking>) {
    forall i :: 0 <= i < |bookings| ==> bookings[i].id == i + 1
  }

  /** No booking clashes, by the handler's own test, with any booking admitted before it. */
  ghost predicate NoClashes(bookings: seq<Booking>) {
    forall i, j :: 0 <= i < j < |bookings| ==> !Clashes(bookings[i], SlotOf(bookings[j]))
  }

  /**
   * The customer index holds one entry per customer name, in the order of
   * the customers' first bookings, and each entry lists, in admission
   * order, the summaries of exactly that customer's bookings.
   */
  ghost predicate IndexConsistent(rooms: seq<Room>, bookings: seq<Booking>, customers: seq<Customer>)
    requires Resolves(rooms, bookings)
  {
    && Names(customers) == CustomerNames(bookings)
    && forall k :: 0 <= k < |customers| ==>
         customers[k].bookings == Summaries(rooms, ForCustomer(bookings, customers[k].name))
  }

  ghost predicate StoreInvariant(rooms: seq<Room>, bookings: seq<Booking>, customers: seq<Customer>) {
    && RoomIdsArePositions(rooms)
    && BookingIdsArePositions(bookings)
    && (forall b :: b in bookings ==> b.status == BOOKED)
    && Resolves(rooms, bookings)
    && NoClashes(bookings)
    && IndexConsistent(rooms, bookings, customers)
  }

  /** With ids assigned by position, the room with id `id` is the `id`-th one. */
  lemma FindRoomByPosition(rooms: seq<Room>, id: int)
    requires RoomIdsArePositions(rooms)
    ensures FindRoom(rooms, id) == if 1 <= id <= |rooms| then Some(rooms[id - 1]) else None
  {
  }

  /** Ids assigned by position are unique. */
  lemma IdsUnique(rooms: seq<Room>, bookings: seq<Booking>)
    requires RoomIdsArePositions(rooms) && BookingIdsArePositions(bookings)
    ensures forall i, j :: 0 <= i < j < |rooms| ==> rooms[i].id != rooms[j].id
    ensures forall i, j :: 0 <= i < j < |bookings| ==> bookings[i].id != bookings[j].id
  {
  }

  lemma ForCustomerAppend(bookings: seq<Booking>, b: Booking, name: string)
    ensures ForCustomer(bookings + [b], name)
         == ForCustomer(bookings, name) + (if b.customerName == name then [b] else [])
  {
  }

  /** The room filter keeps booking order: a new last booking lands last, once, when it is for the room. */
  lemma ForRoomAppend(bookings: seq<Booking>, b: Booking, id: int)
    ensures ForRoom(bookings + [b], id)
         == ForRoom(bookings, id) + (if b.roomId == id then [b] else [])
  {
  }

  lemma CustomerNamesAppend(bookings: seq<Booking>, b: Booking)
    ensures CustomerNames(bookings + [b])
         == if b.customerName in CustomerNames(bookings) then CustomerNames(bookings)
            else CustomerNames(bookings) + [b.customerName]
  {
  }

  lemma SummariesAppend(rooms: seq<Room>, bookings: seq<Booking>, b: Booking)
    requires Resolves(rooms, bookings + [b])
    ensures Summaries(rooms, bookings + [b])
         == Summaries(rooms, bookings) + [SummaryOf(FindRoom(rooms, b.roomId).value, b)]
  {
  }

  /** Appending a room with the next id keeps the invariant. */
  lemma {:induction false} AddRoomKeepsInvariant(
    rooms: seq<Room>, bookings: seq<Booking>, customers: seq<Customer>, room: Room)
    requires StoreInvariant(rooms, bookings, customers)
    requires room.id == |rooms| + 1
    ensures StoreInvariant(rooms + [room], bookings, customers)
  {
    var rooms' := rooms + [room];
    assert RoomIdsArePositions(rooms');
    forall b | b in bookings
      ensures FindRoom(rooms', b.roomId) == FindRoom(rooms, b.roomId)
    {
      FindRoomByPosition(rooms, b.roomId);
      FindRoomByPosition(rooms', b.roomId);
    }
    assert Resolves(rooms', bookings);
    forall k | 0 <= k < |customers|
      ensures customers[k].bookings == Summaries(rooms', ForCustomer(bookings, customers[k].name))
    {
      var mine := ForCustomer(bookings, customers[k].name);
      assert Summaries(rooms', mine) == Summaries(rooms, mine);
    }
  }

  /** No two entries of the customer index share a name. */
  ghost predicate UniqueNames(customers: seq<Customer>) {
    forall i, j :: 0 <= i < j < |customers| ==> customers[i].name != customers[j].name
  }

  /**
   * `after` is `before` with summary `s` recorded for `name`: appended to
   * the entry with that name when there is one, all other entries as they
   * were; otherwise in a new one-summary entry at the end.
   */
  ghost predicate SummaryRecorded(before: seq<Customer>, after: seq<Customer>, name: string, s: Summary) {
    && (name in Names(before) ==>
          && |after| == |before|
          && forall k :: 0 <= k < |before| ==>
               after[k] == if before[k].name == name then Customer(name, before[k].bookings + [s]) else before[k])
    && (name !in Names(before) ==> after == before + [Customer(name, [s])])
  }

  /** The customer index of a consistent store has unique names. */
  lemma IndexHasUniqueNames(rooms: seq<Room>, bookings: seq<Booking>, customers: seq<Customer>)
    requires Resolves(rooms, bookings) && IndexConsistent(rooms, bookings, customers)
    ensures UniqueNames(customers)
  {
    var names := Names(customers);
    forall i, j | 0 <= i < j < |customers|
      ensures customers[i].name != customers[j].name
    {
      assert names[i] == customers[i].name && names[j] == customers[j].name;
    }
  }

  /**
   * After booking `b` is appended, a customer's summaries are the old ones,
   * plus the summary of `b` at the end when `b` is theirs.
   */
  lemma EntryAfterAdmission(rooms: seq<Room>, bookings: seq<Booking>, b: Booking, name: string)
    requires Resolves(rooms, bookings + [b])
    ensures Resolves(rooms, bookings) && FindRoom(rooms, b.roomId).Some?
    ensures Summaries(rooms, ForCustomer(bookings + [b], name))
         == Summaries(rooms, ForCustomer(bookings, name))
            + (if b.customerName == name then [SummaryOf(FindRoom(rooms, b.roomId).value, b)] else [])
  {
  }

  /** One entry of the index after an admission: extended when it is the customer's, else kept. */
  lemma EntryUpdated(rooms: seq<Room>, bookings: seq<Booking>, b: Booking, c: Customer, c': Customer)
    requires Resolves(rooms, bookings + [b])
    requires c.bookings == Summaries(rooms, ForCustomer(bookings, c.name))
    requires c' == if c.name == b.customerName
                   then Customer(b.customerName, c.bookings + [SummaryOf(FindRoom(rooms, b.roomId).value, b)])
                   else c
    ensures c'.name == c.name
    ensures c'.bookings == Summaries(rooms, ForCustomer(bookings + [b], c'.name))
  {
    EntryAfterAdmission(rooms, bookings, b, c.name);
  }

  /** An admission by a customer already in the index updates each entry in place. */
  lemma {:induction false} EntriesAfterRepeatCustomer(
    rooms: seq<Room>, bookings: seq<Booking>, customers: seq<Customer>,
    b: Booking, customers': seq<Customer>)
    requires Resolves(rooms, bookings + [b])
    requires IndexConsistent(rooms, bookings, customers)
    requires b.customerName in Names(customers)
    requires SummaryRecorded(customers, customers', b.customerName, SummaryOf(FindRoom(rooms, b.roomId).value, b))
    ensures |customers'| == |customers|
    ensures forall k :: 0 <= k < |customers'| ==>
              && customers'[k].name == customers[k].name
              && customers'[k].bookings == Summaries(rooms, ForCustomer(bookings + [b], customers'[k].name))
  {
    forall k | 0 <= k < |customers|
      ensures customers'[k].name == customers[k].name
      ensures customers'[k].bookings == Summaries(rooms, ForCustomer(bookings + [b], customers'[k].name))
    {
      EntryUpdated(rooms, bookings, b, customers[k], customers'[k]);
    }
  }

  /** An admission by a customer already in the index extends that customer's entry. */
  lemma {:induction false} IndexAfterRepeatCustomer(
    rooms: seq<Room>, bookings: seq<Booking>, customers: seq<Customer>,
    b: Booking, customers': seq<Customer>)
    requires Resolves(rooms, bookings + [b])
    requires IndexConsistent(rooms, bookings, customers)
    requires b.customerName in Names(customers)
    requires SummaryRecorded(customers, customers', b.customerName, SummaryOf(FindRoom(rooms, b.roomId).value, b))
    ensures IndexConsistent(rooms, bookings + [b], customers')
  {
    EntriesAfterRepeatCustomer(rooms, bookings, customers, b, customers');
    assert Names(customers') == Names(customers);
    CustomerNamesAppend(bookings, b);
  }

  /** An admission by a customer not yet in the index keeps every existing entry. */
  lemma {:induction false} EntriesAfterNewCustomer(
    rooms: seq<Room>, bookings: seq<Booking>, customers: seq<Customer>,
    b: Booking, customers': seq<Customer>)
    requires Resolves(rooms, bookings + [b])
    requires IndexConsistent(rooms, bookings, customers)
    requires b.customerName !in Names(customers)
    requires SummaryRecorded(customers, customers', b.customerName, SummaryOf(FindRoom(rooms, b.roomId).value, b))
    ensures |customers'| == |customers| + 1
    ensures forall k :: 0 <= k < |customers| ==>
              && customers'[k] == customers[k]
              && customers'[k].bookings == Summaries(rooms, ForCustomer(bookings + [b], customers'[k].name))
  {
    forall k | 0 <= k < |customers|
      ensures customers'[k] == customers[k]
      ensures customers'[k].bookings == Summaries(rooms, ForCustomer(bookings + [b], customers'[k].name))
    {
      assert Names(customers)[k] == customers[k].name;
      EntryUpdated(rooms, bookings, b, customers[k], customers'[k]);
    }
  }

  /** An admission by a customer not yet in the index adds an entry at the end. */
  lemma {:induction false} IndexAfterNewCustomer(
    rooms: seq<Room>, bookings: seq<Booking>, customers: seq<Customer>,
    b: Booking, customers': seq<Customer>)
    requires Resolves(rooms, bookings + [b])
    requires IndexConsistent(rooms, bookings, customers)
    requires b.customerName !in Names(customers)
    requires SummaryRecorded(customers, customers', b.customerName, SummaryOf(FindRoom(rooms, b.roomId).value, b))
    ensures IndexConsistent(rooms, bookings + [b], customers')
  {
    var name := b.customerName;
    EntriesAfterNewCustomer(rooms, bookings, customers, b, customers');
    assert Names(customers') == Names(customers) + [name];
    CustomerNamesAppend(bookings, b);
    FirstSummary(rooms, bookings, b);
    assert customers'[|customers|] == Customer(name, [SummaryOf(FindRoom(rooms, b.roomId).value, b)]);
  }

  /** The first booking under a name gives that name a one-summary history. */
  lemma FirstSummary(rooms: seq<Room>, bookings: seq<Booking>, b: Booking)
    requires Resolves(rooms, bookings + [b])
    requires b.customerName !in CustomerNames(bookings)
    ensures FindRoom(rooms, b.roomId).Some?
    ensures Summaries(rooms, ForCustomer(bookings + [b], b.customerName))
         == [SummaryOf(FindRoom(rooms, b.roomId).value, b)]
  {
    EntryAfterAdmission(rooms, bookings, b, b.customerName);
    assert forall i :: 0 <= i < |bookings| ==> bookings[i].customerName != b.customerName;
    assert ForCustomer(bookings, b.customerName) == [];
  }

  /** Appending a booking that clashes with no earlier one keeps NoClashes. */
  lemma AdmitKeepsNoClashes(bookings: seq<Booking>, b: Booking)
    requires NoClashes(bookings)
    requires forall i :: 0 <= i < |bookings| ==> !Clashes(bookings[i], SlotOf(b))
    ensures NoClashes(bookings + [b])
  {
  }

  /**
   * Admitting a booking keeps the invariant: it has the next id and status
   * "Booked", its room exists, it clashes with no earlier booking, and the
   * customer index gains its summary, in the customer's existing entry or in
   * a new entry at the end.
   */
  lemma {:induction false} AdmitKeepsInvariant(
    rooms: seq<Room>, bookings: seq<Booking>, customers: seq<Customer>,
    b: Booking, customers': seq<Customer>)
    requires StoreInvariant(rooms, bookings, customers)
    requires b.id == |bookings| + 1 && b.status == BOOKED
    requires FindRoom(rooms, b.roomId).Some?
    requires forall i :: 0 <= i < |bookings| ==> !Clashes(bookings[i], SlotOf(b))
    requires SummaryRecorded(customers, customers', b.customerName, SummaryOf(FindRoom(rooms, b.roomId).value, b))
    ensures StoreInvariant(rooms, bookings + [b], customers')
  {
    var bookings' := bookings + [b];
    assert BookingIdsArePositions(bookings');
    assert Resolves(rooms, bookings');
    AdmitKeepsNoClashes(bookings, b);
    if b.customerName in Names(customers) {
      IndexAfterRepeatCustomer(rooms, bookings, customers, b, customers');
    } else {
      IndexAfterNewCustomer(rooms, bookings, customers, b, customers');
    }
  }

  /** Every stored time range starts before it ends. The handler does not enforce this. */
  ghost predicate AllWellFormed(bookings: seq<Booking>) {
    forall b :: b in bookings ==> WellFormed(b.startTime, b.endTime)
  }

  /**
   * When every admitted range is well formed, no two bookings for the same
   * room and date have intersecting half-open ranges.
   */
  lemma AdmittedBookingsDisjoint(bookings: seq<Booking>)
    requires NoClashes(bookings) && AllWellFormed(bookings)
    ensures forall i, j ::
              0 <= i < |bookings| && 0 <= j < |bookings| && i != j
              && bookings[i].roomId == bookings[j].roomId && bookings[i].date == bookings[j].date
              ==> !Intersect(bookings[i].startTime, bookings[i].endTime, bookings[j].startTime, bookings[j].endTime)
  {
    forall i, j | 0 <= i < |bookings| && 0 <= j < |bookings| && i != j
      && bookings[i].roomId == bookings[j].roomId && bookings[i].date == bookings[j].date
      ensures !Intersect(bookings[i].startTime, bookings[i].endTime, bookings[j].startTime, bookings[j].endTime)
    {
      if i < j {
        ClashesIffIntersect(bookings[i], SlotOf(bookings[j]));
      } else {
        ClashesIffIntersect(bookings[j], SlotOf(bookings[i]));
      }
    }
  }
}
