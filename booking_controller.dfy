/** The booking handlers (controller/BookingController.js): searching for
    free rooms, creating a booking, and the confirm / check-in / check-out
    transitions that also write the room's status. Each handler answers with
    an HTTP status; a thrown `ApiError` keeps its status and any other
    failure (a schema validation error, a `TypeError` on a missing room)
    is a 500. */
module BookingController {

  import opened Wrappers
  import opened Store
  import opened Http
  import opened RoomModel
  import opened BookingModel

  // ---------------------------------------------------------------------------
  // Search

  /** The rooms no blocking booking clashes with, in store order. */
  function AvailableRooms(rooms: seq<Doc<Room>>, bookings: seq<Doc<Booking>>, checkIn: int, checkOut: int)
    : (r: seq<Doc<Room>>)
    ensures |r| <= |rooms|
  {
    if rooms == [] then []
    else
      var rest := AvailableRooms(rooms[1..], bookings, checkIn, checkOut);
      if FindClash(bookings, rooms[0].id, checkIn, checkOut).None? then [rooms[0]] + rest else rest
  }

  /** A room is listed exactly when no Pending or Confirmed booking of it
      clashes with the requested dates; the list keeps the store's order. */
  lemma {:induction false} AvailableRoomsExact(rooms: seq<Doc<Room>>, bookings: seq<Doc<Booking>>,
                                               checkIn: int, checkOut: int)
    ensures var r := AvailableRooms(rooms, bookings, checkIn, checkOut);
      && (forall i :: 0 <= i < |r| ==> r[i] in rooms && !RoomBlocked(bookings, r[i].id, checkIn, checkOut))
      && (forall i :: 0 <= i < |rooms| && !RoomBlocked(bookings, rooms[i].id, checkIn, checkOut) ==> rooms[i] in r)
      && (IdsAscending(rooms) ==> IdsAscending(r))
  {
    if rooms != [] {
      AvailableRoomsExact(rooms[1..], bookings, checkIn, checkOut);
      var rest := AvailableRooms(rooms[1..], bookings, checkIn, checkOut);
      assert forall i :: 1 <= i < |rooms| ==> rooms[i] == rooms[1..][i - 1];
      assert IdsAscending(rooms) ==> forall i :: 0 <= i < |rest| ==> rooms[0].id < rest[i].id;
    }
  }

  lemma AvailableRoomsStep(all: seq<Doc<Room>>, i: nat, bs: seq<Doc<Booking>>, from: int, to: int)
    requires i < |all|
    ensures AvailableRooms(all[i..], bs, from, to)
         == (if FindClash(bs, all[i].id, from, to).None? then [all[i]] else []) + AvailableRooms(all[i + 1..], bs, from, to)
  {
    assert all[i..][1..] == all[i + 1..];
  }

  /** `searchAvailableRooms`: 400 unless both dates are given; otherwise every
      room is put to the clash query in turn and the free ones are collected. */
  method SearchAvailableRooms(rooms: Collection<Room>, bookings: Collection<Booking>,
                              checkIn: Option<int>, checkOut: Option<int>)
    returns (code: int, available: seq<Doc<Room>>)
    ensures checkIn.None? || checkOut.None? ==> code == BadRequest && available == []
    ensures checkIn.Some? && checkOut.Some? ==>
      code == OK && available == AvailableRooms(rooms.docs, bookings.docs, checkIn.value, checkOut.value)
  {
    if checkIn.None? || checkOut.None? {
      return BadRequest, [];
    }
    var all, bs, from, to := rooms.docs, bookings.docs, checkIn.value, checkOut.value;
    available := [];
    var i := 0;
    while i < |all|
      invariant 0 <= i <= |all|
      invariant available + AvailableRooms(all[i..], bs, from, to) == AvailableRooms(all, bs, from, to)
    {
      AvailableRoomsStep(all, i, bs, from, to);
      ghost var rest := AvailableRooms(all[i + 1..], bs, from, to);
      var clash := FindClash(bs, all[i].id, from, to);
      if clash.None? {
        assert available + [all[i]] + rest == available + ([all[i]] + rest);
        available := available + [all[i]];
      } else {
        assert AvailableRooms(all[i..], bs, from, to) == rest;
      }
      i := i + 1;
    }
    assert all[i..] == [];
    code := OK;
  }

  /** The worked example: a Confirmed stay [1, 5) on room 7 hides the room
      from a search for [3, 6) but not from one for [5, 7). */
  lemma SearchExample()
    ensures var rooms := [Doc(7, Room("101", "double", 90, "available", [], None, []))];
            var bookings := [Doc(0, Booking(3, 7, 1, 5, Confirmed, Paid, 360))];
            AvailableRooms(rooms, bookings, 3, 6) == [] && AvailableRooms(rooms, bookings, 5, 7) == rooms
  {
    var rooms := [Doc(7, Room("101", "double", 90, "available", [], None, []))];
    var bookings := [Doc(0, Booking(3, 7, 1, 5, Confirmed, Paid, 360))];
    assert FindClash(bookings, 7, 3, 6) == Some(0);
    assert FindClash(bookings, 7, 5, 7) == None;
  }

  // ---------------------------------------------------------------------------
  // Create

  /** The body of a create request; `None` is an absent field. */
  datatype BookingRequest = BookingRequest(userId: Option<nat>, roomId: Option<nat>,
                                           checkIn: Option<int>, checkOut: Option<int>,
                                           totalAmount: Option<int>, paymentStatus: Option<string>)

  /** The first guard: a required field is absent, or `totalAmount` is 0 (falsy). */
  predicate MissingField(req: BookingRequest) {
    req.userId.None? || req.roomId.None? || req.checkIn.None? || req.checkOut.None?
    || req.totalAmount.None? || req.totalAmount.value == 0
  }

  /** `paymentStatus || "Pending"` checked against the enum. */
  function PaymentOf(given: Option<string>): (p: Option<PaymentStatus>)
    ensures given.None? ==> p == Some(PaymentPending)
    ensures given.Some? && given.value == "" ==> p == Some(PaymentPending)
    ensures given.Some? && given.value != "" ==> p == ParsePayment(given.value)
  {
    match given
    case None => Some(PaymentPending)
    case Some(s) => if s == "" then Some(PaymentPending) else ParsePayment(s)
  }

  /** `createBooking`: 400 for a missing field, 400 when a blocking booking
      of the room clashes, 500 when the payment status fails the schema, and
      otherwise one new Pending booking after all others. */
  method CreateBooking(bookings: Collection<Booking>, req: BookingRequest) returns (code: int)
    requires bookings.Valid()
    modifies bookings
    ensures bookings.Valid()
    ensures MissingField(req) ==> code == BadRequest
    ensures !MissingField(req) && RoomBlocked(old(bookings.docs), req.roomId.value, req.checkIn.value, req.checkOut.value)
            ==> code == BadRequest
    ensures (&& !MissingField(req)
             && !RoomBlocked(old(bookings.docs), req.roomId.value, req.checkIn.value, req.checkOut.value)
             && PaymentOf(req.paymentStatus).None?) ==> code == InternalError
    ensures (&& !MissingField(req)
             && !RoomBlocked(old(bookings.docs), req.roomId.value, req.checkIn.value, req.checkOut.value)
             && PaymentOf(req.paymentStatus).Some?) ==> code == Created
    ensures code != Created ==> bookings.docs == old(bookings.docs)
    ensures code == Created ==>
      && !MissingField(req) && PaymentOf(req.paymentStatus).Some?
      && bookings.docs == old(bookings.docs) + [Doc(old(bookings.nextId),
           Booking(req.userId.value, req.roomId.value, req.checkIn.value, req.checkOut.value,
                   Pending, PaymentOf(req.paymentStatus).value, req.totalAmount.value))]
    ensures NoDoubleBooking(old(bookings.docs)) ==> NoDoubleBooking(bookings.docs)
  {
    if MissingField(req) {
      return BadRequest;
    }
    var clash := FindClash(bookings.docs, req.roomId.value, req.checkIn.value, req.checkOut.value);
    if clash.Some? {
      return BadRequest;
    }
    var payment := PaymentOf(req.paymentStatus);
    if payment.None? {
      // Booking.create rejects the document: a validation error, not an ApiError
      return InternalError;
    }
    var b := Booking(req.userId.value, req.roomId.value, req.checkIn.value, req.checkOut.value,
                     Pending, payment.value, req.totalAmount.value);
    ghost var before := bookings.docs;
    var id := bookings.Insert(b);
    if NoDoubleBooking(before) {
      AppendPreservesNoDoubleBooking(before, id, b);
    }
    code := Created;
  }

  // ---------------------------------------------------------------------------
  // Lifecycle

  /** `confirmBooking`: 404 when absent, 400 when already Confirmed, and
      otherwise the booking becomes Confirmed whatever its status was,
      without looking at other bookings. */
  method ConfirmBooking(bookings: Collection<Booking>, id: nat) returns (code: int)
    requires bookings.Valid()
    modifies bookings
    ensures bookings.Valid()
    ensures !HasId(old(bookings.docs), id) ==> code == NotFound
    ensures HasId(old(bookings.docs), id) && Lookup(old(bookings.docs), id).value.status == Confirmed
            ==> code == BadRequest
    ensures HasId(old(bookings.docs), id) && Lookup(old(bookings.docs), id).value.status != Confirmed
            ==> code == OK
    ensures code != OK ==> bookings.docs == old(bookings.docs)
    ensures code == OK ==>
      && Lookup(old(bookings.docs), id).Some? && Lookup(old(bookings.docs), id).value.status != Confirmed
      && var k := Find(old(bookings.docs), id).value;
         bookings.docs == old(bookings.docs)[k := Doc(id, old(bookings.docs)[k].val.(status := Confirmed))]
    ensures (&& NoDoubleBooking(old(bookings.docs)) && HasId(old(bookings.docs), id)
             && Lookup(old(bookings.docs), id).value.status == Pending) ==> NoDoubleBooking(bookings.docs)
  {
    var k := Find(bookings.docs, id);
    if k.None? {
      return NotFound;
    }
    var b := bookings.docs[k.value].val;
    if b.status == Confirmed {
      return BadRequest;
    }
    ghost var before := bookings.docs;
    bookings.Put(k.value, b.(status := Confirmed));
    if NoDoubleBooking(before) && b.status == Pending {
      ConfirmPendingPreservesNoDoubleBooking(before, k.value);
    }
    code := OK;
  }

  /** `checkInBooking` as written: 404 when absent, 400 unless Confirmed; then
      the room is given the status "Booked", which the room schema rejects, so
      the handler fails with 500 (or with 500 from a `TypeError` when the room
      is gone) and nothing is stored. The booking's own status is never written. */
  method CheckInBooking(bookings: Collection<Booking>, rooms: Collection<Room>, id: nat) returns (code: int)
    requires bookings.Valid() && rooms.Valid() && UniqueNumbers(rooms.docs)
    modifies rooms
    ensures rooms.Valid() && UniqueNumbers(rooms.docs)
    ensures rooms.docs == old(rooms.docs)
    ensures !HasId(bookings.docs, id) ==> code == NotFound
    ensures HasId(bookings.docs, id) && Lookup(bookings.docs, id).value.status != Confirmed ==> code == BadRequest
    ensures HasId(bookings.docs, id) && Lookup(bookings.docs, id).value.status == Confirmed ==> code == InternalError
  {
    var k := Find(bookings.docs, id);
    if k.None? {
      return NotFound;
    }
    var b := bookings.docs[k.value].val;
    if b.status != Confirmed {
      return BadRequest;
    }
    var r := Find(rooms.docs, b.roomId);
    if r.None? {
      // `room.status = ...` on a null room throws a TypeError
      return InternalError;
    }
    CapitalisedNotInEnum();
    var saved := SaveRoom(rooms, r.value, rooms.docs[r.value].val.(status := "Booked"));
    code := if saved then OK else InternalError;
  }

  /** `checkInBooking` with the room status spelled as the enum spells it: a
      Confirmed booking checks in exactly when its room is stored and is valid
      with the status "booked"; only that room's status changes. Otherwise
      the answer is 500 (a missing room, or one an update left without a
      number or type). */
  method CheckInBookingCorrected(bookings: Collection<Booking>, rooms: Collection<Room>, id: nat)
    returns (code: int)
    requires bookings.Valid() && rooms.Valid() && UniqueNumbers(rooms.docs)
    modifies rooms
    ensures rooms.Valid() && UniqueNumbers(rooms.docs)
    ensures !HasId(bookings.docs, id) ==> code == NotFound
    ensures HasId(bookings.docs, id) && Lookup(bookings.docs, id).value.status != Confirmed ==> code == BadRequest
    ensures HasId(bookings.docs, id) && Lookup(bookings.docs, id).value.status == Confirmed ==>
      var room := Lookup(old(rooms.docs), Lookup(bookings.docs, id).value.roomId);
      && (code == OK <==> room.Some? && ValidRoom(room.value.(status := "booked")))
      && (code != OK ==> code == InternalError)
    ensures code != OK ==> rooms.docs == old(rooms.docs)
    ensures code == OK ==>
      && HasId(bookings.docs, id)
      && var roomId := Lookup(bookings.docs, id).value.roomId;
         var k := Find(old(rooms.docs), roomId);
         k.Some? && rooms.docs == old(rooms.docs)[k.value := Doc(roomId, old(rooms.docs)[k.value].val.(status := "booked"))]
  {
    var k := Find(bookings.docs, id);
    if k.None? {
      return NotFound;
    }
    var b := bookings.docs[k.value].val;
    if b.status != Confirmed {
      return BadRequest;
    }
    var r := Find(rooms.docs, b.roomId);
    if r.None? {
      return InternalError;
    }
    var room := rooms.docs[r.value].val;
    assert !NumberTaken(rooms.docs, room.roomNumber, b.roomId);
    var saved := SaveRoom(rooms, r.value, room.(status := "booked"));
    code := if saved then OK else InternalError;
  }

  /** `checkOutBooking` as written: 404 when absent; otherwise the booking is
      saved as Completed whatever its status, and then the room is given the
      status "Cleaning", which the room schema rejects. The handler thus fails
      with 500 after the booking has already been completed. */
  method CheckOutBooking(bookings: Collection<Booking>, rooms: Collection<Room>, id: nat) returns (code: int)
    requires bookings.Valid() && rooms.Valid() && UniqueNumbers(rooms.docs)
    modifies bookings, rooms
    ensures bookings.Valid() && rooms.Valid() && UniqueNumbers(rooms.docs)
    ensures rooms.docs == old(rooms.docs)
    ensures !HasId(old(bookings.docs), id) ==> code == NotFound && bookings.docs == old(bookings.docs)
    ensures HasId(old(bookings.docs), id) ==>
      && code == InternalError
      && var k := Find(old(bookings.docs), id).value;
         bookings.docs == old(bookings.docs)[k := Doc(id, old(bookings.docs)[k].val.(status := Completed))]
    ensures NoDoubleBooking(old(bookings.docs)) ==> NoDoubleBooking(bookings.docs)
  {
    var k := Find(bookings.docs, id);
    if k.None? {
      return NotFound;
    }
    var b := bookings.docs[k.value].val;
    ghost var before := bookings.docs;
    bookings.Put(k.value, b.(status := Completed));
    if NoDoubleBooking(before) {
      CompletePreservesNoDoubleBooking(before, k.value);
    }
    var r := Find(rooms.docs, b.roomId);
    if r.None? {
      return InternalError;
    }
    CapitalisedNotInEnum();
    var saved := SaveRoom(rooms, r.value, rooms.docs[r.value].val.(status := "Cleaning"));
    code := if saved then OK else InternalError;
  }

  /** `checkOutBooking` with the room status spelled as the enum spells it:
      the booking is completed; the handler answers 200, and the room's status
      becomes "cleaning", exactly when the room is stored and is valid with
      that status, and 500 otherwise. */
  method CheckOutBookingCorrected(bookings: Collection<Booking>, rooms: Collection<Room>, id: nat)
    returns (code: int)
    requires bookings.Valid() && rooms.Valid() && UniqueNumbers(rooms.docs)
    modifies bookings, rooms
    ensures bookings.Valid() && rooms.Valid() && UniqueNumbers(rooms.docs)
    ensures !HasId(old(bookings.docs), id) ==> code == NotFound && bookings.docs == old(bookings.docs)
    ensures HasId(old(bookings.docs), id) ==>
      var k := Find(old(bookings.docs), id).value;
      bookings.docs == old(bookings.docs)[k := Doc(id, old(bookings.docs)[k].val.(status := Completed))]
    ensures HasId(old(bookings.docs), id) ==>
      var room := Lookup(old(rooms.docs), Lookup(old(bookings.docs), id).value.roomId);
      && (code == OK <==> room.Some? && ValidRoom(room.value.(status := "cleaning")))
      && (code != OK ==> code == InternalError)
    ensures code != OK ==> rooms.docs == old(rooms.docs)
    ensures code == OK ==>
      && HasId(old(bookings.docs), id)
      && var roomId := Lookup(old(bookings.docs), id).value.roomId;
         var r := Find(old(rooms.docs), roomId);
         r.Some? && rooms.docs == old(rooms.docs)[r.value := Doc(roomId, old(rooms.docs)[r.value].val.(status := "cleaning"))]
  {
    var k := Find(bookings.docs, id);
    if k.None? {
      return NotFound;
    }
    var b := bookings.docs[k.value].val;
    bookings.Put(k.value, b.(status := Completed));
    var r := Find(rooms.docs, b.roomId);
    if r.None? {
      return InternalError;
    }
    var room := rooms.docs[r.value].val;
    assert !NumberTaken(rooms.docs, room.roomNumber, b.roomId);
    var saved := SaveRoom(rooms, r.value, room.(status := "cleaning"));
    code := if saved then OK else InternalError;
  }

  // ---------------------------------------------------------------------------
  // Read-only projections

  ghost predicate NewestFirst(s: seq<Doc<Booking>>) {
    forall i, j :: 0 <= i < j < |s| ==> s[i].val.checkIn >= s[j].val.checkIn
  }

  function InsertNewestFirst(d: Doc<Booking>, s: seq<Doc<Booking>>): (r: seq<Doc<Booking>>)
    requires NewestFirst(s)
    ensures NewestFirst(r) && multiset(r) == multiset(s) + multiset{d}
    ensures r[0] == d || (s != [] && r[0] == s[0])
  {
    if s == [] || d.val.checkIn >= s[0].val.checkIn then
      [d] + s
    else
      var rest := InsertNewestFirst(d, s[1..]);
      assert s == [s[0]] + s[1..];
      assert s[0].val.checkIn >= rest[0].val.checkIn;
      [s[0]] + rest
  }

  /** `.sort({ checkIn: -1 })`: the same bookings, latest check-in first
      (the order among equal check-ins is left open). */
  function SortNewestFirst(s: seq<Doc<Booking>>): (r: seq<Doc<Booking>>)
    ensures NewestFirst(r) && multiset(r) == multiset(s)
  {
    if s == [] then []
    else
      assert s == [s[0]] + s[1..];
      InsertNewestFirst(s[0], SortNewestFirst(s[1..]))
  }

  /** The query `find({ userId })`. */
  function OfUser(docs: seq<Doc<Booking>>, userId: nat): (r: seq<Doc<Booking>>)
    ensures forall i :: 0 <= i < |r| ==> r[i] in docs && r[i].val.userId == userId
    ensures forall i :: 0 <= i < |docs| && docs[i].val.userId == userId ==> docs[i] in r
  {
    if docs == [] then []
    else
      var rest := OfUser(docs[1..], userId);
      assert forall i :: 1 <= i < |docs| ==> docs[i] == docs[1..][i - 1];
      if docs[0].val.userId == userId then [docs[0]] + rest else rest
  }

  /** `getUserBookings`: exactly the user's bookings, latest check-in first. */
  method GetUserBookings(bookings: Collection<Booking>, userId: nat) returns (code: int, history: seq<Doc<Booking>>)
    ensures code == OK && NewestFirst(history)
    ensures multiset(history) == multiset(OfUser(bookings.docs, userId))
    ensures forall d :: d in history <==> d in bookings.docs && d.val.userId == userId
  {
    history := SortNewestFirst(OfUser(bookings.docs, userId));
    forall d | d in history ensures d in bookings.docs && d.val.userId == userId {
      assert d in multiset(history);
    }
    forall d | d in bookings.docs && d.val.userId == userId ensures d in history {
      assert d in multiset(OfUser(bookings.docs, userId));
    }
    code := OK;
  }

  /** `getAllBookings`: every booking, latest check-in first. */
  method GetAllBookings(bookings: Collection<Booking>) returns (code: int, all: seq<Doc<Booking>>)
    ensures code == OK && NewestFirst(all) && multiset(all) == multiset(bookings.docs)
  {
    all := SortNewestFirst(bookings.docs);
    code := OK;
  }

  /** What the projection "name number type status" keeps of a room: rooms
      have neither `name` nor `number`, so only the id, type and status. */
  datatype RoomStatusView = RoomStatusView(id: nat, roomType: string, status: string)

  /** `getAllRoomsStatuses`: one view per room, in store order. */
  method GetAllRoomsStatuses(rooms: Collection<Room>) returns (code: int, views: seq<RoomStatusView>)
    ensures code == OK && |views| == |rooms.docs|
    ensures forall i :: 0 <= i < |views| ==>
      views[i] == RoomStatusView(rooms.docs[i].id, rooms.docs[i].val.roomType, rooms.docs[i].val.status)
  {
    views := seq(|rooms.docs|, i requires 0 <= i < |rooms.docs| reads rooms =>
                 RoomStatusView(rooms.docs[i].id, rooms.docs[i].val.roomType, rooms.docs[i].val.status));
    code := OK;
  }
}
