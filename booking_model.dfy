/** The Booking schema (models/Booking.model.js) and the date-overlap test
    the booking handlers put to the collection. Dates are whole numbers
    (e.g. days or milliseconds since the epoch); a stay is the half-open
    range [checkIn, checkOut). */
module BookingModel {

  import opened Wrappers
  import opened Store

  datatype BookingStatus = Pending | Confirmed | Cancelled | Completed

  datatype PaymentStatus = PaymentPending | Paid | Failed

  /** A booking document. Every field the schema marks required is present
      by construction; the schema does not relate `checkIn` to `checkOut`
      and does not bound `totalAmount`. */
  datatype Booking = Booking(userId: nat, roomId: nat, checkIn: int, checkOut: int,
                             status: BookingStatus, paymentStatus: PaymentStatus,
                             totalAmount: int)

  function StatusName(s: BookingStatus): string {
    match s
    case Pending => "Pending"
    case Confirmed => "Confirmed"
    case Cancelled => "Cancelled"
    case Completed => "Completed"
  }

  /** The `status` enum validator. */
  function ParseStatus(s: string): (r: Option<BookingStatus>)
    ensures r.Some? ==> StatusName(r.value) == s
  {
    if s == "Pending" then Some(Pending)
    else if s == "Confirmed" then Some(Confirmed)
    else if s == "Cancelled" then Some(Cancelled)
    else if s == "Completed" then Some(Completed)
    else None
  }

  function PaymentName(p: PaymentStatus): string {
    match p
    case PaymentPending => "Pending"
    case Paid => "Paid"
    case Failed => "Failed"
  }

  /** The `paymentStatus` enum validator: only the three names are accepted. */
  function ParsePayment(s: string): (r: Option<PaymentStatus>)
    ensures r.Some? ==> PaymentName(r.value) == s
    ensures r.Some? <==> s in ["Pending", "Paid", "Failed"]
  {
    if s == "Pending" then Some(PaymentPending)
    else if s == "Paid" then Some(Paid)
    else if s == "Failed" then Some(Failed)
    else None
  }

  /** Every stored status and payment status reads back as itself. */
  lemma EnumRoundTrip(s: BookingStatus, p: PaymentStatus)
    ensures ParseStatus(StatusName(s)) == Some(s)
    ensures ParsePayment(PaymentName(p)) == Some(p)
  {
    match s
    case Pending =>
    case Confirmed =>
    case Cancelled =>
    case Completed =>
  }

  /** Only Pending and Confirmed bookings hold a room. */
  predicate Blocking(b: Booking) {
    b.status == Pending || b.status == Confirmed
  }

  /** The three-clause test of an existing booking against a requested range:
      it starts inside [checkIn, checkOut), or it ends inside (checkIn, checkOut],
      or it encloses [checkIn, checkOut]. */
  predicate Clashes(existing: Booking, checkIn: int, checkOut: int) {
    || (existing.checkIn < checkOut && existing.checkIn >= checkIn)
    || (existing.checkOut > checkIn && existing.checkOut <= checkOut)
    || (existing.checkIn <= checkIn && existing.checkOut >= checkOut)
  }

  /** Ordinary overlap of the half-open ranges of a booking and a request. */
  predicate Overlaps(existing: Booking, checkIn: int, checkOut: int) {
    existing.checkIn < checkOut && checkIn < existing.checkOut
  }

  /** Every ordinary overlap is caught by the three-clause test, whatever the ranges. */
  lemma OverlapImpliesClash(existing: Booking, checkIn: int, checkOut: int)
    ensures Overlaps(existing, checkIn, checkOut) ==> Clashes(existing, checkIn, checkOut)
  {
  }

  /** For well-formed ranges the three-clause test is exactly ordinary overlap,
      so a stay that starts on another's check-out day does not clash. */
  lemma ClashIsOverlap(existing: Booking, checkIn: int, checkOut: int)
    requires existing.checkIn < existing.checkOut && checkIn < checkOut
    ensures Clashes(existing, checkIn, checkOut) <==> Overlaps(existing, checkIn, checkOut)
  {
  }

  /** Without well-formed ranges the two tests differ: an empty request on an
      existing booking's first day clashes without overlapping. */
  lemma EmptyRequestClashes()
    ensures var b := Booking(0, 0, 3, 5, Confirmed, PaymentPending, 100);
            Clashes(b, 3, 3) && !Overlaps(b, 3, 3)
  {
  }

  /** Two bookings hold the same room over overlapping dates. */
  predicate DoubleBooked(a: Booking, b: Booking) {
    a.roomId == b.roomId && Blocking(a) && Blocking(b) && Overlaps(a, b.checkIn, b.checkOut)
  }

  /** The intended invariant of the collection: no room is double-booked. */
  ghost predicate NoDoubleBooking(docs: seq<Doc<Booking>>) {
    forall i, j :: 0 <= i < |docs| && 0 <= j < |docs| && i != j ==> !DoubleBooked(docs[i].val, docs[j].val)
  }

  /** The query `findOne({ roomId, status ∈ {Pending, Confirmed}, <three clauses> })`:
      the first booking that blocks the room for the requested range. */
  function FindClash(docs: seq<Doc<Booking>>, roomId: nat, checkIn: int, checkOut: int): (r: Option<nat>)
    ensures r.Some? ==>
      && r.value < |docs| && docs[r.value].val.roomId == roomId
      && Blocking(docs[r.value].val) && Clashes(docs[r.value].val, checkIn, checkOut)
    ensures r.None? <==> !RoomBlocked(docs, roomId, checkIn, checkOut)
  {
    if docs == [] then None
    else
      var b := docs[0].val;
      if b.roomId == roomId && Blocking(b) && Clashes(b, checkIn, checkOut) then Some(0)
      else match FindClash(docs[1..], roomId, checkIn, checkOut)
        case None =>
          assert forall i :: 1 <= i < |docs| ==> docs[i] == docs[1..][i - 1];
          None
        case Some(k) => Some(k + 1)
  }

  /** Some blocking booking of the room clashes with the requested range. */
  ghost predicate RoomBlocked(docs: seq<Doc<Booking>>, roomId: nat, checkIn: int, checkOut: int) {
    exists i :: 0 <= i < |docs| && docs[i].val.roomId == roomId && Blocking(docs[i].val)
             && Clashes(docs[i].val, checkIn, checkOut)
  }

  /** Adding a blocking booking the clash query let through keeps every room
      free of double bookings. No well-formedness of ranges is needed, because
      the three-clause test catches every ordinary overlap. */
  lemma AppendPreservesNoDoubleBooking(docs: seq<Doc<Booking>>, id: nat, b: Booking)
    requires NoDoubleBooking(docs)
    requires !RoomBlocked(docs, b.roomId, b.checkIn, b.checkOut)
    ensures NoDoubleBooking(docs + [Doc(id, b)])
  {
    var all := docs + [Doc(id, b)];
    forall i, j | 0 <= i < |all| && 0 <= j < |all| && i != j
      ensures !DoubleBooked(all[i].val, all[j].val)
    {
      if j == |docs| {
        OverlapImpliesClash(all[i].val, b.checkIn, b.checkOut);
      } else if i == |docs| {
        OverlapImpliesClash(all[j].val, b.checkIn, b.checkOut);
      } else {
        assert all[i] == docs[i] && all[j] == docs[j];
      }
    }
  }

  /** Confirming a Pending booking leaves the set of blocking bookings as it
      was, so it cannot create a double booking. */
  lemma ConfirmPendingPreservesNoDoubleBooking(docs: seq<Doc<Booking>>, k: nat)
    requires NoDoubleBooking(docs) && k < |docs| && docs[k].val.status == Pending
    ensures NoDoubleBooking(docs[k := Doc(docs[k].id, docs[k].val.(status := Confirmed))])
  {
    var after := docs[k := Doc(docs[k].id, docs[k].val.(status := Confirmed))];
    forall i, j | 0 <= i < |after| && 0 <= j < |after| && i != j
      ensures !DoubleBooked(after[i].val, after[j].val)
    {
      assert DoubleBooked(after[i].val, after[j].val) == DoubleBooked(docs[i].val, docs[j].val);
    }
  }

  /** Confirming a Cancelled (or Completed) booking does not look at other
      bookings, and can double-book a room. */
  lemma ConfirmCanDoubleBook()
    ensures var docs := [Doc(0, Booking(1, 7, 10, 15, Confirmed, Paid, 300)),
                         Doc(1, Booking(2, 7, 12, 14, Cancelled, PaymentPending, 200))];
            NoDoubleBooking(docs)
            && !NoDoubleBooking(docs[1 := Doc(1, docs[1].val.(status := Confirmed))])
  {
    var docs := [Doc(0, Booking(1, 7, 10, 15, Confirmed, Paid, 300)),
                 Doc(1, Booking(2, 7, 12, 14, Cancelled, PaymentPending, 200))];
    var after := docs[1 := Doc(1, docs[1].val.(status := Confirmed))];
    assert DoubleBooked(after[0].val, after[1].val);
  }

  /** Completing a booking releases its room: it cannot create a double booking. */
  lemma CompletePreservesNoDoubleBooking(docs: seq<Doc<Booking>>, k: nat)
    requires NoDoubleBooking(docs) && k < |docs|
    ensures NoDoubleBooking(docs[k := Doc(docs[k].id, docs[k].val.(status := Completed))])
  {
    var after := docs[k := Doc(docs[k].id, docs[k].val.(status := Completed))];
    forall i, j | 0 <= i < |after| && 0 <= j < |after| && i != j
      ensures !DoubleBooked(after[i].val, after[j].val)
    {
      if i != k && j != k {
        assert after[i] == docs[i] && after[j] == docs[j];
      }
    }
  }
}
