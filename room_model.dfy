/** The Room schema (models/Room.model.js): a room document, its status
    enum and defaults, and what saving a room to the collection checks. */
module RoomModel {

  import opened Wrappers
  import opened Text
  import opened Store

  /** One entry of the `images` list: the storage id and the public URL. */
  datatype Image = Image(publicId: string, url: string)

  /** A room document. `status` is a plain string because handlers assign
      arbitrary strings to it; the schema only checks it when saving. */
  datatype Room = Room(roomNumber: string, roomType: string, price: int, status: string,
                       images: seq<Image>, description: Option<string>, amenities: seq<string>)

  /** The `status` enum; the comparison is case-sensitive. */
  const RoomStatuses: seq<string> := ["available", "booked", "occupied", "cleaning", "maintenance"]

  const DefaultStatus: string := "available"

  /** The enum is lower-case: the capitalised names are not in it. */
  lemma CapitalisedNotInEnum()
    ensures "Booked" !in RoomStatuses && "Cleaning" !in RoomStatuses
  {
    assert "Booked"[0] != "booked"[0] && "Cleaning"[0] != "cleaning"[0];
  }

  /** The schema's validators: `roomNumber` and `type` are required (a string
      that is empty after trimming is missing), `status` is in the enum. */
  predicate ValidRoom(r: Room) {
    r.roomNumber != "" && r.roomType != "" && r.status in RoomStatuses
  }

  /** The unique index on `roomNumber`. */
  ghost predicate UniqueNumbers(docs: seq<Doc<Room>>) {
    forall i, j :: 0 <= i < j < |docs| ==> docs[i].val.roomNumber != docs[j].val.roomNumber
  }

  /** Some document other than `id` already uses `number`. */
  predicate NumberTaken(docs: seq<Doc<Room>>, number: string, id: nat) {
    exists i :: 0 <= i < |docs| && docs[i].id != id && docs[i].val.roomNumber == number
  }

  /** A room whose number no other room uses keeps the numbers unique when appended. */
  lemma AppendKeepsNumbersUnique(docs: seq<Doc<Room>>, d: Doc<Room>)
    requires UniqueNumbers(docs) && !HasId(docs, d.id) && !NumberTaken(docs, d.val.roomNumber, d.id)
    ensures UniqueNumbers(docs + [d])
  {
  }

  /** The fields the create handler reads from the body; `None` is an absent field. */
  datatype RoomInput = RoomInput(roomNumber: Option<string>, roomType: Option<string>, price: Option<int>,
                                 status: Option<string>, amenities: Option<seq<string>>)

  function TrimOpt(s: Option<string>): Option<string> {
    match s case None => None case Some(t) => Some(Trim(t))
  }

  /** `new Room(input)` and its validation: strings are trimmed, absent fields
      take their defaults, and the result is `None` when a validator fails. */
  function BuildRoom(input: RoomInput): (r: Option<Room>)
    ensures r.Some? <==>
      && input.roomNumber.Some? && Trim(input.roomNumber.value) != ""
      && input.roomType.Some? && Trim(input.roomType.value) != ""
      && input.price.Some?
      && (input.status.None? || input.status.value in RoomStatuses)
    ensures r.Some? ==> ValidRoom(r.value) && r.value.images == [] && r.value.description.None?
    ensures r.Some? ==>
      && r.value.roomNumber == Trim(input.roomNumber.value)
      && r.value.roomType == Trim(input.roomType.value)
      && r.value.price == input.price.value
    ensures r.Some? && input.status.None? ==> r.value.status == DefaultStatus
    ensures r.Some? && input.status.Some? ==> r.value.status == input.status.value
    ensures r.Some? && input.amenities.None? ==> r.value.amenities == []
    ensures r.Some? && input.amenities.Some? ==> r.value.amenities == input.amenities.value
  {
    var room := Room(
      match input.roomNumber case Some(n) => Trim(n) case None => "",
      match input.roomType case Some(t) => Trim(t) case None => "",
      match input.price case Some(p) => p case None => 0,
      match input.status case Some(s) => s case None => DefaultStatus,
      [],
      None,
      match input.amenities case Some(a) => a case None => []);
    if input.roomNumber.Some? && input.roomType.Some? && input.price.Some? && ValidRoom(room)
    then Some(room) else None
  }

  /** An update body as `findByIdAndUpdate` receives it; `None` leaves a field alone. */
  datatype RoomPatch = RoomPatch(roomNumber: Option<string>, roomType: Option<string>, price: Option<int>,
                                 status: Option<string>, description: Option<string>,
                                 amenities: Option<seq<string>>, images: Option<seq<Image>>)

  function Pick<T>(given: Option<T>, current: T): T {
    match given case Some(v) => v case None => current
  }

  /** The room after an update: every supplied field overwrites the stored one
      (strings trimmed by the schema's setters); no validator runs. */
  function ApplyPatch(r: Room, p: RoomPatch): (u: Room)
    ensures p.roomNumber.None? ==> u.roomNumber == r.roomNumber
    ensures p.roomNumber.Some? ==> u.roomNumber == Trim(p.roomNumber.value)
    ensures p.roomType.None? ==> u.roomType == r.roomType
    ensures p.roomType.Some? ==> u.roomType == Trim(p.roomType.value)
    ensures p.status.None? ==> u.status == r.status
    ensures p.status.Some? ==> u.status == p.status.value
    ensures p.price.None? ==> u.price == r.price
    ensures p.price.Some? ==> u.price == p.price.value
    ensures p.images.None? ==> u.images == r.images
    ensures p.images.Some? ==> u.images == p.images.value
    ensures p.amenities.None? ==> u.amenities == r.amenities
    ensures p.amenities.Some? ==> u.amenities == p.amenities.value
    ensures p.description.None? ==> u.description == r.description
    ensures p.description.Some? ==> u.description == Some(Trim(p.description.value))
  {
    Room(Pick(TrimOpt(p.roomNumber), r.roomNumber), Pick(TrimOpt(p.roomType), r.roomType),
         Pick(p.price, r.price), Pick(p.status, r.status), Pick(p.images, r.images),
         match p.description case Some(d) => Some(Trim(d)) case None => r.description,
         Pick(p.amenities, r.amenities))
  }

  /** Sending the same update twice leaves the room as sending it once. */
  lemma {:induction false} PatchIdempotent(r: Room, p: RoomPatch)
    ensures ApplyPatch(ApplyPatch(r, p), p) == ApplyPatch(r, p)
  {
    var u := ApplyPatch(r, p);
    var v := ApplyPatch(u, p);
    if p.roomNumber.Some? {
      TrimIdempotent(p.roomNumber.value);
    }
    assert v.roomNumber == u.roomNumber;
    if p.roomType.Some? {
      TrimIdempotent(p.roomType.value);
    }
    assert v.roomType == u.roomType;
    if p.description.Some? {
      TrimIdempotent(p.description.value);
    }
    assert v.description == u.description;
  }

  /** An update body with no fields leaves the room as it was. */
  lemma EmptyPatchKeepsRoom(r: Room)
    ensures ApplyPatch(r, RoomPatch(None, None, None, None, None, None, None)) == r
  {
  }

  /** An update may store a status outside the enum, since nothing validates it. */
  lemma PatchCanLeaveEnum()
    ensures var r := Room("101", "suite", 120, "available", [], None, []);
            var u := ApplyPatch(r, RoomPatch(None, None, None, Some("Booked"), None, None, None));
            ValidRoom(r) && !ValidRoom(u)
  {
    var u := ApplyPatch(Room("101", "suite", 120, "available", [], None, []),
                        RoomPatch(None, None, None, Some("Booked"), None, None, None));
    assert u.status == "Booked";
    assert u.status != RoomStatuses[0] && u.status != RoomStatuses[1] && u.status != RoomStatuses[2]
        && u.status != RoomStatuses[3] && u.status != RoomStatuses[4];
  }

  /** `room.save()` for the room stored at position `k`: the validators run on
      the whole document and the unique index on `roomNumber` is enforced;
      the write happens only when both pass. */
  method SaveRoom(rooms: Collection<Room>, k: nat, room: Room) returns (ok: bool)
    requires rooms.Valid() && UniqueNumbers(rooms.docs) && k < |rooms.docs|
    modifies rooms
    ensures rooms.Valid() && UniqueNumbers(rooms.docs)
    ensures ok <==> ValidRoom(room) && !NumberTaken(old(rooms.docs), room.roomNumber, old(rooms.docs)[k].id)
    ensures ok ==> rooms.docs == old(rooms.docs)[k := Doc(old(rooms.docs)[k].id, room)]
    ensures !ok ==> rooms.docs == old(rooms.docs)
  {
    ok := ValidRoom(room) && !NumberTaken(rooms.docs, room.roomNumber, rooms.docs[k].id);
    if ok {
      rooms.Put(k, room);
    }
  }
}
