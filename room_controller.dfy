/** The room handlers (controller/RoomController.js): create, read, update
    and delete rooms, set a room's status against the enum, and attach or
    detach images. Image storage is an outside service: an upload maps a file
    path to the stored image or fails, a deletion succeeds or fails. */
module RoomController {

  import opened Wrappers
  import opened Store
  import opened Http
  import opened RoomModel

  /** How a handler ends: with a response, or by handing the request on with `next()`. */
  datatype Handled = Answered(status: int) | PassedOn

  /** `createRoom`. Its guard negates an array literal, which is never falsy,
      so it never answers 400; a missing or invalid field is caught by the
      schema instead, and that (like a duplicate room number) is a 500. */
  method CreateRoom(rooms: Collection<Room>, input: RoomInput) returns (code: int)
    requires rooms.Valid() && UniqueNumbers(rooms.docs)
    modifies rooms
    ensures rooms.Valid() && UniqueNumbers(rooms.docs)
    ensures code == Created || code == InternalError
    ensures code == Created <==>
      BuildRoom(input).Some? && !NumberTaken(old(rooms.docs), BuildRoom(input).value.roomNumber, old(rooms.nextId))
    ensures code == Created ==> rooms.docs == old(rooms.docs) + [Doc(old(rooms.nextId), BuildRoom(input).value)]
    ensures code != Created ==> rooms.docs == old(rooms.docs)
  {
    var room := BuildRoom(input);
    if room.None? {
      return InternalError;
    }
    if NumberTaken(rooms.docs, room.value.roomNumber, rooms.nextId) {
      // the unique index on roomNumber rejects the insert
      return InternalError;
    }
    AppendKeepsNumbersUnique(rooms.docs, Doc(rooms.nextId, room.value));
    var id := rooms.Insert(room.value);
    code := Created;
  }

  /** The guard `createRoom` evidently means: a room number, type or price
      that is absent or falsy (an empty string, a price of 0). */
  predicate MissingRoomField(input: RoomInput) {
    || input.roomNumber.None? || input.roomNumber.value == ""
    || input.roomType.None? || input.roomType.value == ""
    || input.price.None? || input.price.value == 0
  }

  /** `createRoom` with the guard testing each field: a missing field is
      answered with 400 before the schema is consulted; otherwise it behaves
      as `CreateRoom`. */
  method CreateRoomCorrected(rooms: Collection<Room>, input: RoomInput) returns (code: int)
    requires rooms.Valid() && UniqueNumbers(rooms.docs)
    modifies rooms
    ensures rooms.Valid() && UniqueNumbers(rooms.docs)
    ensures MissingRoomField(input) ==> code == BadRequest && rooms.docs == old(rooms.docs)
    ensures !MissingRoomField(input) ==>
      && (code == Created || code == InternalError)
      && (code == Created <==>
            BuildRoom(input).Some? && !NumberTaken(old(rooms.docs), BuildRoom(input).value.roomNumber, old(rooms.nextId)))
    ensures code == Created ==> rooms.docs == old(rooms.docs) + [Doc(old(rooms.nextId), BuildRoom(input).value)]
    ensures code != Created ==> rooms.docs == old(rooms.docs)
  {
    if MissingRoomField(input) {
      return BadRequest;
    }
    code := CreateRoom(rooms, input);
  }

  /** The upload of every file, in file order; `None` as soon as one fails. */
  function UploadAll(paths: seq<string>, upload: string -> Option<Image>): (r: Option<seq<Image>>)
    ensures r.Some? <==> forall i :: 0 <= i < |paths| ==> upload(paths[i]).Some?
    ensures r.Some? ==> |r.value| == |paths|
    ensures r.Some? ==> forall i :: 0 <= i < |paths| ==> upload(paths[i]) == Some(r.value[i])
  {
    if paths == [] then Some([])
    else
      var last := |paths| - 1;
      match UploadAll(paths[..last], upload)
      case None => None
      case Some(prefix) =>
        match upload(paths[last])
        case None => None
        case Some(img) => Some(prefix + [img])
  }

  /** `imagesupload`: 404 for an unknown room, `next()` when no file came,
      500 when an upload fails; otherwise the uploaded images are appended,
      in file order, after the room's existing ones. */
  method ImagesUpload(rooms: Collection<Room>, id: nat, files: seq<string>, upload: string -> Option<Image>)
    returns (h: Handled)
    requires rooms.Valid() && UniqueNumbers(rooms.docs)
    modifies rooms
    ensures rooms.Valid() && UniqueNumbers(rooms.docs)
    ensures !HasId(old(rooms.docs), id) ==> h == Answered(NotFound)
    ensures HasId(old(rooms.docs), id) && files == [] ==> h == PassedOn
    ensures HasId(old(rooms.docs), id) && UploadAll(files, upload).None? ==> h == Answered(InternalError)
    ensures (&& HasId(old(rooms.docs), id) && files != [] && UploadAll(files, upload).Some?
             && ValidRoom(Lookup(old(rooms.docs), id).value)) ==> h == Answered(OK)
    ensures (&& HasId(old(rooms.docs), id) && files != [] && UploadAll(files, upload).Some?
             && !ValidRoom(Lookup(old(rooms.docs), id).value)) ==> h == Answered(InternalError)
    ensures h != Answered(OK) ==> rooms.docs == old(rooms.docs)
    ensures h == Answered(OK) ==>
      && HasId(old(rooms.docs), id) && UploadAll(files, upload).Some?
      && var k := Find(old(rooms.docs), id).value;
         var room := old(rooms.docs)[k].val;
         rooms.docs == old(rooms.docs)[k := Doc(id, room.(images := room.images + UploadAll(files, upload).value))]
  {
    var k := Find(rooms.docs, id);
    if k.None? {
      return Answered(NotFound);
    }
    if files == [] {
      return PassedOn;
    }
    var uploaded := [];
    var i := 0;
    while i < |files|
      invariant 0 <= i <= |files|
      invariant UploadAll(files[..i], upload) == Some(uploaded)
    {
      assert files[..i + 1][..i] == files[..i];
      var img := upload(files[i]);
      if img.None? {
        // uploadRoomImages rethrows every failure as ApiError(500)
        assert forall j :: 0 <= j < |files| && upload(files[j]).None? ==> UploadAll(files, upload).None?;
        return Answered(InternalError);
      }
      uploaded := uploaded + [img.value];
      i := i + 1;
    }
    assert files[..i] == files;
    var room := rooms.docs[k.value].val;
    assert !NumberTaken(rooms.docs, room.roomNumber, id);
    var saved := SaveRoom(rooms, k.value, room.(images := room.images + uploaded));
    h := if saved then Answered(OK) else Answered(InternalError);
  }

  /** The images whose public id is not listed, in their original order. */
  function KeepUnlisted(images: seq<Image>, ids: seq<string>): (r: seq<Image>)
    ensures |r| <= |images|
  {
    if images == [] then []
    else (if images[0].publicId in ids then [] else [images[0]]) + KeepUnlisted(images[1..], ids)
  }

  /** Exactly the images with an unlisted public id remain. */
  lemma {:induction false} KeepUnlistedExact(images: seq<Image>, ids: seq<string>)
    ensures var r := KeepUnlisted(images, ids);
      && (forall i :: 0 <= i < |r| ==> r[i] in images && r[i].publicId !in ids)
      && (forall i :: 0 <= i < |images| && images[i].publicId !in ids ==> images[i] in r)
  {
    if images != [] {
      KeepUnlistedExact(images[1..], ids);
      assert forall i :: 1 <= i < |images| ==> images[i] == images[1..][i - 1];
    }
  }

  /** Filtering one id after the others is filtering them all at once. */
  lemma {:induction false} KeepUnlistedStep(images: seq<Image>, ids: seq<string>, id: string)
    ensures KeepUnlisted(KeepUnlisted(images, ids), [id]) == KeepUnlisted(images, ids + [id])
  {
    if images != [] {
      KeepUnlistedStep(images[1..], ids, id);
      var head := if images[0].publicId in ids then [] else [images[0]];
      KeepUnlistedAppend(head, KeepUnlisted(images[1..], ids), [id]);
      if images[0].publicId !in ids {
        assert [images[0]][1..] == [];
      }
    }
  }

  lemma {:induction false} KeepUnlistedAppend(a: seq<Image>, b: seq<Image>, ids: seq<string>)
    ensures KeepUnlisted(a + b, ids) == KeepUnlisted(a, ids) + KeepUnlisted(b, ids)
  {
    if a != [] {
      assert (a + b)[1..] == a[1..] + b;
      KeepUnlistedAppend(a[1..], b, ids);
    } else {
      assert a + b == b;
    }
  }

  /** The `public_ids` field of the body. */
  datatype IdList = Absent | NotAList | Ids(ids: seq<string>)

  /** `deleteRoomImages`: 404 for an unknown room, `next()` when no list of ids
      came; otherwise each listed image is deleted from storage (500 if that
      fails, with nothing saved) and removed from the room's list. */
  method DeleteRoomImages(rooms: Collection<Room>, id: nat, publicIds: IdList, destroy: string -> bool)
    returns (h: Handled)
    requires rooms.Valid() && UniqueNumbers(rooms.docs)
    modifies rooms
    ensures rooms.Valid() && UniqueNumbers(rooms.docs)
    ensures !HasId(old(rooms.docs), id) ==> h == Answered(NotFound)
    ensures HasId(old(rooms.docs), id) && (publicIds.Absent? || publicIds.NotAList? || publicIds == Ids([]))
            ==> h == PassedOn
    ensures (&& HasId(old(rooms.docs), id) && publicIds.Ids? && publicIds.ids != []
             && (forall i :: 0 <= i < |publicIds.ids| ==> destroy(publicIds.ids[i]))
             && ValidRoom(Lookup(old(rooms.docs), id).value)) ==> h == Answered(OK)
    ensures (&& HasId(old(rooms.docs), id) && publicIds.Ids?
             && (exists i :: 0 <= i < |publicIds.ids| && !destroy(publicIds.ids[i]))) ==> h == Answered(InternalError)
    ensures (&& HasId(old(rooms.docs), id) && publicIds.Ids? && publicIds.ids != []
             && !ValidRoom(Lookup(old(rooms.docs), id).value)) ==> h == Answered(InternalError)
    ensures h != Answered(OK) ==> rooms.docs == old(rooms.docs)
    ensures h == Answered(OK) ==>
      && HasId(old(rooms.docs), id) && publicIds.Ids?
      && var k := Find(old(rooms.docs), id).value;
         var room := old(rooms.docs)[k].val;
         rooms.docs == old(rooms.docs)[k := Doc(id, room.(images := KeepUnlisted(room.images, publicIds.ids)))]
  {
    var k := Find(rooms.docs, id);
    if k.None? {
      return Answered(NotFound);
    }
    if !publicIds.Ids? || publicIds.ids == [] {
      return PassedOn;
    }
    var ids := publicIds.ids;
    var room := rooms.docs[k.value].val;
    var images := room.images;
    var i := 0;
    assert ids[..0] == [];
    KeepUnlistedNone(images);
    while i < |ids|
      invariant 0 <= i <= |ids|
      invariant images == KeepUnlisted(room.images, ids[..i])
      invariant forall j :: 0 <= j < i ==> destroy(ids[j])
      invariant unchanged(rooms)
    {
      if !destroy(ids[i]) {
        // deleteImage rethrows the storage failure as ApiError(500)
        return Answered(InternalError);
      }
      KeepUnlistedStep(room.images, ids[..i], ids[i]);
      assert ids[..i + 1] == ids[..i] + [ids[i]];
      images := KeepUnlisted(images, [ids[i]]);
      i := i + 1;
    }
    assert ids[..i] == ids;
    assert !NumberTaken(rooms.docs, room.roomNumber, id);
    var saved := SaveRoom(rooms, k.value, room.(images := images));
    h := if saved then Answered(OK) else Answered(InternalError);
  }

  lemma {:induction false} KeepUnlistedNone(images: seq<Image>)
    ensures KeepUnlisted(images, []) == images
  {
    if images != [] {
      KeepUnlistedNone(images[1..]);
    }
  }

  /** `getRoomById`: the room, or 404. */
  method GetRoomById(rooms: Collection<Room>, id: nat) returns (code: int, room: Option<Room>)
    ensures code == NotFound <==> !HasId(rooms.docs, id)
    ensures code == OK <==> HasId(rooms.docs, id)
    ensures room.Some? ==> exists i :: 0 <= i < |rooms.docs| && rooms.docs[i] == Doc(id, room.value)
    ensures room.Some? <==> code == OK
  {
    room := Lookup(rooms.docs, id);
    code := if room.Some? then OK else NotFound;
  }

  /** `updateRoom`: 404 for an unknown room; otherwise the supplied fields
      overwrite the stored ones with no validation at all (in particular no
      status check). Only the unique index on the room number can refuse it (500). */
  method UpdateRoom(rooms: Collection<Room>, id: nat, patch: RoomPatch) returns (code: int)
    requires rooms.Valid() && UniqueNumbers(rooms.docs)
    modifies rooms
    ensures rooms.Valid() && UniqueNumbers(rooms.docs)
    ensures !HasId(old(rooms.docs), id) ==> code == NotFound
    ensures HasId(old(rooms.docs), id) ==>
      && var k := Find(old(rooms.docs), id).value;
         var updated := ApplyPatch(old(rooms.docs)[k].val, patch);
         (code == OK <==> !NumberTaken(old(rooms.docs), updated.roomNumber, id))
         && (code == OK ==> rooms.docs == old(rooms.docs)[k := Doc(id, updated)])
         && (code != OK ==> code == InternalError)
    ensures code != OK ==> rooms.docs == old(rooms.docs)
  {
    var k := Find(rooms.docs, id);
    if k.None? {
      return NotFound;
    }
    var updated := ApplyPatch(rooms.docs[k.value].val, patch);
    if NumberTaken(rooms.docs, updated.roomNumber, id) {
      return InternalError;
    }
    rooms.Put(k.value, updated);
    forall i, j | 0 <= i < j < |rooms.docs|
      ensures rooms.docs[i].val.roomNumber != rooms.docs[j].val.roomNumber
    {
      if i != k.value && j != k.value {
        assert rooms.docs[i] == old(rooms.docs)[i] && rooms.docs[j] == old(rooms.docs)[j];
      }
    }
    code := OK;
  }

  /** `deleteRoom`: 404 for an unknown room; otherwise that room alone goes. */
  method DeleteRoom(rooms: Collection<Room>, id: nat) returns (code: int)
    requires rooms.Valid() && UniqueNumbers(rooms.docs)
    modifies rooms
    ensures rooms.Valid() && UniqueNumbers(rooms.docs)
    ensures code == NotFound <==> !HasId(old(rooms.docs), id)
    ensures code == OK <==> HasId(old(rooms.docs), id)
    ensures code == NotFound ==> rooms.docs == old(rooms.docs)
    ensures code == OK ==> !HasId(rooms.docs, id)
    ensures code == OK ==>
      var k := Find(old(rooms.docs), id).value;
      rooms.docs == old(rooms.docs)[..k] + old(rooms.docs)[k + 1..]
  {
    var k := Find(rooms.docs, id);
    if k.None? {
      return NotFound;
    }
    var gone := rooms.RemoveAt(k.value);
    forall i | 0 <= i < |rooms.docs| ensures rooms.docs[i].id != id {
      if i < k.value {
        assert rooms.docs[i] == old(rooms.docs)[i];
      } else {
        assert rooms.docs[i] == old(rooms.docs)[i + 1];
      }
    }
    forall i, j | 0 <= i < j < |rooms.docs|
      ensures rooms.docs[i].val.roomNumber != rooms.docs[j].val.roomNumber
    {
      var i', j' := if i < k.value then i else i + 1, if j < k.value then j else j + 1;
      assert rooms.docs[i] == old(rooms.docs)[i'] && rooms.docs[j] == old(rooms.docs)[j'];
    }
    code := OK;
  }

  /** `updateRoomStatus`: a status outside the enum (compared case-sensitively)
      is refused with 400 before the room is even looked up; an unknown room is
      a 404; otherwise only the room's status changes. */
  method UpdateRoomStatus(rooms: Collection<Room>, id: nat, status: Option<string>) returns (code: int)
    requires rooms.Valid() && UniqueNumbers(rooms.docs)
    modifies rooms
    ensures rooms.Valid() && UniqueNumbers(rooms.docs)
    ensures status.None? || status.value !in RoomStatuses ==> code == BadRequest
    ensures status.Some? && status.value in RoomStatuses && !HasId(old(rooms.docs), id) ==> code == NotFound
    ensures (&& status.Some? && status.value in RoomStatuses && HasId(old(rooms.docs), id)
             && ValidRoom(Lookup(old(rooms.docs), id).value.(status := status.value))) ==> code == OK
    ensures (&& status.Some? && status.value in RoomStatuses && HasId(old(rooms.docs), id)
             && !ValidRoom(Lookup(old(rooms.docs), id).value.(status := status.value))) ==> code == InternalError
    ensures code != OK ==> rooms.docs == old(rooms.docs)
    ensures code == OK ==>
      && status.Some? && status.value in RoomStatuses && HasId(old(rooms.docs), id)
      && var k := Find(old(rooms.docs), id).value;
         rooms.docs == old(rooms.docs)[k := Doc(id, old(rooms.docs)[k].val.(status := status.value))]
  {
    if status.None? || status.value !in RoomStatuses {
      return BadRequest;
    }
    var k := Find(rooms.docs, id);
    if k.None? {
      return NotFound;
    }
    var room := rooms.docs[k.value].val;
    assert !NumberTaken(rooms.docs, room.roomNumber, id);
    var saved := SaveRoom(rooms, k.value, room.(status := status.value));
    code := if saved then OK else InternalError;
  }
}
