# Hotel management backend, modelled in Dafny

This project models the Express/Mongoose backend of a hotel management system (`backend-hotel/src`) and proves properties of that model. It covers four parts:

- **The booking engine.** This is the three-clause date-clash query, the search for free rooms, and booking creation. It also covers the confirm / check-in / check-out transitions, which write the room's status, and the guest history and desk listings.
- **The room inventory.** Rooms are created, read, updated and deleted, statuses are set against a fixed five-value enum, and images are appended or removed by id.
- **The user registry.** The User schema carries a role enum, an e-mail pattern, a minimum password length and a pre-save hook that hashes only a modified password. The handlers are registration, the owner and staff creators, login, logout, profile update and forgotten password.
- **Access control and errors.** `verifyJWT` extracts and verifies the token. `authorizeRoles` is an allow-list. The three route tables place those gates in front of the handlers. The `ApiError` / `ApiResponse` records and the async wrapper turn a thrown error into a status code.

The system is modelled as sequential and single-request:

- Each collection is a `Store.Collection<T>`: a class holding the documents in insertion order under ascending numeric ids.
- Each handler is a method that changes only the collections it writes and returns the HTTP status the client receives.
- Pure parts (schemas, the clash test, token extraction, route tables) are functions and predicates.

Dates are whole numbers, ids are natural numbers, and JavaScript numbers are integers. Password hashing is symbolic: a digest records the value it was made from. Token verification, image upload and image deletion are parameters.

Modules: `Wrappers`, `Store`, `Text`, `Http`, `RoomModel`, `BookingModel`, `UserModel`, `BookingController`, `RoomController`, `UserController`, `Auth`, `Routes`.

### Source behaviour the model follows

Where the code behaves differently from what its names or comments suggest, the model follows the code.

- **No double booking after create.** The three-clause test catches every ordinary overlap of half-open stays, strict containment included (`BookingModel.OverlapImpliesClash`). So `createBooking` keeps "no two blocking bookings of a room overlap" for all inputs, not only for well-formed ranges (`BookingModel.AppendPreservesNoDoubleBooking`).
- **Logout clears nothing.** The User schema has no `refreshToken` path. In strict mode both the assignment at login and the `$set` at logout are dropped, so logout changes no stored user and login stores no token (`UserController.LogoutUser`, `UserController.Login`).
- **Saving a room validates the whole document.** Check-in stores "Booked" and check-out stores "Cleaning", neither of which is in the lower-case status enum, so both saves fail with 500. Check-out has already saved its booking as Completed by then.
- **`findByIdAndUpdate` runs no validators.** `updateRoom` can store any status.
- **The lower-casing e-mail setter also applies to query filters.** E-mail lookups are therefore case-insensitive for ASCII letters.

## Model

| member | source | states |
|---|---|---|
| Text.Trim | backend-hotel/src/models/Room.model.js:5-16 | the trimmed string is the input without its leading and trailing white space; it is empty exactly when the input is all white space |
| Text.TrimIdempotent | backend-hotel/src/models/Room.model.js:9 | trimming a trimmed value changes nothing |
| Text.ToLower | backend-hotel/src/controller/usercontroller.js:43 | same length; each ASCII upper-case letter becomes its lower-case letter and every other character is kept, so no upper-case ASCII letter is left |
| Text.ToLowerIdempotent | backend-hotel/src/models/user.model.js:16 | lower-casing twice equals lower-casing once |
| Text.ReplaceFirst | backend-hotel/src/middleware/authmiddleware.js:11 | only the first occurrence of the pattern is replaced, wherever it stands; no occurrence leaves the string as is |
| Http.NewApiError | backend-hotel/src/utils/apiError.js:3-9 | status stored as given, message defaults to "Something went wrong", errors to empty, success false, data null |
| Http.NewApiResponse | backend-hotel/src/utils/apiResponse.js:2-5 | the statusCode field is the boolean code < 400; message defaults to "sucess"; data stored verbatim |
| Http.ReplyFor | backend-hotel/src/utils/asynchandler.js:6-14 | an integer statusCode is kept, anything else is 500; body success false, message or "Internal Server Error", code or null |
| Http.AsyncHandler | backend-hotel/src/utils/asynchandler.js:2-16 | a handler that returns gets no reply from the wrapper; one that throws gets the reply for its error |
| Http.ApiErrorReachesClient | backend-hotel/src/utils/asynchandler.js:6-14 | a thrown ApiError reaches the client with its own status and message |
| Http.OtherErrorsAreInternal | backend-hotel/src/utils/asynchandler.js:6-8 | an error without an integer statusCode (validation error, failed token verification) becomes 500 |
| RoomModel.CapitalisedNotInEnum | backend-hotel/src/models/Room.model.js:23-27 | "Booked" and "Cleaning" are not in the case-sensitive status enum |
| RoomModel.BuildRoom | backend-hotel/src/models/Room.model.js:3-47 | a new room validates exactly when room number and type are non-empty after trimming, price is given and the status is absent or in the enum; defaults status "available", no images, no amenities; a given status and given amenities are stored as given |
| RoomModel.ApplyPatch | backend-hotel/src/controller/RoomController.js:81 | every supplied field (room number, type, price, status, images, amenities, description) overwrites the stored one, strings trimmed; every other field is kept |
| RoomModel.PatchIdempotent | backend-hotel/src/controller/RoomController.js:81 | sending the same update twice leaves the room as sending it once |
| RoomModel.EmptyPatchKeepsRoom | backend-hotel/src/controller/RoomController.js:81 | an update with no fields leaves the room as it was |
| RoomModel.PatchCanLeaveEnum | backend-hotel/src/controller/RoomController.js:81 | an update can store a status outside the enum, since nothing validates it |
| RoomModel.SaveRoom | backend-hotel/src/models/Room.model.js:5-27 | a save succeeds exactly when the room validates and no other room has its number; otherwise nothing changes |
| BookingModel.ParseStatus | backend-hotel/src/models/Booking.model.js:9-13 | only the four status names are accepted, each as itself |
| BookingModel.ParsePayment | backend-hotel/src/models/Booking.model.js:15-19 | a payment status is accepted exactly when it is "Pending", "Paid" or "Failed" |
| BookingModel.EnumRoundTrip | backend-hotel/src/models/Booking.model.js:9-19 | every status and payment status reads back as itself |
| BookingModel.OverlapImpliesClash | backend-hotel/src/controller/BookingController.js:47-49 | every ordinary overlap of half-open stays is caught by the three-clause test, whatever the ranges |
| BookingModel.ClashIsOverlap | backend-hotel/src/controller/BookingController.js:22-24 | for well-formed ranges the three-clause test is exactly half-open overlap, so back-to-back stays do not clash |
| BookingModel.EmptyRequestClashes | backend-hotel/src/controller/BookingController.js:47-49 | for an empty request range the two tests differ |
| BookingModel.FindClash | backend-hotel/src/controller/BookingController.js:43-51 | finds a Pending or Confirmed booking of the room that clashes, and finds none exactly when no such booking exists |
| BookingModel.AppendPreservesNoDoubleBooking | backend-hotel/src/controller/BookingController.js:43-63 | appending a booking the clash query let through keeps every room free of double bookings |
| BookingModel.ConfirmPendingPreservesNoDoubleBooking | backend-hotel/src/controller/BookingController.js:72-79 | confirming a Pending booking cannot create a double booking |
| BookingModel.ConfirmCanDoubleBook | backend-hotel/src/controller/BookingController.js:72-79 | confirming a Cancelled booking can double-book a room |
| BookingModel.CompletePreservesNoDoubleBooking | backend-hotel/src/controller/BookingController.js:108-109 | completing a booking cannot create a double booking |
| BookingController.AvailableRooms | backend-hotel/src/controller/BookingController.js:14-29 | never lists more rooms than there are |
| BookingController.AvailableRoomsExact | backend-hotel/src/controller/BookingController.js:17-28 | a room is listed exactly when no blocking booking of it clashes; store order is kept |
| BookingController.SearchAvailableRooms | backend-hotel/src/controller/BookingController.js:10-32 | 400 and nothing without both dates; otherwise 200 and exactly the free rooms, by a loop proved against the filter |
| BookingController.SearchExample | backend-hotel/src/controller/BookingController.js:18-28 | a confirmed stay blocks an overlapping request and not one that starts on its check-out day |
| BookingController.PaymentOf | backend-hotel/src/controller/BookingController.js:62 | an absent or empty payment status means Pending; any other value is checked against the enum |
| BookingController.CreateBooking | backend-hotel/src/controller/BookingController.js:37-66 | 400 for a missing field or a total of 0, 400 when the room is blocked, 500 for an unknown payment status; a complete, unblocked request with a valid payment status gets 201 and exactly one Pending booking appended; no double booking is created |
| BookingController.ConfirmBooking | backend-hotel/src/controller/BookingController.js:71-82 | 404 when absent, 400 when already Confirmed, otherwise 200 and only that booking becomes Confirmed |
| BookingController.CheckInBooking | backend-hotel/src/controller/BookingController.js:87-99 | 404 when absent, 400 unless Confirmed, otherwise 500 with no room changed |
| BookingController.CheckInBookingCorrected | backend-hotel/src/controller/BookingController.js:87-99 | with the status spelled "booked", a Confirmed booking checks in (200, and only its room's status becomes booked) exactly when its room is stored and valid with that status; otherwise 500 and nothing changes |
| BookingController.CheckOutBooking | backend-hotel/src/controller/BookingController.js:104-116 | 404 when absent; otherwise the booking is Completed whatever its status, no room changes and the answer is 500 |
| BookingController.CheckOutBookingCorrected | backend-hotel/src/controller/BookingController.js:104-116 | with the status spelled "cleaning", an existing booking is always saved as Completed; the answer is 200 (and the room becomes cleaning) exactly when its room is stored and valid with that status, otherwise 500 |
| BookingController.InsertNewestFirst | backend-hotel/src/controller/BookingController.js:126 | inserting into a list sorted by check-in, latest first, keeps it sorted and adds exactly that booking |
| BookingController.SortNewestFirst | backend-hotel/src/controller/BookingController.js:126 | the result is sorted by check-in, latest first, and is a permutation of the input |
| BookingController.OfUser | backend-hotel/src/controller/BookingController.js:144 | exactly the bookings of the user |
| BookingController.GetUserBookings | backend-hotel/src/controller/BookingController.js:143-149 | 200 with exactly the user's bookings, latest check-in first |
| BookingController.GetAllBookings | backend-hotel/src/controller/BookingController.js:122-129 | 200 with every booking, latest check-in first |
| BookingController.GetAllRoomsStatuses | backend-hotel/src/controller/BookingController.js:134-138 | 200 with one status view per room, in store order |
| RoomController.CreateRoom | backend-hotel/src/controller/RoomController.js:7-21 | never 400; 201 and the built room appended exactly when it validates and its number is free, otherwise 500 and nothing stored |
| RoomController.CreateRoomCorrected | backend-hotel/src/controller/RoomController.js:9-11 | a missing or falsy room number, type or price is answered with 400; otherwise as CreateRoom |
| RoomController.UploadAll | backend-hotel/src/controller/RoomController.js:36-39 | one uploaded image per file, in file order; fails exactly when one upload fails |
| RoomController.ImagesUpload | backend-hotel/src/controller/RoomController.js:25-44 | 404 when absent, passed on without files, otherwise the uploads appended after the existing images |
| RoomController.KeepUnlisted | backend-hotel/src/controller/RoomController.js:56-59 | never more images than before |
| RoomController.KeepUnlistedExact | backend-hotel/src/controller/RoomController.js:58 | keeps exactly the images whose id is not listed, each kept image coming from the input |
| RoomController.KeepUnlistedAppend | backend-hotel/src/controller/RoomController.js:58 | filtering a concatenation filters each part in place, so the kept images stay in their original order |
| RoomController.KeepUnlistedStep | backend-hotel/src/controller/RoomController.js:56-59 | filtering id by id equals filtering by the whole list |
| RoomController.DeleteRoomImages | backend-hotel/src/controller/RoomController.js:46-62 | 404 when absent, passed on for a missing, non-list or empty id list, 500 when a storage deletion fails or the room does not validate, otherwise 200 with exactly the listed images removed |
| RoomController.GetRoomById | backend-hotel/src/controller/RoomController.js:72-78 | 404 exactly when absent, otherwise 200 and the stored room |
| RoomController.UpdateRoom | backend-hotel/src/controller/RoomController.js:80-86 | 404 when absent; 500 with nothing changed when the patched room number belongs to another room (the unique index); otherwise 200 and the patch applied to that room only, with no status check |
| RoomController.DeleteRoom | backend-hotel/src/controller/RoomController.js:88-94 | 404 exactly when absent; otherwise only that room is removed |
| RoomController.UpdateRoomStatus | backend-hotel/src/controller/RoomController.js:96-127 | 400 for a status outside the enum before any lookup, 404 when absent; otherwise the room with the new status is saved: 200 when it validates, with only that room's status changed, and 500 when it does not |
| UserModel.ParseRole | backend-hotel/src/models/user.model.js:34-38 | a role is accepted exactly when it is one of the four names |
| UserModel.RoleRoundTrip | backend-hotel/src/models/user.model.js:34-38 | every role reads back as itself |
| UserModel.ValidEmailIsPattern | backend-hotel/src/models/user.model.js:17-20 | the e-mail validator accepts exactly the strings the pattern matches |
| UserModel.FindByEmail | backend-hotel/src/controller/usercontroller.js:36 | finds a user with that e-mail, and finds none exactly when no user has it |
| UserModel.UserDocument.Create | backend-hotel/src/controller/usercontroller.js:42-46 | e-mail lower-cased, role defaulting to customer, active, password marked modified |
| UserModel.UserDocument.Load | backend-hotel/src/controller/usercontroller.js:161 | a loaded document holds the stored user with nothing modified |
| UserModel.UserDocument.SetName | backend-hotel/src/controller/usercontroller.js:165 | only the name changes |
| UserModel.UserDocument.SetPassword | backend-hotel/src/controller/usercontroller.js:166 | only the password changes, and it is marked modified |
| UserModel.UserDocument.PreSave | backend-hotel/src/models/user.model.js:49-60 | a modified password is hashed; an unmodified one is kept exactly as it is |
| UserModel.SaveNew | backend-hotel/src/controller/usercontroller.js:42-46 | the new user is stored, its password hashed, exactly when it validates and its e-mail is free; e-mails stay unique |
| UserModel.SaveExisting | backend-hotel/src/controller/usercontroller.js:167 | the user is replaced in place, hashing a modified password, exactly when it validates; otherwise nothing changes |
| UserController.Registered | backend-hotel/src/controller/usercontroller.js:42-46 | the stored user matches the password it was registered with and has the lower-cased e-mail and the given role |
| UserController.CreateAccount | backend-hotel/src/controller/usercontroller.js:29-59 | 400 for a missing field or a taken e-mail in any case, 500 when a validator fails, otherwise 201 and exactly one user appended; every stored user stays validated and hashed |
| UserController.RegisterUser | backend-hotel/src/controller/usercontroller.js:29-59 | as CreateAccount, with the default customer role |
| UserController.CreateOwner | backend-hotel/src/controller/usercontroller.js:133-156 | as CreateAccount, with the role fixed to owner |
| UserController.CreateStaff | backend-hotel/src/controller/usercontroller.js:192-215 | as CreateAccount, with the role fixed to staff |
| UserController.Login | backend-hotel/src/controller/usercontroller.js:61-104 | 400 without a key and password; 500 whenever a name is given; by e-mail, 404 when no user has the lower-cased e-mail and 401 when the password does not match that user; a success issues tokens for a user with that e-mail and password |
| UserController.LoginSucceedsExactly | backend-hotel/src/controller/usercontroller.js:75-85 | with unique e-mails, login by e-mail succeeds exactly for a user whose e-mail and password match |
| UserController.RegisteredCanLogIn | backend-hotel/src/controller/usercontroller.js:36-46 | a freshly registered user logs in with that password and any e-mail that lower-cases to the registered one |
| UserController.MixedCaseEmailLogsIn | backend-hotel/src/models/user.model.js:16 | a user registered as "ann@inn.io" logs in as "Ann@INN.io" |
| UserController.LogoutUser | backend-hotel/src/controller/usercontroller.js:106-130 | always 200, and no stored user changes |
| UserController.Profile | backend-hotel/src/controller/usercontroller.js:165-166 | a given name is lower-cased, a given password is hashed, everything else is kept |
| UserController.UpdateUserProfile | backend-hotel/src/controller/usercontroller.js:159-172 | 404 exactly when the caller is gone, 500 exactly for a new password under six characters, otherwise 200 with only that user's supplied fields changed |
| UserController.UpdateKeepsLogin | backend-hotel/src/models/user.model.js:51-53 | an update without a password does not re-hash it, so every login answers as before |
| UserController.NewPasswordLogsIn | backend-hotel/src/controller/usercontroller.js:166-167 | after a password change, login with the new password succeeds |
| UserController.ForgotPassword | backend-hotel/src/controller/usercontroller.js:175-188 | 400 without an e-mail, otherwise 200 exactly when a user has it and 404 when none does |
| UserController.FindLoginMatch | backend-hotel/src/controller/usercontroller.js:70-75 | the first user matching the e-mail or the name |
| UserController.LoginCorrected | backend-hotel/src/controller/usercontroller.js:70-75 | with the name lookup fixed, login never answers 500 |
| UserController.LoginCorrectedByEmail | backend-hotel/src/controller/usercontroller.js:70-75 | without a name, the corrected login answers as the login as written |
| UserController.LoginByName | backend-hotel/src/controller/usercontroller.js:72 | the first user of a name logs in by name when corrected; as written, that request is a 500 |
| Auth.ExtractToken | backend-hotel/src/middleware/authmiddleware.js:9-11 | a non-empty cookie wins; otherwise the header with its first "Bearer " removed is the token, and an empty result or no header means no token |
| Auth.BearerHeaderYieldsToken | backend-hotel/src/middleware/authmiddleware.js:11 | "Bearer " followed by a token yields the token |
| Auth.PlainHeaderIsToken | backend-hotel/src/middleware/authmiddleware.js:11 | a header without "Bearer " is used as the token |
| Auth.BearerRemovedMidHeader | backend-hotel/src/middleware/authmiddleware.js:11 | "Bearer " is removed mid-header too |
| Auth.BearerRemovedAnywhere | backend-hotel/src/middleware/authmiddleware.js:11 | for every header, the first "Bearer " is removed wherever it stands and the rest is kept |
| Auth.Authenticate | backend-hotel/src/middleware/authmiddleware.js:6-33 | 401 without a token, 500 exactly when verification throws, 401 for a vanished user; a verified token of a stored user authenticates exactly that user |
| Auth.DeletedUserRefused | backend-hotel/src/middleware/authmiddleware.js:21-27 | a valid token of a deleted user is refused with 401 |
| Auth.VerifyJwt | backend-hotel/src/middleware/authmiddleware.js:6-33 | passes on and attaches the user exactly when authentication succeeds; otherwise answers with its status and leaves the request's user alone |
| Auth.AuthorizeRoles | backend-hotel/src/middleware/rolemiddleware.js:9-26 | 401 without a user, before any role check; passes exactly when the role's name is listed; otherwise 403 |
| Auth.NonRoleNamesAdmitNobody | backend-hotel/src/middleware/rolemiddleware.js:18 | a listed name that is not a role changes no decision |
| Routes.Guarded | backend-hotel/src/routes/Booking.route.js:19-20 | a request reaches the handler exactly when authenticated with a listed role; a rejected token keeps its status; otherwise 403 |
| Routes.BookingRouteTable | backend-hotel/src/routes/Booking.route.js:25-58 | each booking path maps to its handler; path literals match in any letter case; a PUT action whose lower-cased form is not confirm, checkin or checkout matches nothing |
| Routes.RoutesIgnoreCase | backend-hotel/src/routes/Booking.route.js:16 | Express's default router is case-insensitive: PUT /:id/CheckIn reaches check-in and POST /LOGIN reaches login |
| Routes.BookingsForDeskOnly | backend-hotel/src/routes/Booking.route.js:19-20 | only admins and owners reach any booking handler; staff and customers get 403 everywhere |
| Routes.PublicUserRoutes | backend-hotel/src/routes/user.route.js:17-19 | register, login and forgot-password need no token |
| Routes.AccountCreationRoles | backend-hotel/src/routes/user.route.js:22-35 | create-owner admits owners only; create-staff admits owners and admins |
| Routes.DashboardRoles | backend-hotel/src/routes/user.route.js:48-65 | admin-dashboard admits admins only; manage-users admits owners and admins |
| Routes.CustomersCannotUpdateProfile | backend-hotel/src/routes/user.route.js:38-43 | customers and staff are refused their own profile update with 403 |
| Routes.CorrectedProfileRoutes | backend-hotel/src/routes/user.route.js:38-43 | with "customer" listed, everyone but staff reaches both profile routes |
| Routes.RoomRouteTable | backend-hotel/src/routes/roommanagement.route.js:18-27 | each room path maps to its handler; nothing below a room id is routed |
| Routes.RoomsForAdminsOnly | backend-hotel/src/routes/roommanagement.route.js:15-16 | only admins reach the room handlers; owners get 403 |

## Left out

- **HTTP transport.** Request parsing, cookies set or cleared, CORS, the body-size limit and JSON response bodies are not modelled; only status codes and stored state are. Errors that do not go through the local wrapper's reply reach Express's default handler: those thrown in the booking and room controllers, which use `express-async-handler`, and every `next(new ApiError(...))` in the user controller and in both middlewares. The status codes are the same as the local wrapper's, but the body differs.
- **Foreign cryptography.** bcrypt salting and cost are not modelled; a digest is symbolic. JWT signing, secrets and expiry are left out; verification is a parameter, and a token's payload is reduced to the user id.
- **Image storage.** Cloudinary and multer are not modelled: uploads and deletions are parameters, and the five-file limit and temporary files are left out.
- **Dates.** Dates are integers; `new Date` parsing, including invalid date strings, is not modelled. The missing-field guard of `createBooking` (BookingController.js:40) treats an empty date string as missing; with integer dates every given date counts as present. The same holds for the `!checkIn || !checkOut` guard of `searchAvailableRooms` (BookingController.js:12): its 400 for an empty query string is not modelled.
- **Routing.** Path literals are compared after ASCII lower-casing, which matches Express's case-insensitive default for the all-ASCII literals of these routes. Trailing slashes, percent-decoding and query strings in the path are not modelled.
- **Ids.** Ids are natural numbers, so a malformed id (a cast error, which would be a 500) does not occur.
- **Numbers.** JavaScript numbers (price, total amount) are integers; floating point and NaN are left out.
- **Text.** `toLowerCase` is modelled on ASCII letters only. `trim` is modelled on ASCII white space, the no-break space and the byte-order mark; other Unicode spaces and line separators are left out. String lengths count Unicode scalar values, while `minlength` counts UTF-16 code units; the two differ for characters outside the Basic Multilingual Plane, so, for example, a password of three emoji (six code units) passes the source's `minlength: 6` but fails `UserModel.ValidUser`.
- **Read projections.** `populate` of users and rooms in the booking listings, field projections, the `phone` field and the `createdAt`/`updatedAt` timestamps are left out.
- **Concurrency.** Execution is sequential, so the read-then-insert race between the clash query and the insert in `createBooking` is not modelled.
- **getAllRooms.** A plain `find()` with no logic beyond the store, so it is not modelled.
- **Module loading and mounting.**
  - The model assumes every module loads. As written, `../utils/asyncHandler.js` does not match the file name `asynchandler.js` on a case-sensitive file system.
  - `RoomController.js` imports `Room.model` without its extension, and the room router imports a `middlewares/multer.js` that does not exist.
  - `app.js` mounts only the booking and user routers (lines 24-25), so the room routes are modelled as a table but are not reachable over HTTP.
- **Unrouted handlers.** `updateRoomStatus`, `imagesupload`, `deleteRoomImages` and `logoutUser` are modelled as handlers; no route reaches them (user.route.js neither imports nor routes `logoutUser`).
- **Out of scope.** The frontend, the seed script, the server bootstrap, the database connection and the stale `backend/src/models/user.model.js` are not part of this model.
- UserController.Login: `isActive` is never checked, so inactive users log in like active ones. The model reproduces this and states nothing further about it.
- UserController.LogoutUser: it does not revoke a refresh token, because none is ever stored. Tokens stay valid until they expire, which is not modelled.
- BookingController.AvailableRooms: its own contract states only the length bound; what it lists is stated by `BookingController.AvailableRoomsExact`.
- RoomController.KeepUnlisted: its own contract states only the length bound; what it keeps is stated by `RoomController.KeepUnlistedExact`.

## Findings

| source | as written | input that shows it | evidently intended | confidence | as-written member | corrected member |
|---|---|---|---|---|---|---|
| backend-hotel/src/controller/BookingController.js:95 | check-in stores room status "Booked", which the lower-case enum rejects, so every check-in of a Confirmed booking is a 500 | PUT /:id/checkin for a Confirmed booking whose room exists | store "booked" and answer 200 | not executed | BookingController.CheckInBooking | BookingController.CheckInBookingCorrected |
| backend-hotel/src/controller/BookingController.js:112 | check-out stores room status "Cleaning", outside the enum, so every check-out is a 500 after the booking was already saved as Completed | PUT /:id/checkout for any existing booking | store "cleaning" and answer 200 | not executed | BookingController.CheckOutBooking | BookingController.CheckOutBookingCorrected |
| backend-hotel/src/controller/RoomController.js:9 | the guard negates an array literal, which is never falsy, so missing fields never get the 400 | a create body without `roomNumber` is a 500 from the schema instead | test each field and answer 400 | not executed | RoomController.CreateRoom | RoomController.CreateRoomCorrected |
| backend-hotel/src/controller/usercontroller.js:72 | the name lookup refers to an undefined `username`, so any login that gives a name is a 500 | body `{ name: "alice", password: "secret1" }` | look the user up by `name.toLowerCase()` | not executed | UserController.Login | UserController.LoginCorrected |
| backend-hotel/src/routes/user.route.js:41 | the own-profile routes list "user", which is not a role, so a registered customer cannot update their own profile | PUT /update-profile with a customer's valid token is a 403 | list "customer" | not executed | Routes.CustomersCannotUpdateProfile | Routes.CorrectedProfileRoutes |
