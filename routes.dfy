/** The three routers and the guards in front of each handler
    (routes/Booking.route.js, routes/user.route.js,
    routes/roommanagement.route.js). A request is a verb and the path
    segments below the router's mount point; `auth` is what `verifyJWT`
    concludes about it, and matters only where `verifyJWT` runs. */
module Routes {

  import opened Wrappers
  import opened Text
  import opened Http
  import opened UserModel
  import opened Auth

  datatype Verb = Get | Post | Put | Delete

  /** A path segment matches a literal segment of a route. Routers made with
      a plain `Router()` match case-insensitively; the route literals are
      lower-case ASCII, so this is comparing the lower-cased segment. */
  predicate Segment(s: string, literal: string) {
    ToLower(s) == literal
  }

  /** A segment written in lower case matches itself. */
  lemma LowerSegment(s: string)
    requires forall i :: 0 <= i < |s| ==> !('A' <= s[i] <= 'Z')
    ensures Segment(s, s)
  {
    assert forall i :: 0 <= i < |s| ==> ToLower(s)[i] == s[i];
  }

  /** How a router ends a request: answered before any handler runs, or
      handed to a handler. */
  datatype Dispatch<E> = Refused(status: int) | Handled(endpoint: E)

  /** Passes a request through `authorizeRoles(allowed)` to the handler `e`. */
  function Guarded<E>(allowed: seq<string>, auth: AuthResult, e: E): (d: Dispatch<E>)
    ensures d.Handled? ==> d.endpoint == e
    ensures d.Handled? <==> auth.Authenticated? && RoleName(auth.user.role) in allowed
    ensures auth.Rejected? ==> d == Refused(auth.status)
    ensures auth.Authenticated? && !d.Handled? ==> d == Refused(Forbidden)
  {
    match auth
    case Rejected(s) => Refused(s)
    case Authenticated(p) =>
      match AuthorizeRoles(allowed, Some(p))
      case Deny(s) => Refused(s)
      case Next => Handled(e)
  }

  // ---------------------------------------------------------------------------
  // Bookings

  datatype BookingEndpoint =
    | CreateBooking | GetAllBookings | SearchAvailableRooms | GetUserBookings(userId: string)
    | ConfirmBooking(id: string) | CheckInBooking(id: string) | CheckOutBooking(id: string)
    | GetAllRoomsStatuses

  /** The booking router's table, in the order Express tries it. */
  function BookingRoute(verb: Verb, path: seq<string>): Option<BookingEndpoint> {
    if path == [] then
      if verb == Post then Some(CreateBooking)
      else if verb == Get then Some(GetAllBookings)
      else None
    else if verb == Get && |path| == 1 && Segment(path[0], "search") then Some(SearchAvailableRooms)
    else if verb == Get && |path| == 2 && Segment(path[0], "user") && path[1] != "" then Some(GetUserBookings(path[1]))
    else if verb == Put && |path| == 2 && path[0] != "" && Segment(path[1], "confirm") then Some(ConfirmBooking(path[0]))
    else if verb == Put && |path| == 2 && path[0] != "" && Segment(path[1], "checkin") then Some(CheckInBooking(path[0]))
    else if verb == Put && |path| == 2 && path[0] != "" && Segment(path[1], "checkout") then Some(CheckOutBooking(path[0]))
    else if verb == Get && |path| == 2 && Segment(path[0], "rooms") && Segment(path[1], "status") then Some(GetAllRoomsStatuses)
    else None
  }

  /** The table maps each documented path to its handler; a PUT below a
      booking id reaches the action its last segment names in any letter
      case, and any other action matches nothing. */
  lemma BookingRouteTable(id: string, userId: string, action: string)
    requires id != "" && userId != ""
    ensures BookingRoute(Post, []) == Some(CreateBooking) && BookingRoute(Get, []) == Some(GetAllBookings)
    ensures BookingRoute(Get, ["search"]) == Some(SearchAvailableRooms)
    ensures BookingRoute(Get, ["user", userId]) == Some(GetUserBookings(userId))
    ensures ToLower(action) == "confirm" ==> BookingRoute(Put, [id, action]) == Some(ConfirmBooking(id))
    ensures ToLower(action) == "checkin" ==> BookingRoute(Put, [id, action]) == Some(CheckInBooking(id))
    ensures ToLower(action) == "checkout" ==> BookingRoute(Put, [id, action]) == Some(CheckOutBooking(id))
    ensures BookingRoute(Get, ["rooms", "status"]) == Some(GetAllRoomsStatuses)
    ensures ToLower(action) !in ["confirm", "checkin", "checkout"] ==> BookingRoute(Put, [id, action]).None?
    ensures BookingRoute(Delete, [id]).None?
  {
    LowerSegment("search");
    LowerSegment("user");
    LowerSegment("rooms");
    LowerSegment("status");
  }

  /** Path literals match in any letter case. */
  lemma RoutesIgnoreCase(id: string)
    requires id != ""
    ensures BookingRoute(Put, [id, "CheckIn"]) == Some(CheckInBooking(id))
    ensures UserRoute(Post, ["LOGIN"]) == Some(LoginUser)
  {
    assert ToLower("CheckIn") == "checkin";
    assert ToLower("LOGIN") == "login";
  }

  const BookingDesk: seq<string> := ["admin", "owner"]

  /** `verifyJWT` and `authorizeRoles("admin", "owner")` are mounted on the
      whole router, so they run before the table is consulted; a request that
      passes them and matches nothing falls through to Express's 404. */
  function BookingDispatch(auth: AuthResult, verb: Verb, path: seq<string>): Dispatch<BookingEndpoint> {
    match Guarded(BookingDesk, auth, ())
    case Refused(s) => Refused(s)
    case Handled(_) =>
      match BookingRoute(verb, path)
      case None => Refused(NotFound)
      case Some(e) => Handled(e)
  }

  /** Every booking handler, a guest's own history included, is reachable by
      admins and owners only; staff and customers are refused with 403
      whatever they ask for. */
  lemma BookingsForDeskOnly(auth: AuthResult, verb: Verb, path: seq<string>)
    ensures BookingDispatch(auth, verb, path).Handled? ==>
      auth.Authenticated? && (auth.user.role == Admin || auth.user.role == Owner)
    ensures auth.Authenticated? && (auth.user.role == Staff || auth.user.role == Customer) ==>
      BookingDispatch(auth, verb, path) == Refused(Forbidden)
    ensures auth.Rejected? ==> BookingDispatch(auth, verb, path) == Refused(auth.status)
  {
    if auth.Authenticated? {
      var name := RoleName(auth.user.role);
      assert name in BookingDesk <==> auth.user.role == Admin || auth.user.role == Owner;
    }
  }

  // ---------------------------------------------------------------------------
  // Users

  datatype UserEndpoint =
    | RegisterUser | LoginUser | ForgotPassword | CreateOwner | CreateStaff
    | UpdateUserProfile | AdminDashboard | ManageUsers | UserProfile

  function UserRoute(verb: Verb, path: seq<string>): Option<UserEndpoint> {
    if |path| != 1 then None
    else if verb == Post && Segment(path[0], "register") then Some(RegisterUser)
    else if verb == Post && Segment(path[0], "login") then Some(LoginUser)
    else if verb == Post && Segment(path[0], "forgot-password") then Some(ForgotPassword)
    else if verb == Post && Segment(path[0], "create-owner") then Some(CreateOwner)
    else if verb == Post && Segment(path[0], "create-staff") then Some(CreateStaff)
    else if verb == Put && Segment(path[0], "update-profile") then Some(UpdateUserProfile)
    else if verb == Get && Segment(path[0], "admin-dashboard") then Some(AdminDashboard)
    else if verb == Get && Segment(path[0], "manage-users") then Some(ManageUsers)
    else if verb == Get && Segment(path[0], "user-profile") then Some(UserProfile)
    else None
  }

  /** The role list a user route passes to `authorizeRoles`, or `None` for a
      public route (no `verifyJWT` either); `self` is the list of the two
      routes for a user's own profile. */
  function UserGuard(self: seq<string>, e: UserEndpoint): Option<seq<string>> {
    match e
    case RegisterUser => None
    case LoginUser => None
    case ForgotPassword => None
    case CreateOwner => Some(["owner"])
    case CreateStaff => Some(["owner", "admin"])
    case UpdateUserProfile => Some(self)
    case AdminDashboard => Some(["admin"])
    case ManageUsers => Some(["owner", "admin"])
    case UserProfile => Some(self)
  }

  /** The own-profile list as written: "user" is not a role. */
  const ProfileRolesAsWritten: seq<string> := ["user", "admin", "owner"]

  /** The own-profile list with the registered users' role, "customer". */
  const ProfileRoles: seq<string> := ["customer", "admin", "owner"]

  function UserDispatchWith(self: seq<string>, auth: AuthResult, verb: Verb, path: seq<string>): Dispatch<UserEndpoint> {
    match UserRoute(verb, path)
    case None => Refused(NotFound)
    case Some(e) =>
      match UserGuard(self, e)
      case None => Handled(e)
      case Some(allowed) => Guarded(allowed, auth, e)
  }

  /** The user router as written. */
  function UserDispatch(auth: AuthResult, verb: Verb, path: seq<string>): Dispatch<UserEndpoint> {
    UserDispatchWith(ProfileRolesAsWritten, auth, verb, path)
  }

  /** The user router with the own-profile routes open to customers. */
  function UserDispatchCorrected(auth: AuthResult, verb: Verb, path: seq<string>): Dispatch<UserEndpoint> {
    UserDispatchWith(ProfileRoles, auth, verb, path)
  }

  /** Registration, login and the password-reset request need no token. */
  lemma PublicUserRoutes(auth: AuthResult)
    ensures UserDispatch(auth, Post, ["register"]) == Handled(RegisterUser)
    ensures UserDispatch(auth, Post, ["login"]) == Handled(LoginUser)
    ensures UserDispatch(auth, Post, ["forgot-password"]) == Handled(ForgotPassword)
  {
  }

  /** Only an owner creates owners; owners and admins create staff. */
  lemma AccountCreationRoles(auth: AuthResult)
    ensures UserDispatch(auth, Post, ["create-owner"]).Handled? <==>
      auth.Authenticated? && auth.user.role == Owner
    ensures UserDispatch(auth, Post, ["create-staff"]).Handled? <==>
      auth.Authenticated? && (auth.user.role == Owner || auth.user.role == Admin)
  {
    LowerSegment("create-owner");
    LowerSegment("create-staff");
    if auth.Authenticated? {
      var name := RoleName(auth.user.role);
      assert name in ["owner"] <==> auth.user.role == Owner;
      assert name in ["owner", "admin"] <==> auth.user.role == Owner || auth.user.role == Admin;
    }
  }

  /** The admin dashboard admits admins only; user management admits owners and admins. */
  lemma DashboardRoles(auth: AuthResult)
    ensures UserDispatch(auth, Get, ["admin-dashboard"]).Handled? <==>
      auth.Authenticated? && auth.user.role == Admin
    ensures UserDispatch(auth, Get, ["manage-users"]).Handled? <==>
      auth.Authenticated? && (auth.user.role == Owner || auth.user.role == Admin)
  {
    LowerSegment("admin-dashboard");
    LowerSegment("manage-users");
    if auth.Authenticated? {
      var name := RoleName(auth.user.role);
      assert name in ["admin"] <==> auth.user.role == Admin;
      assert name in ["owner", "admin"] <==> auth.user.role == Owner || auth.user.role == Admin;
    }
  }

  /** As written, a customer (the role every registered user gets) and a
      staff member are refused their own profile update with 403. */
  lemma CustomersCannotUpdateProfile(p: Principal)
    requires p.role == Customer || p.role == Staff
    ensures UserDispatch(Authenticated(p), Put, ["update-profile"]) == Refused(Forbidden)
  {
    LowerSegment("update-profile");
    NonRoleNamesAdmitNobody([], "user", p);
    assert ProfileRolesAsWritten == ["user"] + ["admin", "owner"];
  }

  /** With the corrected list, every customer, admin and owner reaches the
      profile update, and staff are still refused. */
  lemma CorrectedProfileRoutes(p: Principal)
    ensures UserDispatchCorrected(Authenticated(p), Put, ["update-profile"]).Handled? <==> p.role != Staff
    ensures UserDispatchCorrected(Authenticated(p), Get, ["user-profile"]).Handled? <==> p.role != Staff
  {
    LowerSegment("update-profile");
    LowerSegment("user-profile");
    assert RoleName(p.role) in ProfileRoles <==> p.role != Staff;
  }

  // ---------------------------------------------------------------------------
  // Rooms

  /** The room router's table. The handlers for status updates, image upload
      and image deletion have no route. */
  datatype RoomEndpoint = CreateRoom | GetAllRooms | GetRoomById(id: string) | UpdateRoom(id: string)
                        | DeleteRoom(id: string)

  function RoomRoute(verb: Verb, path: seq<string>): Option<RoomEndpoint> {
    if path == [] then
      if verb == Post then Some(CreateRoom)
      else if verb == Get then Some(GetAllRooms)
      else None
    else if |path| == 1 && path[0] != "" then
      match verb
      case Get => Some(GetRoomById(path[0]))
      case Put => Some(UpdateRoom(path[0]))
      case Delete => Some(DeleteRoom(path[0]))
      case Post => None
    else None
  }

  /** The room table: collection routes at the root, one room below its id;
      nothing below a room (such as its status or images) is routed. */
  lemma RoomRouteTable(verb: Verb, id: string, rest: seq<string>)
    requires id != ""
    ensures RoomRoute(Post, []) == Some(CreateRoom) && RoomRoute(Get, []) == Some(GetAllRooms)
    ensures RoomRoute(Get, [id]) == Some(GetRoomById(id))
    ensures RoomRoute(Put, [id]) == Some(UpdateRoom(id))
    ensures RoomRoute(Delete, [id]) == Some(DeleteRoom(id))
    ensures RoomRoute(Post, [id]).None?
    ensures rest != [] ==> RoomRoute(verb, [id] + rest).None?
  {
  }

  const RoomManagers: seq<string> := ["admin", "manager"]

  function RoomDispatch(auth: AuthResult, verb: Verb, path: seq<string>): Dispatch<RoomEndpoint> {
    match Guarded(RoomManagers, auth, ())
    case Refused(s) => Refused(s)
    case Handled(_) =>
      match RoomRoute(verb, path)
      case None => Refused(NotFound)
      case Some(e) => Handled(e)
  }

  /** "manager" is not a role, so only admins reach the room handlers; an
      owner is refused with 403. */
  lemma RoomsForAdminsOnly(auth: AuthResult, verb: Verb, path: seq<string>)
    ensures RoomDispatch(auth, verb, path).Handled? ==> auth.Authenticated? && auth.user.role == Admin
    ensures auth.Authenticated? && auth.user.role != Admin ==> RoomDispatch(auth, verb, path) == Refused(Forbidden)
  {
    if auth.Authenticated? {
      NonRoleNamesAdmitNobody(["admin"], "manager", auth.user);
      assert RoleName(auth.user.role) in ["admin"] <==> auth.user.role == Admin;
    }
  }
}
