/** The user handlers (controller/usercontroller.js): registration and the
    two staff-account creators, login, logout, profile update and the
    forgotten-password request. Status codes are what the client receives;
    an error thrown without a status code (a failed schema validation)
    becomes 500 through the async wrapper. */
module UserController {

  import opened Wrappers
  import opened Text
  import opened Store
  import opened Http
  import opened UserModel

  /** A body field the handler treats as given: present and not the empty string. */
  predicate Given(s: Option<string>) {
    s.Some? && s.value != ""
  }

  function RoleOr(role: Option<Role>): Role {
    match role case Some(r) => r case None => DefaultRole
  }

  /** A user as stored: it passed the validators and its password is a digest. */
  predicate AtRest(u: User) {
    ValidUser(u) && u.password.Digest?
  }

  ghost predicate AllAtRest(docs: seq<Doc<User>>) {
    forall i :: 0 <= i < |docs| ==> AtRest(docs[i].val)
  }

  /** The users collection as the handlers keep it. */
  ghost predicate Sound(users: Collection<User>)
    reads users
  {
    users.Valid() && UniqueEmails(users.docs) && AllAtRest(users.docs)
  }

  /** The document `User.create` validates: the handler lower-cases the name,
      the schema's setter lower-cases the e-mail. */
  function Candidate(name: string, email: string, password: string, role: Option<Role>): User {
    User(ToLower(name), ToLower(email), Plain(password), RoleOr(role), true)
  }

  /** The user that ends up stored: the candidate with its password hashed. */
  function Registered(name: string, email: string, password: string, role: Option<Role>): (u: User)
    ensures ValidUser(Candidate(name, email, password, role)) ==> AtRest(u)
    ensures PasswordMatches(password, u.password)
    ensures u.email == ToLower(email) && u.role == RoleOr(role) && u.isActive
  {
    Candidate(name, email, password, role).(password := Digest(Plain(password)))
  }

  /** What creating an account does to the collection and answers:
      400 when a field is missing or the e-mail is taken (whatever its case),
      500 when a validator fails, otherwise 201 and the new user appended. */
  ghost predicate AccountCreated(before: seq<Doc<User>>, after: seq<Doc<User>>, id: nat,
                                 name: Option<string>, email: Option<string>, password: Option<string>,
                                 role: Option<Role>, code: int)
  {
    if !Given(name) || !Given(email) || !Given(password) then
      code == BadRequest && after == before
    else if FindByEmail(before, ToLower(email.value)).Some? then
      code == BadRequest && after == before
    else if !ValidUser(Candidate(name.value, email.value, password.value, role)) then
      code == InternalError && after == before
    else
      code == Created && after == before + [Doc(id, Registered(name.value, email.value, password.value, role))]
  }

  /** The shared body of `registerUser`, `createOwner` and `createStaff`;
      `role` is the role the handler passes to `User.create`. */
  method CreateAccount(users: Collection<User>, name: Option<string>, email: Option<string>,
                       password: Option<string>, role: Option<Role>) returns (code: int)
    requires Sound(users)
    modifies users
    ensures Sound(users)
    ensures AccountCreated(old(users.docs), users.docs, old(users.nextId), name, email, password, role, code)
  {
    if !Given(name) || !Given(email) || !Given(password) {
      return BadRequest;
    }
    if FindByEmail(users.docs, ToLower(email.value)).Some? {
      return BadRequest;
    }
    var doc := new UserDocument.Create(ToLower(name.value), email.value, password.value, role);
    assert ToLower(ToLower(name.value)) == ToLower(name.value) by { ToLowerIdempotent(name.value); }
    var id := SaveNew(users, doc);
    if id.None? {
      return InternalError;
    }
    code := Created;
  }

  /** `registerUser`: a customer account. */
  method RegisterUser(users: Collection<User>, name: Option<string>, email: Option<string>,
                      password: Option<string>) returns (code: int)
    requires Sound(users)
    modifies users
    ensures Sound(users)
    ensures AccountCreated(old(users.docs), users.docs, old(users.nextId), name, email, password, None, code)
  {
    code := CreateAccount(users, name, email, password, None);
  }

  /** `createOwner`: an owner account; the body calls the name `username`. */
  method CreateOwner(users: Collection<User>, username: Option<string>, email: Option<string>,
                     password: Option<string>) returns (code: int)
    requires Sound(users)
    modifies users
    ensures Sound(users)
    ensures AccountCreated(old(users.docs), users.docs, old(users.nextId), username, email, password, Some(Owner), code)
  {
    code := CreateAccount(users, username, email, password, Some(Owner));
  }

  /** `createStaff`: a staff account. */
  method CreateStaff(users: Collection<User>, username: Option<string>, email: Option<string>,
                     password: Option<string>) returns (code: int)
    requires Sound(users)
    modifies users
    ensures Sound(users)
    ensures AccountCreated(old(users.docs), users.docs, old(users.nextId), username, email, password, Some(Staff), code)
  {
    code := CreateAccount(users, username, email, password, Some(Staff));
  }

  /** A login answer: the status and, on success, the access and refresh tokens. */
  datatype LoginReply = LoginReply(status: int, tokens: Option<(Token, Token)>)

  /** `loginUser`. Looking a user up by name refers to an undefined variable,
      so any request that gives a name fails with 500; the lookup by e-mail
      goes through the lower-casing setter. The refresh token the handler
      assigns to the user is not a schema path, so the save that follows
      writes nothing: login leaves the collection as it was. */
  function Login(docs: seq<Doc<User>>, name: Option<string>, email: Option<string>,
                 password: Option<string>): (r: LoginReply)
    ensures (!Given(name) && !Given(email)) || !Given(password) ==> r == LoginReply(BadRequest, None)
    ensures Given(name) && Given(password) ==> r == LoginReply(InternalError, None)
    ensures r.status == OK <==> r.tokens.Some?
    ensures (&& !Given(name) && Given(email) && Given(password)
             && FindByEmail(docs, ToLower(email.value)).None?) ==> r == LoginReply(NotFound, None)
    ensures (&& !Given(name) && Given(email) && Given(password)
             && FindByEmail(docs, ToLower(email.value)).Some?
             && !PasswordMatches(password.value, docs[FindByEmail(docs, ToLower(email.value)).value].val.password))
            ==> r == LoginReply(Unauthorized, None)
    ensures r.status == OK ==>
      exists i :: 0 <= i < |docs| && docs[i].val.email == ToLower(email.value)
        && PasswordMatches(password.value, docs[i].val.password)
        && r.tokens.value == (AccessToken(docs[i].id), RefreshToken(docs[i].id))
  {
    if (!Given(name) && !Given(email)) || !Given(password) then LoginReply(BadRequest, None)
    else if Given(name) then LoginReply(InternalError, None)
    else match FindByEmail(docs, ToLower(email.value))
      case None => LoginReply(NotFound, None)
      case Some(k) =>
        if !PasswordMatches(password.value, docs[k].val.password) then LoginReply(Unauthorized, None)
        else LoginReply(OK, Some((AccessToken(docs[k].id), RefreshToken(docs[k].id))))
  }

  /** With unique e-mails, login by e-mail succeeds exactly for a stored
      user with that (lower-cased) e-mail whose password digest matches. */
  lemma LoginSucceedsExactly(docs: seq<Doc<User>>, email: string, password: string)
    requires UniqueEmails(docs) && email != "" && password != ""
    ensures Login(docs, None, Some(email), Some(password)).status == OK <==>
      exists i :: 0 <= i < |docs| && docs[i].val.email == ToLower(email)
        && PasswordMatches(password, docs[i].val.password)
  {
    if exists i :: 0 <= i < |docs| && docs[i].val.email == ToLower(email)
                   && PasswordMatches(password, docs[i].val.password) {
      var i :| 0 <= i < |docs| && docs[i].val.email == ToLower(email)
               && PasswordMatches(password, docs[i].val.password);
      var k := FindByEmail(docs, ToLower(email)).value;
      assert k == i;
    }
  }

  /** A freshly registered user can log in with the password they
      registered with and any spelling of their e-mail that lower-cases to
      the same string. */
  lemma RegisteredCanLogIn(docs: seq<Doc<User>>, id: nat, name: string, email: string,
                           password: string, role: Option<Role>, loginEmail: string)
    requires FindByEmail(docs, ToLower(email)).None? && email != "" && password != ""
    requires ToLower(loginEmail) == ToLower(email)
    ensures var after := docs + [Doc(id, Registered(name, email, password, role))];
            Login(after, None, Some(loginEmail), Some(password))
              == LoginReply(OK, Some((AccessToken(id), RefreshToken(id))))
  {
    var after := docs + [Doc(id, Registered(name, email, password, role))];
    assert |loginEmail| == |email|;
    assert after[|docs|].val.email == ToLower(loginEmail);
  }

  /** Upper-case letters in the e-mail given at login make no difference. */
  lemma MixedCaseEmailLogsIn(docs: seq<Doc<User>>, id: nat, name: string, password: string, role: Option<Role>)
    requires FindByEmail(docs, "ann@inn.io").None? && password != ""
    ensures var after := docs + [Doc(id, Registered(name, "ann@inn.io", password, role))];
            Login(after, None, Some("Ann@INN.io"), Some(password)).status == OK
  {
    assert ToLower("ann@inn.io") == "ann@inn.io";
    assert ToLower("Ann@INN.io") == "ann@inn.io";
    RegisteredCanLogIn(docs, id, name, "ann@inn.io", password, role, "Ann@INN.io");
  }

  /** A user the login query `$or: [{ email }, { name }]` selects, with both
      keys lower-cased as the schema's setter and the handler intend. */
  predicate LoginKeyMatches(u: User, name: Option<string>, email: Option<string>) {
    (Given(email) && u.email == ToLower(email.value)) || (Given(name) && u.name == ToLower(name.value))
  }

  /** `findOne` with that query: the first matching user in store order. */
  function FindLoginMatch(docs: seq<Doc<User>>, name: Option<string>, email: Option<string>): (k: Option<nat>)
    ensures k.Some? ==> k.value < |docs| && LoginKeyMatches(docs[k.value].val, name, email)
    ensures k.Some? ==> forall i :: 0 <= i < k.value ==> !LoginKeyMatches(docs[i].val, name, email)
    ensures k.None? ==> forall i :: 0 <= i < |docs| ==> !LoginKeyMatches(docs[i].val, name, email)
  {
    if docs == [] then None
    else if LoginKeyMatches(docs[0].val, name, email) then Some(0)
    else match FindLoginMatch(docs[1..], name, email)
      case None =>
        assert forall i :: 1 <= i < |docs| ==> docs[i] == docs[1..][i - 1];
        None
      case Some(k) =>
        assert forall i :: 1 <= i < k + 1 ==> docs[i] == docs[1..][i - 1];
        Some(k + 1)
  }

  /** `loginUser` with the name lookup written as evidently intended
      (`name.toLowerCase()`): the request no longer fails with 500, and the
      first user matching the e-mail or the name is checked. */
  function LoginCorrected(docs: seq<Doc<User>>, name: Option<string>, email: Option<string>,
                          password: Option<string>): (r: LoginReply)
    ensures (!Given(name) && !Given(email)) || !Given(password) ==> r == LoginReply(BadRequest, None)
    ensures r.status != InternalError
    ensures r.status == OK <==> r.tokens.Some?
    ensures r.status == OK ==>
      exists i :: 0 <= i < |docs| && LoginKeyMatches(docs[i].val, name, email)
        && PasswordMatches(password.value, docs[i].val.password)
        && r.tokens.value == (AccessToken(docs[i].id), RefreshToken(docs[i].id))
  {
    if (!Given(name) && !Given(email)) || !Given(password) then LoginReply(BadRequest, None)
    else match FindLoginMatch(docs, name, email)
      case None => LoginReply(NotFound, None)
      case Some(k) =>
        if !PasswordMatches(password.value, docs[k].val.password) then LoginReply(Unauthorized, None)
        else LoginReply(OK, Some((AccessToken(docs[k].id), RefreshToken(docs[k].id))))
  }

  /** Without a name the corrected login is the login as written. */
  lemma {:induction false} LoginCorrectedByEmail(docs: seq<Doc<User>>, email: Option<string>, password: Option<string>)
    ensures LoginCorrected(docs, None, email, password) == Login(docs, None, email, password)
  {
    if Given(email) {
      FindLoginMatchIsFindByEmail(docs, email.value);
    }
  }

  lemma {:induction false} FindLoginMatchIsFindByEmail(docs: seq<Doc<User>>, email: string)
    requires email != ""
    ensures FindLoginMatch(docs, None, Some(email)) == FindByEmail(docs, ToLower(email))
  {
    if docs != [] {
      FindLoginMatchIsFindByEmail(docs[1..], email);
    }
  }

  /** With the corrected lookup, the first user of a given name logs in by
      that name with its password, where the handler as written answers 500. */
  lemma LoginByName(docs: seq<Doc<User>>, k: nat, name: string, password: string)
    requires k < |docs| && name != "" && password != ""
    requires docs[k].val.name == ToLower(name) && PasswordMatches(password, docs[k].val.password)
    requires forall i :: 0 <= i < k ==> docs[i].val.name != ToLower(name)
    ensures LoginCorrected(docs, Some(name), None, Some(password))
              == LoginReply(OK, Some((AccessToken(docs[k].id), RefreshToken(docs[k].id))))
    ensures Login(docs, Some(name), None, Some(password)) == LoginReply(InternalError, None)
  {
    var m := FindLoginMatch(docs, Some(name), None);
    assert LoginKeyMatches(docs[k].val, Some(name), None);
    assert m == Some(k);
  }

  /** `logoutUser`. Its `$set` of `refreshToken` names a path outside the
      schema, which strict mode drops: logout always answers 200 and no
      stored user changes. */
  method LogoutUser(users: Collection<User>, caller: nat) returns (code: int)
    ensures code == OK
  {
    code := OK;
  }

  /** The user after a profile update: a given name is lower-cased, a given
      password is hashed; anything not given is kept as stored. */
  function Profile(u: User, username: Option<string>, password: Option<string>): (v: User)
    ensures v.email == u.email && v.role == u.role && v.isActive == u.isActive
    ensures !Given(username) ==> v.name == u.name
    ensures Given(username) ==> v.name == ToLower(username.value)
    ensures !Given(password) ==> v.password == u.password
    ensures Given(password) ==> PasswordMatches(password.value, v.password)
  {
    u.(name := if Given(username) then ToLower(username.value) else u.name,
       password := if Given(password) then Digest(Plain(password.value)) else u.password)
  }

  /** `updateUserProfile` for the signed-in user `caller`: 404 when the user
      is gone, 500 when a new password is shorter than six characters, and
      otherwise 200 with the profile updated. */
  method UpdateUserProfile(users: Collection<User>, caller: nat, username: Option<string>,
                           password: Option<string>) returns (code: int)
    requires Sound(users)
    modifies users
    ensures Sound(users)
    ensures code == NotFound <==> !HasId(old(users.docs), caller)
    ensures code == InternalError <==>
      HasId(old(users.docs), caller) && Given(password) && |password.value| < 6
    ensures code == OK || code == NotFound || code == InternalError
    ensures code == OK ==>
      var k := Find(old(users.docs), caller).value;
      users.docs == old(users.docs)[k := Doc(caller, Profile(old(users.docs)[k].val, username, password))]
    ensures code != OK ==> users.docs == old(users.docs)
  {
    var k := Find(users.docs, caller);
    if k.None? {
      return NotFound;
    }
    var stored := users.docs[k.value].val;
    var doc := new UserDocument.Load(stored);
    if Given(username) {
      doc.SetName(ToLower(username.value));
    }
    if Given(password) {
      doc.SetPassword(password.value);
    }
    ghost var edited := doc.Value();
    assert edited.password == if Given(password) then Plain(password.value) else stored.password;
    assert ValidUser(edited) <==> !(Given(password) && |password.value| < 6);
    var ok := SaveExisting(users, k.value, doc);
    if !ok {
      return InternalError;
    }
    assert doc.Value() == Profile(stored, username, password);
    code := OK;
  }

  /** Replacing users without touching any e-mail leaves every e-mail lookup as it was. */
  lemma {:induction false} FindByEmailIgnoresOtherFields(a: seq<Doc<User>>, b: seq<Doc<User>>, email: string)
    requires |a| == |b| && forall i :: 0 <= i < |a| ==> a[i].val.email == b[i].val.email
    ensures FindByEmail(a, email) == FindByEmail(b, email)
  {
    if a != [] {
      FindByEmailIgnoresOtherFields(a[1..], b[1..], email);
    }
  }

  /** An update that gives no new password keeps the stored digest as it is
      (it is not hashed a second time): every login answers as before, and
      the same tokens are issued. */
  lemma UpdateKeepsLogin(docs: seq<Doc<User>>, k: nat, username: Option<string>,
                         email: Option<string>, password: Option<string>)
    requires k < |docs|
    ensures var after := docs[k := Doc(docs[k].id, Profile(docs[k].val, username, None))];
            Login(after, None, email, password) == Login(docs, None, email, password)
  {
    var after := docs[k := Doc(docs[k].id, Profile(docs[k].val, username, None))];
    if Given(email) {
      FindByEmailIgnoresOtherFields(after, docs, ToLower(email.value));
    }
  }

  /** After an update that sets a new password, login by e-mail succeeds
      with that password. */
  lemma NewPasswordLogsIn(docs: seq<Doc<User>>, k: nat, username: Option<string>, password: string)
    requires UniqueEmails(docs) && k < |docs| && password != ""
    ensures var after := docs[k := Doc(docs[k].id, Profile(docs[k].val, username, Some(password)))];
            var e := docs[k].val.email;
            e == ToLower(e) && e != "" ==>
            Login(after, None, Some(e), Some(password))
              == LoginReply(OK, Some((AccessToken(docs[k].id), RefreshToken(docs[k].id))))
  {
    var after := docs[k := Doc(docs[k].id, Profile(docs[k].val, username, Some(password)))];
    var e := docs[k].val.email;
    FindByEmailIgnoresOtherFields(after, docs, e);
    assert FindByEmail(docs, e) == Some(k);
  }

  /** `forgotPassword`: 400 without an e-mail, 404 when no user has it,
      otherwise 200; nothing is stored or sent. */
  function ForgotPassword(docs: seq<Doc<User>>, email: Option<string>): (code: int)
    ensures !Given(email) ==> code == BadRequest
    ensures Given(email) ==>
      (code == OK <==> exists i :: 0 <= i < |docs| && docs[i].val.email == ToLower(email.value))
    ensures Given(email) && code != OK ==> code == NotFound
  {
    if !Given(email) then BadRequest
    else if FindByEmail(docs, ToLower(email.value)).None? then NotFound
    else OK
  }
}
