/** The User schema (models/user.model.js): roles, the e-mail pattern, the
    password rule, and the pre-save hook that hashes a changed password.
    Hashing and token signing are foreign cryptography; they are modelled
    symbolically: a digest records what it was made from, and a token
    records whose it is. */
module UserModel {

  import opened Wrappers
  import opened Text
  import opened Store

  datatype Role = Admin | Owner | Staff | Customer

  function RoleName(r: Role): string {
    match r
    case Admin => "admin"
    case Owner => "owner"
    case Staff => "staff"
    case Customer => "customer"
  }

  /** The `role` enum validator. */
  function ParseRole(s: string): (r: Option<Role>)
    ensures r.Some? ==> RoleName(r.value) == s
    ensures r.Some? <==> s in ["admin", "owner", "staff", "customer"]
  {
    if s == "admin" then Some(Admin)
    else if s == "owner" then Some(Owner)
    else if s == "staff" then Some(Staff)
    else if s == "customer" then Some(Customer)
    else None
  }

  lemma RoleRoundTrip(r: Role)
    ensures ParseRole(RoleName(r)) == Some(r)
  {
    match r
    case Admin =>
    case Owner =>
    case Staff =>
    case Customer =>
  }

  const DefaultRole: Role := Customer

  /** A stored password: the text as given, or a bcrypt digest of a value. */
  datatype Secret = Plain(text: string) | Digest(of: Secret)

  /** `bcrypt.compare(entered, stored)`. */
  predicate PasswordMatches(entered: string, stored: Secret) {
    stored == Digest(Plain(entered))
  }

  /** A signed JWT, reduced to what the backend relies on: whose it is. */
  datatype Token = AccessToken(subject: nat) | RefreshToken(subject: nat)

  /** A user document. The schema has no `refreshToken` path, so in strict
      mode a refresh token assigned to a user is never stored; `phone` is not
      part of this model. */
  datatype User = User(name: string, email: string, password: Secret, role: Role, isActive: bool)

  // ---------------------------------------------------------------------------
  // The e-mail pattern ^[\w-.]+@([\w-]+\.)+[\w-]{2,4}$

  /** `[\w-]`: an ASCII letter or digit, `_` or `-`. */
  predicate WordChar(c: char) {
    'a' <= c <= 'z' || 'A' <= c <= 'Z' || '0' <= c <= '9' || c == '_' || c == '-'
  }

  predicate AllWord(s: string) {
    forall i :: 0 <= i < |s| ==> WordChar(s[i])
  }

  /** `[\w-.]+` */
  predicate LocalPart(s: string) {
    s != [] && forall i :: 0 <= i < |s| ==> WordChar(s[i]) || s[i] == '.'
  }

  /** `[\w-]{2,4}` */
  predicate TopLevel(s: string) {
    2 <= |s| <= 4 && AllWord(s)
  }

  /** Length of the run of word characters `s` starts with. */
  function WordRun(s: string): (n: nat)
    ensures n <= |s| && AllWord(s[..n]) && (n < |s| ==> !WordChar(s[n]))
  {
    if s != [] && WordChar(s[0]) then
      var n := 1 + WordRun(s[1..]);
      assert forall i :: 1 <= i < n ==> s[..n][i] == s[1..][..n - 1][i - 1];
      n
    else 0
  }

  /** The domain, read left to right: a word, a dot, and then either the
      top-level part or another such domain. */
  predicate ValidDomain(d: string)
    decreases |d|
  {
    var k := WordRun(d);
    0 < k < |d| && d[k] == '.' && (TopLevel(d[k + 1..]) || ValidDomain(d[k + 1..]))
  }

  /** The e-mail validator: a local part up to the first `@`, then a domain. */
  predicate ValidEmail(s: string) {
    match IndexOf(s, "@")
    case None => false
    case Some(a) => LocalPart(s[..a]) && ValidDomain(s[a + 1..])
  }

  /** `([\w-]+\.)+`, clause by clause. */
  ghost predicate Groups(g: string)
    decreases |g|
  {
    exists k :: 0 < k < |g| && g[k] == '.' && AllWord(g[..k]) && (k + 1 == |g| || Groups(g[k + 1..]))
  }

  /** The pattern as written: some split into local part, `@`, groups and top level. */
  ghost predicate EmailPattern(s: string) {
    exists a, g :: 0 <= a < g <= |s| && s[a] == '@' && LocalPart(s[..a])
                   && Groups(s[a + 1..g]) && TopLevel(s[g..])
  }

  ghost predicate DomainPattern(d: string) {
    exists g :: 0 <= g <= |d| && Groups(d[..g]) && TopLevel(d[g..])
  }

  /** A word run ends exactly at the first non-word character. */
  lemma WordRunEndsAt(d: string, j: nat)
    requires j < |d| && AllWord(d[..j]) && !WordChar(d[j])
    ensures WordRun(d) == j
  {
  }

  lemma GroupsIntro(g: string, k: nat)
    requires 0 < k < |g| && g[k] == '.' && AllWord(g[..k]) && (k + 1 == |g| || Groups(g[k + 1..]))
    ensures Groups(g)
  {
  }

  lemma {:induction false} DomainToPattern(d: string)
    requires ValidDomain(d)
    ensures DomainPattern(d)
    decreases |d|
  {
    var k := WordRun(d);
    var rest := d[k + 1..];
    if TopLevel(rest) {
      assert d[..k + 1][..k] == d[..k];
      GroupsIntro(d[..k + 1], k);
      assert d[k + 1..] == rest;
    } else {
      DomainToPattern(rest);
      var g' :| 0 <= g' <= |rest| && Groups(rest[..g']) && TopLevel(rest[g'..]);
      var g := k + 1 + g';
      assert d[..g][..k] == d[..k];
      assert d[..g][k + 1..] == rest[..g'];
      GroupsIntro(d[..g], k);
      assert d[g..] == rest[g'..];
    }
  }

  lemma {:induction false} PatternToDomain(d: string, g: nat)
    requires g <= |d| && Groups(d[..g]) && TopLevel(d[g..])
    ensures ValidDomain(d)
    decreases |d|
  {
    var j :| 0 < j < g && d[..g][j] == '.' && AllWord(d[..g][..j]) && (j + 1 == g || Groups(d[..g][j + 1..]));
    assert d[..g][..j] == d[..j];
    WordRunEndsAt(d, j);
    var rest := d[j + 1..];
    if j + 1 == g {
      assert rest == d[g..];
    } else {
      assert d[..g][j + 1..] == rest[..g - j - 1];
      assert rest[g - j - 1..] == d[g..];
      PatternToDomain(rest, g - j - 1);
    }
  }

  /** A local part holds no `@`, so the `@` after it is the first one. */
  lemma FirstAt(s: string, a: nat)
    requires a < |s| && s[a] == '@' && LocalPart(s[..a])
    ensures IndexOf(s, "@") == Some(a)
  {
    assert s[a..a + 1] == "@";
    assert OccursAt(s, "@", a);
    forall k | 0 <= k < a
      ensures !OccursAt(s, "@", k)
    {
      assert s[..a][k] == s[k];
      assert s[k..k + 1][0] == s[k];
    }
  }

  lemma EmailToPattern(s: string)
    requires ValidEmail(s)
    ensures EmailPattern(s)
  {
    var a := IndexOf(s, "@").value;
    assert s[a..a + 1] == "@" && s[a] == s[a..a + 1][0];
    var d := s[a + 1..];
    DomainToPattern(d);
    var g' :| 0 <= g' <= |d| && Groups(d[..g']) && TopLevel(d[g'..]);
    var g := a + 1 + g';
    assert s[a + 1..g] == d[..g'];
    assert s[g..] == d[g'..];
  }

  lemma PatternToEmail(s: string)
    requires EmailPattern(s)
    ensures ValidEmail(s)
  {
    var a, g :| 0 <= a < g <= |s| && s[a] == '@' && LocalPart(s[..a])
                && Groups(s[a + 1..g]) && TopLevel(s[g..]);
    FirstAt(s, a);
    var d := s[a + 1..];
    assert d[..g - a - 1] == s[a + 1..g];
    assert d[g - a - 1..] == s[g..];
    PatternToDomain(d, g - a - 1);
  }

  /** The computable validator and the pattern as written accept the same strings. */
  lemma ValidEmailIsPattern(s: string)
    ensures ValidEmail(s) <==> EmailPattern(s)
  {
    if ValidEmail(s) {
      EmailToPattern(s);
    }
    if EmailPattern(s) {
      PatternToEmail(s);
    }
  }

  // ---------------------------------------------------------------------------
  // Validation, uniqueness and the pre-save hook

  /** The length the `minlength` validator sees: a bcrypt digest has 60 characters. */
  function PasswordLength(p: Secret): nat {
    match p
    case Plain(t) => |t|
    case Digest(_) => 60
  }

  /** The schema's validators: name required, e-mail matches the pattern,
      password of at least 6 characters. */
  predicate ValidUser(u: User) {
    u.name != "" && ValidEmail(u.email) && PasswordLength(u.password) >= 6
  }

  /** The unique index on `email`. */
  ghost predicate UniqueEmails(docs: seq<Doc<User>>) {
    forall i, j :: 0 <= i < j < |docs| ==> docs[i].val.email != docs[j].val.email
  }

  /** The first stored user with the given e-mail (`findOne({ email })`). */
  function FindByEmail(docs: seq<Doc<User>>, email: string): (k: Option<nat>)
    ensures k.Some? ==> k.value < |docs| && docs[k.value].val.email == email
    ensures k.None? <==> forall i :: 0 <= i < |docs| ==> docs[i].val.email != email
  {
    if docs == [] then None
    else if docs[0].val.email == email then Some(0)
    else match FindByEmail(docs[1..], email)
      case None =>
        assert forall i :: 1 <= i < |docs| ==> docs[i] == docs[1..][i - 1];
        None
      case Some(k) => Some(k + 1)
  }

  /** A user document being edited before `save()`: its fields, and whether
      the password path was modified since it was created or loaded. */
  class UserDocument {
    var name: string
    var email: string
    var password: Secret
    var role: Role
    var isActive: bool
    var passwordModified: bool

    function Value(): User
      reads this
    {
      User(name, email, password, role, isActive)
    }

    /** A document read from the collection: nothing is modified yet. */
    constructor Load(u: User)
      ensures Value() == u && !passwordModified
    {
      name, email, password, role := u.name, u.email, u.password, u.role;
      isActive := u.isActive;
      passwordModified := false;
    }

    /** `new User({ name, email, password, role? })`: the e-mail setter
        lower-cases, absent fields take their defaults, and a new document's
        password counts as modified. */
    constructor Create(name: string, email: string, password: string, role: Option<Role>)
      ensures Value() == User(name, ToLower(email), Plain(password),
                              match role case Some(r) => r case None => DefaultRole, true)
      ensures passwordModified
    {
      this.name := name;
      this.email := ToLower(email);
      this.password := Plain(password);
      this.role := match role case Some(r) => r case None => DefaultRole;
      isActive := true;
      passwordModified := true;
    }

    method SetName(n: string)
      modifies this
      ensures Value() == old(Value()).(name := n) && passwordModified == old(passwordModified)
    {
      name := n;
    }

    method SetPassword(p: string)
      modifies this
      ensures Value() == old(Value()).(password := Plain(p)) && passwordModified
    {
      password := Plain(p);
      passwordModified := true;
    }

    /** The pre-save hook: a modified password is replaced by its digest; an
        unmodified one is left exactly as it is, so a stored digest is never
        hashed twice. */
    method PreSave()
      modifies this`password
      ensures old(passwordModified) ==> password == Digest(old(password))
      ensures !old(passwordModified) ==> password == old(password)
    {
      if passwordModified {
        password := Digest(password);
      }
    }
  }

  /** `save()` of a new document: validation, the pre-save hook, and the
      insert, which the unique index on `email` may refuse. */
  method SaveNew(users: Collection<User>, doc: UserDocument) returns (id: Option<nat>)
    requires users.Valid() && UniqueEmails(users.docs)
    requires doc.passwordModified
    modifies users, doc`password
    ensures users.Valid() && UniqueEmails(users.docs)
    ensures id.Some? <==> ValidUser(old(doc.Value()))
                          && FindByEmail(old(users.docs), old(doc.email)).None?
    ensures id.Some? ==>
      && id.value == old(users.nextId)
      && users.docs == old(users.docs) + [Doc(id.value, old(doc.Value()).(password := Digest(old(doc.password))))]
    ensures id.None? ==> users.docs == old(users.docs)
  {
    if !ValidUser(doc.Value()) || FindByEmail(users.docs, doc.email).Some? {
      return None;
    }
    doc.PreSave();
    var newId := users.Insert(doc.Value());
    id := Some(newId);
  }

  /** `save()` of a loaded document stored at position `k`. */
  method SaveExisting(users: Collection<User>, k: nat, doc: UserDocument) returns (ok: bool)
    requires users.Valid() && UniqueEmails(users.docs) && k < |users.docs|
    requires doc.email == users.docs[k].val.email
    modifies users, doc`password
    ensures users.Valid() && UniqueEmails(users.docs)
    ensures ok <==> ValidUser(old(doc.Value()))
    ensures ok ==> users.docs == old(users.docs)[k := Doc(old(users.docs)[k].id, doc.Value())]
    ensures ok ==> doc.Value() == old(doc.Value()).(password :=
                     if old(doc.passwordModified) then Digest(old(doc.password)) else old(doc.password))
    ensures !ok ==> users.docs == old(users.docs)
  {
    if !ValidUser(doc.Value()) {
      return false;
    }
    doc.PreSave();
    users.Put(k, doc.Value());
    ok := true;
    forall i, j | 0 <= i < j < |users.docs|
      ensures users.docs[i].val.email != users.docs[j].val.email
    {
      assert users.docs[i].val.email == old(users.docs)[i].val.email;
      assert users.docs[j].val.email == old(users.docs)[j].val.email;
    }
  }
}
