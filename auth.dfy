/**
 * Authentication and accounts: reading the bearer token, the role gate, and
 * the login, signup and invite handlers. Signing and verifying a token and
 * hashing and comparing a password are parameters. Being functions, they
 * are deterministic: the same password always hashes to the same string,
 * where bcrypt draws a fresh salt for every hash.
 */
module Auth {
  import opened Wrappers
  import opened Seqs
  import opened Text
  import opened Http
  import opened Store

  /** The identity a token carries, and that the middleware attaches as `req.user`. */
  datatype AuthPayload = AuthPayload(userId: string, tenantId: string, role: StoredRole)

  /** The `{ token, user, tenant }` body of a successful login or signup. */
  datatype Session = Session(token: string, user: UserView, tenant: TenantView)

  // ------------------------------------------------------- header parsing

  /** `s.split(sep)` for a one-character separator: the fields between the separators. */
  function Split(s: string, sep: char): (r: seq<string>)
    ensures |r| >= 1
    ensures forall i :: 0 <= i < |r| ==> sep !in r[i]
  {
    if |s| == 0 then [""]
    else
      var rest := Split(s[1..], sep);
      if s[0] == sep then [""] + rest else [[s[0]] + rest[0]] + rest[1..]
  }

  /** `parts.join(sep)`: the inverse of Split. */
  function Join(parts: seq<string>, sep: char): string {
    if |parts| == 0 then ""
    else if |parts| == 1 then parts[0]
    else parts[0] + [sep] + Join(parts[1..], sep)
  }

  /** Joining the fields back with the separator gives the original string. */
  lemma {:induction false} JoinSplit(s: string, sep: char)
    ensures Join(Split(s, sep), sep) == s
  {
    if |s| > 0 {
      var rest := Split(s[1..], sep);
      JoinSplit(s[1..], sep);
      if s[0] == sep {
        assert ([""] + rest)[1..] == rest;
      } else if |rest| > 1 {
        assert ([[s[0]] + rest[0]] + rest[1..])[1..] == rest[1..];
      }
    }
  }

  /** A string without the separator is a single field. */
  lemma {:induction false} SplitWord(w: string, sep: char)
    requires sep !in w
    ensures Split(w, sep) == [w]
  {
    if |w| > 0 {
      SplitWord(w[1..], sep);
      assert w == [w[0]] + w[1..];
    }
  }

  /** A separator-free word followed by the separator is the first field. */
  lemma {:induction false} SplitWordThenSep(w: string, t: string, sep: char)
    requires sep !in w
    ensures Split(w + [sep] + t, sep) == [w] + Split(t, sep)
  {
    if |w| == 0 {
      assert (w + [sep] + t)[1..] == t;
    } else {
      assert (w + [sep] + t)[1..] == w[1..] + [sep] + t;
      SplitWordThenSep(w[1..], t, sep);
      assert w == [w[0]] + w[1..];
    }
  }

  /** Splitting a join of separator-free fields gives the fields back. */
  lemma {:induction false} SplitJoin(parts: seq<string>, sep: char)
    requires |parts| >= 1
    requires forall i :: 0 <= i < |parts| ==> sep !in parts[i]
    ensures Split(Join(parts, sep), sep) == parts
  {
    if |parts| == 1 {
      SplitWord(parts[0], sep);
    } else {
      SplitWordThenSep(parts[0], Join(parts[1..], sep), sep);
      SplitJoin(parts[1..], sep);
    }
  }

  // ----------------------------------------------------------- middleware

  /**
   * `authMiddleware`: the identity the `Authorization` header carries. The
   * token is the second space-separated field; the first one (the scheme,
   * normally `Bearer`) is not looked at. `None` for the header means absent.
   */
  function Authenticate(header: Option<string>, verify: string -> Option<AuthPayload>): (r: Result<AuthPayload>)
    ensures header == None || header == Some("") ==> r == Err(MissingAuthHeader)
    ensures header.Some? && header.value != "" && ' ' !in header.value ==> r == Err(InvalidAuthHeader)
    ensures r.Ok? ==> header.Some? && |Split(header.value, ' ')| >= 2 && verify(Split(header.value, ' ')[1]) == Some(r.value)
    ensures r.Err? ==> r.error in {MissingAuthHeader, InvalidAuthHeader, InvalidToken}
    ensures header.Some? && header.value != "" ==>
      var f := Split(header.value, ' ');
      && (r == Err(InvalidAuthHeader) <==> |f| < 2 || f[1] == "")
      && (|f| >= 2 && f[1] != "" && verify(f[1]).None? ==> r == Err(InvalidToken))
      && (|f| >= 2 && f[1] != "" && verify(f[1]).Some? ==> r == Ok(verify(f[1]).value))
  {
    match header
    case None => Err(MissingAuthHeader)
    case Some(h) =>
      if h == "" then Err(MissingAuthHeader)
      else
        var fields := Split(h, ' ');
        assert ' ' !in h ==> |fields| == 1 by {
          if ' ' !in h { SplitWord(h, ' '); }
        }
        if |fields| < 2 || fields[1] == "" then Err(InvalidAuthHeader)
        else
          match verify(fields[1])
          case None => Err(InvalidToken)
          case Some(p) => Ok(p)
  }

  /**
   * A header `"<scheme> <token>"` carrying a token that verifies to `p`
   * authenticates as `p`. Tokens are base64url text, so they hold no space.
   */
  lemma BearerRoundTrip(scheme: string, p: AuthPayload, sign: AuthPayload -> string,
                        verify: string -> Option<AuthPayload>)
    requires ' ' !in scheme && sign(p) != "" && ' ' !in sign(p)
    requires verify(sign(p)) == Some(p)
    ensures Authenticate(Some(scheme + " " + sign(p)), verify) == Ok(p)
  {
    var parts := [scheme, sign(p)];
    assert Join(parts, ' ') == scheme + " " + sign(p) by {
      assert Join(parts[1..], ' ') == sign(p);
    }
    SplitJoin(parts, ' ');
  }

  /** Any scheme word is accepted: only what follows the first space counts. */
  lemma SchemeIgnored(a: string, b: string, rest: string, verify: string -> Option<AuthPayload>)
    requires ' ' !in a && ' ' !in b
    ensures Authenticate(Some(a + " " + rest), verify) == Authenticate(Some(b + " " + rest), verify)
  {
    SplitWordThenSep(a, rest, ' ');
    SplitWordThenSep(b, rest, ' ');
    assert a + " " + rest == a + [' '] + rest;
    assert b + " " + rest == b + [' '] + rest;
  }

  /**
   * `requireRole(role)`: without an identity the request is unauthenticated;
   * the admin gate lets only admins through, the member gate everyone. The
   * gate itself is typed to be one of the two roles.
   */
  function RequireRole(role: Role, user: Option<AuthPayload>): (r: Result<AuthPayload>)
    requires role == Admin || role == Member
    ensures user.None? ==> r == Err(Unauthenticated)
    ensures r.Ok? ==> user.Some? && r.value == user.value
    ensures user.Some? ==> (r.Ok? <==> role == Member || user.value.role == Admin)
    ensures user.Some? && r.Err? ==> r.error == AdminRequired
  {
    match user
    case None => Err(Unauthenticated)
    case Some(u) =>
      if role == Admin && u.role != Admin then Err(AdminRequired)
      else
        assert role == Member || u.role == Admin;
        Ok(u)
  }

  /**
   * The gate in front of the invite and upgrade routes: the middleware, then
   * `requireRole("admin")`. It passes exactly the admins whose token verifies,
   * and a failing token is refused before the role is looked at.
   */
  function AdminGate(header: Option<string>, verify: string -> Option<AuthPayload>): (r: Result<AuthPayload>)
    ensures r.Ok? <==> Authenticate(header, verify).Ok? && Authenticate(header, verify).value.role == Admin
    ensures r.Ok? ==> r == Authenticate(header, verify)
    ensures Authenticate(header, verify).Err? ==> r == Authenticate(header, verify)
    ensures Authenticate(header, verify).Ok? && r.Err? ==> r.error == AdminRequired
  {
    match Authenticate(header, verify)
    case Err(e) => Err(e)
    case Ok(p) => RequireRole(Admin, Some(p))
  }

  // -------------------------------------------------------------- accounts

  function EmailMatches(email: string): User -> bool {
    (u: User) => SameIgnoringCase(u.email, email)
  }

  /** The index of the first user whose address equals `email` ignoring case. */
  function UserIndexByEmail(users: seq<User>, email: string): (r: Option<nat>)
    ensures r.Some? ==> r.value < |users| && SameIgnoringCase(users[r.value].email, email)
    ensures r.Some? ==> forall j :: 0 <= j < r.value ==> !SameIgnoringCase(users[j].email, email)
    ensures r.None? <==> forall j :: 0 <= j < |users| ==> !SameIgnoringCase(users[j].email, email)
  {
    FindIndex(users, EmailMatches(email))
  }

  /**
   * `db.users.some((u) => u.email.toLowerCase() === email.toLowerCase())`:
   * taken exactly when the lookup login makes finds a user.
   */
  predicate EmailTaken(users: seq<User>, email: string)
    ensures EmailTaken(users, email) <==> UserIndexByEmail(users, email).Some?
  {
    Any(users, EmailMatches(email))
  }

  /** Once an address is registered, no differently cased spelling of it is free. */
  lemma EmailTakenIgnoresCase(users: seq<User>, a: string, b: string)
    requires SameIgnoringCase(a, b)
    ensures EmailTaken(users, a) <==> EmailTaken(users, b)
  {
    assert forall u :: EmailMatches(a)(u) == EmailMatches(b)(u);
  }

  /** The payload a user's token is signed over. */
  function PayloadOf(u: User): AuthPayload {
    AuthPayload(u.id, u.tenantId, u.role)
  }

  /**
   * `loginHandler`: the first user with the address (ignoring case), the
   * password checked against its hash, a token for it and its tenant. For a
   * user whose tenant is gone the lookup yields `undefined`, and reading its
   * slug throws a TypeError: InternalError.
   */
  function Login(users: seq<User>, tenants: seq<Tenant>, email: string, password: string,
                 passwordOk: (string, string) -> bool, sign: AuthPayload -> string): (r: Result<Session>)
    ensures r == Err(InvalidCredentials) <==>
      UserIndexByEmail(users, email).None? ||
      !passwordOk(password, users[UserIndexByEmail(users, email).value].passwordHash)
    ensures r.Err? ==> r.error == InvalidCredentials || r.error == InternalError
    ensures r == Err(InternalError) <==>
      && UserIndexByEmail(users, email).Some?
      && passwordOk(password, users[UserIndexByEmail(users, email).value].passwordHash)
      && TenantById(tenants, users[UserIndexByEmail(users, email).value].tenantId).None?
    ensures r.Ok? ==>
      var u := users[UserIndexByEmail(users, email).value];
      && SameIgnoringCase(u.email, email)
      && passwordOk(password, u.passwordHash)
      && TenantById(tenants, u.tenantId).Some?
      && r.value == Session(sign(PayloadOf(u)), u.View(), TenantById(tenants, u.tenantId).value.View())
  {
    match UserIndexByEmail(users, email)
    case None => Err(InvalidCredentials)
    case Some(i) =>
      var user := users[i];
      if !passwordOk(password, user.passwordHash) then Err(InvalidCredentials)
      else
        var token := sign(PayloadOf(user));
        match TenantById(tenants, user.tenantId)
        case None => Err(InternalError)
        case Some(t) => Ok(Session(token, user.View(), t.View()))
  }

  /** When every user belongs to an existing tenant, login never throws. */
  lemma LoginLinkedNoCrash(users: seq<User>, tenants: seq<Tenant>, email: string, password: string,
                           passwordOk: (string, string) -> bool, sign: AuthPayload -> string)
    requires UsersLinked(tenants, users)
    ensures Login(users, tenants, email, password, passwordOk, sign) != Err(InternalError)
  {
    match UserIndexByEmail(users, email)
    case None =>
    case Some(i) =>
      assert users[i].tenantId in TenantIds(tenants);
  }

  /**
   * With addresses unique ignoring case and every user linked to a tenant,
   * login succeeds exactly for a registered address whose password matches,
   * and signs in as that user.
   */
  lemma LoginUnique(users: seq<User>, tenants: seq<Tenant>, email: string, password: string,
                    passwordOk: (string, string) -> bool, sign: AuthPayload -> string, k: nat)
    requires EmailsUnique(users) && UsersLinked(tenants, users)
    requires k < |users| && SameIgnoringCase(users[k].email, email)
    ensures Login(users, tenants, email, password, passwordOk, sign).Ok? <==> passwordOk(password, users[k].passwordHash)
    ensures Login(users, tenants, email, password, passwordOk, sign).Ok? ==>
      Login(users, tenants, email, password, passwordOk, sign).value.user == users[k].View()
  {
    var i := UserIndexByEmail(users, email).value;
    if i < k {
      assert SameIgnoringCase(users[i].email, users[k].email);
      assert false;
    }
    assert i == k;
    LoginLinkedNoCrash(users, tenants, email, password, passwordOk, sign);
  }

  /**
   * In a valid, linked store, a user logs in with its own address exactly
   * when the password matches its hash, and receives its own view and its
   * tenant's; otherwise the answer is InvalidCredentials.
   */
  lemma LoginAs(users: seq<User>, tenants: seq<Tenant>, k: nat, j: nat, password: string,
                passwordOk: (string, string) -> bool, sign: AuthPayload -> string)
    requires EmailsUnique(users) && UsersLinked(tenants, users) && TenantIdsUnique(tenants)
    requires k < |users| && j < |tenants| && users[k].tenantId == tenants[j].id
    ensures var r := Login(users, tenants, users[k].email, password, passwordOk, sign);
      && (r.Ok? <==> passwordOk(password, users[k].passwordHash))
      && (r.Ok? ==> r.value.user == users[k].View() && r.value.tenant == tenants[j].View())
      && (r.Err? ==> r.error == InvalidCredentials)
  {
    var r := Login(users, tenants, users[k].email, password, passwordOk, sign);
    LoginUnique(users, tenants, users[k].email, password, passwordOk, sign, k);
    LoginLinkedNoCrash(users, tenants, users[k].email, password, passwordOk, sign);
    TenantByIdUnique(tenants, j);
    if r.Ok? {
      assert UserIndexByEmail(users, users[k].email) == Some(k);
    }
  }

  /**
   * Signing up and then logging in: in a valid, linked store, the account a
   * signup appends logs in with the password it was created with, as a
   * member of the tenant it signed up for.
   */
  lemma SignupThenLoginRoundTrip(users: seq<User>, tenants: seq<Tenant>, j: nat, id: string, email: string,
                                 password: string, hashFn: string -> string,
                                 passwordOk: (string, string) -> bool, sign: AuthPayload -> string)
    requires EmailsUnique(users) && UsersLinked(tenants, users) && TenantIdsUnique(tenants)
    requires j < |tenants| && !EmailTaken(users, email)
    requires passwordOk(password, hashFn(password))
    ensures var r := Login(users + [User(id, email, hashFn(password), Member, tenants[j].id)], tenants,
                           email, password, passwordOk, sign);
      r.Ok? && r.value.user == UserView(id, email, Member) && r.value.tenant == tenants[j].View()
  {
    var u := User(id, email, hashFn(password), Member, tenants[j].id);
    assert tenants[j] in tenants;
    AppendKeepsEmails(users, u);
    AppendKeepsUsersLinked(tenants, users, u);
    LoginAs(users + [u], tenants, |users|, j, password, passwordOk, sign);
  }

  /** An address nobody registered, in any case, never logs in. */
  lemma LoginUnknownEmail(users: seq<User>, tenants: seq<Tenant>, email: string, password: string,
                          passwordOk: (string, string) -> bool, sign: AuthPayload -> string)
    requires !EmailTaken(users, email)
    ensures Login(users, tenants, email, password, passwordOk, sign) == Err(InvalidCredentials)
  {
  }

  /**
   * `signupHandler`: an unknown tenant slug is refused first, then an
   * address already registered in any tenant; otherwise a member of the
   * tenant is appended with the hash of the password, and a session for it
   * returned. `id` is the fresh uuid.
   */
  method Signup(db: Db, email: string, password: string, tenantSlug: string, id: string,
                hashFn: string -> string, sign: AuthPayload -> string) returns (r: Result<Session>)
    requires forall u :: u in db.users ==> u.id != id
    modifies db`users
    ensures FindTenantBySlug(db.tenants, tenantSlug).None? ==> r == Err(InvalidTenant)
    ensures FindTenantBySlug(db.tenants, tenantSlug).Some? && EmailTaken(old(db.users), email) ==>
      r == Err(EmailExists)
    ensures r.Ok? <==> FindTenantBySlug(db.tenants, tenantSlug).Some? && !EmailTaken(old(db.users), email)
    ensures r.Err? ==> db.users == old(db.users)
    ensures r.Ok? ==>
      var t := FindTenantBySlug(db.tenants, tenantSlug).value;
      && db.users == old(db.users) + [User(id, email, hashFn(password), Member, t.id)]
      && r.value == Session(sign(AuthPayload(id, t.id, Member)), UserView(id, email, Member), t.View())
    ensures old(db.Valid()) ==> db.Valid()
    ensures old(db.Linked()) ==> db.Linked()
  {
    var tenant := FindTenantBySlug(db.tenants, tenantSlug);
    if tenant.None? {
      return Err(InvalidTenant);
    }
    if EmailTaken(db.users, email) {
      return Err(EmailExists);
    }
    var t := tenant.value;
    var user := User(id, email, hashFn(password), Member, t.id);
    AppendKeepsAccounts(db, user);
    db.users := db.users + [user];
    r := Ok(Session(sign(PayloadOf(user)), user.View(), t.View()));
  }

  /**
   * `role || "member"`: the role an invite stores. A missing or empty role
   * string gives a member; any other string is stored as it came, so a name
   * other than "admin" and "member" becomes an `Other` role.
   */
  function InvitedRole(role: Option<string>): (r: StoredRole)
    ensures role.None? || role == Some("") ==> r == Member
    ensures role.Some? && role.value != "" ==> RoleName(r) == role.value
    ensures r.Other? <==> role.Some? && role.value !in {"", "admin", "member"}
  {
    if role.None? || role.value == "" then Member else ParseRole(role.value)
  }

  /**
   * `inviteHandler`, behind the admin gate: an address already registered is
   * refused; otherwise a user with the demo password, the requested role
   * (member by default) and the caller's tenant is appended.
   */
  method Invite(db: Db, caller: Option<AuthPayload>, email: string, role: Option<string>, id: string,
                hashFn: string -> string) returns (r: Result<UserView>)
    requires forall u :: u in db.users ==> u.id != id
    modifies db`users
    ensures caller.None? ==> r == Err(Unauthenticated)
    ensures caller.Some? && EmailTaken(old(db.users), email) ==> r == Err(EmailExists)
    ensures r.Ok? <==> caller.Some? && !EmailTaken(old(db.users), email)
    ensures r.Err? ==> db.users == old(db.users)
    ensures r.Ok? ==>
      && db.users == old(db.users) + [User(id, email, hashFn(SeedPassword), InvitedRole(role), caller.value.tenantId)]
      && r.value == UserView(id, email, InvitedRole(role))
    ensures old(db.Valid()) ==> db.Valid()
    ensures old(db.Linked()) && caller.Some? && caller.value.tenantId in TenantIds(db.tenants) ==> db.Linked()
  {
    if caller.None? {
      return Err(Unauthenticated);
    }
    if EmailTaken(db.users, email) {
      return Err(EmailExists);
    }
    var user := User(id, email, hashFn(SeedPassword), InvitedRole(role), caller.value.tenantId);
    AppendKeepsAccounts(db, user);
    db.users := db.users + [user];
    r := Ok(user.View());
  }

  /** Appending a user with a fresh id keeps user ids unique. */
  lemma AppendKeepsUserIds(users: seq<User>, u: User)
    requires UserIdsUnique(users) && forall v :: v in users ==> v.id != u.id
    ensures UserIdsUnique(users + [u])
  {
    var s := users + [u];
    forall i, j | 0 <= i < j < |s| ensures s[i].id != s[j].id {
      assert s[i] == users[i] && users[i] in users;
      if j < |users| {
        assert s[j] == users[j];
      }
    }
  }

  /** Appending a user with a free address keeps addresses unique. */
  lemma AppendKeepsEmails(users: seq<User>, u: User)
    requires EmailsUnique(users) && !EmailTaken(users, u.email)
    ensures EmailsUnique(users + [u])
  {
    var s := users + [u];
    forall i, j | 0 <= i < j < |s| ensures !SameIgnoringCase(s[i].email, s[j].email) {
      assert s[i] == users[i];
      if j < |users| {
        assert s[j] == users[j];
      }
    }
  }

  /** Appending a user of an existing tenant keeps every user linked. */
  lemma AppendKeepsUsersLinked(tenants: seq<Tenant>, users: seq<User>, u: User)
    requires UsersLinked(tenants, users) && u.tenantId in TenantIds(tenants)
    ensures UsersLinked(tenants, users + [u])
  {
    var s := users + [u];
    assert forall i :: 0 <= i < |users| ==> s[i] == users[i];
  }

  /**
   * What the account handlers call before appending: a fresh id and a free
   * address keep the store valid, and an existing tenant keeps it linked.
   */
  lemma AppendKeepsAccounts(db: Db, u: User)
    requires forall v :: v in db.users ==> v.id != u.id
    requires !EmailTaken(db.users, u.email)
    ensures db.Valid() ==> StoreValid(db.tenants, db.users + [u], db.notes)
    ensures db.Linked() && u.tenantId in TenantIds(db.tenants) ==> StoreLinked(db.tenants, db.users + [u], db.notes)
  {
    if db.Valid() {
      AppendKeepsUserIds(db.users, u);
      AppendKeepsEmails(db.users, u);
    }
    if db.Linked() && u.tenantId in TenantIds(db.tenants) {
      AppendKeepsUsersLinked(db.tenants, db.users, u);
    }
  }
}
