/**
 * End-to-end runs of the handlers. The demo logins run on a freshly seeded
 * store; the signup, quota, upgrade and isolation runs take any store that
 * meets their stated conditions, and the Seed lemmas show that the seeded
 * store meets them for Acme. The uuids, the clock, the password hashing and
 * the token signing are parameters; the hashing is taken to accept the
 * password it hashed.
 */
module Scenarios {
  import opened Wrappers
  import opened Seqs
  import opened Text
  import opened Http
  import opened Store
  import opened Auth
  import opened Notes
  import opened Tenants

  /** Distinct uuids for the two tenants and the four demo users. */
  predicate SeedIds(acmeId: string, globexId: string, userIds: seq<string>) {
    acmeId != globexId && |userIds| == 4 && forall i, j :: 0 <= i < j < 4 ==> userIds[i] != userIds[j]
  }

  // ------------------------------------------------------- the seeded store

  /** In the seeded store the slugs and ids find Acme first and Globex second. */
  lemma SeedTenantLookups(acmeId: string, globexId: string)
    requires acmeId != globexId
    ensures var ts := SeedTenants(acmeId, globexId);
      && TenantById(ts, acmeId) == Some(ts[0]) && TenantById(ts, globexId) == Some(ts[1])
      && TenantIndexBySlug(ts, "acme") == Some(0) && TenantIndexBySlug(ts, "globex") == Some(1)
  {
    var ts := SeedTenants(acmeId, globexId);
    assert ts[1..] == [ts[1]];
    assert FindIndex(ts[1..], HasId(globexId)) == Some(0);
    DifferentLengthsDiffer("acme", "globex");
    assert FindIndex(ts[1..], SlugMatches("globex")) == Some(0);
  }

  /** Each demo account signs in exactly with the seed password's hash, into its own tenant. */
  lemma SeedLoginAs(acmeId: string, globexId: string, ids: seq<string>, hash: string, k: nat,
                    password: string, passwordOk: (string, string) -> bool, sign: AuthPayload -> string)
    requires SeedIds(acmeId, globexId, ids) && k < 4
    ensures var us, ts := SeedUsers(acmeId, globexId, ids, hash), SeedTenants(acmeId, globexId);
      var r := Login(us, ts, us[k].email, password, passwordOk, sign);
      && (r.Ok? <==> passwordOk(password, hash))
      && (r.Ok? ==> r.value.user == us[k].View() && r.value.tenant == ts[k / 2].View())
      && (r.Err? ==> r.error == InvalidCredentials)
  {
    var us, ts := SeedUsers(acmeId, globexId, ids, hash), SeedTenants(acmeId, globexId);
    SeededStoreValid(acmeId, globexId, ids, hash);
    assert us[k].tenantId == ts[k / 2].id && us[k].passwordHash == hash by {
      if k == 0 {} else if k == 1 {} else if k == 2 {}
    }
    LoginAs(us, ts, k, k / 2, password, passwordOk, sign);
  }

  /** An address whose length no demo address has is free. */
  lemma SeedEmailFree(acmeId: string, globexId: string, ids: seq<string>, hash: string, email: string)
    requires |ids| == 4 && (|email| < 14 || |email| > 17)
    ensures !EmailTaken(SeedUsers(acmeId, globexId, ids, hash), email)
  {
    var us := SeedUsers(acmeId, globexId, ids, hash);
    forall i | 0 <= i < 4 ensures !SameIgnoringCase(us[i].email, email) {
      SeedEmailLength(us);
      DifferentLengthsDiffer(us[i].email, email);
    }
  }

  /**
   * A new store, seeded, described by what the runs below rely on: the two
   * tenants and how they are found, no notes and four users.
   */
  method Seeded(acmeId: string, globexId: string, userIds: seq<string>, hashFn: string -> string)
    returns (db: Db)
    requires SeedIds(acmeId, globexId, userIds)
    ensures fresh(db) && db.notes == [] && |db.users| == 4
    ensures |db.tenants| == 2
    ensures db.tenants[0] == Tenant(acmeId, "acme", "Acme", Free)
    ensures db.tenants[1] == Tenant(globexId, "globex", "Globex", Free)
    ensures TenantById(db.tenants, acmeId) == Some(db.tenants[0])
    ensures TenantById(db.tenants, globexId) == Some(db.tenants[1])
    ensures TenantIndexBySlug(db.tenants, "acme") == Some(0)
    ensures TenantIndexBySlug(db.tenants, "globex") == Some(1)
  {
    db := new Db();
    db.SeedIfEmpty(acmeId, globexId, userIds, hashFn);
    SeedTenantLookups(acmeId, globexId);
  }

  // -------------------------------------------------------------- sign-in

  /** The Acme admin signs in with the demo password and lands in Acme, on the free plan. */
  method DemoAdminLogin(acmeId: string, globexId: string, userIds: seq<string>, hashFn: string -> string,
                        passwordOk: (string, string) -> bool, sign: AuthPayload -> string)
    returns (r: Result<Session>)
    requires SeedIds(acmeId, globexId, userIds)
    requires passwordOk(SeedPassword, hashFn(SeedPassword))
    ensures r.Ok?
    ensures r.value.user == UserView(userIds[0], "admin@acme.test", Admin)
    ensures r.value.tenant == TenantView("acme", "Acme", Free)
  {
    var db := new Db();
    db.SeedIfEmpty(acmeId, globexId, userIds, hashFn);
    SeedLoginAs(acmeId, globexId, userIds, hashFn(SeedPassword), 0, SeedPassword, passwordOk, sign);
    r := Login(db.users, db.tenants, "admin@acme.test", SeedPassword, passwordOk, sign);
  }

  /**
   * Every demo address starts with `a` or `u`, so an address starting with
   * any other letter, in either case, is not registered in the seed.
   */
  lemma SeedEmailFreeByInitial(acmeId: string, globexId: string, ids: seq<string>, hash: string, email: string)
    requires |ids| == 4 && |email| > 0
    requires email[0] != 'a' && email[0] != 'A' && email[0] != 'u' && email[0] != 'U'
    ensures !EmailTaken(SeedUsers(acmeId, globexId, ids, hash), email)
  {
    var us := SeedUsers(acmeId, globexId, ids, hash);
    assert Lower(email)[0] != 'a' && Lower(email)[0] != 'u';
    forall i | 0 <= i < 4 ensures !SameIgnoringCase(us[i].email, email) {
      assert us[i].email[0] == 'a' || us[i].email[0] == 'u';
      assert Lower(us[i].email)[0] == us[i].email[0];
    }
  }

  /** In the seed, logging in with an address starting with neither `a` nor `u` is refused. */
  lemma SeedUnknownLogin(acmeId: string, globexId: string, ids: seq<string>, hash: string, tenants: seq<Tenant>,
                         email: string, password: string, passwordOk: (string, string) -> bool, sign: AuthPayload -> string)
    requires |ids| == 4 && |email| > 0
    requires email[0] != 'a' && email[0] != 'A' && email[0] != 'u' && email[0] != 'U'
    ensures Login(SeedUsers(acmeId, globexId, ids, hash), tenants, email, password, passwordOk, sign) == Err(InvalidCredentials)
  {
    SeedEmailFreeByInitial(acmeId, globexId, ids, hash, email);
    LoginUnknownEmail(SeedUsers(acmeId, globexId, ids, hash), tenants, email, password, passwordOk, sign);
  }

  /** A wrong password gets the same answer as an unknown address. */
  method DemoWrongPassword(acmeId: string, globexId: string, userIds: seq<string>, hashFn: string -> string,
                           passwordOk: (string, string) -> bool, sign: AuthPayload -> string, password: string)
    returns (wrong: Result<Session>, unknown: Result<Session>)
    requires SeedIds(acmeId, globexId, userIds)
    requires !passwordOk(password, hashFn(SeedPassword))
    ensures wrong == Err(InvalidCredentials) && unknown == Err(InvalidCredentials)
  {
    var db := new Db();
    db.SeedIfEmpty(acmeId, globexId, userIds, hashFn);
    var users := db.users;
    assert users == SeedUsers(acmeId, globexId, userIds, hashFn(SeedPassword));
    SeedLoginAs(acmeId, globexId, userIds, hashFn(SeedPassword), 3, password, passwordOk, sign);
    wrong := Login(users, db.tenants, "user@globex.test", password, passwordOk, sign);
    SeedUnknownLogin(acmeId, globexId, userIds, hashFn(SeedPassword), db.tenants, "nobody@acme.test",
                     SeedPassword, passwordOk, sign);
    unknown := Login(users, db.tenants, "nobody@acme.test", SeedPassword, passwordOk, sign);
  }

  /**
   * The seeded store is ready for a signup to Acme under a new address: it
   * is valid and linked, the slug "ACME" finds Acme whatever its case, and
   * "new@acme.test" is not registered.
   */
  lemma SeedAdmitsSignup(acmeId: string, globexId: string, ids: seq<string>, hash: string)
    requires SeedIds(acmeId, globexId, ids)
    ensures var us, ts := SeedUsers(acmeId, globexId, ids, hash), SeedTenants(acmeId, globexId);
      && StoreValid(ts, us, []) && StoreLinked(ts, us, [])
      && TenantIndexBySlug(ts, "ACME") == Some(0)
      && !EmailTaken(us, "new@acme.test")
  {
    SeededStoreValid(acmeId, globexId, ids, hash);
    SeedEmailFree(acmeId, globexId, ids, hash, "new@acme.test");
    SeedTenantLookups(acmeId, globexId);
    assert Lower("ACME") == Lower("acme");
  }

  /**
   * Someone who signs up to an existing tenant under an unregistered address
   * signs in with their password, as a member of that tenant.
   */
  method SignupThenLogin(db: Db, email: string, password: string, slug: string, id: string,
                         hashFn: string -> string, passwordOk: (string, string) -> bool, sign: AuthPayload -> string)
    returns (signup: Result<Session>, login: Result<Session>)
    requires db.Valid() && db.Linked()
    requires TenantIndexBySlug(db.tenants, slug).Some? && !EmailTaken(db.users, email)
    requires forall u :: u in db.users ==> u.id != id
    requires passwordOk(password, hashFn(password))
    modifies db`users
    ensures signup.Ok? && login.Ok?
    ensures login.value.user == UserView(id, email, Member)
    ensures login.value.tenant == db.tenants[TenantIndexBySlug(db.tenants, slug).value].View()
  {
    ghost var before := db.users;
    ghost var j := TenantIndexBySlug(db.tenants, slug).value;
    signup := Signup(db, email, password, slug, id, hashFn, sign);
    SignupThenLoginRoundTrip(before, db.tenants, j, id, email, password, hashFn, passwordOk, sign);
    login := Login(db.users, db.tenants, email, password, passwordOk, sign);
  }

  // ---------------------------------------------------------------- notes

  /**
   * The seeded store meets what the runs below ask of a tenant: Acme is on
   * the free plan with no notes, and its admin may upgrade it.
   */
  lemma SeedReadyForNotes(acmeId: string, globexId: string, ids: seq<string>, hash: string)
    requires SeedIds(acmeId, globexId, ids)
    ensures var ts := SeedTenants(acmeId, globexId);
      && StoreValid(ts, SeedUsers(acmeId, globexId, ids, hash), [])
      && TenantById(ts, acmeId).Some? && TenantById(ts, acmeId).value.plan == Free
      && NotesCountForTenant([], acmeId) == 0
      && UpgradeRefusal(ts, "acme", Some(AuthPayload(ids[0], acmeId, Admin))).None?
  {
    SeededStoreValid(acmeId, globexId, ids, hash);
    SeedTenantLookups(acmeId, globexId);
  }

  /**
   * On the free plan a member's fourth note in a tenant that had none is
   * refused with 402, while an admin of the same tenant may still write one.
   * The seeded store meets the requirements for Acme's member and admin.
   */
  method FreePlanQuota(db: Db, member: AuthPayload, adminId: string, noteIds: seq<string>, now: int)
    returns (fourth: Result<Note>, byAdmin: Result<Note>)
    requires member.role == Member
    requires TenantById(db.tenants, member.tenantId).Some? && TenantById(db.tenants, member.tenantId).value.plan == Free
    requires NotesCountForTenant(db.notes, member.tenantId) == 0
    requires |noteIds| == 5 && forall i, j :: 0 <= i < j < 5 ==> noteIds[i] != noteIds[j]
    requires forall n :: n in db.notes ==> n.id !in noteIds
    modifies db`notes
    ensures fourth == Err(PlanLimitReached)
    ensures byAdmin.Ok? && byAdmin.value.tenantId == member.tenantId
  {
    FillQuota(db, member, noteIds[0], noteIds[1], noteIds[2], noteIds, now);
    fourth := CreateNote(db, member, Some("4th"), None, noteIds[3], now);
    byAdmin := CreateNote(db, AuthPayload(adminId, member.tenantId, Admin), Some("admin"), None, noteIds[4], now);
  }

  /**
   * After an admin of the member's tenant upgrades it, the member's fourth
   * note goes through. Tenant ids must be unique: the quota reads the first
   * tenant carrying the member's id, and the upgrade writes the one the slug
   * names.
   */
  method UpgradeLiftsQuota(db: Db, member: AuthPayload, adminId: string, slug: string,
                           noteIds: seq<string>, now: int)
    returns (upgrade: Result<Plan>, fourth: Result<Note>)
    requires db.Valid() && member.role == Member
    requires UpgradeRefusal(db.tenants, slug, Some(AuthPayload(adminId, member.tenantId, Admin))).None?
    requires NotesCountForTenant(db.notes, member.tenantId) == 0
    requires |noteIds| == 4 && forall i, j :: 0 <= i < j < 4 ==> noteIds[i] != noteIds[j]
    requires forall n :: n in db.notes ==> n.id !in noteIds
    modifies db`notes, db`tenants
    ensures upgrade == Ok(Pro)
    ensures fourth.Ok? && fourth.value.id == noteIds[3]
  {
    var i := TenantIndexBySlug(db.tenants, slug).value;
    FillQuota(db, member, noteIds[0], noteIds[1], noteIds[2], noteIds, now);
    upgrade := UpgradeTenant(db, slug, Some(AuthPayload(adminId, member.tenantId, Admin)));
    assert db.tenants[i].id == member.tenantId && db.tenants[i].plan == Pro;
    TenantByIdUnique(db.tenants, i);
    fourth := CreateNote(db, member, None, None, noteIds[3], now);
  }

  /**
   * A member writes three notes with ids drawn from `ids` into a tenant
   * without notes; each is admitted, and the tenant then holds the limit.
   */
  method FillQuota(db: Db, member: AuthPayload, a: string, b: string, c: string, ids: seq<string>, now: int)
    requires a != b && a != c && b != c && a in ids && b in ids && c in ids
    requires forall n :: n in db.notes ==> n.id !in ids
    requires member.role == Member && NotesCountForTenant(db.notes, member.tenantId) == 0
    requires TenantById(db.tenants, member.tenantId).Some?
    modifies db`notes
    ensures NotesCountForTenant(db.notes, member.tenantId) == FreePlanNoteLimit
    ensures forall n :: n in db.notes ==> n in old(db.notes) || n.id in {a, b, c}
  {
    AddWithinQuota(db, member, a, now);
    AddWithinQuota(db, member, b, now);
    AddWithinQuota(db, member, c, now);
  }

  /** Below the limit, a member's note with a fresh id is admitted and raises the count by one. */
  method AddWithinQuota(db: Db, member: AuthPayload, id: string, now: int)
    requires member.role == Member && TenantById(db.tenants, member.tenantId).Some?
    requires NotesCountForTenant(db.notes, member.tenantId) < FreePlanNoteLimit
    requires forall n :: n in db.notes ==> n.id != id
    modifies db`notes
    ensures NotesCountForTenant(db.notes, member.tenantId) == old(NotesCountForTenant(db.notes, member.tenantId)) + 1
    ensures forall n :: n in db.notes ==> n in old(db.notes) || n.id == id
  {
    ghost var before := db.notes;
    var r := CreateNote(db, member, None, None, id, now);
    CreateRespectsQuota(db.tenants, before, member, r.value);
  }

  /** An upgrade that went through goes through again, and the second changes nothing. */
  method UpgradeTwice(db: Db, slug: string, caller: Option<AuthPayload>)
    returns (first: Result<Plan>, second: Result<Plan>, same: bool)
    requires UpgradeRefusal(db.tenants, slug, caller).None?
    modifies db`tenants
    ensures first == Ok(Pro) && second == Ok(Pro) && same
  {
    var i := TenantIndexBySlug(db.tenants, slug).value;
    ghost var start := db.tenants;
    UpgradeKeepsRefusal(start, i, slug, caller);
    PlanChangeKeepsLookups(start, i, Pro, slug, "");
    UpgradeIdempotent(start, i);
    first := UpgradeTenant(db, slug, caller);
    var once := db.tenants;
    second := UpgradeTenant(db, slug, caller);
    same := db.tenants == once;
  }

  /** Acme's admin cannot upgrade Globex: 403, and Globex stays on the free plan. */
  method CrossTenantUpgrade(acmeId: string, globexId: string, userIds: seq<string>, hashFn: string -> string)
    returns (r: Result<Plan>, globex: Result<TenantView>)
    requires SeedIds(acmeId, globexId, userIds)
    ensures r == Err(CannotUpgradeOther)
    ensures globex == Ok(TenantView("globex", "Globex", Free))
  {
    var db := Seeded(acmeId, globexId, userIds, hashFn);
    r := UpgradeTenant(db, "globex", Some(AuthPayload(userIds[0], acmeId, Admin)));
    globex := GetMeTenant(db.tenants, AuthPayload(userIds[2], globexId, Admin));
  }

  /**
   * A note a member writes is found again by its id within the member's
   * tenant, while a user of another tenant gets 404 for it and a listing
   * without it.
   */
  method NotesStayInTenant(db: Db, member: AuthPayload, other: AuthPayload, noteId: string, now: int)
    returns (created: Result<Note>, again: Result<Note>, fromOther: Result<Note>, otherList: seq<Note>)
    requires CreateRefusal(db.tenants, db.notes, member).None? && other.tenantId != member.tenantId
    requires forall n :: n in db.notes ==> n.id != noteId
    modifies db`notes
    ensures created.Ok? && created.value.title == "hello" && again == created
    ensures fromOther == Err(NotFound)
    ensures otherList == ListNotes(old(db.notes), other)
  {
    ghost var before := db.notes;
    created := CreateNote(db, member, Some("hello"), Some("world"), noteId, now);
    again := GetNote(db.notes, member, noteId);
    fromOther := GetNote(db.notes, other, noteId);
    AppendKeepsOtherTenants(before, created.value);
    otherList := ListNotes(db.notes, other);
  }
}
