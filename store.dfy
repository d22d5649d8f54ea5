/**
 * The in-memory store: the tenant, user and note records, the store object
 * holding the three collections, its seeding routine, and the lookup and
 * upgrade helpers the services share.
 */
module Store {
  import opened Wrappers
  import opened Seqs
  import opened Text

  datatype Plan = Free | Pro
  /**
   * A role. The invite handler stores whatever non-empty role string the
   * request carries, so besides "admin" and "member" any other name can
   * occur: `Other(name)`.
   */
  datatype Role = Admin | Member | Other(name: string)

  /**
   * The roles a role string can denote: an `Other` role is never named
   * "admin" or "member" (those are `Admin` and `Member`) and never has an
   * empty name (the invite handler stores "member" instead). Users, their
   * views and token payloads carry a `StoredRole`.
   */
  type StoredRole = r: Role | r.Other? ==> r.name !in {"", "admin", "member"} witness Admin

  /** The string a role is stored and sent as. */
  function RoleName(r: StoredRole): (name: string)
    ensures name != ""
    ensures name == "admin" <==> r == Admin
    ensures name == "member" <==> r == Member
  {
    match r
    case Admin => "admin"
    case Member => "member"
    case Other(name) => name
  }

  /** The role a non-empty role string denotes: the inverse of `RoleName`. */
  function ParseRole(s: string): (r: StoredRole)
    requires s != ""
    ensures RoleName(r) == s
    ensures r.Other? <==> s != "admin" && s != "member"
  {
    if s == "admin" then Admin else if s == "member" then Member else Other(s)
  }

  /** Every role comes back from its name. */
  lemma ParseRoleName(r: StoredRole)
    ensures ParseRole(RoleName(r)) == r
  { }

  /** What a tenant looks like in a response: `{slug, name, plan}`. */
  datatype TenantView = TenantView(slug: string, name: string, plan: Plan)

  datatype Tenant = Tenant(id: string, slug: string, name: string, plan: Plan) {
    function View(): TenantView { TenantView(slug, name, plan) }
  }

  /** What a user looks like in a response: everything but the password hash. */
  datatype UserView = UserView(id: string, email: string, role: StoredRole)

  datatype User = User(id: string, email: string, passwordHash: string, role: StoredRole, tenantId: string) {
    function View(): UserView { UserView(id, email, role) }
  }

  /** Timestamps are milliseconds since the epoch, as `Date.now()` gives them. */
  datatype Note = Note(id: string, tenantId: string, userId: string, title: string, content: string,
                       createdAt: int, updatedAt: int)

  // ---------------------------------------------------------------- lookups

  function SlugMatches(slug: string): Tenant -> bool {
    (t: Tenant) => SameIgnoringCase(t.slug, slug)
  }

  /** The index of the tenant `findTenantBySlug` returns. */
  function TenantIndexBySlug(tenants: seq<Tenant>, slug: string): (r: Option<nat>)
    ensures r.Some? ==> r.value < |tenants| && SameIgnoringCase(tenants[r.value].slug, slug)
    ensures r.Some? ==> forall j :: 0 <= j < r.value ==> !SameIgnoringCase(tenants[j].slug, slug)
    ensures r.None? <==> forall j :: 0 <= j < |tenants| ==> !SameIgnoringCase(tenants[j].slug, slug)
  {
    FindIndex(tenants, SlugMatches(slug))
  }

  /** `findTenantBySlug`: the first tenant whose slug equals `slug` ignoring case. */
  function FindTenantBySlug(tenants: seq<Tenant>, slug: string): (r: Option<Tenant>)
    ensures r.None? <==> forall t :: t in tenants ==> !SameIgnoringCase(t.slug, slug)
    ensures r.Some? ==> r.value in tenants && SameIgnoringCase(r.value.slug, slug)
    ensures r.Some? ==> r.value == tenants[TenantIndexBySlug(tenants, slug).value]
  {
    match TenantIndexBySlug(tenants, slug)
    case None => None
    case Some(i) => Some(tenants[i])
  }

  function HasId(id: string): Tenant -> bool {
    (t: Tenant) => t.id == id
  }

  /** `db.tenants.find((t) => t.id === id)`. */
  function TenantById(tenants: seq<Tenant>, id: string): (r: Option<Tenant>)
    ensures r.None? <==> forall t :: t in tenants ==> t.id != id
    ensures r.Some? ==> r.value in tenants && r.value.id == id
  {
    Find(tenants, HasId(id))
  }

  /** The ids of the existing tenants. */
  function TenantIds(tenants: seq<Tenant>): (r: set<string>)
    ensures forall id :: id in r <==> TenantById(tenants, id).Some?
  {
    set t | t in tenants :: t.id
  }

  /** With unique ids, the lookup by id finds the one tenant carrying it. */
  lemma TenantByIdUnique(tenants: seq<Tenant>, j: nat)
    requires TenantIdsUnique(tenants) && j < |tenants|
    ensures TenantById(tenants, tenants[j].id) == Some(tenants[j])
  {
    var t := TenantById(tenants, tenants[j].id).value;
    var i :| 0 <= i < |tenants| && tenants[i] == t;
  }

  function InTenant(tenantId: string): Note -> bool {
    (n: Note) => n.tenantId == tenantId
  }

  function OutsideTenant(tenantId: string): Note -> bool {
    (n: Note) => n.tenantId != tenantId
  }

  /** `db.notes.filter((n) => n.tenantId === tenantId)`: one tenant's notes, in store order. */
  function TenantNotes(notes: seq<Note>, tenantId: string): (r: seq<Note>)
    ensures forall i :: 0 <= i < |r| ==> r[i].tenantId == tenantId
    ensures forall n {:trigger multiset(r)[n]} :: multiset(r)[n] == if n.tenantId == tenantId then multiset(notes)[n] else 0
  {
    Filter(notes, InTenant(tenantId))
  }

  /** `notesCountForTenant`: how many notes belong to the tenant. */
  function NotesCountForTenant(notes: seq<Note>, tenantId: string): (r: nat)
    ensures r <= |notes|
    ensures r == 0 <==> forall n :: n in notes ==> n.tenantId != tenantId
    ensures r + |Filter(notes, OutsideTenant(tenantId))| == |notes|
  {
    var mine := TenantNotes(notes, tenantId);
    FilterPartition(notes, InTenant(tenantId), OutsideTenant(tenantId));
    assert |mine| == 0 ==> forall n :: n in notes ==> n.tenantId != tenantId by {
      if |mine| == 0 {
        forall n | n in notes ensures n.tenantId != tenantId {
          assert multiset(mine)[n] == 0;
        }
      }
    }
    assert |mine| > 0 ==> mine[0] in notes by {
      if |mine| > 0 {
        assert multiset(mine)[mine[0]] > 0;
      }
    }
    |mine|
  }

  /** `isFreePlanLimited`. */
  predicate IsFreePlanLimited(t: Tenant) {
    t.plan == Free
  }

  /** The upgrade lifts the limit, and a tenant is limited exactly when upgrading it changes it. */
  lemma UpgradeLiftsLimit(t: Tenant)
    ensures !IsFreePlanLimited(t.(plan := Pro))
    ensures IsFreePlanLimited(t) <==> t.(plan := Pro) != t
  {
  }

  // ------------------------------------------------------------- invariants

  predicate TenantIdsUnique(tenants: seq<Tenant>) {
    forall i, j :: 0 <= i < j < |tenants| ==> tenants[i].id != tenants[j].id
  }

  predicate UserIdsUnique(users: seq<User>) {
    forall i, j :: 0 <= i < j < |users| ==> users[i].id != users[j].id
  }

  predicate NoteIdsUnique(notes: seq<Note>) {
    forall i, j :: 0 <= i < j < |notes| ==> notes[i].id != notes[j].id
  }

  /** No two users share an e-mail address, ignoring case, across all tenants. */
  predicate EmailsUnique(users: seq<User>) {
    forall i, j :: 0 <= i < j < |users| ==> !SameIgnoringCase(users[i].email, users[j].email)
  }

  /** Every user belongs to an existing tenant. */
  predicate UsersLinked(tenants: seq<Tenant>, users: seq<User>) {
    forall i :: 0 <= i < |users| ==> users[i].tenantId in TenantIds(tenants)
  }

  /** Every note belongs to an existing tenant. */
  predicate NotesLinked(tenants: seq<Tenant>, notes: seq<Note>) {
    forall i :: 0 <= i < |notes| ==> notes[i].tenantId in TenantIds(tenants)
  }

  /** The uniqueness facts every operation keeps. */
  predicate StoreValid(tenants: seq<Tenant>, users: seq<User>, notes: seq<Note>) {
    TenantIdsUnique(tenants) && UserIdsUnique(users) && NoteIdsUnique(notes) && EmailsUnique(users)
  }

  /** Every user and every note names an existing tenant. */
  predicate StoreLinked(tenants: seq<Tenant>, users: seq<User>, notes: seq<Note>) {
    UsersLinked(tenants, users) && NotesLinked(tenants, notes)
  }

  // ---------------------------------------------------------------- seeding

  /** A user record before it is given its id: `Omit<User, "id">`. */
  datatype Account = Account(email: string, passwordHash: string, role: StoredRole, tenantId: string) {
    function WithId(id: string): User { User(id, email, passwordHash, role, tenantId) }
  }

  /** The password every demo account is created with. */
  const SeedPassword := "password"

  function SeedTenants(acmeId: string, globexId: string): seq<Tenant> {
    [Tenant(acmeId, "acme", "Acme", Free), Tenant(globexId, "globex", "Globex", Free)]
  }

  /** The demo accounts, in the order the seeding pushes them. */
  function SeedAccounts(acmeId: string, globexId: string, hash: string): seq<Account> {
    [ Account("admin@acme.test", hash, Admin, acmeId),
      Account("user@acme.test", hash, Member, acmeId),
      Account("admin@globex.test", hash, Admin, globexId),
      Account("user@globex.test", hash, Member, globexId) ]
  }

  /** The four demo users with the ids they are given. */
  function SeedUsers(acmeId: string, globexId: string, ids: seq<string>, hash: string): seq<User>
    requires |ids| == 4
  {
    [ User(ids[0], "admin@acme.test", hash, Admin, acmeId),
      User(ids[1], "user@acme.test", hash, Member, acmeId),
      User(ids[2], "admin@globex.test", hash, Admin, globexId),
      User(ids[3], "user@globex.test", hash, Member, globexId) ]
  }

  /** The records `accounts.forEach((u) => users.push({ id, ...u }))` pushes. */
  function WithIds(accounts: seq<Account>, ids: seq<string>): (r: seq<User>)
    requires |ids| == |accounts|
    ensures |r| == |accounts|
  {
    seq(|accounts|, i requires 0 <= i < |accounts| => accounts[i].WithId(ids[i]))
  }

  lemma SeedAccountsWithIds(acmeId: string, globexId: string, ids: seq<string>, hash: string)
    requires |ids| == 4
    ensures WithIds(SeedAccounts(acmeId, globexId, hash), ids) == SeedUsers(acmeId, globexId, ids, hash)
  {
    var w, u := WithIds(SeedAccounts(acmeId, globexId, hash), ids), SeedUsers(acmeId, globexId, ids, hash);
    assert w[0] == u[0] && w[1] == u[1] && w[2] == u[2] && w[3] == u[3];
  }

  /**
   * The demo roster: two tenants on the free plan, one admin and one member
   * in each, all with the seed password's hash.
   */
  lemma SeedRoster(acmeId: string, globexId: string, ids: seq<string>, hash: string)
    requires |ids| == 4
    ensures var ts, us := SeedTenants(acmeId, globexId), SeedUsers(acmeId, globexId, ids, hash);
      && |ts| == 2 && ts[0].plan == Free && ts[1].plan == Free
      && |us| == 4
      && us[0].role == Admin && us[0].tenantId == ts[0].id
      && us[1].role == Member && us[1].tenantId == ts[0].id
      && us[2].role == Admin && us[2].tenantId == ts[1].id
      && us[3].role == Member && us[3].tenantId == ts[1].id
      && (forall u :: u in us ==> u.passwordHash == hash)
  {
  }

  /** Every demo user is in a seeded tenant. */
  lemma SeedUsersLinked(acmeId: string, globexId: string, ids: seq<string>, hash: string)
    requires |ids| == 4
    ensures UsersLinked(SeedTenants(acmeId, globexId), SeedUsers(acmeId, globexId, ids, hash))
  {
    var ts, us := SeedTenants(acmeId, globexId), SeedUsers(acmeId, globexId, ids, hash);
    assert acmeId in TenantIds(ts) && globexId in TenantIds(ts) by { assert ts[0] in ts && ts[1] in ts; }
    forall i | 0 <= i < 4 ensures us[i].tenantId in TenantIds(ts) {
      if i == 0 {} else if i == 1 {} else if i == 2 {} else {}
    }
  }

  /** Distinct uuids give distinct demo user ids. */
  lemma SeedUserIdsUnique(acmeId: string, globexId: string, ids: seq<string>, hash: string)
    requires |ids| == 4 && forall i, j :: 0 <= i < j < 4 ==> ids[i] != ids[j]
    ensures UserIdsUnique(SeedUsers(acmeId, globexId, ids, hash))
  {
    var us := SeedUsers(acmeId, globexId, ids, hash);
    forall i, j | 0 <= i < j < 4 ensures us[i].id != us[j].id {
      assert us[i].id == ids[i] by { if i == 0 {} else if i == 1 {} else if i == 2 {} }
      assert us[j].id == ids[j] by { if j == 0 {} else if j == 1 {} else if j == 2 {} }
    }
  }

  /** A store seeded from empty satisfies the uniqueness and link invariants. */
  lemma SeededStoreValid(acmeId: string, globexId: string, ids: seq<string>, hash: string)
    requires acmeId != globexId
    requires |ids| == 4 && forall i, j :: 0 <= i < j < 4 ==> ids[i] != ids[j]
    ensures StoreValid(SeedTenants(acmeId, globexId), SeedUsers(acmeId, globexId, ids, hash), [])
    ensures StoreLinked(SeedTenants(acmeId, globexId), SeedUsers(acmeId, globexId, ids, hash), [])
  {
    var ts, us := SeedTenants(acmeId, globexId), SeedUsers(acmeId, globexId, ids, hash);
    assert UsersLinked(ts, us) by { SeedUsersLinked(acmeId, globexId, ids, hash); }
    assert UserIdsUnique(us) by { SeedUserIdsUnique(acmeId, globexId, ids, hash); }
    assert EmailsUnique(us) by { SeedEmailsUnique(us); }
  }

  lemma SeedEmailsUnique(r: seq<User>)
    requires |r| == 4
    requires r[0].email == "admin@acme.test" && r[1].email == "user@acme.test"
    requires r[2].email == "admin@globex.test" && r[3].email == "user@globex.test"
    ensures EmailsUnique(r)
  {
    forall i, j | 0 <= i < j < 4 ensures !SameIgnoringCase(r[i].email, r[j].email) {
      SeedEmailLength(r);
      DifferentLengthsDiffer(r[i].email, r[j].email);
    }
  }

  /** The demo addresses have the lengths 15, 14, 17 and 16. */
  lemma SeedEmailLength(r: seq<User>)
    requires |r| == 4
    requires r[0].email == "admin@acme.test" && r[1].email == "user@acme.test"
    requires r[2].email == "admin@globex.test" && r[3].email == "user@globex.test"
    ensures |r[0].email| == 15 && |r[1].email| == 14
    ensures |r[2].email| == 17 && |r[3].email| == 16
  { }

  // ------------------------------------------------------------ the store

  /** The process-wide store `db`: three arrays of records, changed in place by the handlers. */
  class Db {
    var tenants: seq<Tenant>
    var users: seq<User>
    var notes: seq<Note>

    constructor ()
      ensures tenants == [] && users == [] && notes == []
    {
      tenants, users, notes := [], [], [];
    }

    ghost predicate Valid()
      reads this
    {
      StoreValid(tenants, users, notes)
    }

    ghost predicate Linked()
      reads this
    {
      StoreLinked(tenants, users, notes)
    }

    /**
     * `seedIfEmpty`: when there is no tenant yet, push Acme and Globex (both
     * on the free plan) and then the four demo users; otherwise do nothing,
     * whatever `users` and `notes` hold. The uuids and the password hashing
     * come in as parameters.
     */
    method SeedIfEmpty(acmeId: string, globexId: string, userIds: seq<string>, hashFn: string -> string)
      requires acmeId != globexId
      requires |userIds| == 4 && forall i, j :: 0 <= i < j < 4 ==> userIds[i] != userIds[j]
      modifies this`tenants, this`users
      ensures old(|tenants|) > 0 ==> tenants == old(tenants) && users == old(users)
      ensures old(|tenants|) == 0 ==> tenants == SeedTenants(acmeId, globexId)
      ensures old(|tenants|) == 0 ==>
        users == old(users) + SeedUsers(acmeId, globexId, userIds, hashFn(SeedPassword))
      ensures old(|tenants|) == 0 && old(users) == [] && notes == [] ==> Valid() && Linked()
    {
      if |tenants| == 0 {
        ghost var before := users;
        var acme := Tenant(acmeId, "acme", "Acme", Free);
        var globex := Tenant(globexId, "globex", "Globex", Free);
        tenants := tenants + [acme, globex];
        var hash := hashFn(SeedPassword);
        PushUsers(SeedAccounts(acme.id, globex.id, hash), userIds);
        SeedAccountsWithIds(acmeId, globexId, userIds, hash);
        if before == [] && notes == [] {
          assert users == SeedUsers(acmeId, globexId, userIds, hash);
          SeededStoreValid(acmeId, globexId, userIds, hash);
        }
      }
    }

    /** The `forEach` of the seeding: push each account, with its id, in order. */
    method PushUsers(accounts: seq<Account>, ids: seq<string>)
      requires |ids| == |accounts|
      modifies this`users
      ensures users == old(users) + WithIds(accounts, ids)
    {
      ghost var before := users;
      for k := 0 to |accounts|
        invariant |users| == |before| + k
        invariant users[..|before|] == before
        invariant forall i :: 0 <= i < k ==> users[|before| + i] == accounts[i].WithId(ids[i])
      {
        users := users + [accounts[k].WithId(ids[k])];
      }
      assert users == before + WithIds(accounts, ids);
    }

    /** `upgradeTenantToPro`: the tenant at index `i` is on the pro plan; nothing else changes. */
    method UpgradeTenantToPro(i: nat)
      requires i < |tenants|
      modifies this`tenants
      ensures tenants == old(tenants)[i := old(tenants)[i].(plan := Pro)]
      ensures old(Valid()) ==> Valid()
      ensures old(Linked()) ==> Linked()
    {
      tenants := tenants[i := tenants[i].(plan := Pro)];
      assert forall k :: 0 <= k < |tenants| ==> tenants[k].id == old(tenants)[k].id;
      assert TenantIds(tenants) == TenantIds(old(tenants));
    }
  }

  /**
   * Changing a tenant's plan leaves every lookup as it was: the same index
   * for each slug, the same index for each id (so the id lookup finds the
   * same tenant, with the new plan if it is the changed one), the same set
   * of ids.
   */
  lemma PlanChangeKeepsLookups(tenants: seq<Tenant>, i: nat, plan: Plan, slug: string, id: string)
    requires i < |tenants|
    ensures var after := tenants[i := tenants[i].(plan := plan)];
      && TenantIndexBySlug(after, slug) == TenantIndexBySlug(tenants, slug)
      && TenantById(after, id).Some? == TenantById(tenants, id).Some?
      && FindIndex(after, HasId(id)) == FindIndex(tenants, HasId(id))
      && TenantById(after, id) ==
           (if FindIndex(tenants, HasId(id)) == Some(i) then Some(after[i]) else TenantById(tenants, id))
      && TenantIds(after) == TenantIds(tenants)
  {
    var after := tenants[i := tenants[i].(plan := plan)];
    PlanChangeKeepsSlugLookup(tenants, i, plan, slug);
    PlanChangeKeepsIdLookup(tenants, i, plan, id);
    forall x ensures x in TenantIds(after) <==> x in TenantIds(tenants) {
      PlanChangeKeepsIdLookup(tenants, i, plan, x);
    }
  }

  /** The slug part of `PlanChangeKeepsLookups`. */
  lemma PlanChangeKeepsSlugLookup(tenants: seq<Tenant>, i: nat, plan: Plan, slug: string)
    requires i < |tenants|
    ensures TenantIndexBySlug(tenants[i := tenants[i].(plan := plan)], slug) == TenantIndexBySlug(tenants, slug)
  {
    var after := tenants[i := tenants[i].(plan := plan)];
    assert forall k :: 0 <= k < |tenants| ==> SlugMatches(slug)(after[k]) == SlugMatches(slug)(tenants[k]);
    FindIndexSameTests(after, tenants, SlugMatches(slug));
  }

  /** The id part of `PlanChangeKeepsLookups`, for one id. */
  lemma PlanChangeKeepsIdLookup(tenants: seq<Tenant>, i: nat, plan: Plan, id: string)
    requires i < |tenants|
    ensures var after := tenants[i := tenants[i].(plan := plan)];
      && FindIndex(after, HasId(id)) == FindIndex(tenants, HasId(id))
      && TenantById(after, id) ==
           (if FindIndex(tenants, HasId(id)) == Some(i) then Some(after[i]) else TenantById(tenants, id))
  {
    var after := tenants[i := tenants[i].(plan := plan)];
    assert forall k :: 0 <= k < |tenants| ==> HasId(id)(after[k]) == HasId(id)(tenants[k]);
    FindIndexSameTests(after, tenants, HasId(id));
  }
}
