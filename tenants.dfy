/**
 * The tenant handlers: the caller's own tenant, and the upgrade to the pro
 * plan, which only an admin of that very tenant may perform.
 */
module Tenants {
  import opened Wrappers
  import opened Http
  import opened Store
  import opened Auth

  /** `getMeTenant`: the caller's tenant as `{slug, name, plan}`, or a stale session when it is gone. */
  function GetMeTenant(tenants: seq<Tenant>, user: AuthPayload): (r: Result<TenantView>)
    ensures r.Err? <==> forall t :: t in tenants ==> t.id != user.tenantId
    ensures r.Err? ==> r.error == SessionExpired
    ensures r.Ok? ==> exists t :: t in tenants && t.id == user.tenantId && r.value == t.View()
  {
    match TenantById(tenants, user.tenantId)
    case None => Err(SessionExpired)
    case Some(t) => Ok(t.View())
  }

  /** With unique tenant ids the answer is the view of the one tenant carrying the caller's id. */
  lemma GetMeTenantUnique(tenants: seq<Tenant>, user: AuthPayload, k: nat)
    requires TenantIdsUnique(tenants) && k < |tenants| && tenants[k].id == user.tenantId
    ensures GetMeTenant(tenants, user) == Ok(tenants[k].View())
  {
    TenantByIdUnique(tenants, k);
  }

  /**
   * The checks `upgradeTenant` makes before it writes, in order: an unknown
   * slug, a caller without an identity or whose own tenant is gone, and a
   * slug naming another tenant.
   */
  function UpgradeRefusal(tenants: seq<Tenant>, slug: string, caller: Option<AuthPayload>): (r: Option<Error>)
    ensures r == Some(TenantNotFound) <==> FindTenantBySlug(tenants, slug).None?
    ensures r == Some(SessionExpired) <==>
      FindTenantBySlug(tenants, slug).Some? && (caller.None? || TenantById(tenants, caller.value.tenantId).None?)
    ensures r.None? <==>
      && FindTenantBySlug(tenants, slug).Some?
      && caller.Some?
      && TenantById(tenants, caller.value.tenantId).Some?
      && FindTenantBySlug(tenants, slug).value.id == caller.value.tenantId
    ensures r.Some? ==> r.value in {TenantNotFound, SessionExpired, CannotUpgradeOther}
  {
    match FindTenantBySlug(tenants, slug)
    case None => Some(TenantNotFound)
    case Some(t) =>
      if caller.None? || TenantById(tenants, caller.value.tenantId).None? then Some(SessionExpired)
      else if t.id != caller.value.tenantId then Some(CannotUpgradeOther)
      else None
  }

  /** An upgrade that passes the checks targets the caller's own tenant. */
  lemma UpgradeTargetsOwnTenant(tenants: seq<Tenant>, slug: string, caller: Option<AuthPayload>)
    requires UpgradeRefusal(tenants, slug, caller).None?
    ensures caller.Some? && TenantIndexBySlug(tenants, slug).Some?
    ensures tenants[TenantIndexBySlug(tenants, slug).value].id == caller.value.tenantId
  {
  }

  /**
   * `upgradeTenant`, behind the admin gate: refused as UpgradeRefusal says,
   * or the tenant the slug names is switched to the pro plan and the new
   * plan returned. The payment attempt in between is optional and its
   * failure is swallowed, so no outcome of it changes what happens here.
   */
  method UpgradeTenant(db: Db, slug: string, caller: Option<AuthPayload>)
    returns (r: Result<Plan>)
    modifies db`tenants
    ensures r.Err? <==> UpgradeRefusal(old(db.tenants), slug, caller).Some?
    ensures r.Err? ==> r.error == UpgradeRefusal(old(db.tenants), slug, caller).value && db.tenants == old(db.tenants)
    ensures r.Ok? ==>
      var i := TenantIndexBySlug(old(db.tenants), slug).value;
      && r.value == Pro
      && db.tenants == old(db.tenants)[i := old(db.tenants)[i].(plan := Pro)]
    ensures old(db.Valid()) ==> db.Valid()
    ensures old(db.Linked()) ==> db.Linked()
  {
    var refusal := UpgradeRefusal(db.tenants, slug, caller);
    if refusal.Some? {
      r := Err(refusal.value);
    } else {
      var i := TenantIndexBySlug(db.tenants, slug).value;
      db.UpgradeTenantToPro(i);
      r := Ok(db.tenants[i].plan);
    }
  }

  /**
   * An upgrade changes no tenant but the caller's own: every tenant with
   * another id is as it was, and the caller's keeps its id, slug and name.
   */
  lemma UpgradeOnlyOwnTenant(tenants: seq<Tenant>, slug: string, caller: Option<AuthPayload>)
    requires UpgradeRefusal(tenants, slug, caller).None?
    ensures var i := TenantIndexBySlug(tenants, slug).value;
      var after := tenants[i := tenants[i].(plan := Pro)];
      && |after| == |tenants|
      && (forall k :: 0 <= k < |tenants| && tenants[k].id != caller.value.tenantId ==> after[k] == tenants[k])
      && after[i].id == tenants[i].id && after[i].slug == tenants[i].slug && after[i].name == tenants[i].name
      && after[i].plan == Pro
  {
    UpgradeTargetsOwnTenant(tenants, slug, caller);
  }

  /** An upgrade does not change which upgrades are refused, nor why. */
  lemma UpgradeKeepsRefusal(tenants: seq<Tenant>, i: nat, slug: string, caller: Option<AuthPayload>)
    requires i < |tenants|
    ensures UpgradeRefusal(tenants[i := tenants[i].(plan := Pro)], slug, caller) == UpgradeRefusal(tenants, slug, caller)
  {
    var after := tenants[i := tenants[i].(plan := Pro)];
    var callerTenant := if caller.Some? then caller.value.tenantId else "";
    PlanChangeKeepsLookups(tenants, i, Pro, slug, callerTenant);
  }

  /** Upgrading an already upgraded tenant changes nothing: the upgrade is idempotent. */
  lemma UpgradeIdempotent(tenants: seq<Tenant>, i: nat)
    requires i < |tenants|
    ensures var once := tenants[i := tenants[i].(plan := Pro)];
      once[i := once[i].(plan := Pro)] == once
  {
  }
}
