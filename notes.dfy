/**
 * The note handlers. Every one runs behind the authentication middleware, so
 * each receives the caller's identity; every lookup is restricted to the
 * caller's tenant, and a member on the free plan may hold at most three
 * notes per tenant.
 */
module Notes {
  import opened Wrappers
  import opened Seqs
  import opened Http
  import opened Store
  import opened Auth

  /** How many notes a tenant on the free plan may hold before members are refused. */
  const FreePlanNoteLimit := 3

  /** JavaScript's `v || d` on a string that may be missing: an empty string counts as missing. */
  function OrDefault(v: Option<string>, d: string): (r: string)
    ensures v.Some? && v.value != "" ==> r == v.value
    ensures v.None? || v.value == "" ==> r == d
  {
    if v.Some? && v.value != "" then v.value else d
  }

  // ------------------------------------------------------------ per-tenant

  /** One note appended: the tenant it belongs to sees it last, every other tenant sees nothing new. */
  lemma TenantNotesAppend(notes: seq<Note>, n: Note, tenantId: string)
    ensures TenantNotes(notes + [n], tenantId) ==
      TenantNotes(notes, tenantId) + (if n.tenantId == tenantId then [n] else [])
  {
    FilterConcat(notes, [n], InTenant(tenantId));
    FilterSingleton(n, InTenant(tenantId));
  }

  /** The quota counts the notes of the tenant: one more note of the tenant makes it one more. */
  lemma NotesCountAppend(notes: seq<Note>, n: Note, tenantId: string)
    ensures NotesCountForTenant(notes + [n], tenantId) ==
      NotesCountForTenant(notes, tenantId) + (if n.tenantId == tenantId then 1 else 0)
  {
    TenantNotesAppend(notes, n, tenantId);
  }

  /**
   * The quota check of `createNote`: a member, in an existing tenant on the
   * free plan, that already holds the limit or more.
   */
  predicate QuotaBlocks(tenants: seq<Tenant>, notes: seq<Note>, user: AuthPayload) {
    && user.role == Member
    && TenantById(tenants, user.tenantId).Some?
    && IsFreePlanLimited(TenantById(tenants, user.tenantId).value)
    && NotesCountForTenant(notes, user.tenantId) >= FreePlanNoteLimit
  }

  /**
   * The checks `createNote` makes before it writes, in order: the error it
   * answers with, if any. For a member whose tenant is gone the lookup yields
   * `undefined`, and the plan check throws a TypeError reading its plan
   * (InternalError); for any other role the check short-circuits before it.
   */
  function CreateRefusal(tenants: seq<Tenant>, notes: seq<Note>, user: AuthPayload): (r: Option<Error>)
    ensures r == Some(InternalError) <==> user.role == Member && TenantById(tenants, user.tenantId).None?
    ensures r == Some(PlanLimitReached) <==> QuotaBlocks(tenants, notes, user)
    ensures r.None? <==> user.role != Member || (TenantById(tenants, user.tenantId).Some? && !QuotaBlocks(tenants, notes, user))
  {
    if user.role == Member then
      match TenantById(tenants, user.tenantId)
      case None => Some(InternalError)
      case Some(t) =>
        if IsFreePlanLimited(t) && NotesCountForTenant(notes, t.id) >= FreePlanNoteLimit then Some(PlanLimitReached)
        else None
    else None
  }

  /** Only members are ever refused: the quota binds members alone, and so does the crash on a missing tenant. */
  lemma NonMembersNeverRefused(tenants: seq<Tenant>, notes: seq<Note>, user: AuthPayload)
    requires user.role != Member
    ensures CreateRefusal(tenants, notes, user).None?
  {
  }

  /**
   * A role other than admin and member, as an invite may store it, is
   * refused by the admin gate, yet the quota, which tests for members, never
   * holds it back.
   */
  lemma OtherRoleEscapesQuota(tenants: seq<Tenant>, notes: seq<Note>, user: AuthPayload)
    requires user.role.Other?
    ensures RequireRole(Admin, Some(user)) == Err(AdminRequired)
    ensures CreateRefusal(tenants, notes, user).None?
  {
  }

  /**
   * A note the checks let through leaves every other tenant's notes alone,
   * and never takes a member's free-plan tenant past the limit.
   */
  lemma CreateRespectsQuota(tenants: seq<Tenant>, notes: seq<Note>, user: AuthPayload, n: Note)
    requires CreateRefusal(tenants, notes, user).None? && n.tenantId == user.tenantId
    ensures forall t :: t != user.tenantId ==> TenantNotes(notes + [n], t) == TenantNotes(notes, t)
    ensures 
      user.role == Member && IsFreePlanLimited(TenantById(tenants, user.tenantId).value) ==>
      NotesCountForTenant(notes + [n], user.tenantId) <= FreePlanNoteLimit
    ensures NotesCountForTenant(notes + [n], user.tenantId) == NotesCountForTenant(notes, user.tenantId) + 1
  {
    AppendKeepsOtherTenants(notes, n);
    NotesCountAppend(notes, n, user.tenantId);
  }

  /** `createNote`: refused as CreateRefusal says, or the note appended. `id` is the fresh uuid, `now` the clock. */
  method CreateNote(db: Db, user: AuthPayload, title: Option<string>, content: Option<string>,
                    id: string, now: int) returns (r: Result<Note>)
    requires forall n :: n in db.notes ==> n.id != id
    modifies db`notes
    ensures r.Err? <==> CreateRefusal(db.tenants, old(db.notes), user).Some?
    ensures r.Err? ==> r.error == CreateRefusal(db.tenants, old(db.notes), user).value && db.notes == old(db.notes)
    ensures r.Ok? ==>
      && r.value == Note(id, user.tenantId, user.userId, OrDefault(title, "Untitled"), OrDefault(content, ""), now, now)
      && db.notes == old(db.notes) + [r.value]
    ensures old(db.Valid()) ==> db.Valid()
    ensures old(db.Linked()) && user.tenantId in TenantIds(db.tenants) ==> db.Linked()
  {
    var refusal := CreateRefusal(db.tenants, db.notes, user);
    if refusal.Some? {
      r := Err(refusal.value);
    } else {
      var note := Note(id, user.tenantId, user.userId, OrDefault(title, "Untitled"), OrDefault(content, ""), now, now);
      if NoteIdsUnique(db.notes) {
        AppendKeepsNoteIds(db.notes, note);
      }
      if NotesLinked(db.tenants, db.notes) && note.tenantId in TenantIds(db.tenants) {
        AppendKeepsNotesLinked(db.tenants, db.notes, note);
      }
      db.notes := db.notes + [note];
      r := Ok(note);
    }
  }

  /** Appending a note with a fresh id keeps note ids unique. */
  lemma AppendKeepsNoteIds(notes: seq<Note>, n: Note)
    requires NoteIdsUnique(notes) && forall m :: m in notes ==> m.id != n.id
    ensures NoteIdsUnique(notes + [n])
  {
    var s := notes + [n];
    forall i, j | 0 <= i < j < |s| ensures s[i].id != s[j].id {
      assert s[i] == notes[i] && notes[i] in notes;
      if j < |notes| {
        assert s[j] == notes[j];
      }
    }
  }

  /** Appending a note of an existing tenant keeps every note linked. */
  lemma AppendKeepsNotesLinked(tenants: seq<Tenant>, notes: seq<Note>, n: Note)
    requires NotesLinked(tenants, notes) && n.tenantId in TenantIds(tenants)
    ensures NotesLinked(tenants, notes + [n])
  {
    var s := notes + [n];
    assert forall i :: 0 <= i < |notes| ==> s[i] == notes[i];
  }

  /** Appending a note leaves every other tenant's notes as they were. */
  lemma AppendKeepsOtherTenants(notes: seq<Note>, n: Note)
    ensures forall t :: t != n.tenantId ==> TenantNotes(notes + [n], t) == TenantNotes(notes, t)
  {
    forall t | t != n.tenantId ensures TenantNotes(notes + [n], t) == TenantNotes(notes, t) {
      TenantNotesAppend(notes, n, t);
    }
  }

  /** `listNotes`: the caller's tenant's notes, in store order, and no other. */
  function ListNotes(notes: seq<Note>, user: AuthPayload): (r: seq<Note>)
    ensures forall n :: n in r <==> n in notes && n.tenantId == user.tenantId
    ensures forall n {:trigger multiset(r)[n]} :: multiset(r)[n] == if n.tenantId == user.tenantId then multiset(notes)[n] else 0
  {
    var r := TenantNotes(notes, user.tenantId);
    assert forall n :: n in r <==> multiset(r)[n] > 0;
    assert forall n :: n in notes <==> multiset(notes)[n] > 0;
    r
  }

  /** The listing keeps store order: the notes of a later batch come after those of an earlier one. */
  lemma ListNotesInStoreOrder(a: seq<Note>, b: seq<Note>, user: AuthPayload)
    ensures ListNotes(a + b, user) == ListNotes(a, user) + ListNotes(b, user)
  {
    FilterConcat(a, b, InTenant(user.tenantId));
  }

  // ------------------------------------------------------------- lookups

  function NoteMatches(noteId: string, tenantId: string): Note -> bool {
    (n: Note) => n.id == noteId && n.tenantId == tenantId
  }

  function HasNoteId(noteId: string): Note -> bool {
    (n: Note) => n.id == noteId
  }

  /** The index of the first note with the id inside the tenant: the lookup of get, update and delete. */
  function FindNoteIndex(notes: seq<Note>, noteId: string, tenantId: string): (r: Option<nat>)
    ensures r.Some? ==> r.value < |notes| && notes[r.value].id == noteId && notes[r.value].tenantId == tenantId
    ensures r.Some? ==> forall j :: 0 <= j < r.value ==> !(notes[j].id == noteId && notes[j].tenantId == tenantId)
    ensures r.None? <==> forall j :: 0 <= j < |notes| ==> !(notes[j].id == noteId && notes[j].tenantId == tenantId)
  {
    FindIndex(notes, NoteMatches(noteId, tenantId))
  }

  /** `getNote`: the note with the id in the caller's tenant, or NotFound. */
  function GetNote(notes: seq<Note>, user: AuthPayload, noteId: string): (r: Result<Note>)
    ensures r.Ok? ==> r.value in notes && r.value.id == noteId && r.value.tenantId == user.tenantId
    ensures r.Err? <==> forall n :: n in notes ==> !(n.id == noteId && n.tenantId == user.tenantId)
    ensures r.Err? ==> r.error == NotFound
  {
    match FindNoteIndex(notes, noteId, user.tenantId)
    case None => Err(NotFound)
    case Some(i) => Ok(notes[i])
  }

  /** Looking a note up only ever consults the caller's tenant's notes. */
  lemma GetNoteReadsOnlyOwnTenant(notes: seq<Note>, user: AuthPayload, noteId: string)
    ensures GetNote(notes, user, noteId) == GetNote(TenantNotes(notes, user.tenantId), user, noteId)
  {
    var t := user.tenantId;
    FindThroughFilter(notes, InTenant(t), HasNoteId(noteId), NoteMatches(noteId, t));
    FindThroughFilter(TenantNotes(notes, t), InTenant(t), HasNoteId(noteId), NoteMatches(noteId, t));
    FilterIdempotent(notes, InTenant(t));
  }

  /** Hence two stores that agree on a tenant's notes answer its lookups alike. */
  lemma GetNoteIgnoresOtherTenants(a: seq<Note>, b: seq<Note>, user: AuthPayload, noteId: string)
    requires TenantNotes(a, user.tenantId) == TenantNotes(b, user.tenantId)
    ensures GetNote(a, user, noteId) == GetNote(b, user, noteId)
  {
    GetNoteReadsOnlyOwnTenant(a, user, noteId);
    GetNoteReadsOnlyOwnTenant(b, user, noteId);
  }

  // ------------------------------------------------------- update, delete

  /** The note an update produces: only the fields given as strings change, and the update time. */
  function Edited(n: Note, title: Option<string>, content: Option<string>, now: int): (r: Note)
    ensures r.id == n.id && r.tenantId == n.tenantId && r.userId == n.userId && r.createdAt == n.createdAt
    ensures r.title == (if title.Some? then title.value else n.title)
    ensures r.content == (if content.Some? then content.value else n.content)
    ensures r.updatedAt == now
  {
    n.(title := title.GetOr(n.title), content := content.GetOr(n.content), updatedAt := now)
  }

  /**
   * `updateNote`: the note found in the caller's tenant is edited in place.
   * `None` stands for a field that is absent or not a string.
   */
  method UpdateNote(db: Db, user: AuthPayload, noteId: string, title: Option<string>, content: Option<string>,
                    now: int) returns (r: Result<Note>)
    modifies db`notes
    ensures FindNoteIndex(old(db.notes), noteId, user.tenantId).None? ==>
      r == Err(NotFound) && db.notes == old(db.notes)
    ensures FindNoteIndex(old(db.notes), noteId, user.tenantId).Some? ==>
      var i := FindNoteIndex(old(db.notes), noteId, user.tenantId).value;
      && r == Ok(Edited(old(db.notes)[i], title, content, now))
      && db.notes == old(db.notes)[i := r.value]
    ensures r.Ok? ==> GetNote(db.notes, user, noteId) == r
    ensures forall t :: t != user.tenantId ==> TenantNotes(db.notes, t) == TenantNotes(old(db.notes), t)
    ensures old(db.Valid()) ==> db.Valid()
    ensures old(db.Linked()) ==> db.Linked()
  {
    var idx := FindNoteIndex(db.notes, noteId, user.tenantId);
    if idx.None? {
      return Err(NotFound);
    }
    var i := idx.value;
    var edited := Edited(db.notes[i], title, content, now);
    ReplaceKeepsNotes(db.tenants, db.notes, i, edited);
    FindAfterEdit(db.notes, i, edited, noteId, user.tenantId);
    db.notes := db.notes[i := edited];
    r := Ok(edited);
  }

  /** Replacing a note by one with the same id and tenant keeps every invariant and every other tenant's notes. */
  lemma ReplaceKeepsNotes(tenants: seq<Tenant>, notes: seq<Note>, i: nat, n: Note)
    requires i < |notes| && n.id == notes[i].id && n.tenantId == notes[i].tenantId
    ensures NoteIdsUnique(notes) ==> NoteIdsUnique(notes[i := n])
    ensures NotesLinked(tenants, notes) ==> NotesLinked(tenants, notes[i := n])
    ensures forall t :: t != n.tenantId ==> TenantNotes(notes[i := n], t) == TenantNotes(notes, t)
  {
    forall t | t != n.tenantId ensures TenantNotes(notes[i := n], t) == TenantNotes(notes, t) {
      FilterReplaceRejected(notes, i, n, InTenant(t));
    }
  }

  /** After the edit the lookup finds the edited note where it found the old one. */
  lemma FindAfterEdit(notes: seq<Note>, i: nat, n: Note, noteId: string, tenantId: string)
    requires FindNoteIndex(notes, noteId, tenantId) == Some(i)
    requires n.id == notes[i].id && n.tenantId == notes[i].tenantId
    ensures FindNoteIndex(notes[i := n], noteId, tenantId) == Some(i)
  {
    var s := notes[i := n];
    var k := FindNoteIndex(s, noteId, tenantId);
    assert s[i].id == noteId && s[i].tenantId == tenantId;
    assert k.Some? && k.value <= i;
    assert forall j :: 0 <= j < i ==> s[j] == notes[j];
  }

  /**
   * `deleteNote`: the note found in the caller's tenant is spliced out and
   * returned; the rest keep their order.
   */
  method DeleteNote(db: Db, user: AuthPayload, noteId: string) returns (r: Result<Note>)
    modifies db`notes
    ensures FindNoteIndex(old(db.notes), noteId, user.tenantId).None? ==>
      r == Err(NotFound) && db.notes == old(db.notes)
    ensures FindNoteIndex(old(db.notes), noteId, user.tenantId).Some? ==>
      var i := FindNoteIndex(old(db.notes), noteId, user.tenantId).value;
      && r == Ok(old(db.notes)[i])
      && db.notes == old(db.notes)[..i] + old(db.notes)[i + 1..]
    ensures r.Ok? ==> |db.notes| == |old(db.notes)| - 1 && multiset(db.notes) + multiset{r.value} == multiset(old(db.notes))
    ensures forall t :: t != user.tenantId ==> TenantNotes(db.notes, t) == TenantNotes(old(db.notes), t)
    ensures r.Ok? && old(db.Valid()) ==> GetNote(db.notes, user, noteId) == Err(NotFound)
    ensures old(db.Valid()) ==> db.Valid()
    ensures old(db.Linked()) ==> db.Linked()
  {
    var idx := FindNoteIndex(db.notes, noteId, user.tenantId);
    if idx.None? {
      return Err(NotFound);
    }
    var i := idx.value;
    var deleted := db.notes[i];
    RemoveKeepsOrder(db.notes, i);
    RemoveKeepsTenants(db.tenants, db.notes, i);
    if NoteIdsUnique(db.notes) {
      RemoveKeepsIds(db.notes, i);
    }
    db.notes := db.notes[..i] + db.notes[i + 1..];
    r := Ok(deleted);
  }

  /** Removing one note: the rest keep their order, and the multiset loses exactly that note. */
  lemma RemoveKeepsOrder(notes: seq<Note>, i: nat)
    requires i < |notes|
    ensures var s := notes[..i] + notes[i + 1..];
      && |s| == |notes| - 1
      && (forall j :: 0 <= j < |s| ==> s[j] == if j < i then notes[j] else notes[j + 1])
      && multiset(s) + multiset{notes[i]} == multiset(notes)
  {
    assert notes == notes[..i] + [notes[i]] + notes[i + 1..];
  }

  /** Removing one note keeps ids unique, and with unique ids its id is gone. */
  lemma RemoveKeepsIds(notes: seq<Note>, i: nat)
    requires i < |notes| && NoteIdsUnique(notes)
    ensures NoteIdsUnique(notes[..i] + notes[i + 1..])
    ensures forall n :: n in notes[..i] + notes[i + 1..] ==> n.id != notes[i].id
  {
    var s := notes[..i] + notes[i + 1..];
    RemoveKeepsOrder(notes, i);
    forall j, k | 0 <= j < k < |s| ensures s[j].id != s[k].id {
      var j', k' := if j < i then j else j + 1, if k < i then k else k + 1;
      assert s[j] == notes[j'] && s[k] == notes[k'] && j' < k';
    }
    forall n | n in s ensures n.id != notes[i].id {
      var j :| 0 <= j < |s| && s[j] == n;
      if j < i {
        assert n == notes[j];
      } else {
        assert n == notes[j + 1];
      }
    }
  }

  /** Removing one note keeps every note linked and every other tenant's notes. */
  lemma RemoveKeepsTenants(tenants: seq<Tenant>, notes: seq<Note>, i: nat)
    requires i < |notes|
    ensures NotesLinked(tenants, notes) ==> NotesLinked(tenants, notes[..i] + notes[i + 1..])
    ensures forall t :: t != notes[i].tenantId ==> TenantNotes(notes[..i] + notes[i + 1..], t) == TenantNotes(notes, t)
  {
    RemoveKeepsOrder(notes, i);
    forall t | t != notes[i].tenantId ensures TenantNotes(notes[..i] + notes[i + 1..], t) == TenantNotes(notes, t) {
      FilterRemoveRejected(notes, i, InTenant(t));
    }
  }
}
