# Multi-tenant notes service, modelled in Dafny

This project models the server core of a multi-tenant notes application. It
also models the client's URL helper. The parts modelled are:

- the in-memory store: tenants, users and notes, held in three arrays of one
  process-wide object;
- the seeding routine, which creates the Acme and Globex tenants and their
  four demo accounts;
- the bearer-token middleware and the role gate;
- the login, signup and invite handlers;
- the note handlers: create, list, get, update and delete. Each is confined
  to the caller's tenant. Members of a free-plan tenant may hold at most
  three notes;
- the tenant handlers: the caller's own tenant, and the upgrade to the pro
  plan;
- the client's `apiUrl`.

The module layout follows the program:

- `Store` is `server/data/store.ts`. The store object is `class Db`. Its
  `seq` fields `tenants`, `users` and `notes` are the arrays the source
  pushes to, splices and updates.
- `Auth`, `Notes` and `Tenants` are the route files.
- `Api` is `client/lib/api.ts`.
- `Http` holds the error responses, each with its status code and message.
- `Seqs` and `Text` model the JavaScript built-ins the source relies on:
  `find`, `findIndex`, `filter`, `some` and `toLowerCase`.
- `Scenarios` composes the handlers into end-to-end runs.

The model replaces outside effects with parameters:

- uuids and `Date.now()` are arguments. The ids carry freshness
  preconditions.
- bcrypt is `hashFn` (hashing) and `passwordOk` (comparing).
- The JWT library is `sign` and `verify`.

Each handler is proved correct against a specification. A pure function
states its checks: `CreateRefusal`, `UpgradeRefusal`, `FindNoteIndex`,
`Authenticate`. Each state-changing method's postcondition gives the exact
new store in terms of that function. The handlers also keep two invariants:

- `Db.Valid`: tenant, user and note ids are unique, and addresses are unique
  ignoring case. Every handler keeps it.
- `Db.Linked`: every user and every note names an existing tenant. The
  handlers keep it when the caller's tenant exists; `createNote` and
  `inviteHandler` do not check that it does.

Seeding an empty store makes it valid and linked (`Store.SeededStoreValid`,
`Store.Db.SeedIfEmpty`).

Lemmas prove what the handlers promise:

- the quota binds members only;
- lookups never see other tenants;
- a deleted note is gone;
- an upgrade is idempotent and touches only the caller's tenant;
- a new account can log in;
- a `"<scheme> <token>"` header authenticates as the token's payload.

In these places the code does something other than what its declarations
or its neighbours suggest, and the model follows the code:

- `createNote` has no stale-session check, unlike the tenant handlers, which
  answer a caller whose tenant is gone with 401. For a member whose tenant is
  gone, the tenant lookup yields `undefined` and the plan check reads its
  `plan`, which throws a TypeError: `InternalError`, status 500, answered
  by Express's default error handler. An admin in the same position skips
  the plan check and stores a note whose tenant does not exist.
- `inviteHandler` stores the new user in the caller's tenant as carried by
  the token, without checking that the tenant exists.
- `loginHandler` marks the tenant lookup with TypeScript's `!` assertion,
  which checks nothing at run time. For a user whose tenant is gone the lookup
  yields `undefined`, and reading its `slug` throws a TypeError:
  `InternalError`. `Auth.LoginLinkedNoCrash` shows this cannot happen in a
  linked store.
- Roles are typed as `"admin" | "member"`, but `inviteHandler` stores
  whatever non-empty role string the request carries, so the declared role
  type does not hold. The model therefore has a third kind of role,
  `Other(name)`; the type `StoredRole` keeps its name apart from "admin",
  "member" and the empty string, as the stored strings are. Such a user is refused by the
  admin gate, which asks for `"admin"`, and is never held to the quota,
  which applies to `"member"` only.

## Model

| member | source | states |
|---|---|---|
| Http.Error.Status | server/routes/auth.ts:22-38 | the status code of a refusal: 400 to 499 for every refusal the handlers send, 500 exactly for the crash; the codes are those sent at auth.ts:22-60, 76 and 79, notes.ts:10, 36, 43 and 54, and tenants.ts:11 and 18-20 |
| Http.Error.Message | server/routes/auth.ts:22-38 | the `error` text sent with each refusal, as written at auth.ts:22-60, 76 and 79, notes.ts:10, 36, 43 and 54, and tenants.ts:11 and 18-20; for the crash, the text of Express's default error page |
| Seqs.FindIndex | server/routes/notes.ts:53 | `findIndex`: the index returned satisfies the test and no earlier element does; None exactly when no element satisfies it |
| Seqs.Find | server/data/store.ts:65 | `find`: the element returned satisfies the test, is in the array and is the first such; None exactly when there is none |
| Seqs.Any | server/routes/auth.ts:59 | `some`: true exactly when some element satisfies the test |
| Seqs.Filter | server/data/store.ts:69 | `filter`: no longer than the input, every element kept satisfies the test, and each value occurs as often as in the input if it passes, never otherwise |
| Seqs.FilterConcat | server/routes/notes.ts:29 | filtering a concatenation is concatenating the filtered parts |
| Seqs.FilterSingleton | server/routes/notes.ts:29 | a one-element array filters to itself or to nothing |
| Seqs.FilterRemoveRejected | server/routes/notes.ts:55 | splicing out an element the test rejects leaves the filtered array unchanged |
| Seqs.FilterReplaceRejected | server/routes/notes.ts:45-47 | replacing a rejected element by another rejected one leaves the filtered array unchanged |
| Seqs.FindThroughFilter | server/routes/notes.ts:35 | finding with a conjunction of tests equals finding with the second test inside the array filtered by the first |
| Seqs.FilterPartition | server/data/store.ts:69 | the elements passing a test and those failing it together number the whole array |
| Seqs.FilterIdempotent | server/routes/notes.ts:29 | filtering twice by the same test is filtering once |
| Seqs.FindIndexSameTests | server/data/store.ts:65 | two arrays that agree on the test position by position have the same first match |
| Text.Lower | server/data/store.ts:65 | `toLowerCase`: the same length, no capital left, each capital replaced by its small letter, every other character kept |
| Text.SameIgnoringCase | server/routes/auth.ts:46 | two addresses compared after lowering both; equal ones have the same length |
| Text.DifferentLengthsDiffer | server/data/store.ts:65 | strings of different lengths are never equal ignoring case |
| Store.TenantIndexBySlug | server/data/store.ts:64-66 | the position of the first tenant whose slug equals the given slug ignoring case; None exactly when no slug matches |
| Store.FindTenantBySlug | server/data/store.ts:64-66 | `findTenantBySlug`: a stored tenant whose slug matches ignoring case, the one at the first matching position; None exactly when none matches |
| Store.IsFreePlanLimited | server/data/store.ts:72-74 | `isFreePlanLimited`: a tenant is limited exactly when it is on the free plan (stated by `Store.UpgradeLiftsLimit`) |
| Store.UpgradeLiftsLimit | server/data/store.ts:72-78 | a tenant switched to pro is not limited, and a tenant is limited exactly when the switch changes it |
| Store.TenantById | server/routes/tenants.ts:10 | the tenant lookup by id: a stored tenant carrying the id; None exactly when no tenant does |
| Store.TenantIds | server/routes/tenants.ts:19 | an id is among the tenant ids exactly when the lookup by id finds a tenant |
| Store.TenantByIdUnique | server/routes/notes.ts:7 | with unique tenant ids, looking up a tenant's id finds that very tenant |
| Store.TenantNotes | server/data/store.ts:69 | a tenant's notes: all of them belong to the tenant, and each of the tenant's notes occurs as often as in the store |
| Store.NotesCountForTenant | server/data/store.ts:68-70 | `notesCountForTenant`: at most the number of notes, zero exactly when the tenant has no note, and with the notes of other tenants it adds up to all notes |
| Store.WithIds | server/data/store.ts:61 | giving the accounts their ids keeps their number |
| Store.SeedTenants | server/data/store.ts:47-48 | the two seeded tenants, Acme and Globex, on the free plan; their properties are stated by `Store.SeedRoster` |
| Store.SeedAccounts | server/data/store.ts:54-59 | the four demo accounts without ids, in push order; stated by `Store.SeedRoster` |
| Store.SeedUsers | server/data/store.ts:54-61 | the four demo users with their uuids; `Store.SeedAccountsWithIds` shows they are the accounts given ids |
| Store.SeedAccountsWithIds | server/data/store.ts:54-61 | the demo accounts with their uuids are the four demo users |
| Store.SeedRoster | server/data/store.ts:47-59 | the seed has two free-plan tenants, each with one admin and one member, all sharing the hash of the seed password |
| Store.SeedUsersLinked | server/data/store.ts:55-58 | every demo user belongs to a seeded tenant |
| Store.SeedUserIdsUnique | server/data/store.ts:61 | distinct uuids give the demo users distinct ids |
| Store.SeedEmailsUnique | server/data/store.ts:55-58 | the four demo addresses differ even ignoring case |
| Store.SeedEmailLength | server/data/store.ts:55-58 | the demo addresses have lengths 15, 14, 17 and 16 |
| Store.SeededStoreValid | server/data/store.ts:44-62 | a store seeded from empty is valid (unique ids, unique addresses) and linked |
| Store.Db.constructor | server/data/store.ts:38-42 | the store starts with no tenant, no user and no note |
| Store.Db.SeedIfEmpty | server/data/store.ts:44-62 | with tenants present nothing changes; otherwise the tenants become Acme and Globex on the free plan and the four demo users are appended to whatever users there were; a store seeded from empty is valid and linked |
| Store.Db.PushUsers | server/data/store.ts:61 | the `forEach` appends every account with its id, in order |
| Store.Db.UpgradeTenantToPro | server/data/store.ts:76-78 | `upgradeTenantToPro`: the tenant at the index is on the pro plan, nothing else changes, and validity and links are kept |
| Store.PlanChangeKeepsLookups | server/data/store.ts:76-78 | changing a plan leaves the slug lookup's index, the id lookup's index and the set of tenant ids as they were, so the id lookup finds the same tenant, with the new plan when it is the changed one |
| Store.ParseRole | server/routes/auth.ts:85 | the role a non-empty role string denotes: its name is the string, and it is another role exactly when the string is neither "admin" nor "member" |
| Store.ParseRoleName | server/routes/auth.ts:85 | every stored role read back from its name is that role |
| Store.RoleName | server/routes/auth.ts:85 | the string a role is stored and sent as: never empty, "admin" exactly for the admin role and "member" exactly for the member role |
| Store.Tenant.View | server/routes/tenants.ts:12 | the `{slug, name, plan}` a tenant is sent as, also at auth.ts:52 and 71; `Tenants.GetMeTenant` and `Auth.Login` state where it is sent |
| Store.User.View | server/routes/auth.ts:52 | the `{id, email, role}` a user is sent as, also at auth.ts:71 and 89; `Auth.Login`, `Auth.Signup` and `Auth.Invite` state where it is sent |
| Auth.Split | server/routes/auth.ts:23 | `split(" ")`: at least one field, none containing the separator |
| Auth.JoinSplit | server/routes/auth.ts:23 | joining the fields with the separator gives the header back |
| Auth.SplitWord | server/routes/auth.ts:23 | a string without the separator is one field |
| Auth.SplitWordThenSep | server/routes/auth.ts:23 | a separator-free word and the separator make the first field |
| Auth.SplitJoin | server/routes/auth.ts:23 | splitting a join of separator-free fields gives the fields back |
| Auth.Authenticate | server/routes/auth.ts:20-32 | `authMiddleware`: an absent or empty header is missing; otherwise the header is invalid exactly when it has no second space-separated field or that field is empty, the token is invalid when that field does not verify, and success yields exactly what it verifies to; no other errors |
| Auth.BearerRoundTrip | server/routes/auth.ts:16-32 | a header `"<scheme> <token>"` whose token verifies to a payload authenticates as that payload |
| Auth.SchemeIgnored | server/routes/auth.ts:23 | the first word of the header never changes the outcome |
| Auth.RequireRole | server/routes/auth.ts:34-42 | `requireRole`: no identity is unauthenticated; with an identity it passes exactly when the gate is member or the caller is admin (so another role fails the admin gate), passes the identity on unchanged, and otherwise says admin required |
| Auth.AdminGate | server/index.ts:34-38 | the middleware followed by the admin gate: passes exactly the admins whose header authenticates, and a failing header is refused before the role is looked at |
| Auth.PayloadOf | server/routes/auth.ts:50 | the payload a token is signed over: the user's id, tenant and role; `Auth.Login` and `Auth.LoginAs` state what login does with it |
| Auth.UserIndexByEmail | server/routes/auth.ts:46 | the position of the first user whose address equals the given one ignoring case; None exactly when there is none |
| Auth.EmailTaken | server/routes/auth.ts:59 | `some(...)` over the lowered addresses: taken exactly when login's lookup by address finds a user |
| Auth.EmailTakenIgnoresCase | server/routes/auth.ts:59 | addresses equal ignoring case are taken or free together |
| Auth.Login | server/routes/auth.ts:44-53 | `loginHandler`: invalid credentials exactly when no address matches or the first match's password check fails; an internal error exactly when the password matches but the user's tenant is gone; otherwise a session with a token over that user's payload, its view and its tenant's |
| Auth.LoginLinkedNoCrash | server/routes/auth.ts:51 | when every user is linked to an existing tenant, login never throws |
| Auth.LoginUnique | server/routes/auth.ts:46-49 | with unique addresses and linked users, login with a user's address succeeds exactly when the password matches that user, and signs in as that user |
| Auth.LoginAs | server/routes/auth.ts:44-53 | in a valid, linked store, a user's login succeeds exactly when the password matches, gives the user's own view and its tenant's, and otherwise it is invalid credentials |
| Auth.SignupThenLoginRoundTrip | server/routes/auth.ts:55-72 | in a valid, linked store, the account a signup appends logs in with its password, as a member of the tenant it signed up to |
| Auth.LoginUnknownEmail | server/routes/auth.ts:46-47 | an address nobody registered, in any case, gets invalid credentials |
| Auth.InvitedRole | server/routes/auth.ts:85 | the or-default on the role: a missing or empty role string gives member; any other string is stored as it came, as another role exactly when it is neither "admin" nor "member" |
| Auth.Signup | server/routes/auth.ts:55-72 | `signupHandler`: an unknown slug is refused first, then a taken address; success exactly otherwise, appending a member of the slug's tenant with the hashed password and answering with its session; nothing changes on error; validity and links are kept |
| Auth.Invite | server/routes/auth.ts:74-90 | `inviteHandler`: no identity is unauthenticated, then a taken address is refused; success exactly otherwise, appending a user with the hashed demo password, the role the request names (member when missing or empty, another role for any other name) and the caller's tenant; nothing changes on error; validity kept, links kept when the caller's tenant exists |
| Auth.AppendKeepsUserIds | server/routes/auth.ts:62-69 | appending a user with a fresh id keeps user ids unique |
| Auth.AppendKeepsEmails | server/routes/auth.ts:59-69 | appending a user with a free address keeps addresses unique |
| Auth.AppendKeepsUsersLinked | server/routes/auth.ts:62-69 | appending a user of an existing tenant keeps every user linked |
| Auth.AppendKeepsAccounts | server/routes/auth.ts:59-69 | a fresh id and a free address keep the store valid; an existing tenant also keeps it linked |
| Notes.OrDefault | server/routes/notes.ts:18-19 | JavaScript's or-default on a string: the value when present and non-empty, the default otherwise |
| Notes.FreePlanNoteLimit | server/routes/notes.ts:9 | the free-plan quota of three notes per tenant for members; `Notes.CreateRespectsQuota` shows it is never exceeded |
| Notes.QuotaBlocks | server/routes/notes.ts:9 | the quota condition: a member, of an existing tenant on the free plan, already holding the limit; `Notes.CreateRefusal` refuses with 402 exactly then |
| Notes.TenantNotesAppend | server/routes/notes.ts:23 | after a push the note's tenant sees it last and every other tenant sees nothing new |
| Notes.NotesCountAppend | server/routes/notes.ts:23 | a push raises the count of the note's tenant by one and no other |
| Notes.CreateRefusal | server/routes/notes.ts:6-11 | the checks of `createNote`: internal error exactly for a member whose tenant is gone, 402 exactly when the quota blocks, and accepted exactly for any role other than member, or for a member of an existing tenant where the quota does not block |
| Notes.NonMembersNeverRefused | server/routes/notes.ts:8-9 | the quota, and the crash on a missing tenant, only ever refuse members: any other role is accepted |
| Notes.OtherRoleEscapesQuota | server/routes/notes.ts:9 | a user whose role is neither admin nor member is refused by the admin gate and never held to the quota |
| Notes.CreateRespectsQuota | server/routes/notes.ts:9-23 | an accepted note leaves other tenants' notes unchanged, raises its tenant's count by one and never takes a member's free-plan tenant past three |
| Notes.CreateNote | server/routes/notes.ts:5-25 | `createNote`: refused exactly as the checks say, with their error and no change; otherwise the note with the caller's ids, the defaulted title and content and both timestamps set to now is appended and returned; validity kept, links kept when the caller's tenant exists |
| Notes.AppendKeepsNoteIds | server/routes/notes.ts:14-23 | appending a note with a fresh id keeps note ids unique |
| Notes.AppendKeepsNotesLinked | server/routes/notes.ts:14-23 | appending a note of an existing tenant keeps every note linked |
| Notes.AppendKeepsOtherTenants | server/routes/notes.ts:23 | appending a note leaves every other tenant's notes unchanged |
| Notes.ListNotes | server/routes/notes.ts:27-31 | `listNotes`: a note is listed exactly when it is stored in the caller's tenant, as often as it is stored |
| Notes.ListNotesInStoreOrder | server/routes/notes.ts:29 | the listing keeps store order: listing two batches is listing each in turn |
| Notes.FindNoteIndex | server/routes/notes.ts:53 | the position of the first note with the id inside the tenant; None exactly when there is none |
| Notes.GetNote | server/routes/notes.ts:33-38 | `getNote`: a stored note with the id in the caller's tenant, or not found exactly when there is none |
| Notes.GetNoteReadsOnlyOwnTenant | server/routes/notes.ts:35 | the lookup answers the same when given only the caller's tenant's notes |
| Notes.GetNoteIgnoresOtherTenants | server/routes/notes.ts:35 | stores agreeing on a tenant's notes answer that tenant's lookups alike |
| Notes.Edited | server/routes/notes.ts:44-47 | an edit changes only the fields given as strings and the update time; id, tenant, author and creation time are kept |
| Notes.UpdateNote | server/routes/notes.ts:40-49 | `updateNote`: not found and no change when the tenant has no such note; otherwise exactly that note is replaced by its edit, which is returned and found again by a later get; other tenants unchanged; validity and links kept |
| Notes.ReplaceKeepsNotes | server/routes/notes.ts:45-47 | replacing a note by one with the same id and tenant keeps ids unique, links and other tenants' notes |
| Notes.FindAfterEdit | server/routes/notes.ts:42-48 | after the edit the lookup finds the edited note at the same position |
| Notes.DeleteNote | server/routes/notes.ts:51-57 | `deleteNote`: not found and no change when there is no such note; otherwise exactly that note is spliced out and returned, the store losing that one element; other tenants unchanged; in a valid store a later get is not found; validity and links kept |
| Notes.RemoveKeepsOrder | server/routes/notes.ts:55 | the splice keeps the other notes in order and removes exactly one occurrence |
| Notes.RemoveKeepsIds | server/routes/notes.ts:55 | the splice keeps ids unique and, with unique ids, removes the id |
| Notes.RemoveKeepsTenants | server/routes/notes.ts:55 | the splice keeps notes linked and other tenants' notes unchanged |
| Tenants.GetMeTenant | server/routes/tenants.ts:9-13 | `getMeTenant`: session expired exactly when no tenant carries the caller's tenant id, otherwise the view of such a tenant |
| Tenants.GetMeTenantUnique | server/routes/tenants.ts:10-12 | with unique tenant ids the answer is the view of the caller's own tenant |
| Tenants.UpgradeRefusal | server/routes/tenants.ts:16-20 | the checks of `upgradeTenant`, in order: not found exactly for an unknown slug, session expired exactly for a known slug and a missing or stale caller, accepted exactly when the slug names the caller's existing tenant |
| Tenants.UpgradeTargetsOwnTenant | server/routes/tenants.ts:17-20 | an accepted upgrade names the caller's own tenant |
| Tenants.UpgradeTenant | server/routes/tenants.ts:15-33 | `upgradeTenant`: refused exactly as the checks say, with their error and no change; otherwise the slug's tenant is switched to pro, which is returned; validity and links kept |
| Tenants.UpgradeOnlyOwnTenant | server/routes/tenants.ts:20-31 | an accepted upgrade leaves every tenant of another id unchanged, and the caller's keeps its id, slug and name |
| Tenants.UpgradeKeepsRefusal | server/routes/tenants.ts:17-31 | an upgrade changes neither which upgrades are refused nor why |
| Tenants.UpgradeIdempotent | server/data/store.ts:76-78 | upgrading an upgraded tenant again changes nothing |
| Api.TrimTrailingSlash | client/lib/api.ts:5 | `replace(/\/$/, "")`: one trailing slash removed if present, nothing changed otherwise |
| Api.WithLeadingSlash | client/lib/api.ts:5 | the path starts with a slash, adding one only when it did not |
| Api.ApiUrl | client/lib/api.ts:1-8 | `apiUrl`: the bare path without a base, otherwise the trimmed base followed by the slashed path |
| Api.ApiUrlShape | client/lib/api.ts:4-6 | with a base, the URL is the trimmed base, one slash and the path without its leading slash |
| Api.TrailingSlashIgnored | client/lib/api.ts:5 | a trailing slash on the base makes no difference |
| Api.LeadingSlashIgnored | client/lib/api.ts:5 | a leading slash on the path makes no difference |
| Api.DoubleSlashKept | client/lib/api.ts:5 | only one trailing slash is removed, so a base ending in two leaves a doubled slash |
| Api.ApiUrlEndsWithPath | client/lib/api.ts:1-8 | the path is always the tail of the URL |
| Scenarios.SeedTenantLookups | server/data/store.ts:47-49 | in the seed, Acme and Globex are found by their ids and slugs, first and second |
| Scenarios.SeedLoginAs | server/routes/auth.ts:44-53 | each demo account logs in exactly with the seed password, into its own tenant, and otherwise gets invalid credentials |
| Scenarios.SeedEmailFree | server/routes/auth.ts:46 | an address whose length no demo address has is not registered in the seed |
| Scenarios.SeedEmailFreeByInitial | server/routes/auth.ts:46 | an address whose first letter is neither a nor u, in either case, is not registered in the seed |
| Scenarios.SeedUnknownLogin | server/routes/auth.ts:46-47 | in the seed, such an address gets invalid credentials whatever the password |
| Scenarios.Seeded | server/data/store.ts:44-62 | a new store, once seeded, has no notes, four users and Acme and Globex found by id and slug |
| Scenarios.DemoAdminLogin | server/routes/auth.ts:44-53 | the Acme admin logs in with the demo password and lands in Acme on the free plan |
| Scenarios.DemoWrongPassword | server/routes/auth.ts:46-49 | a wrong password and an unknown address get the same invalid-credentials answer |
| Scenarios.SeedAdmitsSignup | server/routes/auth.ts:57-59 | the seed is valid and linked, "ACME" finds Acme, and "new@acme.test" is free |
| Scenarios.SignupThenLogin | server/routes/auth.ts:55-72 | in a valid, linked store, signup to an existing tenant with a free address succeeds, and login then returns the new member in that tenant |
| Scenarios.SeedReadyForNotes | server/data/store.ts:47-48 | the seed is valid, Acme is on the free plan with no notes, and its admin may upgrade it |
| Scenarios.FreePlanQuota | server/routes/notes.ts:9-11 | after three notes a member's fourth is refused with 402, while an admin of the same tenant still writes one |
| Scenarios.UpgradeLiftsQuota | server/routes/tenants.ts:31 | after an admin of the tenant upgrades it, the member's fourth note is accepted |
| Scenarios.FillQuota | server/routes/notes.ts:9-23 | three notes by a member into a tenant without notes are all accepted, and the tenant then holds the limit |
| Scenarios.AddWithinQuota | server/routes/notes.ts:9-23 | below the limit a member's note is accepted and raises the count by one |
| Scenarios.UpgradeTwice | server/routes/tenants.ts:15-33 | an accepted upgrade is accepted again, and the second changes nothing |
| Scenarios.CrossTenantUpgrade | server/routes/tenants.ts:20 | Acme's admin cannot upgrade Globex, and Globex stays on the free plan |
| Scenarios.NotesStayInTenant | server/routes/notes.ts:5-38 | a note a member writes is found again in the member's tenant, while another tenant's user gets not found and an unchanged listing |

## Left out

- Password hashing and comparison (bcrypt) are the parameters `hashFn` and `passwordOk`. Token signing and verification (jsonwebtoken) are `sign` and `verify`. Being functions, they are deterministic. Token expiry, the secret and the cost factor are not modelled.
- Auth.Invite: bcrypt salts every hash afresh, so an invited user's hash of the demo password differs from the one hash the seeding computes for all demo users. The model's `hashFn` gives one hash per password, so there the invited user stores the demo users' hash.
- uuids (`uuidv4`, `crypto.randomUUID`) and `Date.now()` are arguments. Ids carry a freshness precondition, which the random uuids only make likely.
- Tenants.UpgradeTenant: the optional Stripe payment attempt is not modelled. Its outcome is ignored by the source, and it is network I/O.
- Request bodies whose fields are not strings are not modelled. A missing title, content or role is `None`. Login's address is a plain string: `String(email || "")` turns a missing address into `""`. Handlers that throw on a missing field are also not modelled: signup and invite lowering an undefined address, and bcrypt given an undefined password.
- Text.Lower maps only ASCII letters. JavaScript's `toLowerCase` also folds other scripts, and can change a string's length (`"İ"` lowers to two characters), so `Text.DifferentLengthsDiffer` and the length clause of `Text.SameIgnoringCase` hold only for the ASCII lowering.
- Notes.UpdateNote and Tenants.UpgradeTenant: the source mutates the record object itself. The model replaces the element at the index the lookup found, so a reference to the record held elsewhere is not modelled.
- Concurrency between requests is not modelled: each handler runs to completion on the store. Express routing and middleware chaining are not modelled either. `AdminGate` composes the two gates the routes stack.
- The billing module and the client UI pages are not part of this model.
