# Access gate of the elder-care companion server, in Dafny

This project models the access-control core of a subscription-gated care
application (medication reminders, appointments, a panic button, and an admin
panel that blocks accounts). It covers:

- the two Express middlewares in `server/routes.ts`. `checkAccess` guards every
  medication, appointment and panic route. `requireAdmin` guards the two admin
  routes. Each is a pure function of the session user (an `Option<User>`) and,
  for `checkAccess`, the current time.
- a reference access policy (public / standard-gated / admin-only classes,
  with denial reasons). A lemma proves that the two middlewares implement it
  for every input.
- the `api` route table of `shared/routes.ts`, and the route-to-gate
  registrations of `registerRoutes`.
- the 400/500 error mapping of the two create handlers.
- `buildUrl`, as a `for` loop proved against a left fold of single substitution
  steps. It models JavaScript's `includes`, `replace` (with its `$`
  replacement patterns) and `String(number)`.
- the user table of `server/storage.ts`, as a class `DatabaseStorage` holding a
  map from serial id to row plus the next sequence value. Its methods are proved
  against pure step functions over a `Db` value, and lemmas about histories of
  operations build on those functions.
- the record shapes, defaults and insert-schema omissions of `shared/schema.ts`.

Time is an integer count of milliseconds. "+30 days" is `30 * 86_400_000`.

Modules and files:

| file | module | models |
|---|---|---|
| wrappers.dfy | Wrappers | `Option` |
| schema.dfy | Schema | shared/schema.ts |
| storage.dfy | Storage | server/storage.ts (users) |
| gates.dfy | Gates | server/routes.ts:27-48 |
| access_policy.dfy | AccessPolicy | the policy the gates implement |
| registrations.dfy | Registrations | server/routes.ts:50-120 (route → gate) |
| create_handlers.dfy | CreateHandlers | server/routes.ts:56-97 (error mapping) |
| api_table.dfy | ApiTable | shared/routes.ts:20-139 |
| build_url.dfy | Url | shared/routes.ts:141-151 |
| lifecycle.dfy | Lifecycle | storage and gates together |

Facts of the code the model keeps:

- The denial messages are the code's Portuguese strings.
- A 401 or a plain 403 is a bare `sendStatus` with no JSON body.
- `api` is a plain object literal, and registering routes does not reject a
  duplicate (method, path). That no two entries share one is proved as a lemma
  about the constant table (`Registrations.ApiUnambiguous`).

## Model

| member | source | states |
|---|---|---|
| Gates.CheckAccess | server/routes.ts:27-42 | continues exactly when the user is present and is an admin, or is unblocked with `now <= subscriptionEndDate`; otherwise it answers 401, the blocked 403 or the expired 403 |
| Gates.RequireAdmin | server/routes.ts:44-48 | continues exactly for a present admin; otherwise it answers 401 (no user) or 403 |
| Gates.UnauthenticatedIsRejected | server/routes.ts:27-48 | with no session user, both gates answer 401 and never continue |
| Gates.AdminBypassesAccessChecks | server/routes.ts:31 | an admin passes `checkAccess` whatever its block flag and subscription end |
| Gates.BlockedBeforeExpiry | server/routes.ts:33-35 | a blocked non-admin gets the blocked 403, even with subscription time left |
| Gates.ExpiryIsStrict | server/routes.ts:37-41 | an unblocked non-admin is refused as expired exactly when `now > end`, and passes exactly when `now <= end`, the end instant included |
| Gates.AccessOnlyExpiresForward | server/routes.ts:37-39 | a user who passes at some time also passed at every earlier time |
| Gates.RequireAdminIgnoresAccount | server/routes.ts:46-47 | every authenticated non-admin gets 403; an admin passes even when blocked or expired |
| AccessPolicy.GatesImplementPolicy | server/routes.ts:27-48 | for every identity and time, `checkAccess` is the standard-gated policy and `requireAdmin` the admin-only policy |
| AccessPolicy.RenderInjective | server/routes.ts:28-38 | each decision, with its reason, produces a different response |
| AccessPolicy.AdminOnlyImpliesStandard | server/routes.ts:44-48 | whoever passes the admin gate also passes the access gate |
| Registrations.GateFor | server/routes.ts:51-120 | finds a gate exactly when some registration has that verb and path, and returns that registration's gate |
| Registrations.ApiUnambiguous | shared/routes.ts:20-139 | no two entries of `api` share a (method, path) pair |
| Registrations.ApiSignature | shared/routes.ts:20-139 | entry k of `api` has the k-th (method, path) pair of the declaration order |
| Registrations.RegistrationEntry | server/routes.ts:51-120 | the k-th registration is table entry k+4, registered under its own method and its group's gate |
| Registrations.RegistrationsFollowTable | server/routes.ts:51-120 | every registration uses its entry's method, and every registered route is in `api` |
| Registrations.RegisteredUnambiguous | server/routes.ts:51-120 | no two registrations share a verb and a path |
| Registrations.GateForEntry | server/routes.ts:51-120 | in a list of registrations with no duplicate (verb, path), lookup returns each registration's own gate |
| Registrations.GateAt | server/routes.ts:51-120 | in such a list, looking up the verb and path of registration k returns its gate |
| Registrations.EveryResourceRouteIsGated | server/routes.ts:50-120 | every non-auth entry is registered; medications, appointments and panic get `checkAccess`, admin gets `requireAdmin` |
| Registrations.AuthRoutesUngated | server/routes.ts:50-120 | no `auth` entry of `api` is registered by `registerRoutes`, so no gate runs before those handlers |
| Registrations.RoutesFollowPolicy | server/routes.ts:50-120 | every entry of `api` is guarded by exactly its group's class: the `auth` entries by no gate, the others by a gate that decides as the class's policy does, for every user and time |
| Registrations.AdminRoutesRefuseStandardUsers | server/routes.ts:111-120 | both admin routes carry `requireAdmin`, so any non-admin, even with a valid subscription, gets 403 on them |
| Registrations.ToggleBlockEntry | shared/routes.ts:129-132 | looking up `PATCH /api/admin/users/:id/block` finds `toggleBlock`, whose input is one required boolean `isBlocked` |
| Registrations.RegisterInput | shared/routes.ts:22-25 | the register input, `insertUserSchema`, resolves to exactly the required string fields username, password and fullName |
| CreateHandlers.HandleCreate | server/routes.ts:56-68 | a validation failure gives 400 with the first issue's message; a valid payload whose insert fails gives 500; otherwise the stored row is returned |
| CreateHandlers.PostMedication | server/routes.ts:56-68 | 400 with the first issue when invalid; 500 exactly when a valid payload's insert fails; when it succeeds, `Created` (the 201) with the stored row; the insert receives the session user's id as `userId` |
| CreateHandlers.PostAppointment | server/routes.ts:81-97 | 400 with the first issue when invalid; 500 exactly when a valid payload's insert fails; when it succeeds, `Created` (the 201) with the stored row; the insert receives the session user's id as `userId` |
| ApiTable.InsertInput | shared/schema.ts:64-80 | an insert schema's object fields: one per column, in order, required when the column is not null, not serial and has no default |
| ApiTable.OmittedInsertInput | shared/schema.ts:64-80 | for any table and omitted keys, the insert schema's object accepts exactly the table's keys minus the omitted ones, each field required exactly when its column must be supplied |
| ApiTable.ResolvedInsertSchema | shared/routes.ts:25-96 | a route whose input is an insert schema (`insertUserSchema` and the others) accepts exactly its table's keys minus the `.omit` keys, so the register route can never carry `id`, `createdAt`, `isBlocked`, `role` or `subscriptionEndDate` |
| ApiTable.Find | shared/routes.ts:20-139 | the entry found has the requested method and path; "not found" means no entry has both |
| ApiTable.FindEntry | shared/routes.ts:20-139 | in a table with no duplicate (method, path), lookup returns each entry |
| Url.BuildUrl | shared/routes.ts:141-151 | with no params the path is returned unchanged; otherwise the result is the entries applied in order, each to the previous url |
| Url.ApplyAllFirst | shared/routes.ts:144-148 | the first entry is applied to the path, and the remaining entries to its result |
| Url.ApplyAll | shared/routes.ts:142-150 | an empty record leaves the path as it is |
| Url.UnmatchedRecordKeepsUrl | shared/routes.ts:144-148 | a record none of whose `:key` placeholders occurs in the path leaves the path as it is |
| Url.Step | shared/routes.ts:145-146 | an entry whose `:key` is not included in the url leaves the url unchanged |
| Url.ReplaceFirst | shared/routes.ts:146 | `replace` with a string pattern: without a match the string is unchanged; with one, the text before the first occurrence and the text after it are kept around the replacement |
| Url.Expand | shared/routes.ts:146 | the `$` patterns of a replacement only copy text: every character of the result comes from the replacement, the match, or the text before or after it |
| Url.ToStr | shared/routes.ts:146 | `String(value)`: a string is kept; a number becomes a non-empty numeral without `$`, for a natural number its digits without leading zeros |
| Url.DigitsValue | server/routes.ts:71 | `Number` of a digit string is zero exactly when every digit is `0` |
| Url.PlaceholderAfterPrefix | shared/routes.ts:145-146 | after a colon-free prefix, `:key` first occurs right after the prefix |
| Url.AbsentKeyLeavesUrl | shared/routes.ts:145 | an entry whose `:key` is not a substring of the url leaves the url unchanged |
| Url.StepReplacesFirst | shared/routes.ts:146 | for a `$`-free value, an entry replaces only the first occurrence of `:key` with the value |
| Url.SinglePlaceholder | shared/routes.ts:144-148 | with a colon-free prefix, `prefix:key suffix` becomes `prefix value suffix` |
| Url.MedicationUrl | shared/routes.ts:78 | `buildUrl('/api/medications/:id', {id})` is the prefix followed by the id's digits, and reading those digits gives back the id |
| Url.ToggleBlockUrl | shared/routes.ts:131 | for the block route, the id is substituted and `/block` is kept |
| Url.PlaceholderEdgeCases | shared/routes.ts:145-146 | after a colon-free prefix, `:id` also matches at the start of `:idx`, leaving the `x`; of two `:id` occurrences only the first is replaced |
| Url.DollarPatternInValue | shared/routes.ts:146 | for any key, the string value `$&` is expanded to the matched `:key`, so the url keeps its placeholder |
| Url.IndexFrom | shared/routes.ts:145-146 | the index found is an occurrence with none before it; "none found" means no occurrence at all |
| Url.IncludesIffFound | shared/routes.ts:145-146 | `includes` holds exactly when the first-occurrence search finds an index |
| Url.FirstOccurrence | shared/routes.ts:146 | an occurrence with no earlier one is the one that `replace` finds |
| Url.ExpandLiteral | shared/routes.ts:146 | a replacement with no `$` is inserted literally |
| Url.NatDecimal | shared/routes.ts:146 | `String(n)` of a natural number is a non-empty digit string without leading zeros |
| Url.Decimal | shared/routes.ts:146 | `String(n)` of an integer never contains `$`, so numeric substitution is literal |
| Url.DecimalRoundTrip | server/routes.ts:71 | `Number(String(n)) == n`; with Express binding `:id` to the digits, the id reaches `Number(req.params.id)` unchanged |
| Schema.Omit | shared/schema.ts:64-80 | `.omit` never lengthens the column list and leaves no omitted key |
| Schema.OmitMembers | shared/schema.ts:64-80 | omitting keeps exactly the columns whose key is not omitted; the key set is the table's keys minus the omitted keys |
| Schema.InsertUserSchemaFields | shared/schema.ts:64-70 | the user insert schema is exactly the username, password and fullName columns, each required |
| Schema.InsertMedicationSchemaFields | shared/schema.ts:72-75 | the medication insert schema is the medication columns without `id` and `userId` |
| Schema.InsertAppointmentSchemaFields | shared/schema.ts:77-80 | the appointment insert schema is the appointment columns without `id` and `userId` |
| Schema.RegistrationCannotSetServerFields | shared/schema.ts:64-70 | whatever a registration payload holds, `id`, `createdAt`, `isBlocked`, `role` and `subscriptionEndDate` never survive validation |
| Schema.OwnedPayloadsCannotSetOwner | shared/schema.ts:72-80 | medication and appointment payloads never keep `id` or `userId` |
| Schema.Strip | shared/schema.ts:64-80 | a validated payload keeps exactly the schema's keys that the payload has, with their values |
| Schema.UserColumnDefaults | shared/schema.ts:6-15 | every user column is not null; `role` defaults to `'user'` and `isBlocked` to false; `id` is the only primary key and `username` the only column with `.unique()` |
| Schema.MedicationActiveDefault | shared/schema.ts:24 | a medication inserted without `active` is active |
| Schema.MedicationRow | shared/schema.ts:17-25 | the stored medication is active unless the payload says `false`, and is owned by the given user |
| Schema.AppointmentRow | shared/schema.ts:27-34 | the stored appointment has the given id and owner and the payload's title, date, location and notes |
| Schema.AppointmentOptionalFieldsStayNull | shared/schema.ts:32-33 | `location` and `notes` are nullable columns without a default, so an appointment inserted without them stores null |
| Storage.NewUser | server/storage.ts:45-57 | the new row has the given id, the payload's username, password and full name, role `'user'` (never admin), not blocked, a subscription ending 30 days after the first clock reading, and `createdAt` the second reading |
| Storage.Lookup | server/storage.ts:35-38 | finds a row exactly when the id is in the table, returns that row, and in a well-formed table the row carries that id |
| Storage.CreateStep | server/storage.ts:45-57 | a free username gets a row with role `'user'`, not blocked, a subscription ending 30 days after the first clock reading, and the payload's fields; a taken username is rejected, no row is added or changed, and only the id sequence advances |
| Storage.SetBlockedStep | server/storage.ts:59-65 | sets only the target's `isBlocked` and returns the updated row; a missing id returns nothing and changes nothing |
| Storage.CreatePreservesWf | shared/schema.ts:8 | creating a user keeps ids consistent and usernames unique |
| Storage.SetBlockedPreservesWf | server/storage.ts:59-65 | toggling the block flag keeps the table well formed |
| Storage.RunPreservesWf | server/storage.ts:9-15 | every history of user operations keeps the table well formed, usernames unique included |
| Storage.RunChangesOnlyBlockFlag | server/storage.ts:9-15 | no history changes a stored row except its `isBlocked`; role and subscription end never move |
| Storage.DatabaseStorage.constructor | server/storage.ts:31-33 | the storage object is attached to the database as it stands: any well-formed table (ids under their own keys, usernames unique) with its id sequence, unchanged |
| Storage.DatabaseStorage.GetUser | server/storage.ts:35-38 | returns the row with that id, or nothing when there is none |
| Storage.DatabaseStorage.GetUserByUsername | server/storage.ts:40-43 | finds a row exactly when some row has that username, and returns that row |
| Storage.DatabaseStorage.CreateUser | server/storage.ts:45-57 | performs `CreateStep` in place and keeps the table well formed |
| Storage.DatabaseStorage.UpdateUserBlockStatus | server/storage.ts:59-65 | performs `SetBlockedStep` in place and keeps the table well formed |
| Storage.DatabaseStorage.GetAllUsers | server/storage.ts:67-69 | returns every row exactly once |
| Lifecycle.NewAccountWindow | server/storage.ts:45-57 | a new account passes at +29 days and at exactly +30 days, is expired 1 ms later, and is refused on admin routes |
| Lifecycle.BlockTakesEffect | server/storage.ts:59-65 | blocking a live account refuses its next request with the blocked 403; unblocking restores access |
| Lifecycle.BlockedAdminStillPasses | server/routes.ts:116-120 | the server lets an admin be blocked, and the blocked admin still passes both gates |
| Lifecycle.ExpiryIsPermanent | server/storage.ts:9-15 | once a non-admin's subscription has ended, no history of storage operations restores access |
| Lifecycle.BlockScenario | server/routes.ts:27-42 | using the storage object over any well-formed table: a user created under a free username passes at +29 days; the admin blocks it; the same request is then refused as blocked |

## Left out

- The session user of a request is taken to be the current stored row: Passport's `deserializeUser`, in server/auth.ts (not part of this model), is assumed to re-read `storage.getUser(id)` on every request. Lifecycle.BlockTakesEffect, Lifecycle.ExpiryIsPermanent and Lifecycle.BlockScenario rely on this.
- Express, Passport and the HTTP layer. The session user is the `Option<User>` input that `req.isAuthenticated()` / `req.user` stand for. `setupAuth` lives in a file that is not part of this model, so the auth routes (register, login, logout, me) are in the table but have no handlers here.
- Matching a concrete request path against a pattern is Express's routing and is not modelled. The model looks routes up by method and pattern.
- zod parsing is not modelled. A validation outcome is an input (`CreateHandlers.Validation`), and an invalid outcome always carries at least one issue, as a zod error does. `Schema.Strip` models only the fact that an object schema drops keys it does not declare.
- Drizzle and SQL are not modelled. The users table is an in-memory map. When an insert breaks the unique constraint on `username`, `db.insert(...)` throws and the `createUser` promise rejects; the model turns that exception into `None`. The `id` sequence advances even then, because a drawn sequence value is not returned.
- The medication, appointment and panic-log storage operations are out of scope. These are `getMedications`, `createMedication`, `deleteMedication`, `getAppointments`, `createAppointment`, `deleteAppointment` and `createPanicLog`. Only the row shapes and the owner assignment are modelled. As written, the delete handlers delete by id without checking the owner (server/routes.ts:71, server/routes.ts:100).
- The toggle handler (server/routes.ts:116-120) is covered only through its gate and `UpdateUserBlockStatus`. As written, it passes `req.body.isBlocked` through without parsing it. It answers with `res.json(user)` even when no row matched, so the 404 declared in the table is never sent.
- Clocks are parameters: the time `now` of a request, and the two clock readings of `createUser` (server/storage.ts:46 and :54). `setDate(getDate() + 30)` is treated as a fixed 30-day offset with no time zone or DST effect. Dates are integers, so an invalid `Date` cannot occur.
- Storage.DatabaseStorage.CreateUser: `createUser` is modelled for an input that carries exactly `username`, `password` and `fullName`. In the source, `role`, `isBlocked`, `subscriptionEndDate` and `createdAt` are set after `...insertUser` and so override it, but any other key on the runtime object (an `id`, say) would reach the insert; whether the register handler in server/auth.ts (not part of this model) parses with `insertUserSchema` is not known here.
- Storage.DatabaseStorage.constructor: the persistent `users` table that the exported `storage` (server/storage.ts:106) works on is a parameter, `db0`. The model assumes it is well formed: each row under its own id, every id below the sequence's next value, and usernames unique.
- Url.DigitsValue: the value of a digit string is exact. JavaScript's `Number` rounds values above 2^53 to the nearest double.
- Url.ToStr: a number is an integer. `String(n)` for non-integers, for `-0`, and for magnitudes of 10^21 or more (exponent notation) is not modelled.
- Url.BuildUrl: the record's entries are given in the order `Object.entries` enumerates them. JavaScript's rule that integer-like keys come first is left to whoever builds that sequence.
- Two rules enforced only in the client UI are not modelled, and are not added to the server model. The admin-row switch is disabled for admins, but the server lets an admin be blocked (see `Lifecycle.BlockedAdminStillPasses`). The "Ativa" badge tests `end > now`.
- Client pages, hooks, the Supabase login check, and server/index.ts (logging, the error handler, the port) are presentation and plumbing outside the core.
