# Competition portal: users, access gating and client-side anti-cheat rules

This project models the logic core of a small competition-portal web app and
proves properties about it. The core has three parts:

- **The server's user store and its HTTP handlers.** `MemStorage` is an
  in-memory `Map` from user id to user. It iterates in insertion order and is
  seeded with one admin. The handlers for login, logout, `/api/me`, the
  admin user endpoints and change-password are chains of guards (401, 403,
  400) in front of a store call. They work over the store and one client's
  session cell, the session's `userId`.
- **The shared schema.** This is the user record and the insert validator:
  username at least 3 characters, password at least 6.
- **Client-side rules.**
  - The proctoring hook decides which browser events append a violation and
    which have their default action prevented.
  - The anti-cheat hook has a blocked-shortcut predicate and decides what it
    reports.
  - The admin page has a password gate and a protector switch. The switch is
    saved as a string in `localStorage`, and the proctoring hook reads it
    from there.
  - The submission dialog has a validation chain, a completion step and a
    reset.
  - The Round 1 page has a 30-minute countdown shown as `MM:SS`.

Modules, one per source file: `Schema` (shared/schema.ts), `Storage`
(server/storage.ts), `Routes` (server/routes.ts), `Proctoring`
(client/src/hooks/use-proctoring.ts), `AntiCheat`
(client/src/hooks/use-anti-cheat.ts), `AdminPage` (client/src/pages/Admin.tsx),
`SubmissionModal` (client/src/components/SubmissionModal.tsx) and `Round1`
(client/src/pages/Round1.tsx). Two more modules support them: `LocalStorage`
models the browser's string store, and `Wrappers` holds Option and Result.

How the source's forms map to Dafny:

- **The store is a class.** `MemStorage` has a `users` map plus an `order`
  sequence that records the `Map`'s insertion order. Its methods mutate these
  fields in place.
- **The routes are a class too.** `App` holds the store and the session cell.
  Each handler is a method that returns a `Response(status, body)`.
- **Client state lives in small classes.** Each page or hook whose state the
  source updates is a class: `Proctor`, `Page`, `Modal`, `Countdown`.
- **Pure decisions are functions.** This covers the validators, the
  shortcut predicate, the event reactions, `formatTime` and the tick
  updater. Their properties are proved as lemmas.

Notes on how the model reads the code:

- The table declares `round1Access`..`round3Access` as booleans defaulting to
  `false`. The store writes and reads status strings, `"active"` and
  `"locked"`. The model follows the store.
- The table declares `username` unique. The in-memory store does not enforce
  this, and the model does the same: a later user with a taken name is stored,
  and is not found by name while the earlier user with that name is stored
  (`Storage.FirstNamedKeepsEarlier`).
- The change-password handler calls `storage.updatePassword`, which the
  store does not define. Past its three guards the handler can only throw, so
  the model answers 500 and stores nothing.

## Model

| member | source | states |
|---|---|---|
| `Schema.FieldIssue` | shared/schema.ts:20-21 | a required string field raises no issue iff it is present and at least the minimum length |
| `Schema.ParseInsertUser` | shared/schema.ts:17-22 | the body is accepted iff username has >= 3 and password >= 6 characters; an accepted insert copies every field and has no id; a rejection lists one or two issues, naming "too short" for exactly the fields that are present but short |
| `Storage.SeedAdmin` | server/storage.ts:22-33 | the seeded user is named "admin", has role "admin" and "active" access to all three rounds |
| `Storage.NewUser` | server/storage.ts:47-57 | the created record keeps username, password, team fields and any supplied role/access; role defaults to "participant", team fields to null, each round access to "locked" |
| `Storage.WithAccess` | server/storage.ts:65 | the record's access for the given round becomes the status; the other two rounds and every other field are unchanged |
| `Storage.Values` | server/storage.ts:70-72 | the listing has one entry per key, in key order, each the stored user for that key |
| `Storage.ValuesSnoc` | server/storage.ts:58 | setting a key the map does not hold appends its user to the end of the iteration order, after every existing user |
| `Storage.FirstNamed` | server/storage.ts:40-44 | the index found holds a user with that name and no earlier user has it; `|us|` means no user has it |
| `Storage.FirstNamedKeepsEarlier` | server/storage.ts:40-60 | appending a user never changes which user a name lookup finds when the name was already present (no uniqueness check) |
| `Storage.Without` | server/storage.ts:74-76 | the remaining keys are exactly the old ones minus the id; distinct keys stay distinct; removing an absent id changes nothing |
| `Storage.WithoutIdempotent` | server/storage.ts:74-76 | deleting the same id twice leaves the same key order as deleting it once |
| `Storage.WithoutSplits` | server/storage.ts:74-76 | deleting a present key drops exactly its position and keeps every other key in order |
| `Storage.MemStorage.constructor` | server/storage.ts:19-34 | a new store holds exactly one user, the seeded admin, under the given id |
| `Storage.MemStorage.GetUser` | server/storage.ts:36-38 | a lookup finds a user iff the id is stored, and the user found carries that id |
| `Storage.MemStorage.ListUsers` | server/storage.ts:70-72 | all stored users, one per key, in insertion order |
| `Storage.MemStorage.GetUserByUsername` | server/storage.ts:40-44 | the user found has that name, is stored under its id, and no user earlier in insertion order has that name; none is found iff no stored user has that name |
| `Storage.MemStorage.CreateUser` | server/storage.ts:46-60 | the user built with the defaults is stored under an id not used before, appended to the listing, and returned as stored |
| `Storage.MemStorage.UpdateUserAccess` | server/storage.ts:62-68 | a missing id fails with "User not found" and changes nothing; otherwise only that user's access for that round changes, and every listing position is kept |
| `Storage.MemStorage.DeleteUser` | server/storage.ts:74-76 | the id is gone afterwards; an absent id changes nothing; a present id loses only its position in the listing |
| `Routes.ParseRound` | server/routes.ts:70-71 | the body's round names Round1..Round3 exactly for the strings "round1".."round3" |
| `Routes.App.IsAdminSession` | server/routes.ts:52-53 | the session is admin iff its user id is stored with role "admin"; a missing session is never admin |
| `Routes.App.FindLoginUser` | server/routes.ts:27-28 | an absent username finds nobody; a present one finds what the store's name lookup finds |
| `Routes.App.Login` | server/routes.ts:26-34 | 401 "Invalid credentials" with the session untouched unless the name is found and the password equals the stored one; on success the session holds that user's id and the stored user is returned |
| `Routes.App.Logout` | server/routes.ts:36-40 | the session user id is cleared and the answer is 200 |
| `Routes.NoSessionUser` | server/routes.ts:43 | `!req.session.userId` holds for a missing id and for the empty string, and fails for every non-empty id |
| `Routes.App.Me` | server/routes.ts:42-48 | 401 without a session user id; otherwise 200 with the stored user for that id, which is absent iff the user has been deleted |
| `Routes.LogoutThenMe` | server/routes.ts:36-47 | after logout, /api/me answers 401 |
| `Routes.App.AdminListUsers` | server/routes.ts:51-56 | 403 unless the session user is an admin, so a missing session gets 403 and not 401; otherwise every user in insertion order |
| `Routes.App.AdminCreateUser` | server/routes.ts:58-65 | 403 for a non-admin and 400 with the validation issues for a bad body, both leaving the store unchanged; otherwise the store gains exactly the created user |
| `Routes.App.AdminPatchAccess` | server/routes.ts:67-73 | 403 for a non-admin; a missing target throws "User not found" and changes nothing; otherwise 200 with the target whose access for that round is now the status, with the listing order kept |
| `Routes.App.ChangePassword` | server/routes.ts:75-87 | guards in order: 401 without a session user id, 403 for a non-admin, 400 iff the new password is missing or shorter than 6; an admin with a password of at least 6 characters always gets the 500 of the failing storage call |
| `Routes.App.AdminDeleteUser` | server/routes.ts:89-94 | 403 for a non-admin with the store unchanged; otherwise 200 whether or not the target existed, and the target is removed |
| `LocalStorage.ReadsTrue` | client/src/pages/Admin.tsx:18 | the `=== "true"` test: a missing item reads as false, and only the exact string "true" reads as true (also the hook's test at client/src/hooks/use-proctoring.ts:14) |
| `LocalStorage.BoolString` | client/src/pages/Admin.tsx:24 | `String(b)` reads back as `b` under the `=== "true"` test |
| `LocalStorage.Store.GetItem` | client/src/pages/Admin.tsx:17 | an item is found iff it was set, with the value last set |
| `LocalStorage.Store.SetItem` | client/src/pages/Admin.tsx:24 | the key now holds the value and the other keys are unchanged |
| `Proctoring.React` | client/src/hooks/use-proctoring.ts:16-82 | with the flag off nothing happens; otherwise hidden-page visibility change and blur append a violation iff tab detection is on, key-up appends one iff screenshot detection is on and the key is exactly "PrintScreen", clipboard events and context menus never append and are prevented iff their option is on; visibility changes, blurs and key-ups are never prevented |
| `Proctoring.Recorded` | client/src/hooks/use-proctoring.ts:20-82 | every violation in the list after a run is backed by its event and option: a tab switch by a hidden-page event with tab detection on, a focus loss by a blur with tab detection on, a screenshot attempt by a "PrintScreen" key-up with screenshot detection on |
| `Proctoring.RecordedBounded` | client/src/hooks/use-proctoring.ts:23-69 | a run of events appends at most one violation per event |
| `Proctoring.DisabledRecordsNothing` | client/src/hooks/use-proctoring.ts:14-17 | with the protector flag off, the violation list stays empty whatever happens |
| `Proctoring.RecordedOnlyAppends` | client/src/hooks/use-proctoring.ts:23-69 | the list only grows at its end: what was recorded is a prefix of what is recorded after more events |
| `Proctoring.ClipboardAndMenuRecordNothing` | client/src/hooks/use-proctoring.ts:42-62 | copy, cut, paste and context-menu events never add a violation |
| `Proctoring.Proctor.constructor` | client/src/hooks/use-proctoring.ts:11-14 | the first render: the hook takes the caller's options, is enabled iff the stored "protector_mode" item is exactly "true", and starts with no violations |
| `Proctoring.Proctor.Render` | client/src/hooks/use-proctoring.ts:11-17 | a later render takes the caller's new options and re-reads the stored flag, and the violations recorded so far are kept |
| `Proctoring.Proctor.Handle` | client/src/hooks/use-proctoring.ts:20-82 | one event appends exactly what `React` says at the end of the list and prevents the default action exactly when `React` says so; the options and the flag are unchanged |
| `AntiCheat.ReportType` | client/src/hooks/use-anti-cheat.ts:8-24 | the reports post the types "tab_switch" and "shortcut_attempt" |
| `AntiCheat.IsBlockedShortcut` | client/src/hooks/use-anti-cheat.ts:18-22 | "PrintScreen" by name or key code 44 is blocked whatever the modifiers; Ctrl with lower-case c, v, i or j is blocked; any other key with another key code passes, with or without Ctrl |
| `AntiCheat.OnKeyDown` | client/src/hooks/use-anti-cheat.ts:16-26 | a key is prevented iff it is a blocked shortcut, and a blocked shortcut is reported exactly once, as a shortcut attempt |
| `AntiCheat.OnVisibilityChange` | client/src/hooks/use-anti-cheat.ts:6-10 | a tab switch is reported iff the page is hidden; nothing is prevented |
| `AntiCheat.OnContextMenu` | client/src/hooks/use-anti-cheat.ts:12-14 | the context menu is always prevented and never reported |
| `AntiCheat.UpperCaseCtrlPasses` | client/src/hooks/use-anti-cheat.ts:18-22 | the letter test is case-sensitive: Ctrl with "C", "V", "I" or "J" is not blocked unless the key code is 44 |
| `AntiCheat.WithoutCtrlOnlyPrintScreen` | client/src/hooks/use-anti-cheat.ts:18-22 | without Ctrl a key is blocked iff it is "PrintScreen" by name or by key code 44 |
| `AdminPage.Authenticates` | client/src/pages/Admin.tsx:37 | the page accepts exactly the hard-coded password "Preetesh@15" (a client-side constant) |
| `AdminPage.Page.constructor` | client/src/pages/Admin.tsx:10-13 | the page starts loading, unauthenticated, with the switch off and an empty password |
| `AdminPage.Page.SetPassword` | client/src/pages/Admin.tsx:70 | typing sets the password field to the typed text and leaves the switch, loading and login state as they were |
| `AdminPage.Page.Load` | client/src/pages/Admin.tsx:16-20 | after loading, the switch is on iff the saved flag is exactly "true" |
| `AdminPage.Page.Toggle` | client/src/pages/Admin.tsx:22-33 | the switch shows the new value, and the saved flag is its string and reads back as it |
| `AdminPage.Page.Login` | client/src/pages/Admin.tsx:35-50 | the fixed password authenticates; a wrong password leaves the page's state as it was |
| `AdminPage.TypeThenLogin` | client/src/pages/Admin.tsx:35-70 | typing a password into a fresh page and submitting opens the dashboard iff the typed text is the admin password |
| `AdminPage.ToggleThenReload` | client/src/pages/Admin.tsx:16-24 | a page loaded after a toggle shows the toggled value |
| `AdminPage.ToggleThenProctor` | client/src/pages/Admin.tsx:22-24 | a proctoring hook mounted after a toggle is enabled iff the switch was turned on |
| `AdminPage.ToggleThenRender` | client/src/pages/Admin.tsx:22-24 | a hook that is already mounted is enabled iff the switch was turned on after its next render, takes that render's options, and keeps its violations |
| `SubmissionModal.Validate` | client/src/components/SubmissionModal.tsx:31-47 | an empty participant id fails first with "Participant ID is required"; a PDF submission then fails iff no file is chosen, a repository submission iff the link does not start with "http" |
| `SubmissionModal.IrrelevantFieldsIgnored` | client/src/components/SubmissionModal.tsx:37-47 | a PDF submission does not look at the link, a repository submission does not look at the file |
| `SubmissionModal.Modal.constructor` | client/src/components/SubmissionModal.tsx:17-24 | the dialog starts idle, not successful, with empty fields |
| `SubmissionModal.Modal.Submit` | client/src/components/SubmissionModal.tsx:26-47 | the error is the first failing check; `isSubmitting` ends true iff every check passed; `isSuccess` and the fields are unchanged |
| `SubmissionModal.Modal.Complete` | client/src/components/SubmissionModal.tsx:50-57 | completion ends submitting and marks success |
| `SubmissionModal.Modal.Reset` | client/src/components/SubmissionModal.tsx:60-66 | clears success, participant id, file and link; `isSubmitting` is left as it was |
| `Round1.FormatTime` | client/src/pages/Round1.tsx:47-51 | the display is at least five characters with the colon third from the end; `Round1.FormatTimeRoundTrip`, `FormatTimeWidth`, `FormatTimeStart` and `FormatTimeZero` state the rest |
| `Round1.Clock` | client/src/pages/Round1.tsx:50 | two padded fields joined by ':' are at least five characters, and the colon is third from the end whenever the seconds are below 100 |
| `Round1.Decimal` | client/src/pages/Round1.tsx:50 | `toString()` of a whole number is a non-empty digit string, one digit below 10, two below 100, with no leading zero |
| `Round1.PadStart2` | client/src/pages/Round1.tsx:50 | `padStart(2, '0')` keeps the string as a suffix, is at least 2 long, and adds only zeros |
| `Round1.DecimalValue` | client/src/pages/Round1.tsx:50 | the digits of a whole number read back as that number |
| `Round1.PaddedValue` | client/src/pages/Round1.tsx:50 | padding with zeros does not change the value a field reads back as |
| `Round1.ClockRoundTrip` | client/src/pages/Round1.tsx:47-51 | two padded fields joined by ':' read back as minutes * 60 + seconds |
| `Round1.FormatTimeRoundTrip` | client/src/pages/Round1.tsx:47-51 | reading the `MM:SS` display back gives the seconds it was made from, for every whole number of seconds |
| `Round1.FormatTimeWidth` | client/src/pages/Round1.tsx:47-51 | below 6000 seconds the display is exactly 5 characters |
| `Round1.FormatTimeStart` | client/src/pages/Round1.tsx:5-51 | the starting 1800 seconds show as "30:00" |
| `Round1.FormatAsClock` | client/src/pages/Round1.tsx:47-50 | a time of `mins * 60 + secs` seconds, with `secs` below 60, is displayed from exactly those minutes and seconds |
| `Round1.FormatTimeZero` | client/src/pages/Round1.tsx:47-51 | zero shows as "00:00" |
| `Round1.NextTime` | client/src/pages/Round1.tsx:9 | one tick never goes below zero, never increases a non-negative time, and strictly decreases a positive one |
| `Round1.AfterTicksClosedForm` | client/src/pages/Round1.tsx:8-10 | n ticks from t leave t - n seconds, or 0 once n reaches t |
| `Round1.Countdown.constructor` | client/src/pages/Round1.tsx:5 | the countdown starts at 1800 seconds |
| `Round1.Countdown.Tick` | client/src/pages/Round1.tsx:8-10 | one interval tick applies the updater and keeps the time within 0..1800 |
| `Round1.Countdown.Display` | client/src/pages/Round1.tsx:47-51 | every reachable time shows as 5 characters that read back as that time |

## Left out

- Sessions: the cookie, the session middleware and its store are not modelled. One client's session is a single optional `userId` cell. Session expiry is not modelled.
- Async behaviour: the store's promises are modelled as synchronous calls.
- Ids: `randomUUID` is a parameter of the constructor and of `CreateUser`. The model requires that id to be unused, which is what UUIDs are relied on for.
- Thrown errors: `updateUserAccess` throws on a missing id, and the change-password handler throws when it reaches `storage.updatePassword`. The model answers both with a 500 carrying the message and changes nothing. What the client actually receives depends on how the framework treats a rejected async handler.
- Password updates: `storage.updatePassword` does not exist in the store, so no password update is modelled.
- Routes.App.AdminPatchAccess: a `round` outside round1..round3 makes the source write an extra `<round>Access` key onto the user. That key is not part of the modelled record, so the model keeps the user's modelled fields unchanged.
- Routes.App.ChangePassword: the 400 guard counts characters, where `newPassword.length` counts UTF-16 code units. A password of fewer than 6 characters that is at least 6 UTF-16 units long, such as four letters and one emoji, gets 400 in the model but passes the guard in the source and reaches the 500.
- Schema.ParseInsertUser: only presence and length of username and password are checked. The validator's type checks on the other fields are not modelled, among them the boolean type that the schema gives the access columns and that the store does not use. Lengths count characters, where the validator counts UTF-16 code units.
- Non-string request values (numbers, objects, a missing PATCH `status`) are not modelled. Body strings are either present or absent.
- The `violations` table in shared/schema.ts is declared but never written by the server, so it has no model. No server route accepts the anti-cheat hook's POSTs either. The hook's reports are modelled as the `type` they would post.
- UI effects are not modelled: toasts, `alert`, the 3-second blur filter, page reload, rendering, listener registration and cleanup, and `setTimeout`/`setInterval` timing. The interval becomes `Countdown.Tick` and the delayed upload becomes `Modal.Complete`.
- Violation messages: each message embeds `toLocaleTimeString()`, so a violation is modelled by its kind.
- Proctoring.Proctor.Render: a render and the re-installed handlers it leads to are one step. The gap before the effect re-runs, in which the old handlers still see the old options, is not modelled.
- Round 1's own listeners (right-click and clipboard blocking with an alert, reload on a hidden tab) keep no state and are not modelled.
- `formatTime` on negative input is not modelled, because the countdown never goes below zero (`Round1.NextTime`).
- The key-down handler's comment in client/src/hooks/use-anti-cheat.ts:17 names F12, but its condition never tests F12. The model follows the condition, so F12 is not blocked (`AntiCheat.IsBlockedShortcut`).
- The Round 2 access gate (client/src/pages/Round2.tsx:22) is not modelled. The dashboard, the background animation and the other pages are rendering only.
