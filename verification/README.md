# Foxvoid launcher front end: a Dafny model

This project models the state-holding core of the Foxvoid desktop launcher's TypeScript front end. The core has four parts:

- **Project registry** (`src/lib/db.ts`). A lazily loaded, process-wide database handle (`initDB`). A `projects` table with AUTOINCREMENT ids. The rule that joins a parent folder and a project name into the stored path. Insertion, newest-first listing and delete-by-id.
- **Session manager** (`src/context/AuthContext.tsx`). Two local-storage keys, `auth_token` and `auth_user` (a JSON profile). Two in-memory state fields, `token` and `userInfo`. Operations: `login`, `logout`, the `useState` initialisers, the mount effect, and `isAuthenticated = !!token`.
- **Device-login page** (`src/pages/LoginPage.tsx`). A status machine `idle -> waiting -> success | idle`. `startLogin` fires one init request. An interval callback then polls the authorization server until it answers `approved` or `expired`. This follows the OAuth 2.0 Device Authorization Grant (RFC 8628, sections 3.1 and 3.4-3.5), but uses the server's own status strings.
- **Editor preference** (`src/pages/Settings.tsx`). `initData` merges the detected editors with the saved path and picks the initial selection. `handleManualLocate` appends a manually picked executable. `handleSave` writes `default_editor_path` and `default_editor_name`.

Each part is one module: `ProjectRegistry` (project_registry.dfy), `Session` (session.dfy), `DeviceLogin` (device_login.dfy) and `EditorSettings` (editor_settings.dfy). wrappers.dfy holds `Wrappers` (`Option`) and `KeyValue`, the lookup and JavaScript truthiness shared by local storage and the settings store. Each component whose fields the source updates in place is a class:

- `ProjectDatabase`: `dbInstance` and the table.
- `AuthProvider`: local storage and the two state fields.
- `LoginPage`: the status, whether the interval is set, and the `login` calls made.
- `SettingsPage`: the editor list, the selection and the settings store.

Each class's methods are proved against pure specification functions, and the listed properties are lemmas about those functions.

Environment inputs become parameters:

- the time that passes before an INSERT (`elapsed`), which advances an abstract clock;
- the answer to the init request, and whether the browser command returned;
- each poll's outcome;
- what editor detection returned;
- what the file dialog returned.

On the following points the code does less than one might expect of such a component; the model follows the code:

- The path join only ever adds `/`, never `\`, and adds it only when the folder does not already end in `/` or `\`. It never detects separator style and never strips separators, so a folder ending in `//` keeps both (`src/lib/db.ts:42-44`).
- Token and profile are not kept in step. The initialisers read the two keys independently (`src/context/AuthContext.tsx:21-25`), so a stored token without a profile gives an authenticated session with no profile (`TokenWithoutProfile`). Only the mount effect checks that both are present (`:35-38`).
- Opening the browser is not fire-and-forget. The code awaits `invoke('start_login_flow')`, and its failure resets the status to `idle` without polling (`src/pages/LoginPage.tsx:41`, `:75-78`).
- Polling cannot be cancelled. The interval has no cleanup when the page goes away, so the model has no cancellation.
- The listing comment says "last opened", but the query sorts by `created_at`. The model sorts by creation time.

## Model

| member | source | states |
|---|---|---|
| `ProjectRegistry.FullPath` | src/lib/db.ts:42-44 | the stored path starts with the parent folder and ends with the name; the character just before the name is a separator; at most one character is added, and it is `/`, added only when the folder does not already end in `/` or `\` |
| `ProjectRegistry.NewestFirst` | src/lib/db.ts:52-55 | the listing holds every row exactly once (same multiset) and creation times never increase along it |
| `ProjectRegistry.Without` | src/lib/db.ts:59-62 | after DELETE a row is present iff it was present and has another id; ids stay strictly increasing, so the order of the remaining rows is kept |
| `ProjectRegistry.WithoutAbsentId` | src/lib/db.ts:61 | deleting an id no row carries leaves the table unchanged |
| `ProjectRegistry.WithoutSplit` | src/lib/db.ts:61 | deleting an id that only one row carries removes that row and keeps the rows before and after it, in order |
| `ProjectRegistry.WithoutPresentId` | src/lib/db.ts:61 | deleting a present id removes exactly that one row and keeps the rest in order |
| `ProjectRegistry.InsertThenDeleteRestores` | src/lib/db.ts:46-61 | inserting a row with a fresh id and then deleting that id gives back the earlier rows |
| `ProjectRegistry.ProjectDatabase.constructor` | src/lib/db.ts:12 | the first launch, over an empty database file, has no handle and an empty table with the counter at 1 |
| `ProjectRegistry.ProjectDatabase.InitDB` | src/lib/db.ts:15-33 | a second call that starts after the first has finished returns the same handle and does not run the schema step; the first call creates the handle and runs the schema step once; the rows are untouched |
| `ProjectRegistry.ProjectDatabase.AddProject` | src/lib/db.ts:36-50 | exactly one row is appended, with the joined path, `last_opened` and `created_at` set to the insertion time, and an id larger than every earlier id; earlier rows are unchanged |
| `ProjectRegistry.ProjectDatabase.GetProjects` | src/lib/db.ts:53-56 | returns every row exactly once, newest first |
| `ProjectRegistry.ProjectDatabase.DeleteProject` | src/lib/db.ts:59-62 | the table becomes the old rows without that id; the counter and the clock are unchanged |
| `ProjectRegistry.AddThenDelete` | src/lib/db.ts:46-61 | insert, then delete the new id: the table is back to what it was |
| `Session.ReadEscaped` | src/context/AuthContext.tsx:52 | reading back an escaped JSON string stops at its closing quote and gives the original text |
| `Session.ReadJsonStringCanonical` | src/context/AuthContext.tsx:24 | whatever the string reader accepts is an escaped text followed by its closing quote |
| `Session.ParseSerializedUser` | src/context/AuthContext.tsx:22-52 | `JSON.parse(JSON.stringify({username, avatar}))` gives back the same profile |
| `Session.SerializeUser` | src/context/AuthContext.tsx:52 | `JSON.stringify` of the profile: an object text starting `{"username":"` and ending `"}`; that it parses back to the same profile is `ParseSerializedUser` |
| `Session.ParseUser` | src/context/AuthContext.tsx:24 | `JSON.parse` of the stored profile: a text it accepts is exactly the serialisation of the profile it returns, so with `ParseSerializedUser` the two are inverse |
| `Session.InitialState` | src/context/AuthContext.tsx:21-25 | the two initialisers: authenticated iff the stored token is truthy, whatever the profile; a profile only when `auth_user` is truthy, and always then on well-formed storage |
| `Session.Mounted` | src/context/AuthContext.tsx:31-45 | the mount effect changes the state only when both stored token and stored profile are truthy, and then sets them from storage |
| `Session.StorageAfterLogin` | src/context/AuthContext.tsx:51-52 | after login `auth_token` is the token and `auth_user` the serialised profile; every other key keeps its value and no other key is added |
| `Session.StorageAfterLogout` | src/context/AuthContext.tsx:61-62 | both keys absent, every other key kept with its value, no key added |
| `Session.Restarted` | src/context/AuthContext.tsx:21-45 | a new process over the same storage (initialisers, then mount effect) ends in exactly the initialisers' state |
| `Session.LoginKeepsStorageWellFormed` | src/context/AuthContext.tsx:51-52 | after login, the stored profile is one the initialiser parses, and it is the logged-in profile |
| `Session.RestartAfterLogin` | src/context/AuthContext.tsx:21-57 | `login(t,u,a)`, then a restart (initialisers and mount effect) gives `token = t` and `userInfo = {u,a}`; authenticated iff `t` is not empty |
| `Session.RestartAfterLogout` | src/context/AuthContext.tsx:59-62 | `logout`, then a restart, gives no token and no profile, so not authenticated |
| `Session.TokenWithoutProfile` | src/context/AuthContext.tsx:21-25 | a stored token without a stored profile gives an authenticated session whose profile is null |
| `Session.LoginEffects` | src/context/AuthContext.tsx:47-57 | login writes both storage keys before either state update |
| `Session.LogoutEffects` | src/context/AuthContext.tsx:59-65 | logout removes both storage keys before clearing either state field |
| `Session.AuthProvider.IsAuthenticatedNow` | src/context/AuthContext.tsx:70 | authenticated iff the token is non-null and non-empty |
| `Session.AuthProvider.constructor` | src/context/AuthContext.tsx:21-25 | the first render reads `auth_token` and `auth_user` independently into `token` and `userInfo` |
| `Session.AuthProvider.OnMount` | src/context/AuthContext.tsx:31-45 | state becomes `Mounted(storage, old state)`; storage is untouched |
| `Session.AuthProvider.Login` | src/context/AuthContext.tsx:47-57 | storage holds `auth_token = t` and the serialised profile; state holds `t` and `{u,a}`; the steps are the two writes and then the two updates |
| `Session.AuthProvider.Logout` | src/context/AuthContext.tsx:59-68 | both keys are removed and other keys kept; both state fields are null; not authenticated |
| `Session.LogoutTwice` | src/context/AuthContext.tsx:59-65 | running logout twice leaves the same storage and state as running it once |
| `Session.LoginThenRestart` | src/context/AuthContext.tsx:47-57 | a new provider over the storage that login left behind comes up with the logged-in token and profile |
| `DeviceLogin.StartActions` | src/pages/LoginPage.tsx:22-80 | status `waiting` is set before the one init request; a granted init opens `verification_url` as the third action; polling starts iff the init succeeded and the browser command returned, and is then the last action; otherwise the last action sets `idle` |
| `DeviceLogin.Step` | src/pages/LoginPage.tsx:44-73 | `approved` stops polling, records one login with the response's token, username and avatar, and sets `success`; `expired` stops polling and sets `idle` with no login; any other status or a thrown poll changes nothing; with no interval set nothing changes |
| `DeviceLogin.Run` | src/pages/LoginPage.tsx:44-73 | the interval firing once per outcome, in order: nothing changes once polling is off; at most one `login` call is added and earlier ones are kept; if polling is still on at the end, nothing changed |
| `DeviceLogin.FirstTerminal` | src/pages/LoginPage.tsx:56-68 | the index of the first `approved`/`expired` outcome: no outcome before it is terminal |
| `DeviceLogin.RunDecidedByFirstTerminal` | src/pages/LoginPage.tsx:44-73 | polling from `waiting` ends in `success` with exactly that one login if the first terminal outcome is `approved`, in `idle` with no login if it is `expired`, and unchanged if there is none |
| `DeviceLogin.AtMostOneLogin` | src/pages/LoginPage.tsx:56-68 | over any sequence of outcomes `login` is called at most once, earlier calls are kept, and a call happens iff an `approved` arrives before any `expired` |
| `DeviceLogin.LoginPage.constructor` | src/pages/LoginPage.tsx:8 | the page starts `idle`, with no interval and no login call |
| `DeviceLogin.LoginPage.StartLogin` | src/pages/LoginPage.tsx:22-80 | called from `idle` only; returns the ordered actions; ends `waiting` with polling on for the device code, or `idle` without polling |
| `DeviceLogin.LoginPage.Tick` | src/pages/LoginPage.tsx:44-73 | the page state steps by `Step`; an approval calls the session manager's `login` with the response's fields: its state, its storage (`auth_token`, `auth_user`) and its effect trace are exactly what `login` leaves; otherwise the session manager is untouched |
| `DeviceLogin.LoginPage.Poll` | src/pages/LoginPage.tsx:44-73 | after a sequence of ticks the page state is `Run` of the outcomes, and after a login the session's state, its storage (`auth_token`, `auth_user` written over the storage before polling) and its effect trace are those of `login` with the last login's credentials; with no login the session manager is untouched |
| `EditorSettings.FindIndex` | src/pages/Settings.tsx:81 | `find` stops at the first entry with the path; no earlier entry has it; it reaches the end iff no entry has it (`some` is false) |
| `EditorSettings.NameFor` | src/pages/Settings.tsx:81 | the saved name is never empty; it is the name of the first entry with that path, or "Custom Editor" when no entry has the path or that first entry's name is empty |
| `EditorSettings.LastSegment` | src/pages/Settings.tsx:64 | the last segment is a suffix of the path with no `/` or `\`, preceded by a separator unless it is the whole path |
| `EditorSettings.FileName` | src/pages/Settings.tsx:64 | the name of a located file is its non-empty last segment, or "Custom Editor" when the path is empty or ends with a separator |
| `EditorSettings.Initialised` | src/pages/Settings.tsx:23-50 | the view `initData` leaves is coherent; a failed detection leaves the first-render state; otherwise the detected list is kept as a prefix with at most one entry after it |
| `EditorSettings.InitialisedSelection` | src/pages/Settings.tsx:30-43 | a saved path becomes the selection; with none, the first detected path, or `""` when nothing was detected; a non-empty selection is the path of a listed entry |
| `EditorSettings.InitialisedEditors` | src/pages/Settings.tsx:37-41 | an unknown saved path adds one `custom` entry after the detected list, named by the saved name or "Custom Editor"; otherwise the list is the detected list |
| `EditorSettings.Located` | src/pages/Settings.tsx:64-69 | after a manual locate the picked path is selected and listed; exactly one entry is appended after the old list: the picked path, named by `FileName`, with slug `custom-manual` |
| `EditorSettings.LocatedCoherent` | src/pages/Settings.tsx:64-69 | the located entry is appended after the existing ones and becomes the selection, which stays coherent; its display name is `FileName(path)` when the path was new, and otherwise the earlier entry for that path still names it |
| `EditorSettings.Saved` | src/pages/Settings.tsx:76-82 | with no selection nothing is written; otherwise `default_editor_path` is the selection and `default_editor_name` is the first matching entry's name or "Custom Editor"; other keys are unchanged |
| `EditorSettings.SaveThenReinit` | src/pages/Settings.tsx:30-82 | save, then re-open the page with the same detected list: the same path is selected and shown under the same name |
| `EditorSettings.SettingsPage.constructor` | src/pages/Settings.tsx:14-21 | the mounted page's list and selection are what `initData` computes from the detection result and the store |
| `EditorSettings.SettingsPage.InitData` | src/pages/Settings.tsx:23-50 | run from the first-render state, it leaves the view `Initialised(detected, store)`, which is coherent |
| `EditorSettings.SettingsPage.Choose` | src/pages/Settings.tsx:140 | clicking a radio button selects that entry's path |
| `EditorSettings.SettingsPage.ManualLocate` | src/pages/Settings.tsx:53-74 | a picked non-empty path appends its entry and becomes the selection; a cancelled dialog changes nothing |
| `EditorSettings.SettingsPage.HandleSave` | src/pages/Settings.tsx:76-90 | the store becomes `Saved(old store, view)`; the list and the selection are unchanged |

## Left out

- I/O failures are not modelled: `Database.load` or an SQL statement throwing, `localStorage` throwing, and `saveSetting` throwing (the "Error saving settings" alert). All store operations succeed.
- `initDB` on a failed CREATE TABLE is left out. There, `dbInstance` stays set, so a later call would skip the schema step. This follows from leaving out I/O failures.
- The real SQLite engine is replaced by an in-memory row sequence. CURRENT_TIMESTAMP is an abstract clock that never goes backwards. The AUTOINCREMENT counter is a plain `nextId` that starts at 1. The model starts from an empty database file.
- `ProjectRegistry.NewestFirst` returns one of the orders `ORDER BY created_at DESC` allows: later insertions come first among equal timestamps. The engine's own order among ties is unspecified.
- `getSetting` and `saveSetting` are imported by `src/pages/Settings.tsx` but are not defined in `src/lib/db.ts`; their implementation is not part of this model. The settings store is an abstract `map<string, string>`: a save is a map update, and a missing key reads as absent.
- `Session.ParseUser` accepts only the text `JSON.stringify` writes for a `{username, avatar}` object. The JSON model escapes only `"` and `\`; the escaping of control characters is not modelled. A stored profile that is any other JSON, or is not JSON at all (the source's `JSON.parse` would then return another object or throw), is excluded by the `AuthProvider` constructor's precondition.
- React's asynchronous state updates and re-renders are modelled as immediate assignments.
- The `useAuth` context guard is left out. So are all navigation and redirects: `navigate('/login')` in the mount effect and in `logout`, and the 1.5 s redirect after login.
- Timers and concurrency are left out: the 2 s interval cadence, overlapping in-flight polls, and the 2 s "Saved!" reset. Polls are a sequential list of ticks.
- `ProjectRegistry.ProjectDatabase.InitDB` is modelled for calls that do not overlap. `initDB` sets its handle only after `Database.load` resolves, so a second call that starts before the first load has finished loads again and runs `CREATE TABLE IF NOT EXISTS` again. The model's singleton property (one handle, one schema run) holds only for calls that do not overlap.
- `alert` calls and console logging are left out. The `loading` and `saved` flags of the settings page only drive rendering and are left out too.
- The network, JSON decoding of server answers, the browser opener, editor detection and the file dialog are left out. Each is replaced by an input value.
- A poll response missing its `token`, `username` or `avatar_url` field (JavaScript `undefined`) is not modelled. Every response carries three strings.
- `src-tauri/src/main.rs` (folder creation, `git clone`, opening URLs) is not part of this model.
- The pages' markup is not part of this model, apart from two points: the `idle`-only login button (a precondition of `StartLogin`) and the radio buttons (`Choose`).
