# Portfolio site: record stores, admin session and project-list logic in Dafny

This project models the behaviour of a personal portfolio site's back ends and admin front ends, and proves properties of that model. Every handler is a pure function. It takes the request and the current store and returns the HTTP reply together with the store it leaves behind.

- **Project and message stores.** Several server variants are covered:
  - The document-database Express server (`BackendServer`, `ExpressAdmin`, `ProjectSchema`).
  - The flat-file Express servers (`MessageFile`, `FlatFileServer`, `TokenServer`).
  - The serverless handlers (`ServerlessProjects`, `ServerlessMessages`, `ServerlessLogin`, `ServerlessChangePassword`).

  Collections are sequences in insertion order with unique ids. The flat JSON file is a `DataFile` that can be missing, unreadable, blank, unparsable, or hold a list.
- **Admin credentials.**
  - Login checks the credential pair.
  - The token guard either checks only that a token is present or (in `TokenServer`) requires an exact match.
  - Change-password runs its checks in source order. In the Express servers it writes only the environment variable, which login never reads again. In the serverless variant it writes a module variable that only later change-password calls see.
- **Client project logic** (`ProjectsManager`, `ProjectsView`).
  - Display order: featured projects first, then newest first.
  - The comma-separated tag text and its round trip through the edit form.
  - The edit-or-create routing of a save.
  - The image upload guards.
  - The migration of a browser-cached project list, as a loop with invariants.
- **Admin forms and sessions** (`PasswordForm`, `HiringSearch`, `AdminSession`).
  - The password form's checks, and how its body meets each server.
  - The hiring search filter.
  - The two admin front ends' stored sessions.

The following become explicit inputs rather than effects: clocks, fresh database ids, issued tokens, environment variables, browser storage entries, fetch outcomes, file-system success and email delivery.

Three behaviours of the code shape the model:
- **Migration.** A request that resolves, even with an error status, counts as sent. The browser cache is removed once every request has resolved. A request that throws stops the loop and leaves the whole cache in place.
- **Serverless login.** The handler reads `ADMIN_PASSWORD` from the environment on every request, so a password set by serverless change-password never reaches it.
- **Fallback passwords.** They differ between variants:
  - `Shiva@2416` for the database server;
  - `admin123` for the flat-file server and serverless login;
  - `shiva@2416` for serverless change-password.

## Model

| member | source | states |
|---|---|---|
| Text.EnvOr | backend/server/index.cjs:19-20 | `VAR \|\| default`: an unset or empty variable gives the default, any other value is used as is |
| Text.FirstTruthy | backend/server/index.cjs:57 | `a \|\| b` on optional strings: truthy exactly when one of them is; the first when it is truthy, else exactly the second |
| Text.Trim | backend/server/models/Project.js:8 | the result has no JavaScript white space at either end and is no longer than the input |
| Text.TrimIsSlice | backend/server/models/Project.js:8 | the trimmed text is the contiguous slice of the input that follows its leading white space |
| Text.TrimCutsOnlySpace | backend/server/models/Project.js:8 | every character before the kept slice and every character after it is white space, so trimming removes nothing else |
| Text.TrimEmptyIffAllSpace | backend/server/models/Project.js:8 | trimming leaves nothing exactly when the input is all white space, which is when the schema's `required` rejects a title |
| Text.TrimKeepsOut | frontend/src/components/admin/ProjectsManager.jsx:176 | trimming never introduces a character, so a trimmed piece of a comma split holds no comma |
| Text.TrimIdempotent | backend/server/models/Project.js:8 | trimming twice is trimming once |
| Text.Lower | api/messages.js:7 | same length, each character lower-cased position by position, no upper-case ASCII letter left |
| Text.ContainsIffOccurs | frontend/src/components/admin/HiringManager.jsx:19 | `includes` holds exactly when the needle occurs as a contiguous slice at some offset |
| Text.Split | frontend/src/components/admin/ProjectsManager.jsx:176 | `split(',')` yields at least one piece and no piece contains the separator |
| Text.JoinSplit | frontend/src/components/admin/ProjectsManager.jsx:176 | joining the pieces of a split with the separator gives the text back |
| Text.SplitJoin | frontend/src/components/admin/ProjectsManager.jsx:176 | splitting the join of separator-free pieces gives the pieces back |
| Sorting.SortBy | frontend/src/components/Projects.jsx:40 | the comparator sort returns a permutation of its input |
| Sorting.SortBySorted | frontend/src/components/Projects.jsx:40-44 | under a consistent comparator, no element of the sorted output is preceded by one that should come after it |
| Sorting.SortBySortedIsIdentity | frontend/src/components/Projects.jsx:40-44 | sorting a list already in comparator order leaves it unchanged |
| Sorting.SortNewestFirst | backend/server/index.cjs:92 | `sort({ createdAt: -1 })`: a permutation whose keys never increase |
| ExpressAdmin.Start | backend/server/index.cjs:19-20 | the admin email and password are fixed at start-up: the environment variable when non-empty, else the shared email and the server's own fallback password; the live variable is kept apart |
| ExpressAdmin.Login | backend/server/index.cjs:38-53 | success exactly when both email and password equal the captured pair, answering the fresh token and the email; otherwise 401 "Invalid credentials" |
| ExpressAdmin.Authorized | backend/server/index.cjs:56-64 | the guard passes exactly when the header or the `token` query parameter is non-empty; the value itself is never checked |
| ExpressAdmin.ChangePassword | backend/server/index.cjs:193-223 | no token gives 401; a missing field gives 400; an email or current-password mismatch gives 401; a new password under 6 characters gives 400. Otherwise only the environment variable changes and the captured pair stays the same |
| ExpressAdmin.ChangePasswordCheckOrder | backend/server/index.cjs:196-208 | a missing field is reported before a mismatch; a wrong email and a wrong current password each give 401 "Current password is incorrect"; the short-password 400 comes only after both were quoted correctly |
| ExpressAdmin.ChangeNeverReachesLogin | backend/server/index.cjs:201-216 | after a successful change the start-up password still logs in and the new one does not |
| ExpressAdmin.SecondChangeStillNeedsOriginal | backend/server/index.cjs:201-216 | a second change quoting the first change's new password is refused with 401 |
| BackendServer.FallbackLogin | backend/server/index.cjs:19-48 | with no overrides, login succeeds exactly for the shared email with "Shiva@2416" |
| BackendServer.PostMessage | backend/server/index.cjs:67-87 | an incomplete body gives 400 with nothing stored; a complete one is appended with a fresh id and time and gives 201 |
| BackendServer.ListMessages | backend/server/index.cjs:90-98 | 401 exactly when the guard fails; otherwise every message, newest first |
| BackendServer.PostThenList | backend/server/index.cjs:67-98 | a posted message is in the next authorised listing with every earlier one, and heads it when the clock has passed every earlier message |
| BackendServer.CreateProject | backend/server/index.cjs:112-137 | guard 401, then 400 for a falsy title or description, then 500 when the schema rejects (blank trimmed title); on 201 the document is appended with defaults and a trimmed title, and the store stays valid |
| BackendServer.UpdateProject | backend/server/index.cjs:140-172 | the 400 check comes before the lookup; an unknown id gives 404 with the store unchanged; on success the target's fields are all replaced (absent optionals reset), its id and creation time are kept, and every other document is untouched |
| BackendServer.DeleteProject | backend/server/index.cjs:175-190 | an unknown id gives 404 with nothing changed; otherwise exactly the documents with that id are removed and one fewer remains |
| BackendServer.RemoveExactlyTarget | backend/server/index.cjs:179-185 | in a store with unique ids, removal drops exactly the document with the targeted id |
| BackendServer.CreateThenDeleteRestores | backend/server/index.cjs:130-185 | deleting a project just created restores the collection |
| BackendServer.DeleteTwiceNotFound | backend/server/index.cjs:179-183 | a second delete of the same id answers 404 |
| ProjectSchema.WithDefaults | backend/server/index.cjs:120-128 | the title and description are kept as given; an absent image, live link or repository link becomes "", absent tags become [], and `featured` is true only when given as true |
| ProjectSchema.Validate | backend/server/models/Project.js:5-13 | accepted exactly when the trimmed title and the description are non-empty; the stored title is the trimmed one and nothing else changes |
| ProjectSchema.ValidateIdempotent | backend/server/models/Project.js:5-9 | validated fields validate again unchanged |
| ProjectSchema.Stored | backend/server/index.cjs:120-128 | for an accepted body, the fields stored are exactly what the schema's validation returns for the defaulted body |
| ProjectSchema.NewDocument | backend/server/models/Project.js:14-37 | a new document carries exactly the validated fields, its database id and its creation time |
| ProjectSchema.ByNewest | api/projects.js:14 | every project, as a permutation with non-increasing creation times |
| ProjectSchema.IndexOf | backend/server/index.cjs:149 | finds the first document with the id; none exactly when the id is not in the store |
| ProjectSchema.ReplaceAt | backend/server/index.cjs:149-161 | with `new: true`: same length, the target keeps its id and creation time and takes the new fields, all other positions are unchanged |
| ProjectSchema.RemoveAt | backend/server/index.cjs:179 | the document at the position is gone and the others keep their order |
| ProjectSchema.ReplaceTarget | backend/server/index.cjs:149-161 | replacing the matched document leaves every document with another id untouched |
| ProjectSchema.ReplaceKeepsValid | backend/server/index.cjs:160 | with the validators run, a replace keeps ids unique and documents well formed |
| ProjectSchema.RemoveKeepsValid | backend/server/index.cjs:179-185 | removal keeps the store valid and removes exactly that id from the id set |
| ProjectSchema.AppendKeepsValid | backend/server/index.cjs:120-132 | appending a fresh, well-formed document keeps the store valid and adds exactly its id |
| MessageFile.Startup | server/index.cjs:19-22 | a missing file is created holding the empty list; any other file is left alone |
| MessageFile.ReadMessages | server/index.cjs:24-32 | the stored list; a valid non-list JSON value as it is; [] for an unreadable, blank or unparsable file |
| MessageFile.WriteMessages | server/index.cjs:34-40 | a successful write makes the next read return exactly the list written; a failed one leaves the file as it was |
| MessageFile.NewMessage | server/index.cjs:78-84 | the record has exactly id (the clock's milliseconds), name, email, message and the ISO creation time |
| MessageFile.PostMessage | server/index.cjs:71-89 | an incomplete body gives 400 and writes nothing; over a non-list value `unshift` throws, so Express answers 500 and nothing is written; otherwise 201 even when the write fails, and after a good write the list is the new message followed by the old list |
| MessageFile.PostKeepsNewestFirst | server/index.cjs:77-86 | with a clock that never runs backwards, posting keeps the file newest first |
| MessageFile.PostOverUnreadableKeepsOnlyNew | server/index.cjs:77-86 | posting over an unreadable or corrupt file leaves only the new message |
| FlatFileServer.ListMessages | server/index.cjs:92-95 | 401 exactly when the guard fails; otherwise what the file holds, unchanged: the list in stored order, or a non-list value as it is |
| FlatFileServer.PostThenList | server/index.cjs:77-95 | a posted message heads the next listing, followed by everything listed before; over a non-list value the post fails and that value is still listed |
| FlatFileServer.FallbackPasswordSurvivesChange | server/index.cjs:101-121 | with no overrides, login keeps accepting "admin123" after a successful change |
| TokenServer.AdminToken | server/index.js:14 | the admin token is `ADMIN_TOKEN` when non-empty, else "devtoken"; never empty |
| TokenServer.Presented | server/index.js:69 | the header when non-empty, else the query parameter |
| TokenServer.ListMessages | server/index.js:68-75 | success exactly when the presented token equals the admin token, answering what the file holds; otherwise 401 "Unauthorized" |
| TokenServer.HeaderShadowsQuery | server/index.js:69-70 | a wrong non-empty header is refused even when the query carries the right token |
| TokenServer.StricterThanPresenceGuard | server/index.js:70-72 | a token the presence guard accepts can still be refused here |
| TokenServer.PostThenList | server/index.js:47-65 | a complete message, once written, comes first in the next listing made with the admin token, ahead of the earlier list; over a non-list value the post fails and that value is still listed |
| ServerlessProjects.Handle | api/projects.js:9-52 | GET lists newest first with no token; POST checks the header (401) before the body (400), then the schema (500), and on 201 appends the defaulted project; other methods give 405 |
| ServerlessProjects.MinimalBodyGetsDefaults | api/projects.js:33-44 | a body with only a title and description creates a project with "", "", "", [] and false |
| ServerlessMessages.EscapeLt | api/messages.js:57 | no '<' is left, the text never shrinks, and text without '<' is unchanged |
| ServerlessMessages.EscapeLtAppend | api/messages.js:57 | escaping works character by character: it distributes over concatenation |
| ServerlessMessages.UnescapeEscape | api/messages.js:57 | turning each "&lt;" back into '<' restores any message that did not itself contain "&lt;" |
| ServerlessMessages.Normalise | api/messages.js:5-10 | the stored name is trimmed, the email trimmed and lower-cased, the message kept, `read` false |
| ServerlessMessages.Handle | api/messages.js:67-105 | GET without a token gives 401, otherwise newest first. POST with a missing field gives 400 and saves nothing, and 500 when the normalised record fails the schema; else the record is stored with 201. An email is attempted exactly when all three settings are non-empty, and `emailSent` is true only if that attempt was delivered. The email body carries the escaped message. Other methods give 405 |
| ServerlessMessages.FailedEmailKeepsMessage | api/messages.js:92-97 | a failed delivery stores the same message and still answers 201, only with `emailSent` false |
| ServerlessLogin.Handle | api/admin/login.js:3-26 | non-POST gives 405; a missing field gives 400 before any comparison; success exactly when both equal the environment's pair (fallback "admin123"); otherwise 401 |
| ServerlessChangePassword.Initial | api/admin/change-password.js:4 | the instance starts from `ADMIN_PASSWORD` or "shiva@2416"; never empty |
| ServerlessChangePassword.Handle | api/admin/change-password.js:20-41 | 405, then 401 without a header, then 400 for a missing field, then 403 when the old password differs; success exactly when the old password is the stored one, then the stored password becomes the new one and a fresh token is answered; failures change nothing |
| ServerlessChangePassword.ChangeIsRemembered | api/admin/change-password.js:34-38 | after a change, quoting the previous password gives 403 and quoting the new one succeeds |
| ServerlessChangePassword.NoLengthCheckNoEmailCheck | api/admin/change-password.js:29-38 | a one-character new password with any email is accepted |
| ServerlessChangePassword.LoginIgnoresChange | api/admin/login.js:8-19 | the login handler still accepts "admin123" and refuses the changed password |
| ProjectsManager.Listed | frontend/src/components/admin/ProjectsManager.jsx:58-60 | a listed document is kept as returned: its fields and time, and no `id` |
| ProjectsManager.Load | frontend/src/components/admin/ProjectsManager.jsx:55-67 | an ok listing replaces the cards position by position; a failed load changes nothing |
| ProjectsManager.LoadWithIds | frontend/src/components/Projects.jsx:35-38 | the intended load: the same, with `_id` copied to `id` |
| ProjectsManager.SaveRequest | frontend/src/components/admin/ProjectsManager.jsx:69-90 | no request without a token; a PUT to `/api/projects/{id}` exactly when the id is non-empty and matches a loaded card, else a POST to `/api/projects`; the body is the project data |
| ProjectsManager.DeleteRequest | frontend/src/components/admin/ProjectsManager.jsx:110-123 | no request without a token; otherwise a DELETE of `/api/projects/{id}`, with "undefined" in the URL when the card has no id |
| ProjectsManager.SaveSettled | frontend/src/components/admin/ProjectsManager.jsx:69-107 | resolves true exactly for a stored token and an ok answer, which reloads the list and dispatches `projectsUpdated`; otherwise the list stays and the alert is "Please login first", the server's error or "Failed to save project", or that text with the thrown message |
| ProjectsManager.DeleteSettled | frontend/src/components/admin/ProjectsManager.jsx:110-139 | as for a save, with "Failed to delete project" as the fallback and the alert for a throw |
| ProjectsManager.ChangeReachesPublicList | frontend/src/components/admin/ProjectsManager.jsx:92-96 | after an ok save or delete, the editor has reloaded the listing and the public list, hearing the dispatched event, reloads the same listing whatever it showed before |
| ProjectsManager.ReloadMatchesPublicList | frontend/src/components/admin/ProjectsManager.jsx:56-60 | the editor's reload and the public list's reload of one listing hold the same projects: every reloaded card is shown, and everything shown is a reloaded card |
| ProjectsManager.AfterSave | frontend/src/components/admin/ProjectsManager.jsx:189-230 | a successful save resets and closes the form; a failed one changes nothing |
| ProjectsManager.Clean | frontend/src/components/admin/ProjectsManager.jsx:176 | every kept piece is trimmed and non-empty, and there are no more of them than pieces |
| ProjectsManager.ParseTags | frontend/src/components/admin/ProjectsManager.jsx:176 | every tag is non-empty, trimmed and free of commas |
| ProjectsManager.ParseSingle | frontend/src/components/admin/ProjectsManager.jsx:176 | text without a comma is one tag, its trimmed self, or none when blank |
| ProjectsManager.ParseJoinTags | frontend/src/components/admin/ProjectsManager.jsx:176-204 | parsing the ", "-join of non-empty, trimmed, comma-free tags gives the same tags |
| ProjectsManager.EditForm | frontend/src/components/admin/ProjectsManager.jsx:196-209 | the form's tag text is the card's tags joined with ", " |
| ProjectsManager.SubmitData | frontend/src/components/admin/ProjectsManager.jsx:173-187 | the data sent carries the form's fields, the parsed tags, and the edited project's id and time (absent for a new one) |
| ProjectsManager.EditThenSubmit | frontend/src/components/admin/ProjectsManager.jsx:173-209 | opening a card and submitting the untouched form sends the card back unchanged when its tags are clean |
| ProjectsManager.ImageChange | frontend/src/components/admin/ProjectsManager.jsx:142-171 | a file over 1 MiB, a type not starting with "image/", or a data URL over 2 MiB raises its alert and changes nothing; otherwise the data URL becomes the image and the preview |
| ProjectsManager.ImageThenSubmit | frontend/src/components/admin/ProjectsManager.jsx:142-187 | an accepted image is what the next submit sends, every other field unchanged; a rejected one leaves the submitted project as it was |
| ProjectsManager.Migrate | frontend/src/components/admin/ProjectsManager.jsx:23-53 | nothing happens without a parsed non-empty cache and a token; otherwise the projects are posted in cache order, each once. The cache is removed (and the list reloaded) exactly when every request resolved, whatever its status. A thrown request stops the loop after that request and keeps the whole cache |
| ProjectsManager.EditOfListedProjectIsPost | frontend/src/components/admin/ProjectsManager.jsx:58-79 | editing any project loaded from the server is sent as a POST that creates a new project |
| ProjectsManager.EditOfMappedProjectIsPut | frontend/src/components/admin/ProjectsManager.jsx:77-79 | with ids mapped, editing a loaded project is a PUT to its own URL |
| ProjectsManager.DeleteOfListedProjectMisses | frontend/src/components/admin/ProjectsManager.jsx:110-133 | deleting a server-loaded card asks for `/api/projects/undefined`; the server refuses it, the store is unchanged, and the editor alerts and keeps its list |
| ProjectsManager.DeleteOfMappedProjectRemoves | frontend/src/components/admin/ProjectsManager.jsx:117-123 | with ids mapped, deleting a card asks for its own URL and the server removes exactly that project |
| ProjectsView.CompareMeaning | frontend/src/components/Projects.jsx:40-44 | the comparator's sign puts a before b exactly when a is featured and b is not, or both share the featured status and a is newer; zero exactly for a tie on both; swapping the arguments flips the sign |
| ProjectsView.FeaturedThenNewestIsStrictWeak | frontend/src/components/Projects.jsx:40-44 | the comparator is asymmetric and its incomparability is transitive |
| ProjectsView.DisplayOrder | frontend/src/components/Projects.jsx:40-45 | a permutation in which every featured project precedes every other one and creation times never increase within a group |
| ProjectsView.DisplayOrderIdempotent | src/components/Projects.jsx:36-41 | re-sorting a shown list changes nothing |
| ProjectsView.WithId | frontend/src/components/Projects.jsx:35-38 | `id` becomes `_id` and every other field is unchanged |
| ProjectsView.WithIds | frontend/src/components/Projects.jsx:35-38 | the mapping is applied position by position |
| ProjectsView.LoadFromServer | frontend/src/components/Projects.jsx:29-52 | an ok listing is shown mapped and in display order; a failed or non-ok load leaves the list as it was |
| ProjectsView.LoadFromBrowser | src/components/Projects.jsx:31-43 | a stored list is shown as a permutation in display order; an absent entry leaves the list as it was |
| ProjectsView.OnServerEvent | frontend/src/components/Projects.jsx:14-27 | only `projectsUpdated` reloads |
| ProjectsView.OnBrowserEvent | src/components/Projects.jsx:14-29 | `storage` and `projectsUpdated` reload, anything else does not |
| ProjectsView.ShownAreListed | frontend/src/components/Projects.jsx:33-45 | the shown projects are exactly the listed ones, each with its `_id` as `id` |
| PasswordForm.Check | src/components/admin/PasswordManager.jsx:17-25 | the form may be sent exactly when the new password has at least 6 characters and equals the confirmation; the length error wins over the mismatch |
| PasswordForm.Body | src/components/admin/PasswordManager.jsx:37-41 | the body has exactly the keys email, currentPassword and newPassword |
| PasswordForm.HeaderToken | src/components/admin/PasswordManager.jsx:30-36 | the header is always sent: the stored token, or the text "null" |
| PasswordForm.Submit | src/components/admin/PasswordManager.jsx:12-61 | a failed check shows its error and sends nothing. Otherwise the request goes out: ok clears all three inputs with a success banner; a refusal shows the server's error or "Failed to change password"; a thrown error shows its message. The inputs change only by being cleared |
| PasswordForm.FormPreventsTooShort | src/components/admin/PasswordManager.jsx:17-20 | a password the form sends is never refused by the Express servers as too short |
| PasswordForm.MissingTokenPassesPresenceGuard | src/components/admin/PasswordManager.jsx:30-36 | with no stored token the header "null" still passes the Express presence guard |
| PasswordForm.ServerlessAlwaysRefusesForm | src/components/admin/PasswordManager.jsx:37-41 | the serverless handler expects `oldPassword`, so every form request to it gets 400 (401 for a stored empty token) |
| HiringSearch.Filter | frontend/src/components/admin/HiringManager.jsx:18-22 | every shown application matches the query, and none is added |
| HiringSearch.FilterIsSubsequence | frontend/src/components/admin/HiringManager.jsx:18 | the shown list is the stored one with some applications left out, in stored order |
| HiringSearch.FilterCounts | frontend/src/components/admin/HiringManager.jsx:18-22 | every matching application is kept as many times as it is stored, and no other is kept, so repeated matches are never dropped |
| HiringSearch.FilterMembership | frontend/src/components/admin/HiringManager.jsx:18-22 | an application is shown exactly when it is stored and one of its present fields contains the query, ignoring ASCII case |
| HiringSearch.EmptyQueryKeepsPresent | frontend/src/components/admin/HiringManager.jsx:18-22 | an empty query matches exactly the applications with at least one field |
| HiringSearch.FilterIgnoresQueryCase | frontend/src/components/admin/HiringManager.jsx:18-22 | lower-casing the query changes nothing |
| HiringSearch.Load | frontend/src/components/admin/HiringManager.jsx:11-16 | the stored list, or [] when the entry is absent |
| AdminSession.LoginError | src/components/admin/Admin.jsx:30-33 | a refusal shows the server's error or "Login failed"; a thrown error shows its message |
| AdminSession.Mount | src/components/admin/Admin.jsx:8-17 | logged in exactly when both token and email are stored, with the stored email shown |
| AdminSession.Login | src/components/admin/Admin.jsx:21-43 | success stores token and email, logs in and dispatches `adminAuthChanged`; failure only sets the error |
| AdminSession.Logout | src/components/admin/Admin.jsx:45-51 | both entries removed, logged out, email cleared, `adminAuthChanged` dispatched |
| AdminSession.LoginSurvivesReload | src/components/admin/Admin.jsx:10-39 | after a login with non-empty token and email, a reload restores the same session |
| AdminSession.LogoutSurvivesReload | src/components/admin/Admin.jsx:10-51 | after logout a reload stays logged out |
| AdminSession.FailedLoginKeepsStorage | src/components/admin/Admin.jsx:30-42 | a failed login leaves storage and the logged-in flag as they were |
| AdminSession.MessagesHeader | src/components/Admin.jsx:52 | the token header is sent exactly when the token is non-empty |
| AdminSession.SignOut | src/components/Admin.jsx:68-75 | logged out, token, email and messages cleared, both entries removed |
| AdminSession.LoadMessages | src/components/Admin.jsx:49-66 | a 401 signs out and reports the expired session; other non-2xx answers report "Failed to fetch"; a thrown error reports its message; every failure leaves an empty list; a 2xx shows its list. Storage changes only by being emptied |
| AdminSession.Initial | src/components/Admin.jsx:9-10 | token and email start from the stored entries, or "" |
| AdminSession.MountConsole | src/components/Admin.jsx:13-22 | with both entries stored the session is restored and messages are loaded with the stored token; otherwise nothing is loaded |
| AdminSession.LoginConsole | src/components/Admin.jsx:24-47 | success stores both entries, logs in and loads with the new token; failure only sets the login error |
| AdminSession.RefusedRestoreForgetsSession | src/components/Admin.jsx:14-58 | a restored session refused with 401 ends logged out with storage empty, so the next mount loads nothing |
| AdminSession.StaleTokenEndsSession | src/components/Admin.jsx:54-58 | against the exact-token server, a stored token other than the admin token is refused with 401 and the session ends |

## Left out

- I/O is replaced by inputs: database connections (`connectDB`), the file system, `fetch`, browser storage, received window events, `FileReader`, the email relay, clocks, random secrets and HMAC token signing.
- Database and runtime failures that answer 500 (a failing `find`, `save` or connection) are not modelled. The only 500s in the model are the schema's validation failures and the flat-file POST over a non-list file.
- Malformed ids are not modelled. A `_id` that is not a valid ObjectId makes the source answer 500 through a cast error; the model treats ids as plain strings, so an unknown id answers 404. This includes `undefined`, which the source refuses with that 500; ProjectsManager.DeleteOfListedProjectMisses therefore states only that the delete is refused and changes nothing.
- JSON bodies whose fields have the wrong type (a number as a title, a string as the tag list) are not modelled.
- Mongoose's `updatedAt` and `__v` fields are not modelled.
- backend/server/models/Message.js is not part of this model. The database server's messages are stored as given.
- api/projects/[id].js is not part of this model.
- Text.Lower folds ASCII letters only; full Unicode case mapping is out of scope.
- Lengths (password length, data URL length) are counted in characters, not UTF-16 code units.
- Creation times are integers. Dates that parse to NaN, and the comparator results they produce, are not modelled.
- The email's HTML template and its `toLocaleString` date are not modelled. Only the subject, the addresses and the escaped message are.
- ProjectsManager.ImageChange does not cover typing an image URL into the text box (a plain field update), and the preview's remove button.
- Confirmation dialogs and rendering are not modelled. A delete is modelled from the point the user confirms it; alerts are modelled as the text they show.
- A cached `portfolioProjects` value that parses to something other than a list is not modelled.
- ProjectsView.LoadFromBrowser: takes the parsed entry as given. Text in `portfolioProjects` that is not valid JSON makes `JSON.parse` throw out of the mount effect (src/components/Projects.jsx:34), and a value that is not a list throws at `sort`. Neither throw is modelled.
- HiringSearch.Load: takes the parsed entry as given. Text in `hiringApplications` that is not valid JSON makes `JSON.parse` throw out of `loadApplications` (frontend/src/components/admin/HiringManager.jsx:14), and a value that is not a list throws a TypeError at `applications.filter` (line 18). Neither throw is modelled.
- A response whose JSON cannot be read is modelled only for saves and deletes, where it ends in the same catch as a network failure.
- ProjectsView.DisplayOrder: states the order and the permutation but not that ties keep their loaded order, which the stable sort provides.
- ProjectSchema.ByNewest: the order among equal creation times is left open, as the database leaves it.
- Concurrency between simultaneous requests is not modelled.

## Findings

| source | as written | input that shows it | evidently intended | confidence | as-written member | corrected member |
|---|---|---|---|---|---|---|
| frontend/src/components/admin/ProjectsManager.jsx:58-79 | The listing is stored as returned. Its documents carry `_id` and no `id`, so an edited project's `id` is undefined and the save is routed to POST | open any project loaded from the server, edit it and submit: a POST to `/api/projects` creates a second project instead of updating the first (and a delete targets `/api/projects/undefined`) | copy `_id` to `id` on load, as frontend/src/components/Projects.jsx:35-38 does, so that an edit is a PUT to `/api/projects/{_id}` | medium, not executed (relies on the listing's JSON having no `id` field, the schema's default serialisation) | ProjectsManager.EditOfListedProjectIsPost | ProjectsManager.EditOfMappedProjectIsPut |
| frontend/src/components/admin/ProjectsManager.jsx:58-60 | The same unmapped listing is what the delete button reads `project.id` from, so every delete asks for `/api/projects/undefined` | delete any project loaded from the server: the request targets `/api/projects/undefined`, the server refuses it, and the project stays | copy `_id` to `id` on load, so that a delete targets `/api/projects/{_id}` | medium, not executed (relies on the listing's JSON having no `id` field, the schema's default serialisation) | ProjectsManager.DeleteOfListedProjectMisses | ProjectsManager.DeleteOfMappedProjectRemoves |
