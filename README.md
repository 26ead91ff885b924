# DeployWeb2025_2026 — a verified model of the project and group core

DeployWeb2025_2026 is a small web application for organising student projects. An
instructor signs in and creates a project: a name, a GitHub organisation, a minimum and
maximum group size and a naming convention. The creation form is written to ask the
server for the next project id, draw 32 random bytes, write them as lower-case
hexadecimal, keep the first 50 characters as the access key, and compose the shareable
link `<front>/CreateGroups/<id>/<key>`. The server's project routes
(server/src/routes/projectRoutes.ts:13-22) do not route the next-id request, so as the
code stands that request fails, no key or link is composed, and the creation is refused
(`AccessFlow.CreateWithUnroutedNextId`, third row of "Findings"). The link path below
is modelled as it would work with such a route. Students open the link and enter a roster of names and
GitHub usernames, bounded by the project's minimum and maximum, and register it as a
group. Back on the dashboard, the instructor sees each group with a fill status.

The Dafny project models this core, file by file:

| module | models |
|---|---|
| `Js` (js.dfy) | the JavaScript semantics the code relies on: absent values, truthiness, `||` fallbacks, `String.prototype.includes`, number-to-string |
| `Http` (http.dfy) | the status codes and a reply that is either a value with a status or a refusal |
| `Store` (store.dfy) | the two Prisma tables as a `Database` class: projects by id, groups in insertion order, and the two id sequences |
| `ProjectController` | the project routes of the server: list, next id, create, update, delete, public read |
| `GroupController` | the public group routes: read the groups, create a group |
| `StudentContext` | the client's shared roster and its functional updaters |
| `GroupForm`, `StudentCard` | the registration form: its initial roster, the add and remove bounds, submit, and the roster length invariant over any sequence of user edits |
| `ProjectForm` | key encoding (`toString(16)`, `padStart`, `join`, `slice`), link composition, the form's initial state, and the create-versus-edit request |
| `GroupList` | the instructor's group list: fill status, empty list, absent project |
| `GroupContext` | the client's cached group list with its guarded load, append, delete and clear |
| `CsrfService` | the module-level CSRF token cache |
| `AccessFlow` | client and server together: the link the form composes, the body it posts, and the key gate |

State that the source changes in place is a class with `modifies` clauses: `Database`,
`StudentState`, `GroupState`, `TokenCache` and `ProjectForm.Form`. Each method ties its
new state to a function of the old state, and lemmas state the properties of those
functions. Server answers, random bytes and network outcomes are method parameters. In
`GroupContext` and `CsrfService`, a `None` answer stands for a request that failed.

The code checks no GitHub usernames, detects no duplicate students, does not number the
`XX` of the naming convention and creates no repository. It names every group `"Groupe du projet " + project name`, applies no size bound on the server,
and accepts an empty roster (`GroupController.AnyRosterSizeAccepted`).

The key gate of the public routes only asks that the key occur somewhere in the stored
link. Every composed link contains the route word `CreateGroups`, so that word opens any
project whose link the form composed, whatever its key
(`AccessFlow.RouteWordOpensAnyLink`). Likewise, any substring of the link opens the
project, including its first character.

`ProjectForm.Join` is `Array.from(bytes, f).join("")` for any byte writer `f`. Its
properties are the lemmas `JoinLength`, `JoinAt`, `JoinConcat` and `JoinDigitsAt` below.
`ProjectController.HasRequiredFields` is the falsy-field test of the create route, and
`EachFieldRequired` states it.

## Model

| member | source | states |
|---|---|---|
| Js.OrStringChoice | client/src/components/CreateProject/ProjectForm.tsx:32-39 | a non-empty string always wins over the fallback, an absent or empty one never does, and the result is truthy exactly when the string or the fallback is |
| Js.OrNumberChoice | client/src/components/CreateProject/ProjectForm.tsx:35-36 | a non-zero number always wins over the fallback, an absent or zero one never does, and the result is non-zero exactly when the number or the fallback is |
| Js.IncludesIff | server/src/controllers/projectController.ts:118 | the model of `includes` holds exactly when the needle occurs at some position of the string |
| Js.IncludesInfix | client/src/components/CreateProject/ProjectForm.tsx:60 | a string that is concatenated into another is included in it |
| Js.Decimal | client/src/components/CreateProject/ProjectForm.tsx:60 | a non-negative number is written as at least one decimal digit and only digits |
| Js.NumberString | client/src/components/CreateProject/ProjectForm.tsx:100 | a non-empty rendering that is the decimal digits for a non-negative number and starts with `-` for a negative one |
| Js.DecimalValue | client/src/components/CreateProject/ProjectForm.tsx:60 | reading the decimal digits of n back as a number gives n |
| Js.NumberStringValue | client/src/components/CreateProject/ProjectForm.tsx:100 | `Number(String(n)) == n` for every integer, negative ones included |
| Js.NumberStringInjective | client/src/components/CreateProject/ProjectForm.tsx:60 | two different ids are never written the same |
| ProjectForm.LinkNamesOneId | client/src/components/CreateProject/ProjectForm.tsx:60 | for a given front URL and key, two links are equal only when they name the same id |
| Store.GroupsOf | server/src/controllers/projectController.ts:11 | selecting a project's groups never yields more rows than the table has |
| Store.GroupsOfMembers | server/src/controllers/projectController.ts:11 | the selected groups are exactly the table's groups with that project id |
| Store.GroupsOfAppend | server/src/controllers/groupController.ts:45-57 | inserting a group appends it to its own project's list and leaves every other project's list as it was |
| Store.Database.Valid | server/src/controllers/projectController.ts:44-54 | on a consistent store every project is stored under its id below the project sequence value, so no stored project has the next project id and no stored group has the next group id |
| Store.Database.constructor | server/src/controllers/projectController.ts:44-54 | an empty store with both sequences at 1, which is consistent |
| Store.WithGroups | server/src/controllers/projectController.ts:11 | a project joined with exactly its groups |
| ProjectController.UserProjects | server/src/controllers/projectController.ts:9-13 | the caller gets exactly the projects whose owner is the caller, each with exactly its groups |
| ProjectController.LastProjectId | server/src/controllers/projectController.ts:23-25 | the first row in descending id order is a stored id that is at least every stored id |
| ProjectController.NextProjectId | server/src/controllers/projectController.ts:26 | the next id is above every stored id, is 1 on an empty table, and is otherwise one more than a stored id |
| ProjectController.NextIdAgainstSequence | server/src/controllers/projectController.ts:23-27 | the announced id is never above the id the sequence actually assigns next, and equals it when the last assigned id is still stored |
| ProjectController.SequenceNextId | server/src/controllers/projectController.ts:23-27 | the corrected next id: an id no stored project has, above every stored id, and never below the id the route announces |
| ProjectController.EachFieldRequired | server/src/controllers/projectController.ts:40 | each of name, organisation, key and link is required on its own: making any one of them absent or empty fails the check, and any non-empty key passes |
| ProjectController.NewProject | server/src/controllers/projectController.ts:44-54 | the stored row has the assigned id and the caller as owner, and holds the body's name, organisation, bounds, convention and link, with name, organisation and link non-empty |
| ProjectController.KeyNotStored | server/src/controllers/projectController.ts:38-54 | the key is checked but not stored: rows created with different keys are equal |
| ProjectController.CreateProject | server/src/controllers/projectController.ts:35-56 | 400 and no write when a required field is falsy; otherwise 201, the new row under the next sequence value, the sequence advanced and nothing else changed |
| ProjectController.OwnerCheck | server/src/controllers/projectController.ts:70-75 | 404 exactly when the id is absent, 403 exactly when another user owns the project, 200 exactly for the owner |
| ProjectController.Patched | server/src/controllers/projectController.ts:77-80 | each of the five editable fields takes the given value or keeps its value when the field is undefined; id, owner and link are preserved |
| ProjectController.PatchIdempotent | server/src/controllers/projectController.ts:77-80 | applying the same update twice is the same as applying it once |
| ProjectController.UpdateProject | server/src/controllers/projectController.ts:64-82 | the status is the owner check; a refusal changes nothing; on success only that row is replaced by its patched form |
| ProjectController.DeleteProject | server/src/controllers/projectController.ts:89-99 | the status is the owner check and the reply succeeds exactly with 200; a refusal changes nothing; on success exactly that id is removed and groups and sequences are untouched |
| ProjectController.KeyCheck | server/src/controllers/projectController.ts:117-118 | 404 exactly when the id is absent, 403 exactly when the key does not occur in the link, 200 exactly when it does |
| ProjectController.PublicProject | server/src/controllers/projectController.ts:108-120 | the status is the key check, reads only, and on success returns the stored row with exactly its groups |
| GroupController.Groups | server/src/controllers/groupController.ts:6-18 | the status is the key check, and on success the reply holds exactly that project's groups |
| GroupController.ToMembers | server/src/controllers/groupController.ts:49-54 | one member per submitted student, in input order, copying both names |
| GroupController.NewGroup | server/src/controllers/groupController.ts:45-54 | the written group has the sequence id, the project id of the route, the name `Groupe du projet ` followed by the project's name, and one member per submitted student with both names copied |
| GroupController.CreateCheck | server/src/controllers/groupController.ts:31-42 | 400 exactly when the id parameter is empty or students is not an array; 403 exactly for a missing project or a key not in the link; 201 otherwise |
| GroupController.CreateGroup | server/src/controllers/groupController.ts:26-59 | the status is the create check; a refusal changes nothing; on success one group named after the project with the copied members is appended and the group sequence advances |
| GroupController.AnyRosterSizeAccepted | server/src/controllers/groupController.ts:31-54 | with a valid key every roster, the empty one included, is accepted and yields a group with exactly that many members |
| StudentContext.StudentState.constructor | client/src/context/StudentContext.tsx:20 | the roster starts empty |
| StudentContext.Added | client/src/context/StudentContext.tsx:22 | the entry is appended at the end and the others keep their places |
| StudentContext.DropPosition | client/src/context/StudentContext.tsx:23 | filtering by position drops the entry at that position of the whole list, or nothing when the position is outside |
| StudentContext.Removed | client/src/context/StudentContext.tsx:23 | exactly position i is removed and the rest keep their order; an out-of-range i leaves the list unchanged |
| StudentContext.WithField | client/src/context/StudentContext.tsx:27 | the chosen field takes the value; the other field and the id are kept |
| StudentContext.Updated | client/src/context/StudentContext.tsx:24-30 | entry i has field f set to v and its other field and id kept; every other entry is unchanged; the length is unchanged |
| StudentContext.Cleared | client/src/context/StudentContext.tsx:31 | the roster becomes empty |
| StudentContext.SyncCall | client/src/context/StudentContext.tsx:33-36 | nothing is sent without a token; otherwise the whole roster is sent for the project with that token |
| GroupForm.Blanks | client/src/components/CreateGroups/GroupForm.tsx:19-24 | exactly `minStudents` entries (none for a negative length), all blank |
| GroupForm.WithinBoundsMeans | client/src/components/CreateGroups/GroupForm.tsx:27-33 | for 0 <= min <= max the roster invariant is exactly min <= length <= max |
| GroupForm.BlanksWithinBounds | client/src/components/CreateGroups/GroupForm.tsx:17-25 | the initial roster satisfies the invariant whatever the bounds |
| GroupForm.Grown | client/src/components/CreateGroups/GroupForm.tsx:27-33 | at or above the maximum the roster is unchanged; below it one blank entry is appended and the maximum is not exceeded |
| GroupForm.GrownTimesLength | client/src/components/CreateGroups/GroupForm.tsx:27-33 | after n presses of "add" the length is min(length + n, max) |
| GroupForm.RepeatedAddsStayBelowMax | client/src/components/CreateGroups/GroupForm.tsx:28-32 | from the initial roster with min <= max, repeated adds never exceed the maximum |
| GroupForm.Initialise | client/src/components/CreateGroups/GroupForm.tsx:17-25 | the roster becomes the project's blank roster, which satisfies the invariant |
| GroupForm.AddStudent | client/src/components/CreateGroups/GroupForm.tsx:27-33 | refused exactly at or above the maximum; the new roster is the grown one; the invariant is preserved |
| GroupForm.Submit | client/src/components/CreateGroups/GroupForm.tsx:35-65 | a request is sent exactly with a token, a project key and a non-zero project id; it carries the current roster; the roster is reset to blanks only after an accepted create |
| GroupForm.SubmitWithRouteKey | client/src/components/CreateGroups/GroupForm.tsx:43-57 | the corrected submit: it sends under the route's key exactly when there is a token, the key is non-empty and the id is non-zero |
| StudentCard.HandleChange | client/src/components/CreateGroups/StudentCard.tsx:15-19 | it throws exactly when `index` is not a position of the roster, and then leaves the roster as it was; otherwise the roster becomes the one with field f of entry `index` set to v |
| StudentCard.Shrunk | client/src/components/CreateGroups/StudentCard.tsx:21-27 | at or below the minimum the roster is unchanged; otherwise entry `index` is removed and the length stays at or above the minimum |
| StudentCard.RemoveStudent | client/src/components/CreateGroups/StudentCard.tsx:21-27 | refused exactly at or below the minimum; the new roster is the shrunk one |
| StudentCard.ApplyKeepsBounds | client/src/components/CreateGroups/StudentCard.tsx:21-26 | each add, remove, edit or successful submit preserves the roster invariant |
| StudentCard.ApplyAllKeepsBounds | client/src/components/CreateGroups/StudentCard.tsx:21-26 | any sequence of edits preserves the roster invariant |
| StudentCard.RosterStaysWithinBounds | client/src/components/CreateGroups/StudentCard.tsx:22-26 | once initialised with 0 <= min <= max, the roster length stays between min and max whatever the user does |
| ProjectForm.HexDigit | client/src/components/CreateProject/ProjectForm.tsx:55 | a value 0..15 is written as a lower-case hexadecimal digit |
| ProjectForm.HexValue | client/src/components/CreateProject/ProjectForm.tsx:55 | reading a hexadecimal digit gives a value 0..15 that is written back as the same digit |
| ProjectForm.HexValueOfDigit | client/src/components/CreateProject/ProjectForm.tsx:55 | writing then reading a digit gives the value back |
| ProjectForm.Radix16 | client/src/components/CreateProject/ProjectForm.tsx:55 | `toString(16)` is never empty and is exactly one digit below 16 |
| ProjectForm.PadStart | client/src/components/CreateProject/ProjectForm.tsx:55 | the result has the larger of the two lengths, ends with the string and is fill before it |
| ProjectForm.ByteHex | client/src/components/CreateProject/ProjectForm.tsx:55 | every byte is written with exactly two characters |
| ProjectForm.ByteHexDigits | client/src/components/CreateProject/ProjectForm.tsx:55 | the two characters are the high and the low digit, so a byte below 16 gets a leading zero |
| ProjectForm.JoinLength | client/src/components/CreateProject/ProjectForm.tsx:55-56 | joining two-character pieces gives twice as many characters as bytes |
| ProjectForm.JoinAt | client/src/components/CreateProject/ProjectForm.tsx:55-56 | characters 2i and 2i+1 of the join are the two characters written for byte i |
| ProjectForm.JoinConcat | client/src/components/CreateProject/ProjectForm.tsx:55-56 | joining distributes over concatenation of the byte arrays |
| ProjectForm.ByteHexTwoWide | client/src/components/CreateProject/ProjectForm.tsx:55 | the byte writer is two characters wide for every byte |
| ProjectForm.ByteHexWritesDigits | client/src/components/CreateProject/ProjectForm.tsx:55 | every byte is written as its high digit followed by its low digit |
| ProjectForm.JoinDigitsAt | client/src/components/CreateProject/ProjectForm.tsx:55-56 | joining with such a writer puts the digits of byte i at characters 2i and 2i+1 |
| ProjectForm.Hex | client/src/components/CreateProject/ProjectForm.tsx:55-56 | the hexadecimal string has two characters per byte |
| ProjectForm.HexAt | client/src/components/CreateProject/ProjectForm.tsx:55-56 | characters 2i and 2i+1 are the high and low digit of byte i |
| ProjectForm.HexIsHexString | client/src/components/CreateProject/ProjectForm.tsx:55-56 | every character of the hexadecimal string is in `0-9a-f` |
| ProjectForm.HexPrefix | client/src/components/CreateProject/ProjectForm.tsx:55-57 | the first 2n characters are the hexadecimal string of the first n bytes |
| ProjectForm.AccessKey | client/src/components/CreateProject/ProjectForm.tsx:53-57 | the key has min(50, 2 * bytes) characters, all in `0-9a-f` |
| ProjectForm.DecodeHex | client/src/components/CreateProject/ProjectForm.tsx:55-57 | reading hexadecimal two digits at a time gives half as many bytes as characters |
| ProjectForm.HexTail | client/src/components/CreateProject/ProjectForm.tsx:55-56 | dropping two characters of the hexadecimal string drops the first byte |
| ProjectForm.DigitsDecode | client/src/components/CreateProject/ProjectForm.tsx:55 | the two digits of a byte read back as that byte |
| ProjectForm.DecodeHexOfHex | client/src/components/CreateProject/ProjectForm.tsx:55-56 | reading the hexadecimal string gives the bytes back |
| ProjectForm.KeyRoundTrip | client/src/components/CreateProject/ProjectForm.tsx:53-57 | a key from 32 bytes has exactly 50 characters, and each of its 25 pairs decodes to the corresponding byte |
| ProjectForm.Link | client/src/components/CreateProject/ProjectForm.tsx:60 | the key is the link's last segment, so the link includes the key |
| ProjectForm.LinkContainsRouteWord | client/src/components/CreateProject/ProjectForm.tsx:60 | every composed link also includes the word `CreateGroups` |
| ProjectForm.Form.constructor | client/src/components/CreateProject/ProjectForm.tsx:32-39 | empty fields, bounds 1 and convention `Groupe-XX` when creating; the edited project's values with the same fallbacks when editing |
| ProjectForm.Form.IsEditing | client/src/components/CreateProject/ProjectForm.tsx:98 | the form edits exactly when it was given a project whose id is truthy |
| ProjectForm.Form.GenerateAccess | client/src/components/CreateProject/ProjectForm.tsx:42-68 | nothing changes when editing or when the next-id request failed; otherwise the key is the encoded bytes and the link is composed from the next id and that key |
| ProjectForm.Form.Submit | client/src/components/CreateProject/ProjectForm.tsx:94-124 | PUT to the project's path exactly when editing a project with an id, POST to the collection otherwise; the five fields are sent; key and link only when creating |
| GroupList.FillOf | client/src/components/CreateProject/GroupList.tsx:83-110 | full exactly at or above the maximum; the missing count is shown exactly below the minimum and is then at least 1 |
| GroupList.Cards | client/src/components/CreateProject/GroupList.tsx:82-85 | one card per group, in order, each with its fill status |
| GroupList.ShouldFetchIffTruthy | client/src/components/CreateProject/GroupList.tsx:30 | the guard loads exactly for a project id that is present, not NaN and not 0 |
| GroupList.Render | client/src/components/CreateProject/GroupList.tsx:61-111 | nothing for a falsy project id, a spinner while loading, the no-group message for a non-array or empty list, and otherwise one card per group with its name and fill status |
| GroupContext.WithoutGroup | client/src/context/GroupContext.tsx:52 | the kept groups are exactly those whose id differs from the deleted id |
| GroupContext.WithoutGroupConcat | client/src/context/GroupContext.tsx:52 | the filter distributes over concatenation, so the kept groups stay in order |
| GroupContext.WithoutAbsentGroup | client/src/context/GroupContext.tsx:52 | deleting an id that no cached group has leaves the list unchanged |
| GroupContext.WithoutGroupIdempotent | client/src/context/GroupContext.tsx:52 | deleting the same id twice is the same as deleting it once |
| GroupContext.GroupState.constructor | client/src/context/GroupContext.tsx:17 | the cached list starts empty |
| GroupContext.FetchGroups | client/src/context/GroupContext.tsx:19-31 | no change without a token, with a zero project id or when the request fails; otherwise the list becomes the server's answer |
| GroupContext.CreateGroup | client/src/context/GroupContext.tsx:33-45 | no change without a token, project id or key, or when the request fails; otherwise the returned group is appended at the end |
| GroupContext.DeleteGroup | client/src/context/GroupContext.tsx:47-60 | without a token nothing happens; a refused delete rethrows and keeps the list; a successful one removes every group with that id |
| GroupContext.ClearGroups | client/src/context/GroupContext.tsx:62 | the cached list becomes empty |
| CsrfService.FetchStep | client/src/services/csrfService.ts:7-12 | a request is sent exactly when the cache holds nothing truthy; a hit returns the cached token; a served token is returned and cached; a failed request throws and leaves the cache, which holds nothing truthy, as it was |
| CsrfService.AtMostOneRequest | client/src/services/csrfService.ts:7-12 | two calls without a clear send at most one request and return the same token when the first returned a non-empty one |
| CsrfService.FailureRequestedAgain | client/src/services/csrfService.ts:9-10 | after a failed request the next call requests again |
| CsrfService.EmptyTokenRequestedAgain | client/src/services/csrfService.ts:8-11 | an empty token from the server is not a hit: the next call requests again |
| CsrfService.ClearForcesRequest | client/src/services/csrfService.ts:14-16 | after a clear the next call sends a request and returns the served token |
| CsrfService.TokenCache.constructor | client/src/services/csrfService.ts:5 | the cache starts empty |
| CsrfService.TokenCache.FetchCsrfToken | client/src/services/csrfService.ts:7-12 | the returned token (none when the call throws), the request flag and the new cache are those of one fetch step |
| CsrfService.TokenCache.ClearCsrfToken | client/src/services/csrfService.ts:14-16 | the cache becomes empty |
| AccessFlow.ServerBody | client/src/components/CreateProject/ProjectForm.tsx:103-114 | the server reads the posted name, organisation, bounds and convention as given, and an omitted key or link as undefined |
| AccessFlow.ServerPatch | server/src/controllers/projectController.ts:68 | an edit submit gives all five editable fields |
| AccessFlow.LinkOpensProject | server/src/controllers/projectController.ts:118 | a project whose link was composed with a key opens with that key, for reading and for registering a group |
| AccessFlow.GeneratedProjectOpens | client/src/components/CreateProject/ProjectForm.tsx:53-60 | a create submit with the generated key and link passes the required-field check, and the row it writes opens with that key |
| AccessFlow.UngeneratedProjectRefused | server/src/controllers/projectController.ts:40-42 | a create submit whose key and link were never generated is refused with 400 |
| AccessFlow.EditKeepsAccess | server/src/controllers/projectController.ts:77-80 | editing a project never changes which keys open it |
| AccessFlow.RouteWordOpensAnyLink | server/src/controllers/projectController.ts:118 | the word `CreateGroups` opens every project whose link the form composed |
| AccessFlow.CreateThroughForm | client/src/components/CreateProject/ProjectForm.tsx:42-124 | a fresh creation form, its next-id answer, its submit and the create route together: a failed next-id request ends in 400 with nothing written; with an answer and a name and organisation, the row is stored under the sequence value with the typed name and organisation and the composed link, and opens with the generated key |
| AccessFlow.CreateWithUnroutedNextId | server/src/routes/projectRoutes.ts:13-22 | as written: without a next-id route every creation through the form is refused with 400 and nothing is written |
| AccessFlow.CreateWithSequenceNextId | server/src/controllers/projectController.ts:23-27 | corrected: with a route answering the sequence's next value, the created row is stored under the id its link names and opens with its key |
| AccessFlow.StaleNextIdAfterDelete | server/src/controllers/projectController.ts:23-26 | as written, from an empty store through the modelled create and delete: projects 1, 2 and 3 created and 3 deleted, the announced id is 3, the form's link names 3, the row is stored under 4, and the link answers 404 |
| AccessFlow.SequenceLinkOpensCreatedProject | server/src/controllers/projectController.ts:44-56 | corrected: with the sequence's next value announced, the created row is stored under the id its link names and the link opens it |
| AccessFlow.PublicFormProject | client/src/pages/CreateGroups.tsx:34 | the project the registration page hands to the form carries the stored bounds and no key |
| AccessFlow.Inputs | client/src/services/groupService.ts:40 | the posted roster has one entry per student with both names copied |
| AccessFlow.SubmitOnPublicPage | client/src/components/CreateGroups/GroupForm.tsx:43-46 | as written, the form on the registration page sends nothing and keeps the roster, whatever the token |
| AccessFlow.SubmitOnPublicPageWithRouteKey | client/src/components/CreateGroups/GroupForm.tsx:57 | the corrected form sends the roster under the link's key, and the server's create check accepts that request |

## Findings

| source | as written | input that shows it | evidently intended | confidence | as-written member | corrected member |
|---|---|---|---|---|---|---|
| client/src/components/CreateGroups/GroupForm.tsx:43-46 | the form refuses to submit unless `project.uniqueKey` is set. The project comes from the public route, and the create route (server/src/controllers/projectController.ts:44-54) never stores a key. | any project created through the form, opened through its link: every submit stops at the missing-key alert | the form sends the key of the page's route, which is the link's last segment and passes the gate | low, not executed. It holds only if the database schema gives projects no `uniqueKey` column with a default, and if the public project is loaded as the row `getProjectPublic` returns (see `AccessFlow.PublicFormProject` under "Left out") | AccessFlow.SubmitOnPublicPage | GroupForm.SubmitWithRouteKey, AccessFlow.SubmitOnPublicPageWithRouteKey |
| server/src/controllers/projectController.ts:23-26 | the next id is the largest stored id plus one, but the autoincrement sequence never hands an id out twice | create projects 1, 2 and 3, delete 3, open the creation form: the link names project 3, the row is stored as 4, and the link answers 404 | announce the value the sequence will assign, or compose the link from the created row's id | medium, not executed. It assumes an autoincrement id (Prisma's default for an `Int @id`) and a route for `getNextProjectId`, which projectRoutes.ts:13-22 does not define (third row) | AccessFlow.StaleNextIdAfterDelete | ProjectController.SequenceNextId, AccessFlow.SequenceLinkOpensCreatedProject, AccessFlow.CreateWithSequenceNextId |
| server/src/routes/projectRoutes.ts:13-22 | `getNextProjectId` (server/src/controllers/projectController.ts:21) is never routed, while the creation form requests `GET /projects/next-id` (client/src/components/CreateProject/ProjectForm.tsx:47) | open the creation form, fill in name and organisation, submit: the next-id request fails, key and link stay empty, and where the POST reaches `createProject` (app.ts and index.ts mount no CSRF middleware) the create route answers 400; under server.ts:63 the POST carries no CSRF token and the CSRF check answers 500 first | route `GET /next-id` to `getNextProjectId` | medium, not executed (server.ts mounts only these project routes) | AccessFlow.CreateWithUnroutedNextId | AccessFlow.CreateWithSequenceNextId |

## Left out

- Error statuses 500, the `try`/`catch` around every store call, and `console` logging: the store never fails in the model.
- The Prisma schema is not part of this model. Ids come from two autoincrement sequences. Included groups are listed in table order. ProjectController.DeleteProject assumes the delete succeeds and leaves the group rows as they were. That matches neither Prisma default: a required relation (Restrict) makes the delete at line 98 fail with a 500 once the project has a group, and an optional relation sets the groups' `projectId` to null.
- `Number(id)` on a route parameter that is not numeric (NaN): the model takes an integer, or None for an empty `projectId` in the group creation route.
- `getUserProjects` needs an authenticated user. Authentication, JWT checks, CSRF validation on the server, helmet and CORS (server.ts, app.ts, routes, middlewares) are not part of this model.
- `getGroupsByProject` and the server's `deleteGroup` are imported by the group routes but not defined in groupController.ts. The client's deletion is modelled with the server's answer as a parameter.
- `crypto.getRandomValues`, the next-id request and every other network call: their results are parameters.
- `getNextProjectId` has no route in server/src/routes/projectRoutes.ts:13-22. Everything that uses a composed link assumes a route that serves it: `AccessFlow.LinkOpensProject`, `GeneratedProjectOpens`, `RouteWordOpensAnyLink`, `StaleNextIdAfterDelete`, and `CreateThroughForm` when given an answer.
- `fetchOrganizations` (Octokit), copying the link to the clipboard, alerts, navigation, `logout()` on 401, and the form's text-field setters: these are user-interface effects.
- `GroupList.handleDeleteGroup`: it is a confirm dialog around the modelled `GroupContext.DeleteGroup` followed by `GroupContext.FetchGroups`.
- StudentContext.WithField: covers only `fullName` and `githubUsername`. The `id` key that `keyof Student` also allows (StudentContext.tsx:10,24, studentService.ts:7) is not modelled, so "the id is kept" is stated only for the two name fields. No caller in the modelled files passes `id` (StudentCard.tsx:15).
- StudentContext.Updated: requires an in-range index. Writing past the end of a JavaScript array (which leaves holes) is not modelled, nor is a negative index, which sets a property of the array object and changes no entry. The `id` key of `keyof Student` (StudentContext.tsx:10, studentService.ts:7) is not modelled either: `Field` has only the two names, which is all that StudentCard.tsx:15 passes.
- StudentCard.HandleChange: the source mutates the shared entry object in place, so the previous roster's entry changes too. The model gives the new roster only and does not model that aliasing.
- AccessFlow.PublicFormProject: assumes the registration page hands `GroupForm` the row that `getProjectPublic` returns (projectController.ts:120) and that this row has no truthy `uniqueKey`. Neither follows from the modelled files. ProjectContext.tsx defines no `publicProject`, `fetchPublicProject` or `clearPublicProject`, although CreateGroups.tsx:10 uses all three. The Prisma schema is outside this model, and a key column with a default would make the row's key truthy. App.tsx:24 also puts the "public" route behind login.
- CsrfService.FetchStep: a response without a `csrfToken` field, which caches and returns `undefined`, is not modelled.
- ProjectForm.Form.GenerateAccess: `FRONT_URL` and the API URL are parameters. The effect's re-runs when the token changes are not modelled.
- React re-rendering, effect ordering and concurrency between requests.
