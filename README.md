# EventHub in Dafny

EventHub is a small event-management backend: users create events, others join and leave
them, owners edit or delete their events and attach a banner image kept in an object
bucket. This project models the decision rules in front of every store mutation and the
pure helpers the handlers rely on, then proves what those rules guarantee.

- `wrappers.dfy`: `Option` and `Result`.
- `api_utils.dfy` (module `ApiUtils`): id generation with the random part as a parameter,
  response shaping, pagination arithmetic, including JavaScript's `Infinity`/`NaN` for a
  zero limit, the image-type whitelist, safe file names, bearer tokens, ownership and
  date checks. The clock is a parameter `now`.
- `validation.dfy` (module `Validation`): the register, login, create-event,
  update-event and list-query schemas. Each is a validity predicate plus the list of
  fields the schema rejects.
- `r2.dfy` (module `R2`): the checks and key/URL naming inside `uploadToR2`, and
  `extractR2Key`. The URL parse covers the `scheme://host/path` form.
- `frontend_utils.dfy` (module `FrontendUtils`): `validateImageFile`, `truncate`,
  `capitalize`.
- `schema.dfy` (module `Schema`): the four tables, their key, uniqueness and
  reference constraints, and the `ON DELETE CASCADE` rules as functions on tables.
- `event_queries.dfy` (module `EventQueries`): the read-only list query and the
  "my events" query, as sort, window and filter functions over a table scan.
- `event_rules.dfy` (module `EventRules`): the row a create inserts and the row an
  update writes.
- `store.dfy` (module `Store`): class `EventHub`, the database and image bucket, with one
  method per handler. Each method checks the handler's guards in order, then changes
  state only after all of them pass. The one exception is
  `Store.EventHub.UploadBannerAsWritten`: like the handler, it deletes the old banner's
  object before the new file is checked, and a rejected file then ends in a 500. The class invariant `Valid()` is the schema's
  constraints plus two the handlers keep on their own: unique (user, event) attendee pairs and
  no creator attending their own event.

The session middleware is abstracted as `Auth`: no session, an invalid session, or an
authenticated user id. Random ids are `nano` parameters. A clash of a generated id with
an existing primary key is the insert failure that the handlers' `catch` turns into a 500.
`checkOwnership` is the predicate `ApiUtils.CheckOwnership`, which is string equality.
`isFutureDate` is `ApiUtils.IsFutureDate(date, now)`, which is `date > now`. Both are used
in the handlers' contracts.

Two facts about the code shape the model:

- `backend/src/db/schema.ts:34-45` declares no unique constraint on the (user, event)
  pair of the attendees table. Uniqueness is `Schema.PairsUnique`, and the only thing
  that keeps it is the join handler's duplicate check (`backend/src/routes/attendees.ts:42-52`).
- The creator's own join is answered with a 400 and its own message
  (`backend/src/routes/attendees.ts:34-39`).

The list queries read the events table as a scan: a sequence of rows that
`EventQueries.ScanOf` ties to the tables, with every stored event exactly once and each
row's attendee count equal to `Schema.Count` of that event.

## Model

| member | source | states |
|---|---|---|
| ApiUtils.GenerateId | backend/src/lib/utils.ts:5-8 | the id ends with the random part; with a non-empty prefix it starts with prefix + "_" |
| ApiUtils.GenerateIdInjective | backend/src/lib/utils.ts:5-8 | under one prefix, equal ids have equal random parts |
| ApiUtils.FormatError | backend/src/lib/utils.ts:21-28 | the body keeps the message; the status is the given one, or 400 when none is given |
| ApiUtils.FormatSuccess | backend/src/lib/utils.ts:30-36 | success is always true and the data is kept; the message key is present exactly when the message is non-empty |
| ApiUtils.Paginate | backend/src/lib/utils.ts:38-41 | the limit comes back unchanged and page 1 starts at offset 0 |
| ApiUtils.PagesAdjacent | backend/src/lib/utils.ts:38-41 | page p + 1 starts exactly limit rows after page p |
| ApiUtils.CeilDiv | backend/src/lib/utils.ts:48 | for a positive divisor: 0 for 0, otherwise (q-1)*b < a <= q*b, which is ceil(a/b) |
| ApiUtils.TotalPages | backend/src/lib/utils.ts:48 | ceil(total/limit) for a positive limit; for a negative limit, the least integer at or above the negative quotient total/limit, never positive; NaN for 0/0 and Infinity for a positive total over a zero limit |
| ApiUtils.Meta | backend/src/lib/utils.ts:43-57 | total, page and limit echoed; for a positive limit totalPages is ceil(total/limit), 0 for no rows; hasNext iff page < totalPages; hasPrev iff page > 1 |
| ApiUtils.HasNextIffRowsRemain | backend/src/lib/utils.ts:48-54 | for a positive limit and page >= 1, hasNext holds iff some row lies beyond the first page*limit rows |
| ApiUtils.CheckOwnership | backend/src/lib/utils.ts:105-110 | true exactly when the two ids are the same string, in either order, so it agrees with the update and delete handlers' `createdBy` comparison |
| ApiUtils.IsFutureDate | backend/src/lib/utils.ts:79-81 | true exactly when the date is strictly later than now; a date equal to now is not in the future |
| ApiUtils.IsValidImageType | backend/src/lib/utils.ts:59-62 | true exactly for image/jpeg, image/png, image/webp and image/gif |
| ApiUtils.LastSegment | backend/src/lib/utils.ts:69 | the result contains no '.', is a suffix of the name, and is preceded by '.' unless it is the whole name |
| ApiUtils.Extension | backend/src/lib/utils.ts:69 | never empty and dot-free; the last segment when that is non-empty, otherwise "jpg" |
| ApiUtils.GenerateSafeFilename | backend/src/lib/utils.ts:65-72 | ends with "." + Extension(name); with a non-empty prefix starts with prefix + "_" |
| ApiUtils.NoDotKeepsWholeName | backend/src/lib/utils.ts:69 | a non-empty name without '.' is itself the extension |
| ApiUtils.TrailingDotGivesJpg | backend/src/lib/utils.ts:69 | a name ending in '.' gets the "jpg" extension |
| ApiUtils.ExtractBearerToken | backend/src/lib/utils.ts:93-98 | a token exactly when the header starts with "Bearer ", and then header == "Bearer " + token |
| ApiUtils.BearerRoundTrip | backend/src/lib/utils.ts:93-98 | extracting from "Bearer " + t gives back t |
| Validation.RegisterIssues | backend/src/lib/validation.ts:5-12 | no field fails iff password length is in [8, 100] and a given name has length >= 2; "password" fails iff its length is outside [8, 100] |
| Validation.LoginIssues | backend/src/lib/validation.ts:14-17 | no field fails iff the password is non-empty |
| Validation.CreateIssues | backend/src/lib/validation.ts:20-32 | no field fails iff title length is in [3, 200], a given description is <= 2000, a given location <= 300, a given cap > 0; "title" and "maxAttendees" fail exactly on their own bound |
| Validation.UpdateIssues | backend/src/lib/validation.ts:34-40 | no field fails iff every supplied field meets its bound; "title" fails iff a supplied title is out of [3, 200] |
| Validation.UpdateBoundsMatchCreate | backend/src/lib/validation.ts:20-40 | an update supplying every field of a create request is valid iff the create request is; leaving the title out is always allowed |
| Validation.ParseQuery | backend/src/lib/validation.ts:43-48 | accepted iff a given sort is in {date, created, title} and a given order in {asc, desc}; a given page, limit, sort and order are kept, and absent ones default to "1", "10", "date", "asc" |
| Validation.EmptyQueryDefaults | backend/src/lib/validation.ts:43-48 | an empty query parses to page "1", limit "10", sort "date", order "asc" |
| R2.PrepareUpload | backend/src/lib/r2.ts:9-47 | a bad type fails with the type message whatever the size; a good type over 5 MiB fails with the size message; it succeeds iff neither; url == "https://images.yourdomain.com/" + key, and key starts with folder + "/" + folder + "_" |
| R2.SizeLimitInclusive | backend/src/lib/r2.ts:20-23 | exactly 5*1024*1024 bytes is accepted, one more byte is rejected |
| R2.Pathname | backend/src/lib/r2.ts:85-87 | a parsed pathname starts with '/' and holds no '?' or '#' |
| R2.ExtractR2Key | backend/src/lib/r2.ts:83-91 | a key exactly when the URL parses, and then the pathname is "/" + key |
| R2.KeyRoundTrip | backend/src/lib/r2.ts:83-88 | for a key of URL-safe characters with no "." or ".." segment, extracting from the public URL gives back the key |
| R2.UploadRoundTrip | backend/src/lib/r2.ts:26-41 | for a URL-safe folder without dot segments, a nanoid random part and a URL-safe extension, the URL of a successful upload gives back its key |
| R2.HashKeyNotRecoverable | backend/src/lib/r2.ts:83-88 | no URL yields a key containing '#' |
| R2.HashInExtensionBreaksRoundTrip | backend/src/lib/r2.ts:26-41 | the upload of "a.j#g" gets a key that its own URL does not give back |
| R2.NoSchemeIsNull | backend/src/lib/r2.ts:88-90 | a URL without ':' gives null |
| FrontendUtils.ValidateImageFile | frontend/lib/utils.ts:35-48 | valid iff no error; a bad type reports the type error even when oversize; a good type over 5 MiB reports the size error; valid iff the type is whitelisted and size <= 5 MiB |
| FrontendUtils.ClientMatchesServer | frontend/lib/utils.ts:36-47 | the client accepts a file exactly when the server's upload does |
| FrontendUtils.SliceTo | frontend/lib/utils.ts:53 | JavaScript slice(0, end): the first end characters; the whole string when end reaches past it; for a negative end, all but the last -end characters (nothing when -end exceeds the length); always a prefix |
| FrontendUtils.Truncate | frontend/lib/utils.ts:51-54 | unchanged when it fits; for 0 <= length < |s| the first length characters + "...", of length length + 3; for a negative length, s without its last -length characters (nothing when -length exceeds the length) followed by "..." |
| FrontendUtils.Capitalize | frontend/lib/utils.ts:56-58 | same length; first character upper-cased, the rest unchanged; "" stays "" |
| FrontendUtils.CapitalizeIdempotent | frontend/lib/utils.ts:56-58 | capitalizing twice is capitalizing once |
| Schema.CountAfterInsert | backend/src/routes/attendees.ts:68-77 | inserting under a fresh key raises the count of its own event by one and no other event's count |
| Schema.CountAfterRemovePair | backend/src/routes/attendees.ts:114-118 | with unique pairs, leaving lowers the event's count by one; every other event keeps its rows |
| Schema.HasCap | backend/src/routes/attendees.ts:55 | JavaScript truthiness of maxAttendees: null and 0 mean no cap, any other number, negative included, is a cap |
| Schema.JoinKeepsConsistent | backend/src/routes/attendees.ts:42-77 | an insert that passed the creator and duplicate guards keeps keys, references, unique pairs and no-creator-attending |
| Schema.LeaveKeepsConsistent | backend/src/routes/attendees.ts:114-118 | removing a pair's rows keeps every constraint |
| Schema.InsertKeepsCapacity | backend/src/routes/attendees.ts:55-77 | an insert the capacity guard let through keeps every event within its cap |
| Schema.CreateKeepsConsistent | backend/src/routes/events.ts:161-174 | a new event under a fresh key with a stored creator keeps every constraint |
| Schema.EditKeepsConsistent | backend/src/routes/events.ts:231-240 | rewriting an event that keeps its key and creator keeps every constraint |
| Schema.DeleteEvent | backend/src/db/schema.ts:39-41 | the event is gone, exactly the attendee rows of other events remain, unchanged, and users and sessions are untouched |
| Schema.DeleteUser | backend/src/db/schema.ts:23-51 | the user is gone; exactly the events of other creators, the sessions of other users, and the attendee rows that are neither the user's nor of the user's events remain, unchanged |
| Schema.DeleteEventKeepsConsistent | backend/src/db/schema.ts:39-41 | the cascading event delete keeps every constraint |
| Schema.DeleteEventCascades | backend/src/db/schema.ts:39-41 | after the delete the event is gone with no attendee rows, and every other event keeps all its rows |
| Schema.DeleteUserKeepsIntegrity | backend/src/db/schema.ts:23-51 | the cascading user delete leaves no dangling reference |
| Schema.DeleteUserCascades | backend/src/db/schema.ts:23-51 | after the delete no event, attendee row or session refers to the user |
| EventQueries.ColumnOf | backend/src/routes/events.ts:39-44 | 'title' sorts by title, 'created' by createdAt, anything else by date |
| EventQueries.DirectionOf | backend/src/routes/events.ts:45 | descending exactly for 'desc' |
| EventQueries.Sort | backend/src/routes/events.ts:70 | sorted by the column and direction, and a permutation of the scan |
| EventQueries.Window | backend/src/routes/events.ts:71-72 | rows[offset..min(offset+limit, n)] inside the rows, including a partial last window; a negative offset counts as 0 and a negative limit as no limit; empty past the end; never more than a non-negative limit |
| EventQueries.Listing | backend/src/routes/events.ts:34-87 | for a scan of the tables: the page is sorted, drawn from the scan, each row a stored event with its attendee count, at most limit long; the metadata is Meta(number of stored events, page, limit) |
| EventQueries.ListEvents | backend/src/routes/events.ts:29-92 | a query the schema rejects is a 400; otherwise a 200 with the listing |
| EventQueries.EveryRowOnItsPage | backend/src/routes/events.ts:36-72 | with a positive limit, row i of the sorted events is row i mod limit of page i / limit + 1 |
| EventQueries.OwnedBy | backend/src/routes/events.ts:316 | exactly the rows whose creator is the user |
| EventQueries.CreatedBy | backend/src/routes/events.ts:302-319 | for a scan of the tables: exactly the caller's stored events, each with its count and every one of them present exactly once (a sub-multiset of the scan), sorted by createdAt descending |
| EventRules.OrNull | backend/src/routes/events.ts:166-168 | null exactly for an absent or empty string, otherwise the string |
| EventRules.OrNullNumber | backend/src/routes/events.ts:169 | null exactly for an absent or zero cap, otherwise the cap |
| EventRules.NewEvent | backend/src/routes/events.ts:161-174 | the caller is the creator, no banner, empty description and location and a 0/absent cap stored as null, timestamps now |
| EventRules.NewEventCapPositive | backend/src/routes/events.ts:169 | a valid create request never stores a cap <= 0 |
| EventRules.ApplyPatch | backend/src/routes/events.ts:231-240 | supplied fields overwrite, the rest stay; id, creator, createdAt and banner are kept; updatedAt is now |
| EventRules.EmptyPatchOnlyTouches | backend/src/routes/events.ts:233-237 | an empty update only moves updatedAt |
| EventRules.PatchCanBreakCapacity | backend/src/routes/events.ts:223-240 | a valid update can lower the cap below the attendee count, so capacity is not an update invariant |
| EventRules.ApplyRawBody | backend/src/routes/events.ts:200-237 | the row as written from the spread body: a body's createdBy is written; without it the row is exactly ApplyPatch's; apart from the creator it always is |
| EventRules.RawBodyReassignsCreator | backend/src/routes/events.ts:200-237 | a body that passes the update schema but carries createdBy hands the event to another user when spread; the schema's fields alone keep the creator |
| Store.Unauthorized | backend/src/middleware/auth.ts:15-27 | a 401 with "No session found" or "Invalid session" |
| Store.BannerKey | backend/src/routes/upload.ts:51-53 | a key exactly when the URL is set and parses to a non-empty key, and then that key |
| Store.NewBannerStored | backend/src/routes/upload.ts:63-71 | a freshly uploaded banner with a nanoid random part and a URL-safe extension is found in the bucket from the event's URL |
| Store.UploadGuard | backend/src/routes/upload.ts:15-48 | 401, then 404, then 403, then no-file 400, in that order; passes exactly for the owner of a stored event with a file |
| Store.DeleteBannerGuard | backend/src/routes/upload.ts:90-118 | 401, then 404, then 403, then no-banner 400, in that order; passes exactly for the owner of a stored event whose banner URL is set |
| Store.EventHub.Join | backend/src/routes/attendees.ts:12-87 | 401, then 404, then creator 400, then already-joined 400, then full 400, then an id clash 500; when every guard passes it returns 201; any failure leaves attendees unchanged; success adds exactly one row for (user, event), raises the count by one, and keeps every event within its cap and the invariant |
| Store.EventHub.Leave | backend/src/routes/attendees.ts:90-125 | 401, then 400 without a record, with no event lookup; with a record it returns 200; a failure changes nothing; success removes exactly the pair's rows and lowers the count by one |
| Store.EventHub.ListAttendees | backend/src/routes/attendees.ts:128-165 | 404 for a missing event; otherwise exactly the event's attendee rows |
| Store.EventHub.JoinedEvents | backend/src/routes/attendees.ts:168-202 | 401, or a 200 whose entries are exactly the caller's attendee rows, each as its stored event with that row's join time |
| Store.EventHub.GetEvent | backend/src/routes/events.ts:95-134 | 404 for a missing event; otherwise the event with its attendee count |
| Store.EventHub.CreateEvent | backend/src/routes/events.ts:137-185 | 401, then schema 400, then past-date 400, then id clash 500, with nothing written; every guard passing gives 201; success inserts NewEvent under a fresh id and keeps the invariant |
| Store.EventHub.UpdateEvent | backend/src/routes/events.ts:188-250 | 401, schema 400, 404, 403, past-date 400 in that order, with nothing written; every guard passing gives 200; success writes ApplyPatch of the owner's event and keeps the invariant |
| Store.EventHub.DeleteEvent | backend/src/routes/events.ts:253-290 | 401, 404, 403 in the order of update, with nothing written; the owner of an existing event gets 200; success is the cascading delete of the event, leaving it with no attendee rows |
| Store.EventHub.UploadBannerAsWritten | backend/src/routes/upload.ts:13-84 | 401, 404, 403, no-file 400 with nothing changed; a rejected file is a 500 after the old banner's object is already gone, so the event points at a missing object; success sets only the banner URL |
| Store.EventHub.UploadBanner | backend/src/routes/upload.ts:13-84 | the same guards; every failure changes nothing; success sets only the banner URL, swaps the old object for the new one even when the old delete fails, and, for a nanoid random part and a URL-safe extension, leaves the banner the event names stored |
| Store.EventHub.DeleteBanner | backend/src/routes/upload.ts:87-141 | 401, 404, 403, no-banner 400, failed object delete 500, each with nothing changed; success removes the object and sets only the banner URL to null |

## Left out

- Authentication: password hashing, Lucia sessions, the register/login/logout routes and the cookie handling are foreign libraries. Callers arrive as `Auth`. Join and Create assume the middleware's promise that an authenticated id names a stored user.
- The in-handler `!user` check after the middleware is unreachable and is folded into the middleware's 401.
- The check-then-insert race of join and registration: the model is sequential.
- The bucket calls (`put`, `delete`, `get`, `head`, `list`) are a set of keys. A failed `put`, `listR2Files`, `getFileMetadata`, `fileExistsInR2` and `generatePresignedUrl` (which only throws) are not modelled.
- `parseInt` of the page and limit strings: the list query takes the parsed integers, and `NaN` from a non-numeric string is not modelled.
- The e-mail and ISO date-time format checks of the schemas are library behaviour. Dates are already timestamps and e-mails are any string.
- Lengths count code points, while JavaScript counts UTF-16 units.
- FrontendUtils.Capitalize: `toUpperCase` covers ASCII letters only, so a character such as "ß" is kept where JavaScript gives "SS".
- R2.ExtractR2Key: models the `URL` parser only for `scheme://host/path` with a letters-only scheme. There is no percent-encoding, no ports or credentials, and no removal of "." and ".." segments.
- R2.Pathname: the same limits as `R2.ExtractR2Key`; the pathname of other URL shapes is not modelled.
- R2.KeyRoundTrip: proved only for keys that need no percent-encoding and have no "." or ".." segment, the keys on which the modelled parser agrees with the real one.
- R2.UploadRoundTrip: proved only for a URL-safe folder without "." or ".." segments, a random part from nanoid's alphabet and a URL-safe extension; the handlers use the folder "events".
- EventRules.ApplyRawBody: of the undeclared columns a body can carry, only `createdBy` is modelled; `id`, `createdAt` and `bannerUrl` are written by the same spread.
- No `EventHub` method builds the scan the list queries read: `EventQueries.ScanOf` states what it must be, and the queries require it.
- EventQueries.Sort: rows with equal keys keep scan order, whereas SQL leaves their order unspecified.
- Store.EventHub.ListAttendees and Store.EventHub.JoinedEvents return the attendee and event rows. The left-joined user and creator columns of the responses are not modelled. The same holds for the creator columns of the list queries.
- Store.EventHub.ListAttendees, Store.EventHub.JoinedEvents and EventQueries.CreatedBy: the model's responses carry every column of the stored rows, while the source's queries select only some of them, so the modelled responses hold columns the real ones do not.
- `Schema.DeleteUser` models the cascade rule only: no route deletes a user. E-mail uniqueness is part of the invariant, but no modelled operation inserts a user.
- `sanitizeUser`, `formatDate`, `getCorsHeaders`, `delay`, the CORS middleware, the toast hook, the date-fns and `Intl` helpers, the frontend UI and the type-only files have no bearing on the store.
- Errors thrown by the database other than a primary-key clash (connection loss and the like) are not modelled. The 500 branches hold only the clash.

## Findings

| source | as written | input that shows it | evidently intended | confidence | as-written member | corrected member |
|---|---|---|---|---|---|---|
| backend/src/routes/events.ts:200-237 | the update handler re-reads the raw JSON body and spreads it into the row, so keys the schema passes through but does not declare are written too | the owner sends `{"createdBy": "<other user id>"}`; it passes the update schema and the event changes owner | only the schema's fields (title, description, date, location, maxAttendees) are written | medium, not executed | EventRules.ApplyRawBody, EventRules.RawBodyReassignsCreator | EventRules.ApplyPatch |
| backend/src/routes/upload.ts:51-63 | the old banner's object is deleted before `uploadToR2` checks the new file's type and size | an event with a stored banner, and an upload of a `text/plain` file: the reply is 500, the object is gone and `bannerUrl` still points at it | check the new file first, so a rejected upload changes nothing | medium, not executed | Store.EventHub.UploadBannerAsWritten | Store.EventHub.UploadBanner |
