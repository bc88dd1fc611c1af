# RADICAL DESIGN admin core in Dafny

RADICAL DESIGN is a marketing site for a printing business. Behind it sits an admin panel:
contact messages, gallery images, services, site settings and "about" text kept in JSON files,
a password login with an in-memory session registry, and a password reset by one-time code
(OTP) sent by email. This project models the server's data store (`server/db.ts`), the admin
and contact handlers (`server/routes/admin.ts`, `server/routes/contact.ts`) and the small pure
helpers of five client pages, and proves what they promise.

Layout, one module per file:

- `wrappers.dfy` (`Wrappers`): `Option`, the handler reply `Reply` (a JSON body, or an HTTP
  status with its error text), and JavaScript truthiness and `||` on optional strings.
- `lists.dfy` (`Lists`): the array methods the source uses (`filter`, `find`, `map`,
  `reverse`, `slice(-n)`) as recursive functions, with the subsequence order and counting lemmas.
- `text.dfy` (`Text`): ASCII `toLowerCase`, `includes`, the `\s` and `\d` classes, and the
  decimal text of a number.
- `records.dfy` (`Records`): the stored records, their defaults, the 10-minute and 1-hour
  lifetimes, and object spread / `Object.assign` on them.
- `collections.dfy` (`Collections`): delete by id, change the first record with an id, and the
  message search.
- `otps.dfy` (`Otps`): the OTP state machine and the legacy reset tokens, as functions on the
  stored list, with its invariants.
- `db.dfy` (`Db`): `class Database`, one field per JSON file. Each mutator method states the
  new contents of exactly the field it changes.
- `admin.dfy` (`AdminRoutes`): `class AdminApi` (the session registry beside the store) and the
  handlers' guard sequences.
- `contact.dfy` (`ContactRoute`): the contact form's checks and its one append.
- `messages_page.dfy`, `gallery_page.dfy`, `verify_otp_page.dfy`, `settings_page.dfy`,
  `reset_password_page.dfy`: the client helpers.

Modelling choices:

- Time is a parameter `now`, in milliseconds. The same goes for record ids, session ids,
  reset tokens and the drawn OTP number (`100000 <= code <= 999999`, the range of
  `generateOTPCode`).
- A JSON body field is an `Option`: absent is `None`. JavaScript truthiness of a string field
  is `Truthy`, under which absent and `""` are both false.
- The store never checks that an id is new, so the add methods accept any id. Lemmas that need
  a fresh id, such as `AppendFreshThenFindAndRemove`, take freshness as a hypothesis.
- The OTP attempt counter does less than its comments suggest. The handler comments the step
  as "Increment attempt counter" (server/routes/admin.ts:300), and the store's check refuses
  "Too many attempts" at five (server/db.ts:377). But a failed verification calls
  `incrementOTPAttempts(email, suppliedCode)`, and that changes only a record carrying the
  supplied code. So a wrong code changes nothing (`WrongCodeChangesNothing`). A count above
  zero only appears after the real code was re-presented when it was already used or expired
  (`AttemptsOnlyAfterRejection`). Under the handlers, the `attempts < 5` test therefore never
  decides a verification
  (`AttemptCeilingNeverDecides`).

## Model

| member | source | states |
|---|---|---|
| `Db.Database.constructor` | RADICAL_DESIGN/server/db.ts:83-90 | a directory with no files reads as empty lists in every collection |
| `Db.Database.AddMessage` | RADICAL_DESIGN/server/db.ts:100-111 | exactly one message is appended at the end, carrying the supplied fields, the given id and time and `read = false`; earlier messages are unchanged |
| `Db.Database.DeleteMessage` | RADICAL_DESIGN/server/db.ts:113-117 | the stored messages become the id-removal of the old list |
| `Db.Database.MarkMessageAsRead` | RADICAL_DESIGN/server/db.ts:119-126 | the stored messages become the old list with the first message of that id re-flagged |
| `Db.Database.SearchStoredMessages` | RADICAL_DESIGN/server/db.ts:128-135 | an order-preserving subsequence of the stored messages that match the query, as many as the matching positions |
| `Db.Database.AddGalleryImage` | RADICAL_DESIGN/server/db.ts:140-150 | exactly one image is appended at the end with the supplied fields, the given id and time |
| `Db.Database.DeleteGalleryImage` | RADICAL_DESIGN/server/db.ts:152-156 | the stored images become the id-removal of the old list |
| `Db.Database.UpdateGalleryImage` | RADICAL_DESIGN/server/db.ts:158-166 | the first image with the id is patched and returned; with no such image nothing changes and the result is None |
| `Db.Database.AddService` | RADICAL_DESIGN/server/db.ts:171-181 | exactly one service is appended at the end with the supplied fields, the given id and time |
| `Db.Database.DeleteService` | RADICAL_DESIGN/server/db.ts:183-187 | the stored services become the id-removal of the old list |
| `Db.Database.UpdateService` | RADICAL_DESIGN/server/db.ts:189-197 | the first service with the id is patched and returned; with no such service nothing changes and the result is None |
| `Db.Database.GetSettings` | RADICAL_DESIGN/server/db.ts:207-210 | the stored settings record, or the default settings when none is stored |
| `Db.Database.UpdateSettings` | RADICAL_DESIGN/server/db.ts:207-217 | the result is the current settings (the default when none are stored) overridden by the supplied keys, stored as the only record, and a later get returns it |
| `Db.Database.GetAboutContent` | RADICAL_DESIGN/server/db.ts:243-246 | the stored about content, or the default when none is stored |
| `Db.Database.UpdateAboutContent` | RADICAL_DESIGN/server/db.ts:243-253 | the same for the about content, starting from the default text when none is stored |
| `Db.Database.GetAdminCredentials` | RADICAL_DESIGN/server/db.ts:312-315 | the stored credentials, or the default password and address when none are stored |
| `Db.Database.UpdateAdminPassword` | RADICAL_DESIGN/server/db.ts:312-322 | the stored password becomes the new one, the email is kept, and a later get returns the pair |
| `Db.Database.UpdateAdminEmail` | RADICAL_DESIGN/server/db.ts:324-329 | the stored email becomes the new one and the password is kept |
| `Db.Database.CreatePasswordResetToken` | RADICAL_DESIGN/server/db.ts:256-272 | appends an unused token valid for one hour and returns it |
| `Db.Database.VerifyPasswordResetToken` | RADICAL_DESIGN/server/db.ts:274-283 | true exactly when the first stored record with the token is unused and unexpired |
| `Db.Database.UsePasswordResetToken` | RADICAL_DESIGN/server/db.ts:285-295 | the stored tokens have the first record with the token marked used; the result is None exactly when no record has the token, and otherwise that first record, now marked used |
| `Db.Database.DeleteExpired` | RADICAL_DESIGN/server/db.ts:297-304 | the stored tokens become those expiring strictly after now |
| `Db.Database.CreatePasswordResetOTP` | RADICAL_DESIGN/server/db.ts:342-365 | the returned code is six decimal digits, and the stored codes become the issue of that code for the email |
| `Db.Database.VerifyPasswordResetOTP` | RADICAL_DESIGN/server/db.ts:370-380 | true exactly when the first stored record for (email, code) exists and is unused, unexpired and under five attempts |
| `Db.Database.MarkOTPAsVerified` | RADICAL_DESIGN/server/db.ts:385-393 | the stored codes become the mark-verified of the old list |
| `Db.Database.IncrementOTPAttempts` | RADICAL_DESIGN/server/db.ts:398-406 | the stored codes become the attempt increment of the old list |
| `Db.Database.GetVerifiedOTP` | RADICAL_DESIGN/server/db.ts:411-419 | the first stored verified record of the email unless it has expired; None when the email has none |
| `Db.Database.ClearVerifiedOTP` | RADICAL_DESIGN/server/db.ts:424-428 | the stored codes become the old list without the email's verified records |
| `Collections.RemoveById` | RADICAL_DESIGN/server/db.ts:113-117 | an order-preserving subsequence with no record of the id, as long as the number of positions without the id, so exactly the other records with their repeats; an absent id leaves the list unchanged |
| `Collections.RemoveByIdIdempotent` | RADICAL_DESIGN/server/db.ts:152-156 | deleting an id twice is deleting it once |
| `Collections.AppendFreshThenFindAndRemove` | RADICAL_DESIGN/server/db.ts:183-187 | a record appended under an unused id is what a lookup of the id finds, and deleting the id restores the list before the append |
| `Collections.FindById` | RADICAL_DESIGN/server/db.ts:160 | None exactly when no record has the id; otherwise the first record with it |
| `Collections.UpdateFirstById` | RADICAL_DESIGN/server/db.ts:189-197 | only the first record with the id changes, and without one nothing changes |
| `Collections.MarkRead` | RADICAL_DESIGN/server/db.ts:119-126 | only the `read` flag of the first message with the id changes; every other message and field is kept |
| `Collections.PatchImageById` | RADICAL_DESIGN/server/db.ts:158-166 | only the first image with the id changes, by exactly the supplied keys |
| `Collections.PatchServiceById` | RADICAL_DESIGN/server/db.ts:189-197 | only the first service with the id changes, by exactly the supplied keys |
| `Collections.SearchMessages` | RADICAL_DESIGN/server/db.ts:128-135 | an order-preserving subsequence of matching messages (lowercased name, email or body contains the lowercased query), as long as the number of matching positions, so exactly the matches; the empty query returns every message |
| `Collections.Current` | RADICAL_DESIGN/server/db.ts:207-210 | a singleton file's first record, or the default when the file holds none |
| `Text.ToLower` | RADICAL_DESIGN/server/db.ts:131-133 | same length, each character lowercased, letters A to Z mapped into a to z and every other character kept |
| `Text.Decimal` | RADICAL_DESIGN/server/db.ts:335-337 | `toString()` of a natural number: at least one decimal digit, no leading zero unless the number is 0, and the digits denote the number |
| `Text.SixDigitDecimal` | RADICAL_DESIGN/server/db.ts:335-337 | a number in 100000..999999 prints as exactly six decimal digits |
| `Otps.IssueOtp` | RADICAL_DESIGN/server/db.ts:342-365 | the new record (unverified, no attempts, expiring ten minutes after now) is last and is the only one for the email; before it, an order-preserving subsequence of the old list as long as the number of other-email positions, so exactly the other emails' records |
| `Otps.IssuedCodeVerifies` | RADICAL_DESIGN/server/db.ts:350-358 | a freshly issued code verifies for its email until it expires |
| `Otps.SupersededCodeNeverVerifies` | RADICAL_DESIGN/server/db.ts:346 | after reissue, any other code for the email never verifies |
| `Otps.IssueKeepsOtherEmails` | RADICAL_DESIGN/server/db.ts:345-347 | every record of another email survives an issue |
| `Otps.OnePerEmailPreserved` | RADICAL_DESIGN/server/db.ts:342-428 | issue, a verification step and the clear each keep at most one record per email |
| `Otps.VerifyOtp` | RADICAL_DESIGN/server/db.ts:370-380 | true exactly when the first record for (email, code) exists, is unverified, is not expired (`!(expiresAt < now)`) and has fewer than five attempts |
| `Otps.VerifyAnyMatch` | RADICAL_DESIGN/server/db.ts:372-379 | with one record per email, verification holds exactly when some matching record is usable |
| `Otps.UpdateFirstFor` | RADICAL_DESIGN/server/db.ts:385-406 | only the first record for (email, code) changes; without one nothing changes |
| `Otps.MarkVerified` | RADICAL_DESIGN/server/db.ts:385-393 | only the first record for (email, code) becomes verified; without one nothing changes |
| `Otps.IncrementAttempts` | RADICAL_DESIGN/server/db.ts:398-406 | only the first record carrying the supplied code gains one attempt; without one nothing changes |
| `Otps.VerifyStep` | RADICAL_DESIGN/server/routes/admin.ts:297-306 | only the first record for (email, code) changes: it becomes verified when it is usable, and otherwise gains one attempt; with no such record nothing changes |
| `Otps.WrongCodeChangesNothing` | RADICAL_DESIGN/server/routes/admin.ts:297-302 | a verification step with a code no record carries leaves the store unchanged |
| `Otps.VerifiesAtMostOnce` | RADICAL_DESIGN/server/routes/admin.ts:297-306 | after one verification step for (email, code), that pair never verifies again at the same or a later time |
| `Otps.FirstForUnique` | RADICAL_DESIGN/server/db.ts:372 | the first match is unique |
| `Otps.InvariantLater` | RADICAL_DESIGN/server/db.ts:377 | the attempts invariant survives the passage of time |
| `Otps.IssuePreservesInvariant` | RADICAL_DESIGN/server/db.ts:342-365 | issuing keeps "a positive count only on used or expired records" |
| `Otps.VerifyStepPreservesInvariant` | RADICAL_DESIGN/server/routes/admin.ts:297-306 | the handler's verify-or-increment step keeps the same invariant |
| `Otps.ClearPreservesInvariant` | RADICAL_DESIGN/server/db.ts:424-428 | clearing keeps it |
| `Otps.AttemptCeilingNeverDecides` | RADICAL_DESIGN/server/db.ts:378 | under the invariant, verification holds exactly when the first match is unused and unexpired |
| `Otps.SubsequenceOnePerEmail` | RADICAL_DESIGN/server/db.ts:346 | dropping records keeps at most one per email |
| `Otps.VerifiedOtp` | RADICAL_DESIGN/server/db.ts:411-419 | for the first verified record of the email: that record when it has not expired, None when it has; None when the email has no verified record; any result is a stored, verified, unexpired record of the email |
| `Otps.ClearVerified` | RADICAL_DESIGN/server/db.ts:424-428 | an order-preserving subsequence without the email's verified records, as long as the number of other positions, so exactly every other record |
| `Otps.ResetConsumesVerification` | RADICAL_DESIGN/server/routes/admin.ts:338-347 | after the clear, the verified-code lookup for the email finds nothing, so a second reset is refused |
| `Otps.VerifiedCodeAllowsReset` | RADICAL_DESIGN/server/routes/admin.ts:297-341 | issue then verify makes the verified record available to the reset step until the code expires |
| `Otps.IssueToken` | RADICAL_DESIGN/server/db.ts:262-270 | one record more, the old records unchanged in front, and the new last record carries the token, is unused, is created now and expires one hour later |
| `Otps.VerifyToken` | RADICAL_DESIGN/server/db.ts:274-283 | true exactly when the first record with the token is unused and unexpired |
| `Otps.UseToken` | RADICAL_DESIGN/server/db.ts:286-292 | only the first record with the token becomes used; without one nothing changes |
| `Otps.DeleteExpiredTokens` | RADICAL_DESIGN/server/db.ts:299-302 | an order-preserving subsequence of tokens expiring strictly after now, as long as the number of such positions, so exactly those tokens |
| `Otps.TokenLifecycle` | RADICAL_DESIGN/server/db.ts:256-295 | a fresh token verifies until it expires and never verifies once used |
| `AdminRoutes.AdminApi.constructor` | RADICAL_DESIGN/server/routes/admin.ts:36 | the session registry starts empty, beside the given store |
| `AdminRoutes.AdminApi.AdminLogin` | RADICAL_DESIGN/server/routes/admin.ts:38-49 | the stored password registers the session id and returns it; anything else is 401 "Invalid password" with the registry unchanged |
| `AdminRoutes.AdminApi.AdminLogout` | RADICAL_DESIGN/server/routes/admin.ts:51-55 | removes exactly the key the body's session id names and nothing else; an absent id is the property key "undefined" |
| `AdminRoutes.VerifyAdmin` | RADICAL_DESIGN/server/routes/admin.ts:57-65 | as written: the header passes when it is non-empty and reading it from the registry object is truthy, inherited properties included; otherwise 401 "Unauthorized" |
| `AdminRoutes.VerifyAdminOwnKeys` | RADICAL_DESIGN/server/routes/admin.ts:57-65 | corrected: the header passes exactly when it is a registered, non-empty session id |
| `AdminRoutes.InheritedNameBypassesVerifyAdmin` | RADICAL_DESIGN/server/routes/admin.ts:36 | with an empty registry, the header "constructor" passes the as-written check and fails the corrected one |
| `AdminRoutes.SessionLifecycle` | RADICAL_DESIGN/server/routes/admin.ts:44-60 | under the corrected check `VerifyAdminOwnKeys`: login makes an id admissible, logout makes it inadmissible, and neither changes any other header's admission |
| `AdminRoutes.LogoutAsWritten` | RADICAL_DESIGN/server/routes/admin.ts:53-60 | as written, a logged-out id is still admitted exactly when it is an inherited property name |
| `AdminRoutes.DashboardStatsOf` | RADICAL_DESIGN/server/routes/admin.ts:68-81 | the totals are the list lengths, the unread count is the number of unread positions, and the recent activity is the last min(5, n) messages newest first |
| `AdminRoutes.ContactMessagesReply` | RADICAL_DESIGN/server/routes/admin.ts:84-88 | newest first in both cases: with a truthy query, the search result reversed position by position, so exactly the matching messages; otherwise all messages in reverse stored order |
| `AdminRoutes.VisibleServices` | RADICAL_DESIGN/server/routes/admin.ts:146-150 | an order-preserving subsequence of visible services, as long as the number of visible positions, so exactly the visible services |
| `AdminRoutes.AdminApi.CreateGalleryImage` | RADICAL_DESIGN/server/routes/admin.ts:109-123 | a missing title, category or URL gives 400 and stores nothing; otherwise one image is appended and returned, visible unless `visible` was given |
| `AdminRoutes.AdminApi.CreateService` | RADICAL_DESIGN/server/routes/admin.ts:152-167 | the same with name, description, category and URL required |
| `AdminRoutes.AdminApi.UpdateSettingsHandler` | RADICAL_DESIGN/server/routes/admin.ts:189-199 | a truthy `password` gives 400 with settings unchanged; otherwise the merged settings are stored as the only settings record and returned |
| `AdminRoutes.AdminApi.ChangeAdminPassword` | RADICAL_DESIGN/server/routes/admin.ts:201-221 | a wrong current password gives 401, then a missing or short new password gives 400, both with the credentials unchanged; otherwise the stored credentials become the one record with the new password and the old email |
| `AdminRoutes.AdminApi.RequestPasswordReset` | RADICAL_DESIGN/server/routes/admin.ts:236-278 | with no address at all, 400 with nothing stored; otherwise the store issues the code for the body's email or the admin's, the reply succeeds, and it carries the code exactly outside production |
| `AdminRoutes.AdminApi.VerifyOtpHandler` | RADICAL_DESIGN/server/routes/admin.ts:281-316 | a missing code gives 400 and so does a missing address, both with the store unchanged; otherwise the store takes the verify-or-increment step and the reply is success exactly when the code verified, else 401 |
| `AdminRoutes.AdminApi.ResetPassword` | RADICAL_DESIGN/server/routes/admin.ts:318-354 | as written: the guards in order (missing, short, no address, no verified code), each leaving the store unchanged; on success the password changes and the address's verified code is cleared |
| `AdminRoutes.AdminApi.ResetPasswordForAdminEmail` | RADICAL_DESIGN/server/routes/admin.ts:318-354 | corrected: the password changes only if the admin's own address holds a verified, unexpired code, and it then always does |
| `AdminRoutes.AdminApi.RequestAndVerify` | RADICAL_DESIGN/server/routes/admin.ts:236-316 | in production, requesting a code and submitting the mailed code succeeds and leaves the verified record in the store |
| `AdminRoutes.AdminApi.ForgotPasswordFlow` | RADICAL_DESIGN/server/routes/admin.ts:318-354 | request, verify and reset with the mailed code succeed for any non-empty address, change the admin password, and consume the code |
| `AdminRoutes.ForeignMailboxUnlocksReset` | RADICAL_DESIGN/server/routes/admin.ts:331-341 | a code issued to and verified by an address other than the admin's is exactly what the as-written reset accepts |
| `ContactRoute.EmailPatternCharacterised` | RADICAL_DESIGN/server/routes/contact.ts:13 | the pattern accepts exactly the addresses with no whitespace, one '@' with text before it, and a '.' after it with text on both sides |
| `ContactRoute.EmailAcceptsAdminAddress` | RADICAL_DESIGN/server/routes/contact.ts:13-14 | the stored admin address matches the pattern |
| `ContactRoute.EmailRefusesMissingDot` | RADICAL_DESIGN/server/routes/contact.ts:13-14 | an address with no '.' after the '@' does not match |
| `ContactRoute.EmailRefusesSecondAtSign` | RADICAL_DESIGN/server/routes/contact.ts:13-14 | an address with a second '@' does not match |
| `ContactRoute.ContactError` | RADICAL_DESIGN/server/routes/contact.ts:8-16 | "All fields are required" exactly when a field is missing or empty, checked first; "Invalid email format" exactly when all are present and the address is not well formed |
| `ContactRoute.SubmitContactForm` | RADICAL_DESIGN/server/routes/contact.ts:4-28 | a refused body gives 400 with the messages unchanged; an accepted one appends exactly one unread message, and the reply's id is the stored message's |
| `MessagesPage.StatusFiltered` | RADICAL_DESIGN/client/pages/admin/Messages.tsx:101-106 | an order-preserving subsequence of messages passing the status ("unread": not read, "read": read, "all": any), as long as the number of passing positions, so exactly those messages |
| `MessagesPage.ApplyFilters` | RADICAL_DESIGN/client/pages/admin/Messages.tsx:94-121 | an order-preserving subsequence of messages that pass the status filter and, for a non-empty query, contain it in their lowercased name, email, subject or body; as long as the number of such positions, so exactly those messages; "all" with no query is the identity |
| `MessagesPage.SearchAfterStatusCount` | RADICAL_DESIGN/client/pages/admin/Messages.tsx:108-118 | searching the status-filtered list keeps as many messages as there are positions passing both filters |
| `MessagesPage.ToggleRead` | RADICAL_DESIGN/client/pages/admin/Messages.tsx:141-143 | only messages with the clicked id have `read` flipped; the others are unchanged |
| `MessagesPage.ToggleTwiceRestores` | RADICAL_DESIGN/client/pages/admin/Messages.tsx:142 | toggling the same id twice restores the list |
| `MessagesPage.UnreadCount` | RADICAL_DESIGN/client/pages/admin/Messages.tsx:201 | the number of positions holding an unread message |
| `MessagesPage.UnreadFilterMatchesBadge` | RADICAL_DESIGN/client/pages/admin/Messages.tsx:101-103 | the unread filter with no query lists as many messages as the badge counts |
| `GalleryPage.ShownCount` | RADICAL_DESIGN/client/pages/Gallery.tsx:24-31 | the number of shown images is the number of positions holding one |
| `GalleryPage.FetchedItems` | RADICAL_DESIGN/client/pages/Gallery.tsx:24-31 | each image not explicitly hidden, converted with id, title and category kept and the URL as `image`, in order: the result is the conversion of a subsequence of the data made of shown images, as long as the number of shown positions |
| `GalleryPage.DisplayItems` | RADICAL_DESIGN/client/pages/Gallery.tsx:87 | the fetched items when there are any, the defaults otherwise, and never empty |
| `GalleryPage.FilteredItems` | RADICAL_DESIGN/client/pages/Gallery.tsx:89-91 | "All" is the identity; any other filter gives an order-preserving subsequence of the items of that category, as long as the number of such positions, so exactly those items |
| `GalleryPage.EveryFilterShowsSomeDefault` | RADICAL_DESIGN/client/pages/Gallery.tsx:45-85 | with nothing fetched, every filter button shows at least one default item |
| `VerifyOtpPage.SanitizeOtpInput` | RADICAL_DESIGN/client/pages/admin/VerifyOTP.tsx:23 | only decimal digits, at most six, a prefix of the input's digits |
| `VerifyOtpPage.SanitizeIdempotent` | RADICAL_DESIGN/client/pages/admin/VerifyOTP.tsx:22-26 | sanitising the sanitised text changes nothing |
| `VerifyOtpPage.IssuedCodeSurvivesInput` | RADICAL_DESIGN/client/pages/admin/VerifyOTP.tsx:23-35 | a code the server issues passes the input box unchanged and is sent |
| `VerifyOtpPage.SubmitOtp` | RADICAL_DESIGN/client/pages/admin/VerifyOTP.tsx:32-45 | a request is sent exactly when the code has six characters, with the stored email; otherwise the page shows "Please enter a valid 6-digit code" |
| `VerifyOtpPage.AfterVerifyResponse` | RADICAL_DESIGN/client/pages/admin/VerifyOTP.tsx:48-58 | success is recorded; a refusal shows the server's error (or the fallback) and empties the code |
| `SettingsPage.HandleChangePassword` | RADICAL_DESIGN/client/pages/admin/Settings.tsx:137-176 | each field's error exactly under its condition, in the source's order of checks; a request is sent exactly when there is none, and a sent new password passes the server's length check |
| `SettingsPage.ServerErrorFields` | RADICAL_DESIGN/client/pages/admin/Settings.tsx:189-195 | one error: under the current-password field when the server's text mentions "incorrect", otherwise as the general message |
| `SettingsPage.ServerRefusalsLandOnTheirFields` | RADICAL_DESIGN/server/routes/admin.ts:205-211 | the server's wrong-password refusal lands on the current-password field and its length refusal on the general message |
| `SettingsPage.LengthRefusalLacksIncorrect` | RADICAL_DESIGN/server/routes/admin.ts:210 | the length refusal's text does not contain "incorrect" |
| `SettingsPage.FieldChange` | RADICAL_DESIGN/client/pages/admin/Settings.tsx:206-209 | the named setting takes the value, the others stay, and the form is marked changed |
| `ResetPasswordPage.HandleSubmit` | RADICAL_DESIGN/client/pages/admin/ResetPassword.tsx:30-64 | each field's error exactly under its condition; a request carrying the new password and the stored address is sent exactly when there is none, and it passes the server's length check |
| `ResetPasswordPage.AfterResetResponse` | RADICAL_DESIGN/client/pages/admin/ResetPassword.tsx:67-78 | success removes only the stored address; a refusal keeps the storage and shows the server's error or the fallback |

## Left out

- File-system persistence: `fs`, `path`, `JSON.parse`/`stringify` and the creation of the data
  directory. Each file is a typed `seq` field of `Database`.
- An empty JSON file reads as an empty list, like a missing one. A non-empty file that does not
  parse makes `JSON.parse` throw, and that failure is not modelled.
- Email sending (`server/email.ts`): it is fire-and-forget and never changes the state.
- Randomness and the clock. `Math.random`, `Date.now()` and `new Date()` are parameters, and so
  is the arithmetic of `generateOTPCode`; only the range of the code it draws is kept.
- Timestamps as ISO-8601 text: they are milliseconds, and the comparison `new Date(a) < new
  Date(b)` is a comparison of numbers.
- Express wiring: routes, middleware and `next()`. Which routes sit behind `verifyAdmin` is not
  modelled.
- Concurrency: the model is sequential, so the lost update between overlapping
  read-modify-write requests is not captured.
- `500` replies: every store call succeeds.
- The forwarding handlers (`getContactMessages`'s store reads, the deletes, mark-read, the
  gallery, service and about updates, and the settings and about getters) are the `Database`
  members they call.
- Non-string JSON values: a number, object or `null` where the source expects a string. A body
  is modelled with only the keys the handler reads; extra keys that `Object.assign` or a spread
  would copy into a stored record are not.
- `markMessageAsRead` with a `read` value that is not a boolean.
- `Text.ToLower`: folds ASCII letters only. Other Unicode case mappings are not modelled.
- The length checks (`length < 6`) count characters, not UTF-16 code units, so a password made
  of characters outside the Basic Multilingual Plane is counted differently.
- `MessagesPage.ApplyFilters`: the stored messages carry no `subject` (server/db.ts:11-19), so
  in the running page `m.subject.toLowerCase()` (client/pages/admin/Messages.tsx:115) throws a
  TypeError for a non-empty query that matches neither the name nor the email, and the search
  fails. The model reads `subject` as an ordinary string, as the page's declared type says, and
  does not capture that exception.
- Client pages: fetching, toasts, navigation and timers. The pages' state is text and flags,
  and the React setters are the functions' results.
- `Db.Database.AddMessage`, `AddGalleryImage`, `AddService`: the ids come from `Date.now()` and
  are not guaranteed unique. The model takes the id as given and does not claim that the store
  assigns fresh ids.

## Findings

| source | as written | input that shows it | evidently intended | confidence | as-written member | corrected member |
|---|---|---|---|---|---|---|
| RADICAL_DESIGN/server/routes/admin.ts:57-65 | `adminSessions` is a plain object, so `adminSessions[sessionId]` is truthy for every name the object inherits (`constructor`, `toString`, `__proto__`, …) | the header `x-admin-session: constructor` with no login at all | only session ids registered by `adminLogin` pass | high (not executed) | `AdminRoutes.VerifyAdmin`, `AdminRoutes.InheritedNameBypassesVerifyAdmin` | `AdminRoutes.VerifyAdminOwnKeys`, `AdminRoutes.SessionLifecycle` |
| RADICAL_DESIGN/server/routes/admin.ts:318-347 | the reset accepts a verified code for whichever address the body names, and then changes the admin password | forgot-password, verify-otp and reset-password all with `email` set to an address the requester controls | only a code sent to the admin's own address unlocks the admin password | medium (not executed) | `AdminRoutes.AdminApi.ResetPassword`, `AdminRoutes.ForeignMailboxUnlocksReset`, `AdminRoutes.AdminApi.ForgotPasswordFlow` | `AdminRoutes.AdminApi.ResetPasswordForAdminEmail` |
