# SoET website core, modelled in Dafny

The SoET website has two halves, and this project models both.

**The Express/Mongoose API.** It holds:
- the `Admin` account model: schema constraints, the password hook and the login lockout;
- the bearer-token middleware and the permission and role guards;
- the account routes under `/api/auth`;
- the `Announcement`, `Contact` and `Event` models: their hooks, virtuals, instance methods and query statics;
- their routes under `/api/announcements`, `/api/contacts` and `/api/events`;
- the upload middleware: its file-type filter, its limits, its folders and its error handler.

**The browser front end.** It holds:
- the admin login page: form validation, the fixed credential table and the session it stores;
- the admin dashboard: its lists of staff, alumni, events and notices, editing and deleting, the announcement publishing, the session check and logout;
- the public announcements page: the cards it adds for published announcements, the "time ago" label, the category icons and the "load more" button.

**State.**
- Documents whose fields the source updates in place are classes, with a `Snapshot()` value:
  - `Announcement`, `ContactMessage` and `Event`;
  - the `admins` collection (`AdminStore`);
  - the dashboard and its lists (`Dashboard`);
  - the browser's two session stores (`SessionStore`);
  - the announcement grid's "load more" state (`LoadMore`).
- Route handlers are functions from a request and a lookup result to a response.
- A lookup result is found, missing, or failed (a thrown error, answered with a 500).
- Where a handler mutates a stored document, a method on the store is proved equal to the handler's function.

**Parameters instead of effects.** Each of these is a function-typed or plain parameter:
- bcrypt's hash and compare;
- `jwt.sign` and `jwt.verify`;
- `Date.now()`;
- date parsing;
- what the database does on a write.

**Modules** follow the source files:

| file | models |
|---|---|
| `admin_model.dfy` | `models/Admin.js` |
| `auth_middleware.dfy` | `middleware/auth.js` |
| `permissions.dfy` | `middleware/permissions.js` |
| `auth_routes.dfy` | `routes/auth.js` |
| `announcement_model.dfy`, `announcement_routes.dfy` | `models/Announcement.js`, `routes/announcements.js` |
| `contact_model.dfy`, `contact_routes.dfy` | `models/Contact.js`, `routes/contact.js` |
| `event_model.dfy`, `event_routes.dfy` | `models/Event.js`, `routes/events.js` |
| `upload.dfy` | `middleware/upload.js` |
| `admin_login.dfy` | `admin-login.js` |
| `admin_dashboard.dfy` | `admin-dashboard.js` |
| `announcements_page.dfy` | `announcements.js` |

Helper modules:
- `wrappers.dfy`: `Option`, `Fetch`, JavaScript truthiness;
- `strings.dfy`: split/join, trim, lower case, decimal digits;
- `lists.dfy`: filter, first index, subsequence, counting;
- `sorting.dfy`: the stable multi-key ordering of a Mongo `sort`;
- `http.dfy`: responses and guard outcomes;
- `form_data.dfy`: the JSON-array form fields and the image lists shared by the routes.

## Model

| member | source | states |
|---|---|---|
| AdminModel.NormaliseEmail | models/Admin.js:13-19 | the stored email is the trimmed input with every ASCII capital lower-cased, character by character, so it holds no upper-case letter |
| AdminModel.ValidationMessages | models/Admin.js:4-30 | no message exactly when the account meets the required/length/pattern/enum constraints; at most one message per path |
| AdminModel.SaltRounds | models/Admin.js:72 | the cost is the parsed value whenever that parses to a non-zero number, and the default 12 otherwise |
| AdminModel.Strict | models/Admin.js:4-55 | the strict schema drops `name`, `permissions`, `createdBy` and `lastLogout` and keeps every declared field |
| AdminModel.PreSave | models/Admin.js:66-78 | the password is replaced by its digest exactly when it was modified, and nothing else changes |
| AdminModel.DigestNeverRehashed | models/Admin.js:66-78 | any number of later saves without a password change keep the first digest |
| AdminModel.AfterFailedAttempt | models/Admin.js:86-103 | an expired lock restarts the count at 1 and is removed; otherwise the count goes up by one, and a new lock (two hours from now) is set only at the fifth attempt on an unlocked account |
| AdminModel.AfterReset | models/Admin.js:106-110 | both lockout fields are cleared and nothing else changes |
| AdminModel.LockedFailureKeepsLock | models/Admin.js:95-102 | while locked, a failure counts but leaves the lock where it is |
| AdminModel.BoundaryRelocks | models/Admin.js:58-60 | at the instant the lock ends the account is neither locked nor expired, so an account at the threshold is locked again for two hours |
| AdminModel.FailuresBelowThreshold | models/Admin.js:95-102 | fewer than five failures on an unlocked account only raise the count |
| AdminModel.FiveFailuresLock | models/Admin.js:98-99 | five failures on a clean account lock it until two hours after the fifth, and it reads as locked before then |
| AdminModel.ResetUnlocks | models/Admin.js:106-110 | after a reset the account is unlocked and the next failure counts from 1 |
| AdminModel.FindIn | middleware/auth.js:24 | `findById` finds an account exactly when one has the id, and what it finds has that id |
| AdminModel.FindByEmailIn | routes/auth.js:231-234 | `findOne` by email, with an optional excluded id, finds exactly the accounts that match |
| AdminModel.FindByUsernameIn | models/Admin.js:8 | the unique index on `username` finds exactly the other accounts with that username |
| AdminModel.Taken | models/Admin.js:8-16 | a write is refused by an index exactly when another account holds the username or the email |
| AdminModel.FindInCons | middleware/auth.js:24 | the lookup takes the first account with the id |
| AdminModel.Put | models/Admin.js:4-8 | after a write the id finds the written record and every other id finds what it found before |
| AdminModel.PutMembers | models/Admin.js:4-8 | a write adds no account other than the written one |
| AdminModel.UniqueKeysTail | models/Admin.js:8-16 | the unique indexes hold for the rest of the collection |
| AdminModel.UniqueKeysCons | models/Admin.js:8-16 | adding an account whose id, username and email are new keeps the indexes unique |
| AdminModel.PutKeepsKeysUnique | models/Admin.js:8-16 | writing a record whose username and email no other account holds keeps `_id`, `username` and `email` unique |
| AdminModel.PutKeepsDeclared | models/Admin.js:4-55 | writing a record of declared fields into a collection of such records keeps it so |
| AdminModel.PutStored | models/Admin.js:66-78 | writing back the record stored under its id leaves the collection unchanged |
| AdminModel.StoredKeysFree | models/Admin.js:8-16 | a stored record changed in neither id, username nor email holds free keys, so it may be written back |
| AdminModel.SaveOutcome | models/Admin.js:4-78 | `save()` fails validation exactly when the record is not well formed, with the schema's messages; otherwise it fails with a duplicate key exactly when another account holds the username or the email; a saved record went through the hook and lost the undeclared fields |
| AdminModel.AdminStore.constructor | models/Admin.js:119 | the collection starts as given, with unique keys and only declared fields |
| AdminModel.AdminStore.FindById | middleware/auth.js:24 | the stored collection is looked up as `FindIn` does |
| AdminModel.AdminStore.Save | models/Admin.js:66-78 | the store keeps unique keys and declared fields only and, exactly when the save succeeds, holds the hooked record |
| AdminModel.AdminStore.IncLoginAttempts | models/Admin.js:86-103 | the stored account becomes `AfterFailedAttempt` of itself; a missing account changes nothing |
| AdminModel.AdminStore.ResetLoginAttempts | models/Admin.js:106-110 | the stored account becomes `AfterReset` of itself; a missing account changes nothing |
| Permissions.HasPermission | middleware/permissions.js:4-38 | passes a super admin, or an admin whose list holds the permission; 404 for a missing admin; the 403 naming the permission exactly for a list without it; the 500 exactly when the lookup throws or a plain admin has no list |
| Permissions.SuperAdminBypassesPermissions | middleware/permissions.js:16-19 | a super admin passes every permission check, whatever its list holds |
| Permissions.StoredAdminsFailPermissionCheck | middleware/permissions.js:21-28 | for an account read from the collection, which never has the undeclared list, every permission check of a plain admin ends in the 500 |
| Permissions.AllowedRoles | middleware/permissions.js:54 | a single role becomes a one-element list, and an array is kept |
| Permissions.HasRole | middleware/permissions.js:41-72 | passes exactly the admins whose role is allowed; 404 when missing, 403 naming the roles, 500 when the lookup throws |
| Permissions.IsSuperAdmin | middleware/permissions.js:75 | passes exactly the super admins |
| Permissions.RoleCheckHasNoBypass | middleware/permissions.js:41-72 | a super admin is refused by a role check that does not name its role |
| Permissions.NamedGuardsAdmit | middleware/permissions.js:77-87 | each named guard admits a plain admin exactly when its list holds the guard's permission string |
| AuthMiddleware.ExtractToken | middleware/auth.js:18 | the second space-separated field of a `Bearer ` header, which holds no space |
| AuthMiddleware.SplitHasSecondField | middleware/auth.js:10-18 | a header with the prefix always has a second field, so the index never reads past the end |
| AuthMiddleware.SplitAfterWord | middleware/auth.js:18 | splitting a word, a space and the rest gives the word and then the split of the rest |
| AuthMiddleware.BearerTokenRoundTrip | middleware/auth.js:10-18 | the token taken from `Bearer <token>` is `<token>` itself |
| AuthMiddleware.Authenticate | middleware/auth.js:4-62 | passes exactly a well-formed header whose token verifies to claims of an existing, active account, and passes on those claims; every refusal is one of the middleware's answers, and the 500 comes exactly for a not-yet-valid token, a payload without the `admin` claim, or a failed account lookup |
| AuthMiddleware.HeaderCheckedFirst | middleware/auth.js:9-15 | a missing or malformed header is refused with the no-token 401 whatever the verifier and the store do |
| AuthMiddleware.VerificationBeforeLookup | middleware/auth.js:21-55 | a token that fails verification is answered without the store, by its own 401, or with the 500 |
| AuthMiddleware.AccountCheckedAfterVerification | middleware/auth.js:24-60 | a verified token for a missing or deactivated account is refused with its 401, a failed lookup with the 500; an active account passes |
| AuthMiddleware.AdminlessPayloadIsServerError | middleware/auth.js:20-60 | a verified payload without the `admin` claim is answered with the 500, whatever the store holds |
| AuthRoutes.SaveAndAnswer | routes/auth.js:64 | a well-formed record with free keys gives the success answer and is stored; a malformed one gets the 400 of its joined messages where the handler catches validation, else its 500; a taken key gets the 500; a failure writes nothing |
| AuthRoutes.SaveAnswer | routes/auth.js:64 | as a method, the store ends as `SaveAndAnswer` says |
| AuthRoutes.TokenLifetime | routes/auth.js:76 | `JWT_EXPIRE` when it is set and non-empty, `7d` otherwise |
| AuthRoutes.LoginCheck | routes/auth.js:28-60 | login proceeds exactly with both fields, a known and active account, and a matching password |
| AuthRoutes.LoginSpec | routes/auth.js:24-100 | a token is issued exactly when the credentials pass and the stamped account saves; it signs the found account's id, email and role, and only then is the account written |
| AuthRoutes.LoginNeedsBothFields | routes/auth.js:29-34 | a missing field gives a 400 and writes nothing, whatever the collection |
| AuthRoutes.LoginDoesNotRevealAccounts | routes/auth.js:38-60 | an unknown email and a wrong password get the same 401 |
| AuthRoutes.LoginIgnoresLockout | routes/auth.js:24-100 | the outcome of login does not depend on the lockout fields |
| AuthRoutes.LoginSuccessEffects | routes/auth.js:36-77 | a successful login is for the account with the normalised email whose password matches; it changes only that account's `lastLogin`, keeps its counter and lock, and signs its id, email and role |
| AuthRoutes.ValidCredentialsLogIn | routes/auth.js:24-100 | the right password for an active, well-formed account in a collection with unique keys always logs in with that account's token |
| AuthRoutes.Login | routes/auth.js:24-100 | the store ends as the login function says, with the same answer and token |
| AuthRoutes.RegisterCheck | routes/auth.js:108-133 | register proceeds exactly for a super-admin requester, with name, email and password given and the email free; in that order the refusals are the 403, the 400 for a missing field, the 400 for a taken email, and the 500 for a missing requester or a failed lookup |
| AuthRoutes.RegisterDraftAsWritten | routes/auth.js:136-144 | the document the route builds has no username |
| AuthRoutes.RegisterDraft | routes/auth.js:136-144 | the in-memory document with the username taken from the name; role and permissions default as the route says |
| AuthRoutes.RegisterAsWrittenNeverCreates | routes/auth.js:136-166 | as written, register never creates an account and never answers with success |
| AuthRoutes.RegisterSpec | routes/auth.js:105-174 | corrected (username from the name): register answers with success only for a super admin, and then the new id is stored and every other id finds what it found before; any other answer writes nothing |
| AuthRoutes.RegisterCreatesAccount | routes/auth.js:105-174 | corrected (username from the name): a super admin with a free email, a free username and a well-formed draft gets a 201; the fresh id holds the draft with the password hashed and without the undeclared name, permissions and creator; other accounts are kept |
| AuthRoutes.RegisterTakenUsername | routes/auth.js:146-174 | corrected (username from the name): a name already used as a username passes the route's checks and is refused by the unique index with the registration 500 |
| AuthRoutes.OnlySuperAdminsRegister | routes/auth.js:108-114 | a requester who is not a super admin gets the 403 and the collection is unchanged |
| AuthRoutes.Register | routes/auth.js:105-174 | corrected (username from the name): the store ends as the register function says |
| AuthRoutes.ProfileEdit | routes/auth.js:226-262 | a taken email stops the edit with a 400, a failed lookup with a 500, a missing or wrong current password with its 400; otherwise the edit sets the given name, the normalised given email and the new password, keeping everything else |
| AuthRoutes.ProfileErrorsPersistNothing | routes/auth.js:229-259 | a profile request refused before the save writes nothing |
| AuthRoutes.ProfilePasswordNeedsCurrent | routes/auth.js:244-262 | the stored password changes only through a new password confirmed by the current one |
| AuthRoutes.ProfileUpdateStores | routes/auth.js:215-292 | a successful update stores the normalised new email and keeps username, role, activity and every other account; the undeclared `name` is not stored |
| AuthRoutes.Profile | routes/auth.js:215-292 | the store ends as the profile function says |
| AuthRoutes.ChangePasswordPrecheck | routes/auth.js:327-341 | proceeds exactly when all three fields are given and the new password equals the confirmation |
| AuthRoutes.ChangePasswordGuarded | routes/auth.js:324-383 | the password is replaced by the digest of the new one only when the fields agree and the current password matches |
| AuthRoutes.ChangePassword | routes/auth.js:324-383 | the store ends as the change-password function says |
| AuthRoutes.LogoutPersistsNothing | routes/auth.js:297-319 | logout answers success for a missing account too; otherwise it writes back the account without the undeclared `lastLogout`, so a collection of declared fields is unchanged |
| AuthRoutes.LogoutSpec | routes/auth.js:297-319 | logout answers success exactly when the account is missing or its stamped record passes validation and the unique indexes, and the 500 otherwise; it never issues a token |
| AuthRoutes.Logout | routes/auth.js:297-319 | the store ends as the logout function says |
| AnnouncementModel.CommentCount | models/Announcement.js:158-160 | the comment count is the number of approved comments, never more than the comments held |
| AnnouncementModel.CeilDiv | models/Announcement.js:169-174 | the rounded-up quotient: `(q-1)·d < n <= q·d` |
| AnnouncementModel.DaysUntilExpiry | models/Announcement.js:169-174 | null exactly without an expiry date; 0 exactly once the expiry has passed; otherwise the whole days left, rounded up |
| AnnouncementModel.PreSave | models/Announcement.js:177-182 | the hook changes only `isActive`, which stays true exactly when it was true and the announcement has not expired |
| AnnouncementModel.PreSaveNeverActivates | models/Announcement.js:177-182 | the hook never activates an announcement, and running it twice is the same as once |
| AnnouncementModel.VisibleMeansPublishedAndUnexpired | models/Announcement.js:186-192 | the visibility window of the statics (and of the `isExpired` virtual, lines 163-166) holds exactly for an active, already published, unexpired announcement |
| AnnouncementModel.HighListedLastAsWritten | models/Announcement.js:194 | as written, the string sort on `priority` lists a 'high' announcement after 'low' and 'medium' ones |
| AnnouncementModel.PriorityRank | models/Announcement.js:25-30 | the ranks of the schema's priorities, urgent highest and low lowest |
| AnnouncementModel.ListingOrder | models/Announcement.js:194 | pinned before unpinned; 'high' before 'low' and 'medium' among equals; then newer publish date first |
| AnnouncementModel.PriorityRankAsWritten | models/Announcement.js:194 | the place of each level in descending string order: urgent, medium, low, high |
| AnnouncementModel.AsWrittenRankIsStringOrder | models/Announcement.js:194 | on the schema's four levels the as-written rank orders exactly as the strings do, and ties exactly on equal levels |
| AnnouncementModel.ListingKeyAsWrittenIsStringSort | models/Announcement.js:194 | for announcements with schema levels the as-written key orders exactly as the string sort `{ isPinned: -1, priority: -1, publishDate: -1 }` |
| Sorting.TopK | models/Announcement.js:194-195 | `.sort(...).limit(n)` returns a sorted selection of exactly `n` elements when there are more (all for 0), and every element left out ranks no higher than each returned one |
| AnnouncementModel.Query | models/Announcement.js:185-253 | a static's result holds only matching stored records, sorted on the given key, exactly `limit` of them when there are more (all for 0), and every match left out ranks no higher than each returned one |
| AnnouncementModel.GetActive | models/Announcement.js:185-196 | the `limit` visible stored announcements first in the as-written order, all when there are fewer |
| AnnouncementModel.GetPinned | models/Announcement.js:199-210 | exactly the visible pinned announcements, in the as-written order |
| AnnouncementModel.GetByCategory | models/Announcement.js:213-224 | exactly the visible announcements of the category, in the as-written order |
| AnnouncementModel.GetForAudience | models/Announcement.js:227-238 | exactly the visible announcements for the audience or for all, in the as-written order |
| AnnouncementModel.GetHomepage | models/Announcement.js:241-253 | the five visible homepage announcements first in the as-written order, all when there are fewer |
| AnnouncementModel.GetActiveCorrected | models/Announcement.js:185-196 | the same listing as `getActive` under the intended urgency order |
| AnnouncementModel.GetActiveListsLowBeforeHigh | models/Announcement.js:194 | of a visible unpinned 'high' and 'low' announcement published together, `getActive(1)` returns the 'low' one, the intended order the 'high' one |
| AnnouncementModel.StaticsShowOnlyVisible | models/Announcement.js:185-253 | the active, pinned and homepage statics return only visible announcements (homepage at most five), and the audience static includes every visible one addressed to 'all' |
| AnnouncementModel.Announcement.constructor | models/Announcement.js:4-155 | the document holds the given record |
| AnnouncementModel.Announcement.Save | models/Announcement.js:177-182 | the stored record is the hook applied to the old one |
| AnnouncementModel.Announcement.IncrementViews | models/Announcement.js:280-283 | one more view, then saved |
| AnnouncementModel.Announcement.AddLike | models/Announcement.js:286-291 | the user is in the likes, added only when absent, with no duplicate introduced, then saved |
| AnnouncementModel.Announcement.RemoveLike | models/Announcement.js:294-297 | every occurrence of the user is removed, then saved |
| AnnouncementModel.Announcement.AddComment | models/Announcement.js:300-303 | the comment is appended, then saved |
| AnnouncementModel.AddLikeIdempotent | models/Announcement.js:286-291 | a second like changes nothing; the list grows by one exactly when the user was absent |
| AnnouncementModel.RemoveLikeKeepsOthers | models/Announcement.js:294-297 | unliking removes the user, keeps the order of the rest and every other user's multiplicity |
| AnnouncementModel.CommentCountOfAppend | models/Announcement.js:300-303 | appending a comment (the count is the virtual at lines 158-160) raises the count by one exactly when it is approved |
| AnnouncementRoutes.BuildListQuery | routes/announcements.js:25-56 | the window applies without a header or with `active_only` defaulting to 'true'; each filter is added exactly when its value is truthy and not 'all' |
| AnnouncementRoutes.ListingWindow | routes/announcements.js:28-36 | under the window every listed announcement is visible and stored; with no condition the listing is a permutation of the collection |
| AnnouncementRoutes.ListAnnouncements | routes/announcements.js:12-97 | before pagination the listing holds exactly the matching stored announcements, in the as-written order |
| AnnouncementRoutes.ViewGate | routes/announcements.js:168-182 | passes exactly a found announcement that is active and unexpired or requested with a header; a failure is a 500, any other refusal a 404 |
| AnnouncementRoutes.ScheduledAnnouncementServedById | routes/announcements.js:175-182 | an active announcement scheduled for later is hidden from listings yet served by id without a header |
| AnnouncementRoutes.GetById | routes/announcements.js:163-205 | a request past the gate counts one view and saves; a refused request changes nothing and answers as the gate says |
| AnnouncementRoutes.CreateData | routes/announcements.js:214-235 | the list fields are split, the uploads become the images, and the requester becomes the author |
| AnnouncementRoutes.CreateSpec | routes/announcements.js:210-260 | a 201 exactly when the store accepts the create form; a validation refusal is a 400 joining the validators' messages with ", ", any other failure the 500 'Server error' |
| AnnouncementRoutes.UpdateData | routes/announcements.js:278-305 | the list fields are split, the images merged or replaced as the upload says, and the modifier and time stamped |
| AnnouncementRoutes.UpdateSpec | routes/announcements.js:265-333 | 404 for a missing announcement, 500 on a failed lookup, success exactly when the store accepts the update form; a validation refusal is a 400 joining the messages, any other write failure the 500 |
| AnnouncementRoutes.Pinned | routes/announcements.js:379-383 | the pin flips, the modifier and time are stamped, the hook may deactivate an expired announcement, and nothing else changes |
| AnnouncementRoutes.PinTwiceRestores | routes/announcements.js:379-383 | pinning twice restores the pin and leaves only the stamps and the hook's effect |
| AnnouncementRoutes.TogglePin | routes/announcements.js:368-398 | the stored announcement ends as `Pinned` says, and the message names the new pin state |
| AnnouncementRoutes.LikesAfterToggle | routes/announcements.js:414-428 | the user's like is flipped, every other user's is kept, and no duplicate is introduced |
| AnnouncementRoutes.LikeThenUnlikeRestores | routes/announcements.js:414-428 | liking then unliking restores the like list exactly |
| AnnouncementRoutes.ToggleLike | routes/announcements.js:403-439 | the stored likes end as the toggle says, and the answer reports the new like state and count |
| FormData.ParseList | routes/announcements.js:215-223 | text is split into comma-free pieces that join back to it; a value already a list is kept |
| FormData.ParseListRoundTrip | routes/announcements.js:215-223 | splitting the comma-join of comma-free items gives the items back |
| FormData.ImagesFromFiles | routes/announcements.js:226-233 | one image per uploaded file, in order, with the file's path and name |
| FormData.MergeImages | routes/announcements.js:290-301 | nothing without uploads; uploads replace the images when `replaceImages` is 'true' and are appended after the stored ones otherwise |
| FormData.UploadKeepsOrReplaces | routes/announcements.js:290-301 | after an update the images are the sent ones without uploads, the uploads alone on replace, and the stored ones followed by the uploads otherwise |
| FormData.WriteAnswer | routes/events.js:218-230 | success exactly when the store accepts; a validation refusal is a 400 whose message joins the validators' messages with ", "; anything else is the 500 'Server error' |
| ContactModel.PreSave | models/Contact.js:188-194 | a modified, non-empty response marks the message read and resolved; otherwise nothing changes, and only those two fields ever do |
| ContactModel.PreSaveNeedsResponse | models/Contact.js:188-194 | without a modified response the hook changes nothing, and it is idempotent |
| ContactModel.RoundDiv | models/Contact.js:164-169 | `Math.round` of a quotient: within half a divisor of the true value |
| ContactModel.ResponseTime | models/Contact.js:164-169 | null exactly without a response; otherwise the hours from creation to response, rounded to nearest |
| ContactModel.QuickAnswerTakesNoHours | models/Contact.js:164-169 | an answer within half an hour has response time 0 |
| ContactModel.StatusCount | models/Contact.js:243-258 | a status count never exceeds the number of messages |
| ContactModel.GetStats | models/Contact.js:243-258 | the total, and the new, in-progress, resolved, closed, unread and high-priority counts, are the sizes of the corresponding filtered lists |
| ContactModel.StatusCountsSumToTotal | models/Contact.js:243-258 | when every status is in the enum, the four status counts add up to the total |
| ContactModel.StatsAnswer | routes/contact.js:363-387 | the fallback for an empty collection equals the statistics of the empty list |
| ContactModel.ContactMessage.constructor | models/Contact.js:4-160 | the document holds the given message, and the collection holds the same |
| ContactModel.ContactMessage.Save | models/Contact.js:188-194 | the validators of the category, priority, status, answer method and follow-up type enums (lines 37-125) run first: when they pass, the hook runs and the collection takes the document; otherwise nothing changes |
| ContactModel.ContactMessage.MarkAsRead | models/Contact.js:261-267 | read, with reader and time recorded, and nothing else changed; the collection takes it exactly when the enums hold |
| ContactModel.ContactMessage.AssignTo | models/Contact.js:269-275 | assignee and time recorded, status 'in-progress', nothing else changed; the collection takes it exactly when the enums hold |
| ContactModel.ContactMessage.AddResponse | models/Contact.js:277-286 | the response stamped with its time, status 'resolved', read, nothing else changed; the collection takes it exactly when the enums hold, so not for a method outside the four |
| ContactModel.ContactMessage.AddFollowUp | models/Contact.js:288-293 | the entry appended after the old follow-ups, nothing else changed; the collection takes it exactly when the enums hold, so not for a type outside the four |
| ContactRoutes.BuildListQuery | routes/contact.js:92-112 | each filter is added exactly when its value is sent and not 'all'; unread only for 'true' |
| ContactRoutes.ListingExcludesSpam | routes/contact.js:92-112 | no listed message is spam, and with no filter the listing is a permutation of the non-spam messages |
| ContactRoutes.ListMessages | routes/contact.js:77-158 | before pagination the listing holds exactly the matching stored messages, newest first |
| ContactRoutes.Viewed | routes/contact.js:176-178 | viewing marks an unread message read by the viewer; a read message is unchanged |
| ContactRoutes.FirstReaderKept | routes/contact.js:176-178 | a second view changes nothing, so the first reader stays recorded |
| ContactRoutes.ViewMessage | routes/contact.js:161-198 | 404 or 500 for a missing or failed lookup; otherwise the document ends as `Viewed` says, answered 200 unless the save of an unread message is refused, which is the 500 with the collection unchanged |
| ContactRoutes.Assignee | routes/contact.js:206-214 | the named assignee, or the requester when none is named |
| ContactRoutes.Assigned | routes/contact.js:206-214 | assignee and time recorded, status 'in-progress', nothing else changed; the collection takes it exactly when the enums hold |
| ContactRoutes.AssignReopens | routes/contact.js:206-214 | assigning a resolved or closed message reopens it as 'in-progress' |
| ContactRoutes.Assign | routes/contact.js:203-230 | 404 or 500 for a missing or failed lookup; otherwise the document ends as `Assigned` says, and the collection takes it with a 200 exactly when the enums hold, the 500 otherwise |
| ContactRoutes.Answered | routes/contact.js:235-273 | the response recorded with the channel defaulting to email; read and resolved; nothing else changed |
| ContactRoutes.AnsweredHasResponseTime | routes/contact.js:235-273 | an answered message has a response time |
| ContactRoutes.Respond | routes/contact.js:235-273 | a missing message text is a 400 that changes nothing; otherwise 404, 500, or the document ends as `Answered` says, and the collection takes it with a 200 exactly when the enums hold, the 500 otherwise |
| ContactRoutes.AddFollowUp | routes/contact.js:278-316 | a missing text is a 400 that changes nothing; otherwise 404, 500, or the document ends as `FollowedUp` says, and the collection takes it with a 200 exactly when the enums hold, the 500 otherwise |
| ContactRoutes.AnsweredEnumsHold | models/Contact.js:100-125 | an answered message passes the validators exactly when its other enum paths did and the method, 'email' by default, is one of the four |
| ContactRoutes.FollowedUp | routes/contact.js:281-298 | one entry of the given kind, 'note' by default, appended, and nothing else changed |
| ContactRoutes.FollowedUpEnumsHold | models/Contact.js:113-126 | a follow-up passes the validators exactly when the message did and its kind is one of the four |
| ContactRoutes.PatchStatus | routes/contact.js:321-358 | a status outside the enum is a 400 before the lookup; a missing message a 404 and a failed lookup a 500; success exactly for a found message and a valid status, which is set |
| ContactRoutes.PatchKeepsStatusesInEnum | routes/contact.js:321-358 | a patched message always has a status in the enum |
| EventModel.DerivedStatus | models/Event.js:166-183 | 'upcoming' before the start, 'ongoing' between start and end, 'completed' after the end, nothing without dates |
| EventModel.PreSave | models/Event.js:166-183 | a cancelled event is untouched; otherwise only the status changes, to the derived one when there is one |
| EventModel.StatusFollowsDates | models/Event.js:166-183 | with both dates, the saved status follows them and is one of the three date statuses, unless cancelled |
| EventModel.MissingStartKeepsStatus | models/Event.js:166-183 | without dates the hook changes nothing |
| EventModel.CeilAbsDiv | models/Event.js:150-155 | the rounded-up quotient of an absolute value |
| EventModel.Duration | models/Event.js:150-155 | null without both dates; otherwise the whole days between them, rounded up |
| EventModel.DurationSymmetric | models/Event.js:150-155 | swapping the dates leaves the duration unchanged |
| EventModel.NumberErrors | models/Event.js:68-79 | no error exactly when the participant limit is absent or at least 1 and the fee is not negative |
| EventModel.GetUpcoming | models/Event.js:186-194 | only stored upcoming public events, earliest start first; exactly `limit` of them when there are more (all for 0), and every upcoming event left out starts no earlier than each returned one |
| EventModel.UpcomingListing | models/Event.js:186-194 | a listing of the upcoming events by start date holds stored upcoming events, in start order, none starting later than one left out |
| EventModel.GetByCategory | models/Event.js:197-202 | exactly the public events of the category, latest start first |
| EventModel.DateRangeIsOverlap | models/Event.js:205-221 | for a well-ordered event and range, the range condition holds exactly when the event overlaps the range |
| EventModel.GetByDateRange | models/Event.js:205-221 | exactly the public events touching the range, earliest start first |
| EventModel.Event.constructor | models/Event.js:4-147 | the document holds the given record |
| EventModel.Event.Save | models/Event.js:166-183 | the stored record is the hook applied to the old one |
| EventRoutes.BuildListQuery | routes/events.js:12-49 | public only without a header or by default; the status defaults to 'upcoming' and is dropped for 'all'; category and date range are added when given |
| EventRoutes.ListingRangeIsNarrowerThanDateRange | routes/events.js:44-49 | an event that spans the whole range is left out of the listing though `getByDateRange` returns it |
| EventRoutes.ViewGate | routes/events.js:141-180 | passes exactly a found event that is public or requested with a header; a private one without a header is a 403 |
| EventRoutes.PrivateEventsNeedHeader | routes/events.js:154-160 | anyone sees a public event; a private one only with a header |
| EventRoutes.CreateData | routes/events.js:190-207 | the uploads become the images, the banner defaults to the first upload, and the requester becomes the author |
| EventRoutes.DefaultBannerIsFirstImage | routes/events.js:194-202 | a defaulted banner is the first image |
| EventRoutes.CreateSpec | routes/events.js:185-232 | a 201 exactly when the store accepts the create form; a validation refusal is a 400 joining the validators' messages with ", ", any other failure the 500 'Server error' |
| EventRoutes.UpdateData | routes/events.js:251-264 | the images are merged or replaced as the upload says, the time stamped, and nothing else changed |
| EventRoutes.UpdateSpec | routes/events.js:237-292 | 404 for a missing event, 500 on a failed lookup, success exactly when the store accepts the update form; a validation refusal is a 400 joining the messages, any other write failure the 500 |
| EventRoutes.PatchStatus | routes/events.js:348-385 | a status outside the enum is a 400 before the lookup; a missing event a 404 and a failed lookup a 500; success exactly for a found event, which gets the status and time |
| EventRoutes.PatchSkipsStatusHook | routes/events.js:348-385 | a finished event can be patched back to 'upcoming', which its next save would make 'completed' |
| Upload.FileFilter | middleware/upload.js:49-66 | a file passes exactly when its MIME type is allowed; otherwise the invalid-file-type error |
| Upload.LastDot | middleware/upload.js:32-37 | the position of the last dot, with none after it; none exactly when there is no dot |
| Upload.Extname | middleware/upload.js:32-37 | the extension is the suffix from the last dot, and empty exactly when there is no dot, the only dot opens the name, or the name is '..' |
| Upload.NoDotAfterLast | middleware/upload.js:32-37 | the text after the last dot holds no dot |
| Upload.ExtensionCheck | middleware/upload.js:32-37 | a file passes exactly when its lower-cased extension is allowed; otherwise the message names the extension |
| Upload.UpperCaseExtensionAllowed | middleware/upload.js:32-37 | an upper-case `.PDF` is checked as `.pdf` |
| Upload.FolderFor | middleware/upload.js:17-30 | the folder named by the first of staff, alumni, events, announcements, contact found in the path, else the default |
| Upload.EveryUploadInDefaultFolder | middleware/upload.js:20-30 | as written, for every route path of the routers every upload lands in the default folder |
| Upload.NoFolderWord | middleware/upload.js:20-30 | a path without any folder word selects the default folder |
| Upload.UploadFoldersByRouter | middleware/upload.js:17-30 | corrected, with the folder chosen from the full path: the upload routes of the staff, alumni, events, announcements and contact routers (mounted at `server.js:70-75`) put their files in `soet-university/staff`, `/alumni`, `/events`, `/announcements` and `/contacts` |
| Upload.UploadRouterKeepsDefaultFolder | middleware/upload.js:17-30 | corrected, the routes of the upload router (`/api/upload/single` and `/multiple`) keep the default folder |
| Upload.FileProblem | middleware/upload.js:49-76 | a file has no problem exactly when it is within the request count, sent under the route's field within its count, of an allowed type and extension, and within the size limit; a wrong field or one too many for it is LIMIT_UNEXPECTED_FILE |
| Upload.UploadProblem | middleware/upload.js:49-76 | an upload has no problem exactly when none of its files has one |
| Upload.AcceptedUploadWithinLimits | middleware/upload.js:49-76 | an accepted upload has at most five files, all under the route's field and within its count, each within the size limit and of an allowed type |
| Upload.HandleUploadErrorAsWritten | middleware/upload.js:79-110 | as written: each multer code gets its 400; any other error whose message holds 'File type' gets a 400 echoing the message, and every other error is forwarded |
| Upload.MimeRejectionForwardedAsWritten | middleware/upload.js:64-101 | as written, the MIME-type rejection is forwarded to the 500 handler, while the extension rejection is answered with its 400 |
| Upload.MimeRejectionForwarded | middleware/upload.js:101-106 | the invalid-file-type message is forwarded by the handler as written |
| Upload.MimeRejectionLacksFileType | middleware/upload.js:64 | the invalid-file-type message does not contain 'File type' |
| Upload.HandleUploadError | middleware/upload.js:79-110 | corrected: each multer code gets its 400; any other error whose lower-cased message holds 'file type' gets a 400 echoing the message, and every other error is forwarded |
| Upload.EveryUploadProblemAnswered | middleware/upload.js:49-110 | corrected, every problem an upload can have is answered with a 400 |
| Upload.MimeRejectionAnswered | middleware/upload.js:64-106 | corrected, the invalid-file-type rejection is a 400 with its own message |
| Upload.ExtensionRejectionAnswered | middleware/upload.js:32-37 | corrected, the extension rejection is a 400 with its own message |
| Upload.ApplicationError | server.js:125-130 | a forwarded error is a 500 whose message hides the error in production |
| AdminLogin.SessionStore.constructor | admin-login.js:116-129 | the store holds the given entry |
| AdminLogin.FormErrors | admin-login.js:39-65 | each of the four messages appears exactly under its condition; no message exactly for a trimmed-nonblank name of at least three characters and a password of at least six |
| AdminLogin.ValidateForm | admin-login.js:39-65 | the form is valid exactly when there is no error message |
| AdminLogin.PaddedShortNamePasses | admin-login.js:46-52 | the length check counts padding, so a one-letter name padded with spaces passes |
| AdminLogin.LoginTable | admin-login.js:165-170 | a user of the table at lines 13-18 authenticates exactly with their own password, which is compared exactly |
| AdminLogin.TableNamesUnpadded | admin-login.js:13-18 | every table name is its own trim and every password is non-empty |
| AdminLogin.AuthenticatesOnlyTableRows | admin-login.js:165-170 | an accepted login is a row of the table at lines 13-18 after trimming the name |
| AdminLogin.TableRowsPassValidation | admin-login.js:13-18 | every row of the table passes the form validation |
| AdminLogin.StoreSession | admin-login.js:116-129 | 'remember me' writes a session with an expiry to local storage; otherwise a session to tab storage; the other store is untouched |
| AdminLogin.RememberedSessionLasts | admin-login.js:119-128 | a remembered session, as checked at lines 136-149, is live exactly for thirty days after login |
| AdminLogin.CheckExistingSession | admin-login.js:131-149 | welcome back exactly with a live local session or any tab session; a dead local session is removed |
| AdminLogin.Submit | admin-login.js:152-185 | invalid forms and wrong credentials store nothing; a valid login stores the session for the trimmed name where 'remember me' says and leaves the other store as it was |
| AdminDashboard.IndexOf | admin-dashboard.js:343-347 | the search each editor repeats (also lines 575-579, 811-815, 1050-1054): the first position holding the id; none exactly when no entry has it |
| AdminDashboard.IndexOfDependsOnIdsOnly | admin-dashboard.js:343-347 | the search sees only the ids |
| AdminDashboard.Replaced | admin-dashboard.js:343-347 | an edit (in each of the four editors) replaces the first entry with the id and no other; without a match the list is unchanged |
| AdminDashboard.ReplaceKeepsIds | admin-dashboard.js:343-347 | an edit keeps every id in place |
| AdminDashboard.ReplaceIdempotent | admin-dashboard.js:343-347 | editing twice with the same entry is editing once |
| AdminDashboard.ReplaceFirstOnly | admin-dashboard.js:343-347 | a later entry with the same id is untouched |
| AdminDashboard.Saved | admin-dashboard.js:323-356 | a new entry is appended; an edit keeps length and ids and replaces the match |
| AdminDashboard.Deleted | admin-dashboard.js:432-442 | a delete (in each of the four lists) removes every entry with the id; every other one is kept, in order, with its multiplicity |
| AdminDashboard.DeleteUndoesAdd | admin-dashboard.js:432-442 | deleting a just-added entry with a fresh id restores the list |
| AdminDashboard.DeleteIdempotent | admin-dashboard.js:432-442 | deleting twice is deleting once |
| AdminDashboard.Toggled | admin-dashboard.js:1135-1146 | the first match's active flag flips and nothing else changes |
| AdminDashboard.ToggleTwiceRestores | admin-dashboard.js:1135-1146 | toggling twice restores the list |
| AdminDashboard.Published | admin-dashboard.js:2011-2045 | a blank title or content is refused; otherwise the trimmed announcement is appended, published, with the next number as id |
| AdminDashboard.PublishingKeepsIdsDistinct | admin-dashboard.js:2011-2045 | publishing keeps the ids counting up, so they stay distinct |
| AdminDashboard.Dashboard.constructor | admin-dashboard.js:33-37 | the dashboard holds the given stored lists and no previews |
| AdminDashboard.Dashboard.InitializeData | admin-dashboard.js:38-149 | each missing list is seeded with its sample data; stored lists are kept |
| AdminDashboard.Dashboard.SaveStaff | admin-dashboard.js:323-356 | the staff list ends as `Saved` says, the preview is cleared, and nothing else changes |
| AdminDashboard.Dashboard.SaveAlumni | admin-dashboard.js:555-589 | the alumni list ends as `Saved` says, the preview is cleared, and nothing else changes |
| AdminDashboard.Dashboard.SaveEvent | admin-dashboard.js:793-826 | the event list ends as `Saved` says, the preview is cleared, and nothing else changes |
| AdminDashboard.Dashboard.SaveAnnouncement | admin-dashboard.js:1033-1066 | the notice list ends as `Saved` says, the document preview is cleared, and nothing else changes |
| AdminDashboard.Dashboard.DeleteStaff | admin-dashboard.js:432-442 | a confirmed delete removes the id; otherwise nothing changes |
| AdminDashboard.Dashboard.DeleteAlumni | admin-dashboard.js:664-674 | a confirmed delete removes the id; otherwise nothing changes |
| AdminDashboard.Dashboard.DeleteEvent | admin-dashboard.js:895-905 | a confirmed delete removes the id; otherwise nothing changes |
| AdminDashboard.Dashboard.DeleteAnnouncement | admin-dashboard.js:1147-1157 | a confirmed delete removes the id; otherwise nothing changes |
| AdminDashboard.Dashboard.ToggleAnnouncement | admin-dashboard.js:1135-1146 | the notices end as `Toggled` says, with a notification naming the new state; no match writes nothing |
| AdminDashboard.Dashboard.PublishAnnouncement | admin-dashboard.js:2011-2045 | the published list ends as `Published` says, or the error is reported and nothing is written |
| AdminDashboard.CheckAuthentication | admin-dashboard.js:1362-1380 | redirects exactly when there is neither a live local session nor a tab session; an expired local session is removed |
| AdminDashboard.PagesAgreeOnStoredSessions | admin-dashboard.js:1362-1380 | for the sessions the login page writes, the dashboard admits exactly whom the login page welcomes back |
| AdminDashboard.PagesDisagreeWithoutExpiry | admin-dashboard.js:1362-1380 | a local session without an expiry is admitted by the dashboard but is not live for the login page |
| AdminDashboard.ExpiredSessionRedirectsOnce | admin-dashboard.js:1362-1380 | an expired local session redirects even beside a tab session; once removed, the tab session admits |
| AdminDashboard.Logout | admin-dashboard.js:1432-1445 | a confirmed logout clears both stores; otherwise nothing changes |
| AnnouncementsPage.ElapsedOf | announcements.js:173-186 | the largest unit with a positive whole count, with the count's bounds; just now under a minute or in the future |
| AnnouncementsPage.CountedLabel | announcements.js:173-186 | the label starts with the count, read back as the same number, and is plural exactly above one |
| AnnouncementsPage.TimeAgoAtBoundaries | announcements.js:173-186 | a day ago reads "1 day ago", an hour and a half "1 hour ago", under a minute and the future "Just now" |
| AnnouncementsPage.CategoryIcon | announcements.js:148-160 | the icon of a known category, the information icon otherwise |
| AnnouncementsPage.PublishedPrioritiesHaveIcons | announcements.js:148-160 | every priority the publishing form offers has an icon of its own; 'general' gets the default |
| AnnouncementsPage.CardFor | announcements.js:113-119 | the card is filed under the priority, or 'general' without one, with that category's icon |
| AnnouncementsPage.FrontCards | announcements.js:96-110 | at most one card per announcement, each for a stored, published one |
| AnnouncementsPage.FrontCardsCount | announcements.js:96-110 | exactly the published announcements get a card |
| AnnouncementsPage.CountSplitLast | announcements.js:96-110 | the published count of a list is that of its prefix plus its last element |
| AnnouncementsPage.NewestFirst | announcements.js:96-110 | for a list built by publishing, the cards come newest first |
| AnnouncementsPage.LoadDynamicAnnouncements | announcements.js:96-110 | the grid gains `FrontCards` of the stored list in front of its existing cards |
| AnnouncementsPage.ClicksToHide | announcements.js:189-216 | the least number of clicks (at least one) after which the counter reaches the number of cards |
| AnnouncementsPage.LoadMore.constructor | announcements.js:189-200 | all cards but the first six are hidden, and the button is shown |
| AnnouncementsPage.LoadMore.Click | announcements.js:202-216 | the next three cards are shown, exactly the first `currentlyShowing` are displayed, and the button hides once all are reached |

## Left out
Behaviour of the source that the model states as it is:
- Login does not consult the lockout: `routes/auth.js:36-64` never calls `isLocked`, so the lockout fields are modelled but login ignores them (`AuthRoutes.LoginIgnoresLockout`).
- The `Admin` schema is strict and declares none of `name`, `permissions`, `createdBy` and `lastLogout`, which the routes write. A document may hold them in memory (`AuthRoutes.RegisterDraft`, `AuthRoutes.ProfileEdit`, `AuthRoutes.LogoutSpec`), but `save()` drops them (`AdminModel.Strict`), so no stored account has them. Register therefore stores no name, permissions or creator, a profile update stores no name, logout stores nothing (`AuthRoutes.LogoutPersistsNothing`), and the permission guard answers every plain admin with a 500 (`Permissions.StoredAdminsFailPermissionCheck`).
- The listing statics and `GET /api/announcements` sort on the `priority` string, so their order is the as-written one (`AnnouncementModel.ListingKeyAsWritten`); the intended urgency order is `AnnouncementModel.ListingKey`, used by `AnnouncementModel.GetActiveCorrected`.
- The contact listing is sorted newest first (`sort: { createdAt: -1 }` at `routes/contact.js:127`); `ContactRoutes.ListMessages` states that order.
- `GET /api/announcements/:id` checks `isActive` and the expiry but not the publish date (`AnnouncementRoutes.ScheduledAnnouncementServedById`).
- The event listing's date range bounds only the start date (`EventRoutes.ListingRangeIsNarrowerThanDateRange`).
- The status patches and `findByIdAndUpdate` run no save hook (`EventRoutes.PatchSkipsStatusHook`).
- The event update records no modifier, unlike the announcement update.
- `handleUploadError` is not exported from `middleware/upload.js`; an identical copy in `utils/cloudinary.js:23-54` is the one mounted, by `routes/upload.js:114`, and the model of the handler stands for both. On the content routers (for example `routes/announcements.js:210`) no upload error handler is mounted, so every upload error there reaches the application handler of `server.js:125-130` as a 500 (`Upload.ApplicationError`).
- The dashboard writes its notices to the `announcements` key, while the public page reads `soetAnnouncements`; both lists are modelled, and only the second feeds the page.

Assumptions the model makes:
- Mongoose setters (the lower-casing of `email`) apply to query filters.
- A new account's `_id` is fresh: `AuthRoutes.RegisterSpec` and `AuthRoutes.Register` require that `newId` finds no account, as MongoDB's generated ids guarantee.
- A document read from the `admins` collection shows only the fields the schema declares; the store's invariant (`AdminModel.AllDeclared`) says so, and the store starts from such accounts.
- MongoDB leaves the order of records with equal sort keys open; the listings are stated up to that (`Sorting.IsListing`).
- Enum and range validation run on save; what the store does with a write is a parameter.
- The announcement and event instance methods (`Save`, `IncrementViews`, ...) assume the save succeeds. `Failed` in the routes is the lookup (`findById`) throwing, not a failed save. The contact document's saves run the enum validators and may be refused (`ContactModel.ContactMessage.Save`); other validators of the contact schema (required fields, lengths, the e-mail pattern) are assumed to hold for a loaded message, since the collection only holds messages that passed them.
- The order in which multer meets the per-file problems (count, field, type, extension, size) is an assumption about multer.
- A published announcement always has a `priority` string; `announcements.js:127` would throw on a missing one, which the model cannot express.

Not modelled:
- Mongoose timestamps (`createdAt`, `updatedAt` written by the driver): times are parameters.
- `GET /api/auth/me`: it only returns the stored account.
- Query-string arrays, date parsing, `$text` and `$regex` search, pagination and `populate`: the parsed values are parameters.
- The delete routes, `POST /api/contact`, the search statics and the remaining contact statics (`getUnread` and the others at `models/Contact.js:197-241`), and `timeSinceCreation` (`models/Contact.js:172-185`): they only forward to the store or format text.
- Rate limiting, concurrency between requests, and the internals of JWT and bcrypt: the hash, compare, sign and verify functions are parameters. `sign` takes the claims and the lifetime only; `jwt.sign` also embeds the issue time (`iat`), so two logins of one account at different times get different tokens in the source and may get the same one in the model.
- Multer's and Cloudinary's internals and `deleteFromCloudinary`: they are foreign calls.
- Inherited object properties (`toString` and the like) in the icon and credential lookups: maps hold only their own entries.
- The JSON text of the browser stores: entries are kept as values.
- Daylight-saving shifts in the 30-day expiry: a day is 86 400 000 ms.
- The `adminToken` keys removed by `performLogout`: no code writes them.
- Page rendering, `setTimeout` delays, `Math.random`, `formatDate` and the DOM text nodes that `insertBefore` places: the grid is a sequence of cards.
- `logActivity`: it writes to the console only.
- `comparePassword`: it is the bcrypt compare, a parameter.
- `LikeCount`, `IsExpired`, `IsLocked`, `AdminLogin.Authenticates`, `AnnouncementsPage.TimeAgo` and the four named guards `Permissions.CanManageUsers`, `Permissions.CanManageContent`, `Permissions.CanViewAnalytics` and `Permissions.CanManageSettings` are definitions used by the contracts of the members that read them; they carry no contract of their own (the guards are covered by `Permissions.NamedGuardsAdmit`, the label by `AnnouncementsPage.TimeAgoAtBoundaries`).
- `AuthRoutes.RegisterAsWrittenSpec`, `AuthRoutes.ProfileSpec` and `AuthRoutes.ChangePasswordSpec` are the route functions the lemmas beside them are about (`AuthRoutes.RegisterAsWrittenNeverCreates`, `AuthRoutes.ProfileUpdateStores`, `AuthRoutes.ChangePasswordGuarded` and others), and the methods are proved equal to them; they carry no contract of their own.

Contracts stated weaker than the source:
- LoginCheck, LoginSpec, RegisterCheck, ProfileEdit, ChangePasswordPrecheck: request-body fields are typed `Option<string>`, whereas `express.json()` (`server.js:42`) delivers any JSON value. An object such as `{"$ne": null}` for `email` reaches `findOne` as a query operator, and a number for `password` is truthy and makes bcrypt throw, which is the 500; neither is modelled.
- EventModel.NumberErrors: `maxParticipants` and `registrationFee` are integers in the model, while the schema declares them `Number` (`models/Event.js:68-79`), so a fee such as 99.5, valid in the source, cannot be represented.
- AdminLogin.FormErrors: the length checks count Unicode scalar values, while JavaScript's `.length` (`admin-login.js:49,58`) counts UTF-16 code units; a name with a character outside the Basic Multilingual Plane, such as "a😀", has length 3 in the source and 2 in the model.
- Strings.ToLower: lower-cases ASCII letters only; JavaScript's `toLowerCase` also maps the other Unicode letters, so `NormaliseEmail` of a non-ASCII address is not modelled exactly.

## Findings
| source | as written | input that shows it | evidently intended | confidence | as-written member | corrected member |
|---|---|---|---|---|---|---|
| routes/auth.js:136-144 | register builds the account without `username`, which `models/Admin.js:5-11` requires, so validation always refuses it | any register request from a super admin | the account is created | not executed | AuthRoutes.RegisterAsWrittenNeverCreates | AuthRoutes.RegisterCreatesAccount |
| models/Announcement.js:194 | `priority: -1` sorts the strings, so 'medium' > 'low' > 'high' | a 'high' and a 'low' announcement, neither pinned | urgent, high, medium, low | not executed | AnnouncementModel.HighListedLastAsWritten | AnnouncementModel.ListingOrder |
| middleware/upload.js:64-101 | the filter's message 'Invalid file type...' does not contain the case-sensitive 'File type', so it is forwarded and answered with a 500 | a `.txt` file with MIME type `text/plain` | a 400 with the message | not executed | Upload.MimeRejectionForwardedAsWritten | Upload.EveryUploadProblemAnswered |
| middleware/upload.js:20-30 | `req.route.path` is relative to the router, so it never names the folder | an upload to `POST /api/staff` (route path `/`) | the folder of the router | not executed | Upload.EveryUploadInDefaultFolder | Upload.UploadFoldersByRouter |
