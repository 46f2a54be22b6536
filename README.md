# Renkli Dünya kindergarten site — a Dafny model of its browser-side logic

The site keeps every piece of its state in the browser. The admin panel (`js/admin-script.js`) manages two things:

- the admin login pair, kept in `localStorage`, and a "logged in" flag kept in `sessionStorage`;
- three content lists that it mirrors to `localStorage`: activities, blog posts and contact messages.

Visitors use the public page (`js/script.js`). It shows the activities and blog posts as cards, and its contact form prepends messages to the inbox. A rate limit and a 1000-entry cap guard that inbox.

A set of singleton managers supports both pages:

- **security** (`js/utils/security.js`): input validation, sanitisation and a login lockout counter;
- **logger** (`js/utils/logger.js`): a level-filtered log;
- **error reporter** (`js/utils/errorReporting.js`): a bounded error buffer with batch "sent" marking;
- **analytics** (`js/utils/analytics.js`): per-name event buffers capped at 100;
- **performance** (`js/utils/performance.js`): named metrics and a time-to-live cache.

A constant configuration with environment selection (`config/app.config.js`) feeds all of them.

## How the model is built

- **Files and modules.** There is one Dafny module per source file: `Admin`, `Site`, `Security`, `Logging`, `ErrorReporting`, `Analytics`, `Performance` and `AppConfiguration`. They share four helper modules:
  - `Text`: JavaScript `trim`, `split`/`join`, ASCII `toLowerCase`, `split(sep).pop()`;
  - `Collections`: `findIndex`, `filter`, `slice(-n)`, insertion-ordered sets and an entry-by-entry map copy;
  - `Records`: the stored JSON objects, as datatypes;
  - `Storage`: one browser storage area, as a class over a `map` from key to value.
- **Managers and state.** Each manager that mutates fields is a class with those fields. This covers the logger, error reporter, analytics, performance and security managers. The admin panel's module-level arrays and its two storage areas become the `Admin.AdminPanel` class.
- **Methods.** Each method states its whole new state. Usually that is a specification function of the old state, and the properties the source promises are proved about that function as lemmas.
- **Loops.** The source's loops are kept as `while` loops with invariants:
  - `validateFormData`;
  - `sendBatchErrors`' marking;
  - `getErrorsByType`;
  - `cleanupCache`;
  - the entry-by-entry loops of `getMetrics` and `getAnalyticsData`, which fill a new object with the existing entries.
- **Time.** The clock (`Date.now()`, ISO timestamps) and browser facts (hostname, URL, user agent, random ids) are parameters. Where a handler reads the clock twice and both readings are stored, each reading is its own parameter: the contact form's rate-limit time and message id, and trackPageView's parameter timestamp and event timestamp. Elsewhere one reading stands for each handler call.
- **JSON.** `JSON.stringify`/`JSON.parse` are treated as an exact round trip. Storage therefore holds the `Storage.Value` datatype, one constructor per kind of stored value.
- **Falsy fallbacks.** A JavaScript fallback on a falsy number (`x || 5`) is modelled on `nat` with 0 standing for an absent or falsy setting.
- **Timers.** Each `setTimeout` whose effect matters becomes an explicit event:
  - the lockout expiry is `SecurityManager.ExpireLockout`. The timers all have the same delay, so they fire oldest first, and a FIFO queue records them;
  - the auto-login 1.5 s after the password setup is `AdminPanel.FireAutoLogin`, with a counter of scheduled logins.

Behaviours of the code worth knowing:

- **Missing ids.** Editing an activity with an unknown id is silent, and so is deleting one. Only blog posts and messages report "not found" (js/admin-script.js:395-413, 477-485).
- **No activity validation.** Adding an activity validates nothing. No title, date or location check exists (js/admin-script.js:350-381).
- **Login failures are not counted.** `handleLogin` never calls `recordLoginAttempt` (js/admin-script.js:135-152). The lockout counter is modelled on its own in `Security.SecurityManager`.
- **Unreadable stored values.** A stored value that does not parse makes `JSON.parse` throw; no `null` comes back. The model reads such a value as an empty list. For the locked accounts it keeps the current set, as the `catch` there does.
- **Duplicate ids.** Ids are `Date.now()` values, and their uniqueness is not enforced. The model takes the id as a parameter and claims no uniqueness.
- **Wrong keys in `resetAdminCredentials`.** It removes `adminSetupComplete` and `adminSession`, keys nothing else writes, and leaves `adminPasswordSetup` in place. This is modelled as written.
- **Unbounded logs.** The logger's `maxLogs` is never consulted, so its log grows without bound. This too is modelled as written.
- **Unreachable cache method.** In `PerformanceManager`, the `this.cache` Map field shadows the `cache(key, data, ttl)` method (js/utils/performance.js:10, 276). The method is therefore unreachable through the instance. Its body is modelled as `CacheData`.

## Model

| member | source | states |
|---|---|---|
| `Admin.StoredCredentials` | js/admin-script.js:22-28 | a pair exactly when a credentials record is stored, and then that record |
| `Admin.EffectiveCredentials` | js/admin-script.js:22-28 | the stored pair when one is stored, otherwise the built-in admin/admin123 |
| `Admin.LoginAcceptedIff` | js/admin-script.js:135-152 | login is accepted iff both fields equal the stored pair, or equal admin/admin123 while none is stored |
| `Admin.LoginAccepted` | js/admin-script.js:135-152 | a login is accepted iff the typed pair equals the effective credentials, the stored pair or else the built-in one |
| `Admin.SelectScreen` | js/admin-script.js:122-133 | dashboard iff the session flag is "true"; else login iff the setup flag is "true"; else the setup screen |
| `Admin.SetupDecision` | js/admin-script.js:219-232 | setup is saved iff username ≥ 3, password ≥ 6 and confirmation equal; the rejections come in that order |
| `Admin.RequirementsMatchSetup` | js/admin-script.js:288-316 | the three live requirement indicators are all lit exactly when the setup form would be saved |
| `Admin.SetupRequirements` | js/admin-script.js:288-316 | the username indicator is lit iff setup would not reject the username, the length indicator iff the password has ≥ 6 characters, the match indicator iff the two passwords agree and are non-empty |
| `Admin.ChangeDecision` | js/admin-script.js:259-274 | a change succeeds iff the current password matches and the new one is ≥ 6 and confirmed; a wrong current password is reported first, then a new password under 6 characters, then a confirmation that differs |
| `Admin.SetupThenLogin` | js/admin-script.js:235-237 | after a successful setup the new pair logs in, the old default no longer does unless it is the new pair, and checkAuth would now choose the login screen (setup itself leaves the screen as it is until the auto-login fires) |
| `Admin.ChangeThenLogin` | js/admin-script.js:276-277 | after a change the username is kept, logs in with the new password, and not with the old one unless they are equal |
| `Admin.StrengthScore` | js/admin-script.js:325-329 | the meter's score is at most 5, and 5 exactly when length ≥ 6 and all four character classes are present |
| `Admin.StrengthLabel` | js/admin-script.js:335-344 | "Zayıf" iff the score is ≤ 2, "Orta" iff it is 3, "Güçlü" iff it is ≥ 4 |
| `Admin.AcceptedPasswordsShowStrong` | js/admin-script.js:318-347 | every password the security validator accepts (default minimum) scores 5 and is labelled "Güçlü" |
| `Records.OrNull` | js/admin-script.js:365-369 | `value \|\| null`: null exactly for the empty string, the value otherwise |
| `Admin.NewActivity` | js/admin-script.js:361-371 | the created record carries the id and creation time given, the typed fields, and null for empty optional fields |
| `Admin.EditedActivity` | js/admin-script.js:397-407 | an edit keeps id and createdAt, stamps updatedAt, and takes every other field from the form |
| `Admin.OrEmpty` | js/admin-script.js:467-470 | `value \|\| ''` when a stored optional field is put back into the edit form |
| `Admin.NewActivityStored` | js/admin-script.js:365-369 | created activities never store the empty string in an optional field |
| `Admin.ActivityFormOf` | js/admin-script.js:461-475 | the form shows the record's text fields, and its optional fields turn back into the stored ones under `|| null` |
| `Admin.ActivityEditRoundTrip` | js/admin-script.js:461-475 | opening a stored activity in the edit form and saving it unchanged changes only updatedAt |
| `Admin.EditActivityById` | js/admin-script.js:395-408 | only the first record with the id is replaced; all others, the order and the length are kept; a missing id changes nothing |
| `Admin.TrimAll` | js/admin-script.js:524 | `.map(tag => tag.trim())`: same length, each piece trimmed |
| `Admin.TrimmedPieces` | js/admin-script.js:524 | every trimmed piece of the comma split has no blank ends and no comma |
| `Admin.ParseTags` | js/admin-script.js:524 | the empty field gives no tags; every tag is non-empty, trimmed and comma-free |
| `Admin.SplitJoinedTags` | js/admin-script.js:652 | splitting the `', '`-joined tags at commas gives the first tag and every other tag behind one space |
| `Admin.JoinedTagsNonEmpty` | js/admin-script.js:652 | joining a non-empty first tag gives a non-empty field |
| `Admin.TrimPaddedTag` | js/admin-script.js:524 | trimming a space-padded tag gives the tag back |
| `Admin.TrimPaddedTags` | js/admin-script.js:524 | trimming the padded pieces gives the tags back |
| `Admin.TagsRoundTrip` | js/admin-script.js:652 | parsing (split, trim, drop empties) the edit form's `join(', ')` of stored tags gives exactly those tags |
| `Admin.ParsedTagsAreTags` | js/admin-script.js:524 | every element of a parse result is a storable tag |
| `Admin.BlogFormCheck` | js/admin-script.js:503-516 | the form passes iff title, author and content are non-blank; otherwise the first blank one, in that order, is reported |
| `Admin.NewBlogPost` | js/admin-script.js:518-527 | a new post stores the trimmed title, author and content, null for empty optional fields, and the parsed tags |
| `Admin.EditedPost` | js/admin-script.js:569-578 | an edit keeps id and createdAt, stamps updatedAt, and rebuilds every other field from the form as on creation |
| `Admin.NewBlogPostStored` | js/admin-script.js:518-527 | created posts have trimmed text fields, tags that parse back, and no empty optional field |
| `Admin.BlogFormOf` | js/admin-script.js:643-658 | the form shows the post's text fields; for a stored post the optional fields turn back under `|| null` and the joined tags parse back to the post's tags |
| `Admin.PostEditRoundTrip` | js/admin-script.js:643-658 | opening a stored post in the edit form and saving it unchanged changes only updatedAt |
| `Admin.EditPostById` | js/admin-script.js:567-578 | only the first post with the id is replaced; all others, the order and the length are kept; a missing id changes nothing |
| `Admin.Preview` | js/admin-script.js:634 | content of at most 200 characters is shown whole; longer content shows its first 200 characters followed by "..." (203 in all) |
| `Admin.CategoryName` | js/admin-script.js:879-888 | a known category key maps to its label; any other key is shown as it is |
| `Admin.SetReadFlag` | js/admin-script.js:776-796 | only the first message with the id gets the flag; ids, order and length are kept; a missing id changes nothing |
| `Admin.SetReadFlagIdempotent` | js/admin-script.js:776-785 | marking twice is marking once |
| `Admin.MarkReadThenUnread` | js/admin-script.js:776-796 | marking an unread message read and then unread restores the inbox |
| `Admin.FilteredMessages` | js/admin-script.js:713-720 | "unread" keeps every unread message and only those, "read" every read one and only those, anything else keeps all; every message shown comes from the inbox |
| `Admin.ReadAndUnreadPartition` | js/admin-script.js:713-720 | the unread and read views together count every message |
| `Admin.FilterViewsConcat` | js/admin-script.js:713-720 | filtering keeps source order: the view of newer + older messages is the view of each part, in that order |
| `Admin.Inbox` | js/admin-script.js:722-737 | the empty-state heading for the filter exactly when the filtered list is empty, otherwise the filtered messages |
| `Admin.AdminPanel.constructor` | js/admin-script.js:38-60 | page load reads the three lists from storage (empty when missing) and picks the screen as checkAuth does |
| `Admin.AdminPanel.CheckAuth` | js/admin-script.js:122-133 | the screen becomes the one selected by the two flags; nothing else changes |
| `Admin.AdminPanel.HandleLogin` | js/admin-script.js:135-152 | success iff the pair is accepted; success sets the session flag and shows the dashboard; failure changes nothing |
| `Admin.AdminPanel.Logout` | js/admin-script.js:154-158 | the session flag is removed and the login screen shown |
| `Admin.AdminPanel.HandlePasswordSetup` | js/admin-script.js:212-246 | a rejection writes nothing; success stores the pair and the setup flag and schedules one auto-login |
| `Admin.AdminPanel.FireAutoLogin` | js/admin-script.js:242-245 | the scheduled auto-login sets the session flag and shows the dashboard |
| `Admin.AdminPanel.HandleChangePassword` | js/admin-script.js:248-282 | on success the stored pair is the old username with the new password; any failure leaves storage unchanged |
| `Admin.AdminPanel.ResetAdminCredentials` | js/admin-script.js:10-16 | exactly the three named keys are removed, then the page reloads from storage |
| `Admin.AdminPanel.HandleAddActivity` | js/admin-script.js:350-381 | the new record is at index 0, followed by the old list unchanged, and the list is written back |
| `Admin.AdminPanel.HandleEditActivity` | js/admin-script.js:383-414 | the list becomes EditActivityById; storage is written only when the id was found |
| `Admin.AdminPanel.DeleteActivity` | js/admin-script.js:477-485 | after confirmation every record with the id is removed and the list written; without it nothing changes |
| `Admin.AdminPanel.HandleAddBlog` | js/admin-script.js:488-538 | a failing check writes nothing; otherwise the new post is at index 0 and the list is written |
| `Admin.AdminPanel.HandleEditBlog` | js/admin-script.js:540-587 | validation first, then not-found; saved exactly when valid and found, and then the list becomes EditPostById |
| `Admin.AdminPanel.DeleteBlogPost` | js/admin-script.js:660-674 | removed iff confirmed and present; storage is written only then; otherwise not-found or not-confirmed and nothing changes |
| `Admin.AdminPanel.SetMessageRead` | js/admin-script.js:776-796 | the inbox becomes SetReadFlag; storage is written only when the id was found |
| `Admin.AdminPanel.MarkAsRead` | js/admin-script.js:776-785 | SetMessageRead with the flag true |
| `Admin.AdminPanel.MarkAsUnread` | js/admin-script.js:787-796 | SetMessageRead with the flag false |
| `Admin.AdminPanel.DeleteMessage` | js/admin-script.js:798-812 | removed iff confirmed and present; storage is written only then; otherwise nothing changes |
| `Admin.AdminPanel.AutoSave` | js/admin-script.js:930-934 | the three lists are written back under their keys |
| `Storage.StoredActivities` | js/admin-script.js:38 | the stored activity list, or the empty list when the key is missing |
| `Storage.StoredBlogPosts` | js/admin-script.js:39 | the stored post list, or the empty list when the key is missing |
| `Storage.StoredMessages` | js/script.js:256 | the stored inbox, or the empty list when the key is missing |
| `Storage.StoredListsRoundTrip` | js/admin-script.js:930-934 | a list written under its key is read back unchanged on the next load, and the other two lists are unaffected |
| `Site.ContactSanitizedData` | js/script.js:211-224 | the validated contact form always carries the sanitised name, email and message |
| `Site.Inboxed` | js/script.js:257-262 | the new message is first; at most 1000 remain; the rest is the old inbox, without its last entry when it was full |
| `Site.HandleContactForm` | js/script.js:209-265 | invalid or rate-limited submissions write nothing; an accepted one writes the capped inbox and the submission time; the rate-limit clock reading and the message id are separate readings |
| `Site.AcceptedIff` | js/script.js:226-241 | a message is accepted iff the form validates and the rate limit does not apply; it is invalid iff validation fails |
| `Site.ContactDecision` | js/script.js:226-253 | validation errors are reported as found; rate-limited iff the form validates and the limit applies; an accepted message carries the given id and createdAt, unread, ip "client-side" and the user agent |
| `Site.RateLimitBoundary` | js/script.js:235-241 | with a stored time t, a submission at now is refused iff now − t < 30000; exactly 30000 ms later is allowed |
| `Site.RateLimited` | js/script.js:235-241 | never limited without a stored submission; otherwise limited iff now is before the stored time plus 30000 ms |
| `Site.PassingTextField` | js/utils/security.js:169-184 | a required text field that passes has a sanitised length within its limits |
| `Site.PassingEmailField` | js/utils/security.js:145-150 | an email field that passes holds a valid address after sanitising |
| `Site.AcceptedMessageShape` | js/script.js:244-253 | an accepted message is unread, carries the sanitised fields, a 2–100 character name, a 10–1000 character message and a valid email |
| `Site.SecondSubmissionRateLimited` | js/script.js:235-265 | after an accepted submission at now, any submission before now + 30000 is refused |
| `Site.ShownImage` | js/script.js:162 | a picture is shown exactly for a non-empty image reference |
| `Site.ActivityGrid` | js/script.js:148-171 | the no-content block iff there are no activities, otherwise one card per activity in order |
| `Site.BlogGrid` | js/script.js:179-201 | the no-content block iff there are no posts, otherwise one card per post in order |
| `Site.ActivityGridAfterAdd` | js/script.js:159-171 | after an activity is prepended its card comes first, followed by the previous cards |
| `Site.BlogGridAfterAdd` | js/script.js:190-201 | after a post is prepended its card comes first, followed by the previous cards |
| `Security.ValidateEmail` | js/utils/security.js:29-32 | an accepted address has at least six characters (one local, one domain, a dot and two letters) |
| `Security.ValidEmailMatches` | js/utils/security.js:29-32 | every address validateEmail accepts splits as local@domain.tld with the pattern's character classes |
| `Security.MatchingEmailValid` | js/utils/security.js:29-32 | every address of the form local@domain.tld, for any such split, is accepted |
| `Security.ValidateEmailIff` | js/utils/security.js:29-32 | validateEmail accepts exactly the addresses the regular expression describes |
| `Security.PhoneSeparatorIgnored` | js/utils/security.js:39-42 | a space, dash or parenthesis anywhere in a number does not change the verdict |
| `Security.ValidatePhone` | js/utils/security.js:39-42 | an accepted number is non-empty and keeps between 1 and 17 characters once separators are removed |
| `Security.PhoneDigits` | js/utils/security.js:39-42 | once separators are removed, an accepted number has 1 to 17 characters, all digits except an optional leading '+' |
| `Security.RemoveJavascriptProtocol` | js/utils/security.js:120 | one case-insensitive removal pass: the result is no longer than the input and uses only its characters |
| `Security.ProtocolOccurrenceRemoved` | js/utils/security.js:120 | an occurrence of "javascript:" anywhere, in any case, makes the pass shorten the text |
| `Security.ProtocolFreeKept` | js/utils/security.js:120 | text with no such occurrence passes through the pass unchanged |
| `Security.RemoveJavascriptProtocolChangesIff` | js/utils/security.js:120 | the pass changes the text iff "javascript:" occurs in it, in any case |
| `Security.HandlerAtIff` | js/utils/security.js:121 | the handler pattern matches at a position iff "on", one or more word characters and '=' start there |
| `Security.RemoveEventHandlers` | js/utils/security.js:121 | one removal pass of the handler pattern: the result is no longer than the input and uses only its characters |
| `Security.HandlerOccurrenceRemoved` | js/utils/security.js:121 | a handler match anywhere makes the pass shorten the text |
| `Security.HandlerFreeKept` | js/utils/security.js:121 | text with no handler match passes through the pass unchanged |
| `Security.RemoveEventHandlersChangesIff` | js/utils/security.js:121 | the pass changes the text iff a handler match occurs in it |
| `Security.SanitizeText` | js/utils/security.js:115-123 | a non-string gives ""; the result has no '<' or '>', no blank ends, and only characters of the input |
| `Security.CleanTextKept` | js/utils/security.js:115-123 | text with no angle brackets, neither pattern and no blank ends comes through sanitizeText unchanged |
| `Security.EscapeHtml` | js/utils/security.js:102-108 | the escaped markup has no '<' or '>' characters |
| `Security.SanitizeHtml` | js/utils/security.js:102-108 | a non-string gives ""; a string gives its escaped markup |
| `Security.EscapeHtmlRoundTrip` | js/utils/security.js:102-108 | reading the escaped markup back as text gives the original string |
| `Security.MinPasswordLength` | js/utils/security.js:50 | the configured minimum, or 6 when it is absent |
| `Security.PasswordScore` | js/utils/security.js:79-84 | the score is at most 5; it is 5 iff the length is at least 8 and all four character classes are present; at least 4 with all four classes, or with length ≥ 8 and a lowercase, an uppercase and a digit; at most 4 below 8 characters |
| `Security.StrengthOf` | js/utils/security.js:86-88 | strong iff the score is ≥ 4, medium iff it is 3, weak iff it is ≤ 2 |
| `Security.ValidatePassword` | js/utils/security.js:49-95 | valid iff the length reaches the minimum and all four classes are present, iff there are no errors; each of the five errors (too short, no lowercase, no uppercase, no digit, no special character) appears exactly when its check fails; the strength is the label of the score; a valid password is strong |
| `Security.FileExtension` | js/utils/security.js:375 | a '.' followed by text that contains no further dot |
| `Security.FileExtensionOf` | js/utils/security.js:375 | the extension of base.ext is ".ext" lower-cased, whatever the base holds |
| `Security.FileExtensionWithoutDot` | js/utils/security.js:375 | a name without a dot is its own extension |
| `Security.ValidateFile` | js/utils/security.js:355-382 | valid iff size ≤ the maximum (default when 0), the type is allowed and the extension is allowed, iff there are no errors; the too-large, type and extension errors each appear exactly when that check fails |
| `Security.CheckField` | js/utils/security.js:169-184 | the length errors name only non-empty sanitised values that break the limit |
| `Security.CheckFieldPassesIff` | js/utils/security.js:145-184 | a field passes iff the type check, the required check and both length limits pass |
| `Security.LengthLimitsSkipEmpty` | js/utils/security.js:175-184 | the length limits do not apply to a value that sanitises to "" |
| `Security.FoldEntry` | js/utils/security.js:138-187 | a field without a rule changes nothing; a ruled field stores its checked value, records its error when it fails, and can only turn isValid false |
| `Security.SanitizeAndCheckType` | js/utils/security.js:142-167 | the type-specific sanitising and check of one field |
| `Security.ValidateField` | js/utils/security.js:142-184 | the sanitised value and the verdict of the ordered checks, where a later failing check overwrites an earlier error |
| `Security.ValidateFormData` | js/utils/security.js:131-190 | the loop computes the entry-by-entry report |
| `Security.FormValidIffNoErrors` | js/utils/security.js:131-190 | isValid holds iff errors is empty |
| `Security.SanitizedFieldsAreRuled` | js/utils/security.js:138-186 | exactly the fields that have a rule appear in sanitizedData; errors name only such fields |
| `Security.ValidFormFieldsPass` | js/utils/security.js:131-190 | in a valid form every ruled field passed every check |
| `Security.SanitizedValueOfLastEntry` | js/utils/security.js:186 | a field's sanitised value comes from its last entry |
| `Security.StoredLockedAccounts` | js/utils/security.js:315-322 | empty when nothing is stored; for a stored identifier list, exactly its members; never a repeat when the current set has none |
| `Security.LockedAccountsRoundTrip` | js/utils/security.js:307-322 | saving the locked set and loading it back gives the same set |
| `Security.SecurityManager.constructor` | js/utils/security.js:7-22 | empty counters, the configured or default limits, and the locked set loaded from storage |
| `Security.SecurityManager.IsAccountLocked` | js/utils/security.js:197-199 | membership in the locked set; every identifier at the attempt limit is locked |
| `Security.SecurityManager.SaveLockedAccounts` | js/utils/security.js:307-310 | the locked set is written under locked_accounts |
| `Security.SecurityManager.LoadLockedAccounts` | js/utils/security.js:315-322 | the locked set becomes what is stored |
| `Security.SecurityManager.LockAccount` | js/utils/security.js:227-237 | adds the identifier, schedules its unlock, and persists the set |
| `Security.SecurityManager.RecordLoginAttempt` | js/utils/security.js:206-221 | a success deletes counter and lock; a failure increments the counter and locks at the limit |
| `Security.SecurityManager.ExpireLockout` | js/utils/security.js:231-234 | the oldest unlock timer deletes its lock and counter; the stored list is not rewritten |
| `Security.FailFiveTimes` | js/utils/security.js:205-237 | five failures in a row lock a fresh identifier, start one unlock timer and persist the lock |
| `Security.LockoutScenario` | js/utils/security.js:206-237 | five failures lock, the expiry unlocks, and a success clears a second lock while storage still lists it |
| `Logging.LevelNamed` | js/utils/logger.js:184 | a name that is found belongs to the level it names |
| `Logging.LevelNameRoundTrip` | js/utils/logger.js:183-195 | every level is found again under its own name |
| `Logging.LevelWithRank` | js/utils/logger.js:194 | the table lists the levels in rank order |
| `Logging.InitialLevel` | js/utils/logger.js:15 | `rank \|\| 2`: "error" and unknown names give 2; warn and debug give their ranks |
| `Logging.ConfiguredInitialLevel` | js/utils/logger.js:8-15 | the logger starts at debug on the development host and at info everywhere else |
| `Logging.CreateLogEntry` | js/utils/logger.js:91-114 | the entry carries level, message and context, plus data exactly when it is truthy (a non-empty string) and error when given |
| `Logging.Logger.constructor` | js/utils/logger.js:7-18 | the initial level from the configuration, no entries, maxLogs 1000 |
| `Logging.Logger.ShouldLog` | js/utils/logger.js:79-81 | a level passes iff its rank is at most the current level; errors always pass |
| `Logging.Logger.Log` | js/utils/logger.js:26-72 | exactly one entry is appended iff the level passes, otherwise nothing changes |
| `Logging.Logger.LogError` | js/utils/logger.js:26-33 | always appends one entry |
| `Logging.Logger.LogWarn` | js/utils/logger.js:40-46 | appends one entry iff the current level is at least 1 |
| `Logging.Logger.LogInfo` | js/utils/logger.js:53-59 | appends one entry iff the current level is at least 2 |
| `Logging.Logger.LogDebug` | js/utils/logger.js:66-72 | appends one entry iff the current level is 3 |
| `Logging.Logger.GetLogs` | js/utils/logger.js:160-162 | a copy equal to the log |
| `Logging.Logger.ClearLogs` | js/utils/logger.js:167-169 | the log becomes empty |
| `Logging.Logger.SetLogLevel` | js/utils/logger.js:183-187 | a known name sets its rank and getLogLevel then returns it; unknown names are ignored |
| `Logging.Logger.GetLogLevel` | js/utils/logger.js:193-195 | the name of the level whose rank is current |
| `Logging.ProductionLogging` | js/utils/logger.js:15-81 | under the production configuration, of one info, one debug and one error entry exactly two are kept |
| `ErrorReporting.UserId` | js/utils/errorReporting.js:193-196 | never empty; the stored user id whenever a non-empty one is stored |
| `ErrorReporting.MarkSent` | js/utils/errorReporting.js:282-284 | every record flagged sent, nothing else changed |
| `ErrorReporting.MarkSentLeavesNothingUnsent` | js/utils/errorReporting.js:254-284 | after marking, a second batch is empty |
| `ErrorReporting.MarkSentOfSent` | js/utils/errorReporting.js:254-284 | marking a fully sent list changes nothing |
| `ErrorReporting.Kinds` | js/utils/errorReporting.js:592-597 | the types of the errors, one per error, in order |
| `ErrorReporting.KindsCount` | js/utils/errorReporting.js:590-599 | each type is counted as often as errors of that type occur |
| `ErrorReporting.WindowsNest` | js/utils/errorReporting.js:605-615 | a longer window counts at least as many errors, and none counts more than all |
| `ErrorReporting.KeepLastBound` | js/utils/errorReporting.js:139-144 | a full buffer evicts its oldest error and stays within bound, with the new error last |
| `ErrorReporting.ErrorReportingManager.constructor` | js/utils/errorReporting.js:7-113 | maxErrors is the configured value or 100; stored errors are loaded only when reporting is enabled |
| `ErrorReporting.StoredErrors` | js/utils/errorReporting.js:103-113 | the stored error list exactly as stored, and [] when the key is missing |
| `ErrorReporting.ErrorReportingManager.StoreErrorsLocally` | js/utils/errorReporting.js:213-219 | the buffer is written under error_reports |
| `ErrorReporting.ErrorReportingManager.ReportError` | js/utils/errorReporting.js:129-147 | the buffer is the last maxErrors of old + [new], the new error is last, and it is stored |
| `ErrorReporting.ErrorReportingManager.SendBatchErrors` | js/utils/errorReporting.js:251-291 | the batch is the unsent errors; nothing changes when it is empty, otherwise they are all marked sent and stored |
| `ErrorReporting.ErrorReportingManager.GetErrorsByType` | js/utils/errorReporting.js:590-599 | the counts per type sum to the number of errors |
| `ErrorReporting.ErrorReportingManager.GetErrorsByTime` | js/utils/errorReporting.js:605-615 | lastHour ≤ lastDay ≤ total, using the strict windows of one hour and one day |
| `ErrorReporting.ErrorReportingManager.GetErrorReport` | js/utils/errorReporting.js:576-584 | total, counts by type and by time, and the last up-to-10 errors |
| `ErrorReporting.ErrorReportingManager.ClearErrorData` | js/utils/errorReporting.js:628-631 | no errors remain and the stored key is removed |
| `Analytics.ResourceType` | js/utils/analytics.js:274-290 | the table's type for the lower-cased last dot-segment, "other" exactly when it is not in the table |
| `Analytics.ResourceTypeOfExtension` | js/utils/analytics.js:275 | a URL ending in ".ext" is classified by ext alone, ignoring case |
| `Analytics.ResourceTypeWithoutDot` | js/utils/analytics.js:275 | a URL without a dot is classified by the whole URL |
| `Analytics.WithData` | js/utils/analytics.js:137-143 | the spread keeps all keys of both objects, and the caller's data wins on a clash |
| `Analytics.AppendCapped` | js/utils/analytics.js:117-123 | the event is last; at most 100 remain, and the oldest are the ones dropped |
| `Analytics.AnalyticsManager.constructor` | js/utils/analytics.js:7-12 | no events recorded |
| `Analytics.AnalyticsManager.TrackCustomEvent` | js/utils/analytics.js:104-129 | only this name's buffer changes, becoming the capped append of the new event |
| `Analytics.AnalyticsManager.TrackEvent` | js/utils/analytics.js:88-97 | the event is recorded in its name's capped buffer; gtag forwarding is not modelled |
| `Analytics.AnalyticsManager.TrackPageView` | js/utils/analytics.js:66-81 | records page_view with page, title, url and the parameters' own timestamp reading, separate from the event's |
| `Analytics.AnalyticsManager.TrackUserInteraction` | js/utils/analytics.js:137-143 | records under user_interaction |
| `Analytics.AnalyticsManager.TrackFormSubmission` | js/utils/analytics.js:151-157 | records under form_submission |
| `Analytics.AnalyticsManager.TrackPerformance` | js/utils/analytics.js:165-171 | records under performance_metric |
| `Analytics.AnalyticsManager.TrackError` | js/utils/analytics.js:179-185 | records under error |
| `Analytics.AnalyticsManager.GetAnalyticsData` | js/utils/analytics.js:375-387 | a new object holding every buffer (the same arrays, not copies), stamped with the time and the URL |
| `Analytics.AnalyticsManager.ClearAnalyticsData` | js/utils/analytics.js:400-402 | every buffer is gone |
| `Analytics.TrackingKeepsBuffersWellFormed` | js/utils/analytics.js:104-123 | every buffer stays within 100 events of its own name, however events arrive |
| `Performance.EffectiveTtl` | js/utils/performance.js:280 | the given ttl when nonzero, else the cache duration when nonzero, else one day; a ttl of 0 falls back |
| `Performance.LiveEntries` | js/utils/performance.js:308-315 | exactly the entries that are not stale remain, unchanged |
| `Performance.SweepsCompose` | js/utils/performance.js:308-315 | an earlier sweep never changes what a later sweep leaves |
| `Performance.FreshEntrySurvives` | js/utils/performance.js:276-285 | an entry written at now survives the sweep at now |
| `Performance.EntryMetric` | js/utils/performance.js:108-120 | resources, and only resources, carry a size and the resource type |
| `Performance.EntryKey` | js/utils/performance.js:122 | "entry_" followed by the entry name |
| `Performance.EntryKeysDistinct` | js/utils/performance.js:122 | distinct entry names get distinct keys |
| `Performance.PerformanceManager.constructor` | js/utils/performance.js:7-13 | empty metrics and cache |
| `Performance.PerformanceManager.EndMeasurement` | js/utils/performance.js:50-71 | the measurement is stored under its name, overwriting an earlier one |
| `Performance.PerformanceManager.HandlePerformanceEntry` | js/utils/performance.js:108-123 | the entry's record is stored under its entry key |
| `Performance.PerformanceManager.CleanupCache` | js/utils/performance.js:308-315 | exactly the stale entries are deleted |
| `Performance.PerformanceManager.CacheData` | js/utils/performance.js:276-285 | the entry is stored with its effective ttl, then the cache is swept; the new entry survives |
| `Performance.PerformanceManager.GetCached` | js/utils/performance.js:292-303 | null for a missing key; a stale entry is deleted and null returned; a live one, even at exactly ttl, returns its data |
| `Performance.PerformanceManager.GetMetrics` | js/utils/performance.js:380-386 | a copy equal to the metrics map |
| `Performance.PerformanceManager.ClearMetrics` | js/utils/performance.js:399-401 | no metrics remain |
| `AppConfiguration.CurrentEnvironment` | config/app.config.js:126-132 | development iff the hostname is localhost or 127.0.0.1, otherwise production |
| `AppConfiguration.GetConfig` | config/app.config.js:135-142 | environment is the selected entry, currentEnvironment its name, every other section as in AppConfig |
| `AppConfiguration.EnvironmentValues` | config/app.config.js:19-30 | debug with level "debug" on the development host, no debug with level "error" elsewhere |
| `AppConfiguration.ConfiguredLimits` | config/app.config.js:33-114 | 5 attempts, 900000 ms lockout, minimum password 6, 100 error reports, one-day cache |
| `Collections.FindIndex` | js/admin-script.js:395 | `findIndex`: the first index with the id, or -1 exactly when none has it |
| `Collections.UpdateFirst` | js/admin-script.js:567-569 | only the first element with the id is replaced; length and every other element are kept; a missing id changes nothing |
| `Collections.WithoutKey` | js/admin-script.js:479 | `filter(x => x.id !== id)`: all records with the id go, all others stay in their order with repeats kept (it is `Filter` with `key(x) != id`); shorter iff the id was present |
| `Collections.Filter` | js/utils/errorReporting.js:254 | `filter(p)`: keeps exactly the elements satisfying p |
| `Collections.KeepLast` | js/utils/errorReporting.js:143 | `slice(-n)` for n ≥ 1 (every caller's bound is at least 1): the last n elements, or all when there are fewer |
| `Collections.Dedup` | js/utils/security.js:318 | `new Set(list)`: no repeats, the same members |
| `Collections.CopyEntries` | js/utils/performance.js:381-385 | the entry-by-entry copy equals the map |
| `Text.SplitPiecesOmitSeparator` | js/admin-script.js:524 | `split(',')`: no piece contains the separator |
| `Text.JoinSplit` | js/admin-script.js:524 | joining the pieces of `split(',')` with ',' gives the input back |
| `Text.LastSegment` | js/utils/analytics.js:275 | `split('.').pop()`: the text after the last separator, or the whole string without one |

## Left out

- **Page rendering:** DOM work, markup, modals, notifications, scrolling, the admin list cards, `updateStats`, and `formatDate`, which needs the locale service. Only the public "one card per item, in order" mapping and the 200-character preview are modelled.
- `js/utils/accessibility.js` is not part of this model. It is DOM and ARIA work only.
- **Timers with no modelled effect:** the 30-second `autoSave` interval, the batch-reporting interval, the notification removal, the contact form's 2-second cosmetic delay, and debounce/throttle. `AutoSave` and `SendBatchErrors` are modelled as operations that can be invoked.
- **Network and browser services:** `sendBeacon`/`fetch`, gtag loading and calls, service worker registration, and the CSP and X-Frame meta tags.
- **CSRF tokens:** their generation needs `crypto.getRandomValues`, and `validateCSRFToken` only compares against a stored token.
- **Random and derived ids:** session ids, error ids and the logger's session id are random or clock-derived. They are parameters.
- **Measurements:** everything `performance.now`, memory readings, PerformanceObserver, web vitals, CLS sums, lazy loading and image/preload/prefetch produce. These are floating point browser measurements; only their storage in `metrics` is modelled.
- **Thin wrappers:** `encrypt`/`decrypt` wrap `btoa`/`atob`.
- **Export and download:** `exportData`, `exportLogs`, `exportMetrics`, `exportAnalyticsData` and `exportErrorData` are JSON text for downloads.
- **Side calls:** the logger, analytics and console calls made inside `handleContactForm`, `reportError` and `endMeasurement`, and the logger's `performance`/`userAction` wrappers. They write only to the other managers and the console.
- **JSON behaviour:** JSON is taken as an exact round trip. A stored value of the wrong shape reads as the empty list, where the page would fail.
- **Interactive confirmation:** `confirm()` is a boolean input.
- **String semantics:**
  - strings are sequences of code points;
  - `toLowerCase` and the `/i` regex flag are ASCII-only;
  - lookups of prototype keys such as `categories['toString']` are not modelled;
  - `parseInt` of the hidden id field is taken to give back the id, since NaN ids are not modelled.
- **The public page's sample-data block** (js/script.js:456-503) only holds commented-out assignments, so it has no effect.
- `Security.RemoveJavascriptProtocol`, `Security.RemoveEventHandlers`, `Security.SanitizeText`: the removals are single passes, so the model does not claim the result is free of these patterns. What a pass removes is stated only as "the text changes iff the pattern occurs", not as the exact removed spans.
- `Admin.Preview`: equality with the content is stated only for content of at most 200 characters. A longer content can produce the same 203 characters as a shorter one that already ends in "...", so no "iff" holds.
- `Security.SecurityManager.ExpireLockout`: models timers of one common delay as a FIFO queue. A lockout duration changed between locks is not modelled.
- `Performance.PerformanceManager.CacheData`: models the body of the shadowed `cache` method, which no caller can reach through the instance.
