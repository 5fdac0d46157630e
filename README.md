# Se-Embe in Dafny

Se-Embe is a small reminders app for birthdays, anniversaries and other
celebrations: a React client and two Express/MongoDB backends. The JWT
backend lives under `backend/`. The cookie-session server lives under `server/`.
This project models the logic underneath, with each collection as an
in-memory map or sequence, and proves what that logic promises.

Client:

- the calendar widget's month lengths, month grid and month navigation (`Calendar`);
- the text and date helpers `truncateText`, `isValidEmail`, `getTodaysDate` and `isToday` (`Utils`, `EmailRegex`);
- the add/edit event and celebrant forms: submit guards, saved records and edit-mode prefill, including the round trip between an event-type slug and its label (`EventForm`, `CelebrantForm`);
- the authentication reducer (`AuthContext`);
- the list hooks, with their seeded lists (`ListHooks`, `SeedLists`);
- the API helper's URL, header merge, endpoint construction and error text (`ApiClient`).

JWT backend:

- the celebrant schema's casting, validation, age and upcoming-birthday rules (`CelebrantSchema`, `SchemaString`);
- the user schema's validators, the pre-save hashing rule, `toSafeObject` and the lookup by address (`UserSchema`);
- the owner-scoped celebrant and event routes, over a store whose invariants every route keeps (`BackendStore`, `CelebrantRoutes`, `EventRoutes`).

Cookie-session server:

- the owner-or-admin guard and the controllers for users, celebrants, events and messages (`ServerStore`, `ServerUsers`, `ServerCelebrants`, `ServerEvents`, `ServerMessages`);
- registration and login (`AuthController`);
- the `protect` and `isAdmin` middleware (`AuthMiddleware`);
- the `jwt` cookie (`Tokens`, `Http`);
- the CORS origin policy (`Cors`).

Shared modules: `Js` holds JavaScript values and truthiness, `Strings` holds the string operations, and `Wrappers` holds `Option` and `Result`.

Inputs come in as parameters wherever the source reads them from outside:

- the clock: today, now, `getDay()` of the 1st;
- generated ids;
- environment variables;
- what `jwt.verify` and bcrypt's compare decide.

Some quirks of the source are stated and proved as they are:

- a negative `maxLength` makes `truncateText` non-idempotent (`Utils.TruncateNegativeNotIdempotent`);
- the calendar grid is longer than 35 cells when the month does not fit (`Calendar.BuildGrid`);
- CORS allows an empty `Origin` header, because of `!origin` (`Cors.CheckOrigin`);
- the `https://*.pages.dev` entry matches only itself; the suffix test does the wildcard work (`Cors.PagesEntriesRedundant`);
- `createMessage` answers with the document under `message`, not the success text (`ServerMessages.CreatedBodyHoldsDocument`);
- a listing with a zero `limit` has no page count (`BackendStore.PageCount`);
- hashing a password on every save would lock the user out; the pre-save guard prevents it (`UserSchema.UnguardedHashBreaksLogin`).

## Model

| member | source | states |
|---|---|---|
| Calendar.MonthDays | src/components/calendar/index.jsx:35-55 | 31 for months 0, 2, 4, 6, 7, 9 and 11; 30 for months 3, 5, 8 and 10; for February 29 exactly in a Gregorian leap year, else 28; always 28..31 |
| Calendar.YearLength | src/components/calendar/index.jsx:35-55 | the twelve month lengths add up to 366 in a leap year and 365 otherwise |
| Calendar.PrevMonthOf | src/components/calendar/index.jsx:64-65 | the month before stays in 0..11 and is one step back on the month time line (January goes to December of the year before) |
| Calendar.NextMonthOf | src/components/calendar/index.jsx:109-116 | the month after stays in 0..11 and is one step forward on the month time line (December goes to January of the next year) |
| Calendar.IndexInjective | src/components/calendar/index.jsx:99-116 | two valid months at the same position of the time line are the same month and year |
| Calendar.NavigationRoundTrip | src/components/calendar/index.jsx:99-116 | next then previous, and previous then next, give back the same month and year |
| Calendar.Forward | src/components/calendar/index.jsx:109-116 | any number of next-month steps keeps the month in 0..11 |
| Calendar.ForwardIndex | src/components/calendar/index.jsx:109-116 | n next-month steps move n positions along the time line |
| Calendar.ForwardTwelve | src/components/calendar/index.jsx:109-116 | twelve next-month steps reach the same month of the following year |
| Calendar.GridUnique | src/components/calendar/index.jsx:58-96 | the grid description (previous-month tail, the month's days, next-month padding) determines the grid completely |
| Calendar.BuildGrid | src/components/calendar/index.jsx:58-96 | the three loops build `firstDay` cells numbered up to the previous month's last day (December of the year before for January), then days 1..total flagged current, then 1, 2, ... up to 35 cells; the length is max(35, firstDay + total), never cut |
| Calendar.CalendarView.constructor | src/components/calendar/index.jsx:5-7 | the widget opens on the given month and year with an empty grid |
| Calendar.CalendarView.HandlePrevMonth | src/components/calendar/index.jsx:99-106 | the shown month becomes the month before, the month stays in 0..11 and the grid is untouched |
| Calendar.CalendarView.HandleNextMonth | src/components/calendar/index.jsx:109-116 | the shown month becomes the month after, the month stays in 0..11 and the grid is untouched |
| Calendar.CalendarView.GenerateCalendarDays | src/components/calendar/index.jsx:58-96 | the stored grid is the grid of the month shown and the month is unchanged |
| SchemaString.TrimValue | backend/models/Celebrant.js:13 | the `trim` setter: a string becomes its trim, any other value is kept |
| SchemaString.LowerTrimValue | backend/models/Celebrant.js:57-60 | the `lowercase` and `trim` setters: a string becomes its lower-cased trim, which is lower case; any other value is kept |
| SchemaString.TrimValueIdempotent | backend/models/Celebrant.js:13 | assigning an already trimmed value changes nothing |
| SchemaString.LowerTrimValueIdempotent | backend/models/Celebrant.js:57-60 | assigning an already lower-cased, trimmed value changes nothing |
| Utils.SliceTo | src/utils/index.js:51 | `slice(0, end)`: the first `end` characters, clamped to the length; a negative end counts from the back |
| Utils.TruncateText | src/utils/index.js:49-52 | the text itself when it fits `maxLength`; otherwise its first `maxLength` characters followed by "...", `maxLength` + 3 long |
| Utils.TruncateDefault | src/utils/index.js:49 | with the default limit of 100: unchanged up to 100 characters, else 103 characters starting with the first 100 |
| Utils.TruncateBounds | src/utils/index.js:49-52 | the result is at most `maxLength` + 3 long and starts with the kept prefix of the text |
| Utils.TruncateIdempotent | src/utils/index.js:49-52 | for a non-negative limit, truncating twice equals truncating once |
| Utils.TruncateNegativeNotIdempotent | src/utils/index.js:49-52 | for a negative limit `slice` counts from the back, and truncating "abcdef" twice with -1 differs from once |
| Utils.IsValidEmailIff | src/utils/index.js:59-62 | the pattern accepts exactly: no white space, exactly one "@", a non-empty local part, and a "." in the domain that is neither its first nor its last character |
| Utils.ValidEmailShape | src/utils/index.js:59-62 | an accepted address has that shape |
| Utils.ShapeValidEmail | src/utils/index.js:59-62 | every string of that shape is accepted |
| Utils.IsValidEmailRejects | src/utils/index.js:60 | a string with white space, without "@" or with two "@" is rejected |
| Utils.SchemaEmailIsValidEmail | src/utils/index.js:59-62 | every address the schemas' e-mail pattern accepts, the client check accepts too |
| Utils.GetTodaysDate | src/utils/index.js:29-31 | the date part of the ISO timestamp is the `YYYY-MM-DD` form of the UTC date |
| Utils.IsoDateHasNoT | src/utils/index.js:30 | the date part holds no "T", so splitting on "T" keeps it whole |
| Utils.PadStart | src/utils/index.js:30 | zero-padding gives digits only, at least the requested width |
| Utils.ParsePadStart | src/utils/index.js:30 | zero-padding does not change the number the digits denote |
| Utils.IsoYear | src/utils/index.js:30 | years 0..9999 are four digits; other years are a sign and six digits |
| Utils.IsoDateRoundTrip | src/utils/index.js:29-31 | every valid date in JavaScript's range is read back from its `YYYY-MM-DD` text |
| Utils.IsTodayExactlyOne | src/utils/index.js:38-41 | `isToday` holds for a date's text exactly when that date is today's UTC date |
| EventForm.ReplaceFirstDash | src/pages/add-event-form/index.jsx:82 | only the first "-" becomes a space; everything else is kept |
| EventForm.CapitalizeWords | src/pages/add-event-form/index.jsx:83 | exactly the word-initial characters are upper-cased |
| EventForm.DashSpaceRuns | src/pages/add-event-form/index.jsx:28 | every white-space run becomes one "-"; a string without white space is unchanged |
| EventForm.Slug | src/pages/add-event-form/index.jsx:28 | the prefill form of a label has no white space |
| EventForm.LowerCapitalize | src/pages/add-event-form/index.jsx:27-28 | lower-casing undoes the capitalisation of a lower-case slug |
| EventForm.DashBack | src/pages/add-event-form/index.jsx:27-28 | turning the space back into a dash undoes the first-dash replacement |
| EventForm.DashAfterPrefix | src/pages/add-event-form/index.jsx:28 | a single space between two space-free parts becomes a single dash |
| EventForm.SlugLabelRoundTrip | src/pages/add-event-form/index.jsx:27-83 | for every lower-case, space-free option value, the label read back by the prefill is the original slug ("lunar-new-year" gives "Lunar New-Year" and back) |
| EventForm.FindById | src/pages/add-event-form/index.jsx:72-74 | the first celebrant whose id text equals the selection, or none when no id matches |
| EventForm.FindByName | src/pages/add-event-form/index.jsx:24 | the first celebrant with that name, or none when no name matches |
| EventForm.Submit | src/pages/add-event-form/index.jsx:47-89 | saves exactly when celebrant and event type are neither "" nor "default", the date is set and the message is not blank; otherwise the alert of the first failing check in that order (celebrant, event type, date, then the message alert for a blank message); the saved record has the label, the matched celebrant's name or the raw selection, the date and the trimmed message |
| EventForm.Prefill | src/pages/add-event-form/index.jsx:21-36 | date and message as stored, the event type as its slug, and the celebrant empty exactly when no celebrant has the stored name, otherwise the id text of the first celebrant with that name |
| EventForm.IntToStringInjective | src/pages/add-event-form/index.jsx:72-74 | distinct ids have distinct texts |
| EventForm.IdTextSelectable | src/pages/add-event-form/index.jsx:51 | an id's text is never "" or "default", so a prefilled celebrant passes the first check |
| EventForm.FindByListedId | src/pages/add-event-form/index.jsx:72-74 | with distinct ids, selecting a celebrant's id text finds that celebrant |
| EventForm.EditWithoutChangesSavesSame | src/pages/add-event-form/index.jsx:21-89 | opening a stored event for editing and submitting it unchanged saves the same event |
| EventForm.SubmitSaves | src/pages/add-event-form/index.jsx:47-89 | a complete form with a matched celebrant and a trimmed message saves exactly the expected record |
| EventForm.EventFormView.constructor | src/pages/add-event-form/index.jsx:13-18 | the form opens with all four fields empty and nothing saved |
| EventForm.EventFormView.HandleInputChange | src/pages/add-event-form/index.jsx:39-45 | only the named field takes the new value |
| EventForm.EventFormView.PrefillEffect | src/pages/add-event-form/index.jsx:21-37 | in edit mode with an event the form becomes its prefill; otherwise it is unchanged |
| EventForm.EventFormView.HandleSubmit | src/pages/add-event-form/index.jsx:47-96 | a rejected form only adds its alert; an accepted one is passed to `onSaveEvent` once when that prop is given, not at all when it is absent, and adds the success alert either way |
| CelebrantForm.OrDefault | src/pages/add-celebrant-form/index.jsx:23-27 | `value || fallback` on a string: the value unless it is missing or empty |
| CelebrantForm.Submit | src/pages/add-celebrant-form/index.jsx:40-60 | saves exactly when the trimmed name is not empty and the relationship is neither "" nor "default"; the name check comes first; the saved record is the form with only the name trimmed |
| CelebrantForm.SubmitIgnoresUnchecked | src/pages/add-celebrant-form/index.jsx:40-60 | age group, likes and image never decide whether the form is accepted, so a "default" age group passes |
| CelebrantForm.SubmitSavedIsFixed | src/pages/add-celebrant-form/index.jsx:40-60 | submitting a saved record again saves the same record |
| CelebrantForm.Prefill | src/pages/add-celebrant-form/index.jsx:20-29 | missing or empty name, relationship, age group and likes become "", a missing image becomes "/contact-p-p.png" |
| CelebrantForm.EditWithoutChangesSavesSame | src/pages/add-celebrant-form/index.jsx:20-60 | opening a saved celebrant for editing and submitting it unchanged saves the same record |
| CelebrantForm.CelebrantFormView.constructor | src/pages/add-celebrant-form/index.jsx:11-17 | the form opens with "/contact-p-p.png" as image, every other field "" and nothing saved |
| CelebrantForm.CelebrantFormView.HandleInputChange | src/pages/add-celebrant-form/index.jsx:32-38 | only the named field takes the new value |
| CelebrantForm.CelebrantFormView.PrefillEffect | src/pages/add-celebrant-form/index.jsx:20-30 | in edit mode with data the form becomes its prefill; otherwise it is unchanged |
| CelebrantForm.CelebrantFormView.HandleSubmit | src/pages/add-celebrant-form/index.jsx:40-65 | a rejected form only adds its alert; an accepted one is passed to `onSaveCelebrant` once when that prop is given, not at all when it is absent, and adds the success alert either way |
| AuthContext.Initial | src/contexts/AuthContext.jsx:24-30 | the initial state is signed out, not loading, with no user and no error; it holds a token exactly when one was stored |
| AuthContext.Reduce | src/contexts/AuthContext.jsx:33-90 | after any action the state is authenticated exactly when the action is a success, or it already was and the action is not a failure or logout |
| AuthContext.StartOnlyLoads | src/contexts/AuthContext.jsx:35-41 | the two start actions set loading and clear the error and change nothing else |
| AuthContext.SuccessSignsIn | src/contexts/AuthContext.jsx:43-52 | the two success actions take user and token from the payload, authenticated, not loading, no error |
| AuthContext.FailureSignsOut | src/contexts/AuthContext.jsx:54-63 | the two failure actions clear user and token, sign out, stop loading and keep the payload as error |
| AuthContext.LogoutClearsAll | src/contexts/AuthContext.jsx:65-73 | logout clears user, token and error, signed out, not loading |
| AuthContext.NarrowActions | src/contexts/AuthContext.jsx:75-88 | clearing the error changes only the error, a profile update changes only the user, an unknown action changes nothing |
| AuthContext.AuthenticatedIff | src/contexts/AuthContext.jsx:33-90 | after a run of actions the state is authenticated exactly when some success has no failure or logout after it, or it started authenticated and no failure or logout occurred |
| AuthContext.NoSuccessNoSession | src/contexts/AuthContext.jsx:24-90 | from the initial state, no run without a success action ever authenticates |
| ListHooks.ActiveView.constructor | src/hooks/localStorageHooks.js:8-9 | an omitted initial view defaults to "events"; a given one is taken as it is, unfiltered |
| ListHooks.ActiveView.SetActiveView | src/hooks/localStorageHooks.js:11-15 | the view changes only to "events" or "celebrants"; any other value leaves it as it was |
| ListHooks.GeneratedId | src/hooks/index.js:65-71 | the in-memory hooks use the clock value as a number; the local-storage hooks use its decimal text, which reads back as the same number |
| ListHooks.WithId | src/hooks/localStorageHooks.js:127-131 | the added record carries the generated id, whatever id it had, and keeps every other property |
| ListHooks.EditAll | src/hooks/localStorageHooks.js:135-141 | same length and order; records with the id are merged with the update winning, all others unchanged |
| ListHooks.Without | src/hooks/localStorageHooks.js:143-145 | exactly the records without the id are kept |
| ListHooks.WithoutConcat | src/hooks/localStorageHooks.js:143-145 | filtering a concatenation filters each part, so the order of the kept records is preserved |
| ListHooks.FindById | src/hooks/localStorageHooks.js:178-183 | the first record with the id, or none exactly when no record has it |
| ListHooks.FindAfterDelete | src/hooks/localStorageHooks.js:143-145 | after deleting an id nothing with that id is found |
| ListHooks.FindAfterEdit | src/hooks/localStorageHooks.js:135-141 | after an edit that does not touch the id, the record found is the one found before, merged with the update |
| ListHooks.FindAfterAdd | src/hooks/localStorageHooks.js:127-133 | a record added under a new id is the one found by it |
| ListHooks.RecordList.constructor | src/hooks/localStorageHooks.js:200-203 | the local-storage hooks start from the stored list when there is one, otherwise (and always in memory) from the seed |
| ListHooks.RecordList.Add | src/hooks/localStorageHooks.js:127-133 | one record appended at the end with the generated id; earlier records unchanged |
| ListHooks.RecordList.Edit | src/hooks/localStorageHooks.js:135-141 | the list becomes its edit by id |
| ListHooks.RecordList.Delete | src/hooks/localStorageHooks.js:143-145 | the list becomes itself without the records of that id |
| SeedLists.SeedIdInjective | src/hooks/index.js:30-63 | different seed positions have different ids |
| SeedLists.SeedEvents | src/hooks/index.js:30-63 | four seeded events with ids 1 to 4 |
| SeedLists.SeedCelebrants | src/hooks/index.js:138-187 | six seeded celebrants with ids 1 to 6 |
| SeedLists.SeedIdsDistinct | src/hooks/index.js:30-187 | the ids of each seeded list are distinct |
| SeedLists.FindSeeded | src/hooks/index.js:116-121 | looking up a seeded id finds that seeded record |
| SeedLists.FindListed | src/hooks/index.js:116-121 | in a list with distinct ids, looking up a record's own id finds that record |
| Strings.CodeUnitsBmp | backend/models/Celebrant.js:14-15 | `minlength` and `maxlength` count UTF-16 code units, which equal the characters of a string within the Basic Multilingual Plane |
| CelebrantSchema.AdmitAccepts | backend/models/Celebrant.js:3-83 | saving succeeds exactly when the trimmed name has 2 to 50 UTF-16 code units, the trimmed relationship is one of the 16 and the trimmed age group one of the 5 listed values, trimmed likes fit 500 and notes 1000 code units, and the lower-cased, trimmed e-mail is empty or matches the pattern |
| CelebrantSchema.RequiredListed | backend/models/Celebrant.js:17-45 | `required` plus `enum` on a trimmed value holds exactly when the trimmed input is listed |
| CelebrantSchema.ListedValuesNonEmpty | backend/models/Celebrant.js:20-43 | the empty string is neither a relationship nor an age group |
| CelebrantSchema.AdmitStores | backend/models/Celebrant.js:5-78 | a saved document keeps owner and birthday, stores the trimmed name and image, takes "/contact-p-p.png" when no image was given, and stores the e-mail lower-cased |
| CelebrantSchema.AdmitIdempotent | backend/models/Celebrant.js:3-83 | saving a saved document again succeeds and stores the same document |
| CelebrantSchema.CastIdempotent | backend/models/Celebrant.js:10-78 | the trim, lower-case and default setters change nothing on a second pass |
| CelebrantSchema.GetAge | backend/models/Celebrant.js:114-130 | null exactly without a birthday; otherwise the number of whole years: the birthday in year birth+age is on or before today and the one in year birth+age+1 is after today |
| CelebrantSchema.AgeNonNegative | backend/models/Celebrant.js:119-129 | for a birthday not after today the age is at least 0 |
| CelebrantSchema.AgeMonotone | backend/models/Celebrant.js:119-129 | the age never decreases as today moves forward |
| CelebrantSchema.BirthdayIncrement | backend/models/Celebrant.js:119-129 | on the birthday itself the age is one more than the day before it, and equals the difference of the years |
| CelebrantSchema.UpcomingBirthday | backend/models/Celebrant.js:91-111 | null exactly without a birthday; otherwise the birthday's month and day, not before now at midnight, in this year or, when this year's midnight has passed, the next |
| UserSchema.CompareHash | backend/models/User.js:84-87 | a candidate matches a hashed password exactly when it is the hashed text; it never matches a doubly hashed or an unhashed one |
| UserSchema.FromInput | backend/models/User.js:4-45 | a new document trims the names, lower-cases and trims the e-mail, holds a string password as given and is active unless told otherwise |
| UserSchema.ValidEmail | backend/models/User.js:18-28 | a valid user's e-mail is a string matching the pattern |
| UserSchema.PasswordLengthRule | backend/models/User.js:29-34 | the minimum length 6 reads the plain text before hashing, in UTF-16 code units: six characters always pass, fewer than three never do; a hash always passes it |
| UserSchema.PreSave | backend/models/User.js:70-82 | the password is hashed only when it is new or modified; every other field is untouched |
| UserSchema.LoginSurvivesSaves | backend/models/User.js:70-87 | after any number of saves following a password change, the original text still logs in |
| UserSchema.SavesKeepPassword | backend/models/User.js:70-82 | saves without a password change never touch the stored hash (no double hashing) |
| UserSchema.UnguardedHashBreaksLogin | backend/models/User.js:70-82 | without the modified-check, a second save would hash the hash and the password would stop matching |
| UserSchema.UserDocument.constructor | backend/models/User.js:4-45 | a new document holds the cast input and counts its password as modified |
| UserSchema.UserDocument.SetPassword | backend/models/User.js:29-34 | assigning a password replaces it with the new text and marks it modified |
| UserSchema.UserDocument.Save | backend/models/User.js:69-82 | saving succeeds exactly for a valid document, then applies the pre-save hook and clears the modified mark; a failed save changes nothing |
| UserSchema.FullName | backend/models/User.js:48-50 | first name, one space, last name |
| UserSchema.FullNameSplits | backend/models/User.js:48-50 | when the first name has no space, the full name splits back into first and last name at its first space |
| UserSchema.UserDocument.ComparePassword | backend/models/User.js:85-87 | bcrypt's answer for a loaded password; when the password was not selected the call throws bcrypt's "Illegal arguments" error |
| UserSchema.ToObject | backend/models/User.js:90-91 | the plain object holds a password exactly when the document does |
| UserSchema.ToSafeObject | backend/models/User.js:89-93 | every field of the plain object except `password` and `__v`, and nothing else |
| UserSchema.SafeObjectKeepsProfile | backend/models/User.js:89-93 | the safe object keeps id, names and e-mail |
| UserSchema.FindOne | backend/models/User.js:95-98 | the first user whose e-mail is the lower-cased, trimmed query, with the password left out unless it is selected |
| UserSchema.FindOwnEmail | backend/models/User.js:95-98 | with unique e-mails, looking up a user's own e-mail finds that user, with the password only through `findByEmailWithPassword` |
| UserSchema.FindIgnoresCaseAndSpace | backend/models/User.js:18-23 | the lookup casts the query like the path, so case and surrounding space do not matter |
| UserSchema.Create | backend/models/User.js:18-82 | creating succeeds exactly for a valid document whose e-mail is not taken, and appends it with its password hashed |
| UserSchema.CreateKeepsUnique | backend/models/User.js:21 | creating keeps e-mails unique |
| UserSchema.CreatedUserCanLogIn | backend/models/User.js:18-98 | after creating a user, looking up the e-mail it was given finds it, and its password matches |
| BackendStore.AdmitEventIdempotent | backend/models/Event.js:3-43 | saving a saved event again succeeds and stores the same event |
| BackendStore.EventsOf | backend/routes/celebrants.js:242-245 | exactly the caller's events that reference the celebrant |
| BackendStore.EventsReferencing | backend/routes/celebrants.js:345-347 | exactly the events that reference the celebrant, whoever owns them |
| BackendStore.ReferencesOnlyByOwner | backend/routes/events.js:96-107 | since only the owner can make an event reference a celebrant, the events referencing it are exactly its owner's |
| BackendStore.InsertKeepsValid | backend/routes/celebrants.js:112-137 | a stored celebrant under a fresh id whose name the owner does not use yet keeps the store invariants (stored documents, one name per owner, references owned) |
| BackendStore.ReplaceKeepsValid | backend/routes/celebrants.js:170-200 | a same-owner replacement whose name no other celebrant of the owner uses keeps the store invariants |
| BackendStore.RemoveKeepsValid | backend/routes/celebrants.js:241-257 | removing a celebrant no event references keeps the store invariants |
| BackendStore.PutEventKeepsValid | backend/routes/events.js:95-118 | a stored event whose celebrant reference is the caller's keeps the store invariants |
| BackendStore.RemoveEventKeepsValid | backend/routes/events.js:197-200 | removing an event keeps the store invariants |
| BackendStore.UniqueAfterInsert | backend/routes/celebrants.js:112-123 | a name the owner does not use yet keeps names unique per owner |
| BackendStore.UniqueAfterReplace | backend/routes/celebrants.js:170-184 | a name no other celebrant of the owner uses keeps names unique per owner |
| BackendStore.ReferencesAfterRemove | backend/routes/celebrants.js:241-252 | removing an unreferenced celebrant leaves no dangling reference |
| BackendStore.Store.constructor | backend/routes/celebrants.js:1-6 | the store starts empty |
| BackendStore.Store.InsertCelebrant | backend/routes/celebrants.js:125-137 | the celebrant is added under its id, events unchanged, invariants kept |
| BackendStore.Store.ReplaceCelebrant | backend/routes/celebrants.js:196-200 | the celebrant is replaced, events unchanged, invariants kept |
| BackendStore.Store.RemoveCelebrant | backend/routes/celebrants.js:254-257 | only that celebrant is removed, events unchanged, invariants kept |
| BackendStore.Store.PutEvent | backend/routes/events.js:109-118 | the event is stored under its id, celebrants unchanged, invariants kept |
| BackendStore.Store.RemoveEvent | backend/routes/events.js:197-200 | only that event is removed, celebrants unchanged, invariants kept |
| BackendStore.PageCount | backend/routes/celebrants.js:33 | `Math.ceil(total / limit)`: none (not finite) for a zero limit; for a positive limit the least page count covering the total |
| BackendStore.PagesCoverTotal | backend/routes/celebrants.js:23-33 | with a positive limit the last page starts before the total and the page after it would start at or past it |
| CelebrantRoutes.Merge | backend/routes/celebrants.js:186-198 | a partial update never changes the owner |
| CelebrantRoutes.UpdateValidatorsSuffice | backend/routes/celebrants.js:196-200 | with update validators on the supplied paths, a valid document stays valid exactly when the supplied values pass |
| CelebrantRoutes.ResubmitKeepsDocument | backend/routes/celebrants.js:186-198 | resubmitting a saved celebrant's own fields leaves it exactly as it is |
| CelebrantRoutes.SavedFieldsFixed | backend/routes/celebrants.js:125-137 | a saved celebrant's string fields are already trimmed (the e-mail lower-cased) |
| CelebrantRoutes.RouteListsAreSchemaLists | backend/routes/celebrants.js:277-329 | the public relationship and age-group lists are exactly the schema's |
| CelebrantRoutes.List | backend/routes/celebrants.js:11-36 | exactly the caller's celebrants passing the relationship and age-group filters, their count, pages `ceil(total/limit)` and skip `(page-1)*limit` with defaults 1 and 10 |
| CelebrantRoutes.GetOne | backend/routes/celebrants.js:50-85 | succeeds exactly for the caller's own celebrant, with the events referencing it and its age; otherwise 404 |
| CelebrantRoutes.Create | backend/routes/celebrants.js:90-152 | 400 when name, relationship or age group is missing; 500 for a non-string name; 400 when the caller already has that trimmed name; past those checks, 500 for a `contactInfo` that is not an object and for a document the schema rejects, and otherwise 201 with the saved document, owned by the caller with the trimmed name, added to the store |
| CelebrantRoutes.Update | backend/routes/celebrants.js:157-222 | 500 for a non-string name; 400 for another of the caller's celebrants with that name; 500 for a non-object `contactInfo` or an invalid supplied value; 404 for a missing or foreign one; for the caller's own celebrant passing all of these, 200 with exactly the merge, which is stored |
| CelebrantRoutes.Delete | backend/routes/celebrants.js:227-272 | 404 for a missing or foreign celebrant; 400 with the count while the caller has events referencing it; otherwise that celebrant alone is removed |
| CelebrantRoutes.EventsOfCelebrant | backend/routes/celebrants.js:334-364 | any existing celebrant with all events referencing it, without an ownership check; 404 otherwise |
| EventRoutes.MergeEvent | backend/routes/events.js:157-166 | a partial update never changes the owner |
| EventRoutes.EventUpdateValidatorsSuffice | backend/routes/events.js:157-168 | a valid event stays valid exactly when the supplied values pass the update validators |
| EventRoutes.List | backend/routes/events.js:11-46 | exactly the caller's events passing the date filter, their count and the same pagination arithmetic |
| EventRoutes.GetOne | backend/routes/events.js:51-77 | succeeds exactly for the caller's own event; otherwise 404 |
| EventRoutes.Create | backend/routes/events.js:82-134 | 400 when event, celebrant, date or message is missing; 400 when a given celebrant id is not the caller's; past those checks, 201 with the saved event when the schema accepts it (owned by the caller, status "upcoming", reference as given or none), else 500 |
| EventRoutes.Update | backend/routes/events.js:139-190 | 400 for a foreign celebrant id, 500 for an invalid supplied value, 404 for a missing or foreign event; an owned event with an allowed reference and valid supplied values gets 200 with exactly the merge, which is stored |
| EventRoutes.Delete | backend/routes/events.js:195-222 | succeeds exactly for the caller's own event and removes it alone; otherwise 404 |
| EventRoutes.ByCelebrant | backend/routes/events.js:227-245 | every event referencing the celebrant, whoever owns it |
| ServerStore.OwnedBy | server/controllers/celebrant.controller.js:7-8 | the `{ user: caller }` query: exactly the documents the user owns, unchanged |
| ServerStore.ListingAgreesWithFind | server/controllers/celebrant.controller.js:6-33 | the list query and the owner-or-admin guard agree: a document is listed exactly when the caller may fetch it, and listed as fetched |
| ServerStore.FindGrants | server/controllers/celebrant.controller.js:21-25 | an admin may fetch every document and an owner each of their own |
| ServerStore.NonAdminSeesOnlyOwn | server/controllers/celebrant.controller.js:18-33 | for a caller who is not an admin, the guard and the listing depend only on the caller's own documents, so a missing document and someone else's answer alike |
| ServerStore.UnownedIsInvisible | server/controllers/celebrant.controller.js:18-33 | removing someone else's document changes nothing a caller who is not an admin can observe |
| ServerStore.UserWithEmail | server/controllers/auth.controller.js:41 | `findOne({ email })` under unique addresses: none exactly when no user holds the address, else the user holding it |
| ServerStore.PutUserKeepsUnique | server/controllers/user.controller.js:42-54 | writing a user whose address nobody else holds keeps addresses unique |
| ServerStore.ParseKeyDateType | server/models/celebrant.model.js:4-8 | a key-date type is accepted only under its listed name |
| ServerStore.KeyDateTypeRoundTrip | server/models/celebrant.model.js:7 | each of the five key-date types is accepted under its own name |
| ServerStore.SaveCelebrant | server/models/celebrant.model.js:19-49 | saving succeeds exactly when the trimmed name is non-empty, the relationship is a non-empty string and every key date has a listed type and a date; the saved document is the input with the name trimmed and meets the stored invariant |
| ServerStore.SaveStoredCelebrant | server/models/celebrant.model.js:26-30 | saving a stored celebrant again succeeds and changes nothing |
| ServerStore.ParseEventStatus | server/models/event.model.js:27-31 | a status is accepted only under its listed name |
| ServerStore.EventStatusRoundTrip | server/models/event.model.js:29 | each of the three statuses is accepted under its own name |
| ServerStore.SaveEvent | server/models/event.model.js:3-36 | saving succeeds exactly when there is a celebrant, a title that trims to non-empty, a date and an absent or listed status; the saved document is the input with the title trimmed and meets the stored invariant |
| ServerStore.SaveStoredEvent | server/models/event.model.js:15-19 | saving a stored event again succeeds and changes nothing |
| ServerStore.Db.constructor | server/controllers/user.controller.js:18-19 | the four collections start empty and valid |
| ServerStore.Db.PutUser | server/controllers/user.controller.js:49-54 | a user whose address nobody else holds is written, the store stays valid and the other collections are unchanged |
| ServerStore.Db.RemoveUser | server/controllers/user.controller.js:79 | removes exactly that user and keeps the store valid |
| ServerStore.Db.PutCelebrant | server/controllers/celebrant.controller.js:38-59 | writes a stored celebrant under the id, nothing else changes |
| ServerStore.Db.RemoveCelebrant | server/controllers/celebrant.controller.js:95-108 | removes exactly that celebrant |
| ServerStore.Db.PutEvent | server/controllers/event.controller.js:35-49 | writes a stored event under the id, nothing else changes |
| ServerStore.Db.RemoveEvent | server/controllers/event.controller.js:79-92 | removes exactly that event |
| ServerStore.Db.PutMessage | server/controllers/message.controller.js:34-40 | writes the message under the id, nothing else changes |
| ServerStore.Db.RemoveMessage | server/controllers/message.controller.js:78 | removes exactly that message |
| ServerCelebrants.NewCelebrant | server/controllers/celebrant.controller.js:38-59 | the created celebrant is owned by the caller |
| ServerCelebrants.MergeCelebrant | server/controllers/celebrant.controller.js:70-82 | the merge never changes the owner |
| ServerCelebrants.MergeTakesTruthy | server/controllers/celebrant.controller.js:70-82 | each of the six fields takes the body's value exactly when that value is truthy, else keeps the stored one |
| ServerCelebrants.EmptyUpdateKeeps | server/controllers/celebrant.controller.js:64-90 | a body with no truthy field among the six saves the stored celebrant unchanged |
| ServerCelebrants.BodyCannotSetOwner | server/controllers/celebrant.controller.js:38-82 | a `user` property in the body changes neither the created nor the updated celebrant |
| ServerCelebrants.VisibleIsFind | server/controllers/celebrant.controller.js:21-25 | the controller's guard is the shared find-and-check |
| ServerCelebrants.GetCelebrants | server/controllers/celebrant.controller.js:6-13 | answers 200 with the listing: everything for an admin, only the caller's own otherwise |
| ServerCelebrants.GetCelebrantById | server/controllers/celebrant.controller.js:18-33 | 200 with the celebrant exactly when the guard passes, else the 404 |
| ServerCelebrants.CreateCelebrant | server/controllers/celebrant.controller.js:38-59 | 201 with the saved celebrant stored under the new id and owned by the caller, or the validation error thrown with the store unchanged |
| ServerCelebrants.UpdateCelebrant | server/controllers/celebrant.controller.js:64-90 | 404 with nothing changed unless the guard passes; else the merged celebrant is saved and stored, or the validation error thrown; the owner never changes |
| ServerCelebrants.DeleteCelebrant | server/controllers/celebrant.controller.js:95-108 | behind the guard removes exactly that celebrant, else 404 with nothing changed |
| ServerEvents.NewEvent | server/controllers/event.controller.js:35-49 | the created event is owned by the caller and an absent status becomes "upcoming" |
| ServerEvents.MergeEvent | server/controllers/event.controller.js:64-67 | the merge changes neither the owner nor the celebrant |
| ServerEvents.MergeTakesTruthy | server/controllers/event.controller.js:64-67 | each of the four fields takes the body's value exactly when that value is truthy, else keeps the stored one |
| ServerEvents.EmptyUpdateKeeps | server/controllers/event.controller.js:54-74 | a body with no truthy field among the four saves the stored event unchanged |
| ServerEvents.UpdateIgnoresOwnership | server/controllers/event.controller.js:64-67 | `celebrant` and `user` properties in an update body have no effect |
| ServerEvents.VisibleIsFind | server/controllers/event.controller.js:15-30 | the controller's guard is the shared find-and-check |
| ServerEvents.GetEvents | server/controllers/event.controller.js:6-10 | answers 200 with the listing: everything for an admin, only the caller's own otherwise |
| ServerEvents.GetEventById | server/controllers/event.controller.js:15-30 | 200 with the event exactly when the guard passes, else the 404 |
| ServerEvents.CreateEvent | server/controllers/event.controller.js:35-49 | 201 with the saved event stored under the new id and owned by the caller, or the validation error thrown with the store unchanged |
| ServerEvents.UpdateEvent | server/controllers/event.controller.js:54-74 | 404 with nothing changed unless the guard passes; else the merged event is saved and stored, or the validation error thrown; owner and celebrant never change |
| ServerEvents.DeleteEvent | server/controllers/event.controller.js:79-92 | behind the guard removes exactly that event, else 404 with nothing changed |
| ServerMessages.MessagesOf | server/controllers/message.controller.js:15 | exactly the messages of the event, whoever wrote them |
| ServerMessages.ObjectLiteral | server/controllers/message.controller.js:41 | an object literal has exactly the property names written in it |
| ServerMessages.CreatedBodyHoldsDocument | server/controllers/message.controller.js:41 | the repeated `message` key leaves the created document and not the success text in the response |
| ServerMessages.NewMessage | server/controllers/message.controller.js:34-38 | the new message is the caller's and belongs to the event in the path |
| ServerMessages.MergeMessage | server/controllers/message.controller.js:59 | only the text can change: a truthy `content` replaces it, anything else leaves the message as it was |
| ServerMessages.VisibleIsFind | server/controllers/message.controller.js:54-58 | the controller's guard is the shared find-and-check |
| ServerMessages.GetMessagesByEvent | server/controllers/message.controller.js:7-20 | 200 with the event's messages exactly when the guard on the event passes, else the 404 |
| ServerMessages.CreateMessage | server/controllers/message.controller.js:25-45 | behind the guard on the event stores the new message and answers 201, else 404 with nothing changed |
| ServerMessages.UpdateMessage | server/controllers/message.controller.js:50-65 | behind the guard on the message stores the merged message, else 404 with nothing changed |
| ServerMessages.DeleteMessage | server/controllers/message.controller.js:70-83 | behind the guard removes exactly that message, else 404 with nothing changed |
| ServerUsers.SanitizeUser | server/controllers/user.controller.js:3-13 | null for no user; otherwise exactly id, name, email, role and timestamps, and never the password |
| ServerUsers.SanitizeIgnoresPassword | server/controllers/user.controller.js:3-13 | the sanitised user does not depend on the password, present or selected away |
| ServerUsers.GetUsers | server/controllers/user.controller.js:18-24 | 200 with every user, each sanitised |
| ServerUsers.GetUserById | server/controllers/user.controller.js:29-37 | 200 with the sanitised user when it exists, else the 404 |
| ServerUsers.RoleOrDefault | server/controllers/user.controller.js:49-54 | an absent role takes the default "user", any other is kept |
| ServerUsers.CreateUser | server/controllers/user.controller.js:42-59 | 400 with nothing changed when the address is taken, else the new user is stored and answered sanitised with 201 |
| ServerUsers.ApplyUpdate | server/controllers/user.controller.js:65-68 | each of name, email, password and role given in the body replaces the stored one, an absent one is kept; timestamps are not touched |
| ServerUsers.UpdateUser | server/controllers/user.controller.js:64-74 | a missing user answers 200 with null; an update that would duplicate an address throws; otherwise the updated user is stored and answered sanitised |
| ServerUsers.DeleteUser | server/controllers/user.controller.js:78-81 | always 200, and exactly that user is gone |
| ServerUsers.MergeProfile | server/controllers/user.controller.js:93-97 | name and email take the body value exactly when it is truthy and keep the stored one otherwise; a truthy password replaces the stored one; role and creation time never change |
| ServerUsers.ProfileKeepsRole | server/controllers/user.controller.js:93-97 | a `role` in the body has no effect on the profile update |
| ServerUsers.UpdateCurrentUser | server/controllers/user.controller.js:86-104 | 404 for a missing caller; an address clash throws; otherwise the merged profile is stored and answered sanitised |
| AuthController.Profile | server/controllers/auth.controller.js:24-29 | the answer holds exactly id, name, email and role, never the password |
| AuthController.ProfileIgnoresPassword | server/controllers/auth.controller.js:45-50 | the profile answer does not depend on the password |
| AuthController.NewAccount | server/controllers/auth.controller.js:16-20 | a registered account has the body's name, address and password, the default role, and both timestamps now |
| AuthController.RegisterIgnoresRole | server/controllers/auth.controller.js:9-20 | a `role` in the registration body cannot make an admin |
| AuthController.RegisterUser | server/controllers/auth.controller.js:8-33 | 400 with nothing stored and no cookie when the address is taken; else the account is stored, the `jwt` cookie set and 201 with the profile |
| AuthController.LoginUser | server/controllers/auth.controller.js:38-54 | the cookie and the profile exactly when a user holds the address and the password matches, else 401 and no cookie |
| AuthController.LogoutUser | server/controllers/auth.controller.js:59-62 | clears the `jwt` cookie and answers 200 |
| AuthController.GetCurrentUser | server/controllers/auth.controller.js:67-78 | 401 without a session user, else 200 with its profile; no cookie changes |
| AuthMiddleware.WithoutPassword | server/middleware/auth.middleware.js:13 | the selected user has no password and is otherwise the stored one |
| AuthMiddleware.ProtectOutcome | server/middleware/auth.middleware.js:4-27 | passes exactly when the cookie is truthy, verifies and names a stored user, attaching that user without password; a rejection clears the cookie exactly when there was a token |
| AuthMiddleware.ProtectHidesPassword | server/middleware/auth.middleware.js:13 | what protect does never depends on a stored password |
| AuthMiddleware.Protect | server/middleware/auth.middleware.js:4-27 | calls next exactly when the outcome passes, attaching the user and leaving the response alone; otherwise 401 with the cookie cleared when there was a token |
| AuthMiddleware.IsAdminGate | server/middleware/auth.middleware.js:29-35 | calls next exactly for a session user whose role is "admin", else 401 |
| AuthMiddleware.CallerOf | server/middleware/auth.middleware.js:20 | the caller's id is the session user's and it is an admin exactly when the role is "admin" |
| Tokens.CookieOptionsFor | server/utils/generateToken.js:8-16 | always httpOnly, lax and thirty days; `secure` is set, to true, exactly in production |
| Tokens.ExpiryDays | server/utils/generateToken.js:5 | a day count is read only from digits followed by `d` |
| Tokens.CookieLivesAsLongAsToken | server/utils/generateToken.js:4-12 | the cookie's maximum age is exactly the token's thirty days, in every environment |
| Tokens.GenerateToken | server/utils/generateToken.js:3-19 | signs the user id for thirty days and appends that `jwt` cookie, leaving status and body alone |
| Http.Request.constructor | server/middleware/auth.middleware.js:5 | a request carries its cookie and body and no user yet |
| Http.Response.constructor | server/controllers/auth.controller.js:59-62 | a fresh response: status 200, nothing sent, no cookies |
| Http.Response.Status | server/controllers/auth.controller.js:61 | sets the status only |
| Http.Response.Json | server/controllers/auth.controller.js:61 | sends the body, status and cookies unchanged |
| Http.Response.Cookie | server/utils/generateToken.js:18 | appends one cookie operation, nothing else changes |
| Http.Response.ClearCookie | server/controllers/auth.controller.js:60 | appends one clearing of the cookie, nothing else changes |
| Cors.TrimAll | server/index.js:32-36 | one entry per origin, each trimmed |
| Cors.TrimAllTidy | server/index.js:32-36 | trimming entries that are already trimmed leaves the list as it is |
| Cors.TidyDefaultsKept | server/index.js:32-36 | without `CLIENT_ORIGIN`, or with it empty, a list of trimmed defaults is used unchanged |
| Cors.DefaultsAsWritten | server/index.js:23-36 | without `CLIENT_ORIGIN` the allowed origins are exactly the six defaults as written |
| Cors.ConfiguredOrigins | server/index.js:32-36 | with `CLIENT_ORIGIN` set, one allowed origin per comma-separated piece, that piece trimmed, without commas or surrounding blanks |
| Cors.CheckOrigin | server/index.js:40-52 | allows exactly a missing or empty origin, a listed one or one ending in ".pages.dev"; otherwise rejects with "Origin not allowed by CORS" |
| Cors.PagesEntriesRedundant | server/index.js:28-29 | the two ".pages.dev" defaults change no decision: the suffix test already allows them |
| Cors.PagesOriginsAlwaysAllowed | server/index.js:46-48 | any origin ending in ".pages.dev" is allowed whatever `CLIENT_ORIGIN` says |
| Cors.LookalikeNotListed | server/index.js:23-30 | an origin that only contains the ".pages.dev" name is neither listed nor a suffix match |
| Cors.LookalikeRejected | server/index.js:23-52 | with the defaults, every non-empty origin that is neither listed nor ends in ".pages.dev" is rejected with the CORS error |
| ApiClient.BaseUrl | src/utils/api.js:2-3 | `VITE_API_URL` when set and non-empty, else the local default |
| ApiClient.FinalOptionsMerge | src/utils/api.js:9-22 | the caller's options are kept but for `headers`, which hold the caller's headers plus `Content-Type`, defaulting to JSON |
| ApiClient.ListEndpointParts | src/utils/api.js:42-46 | the endpoint has a "?" exactly when there is a query string, which is everything after it |
| ApiClient.GetAllUrlQuery | src/utils/api.js:2-47 | the URL `getAll` fetches starts with the base URL, has a "?" exactly when there is a query string, and everything after its first "?" is that query string |
| ApiClient.CallResult | src/utils/api.js:24-32 | the data is returned exactly when the response is ok; otherwise the error carries the body's truthy `message` as text, else "HTTP error! status: " and the status |
| ApiClient.HandleApiError | src/utils/api.js:136-141 | the network text when the message mentions "fetch", else the message, else the generic text |
| ApiClient.HandleApiErrorNonEmpty | src/utils/api.js:136-141 | the user always sees a non-empty text |
| ApiClient.NoFNoFetch | src/utils/api.js:137 | a message without an `f` is never taken for a network error |
| ApiClient.StatusErrorShownAsIs | src/utils/api.js:28-30 | an error response without a message reaches the user as "HTTP error! status: " and the status |

## Left out

- React rendering: JSX, styling, `alert` display, PropTypes, effect wiring and the purely presentational components. Only the state each form and hook keeps, and the decisions it makes, are modelled.
- MongoDB and Mongoose I/O: connections, `populate`, `sort`, `countDocuments`, and the asynchrony and failures of every query. Collections are maps from id to document. An ObjectId is a natural number, and a malformed id string (a cast error) is not modelled.
- The user-supplied `new RegExp(...)` search filters of the JWT backend's listings, and the sort order of every listing, are not modelled. A listing is the set of matching ids.
- bcrypt is not modelled as cryptography. A hash is a symbolic value recording what was hashed and with which salt, and the salt is an input.
- `jwt.sign` and `jwt.verify` are not modelled as cryptography either. A token records its user id and expiry. Verification is an input: the id, or nothing when it throws. Secrets, signatures and clock expiry are not modelled.
- JavaScript `Date`: the weekday of the 1st (`getDay`), today's date and "now" are parameters. Date-constructor overflow, where a 29 February birthday becomes 1 March in a common year, is not modelled. Time zones and `toLocaleDateString` are not modelled.
- `Date.now()` ids and other generated ids are parameters, chosen fresh by the caller.
- String case mapping covers ASCII letters only. There is no Unicode normalisation.
- Numbers are integers. NaN, fractions and JavaScript's coercion of non-string values inside string operations are not modelled.
- Mongoose's casting of numbers and booleans to their text on a `String` path is not modelled: the model rejects what the source stores as text. This concerns `SchemaString.TrimValue` and `SchemaString.LowerTrimValue`, which keep a non-string value as it is, and through them `CelebrantSchema.Admit`, `BackendStore.AdmitEvent`, `ServerStore.SaveCelebrant`, `ServerStore.SaveEvent` and `UserSchema.FromInput`. For example, `likes: 42` on a backend create is stored as "42" with a 201, where `CelebrantRoutes.Create` answers 500.
- SliceTo: counts Unicode characters where JavaScript's `slice` counts UTF-16 code units. A Dafny string cannot hold the lone surrogate that cutting a character outside the Basic Multilingual Plane in half produces.
- TruncateText: the length test and the cut count characters, not UTF-16 code units, for the reason given for SliceTo. The two agree on text within the Basic Multilingual Plane.
- TruncateDefault: the limit of 100 is measured in characters, not UTF-16 code units, as for TruncateText.
- ToObject: the `createdAt` and `updatedAt` fields that `timestamps: true` adds are not part of the model's `User`, so the plain object lacks them.
- ToSafeObject: "every field except `password` and `__v`" covers only the fields of the model's `User`. The timestamps are missing, as for ToObject.
- SaveEvent: the `date` path is checked for presence only. Casting it to a `Date`, which makes `save()` fail for an unparsable value, is not modelled, because JavaScript's date parser is not part of this model.
- Objects and arrays compare by value. Reference identity and aliasing between JavaScript objects are not modelled.
- Local-storage persistence and JSON serialisation of the list hooks: the lists are held in memory.
- The network-sync hooks (src/hooks/mongoHooks.js, src/hooks/apiHooks.js, src/hooks/useApi.js), `shareEvent`, `copyToClipboard`, `debounce` and `useUserPreferences` are not part of this model. They are wrappers around fetch, the browser and timers.
- src/components/calendar/script.js, a DOM script superseded by the calendar component, is not part of this model.
- Route tables, server bootstrap, the database configuration, the seed and test scripts, and every endpoint of src/utils/api.js other than `getAll` are not modelled. `fetch` itself is abstract: a response is its `ok` flag, status and parsed JSON body.
- HTTP header names compare case-sensitively in `ApiClient.FinalOptionsMerge`, as JavaScript object keys do. The `Headers` normalisation that `fetch` applies afterwards is not modelled.
- server/models/user.model.js is not part of this model, and neither is server/models/message.model.js. On the cookie-session server a password is stored as given, and comparing passwords is the parameter `passwordMatches`. E-mail uniqueness, which that schema's unique index enforces, is the store invariant. A write that would break it throws (`DuplicateKeyError`).
- Timestamps on the cookie-session server are set on create and not advanced on update.
- Deleting a celebrant or event on the cookie-session server leaves its events and messages in place, as the source does. Cascading deletes are not modelled because the source has none.
- Mongoose array casting and the `recurring` default of key dates are not modelled. Key dates are checked for a listed type and a present date.
- Only the `name`, `email`, `password` and `role` of an `updateUser` body are modelled. Other properties of the body are ignored.
- `findOne({ email: undefined })` matching is not modelled: an absent address is looked up like any other value.
- The "Invalid user data" branch of `registerUser` is not modelled. `User.create` either returns a document or throws, so the branch cannot be reached.
- Store invariants (stored documents valid, one name per owner, references owned) are kept by the store methods. The handlers do not re-check them.
- ServerStore.UserWithEmail: a ghost function. It models `findOne` only under the uniqueness invariant, where at most one user holds an address.
