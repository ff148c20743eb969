# ParkMate admin panel, modelled in Dafny

This project models the core of the ParkMate administration portal and proves properties about that model. The core has these parts:

- **The login function** (`back-end/lambda/loginFunction.js`). It runs a fixed chain of guards from the HTTP request to a status code and a reply: the CORS preflight, the body, the required fields, the email pattern, the user lookup, the active flag and the password. A successful login writes `lastLogin` to the users table.
- **The three account services**: parking inspectors, municipal-council officers and vehicle owners. They share one users table, keyed by `userId` and told apart by `userType`. The model covers:
  - the display-id allocators (`Ins0001…`, `MCC001…`);
  - the listings, with their defaults and their newest-first order;
  - the search, status and NIC queries;
  - the writes to the table.
- **The DynamoDB client's table calls** (`getItem`, `putItem`, `updateItem`, `deleteItem`). They are modelled as a `Store.Table` class over a map from keys to records.
- **The list hooks** `useInspectors`, `useMCOfficers` and `useVehicleOwners`. A `ListHook.Hook` class holds their state: the fetched list, the filtered list, the loading flag, the error and the query. Each hook module drives it with its own service and filter.
- **The forms and modals**:
  - the add-inspector form, with its password rules and strength meter;
  - the add- and edit-officer forms, with their submit chains and the edit form's reading of stored 12-hour times;
  - the add- and edit-officer modals, with their 24-hour to 12-hour conversion, the payload they save and their saving/error state.
- **The role-based navigation configuration**, the role utilities in `roleRoutes.jsx`, and the avatar initials of the top navigation bar.

JavaScript values are modelled in `Js`: a record is a map from property names to values, an absent property is `undefined`, and a thrown error is `Err(message)`. The string built-ins the code relies on (`trim`, `toLowerCase`, `includes`, `split`, `padStart`, `parseInt`, decimal `toString`) are defined in `Strings`. `Array.prototype.filter`, `map`, `find` and the in-place `sort` are defined in `Lists` and `Sorting`.

Some inputs come from outside the code and become parameters:

- the clock (`now`);
- `Math.random`'s text;
- the result of a table scan;
- bcrypt's `hash`/`compare` and JWT's `sign`;
- `dateInputToISO` and `isoToDateInput`;
- the failure of a remote call.

## Model

| member | source | states |
|---|---|---|
| Login.Reply | back-end/lambda/loginFunction.js:41-47 | an error reply carries the shared CORS headers and a body holding only the message |
| Login.ServerError | back-end/lambda/loginFunction.js:143-153 | the catch block answers 500 with the shared headers and 'Internal server error'; the error's message is included only in development |
| Login.ParseBody | back-end/lambda/loginFunction.js:36-37 | an absent or empty body reads as `{}`; exactly an unparseable text or a `null` document throws |
| Login.Claims | back-end/lambda/loginFunction.js:110-118 | the token claims are the stored record's email, role and name, and nothing else |
| Login.SuccessBody | back-end/lambda/loginFunction.js:131-141 | the success body holds 'Login successful' and the signed token |
| Login.SuccessBodyFields | back-end/lambda/loginFunction.js:137-139 | role, name and email in the success body are copied from the stored record |
| Login.SuccessBodyKeys | back-end/lambda/loginFunction.js:134-140 | the success body has no fields beyond message, token, email, role and name |
| Login.Decide | back-end/lambda/loginFunction.js:26-107 | the guard chain either answers with the shared headers or grants the non-empty key under which the returned user is stored |
| Login.CheckFields | back-end/lambda/loginFunction.js:40-60 | after the presence and format checks, a grant names a record that is stored under its key; every reply has the shared headers |
| Login.Authenticate | back-end/lambda/loginFunction.js:63-107 | the lookup, status and password checks grant only the record stored under the given key |
| Login.LookupOf | back-end/lambda/loginFunction.js:63-70 | the table read under `{ email: key }` returns the record stored under the key, or the read's failure |
| Login.LookupKey | back-end/lambda/loginFunction.js:63-68 | the read key has the single attribute `email` holding the lowercased email |
| Login.Handle | back-end/lambda/loginFunction.js:16-155 | the handler's response is the guard chain's; the table is written only on a grant, and then only `lastLogin` of the record keyed by the stored email |
| Login.WriteLastLogin | back-end/lambda/loginFunction.js:120-128 | the `lastLogin` update succeeds exactly when the write does not fail; it merges the timestamp into the record keyed by the user's email, and a failed write leaves the table unchanged |
| Login.PreflightFirst | back-end/lambda/loginFunction.js:25-32 | an OPTIONS request gets 200 with an empty body whatever its body holds |
| Login.UnreadableBody | back-end/lambda/loginFunction.js:34-37 | a body that is not JSON, or is `null`, ends in the 500 reply |
| Login.MissingField | back-end/lambda/loginFunction.js:39-48 | a missing or falsy email or password gives 400 'Email and password are required', before the format check |
| Login.BadEmailFormat | back-end/lambda/loginFunction.js:50-60 | with both fields present, an email the pattern rejects gives 400 'Invalid email format' |
| Login.CredentialsPassFormat | back-end/lambda/loginFunction.js:51-52 | a well-formed email passes the pattern test and is not empty |
| Login.CredentialsReachTable | back-end/lambda/loginFunction.js:62-70 | a request past the format check is decided by the lookup under the lowercased email |
| Login.UnknownUser | back-end/lambda/loginFunction.js:72-81 | no record under the lowercased email gives 401 'Invalid email or password' |
| Login.LookupFails | back-end/lambda/loginFunction.js:70 | a failed table read gives the 500 reply |
| Login.InactiveBeforePassword | back-end/lambda/loginFunction.js:85-97 | a status other than exactly 'ACTIVE' gives 403 whatever the password check would say |
| Login.WrongPasswordLikeUnknownUser | back-end/lambda/loginFunction.js:73-107 | a wrong password gives the same response as an unknown email |
| Login.Success | back-end/lambda/loginFunction.js:109-141 | a correct password for an active account gives 200 with a token signed over the record's claims and the record's role, name and email |
| Login.WriteFails | back-end/lambda/loginFunction.js:121-128 | a failing `lastLogin` write turns a granted login into the 500 reply |
| Login.WriteTouchesOnlyLastLogin | back-end/lambda/loginFunction.js:121-128 | the write changes only `lastLogin` of the one record; every other record and field is unchanged |
| Login.SameHeaders | back-end/lambda/loginFunction.js:18-23 | every response carries the same CORS header set |
| Email.MatchesIffWellFormed | back-end/lambda/loginFunction.js:51 | the pattern accepts a string exactly when it has no whitespace, exactly one '@' with a non-empty local part before it, and a '.' after it with at least one character on each side |
| Email.ScanIffMatches | back-end/lambda/loginFunction.js:51-52 | the left-to-right reading of the pattern accepts exactly the strings the pattern describes |
| Email.IndexOf | back-end/lambda/loginFunction.js:51 | the index of the first occurrence of a character, or the length when it does not occur |
| Email.TestOnlyStrings | back-end/lambda/loginFunction.js:52 | `test` on a number, a boolean or `null` fails: only a non-empty string can pass |
| Email.AcceptsDottedAddress | front-end/src/components/Subcomponents/SuperAdmin/ParkingInspectors/Addinspectorform.jsx:54-55 | dots may appear in both the local part and the host |
| Email.RejectsWithoutDot | back-end/lambda/loginFunction.js:51 | a domain without a dot is rejected |
| Email.RejectsSecondAt | back-end/lambda/loginFunction.js:51 | a second '@' is rejected |
| Email.RejectsSpace | back-end/lambda/loginFunction.js:51 | whitespace is rejected |
| Email.RejectsEmptyLocalPart | back-end/lambda/loginFunction.js:51 | an empty local part is rejected |
| Checks.FirstFailureEmptyIff | front-end/src/components/Subcomponents/SuperAdmin/ParkingInspectors/Addinspectorform.jsx:51-63 | a chain of checks with messages reports nothing exactly when every check passes |
| Checks.FirstFailureAt | front-end/src/components/Subcomponents/SuperAdmin/CouncilOfficers/AddOfficerForm.jsx:28-32 | when the first k checks pass and check k fails, the chain reports check k's message: the first failure wins |
| Checks.FirstFailureOrThrowNoThrow | front-end/src/components/Subcomponents/SuperAdmin/CouncilOfficers/editeOfficerform.jsx:55-58 | a chain in which no check throws reports what the plain chain reports |
| Checks.FirstFailureOrThrowThrows | front-end/src/components/Subcomponents/SuperAdmin/CouncilOfficers/editeOfficerform.jsx:55-58 | a check that throws after passing checks makes the whole chain throw with its message |
| Checks.FirstFailureOrThrowEmptyIff | front-end/src/components/Subcomponents/SuperAdmin/CouncilOfficers/editeOfficerform.jsx:55-58 | a chain that may throw reports nothing exactly when no check throws and every check passes |
| EditOfficerForm.SkipSpaces | front-end/src/components/Subcomponents/SuperAdmin/CouncilOfficers/editeOfficerform.jsx:20 | `\s*` consumes exactly the run of whitespace from the given index |
| EditOfficerForm.MarkerAt | front-end/src/components/Subcomponents/SuperAdmin/CouncilOfficers/editeOfficerform.jsx:20-24 | the meridiem group, matched in either case, is reported as 'AM' or 'PM' |
| EditOfficerForm.MatchWith | front-end/src/components/Subcomponents/SuperAdmin/CouncilOfficers/editeOfficerform.jsx:20 | a match with a d-digit hour group has d hour digits, two minute digits and an AM/PM marker |
| EditOfficerForm.MatchAt | front-end/src/components/Subcomponents/SuperAdmin/CouncilOfficers/editeOfficerform.jsx:20 | a match at a position has groups of the pattern's shape; the hour group tries two digits first |
| EditOfficerForm.FirstMatch | front-end/src/components/Subcomponents/SuperAdmin/CouncilOfficers/editeOfficerform.jsx:20-21 | the leftmost match of the unanchored pattern, if any, has groups of the pattern's shape |
| EditOfficerForm.Hour24 | front-end/src/components/Subcomponents/SuperAdmin/CouncilOfficers/editeOfficerform.jsx:22-26 | PM adds 12 except to 12, '12 AM' becomes 0, other hours stay, and an hour up to 12 lands in 0..23 |
| EditOfficerForm.ParseTime | front-end/src/components/Subcomponents/SuperAdmin/CouncilOfficers/editeOfficerform.jsx:18-28 | a missing or empty value gives ''; a truthy non-string makes `.match` throw; a string is read by the pattern |
| EditOfficerForm.UpperMarkers | front-end/src/components/Subcomponents/SuperAdmin/CouncilOfficers/editeOfficerform.jsx:24 | the upper-case markers read back as themselves |
| EditOfficerForm.MatchesTwelveHourText | front-end/src/components/Subcomponents/SuperAdmin/CouncilOfficers/editeOfficerform.jsx:20 | a text `HH:MM`, then blanks, then a marker in any case, matches at its start with exactly those groups |
| EditOfficerForm.SkipSpacesOver | front-end/src/components/Subcomponents/SuperAdmin/CouncilOfficers/editeOfficerform.jsx:20 | `\s*` stops at the first non-blank character |
| EditOfficerForm.ParseTwelveHourText | front-end/src/components/Subcomponents/SuperAdmin/CouncilOfficers/editeOfficerform.jsx:22-27 | such a text becomes the 24-hour hour padded to two digits, a colon and the minutes copied unchanged |
| EditOfficerForm.TextOrEmpty | front-end/src/components/Subcomponents/SuperAdmin/CouncilOfficers/editeOfficerform.jsx:34-37 | a field of the officer when it is truthy, and '' otherwise |
| EditOfficerForm.BuildInitialState | front-end/src/components/Subcomponents/SuperAdmin/CouncilOfficers/editeOfficerform.jsx:33-42 | it throws exactly when one of the stored times is a truthy non-string; otherwise it has exactly the form's fields, with text fields defaulted to '', dates converted and times parsed |
| EditOfficerForm.InitialRecord | front-end/src/components/Subcomponents/SuperAdmin/CouncilOfficers/editeOfficerform.jsx:33-42 | the initial state has exactly the eight fields, the defaulted texts, the converted dates and the given times |
| EditOfficerForm.MissingFieldsStartEmpty | front-end/src/components/Subcomponents/SuperAdmin/CouncilOfficers/editeOfficerform.jsx:33-42 | every text or time field the officer lacks starts out as '' |
| EditOfficerForm.NonBlank | front-end/src/components/Subcomponents/SuperAdmin/CouncilOfficers/editeOfficerform.jsx:55-57 | `!v.trim()` throws exactly on a non-string and otherwise fails exactly on a blank string |
| EditOfficerForm.SubmitAccepts | front-end/src/components/Subcomponents/SuperAdmin/CouncilOfficers/editeOfficerform.jsx:55-58 | the chain passes exactly when name, mobile number and email are non-blank strings and a council is chosen |
| EditOfficerForm.BlankNameFirst | front-end/src/components/Subcomponents/SuperAdmin/CouncilOfficers/editeOfficerform.jsx:55 | a blank name is reported first, whatever the other fields hold |
| EditOfficerForm.Form.HandleChange | front-end/src/components/Subcomponents/SuperAdmin/CouncilOfficers/editeOfficerform.jsx:47-50 | exactly the edited field changes, and the error is cleared |
| EditOfficerForm.Form.HandleSubmit | front-end/src/components/Subcomponents/SuperAdmin/CouncilOfficers/editeOfficerform.jsx:52-61 | a throwing check rejects the submit, a failing check shows its message, and otherwise the unchanged fields go to `onSave` and the error is the one the modal's save leaves; the form is not reset |
| EditOfficerForm.SaveError | front-end/src/components/Subcomponents/SuperAdmin/CouncilOfficers/EditOfficerModal.jsx:22-40 | the shared error is cleared exactly when the save succeeds; a failed save shows its message, or 'Failed to update officer' when that is empty |
| AddOfficerForm.ScheduleFieldsPresent | front-end/src/components/Subcomponents/SuperAdmin/CouncilOfficers/AddOfficerForm.jsx:16-17 | the form's fields include the four schedule fields |
| AddOfficerForm.SubmitChecks | front-end/src/components/Subcomponents/SuperAdmin/CouncilOfficers/AddOfficerForm.jsx:28-32 | every check of the chain carries a message |
| AddOfficerForm.SubmitAccepts | front-end/src/components/Subcomponents/SuperAdmin/CouncilOfficers/AddOfficerForm.jsx:28-32 | the chain passes exactly when name, mobile number and email are not blank, the password has at least 6 characters and a council is chosen |
| AddOfficerForm.PasswordBoundary | front-end/src/components/Subcomponents/SuperAdmin/CouncilOfficers/AddOfficerForm.jsx:31 | with the earlier fields filled in, a 5-character password is refused and a 6-character one passes |
| AddOfficerForm.AcceptsMalformedEmail | front-end/src/components/Subcomponents/SuperAdmin/CouncilOfficers/AddOfficerForm.jsx:30 | there is no format check: 'a@b' passes though the email pattern rejects it |
| AddOfficerForm.Form.HandleChange | front-end/src/components/Subcomponents/SuperAdmin/CouncilOfficers/AddOfficerForm.jsx:20-23 | exactly the edited field changes, and the error is cleared |
| AddOfficerForm.Form.HandleSubmit | front-end/src/components/Subcomponents/SuperAdmin/CouncilOfficers/AddOfficerForm.jsx:25-37 | a failing check shows its message and keeps the fields; otherwise the fields go to `onSave`, the form returns to `initialFormData` and the error is the one the modal's save leaves |
| AddOfficerForm.SaveError | front-end/src/components/Subcomponents/SuperAdmin/CouncilOfficers/AddOfficerModal.jsx:33-52 | the shared error is cleared exactly when the save succeeds; a failed save shows its message, or 'Failed to add officer' when that is empty |
| AddOfficerModal.JsRem | front-end/src/components/Subcomponents/SuperAdmin/CouncilOfficers/AddOfficerModal.jsx:28 | JavaScript's `%`: the remainder truncates toward zero, so it takes the sign of the dividend |
| AddOfficerModal.Meridiem | front-end/src/components/Subcomponents/SuperAdmin/CouncilOfficers/AddOfficerModal.jsx:27 | the marker is 'PM' or 'AM'; `NaN` compares as not at least 12 |
| AddOfficerModal.Hour12 | front-end/src/components/Subcomponents/SuperAdmin/CouncilOfficers/AddOfficerModal.jsx:28 | a non-negative hour maps into 1..12 with the same remainder modulo 12; `NaN` gives 12 |
| AddOfficerModal.PaddedTwoDigits | front-end/src/components/Subcomponents/SuperAdmin/CouncilOfficers/AddOfficerModal.jsx:29 | a number below 100, printed and padded to width two, is two digits of the same value |
| AddOfficerModal.FormatTimeOf | front-end/src/components/Subcomponents/SuperAdmin/CouncilOfficers/AddOfficerModal.jsx:24-30 | `hh:mm` is split at the colon, the hour read as a number and printed as its padded 12-hour form, then the minutes and the marker |
| AddOfficerModal.SplitTime | front-end/src/components/Subcomponents/SuperAdmin/CouncilOfficers/AddOfficerModal.jsx:25 | `hh:mm` splits at ':' into the hour and the minutes |
| AddOfficerModal.FormatTimeShape | front-end/src/components/Subcomponents/SuperAdmin/CouncilOfficers/AddOfficerModal.jsx:24-30 | the result is `HH:mm` then 'AM' or 'PM': HH is in 1..12 and equals hh modulo 12; the marker is PM exactly from noon on |
| AddOfficerModal.Hour12Then24 | front-end/src/components/Subcomponents/SuperAdmin/CouncilOfficers/AddOfficerModal.jsx:27-28 | the 12-hour reading and its marker, taken back to 24 hours by the edit form's rule, give the hour of day |
| AddOfficerModal.ParseAfterFormat | front-end/src/components/Subcomponents/SuperAdmin/CouncilOfficers/AddOfficerModal.jsx:24-30 | the edit form's `parseTime` undoes `formatTime` for every time of day |
| AddOfficerModal.ReadTwelveHour | front-end/src/components/Subcomponents/SuperAdmin/CouncilOfficers/editeOfficerform.jsx:18-28 | the edit form reads `hh:mm` followed by 'AM' or 'PM' as the padded hour on the 24-hour clock and the minutes |
| AddOfficerModal.InitialFormData | front-end/src/components/Subcomponents/SuperAdmin/CouncilOfficers/AddOfficerModal.jsx:11-21 | the initial form data has exactly the form's nine fields |
| AddOfficerModal.AsRecord | front-end/src/components/Subcomponents/SuperAdmin/CouncilOfficers/AddOfficerModal.jsx:37-38 | the typed fields as a record of strings, field for field |
| AddOfficerModal.WithSchedule | front-end/src/components/Subcomponents/SuperAdmin/CouncilOfficers/AddOfficerModal.jsx:37-44 | the spread keeps every other field and sets the four schedule fields and `status: 'online'` |
| AddOfficerModal.Payload | front-end/src/components/Subcomponents/SuperAdmin/CouncilOfficers/AddOfficerModal.jsx:37-44 | `officerData` has the form's fields plus `status` |
| AddOfficerModal.PayloadDates | front-end/src/components/Subcomponents/SuperAdmin/CouncilOfficers/AddOfficerModal.jsx:39-43 | the status is 'online' and both dates go through `dateInputToISO` |
| AddOfficerModal.PayloadTimes | front-end/src/components/Subcomponents/SuperAdmin/CouncilOfficers/AddOfficerModal.jsx:41-42 | both times are stored in 12-hour form |
| AddOfficerModal.PayloadKeepsFields | front-end/src/components/Subcomponents/SuperAdmin/CouncilOfficers/AddOfficerModal.jsx:38 | every other form field is passed on as typed |
| AddOfficerModal.StoredTimeReadsBack | front-end/src/components/Subcomponents/SuperAdmin/CouncilOfficers/AddOfficerModal.jsx:41-42 | a time entered as `hh:mm` is stored so that the edit form shows the same `hh:mm` |
| AddOfficerModal.Modal.HandleSave | front-end/src/components/Subcomponents/SuperAdmin/CouncilOfficers/AddOfficerModal.jsx:32-53 | the payload goes to `onSave`; the modal closes exactly when the save succeeds, and otherwise shows the error's message or 'Failed to add officer'; saving ends either way |
| AddOfficerModal.Modal.Settle | front-end/src/components/Subcomponents/SuperAdmin/CouncilOfficers/AddOfficerModal.jsx:33-52 | the outcome of the save: closed with no error, or the message shown; no longer saving |
| AddOfficerModal.FormShowsModalError | front-end/src/components/Subcomponents/SuperAdmin/CouncilOfficers/AddOfficerModal.jsx:35-49 | the error the form reads after its submit is the one the modal's save sets: '' on success, the thrown message or 'Failed to add officer' on failure |
| EditOfficerModal.FormatTime | front-end/src/components/Subcomponents/SuperAdmin/CouncilOfficers/EditOfficerModal.jsx:12-19 | '' for a falsy time, a TypeError from `.split` for a truthy non-string, and otherwise the add modal's conversion |
| EditOfficerModal.ScheduleDate | front-end/src/components/Subcomponents/SuperAdmin/CouncilOfficers/EditOfficerModal.jsx:28-29 | a set date goes through `dateInputToISO`; an empty one becomes `null` |
| EditOfficerModal.WithSchedule | front-end/src/components/Subcomponents/SuperAdmin/CouncilOfficers/EditOfficerModal.jsx:26-32 | the spread keeps every other field and adds the four schedule fields |
| EditOfficerModal.WithScheduleValues | front-end/src/components/Subcomponents/SuperAdmin/CouncilOfficers/EditOfficerModal.jsx:28-31 | the four schedule fields hold the given values |
| EditOfficerModal.Updates | front-end/src/components/Subcomponents/SuperAdmin/CouncilOfficers/EditOfficerModal.jsx:26-32 | the updates have the form's fields plus the schedule fields, every other field unchanged |
| EditOfficerModal.UpdatesThrowIff | front-end/src/components/Subcomponents/SuperAdmin/CouncilOfficers/EditOfficerModal.jsx:26-32 | building the updates throws a TypeError exactly when one of the times is a truthy non-string |
| EditOfficerModal.UpdatesValues | front-end/src/components/Subcomponents/SuperAdmin/CouncilOfficers/EditOfficerModal.jsx:28-31 | the dates are converted or null, and the times are the formatted ones |
| EditOfficerModal.TimeReadsBack | front-end/src/components/Subcomponents/SuperAdmin/CouncilOfficers/EditOfficerModal.jsx:12-19 | a time the edit form shows as `hh:mm` is stored so that the form shows it again unchanged |
| EditOfficerModal.FormattedNotEmpty | front-end/src/components/Subcomponents/SuperAdmin/CouncilOfficers/EditOfficerModal.jsx:14-18 | the conversion of `hh:mm` is never empty |
| EditOfficerModal.ReadFormatted | front-end/src/components/Subcomponents/SuperAdmin/CouncilOfficers/editeOfficerform.jsx:18-28 | the edit form reads a non-empty stored string through the pattern |
| EditOfficerModal.EmptyTimeReadsBack | front-end/src/components/Subcomponents/SuperAdmin/CouncilOfficers/EditOfficerModal.jsx:13 | an empty time is stored as '' and read back as '' |
| EditOfficerModal.Target | front-end/src/components/Subcomponents/SuperAdmin/CouncilOfficers/EditOfficerModal.jsx:34 | the save is addressed to `userId` when truthy and to `id` otherwise; a missing officer throws |
| EditOfficerModal.Attempt | front-end/src/components/Subcomponents/SuperAdmin/CouncilOfficers/EditOfficerModal.jsx:26-34 | `onSave` is called exactly when the updates and the id can be computed, with them; otherwise a TypeError is thrown |
| EditOfficerModal.Modal.HandleSave | front-end/src/components/Subcomponents/SuperAdmin/CouncilOfficers/EditOfficerModal.jsx:21-41 | the modal closes exactly when the call is made and the save succeeds; otherwise it shows the thrown message or 'Failed to update officer'; saving ends either way |
| EditOfficerModal.Modal.Settle | front-end/src/components/Subcomponents/SuperAdmin/CouncilOfficers/EditOfficerModal.jsx:22-40 | the outcome of the save: closed with no error, or the message shown; no longer saving |
| EditOfficerModal.FormShowsModalError | front-end/src/components/Subcomponents/SuperAdmin/CouncilOfficers/EditOfficerModal.jsx:24-37 | the error the form reads after its submit is the one the modal's save sets: '' on success, the thrown message or 'Failed to update officer' on failure |
| InspectorForm.PasswordRules | front-end/src/components/Subcomponents/SuperAdmin/ParkingInspectors/Addinspectorform.jsx:6-10 | the five rules, in order, each with its message |
| InspectorForm.ValidatePassword | front-end/src/components/Subcomponents/SuperAdmin/ParkingInspectors/Addinspectorform.jsx:5-12 | '' exactly for a password of at least 8 characters with an uppercase letter, a lowercase letter, a digit and a special character |
| InspectorForm.ValidatePasswordFirstRule | front-end/src/components/Subcomponents/SuperAdmin/ParkingInspectors/Addinspectorform.jsx:6-10 | the message returned is that of the first rule broken, in the order length, uppercase, lowercase, digit, special |
| InspectorForm.Score | front-end/src/components/Subcomponents/SuperAdmin/ParkingInspectors/Addinspectorform.jsx:15-21 | the strength score counts six criteria and is at most 6 |
| InspectorForm.Label | front-end/src/components/Subcomponents/SuperAdmin/ParkingInspectors/Addinspectorform.jsx:22-24 | a score of at most 2 is 'weak', 3 or 4 'medium', and 5 or 6 'strong' |
| InspectorForm.CalculatePasswordStrength | front-end/src/components/Subcomponents/SuperAdmin/ParkingInspectors/Addinspectorform.jsx:14-25 | the step-by-step count gives the label of the password's score |
| InspectorForm.AcceptedIsStrong | front-end/src/components/Subcomponents/SuperAdmin/ParkingInspectors/Addinspectorform.jsx:5-25 | every accepted password scores at least 5 and is 'strong'; a password shorter than 8 is never 'strong' |
| InspectorForm.KeepsWitness | front-end/src/components/Subcomponents/SuperAdmin/ParkingInspectors/Addinspectorform.jsx:18-21 | a character of a password is still there after more are appended |
| InspectorForm.AppendNeverWeakens | front-end/src/components/Subcomponents/SuperAdmin/ParkingInspectors/Addinspectorform.jsx:14-25 | appending characters never lowers the score or the label |
| InspectorForm.LabelMonotone | front-end/src/components/Subcomponents/SuperAdmin/ParkingInspectors/Addinspectorform.jsx:22-24 | a higher score never gets a lower label |
| InspectorForm.CriteriaKept | front-end/src/components/Subcomponents/SuperAdmin/ParkingInspectors/Addinspectorform.jsx:18-21 | each character criterion survives appending |
| InspectorForm.SubmitChecks | front-end/src/components/Subcomponents/SuperAdmin/ParkingInspectors/Addinspectorform.jsx:51-63 | every check of the submit chain carries a message |
| InspectorForm.MatchesNotBlank | front-end/src/components/Subcomponents/SuperAdmin/ParkingInspectors/Addinspectorform.jsx:52-55 | an address the pattern accepts is not blank, so the presence check is implied by the format check |
| InspectorForm.SubmitChecksPass | front-end/src/components/Subcomponents/SuperAdmin/ParkingInspectors/Addinspectorform.jsx:51-63 | the chain passes exactly when each of its seven checks does |
| InspectorForm.SevenPass | front-end/src/components/Subcomponents/SuperAdmin/ParkingInspectors/Addinspectorform.jsx:51-63 | a chain of seven checks with messages passes exactly when all seven pass |
| InspectorForm.AllPassSeven | front-end/src/components/Subcomponents/SuperAdmin/ParkingInspectors/Addinspectorform.jsx:51-63 | all of seven checks pass exactly when each named one does |
| InspectorForm.SubmitAccepts | front-end/src/components/Subcomponents/SuperAdmin/ParkingInspectors/Addinspectorform.jsx:51-63 | the form submits exactly when name and mobile are not blank, the email matches the pattern, the password meets the policy and the confirmation repeats it; every password that gets through is 'strong' |
| InspectorForm.Form.HandleChange | front-end/src/components/Subcomponents/SuperAdmin/ParkingInspectors/Addinspectorform.jsx:41-46 | one field takes the typed value, the strength is recomputed only for the password, and the error is cleared |
| InspectorForm.Form.HandleSubmit | front-end/src/components/Subcomponents/SuperAdmin/ParkingInspectors/Addinspectorform.jsx:48-69 | a failing check shows its message and changes nothing else; otherwise the fields go to `onSave`, the form and the strength are reset, and the error is the one the modal's save leaves |
| InspectorForm.SaveError | front-end/src/components/Subcomponents/SuperAdmin/ParkingInspectors/AddInspectorModal.jsx:12-29 | the shared error is cleared exactly when the save succeeds; a failed save shows its message, or 'Failed to add inspector' when that is empty |
| InspectorForm.Form.ShowError | front-end/src/components/Subcomponents/SuperAdmin/ParkingInspectors/Addinspectorform.jsx:51-63 | `setError` shows the message and keeps the fields and the strength |
| InspectorForm.Form.Reset | front-end/src/components/Subcomponents/SuperAdmin/ParkingInspectors/Addinspectorform.jsx:67-68 | the fields return to `initialFormData` and the strength to '' |
| InspectorService.IdTexts | front-end/src/services/superAdmin/inspectorService.jsx:23-24 | the ids of the numbered items, in order; `.replace` throws exactly when one of them is not a string |
| InspectorService.IdNumbers | front-end/src/services/superAdmin/inspectorService.jsx:23-26 | each numbered item's id, with its 'Ins' removed and read by `parseInt` (NaN as 0), in order |
| InspectorService.Max | front-end/src/services/superAdmin/inspectorService.jsx:28 | `Math.max` over a non-empty list is one of its elements and at least every element |
| InspectorService.FirstInspectorId | front-end/src/services/superAdmin/inspectorService.jsx:14-20 | with no item that is an inspector with a truthy `inspectorId`, the allocator returns 'Ins0001' |
| InspectorService.RemovePrefix | front-end/src/services/superAdmin/inspectorService.jsx:24 | `replace('Ins', '')` on an id that starts with 'Ins' removes exactly that prefix |
| InspectorService.FormatIdNatural | front-end/src/services/superAdmin/inspectorService.jsx:31 | a non-negative number printed into an id and padded to 4 digits reads back as itself |
| InspectorService.ParseZerosThenSign | front-end/src/services/superAdmin/inspectorService.jsx:24 | `parseInt` of zeros followed by a '-' is 0 |
| InspectorService.IdNumberOf | front-end/src/services/superAdmin/inspectorService.jsx:24-31 | what the padded text of a number reads as is what the id `Ins`+text reads as |
| InspectorService.FormatIdLongNegative | front-end/src/services/superAdmin/inspectorService.jsx:31 | a number of -100 or less is not padded and reads back as itself |
| InspectorService.FormatIdShortNegative | front-end/src/services/superAdmin/inspectorService.jsx:31 | a number between -100 and 0 gets zeros in front of its sign and reads back as 0 |
| InspectorService.PaddedLongNegative | front-end/src/services/superAdmin/inspectorService.jsx:31 | `padStart(4, '0')` leaves a text of four or more characters unchanged |
| InspectorService.PaddedShortNegative | front-end/src/services/superAdmin/inspectorService.jsx:31 | `padStart(4, '0')` puts at least one zero in front of the sign of a short negative number |
| InspectorService.NatToStringShortBound | front-end/src/services/superAdmin/inspectorService.jsx:31 | numbers below 100 print in at most two digits and larger ones in at least three |
| InspectorService.FormatIdNumber | front-end/src/services/superAdmin/inspectorService.jsx:29-31 | the number printed into an id reads back as at least itself, and exactly itself when not negative |
| InspectorService.ZerosValue | front-end/src/services/superAdmin/inspectorService.jsx:24 | a run of zeros is a digit string of value 0 |
| InspectorService.NextInspectorIdIsFresh | front-end/src/services/superAdmin/inspectorService.jsx:22-31 | every allocated id, `Ins0001` included, reads back as a number strictly above the parsed suffix of every numbered inspector |
| InspectorService.NumberBelowMax | front-end/src/services/superAdmin/inspectorService.jsx:23-28 | every numbered item's parsed suffix is at most the maximum |
| InspectorService.ViewKeysDisjoint | front-end/src/services/superAdmin/inspectorService.jsx:48-62 | the copied and the computed properties of the listing are distinct |
| InspectorService.Defaults | front-end/src/services/superAdmin/inspectorService.jsx:49-58 | `id` falls back from `id` to `inspectorId` to `userId`; email defaults to '', status to 'online', `isAssigned` to false |
| InspectorService.InspectorView | front-end/src/services/superAdmin/inspectorService.jsx:48-62 | the listing copies the stored properties it names and adds the defaulted ones, and nothing else |
| InspectorService.InspectorViewMeaning | front-end/src/services/superAdmin/inspectorService.jsx:48-62 | a missing email shows as '', a missing status as 'online', and a missing `isAssigned` as false |
| InspectorService.ViewHidesPassword | front-end/src/services/superAdmin/inspectorService.jsx:48-62 | the stored password and `userType` never reach the listing |
| InspectorService.GetAllInspectors | front-end/src/services/superAdmin/inspectorService.jsx:39-77 | a failed scan throws 'Failed to fetch inspectors'; otherwise the result is a permutation of the inspectors' views, ordered newest first by `createdAt`, a falsy one counted as 0, whenever every such time is a valid date |
| InspectorService.SearchInspectors | front-end/src/services/superAdmin/inspectorService.jsx:196-217 | the search runs over the fetched list, a permutation of the inspectors kept newest first when every time is valid, with the inspector predicate; a failed fetch or a throwing predicate gives 'Failed to search inspectors' |
| InspectorService.GetInspectorsByStatus | front-end/src/services/superAdmin/inspectorService.jsx:222-230 | exactly the fetched inspectors whose status equals the argument, in the fetched order, which is newest first when every time is valid |
| InspectorService.GetInspectorById | front-end/src/services/superAdmin/inspectorService.jsx:235-265 | the view of the inspector stored under the id; `null` when there is none or the read fails |
| InspectorService.NewKeysDisjoint | front-end/src/services/superAdmin/inspectorService.jsx:88-103 | the copied and the set properties of a new inspector are distinct |
| InspectorService.OrUndefined | front-end/src/services/superAdmin/inspectorService.jsx:98-99 | an `or undefined` default leaves a falsy value out |
| InspectorService.NewFields | front-end/src/services/superAdmin/inspectorService.jsx:89-102 | the properties `addInspector` sets itself |
| InspectorService.NewFieldsIds | front-end/src/services/superAdmin/inspectorService.jsx:89-91 | `userId`, `id` and `inspectorId` all hold the id |
| InspectorService.NewFieldsType | front-end/src/services/superAdmin/inspectorService.jsx:96 | the user type is 'inspector' |
| InspectorService.NewFieldsDefaults | front-end/src/services/superAdmin/inspectorService.jsx:97-100 | the status defaults to 'offline' and `isAssigned` to false; a falsy council or zone is left out |
| InspectorService.NewFieldsStamps | front-end/src/services/superAdmin/inspectorService.jsx:101-102 | `createdAt` and `updatedAt` are both the time of the call |
| InspectorService.NewInspector | front-end/src/services/superAdmin/inspectorService.jsx:88-103 | the new record copies name, email, mobile and password from the caller and holds the set properties, and nothing else |
| InspectorService.NewInspectorMeaning | front-end/src/services/superAdmin/inspectorService.jsx:88-103 | the record is keyed by its id under all three names, is an inspector, defaults to offline and unassigned, and has equal timestamps |
| InspectorService.AssignedId | front-end/src/services/superAdmin/inspectorService.jsx:85 | a truthy caller-supplied `inspectorId` wins over a generated one |
| InspectorService.AddInspector | front-end/src/services/superAdmin/inspectorService.jsx:83-117 | the call succeeds exactly when the id can be found and the write succeeds; the table then holds the new record under its id, and a failure throws 'Failed to add inspector' and leaves the table unchanged |
| InspectorService.UpdatePayloadMeaning | front-end/src/services/superAdmin/inspectorService.jsx:128-136 | the payload drops `_password`, keeps a key named `password` and every other key, and sets `updatedAt` |
| InspectorService.StatusPayload | front-end/src/services/superAdmin/inspectorService.jsx:176-179 | the status payload holds only `status` and `updatedAt` |
| InspectorService.AssignPayload | front-end/src/services/superAdmin/inspectorService.jsx:275-280 | the assignment payload holds only the zone, the council, `isAssigned: true` and `updatedAt` |
| InspectorService.UpdateUser | front-end/src/services/superAdmin/inspectorService.jsx:130-137 | the write succeeds exactly when no failure occurs and the key is addressable; the payload is then merged into the record under `{ userId: id }`, and otherwise the table is unchanged |
| InspectorService.UpdateInspector | front-end/src/services/superAdmin/inspectorService.jsx:123-148 | the update merges the payload and returns the success message, or throws 'Failed to update inspector' and changes nothing |
| InspectorService.UpdateInspectorStatus | front-end/src/services/superAdmin/inspectorService.jsx:171-191 | only `status` and `updatedAt` change; the message names the status; a failure throws 'Failed to update status' |
| InspectorService.AssignZoneToInspector | front-end/src/services/superAdmin/inspectorService.jsx:270-292 | only the zone, the council, `isAssigned` and `updatedAt` change; a failure throws 'Failed to assign zone' |
| InspectorService.UpdateChangesOnlyPayload | front-end/src/services/superAdmin/inspectorService.jsx:171-180 | a merge changes only the payload's attributes of the one record, and no other record |
| InspectorService.DeleteInspector | front-end/src/services/superAdmin/inspectorService.jsx:153-166 | the record under `{ userId: id }` is removed, or the call throws 'Failed to delete inspector' and changes nothing |
| OfficerService.OfficerView | front-end/src/services/superAdmin/mcOfficerService.jsx:60-77 | the listing copies the stored properties it names, defaults a falsy status to 'online', and holds nothing else |
| OfficerService.OfficerViewHidesPassword | front-end/src/services/superAdmin/mcOfficerService.jsx:60-77 | the stored password and `userType` never reach the listing |
| OfficerService.GetAllOfficers | front-end/src/services/superAdmin/mcOfficerService.jsx:51-92 | a failed scan throws 'Failed to fetch MC officers'; otherwise the result is a permutation of the officers' views, ordered newest first when every officer has a timestamp |
| OfficerService.McMatch | front-end/src/services/superAdmin/mcOfficerService.jsx:21-23 | a match of `/MCC(\d+)/` yields a non-empty run of digits |
| OfficerService.McMatchMeaning | front-end/src/services/superAdmin/mcOfficerService.jsx:21 | the unanchored pattern is found exactly when 'MCC' and a digit occur somewhere, and the digits are read at the leftmost occurrence |
| OfficerService.MatchAtShift | front-end/src/services/superAdmin/mcOfficerService.jsx:21 | dropping the first character moves every occurrence one place left |
| OfficerService.McMatchNoneIff | front-end/src/services/superAdmin/mcOfficerService.jsx:21-22 | no match exactly when the pattern occurs nowhere |
| OfficerService.McMatchFirst | front-end/src/services/superAdmin/mcOfficerService.jsx:21-23 | a match reads the longest run of digits after the leftmost occurrence |
| OfficerService.McMatchOfId | front-end/src/services/superAdmin/mcOfficerService.jsx:21-33 | an id 'MCC' + digits matches with exactly those digits |
| OfficerService.MaxSuffixSnoc | front-end/src/services/superAdmin/mcOfficerService.jsx:19-29 | one more turn of the `forEach` applies one more step to the running maximum |
| OfficerService.MaxSuffixMeaning | front-end/src/services/superAdmin/mcOfficerService.jsx:18-29 | the loop throws exactly when some truthy `officerId` is not a string; otherwise it yields 0 or the matched suffix of some officer, and no matched suffix exceeds it |
| OfficerService.FallbackId | front-end/src/services/superAdmin/mcOfficerService.jsx:37 | the clock-based id is 'MCC' followed by at most the last six digits of the clock |
| OfficerService.GenerateOfficerId | front-end/src/services/superAdmin/mcOfficerService.jsx:13-39 | the id is the next suffix over the fetched officers, or the clock-based id when the fetch or the loop throws |
| OfficerService.MaxSuffixErrExtends | front-end/src/services/superAdmin/mcOfficerService.jsx:19-29 | once the loop throws on a prefix of the list it throws on the whole list |
| OfficerService.FirstOfficerId | front-end/src/services/superAdmin/mcOfficerService.jsx:18-33 | with no `officerId` matching `MCC<digits>`, the result is 'MCC001' |
| OfficerService.NextIdReadsBack | front-end/src/services/superAdmin/mcOfficerService.jsx:32-33 | the id for maximum m reads back, through the same pattern, as m + 1; it has at least six characters and ends with m + 1 printed in full, so padding never truncates |
| OfficerService.NextIdMatch | front-end/src/services/superAdmin/mcOfficerService.jsx:33 | the id for maximum m matches with m + 1 padded to three digits, of value m + 1 |
| OfficerService.NextIdTail | front-end/src/services/superAdmin/mcOfficerService.jsx:33 | the id ends with m + 1 printed in full |
| OfficerService.NextIdIsFresh | front-end/src/services/superAdmin/mcOfficerService.jsx:18-33 | the new suffix is one above the maximum and above every matched suffix in the listing |
| OfficerService.NewOfficerMeaning | front-end/src/services/superAdmin/mcOfficerService.jsx:105-115 | supplied `userId`, `id` and `officerId` win over the generated ones; the hashed password, 'mc_officer', the defaulted status and equal timestamps are always set; every other field is the caller's |
| OfficerService.AddOfficer | front-end/src/services/superAdmin/mcOfficerService.jsx:97-124 | the record `OFFICER_<time>_<random>` with the allocated display id and the hashed password is stored and returned; a failing hash or write throws 'Failed to add MC officer' and changes nothing |
| OfficerService.UpdateOfficer | front-end/src/services/superAdmin/mcOfficerService.jsx:129-147 | `updates` without `_password`, stamped with `updatedAt`, is merged into the record under `{ userId: id }`; a failure throws and changes nothing |
| OfficerService.DeleteOfficer | front-end/src/services/superAdmin/mcOfficerService.jsx:150-157 | the record under `{ userId: id }` is removed; a failure throws 'Failed to delete MC officer' and changes nothing |
| OfficerService.SearchOfficers | front-end/src/services/superAdmin/mcOfficerService.jsx:162-183 | the search runs over the fetched list, newest first when every officer is stamped, with the officer predicate; a failed fetch or a throwing predicate gives 'Failed to search MC officers' |
| OfficerService.GetOfficersByStatus | front-end/src/services/superAdmin/mcOfficerService.jsx:188-196 | exactly the fetched officers whose status equals the argument, in the fetched order, which is newest first when every officer is stamped |
| OwnerService.OwnerView | front-end/src/services/superAdmin/vehicleOwnerService.jsx:20-31 | `id` falls back to `vehicleOwnerId`, status defaults to 'online' and email to ''; the other properties are copied and nothing else is shown |
| OwnerService.GetAllOwners | front-end/src/services/superAdmin/vehicleOwnerService.jsx:11-45 | a failed scan throws 'Failed to fetch vehicle owners'; otherwise a permutation of the owners' views, newest first whenever every owner has a `createdAt` |
| OwnerService.OwnersListed | front-end/src/services/superAdmin/vehicleOwnerService.jsx:16-31 | the listing holds exactly the views of the stored records whose `userType` is 'vehicle_owner' |
| OwnerService.UpdateOwner | front-end/src/services/superAdmin/vehicleOwnerService.jsx:50-64 | every property of `updates`, stamped with `updatedAt`, is merged into the record under `{ userId: id }`; nothing is stripped; a failure throws and changes nothing |
| OwnerService.DeleteOwner | front-end/src/services/superAdmin/vehicleOwnerService.jsx:69-76 | the record under `{ userId: id }` is removed; a failure throws and changes nothing |
| OwnerService.MatchesMeaning | front-end/src/services/superAdmin/vehicleOwnerService.jsx:91-95 | an owner matches exactly when the lowercased name contains the lowercased term or the mobile number contains the raw term; the email plays no part |
| OwnerService.SearchOwners | front-end/src/services/superAdmin/vehicleOwnerService.jsx:81-100 | the search runs over the fetched list, newest first when every owner has a valid time, with the owner predicate; a failed fetch or a throwing predicate gives 'Failed to search vehicle owners' |
| OwnerService.GetOwnersByStatus | front-end/src/services/superAdmin/vehicleOwnerService.jsx:105-114 | exactly the fetched owners whose status equals the argument, in the fetched order, which is newest first when every owner has a valid time |
| OwnerService.GetOwnerByNic | front-end/src/services/superAdmin/vehicleOwnerService.jsx:119-128 | the first fetched owner whose `nicNumber` equals the argument, or `null` exactly when there is none; when every owner has a valid time it is the newest such owner |
| OwnerService.FindByNic | front-end/src/services/superAdmin/vehicleOwnerService.jsx:122-123 | `find` gives `null` exactly when no owner has the NIC, otherwise the first that has it, and over a newest-first list that one is at least as new as every other match |
| Users.UserKey | front-end/src/services/superAdmin/inspectorService.jsx:132 | the key object `{ userId: id }`, empty when the id is `undefined` |
| Users.Pick | front-end/src/services/superAdmin/inspectorService.jsx:48-62 | the named properties of a record and no others |
| Users.Stamped | front-end/src/services/superAdmin/inspectorService.jsx:133-136 | `{ ...updates, updatedAt }` keeps every property of `updates` and sets `updatedAt` |
| Users.WithoutUnderscorePassword | front-end/src/services/superAdmin/inspectorService.jsx:128 | only the property named `_password` is dropped |
| Users.BlankTermIff | front-end/src/services/superAdmin/inspectorService.jsx:200 | a term that is empty or trims to '' is exactly a blank term |
| Users.LowerIncludes | front-end/src/services/superAdmin/inspectorService.jsx:208 | the case-insensitive containment test, which throws on a field that is not a string |
| Users.RawIncludes | front-end/src/services/superAdmin/inspectorService.jsx:209 | the case-sensitive containment test, which throws on a field that is not a string |
| Users.OptionalLowerIncludes | front-end/src/services/superAdmin/inspectorService.jsx:210-211 | a falsy optional field does not match; a truthy one is tested case-insensitively |
| Users.OrElse | front-end/src/services/superAdmin/inspectorService.jsx:208-211 | a JavaScript `or` evaluates its second operand, which may throw, only when the first is false |
| Users.Rethrow | front-end/src/services/superAdmin/inspectorService.jsx:213-216 | the `catch` replaces any error by the operation's own message |
| Users.StaffMatchesWhen | front-end/src/services/superAdmin/mcOfficerService.jsx:172-178 | an inspector or officer matches when the lowercased name contains the lowercased term or the mobile contains the raw term, and otherwise by the optional email and id |
| Users.StaffMatchesThrows | front-end/src/services/superAdmin/mcOfficerService.jsx:174 | a name that is not a string makes the search callback throw |
| Users.SearchMeaning | front-end/src/services/superAdmin/mcOfficerService.jsx:166-178 | a blank term returns the whole list; any other term keeps, in order, exactly the records the callback accepts, and fails exactly when the callback throws on some record |
| Store.KeyOf | front-end/src/services/superAdmin/awsDynamoService.jsx:116-123 | a key object denotes a stored key exactly when it names only the key attribute, with a non-empty string |
| Store.ItemKey | front-end/src/services/superAdmin/awsDynamoService.jsx:72-79 | an item to be written carries its key as a non-empty string under the key attribute, or is refused |
| Store.Lookup | front-end/src/services/superAdmin/awsDynamoService.jsx:55-67 | a failed read throws its message; otherwise the item stored under the key, or none, and a stored item carries the key it was read by |
| Store.Put | front-end/src/services/superAdmin/awsDynamoService.jsx:72-82 | the item replaces whatever was stored under its key and reads back as itself; every other item is unchanged |
| Store.Upsert | front-end/src/services/superAdmin/awsDynamoService.jsx:87-111 | the updates are merged into the item under the key, which starts from the key alone when absent; every other item is unchanged |
| Store.Remove | front-end/src/services/superAdmin/awsDynamoService.jsx:116-126 | nothing is stored under the key afterwards and every other item is unchanged |
| Store.Table.GetItem | front-end/src/services/superAdmin/awsDynamoService.jsx:55-67 | the read of the table's current items |
| Store.Table.PutItem | front-end/src/services/superAdmin/awsDynamoService.jsx:72-82 | the write succeeds exactly when the request does and the item has a key; it then replaces the stored item, and otherwise changes nothing |
| Store.Table.UpdateItem | front-end/src/services/superAdmin/awsDynamoService.jsx:87-111 | an empty key or empty updates are refused with their messages before any request; a successful request merges the updates, and any failure changes nothing |
| Store.Table.DeleteItem | front-end/src/services/superAdmin/awsDynamoService.jsx:116-126 | the delete removes the item under the key, or throws the request's message and changes nothing |
| Lists.SubsequenceReflexive | front-end/src/services/superAdmin/inspectorService.jsx:200-202 | a list is a subsequence of itself |
| Lists.Filter | front-end/src/services/superAdmin/inspectorService.jsx:225 | `filter` never lengthens a list |
| Lists.FilterMembers | front-end/src/services/superAdmin/inspectorService.jsx:225 | the elements kept are exactly those that satisfy the callback |
| Lists.FilterIsSubsequence | front-end/src/services/superAdmin/inspectorService.jsx:206-212 | the filter keeps the order of the list |
| Lists.FilterAllPass | front-end/src/services/superAdmin/inspectorService.jsx:200-202 | when every element passes, the filter returns the whole list |
| Lists.FilterWeaker | front-end/src/services/superAdmin/vehicleOwnerService.jsx:91-95 | filtering by a weaker condition keeps at least the same elements, in the same order |
| Lists.SubsequenceSkip | front-end/src/services/superAdmin/inspectorService.jsx:206-212 | a subsequence stays one when an element is put in front of the list |
| Lists.Map | front-end/src/services/superAdmin/inspectorService.jsx:48 | `map` applies the callback to each element, in order |
| Lists.FilterMapMembers | front-end/src/services/superAdmin/inspectorService.jsx:44-62 | `filter` then `map` holds exactly the images of the kept elements |
| Lists.FilterOrThrowMeaning | front-end/src/services/superAdmin/mcOfficerService.jsx:172-178 | a filter whose callback may throw succeeds exactly when the callback succeeds on every element, and then keeps the accepted ones |
| Lists.FilterOrThrowFirstError | front-end/src/services/superAdmin/mcOfficerService.jsx:172-178 | when it throws, the message is the one the first failing callback threw |
| Lists.FindFirst | front-end/src/services/superAdmin/vehicleOwnerService.jsx:123 | `find` returns the element at the first index that satisfies the predicate, and nothing exactly when none does |
| Sorting.Swap | front-end/src/services/superAdmin/inspectorService.jsx:65-69 | exchanging two neighbours keeps the records |
| Sorting.SwapStep | front-end/src/services/superAdmin/inspectorService.jsx:65-69 | moving a newer record one place to the front keeps the prefix sorted around it |
| Sorting.InsertDone | front-end/src/services/superAdmin/inspectorService.jsx:65-69 | once the moved record is no newer than its predecessor, the prefix is sorted |
| Sorting.SortNewestFirst | front-end/src/services/superAdmin/inspectorService.jsx:65-69 | the in-place sort permutes the array, and when every record has a key, orders it newest first |
| Sorting.CreatedAtOrZero | front-end/src/services/superAdmin/inspectorService.jsx:66-67 | the inspectors' key: a falsy `createdAt` counts as 0, otherwise the time `new Date` reads from it |
| Sorting.CreatedAt | front-end/src/services/superAdmin/vehicleOwnerService.jsx:35-36 | the owners' key: the time `new Date` reads from `createdAt`; a missing one is NaN |
| Sorting.TruthyCreatedAt | front-end/src/services/superAdmin/mcOfficerService.jsx:81-83 | the officers' key: the time of a truthy `createdAt`; a falsy one makes the comparator answer 0 and has no key |
| Sorting.TimeValue | front-end/src/services/superAdmin/vehicleOwnerService.jsx:35-36 | `new Date(v).getTime()`: null and false are 0, true is 1, a number is itself within ±8.64e15 ms and NaN beyond, a missing value or a text is NaN |
| Sorting.KeysAgreeOnTruthy | front-end/src/services/superAdmin/inspectorService.jsx:66-67 | on a truthy `createdAt` the three services read the same time; on a falsy one the inspectors count 0 and the officers have no key |
| Sorting.FirstMatchIsNewest | front-end/src/services/superAdmin/vehicleOwnerService.jsx:122-123 | in a newest-first list the first record matching a predicate is at least as new as every other match |
| Sorting.SortedNewestFirst | front-end/src/services/superAdmin/inspectorService.jsx:65-69 | the sorted copy is a permutation of the list and newest first when every record has a key |
| ListHook.ErrorText | front-end/src/hooks/superAdmin/useInspectors.jsx:22 | `err.message || fallback`: the thrown message when it is non-empty, and never empty when the fallback is not |
| ListHook.Hook.constructor | front-end/src/hooks/superAdmin/useInspectors.jsx:6-10 | the initial state: both lists empty, loading, no error, an empty query |
| ListHook.Hook.Load | front-end/src/hooks/superAdmin/useInspectors.jsx:13-50 | a successful fetch stores the list, clears the error and, as the filter effect re-runs on the new list, shows the search of the current query over it (the whole list for a blank query, the list itself when the callback throws); a failed one keeps both lists and sets the error; loading ends either way |
| ListHook.Hook.FilterEffect | front-end/src/hooks/superAdmin/useInspectors.jsx:34-50 | a blank query shows the whole list, another shows the records the callback accepts, in order; a throwing callback leaves the shown list as it was |
| ListHook.Hook.SetSearchQuery | front-end/src/hooks/superAdmin/useInspectors.jsx:10 | setting the query re-runs the filter over the unchanged list |
| ListHook.FilterEffectMeaning | front-end/src/hooks/superAdmin/useInspectors.jsx:34-50 | a blank query shows the whole list, and what is shown is always an ordered selection of the list |
| InspectorsHook.LoadInspectors | front-end/src/hooks/superAdmin/useInspectors.jsx:13-50 | the loaded list is a permutation of the inspectors of the scan, newest first when every time is valid, filtered by the current query; or the service's fetch error with the lists kept |
| InspectorsHook.FilterInspectors | front-end/src/hooks/superAdmin/useInspectors.jsx:34-50 | the hook's filter is the service's search callback (name, mobile number, email, inspector id) |
| InspectorsHook.AddInspector | front-end/src/hooks/superAdmin/useInspectors.jsx:53-62 | the add either stores the new inspector under its assigned id, returns the service's result (success, 'Inspector added successfully' and the `inspectorId`) and reloads, or fails with the service's message and changes nothing; the reload shows the current query's search over the new list, newest first when the keys allow |
| InspectorsHook.UpdateInspector | front-end/src/hooks/superAdmin/useInspectors.jsx:65-74 | an update of an addressable inspector merges its fields, answers success and reloads; otherwise the service's error and no change; the reload shows the current query's search over the new list, newest first when the keys allow |
| InspectorsHook.DeleteInspector | front-end/src/hooks/superAdmin/useInspectors.jsx:77-86 | a delete removes the inspector, answers success and reloads; otherwise the service's error and no change; the reload shows the current query's search over the new list, newest first when the keys allow |
| InspectorsHook.UpdateStatus | front-end/src/hooks/superAdmin/useInspectors.jsx:89-98 | a status change writes the status with a new update time, answers success and reloads; otherwise the service's error and no change; the reload shows the current query's search over the new list, newest first when the keys allow |
| OfficersHook.LoadOfficers | front-end/src/hooks/superAdmin/useMCOfficers.jsx:13-50 | the loaded list is a permutation of the officers of the scan, newest first when all are stamped, filtered by the current query; or the fetch error with the lists kept |
| OfficersHook.FilterOfficers | front-end/src/hooks/superAdmin/useMCOfficers.jsx:34-50 | the hook's filter is the service's search callback (name, mobile number, email, officer id) |
| OfficersHook.AddOfficer | front-end/src/hooks/superAdmin/useMCOfficers.jsx:53-62 | a successful add, exactly when the hash, the write and the new record's key succeed, stores the service's new officer, answers success and reloads; a failed one throws the service's message and changes nothing; the reload shows the current query's search over the new list, newest first when the keys allow |
| OfficersHook.UpdateOfficer | front-end/src/hooks/superAdmin/useMCOfficers.jsx:65-74 | an update of an addressable officer merges its fields, answers success and reloads; otherwise the service's error and no change; the reload shows the current query's search over the new list, newest first when the keys allow |
| OfficersHook.DeleteOfficer | front-end/src/hooks/superAdmin/useMCOfficers.jsx:77-86 | a delete removes the officer, answers success and reloads; otherwise the service's error and no change; the reload shows the current query's search over the new list, newest first when the keys allow |
| OwnersHook.HookAcceptsWhatServiceAccepts | front-end/src/hooks/superAdmin/useVehicleOwners.jsx:41-47 | the hook's filter accepts every owner the service's search accepts, throws as it does, and otherwise decides by the email |
| OwnersHook.HookFilterIsBroader | front-end/src/hooks/superAdmin/useVehicleOwners.jsx:41-47 | when neither throws, the service's search result is an ordered selection of what the hook shows |
| OwnersHook.StrictlyBroader | front-end/src/hooks/superAdmin/useVehicleOwners.jsx:46 | an owner matched only by email is shown by the hook and not found by the service |
| OwnersHook.LoadOwners | front-end/src/hooks/superAdmin/useVehicleOwners.jsx:13-50 | the loaded list is a permutation of the owners of the scan, newest first when every time is valid, filtered by the hook's own callback; or the fetch error with the lists kept |
| OwnersHook.FilterOwners | front-end/src/hooks/superAdmin/useVehicleOwners.jsx:35-50 | the filter shown is the hook's own callback over name, mobile number and email |
| OwnersHook.UpdateOwner | front-end/src/hooks/superAdmin/useVehicleOwners.jsx:53-62 | an update of an addressable owner merges its fields, answers success and reloads; otherwise the service's error and no change; the reload shows the current query's search over the new list, newest first when the keys allow |
| OwnersHook.DeleteOwner | front-end/src/hooks/superAdmin/useVehicleOwners.jsx:65-74 | a delete removes the owner, answers success and reloads; otherwise the service's error and no change; the reload shows the current query's search over the new list, newest first when the keys allow |
| Navigation.TablesCoverRoles | front-end/src/config/navigationConfig.jsx:27-162 | the display names, the dashboard paths and the sidebar table are keyed by exactly the three roles |
| Navigation.GetNavigationItems | front-end/src/config/navigationConfig.jsx:167-169 | each role gets its own sidebar; any other role an empty one |
| Navigation.GetRoleDisplayName | front-end/src/config/navigationConfig.jsx:174-176 | each role gets its display name, any other 'Unknown Role'; never empty |
| Navigation.GetDashboardPath | front-end/src/config/navigationConfig.jsx:181-183 | each role gets its dashboard path, any other '/dashboard'; every result lies under '/dashboard' |
| Navigation.SuperAdminNavWellFormed | front-end/src/config/navigationConfig.jsx:45-91 | the super admin's sidebar opens on its dashboard, stays under it, has distinct paths and ends with its settings |
| Navigation.MunicipalAdminNavWellFormed | front-end/src/config/navigationConfig.jsx:96-122 | the same for the municipal admin's sidebar |
| Navigation.FineCheckerNavWellFormed | front-end/src/config/navigationConfig.jsx:127-153 | the same for the fine checker's sidebar |
| Navigation.DistinctPaths | front-end/src/config/navigationConfig.jsx:45-153 | paths built from one base and distinct tails lie under the base and are distinct |
| Navigation.SameBaseTails | front-end/src/config/navigationConfig.jsx:45-153 | one base with two tails gives equal paths only for equal tails |
| Navigation.NavigationWellFormed | front-end/src/config/navigationConfig.jsx:167-183 | every role's sidebar is well formed and rooted at the dashboard path given for the role |
| Navigation.UnknownRole | front-end/src/config/navigationConfig.jsx:167-183 | an unknown role gets no sidebar, 'Unknown Role' and '/dashboard' |
| Navigation.UndefinedRoleUnknown | front-end/src/config/navigationConfig.jsx:167-169 | a missing role is an unknown role |
| RoleRoutes.RoutesAreDashboardPaths | front-end/src/utils/roleRoutes.jsx:9-13 | the route table is the navigation's table of dashboard paths |
| RoleRoutes.NavigateByRole | front-end/src/utils/roleRoutes.jsx:18-30 | a role with a route goes there, any other role to '/login' |
| RoleRoutes.NavigateMatchesDashboard | front-end/src/utils/roleRoutes.jsx:18-30 | a known role lands on the dashboard its navigation names; an unknown one on '/login', not the navigation's default |
| RoleRoutes.HasRequiredRole | front-end/src/utils/roleRoutes.jsx:35-40 | an array requirement holds exactly when the role is one of its elements, a single one exactly when it is that role |
| RoleRoutes.SingletonArray | front-end/src/utils/roleRoutes.jsx:35-40 | a one-role array is the same requirement as that role alone |
| RoleRoutes.MoreRolesAdmitMore | front-end/src/utils/roleRoutes.jsx:35-40 | adding roles to a requirement never refuses a role it admitted |
| RoleRoutes.GetRoleDisplayName | front-end/src/utils/roleRoutes.jsx:45-53 | each role gets this table's display name, any other 'Unknown Role' |
| RoleRoutes.DisplayNamesAgreeButSuperAdmin | front-end/src/utils/roleRoutes.jsx:45-53 | the two display-name tables agree on every role but the super admin, named 'Super Administrator' here and 'Super Admin' by the navigation |
| RoleRoutes.AdminRoles | front-end/src/utils/roleRoutes.jsx:58-67 | admin features are open to exactly the two admin roles, so to every super admin and never to a fine checker |
| RoleRoutes.AdminsHaveRoutes | front-end/src/utils/roleRoutes.jsx:58-60 | every admin is sent to a dashboard, never to '/login' |
| TopNavbar.FirstOrUndefined | front-end/src/shared/components/layout/TopNavbar.jsx:26 | a part's first character, or 'undefined' for an empty part |
| TopNavbar.FirstTwo | front-end/src/shared/components/layout/TopNavbar.jsx:28 | `substring(0, 2)` is the prefix of length at most two |
| TopNavbar.UserInitials | front-end/src/shared/components/layout/TopNavbar.jsx:22-29 | a falsy name gives 'U'; a truthy non-string throws the TypeError of `.split` |
| TopNavbar.TwoWordInitials | front-end/src/shared/components/layout/TopNavbar.jsx:24-27 | a name of two or more words gives the first letters of the first two, uppercased |
| TopNavbar.LaterWordsIgnored | front-end/src/shared/components/layout/TopNavbar.jsx:24-27 | a third word does not change the initials |
| TopNavbar.OneWordInitials | front-end/src/shared/components/layout/TopNavbar.jsx:28 | a one-word name gives its first two characters, uppercased |
| TopNavbar.SplitHead | front-end/src/shared/components/layout/TopNavbar.jsx:24 | the first part of a split starts with the text's first character when that is not the separator |
| TopNavbar.InitialsLength | front-end/src/shared/components/layout/TopNavbar.jsx:22-29 | a name without leading or doubled spaces gets one or two letters |
| TopNavbar.LeadingSpaceInitials | front-end/src/shared/components/layout/TopNavbar.jsx:24-26 | a leading space makes the first initial the text 'UNDEFINED' |
| Strings.ParseIntOfIntToString | front-end/src/services/superAdmin/inspectorService.jsx:24 | `parseInt` reads every integer's decimal text back as that integer |
| Strings.NatToStringRoundTrip | front-end/src/services/superAdmin/inspectorService.jsx:31 | the decimal text of a number has that number as its value |
| Strings.PadStartKeepsValue | front-end/src/services/superAdmin/inspectorService.jsx:31 | padding a numeral with zeros keeps it a numeral of the same value |
| Strings.ParseIntUnsigned | front-end/src/services/superAdmin/mcOfficerService.jsx:23 | `parseInt` of a text that starts with a digit is the value of its leading digits |
| Strings.TwoDigitsRoundTrip | front-end/src/components/Subcomponents/SuperAdmin/CouncilOfficers/AddOfficerModal.jsx:26-29 | a two-digit field read as a number and padded back to two digits is unchanged |
| Strings.TrimEmptyIffBlank | front-end/src/hooks/superAdmin/useInspectors.jsx:35 | `trim` empties a text exactly when it is all white space |
| AddOfficerForm.Form.constructor | front-end/src/components/Subcomponents/SuperAdmin/CouncilOfficers/AddOfficerForm.jsx:17 | the form starts from the initial data it is given, with no error |
| AddOfficerModal.Modal.constructor | front-end/src/components/Subcomponents/SuperAdmin/CouncilOfficers/AddOfficerModal.jsx:8-9 | the modal starts not saving and without an error |
| EditOfficerForm.Form.constructor | front-end/src/components/Subcomponents/SuperAdmin/CouncilOfficers/editeOfficerform.jsx:45 | the form starts from the state built from the officer, with no error |
| EditOfficerModal.Modal.constructor | front-end/src/components/Subcomponents/SuperAdmin/CouncilOfficers/EditOfficerModal.jsx:8-9 | the modal starts not saving and without an error |
| InspectorForm.Form.constructor | front-end/src/components/Subcomponents/SuperAdmin/ParkingInspectors/Addinspectorform.jsx:36-39 | the form starts from the initial data, with no strength label and no error |

## Left out

- HTTP, `fetch` and the API-Gateway wrapper of the DynamoDB client are left out. A remote call is reduced to its effect on the table and an optional failure message.
- The server side of the table is assumed, not modelled: put overwrites, update merges, delete removes, and a key of the wrong shape is refused.
- A scan's result is a parameter and is not derived from the table. DynamoDB does not specify the order of a scan.
- bcrypt hashing and comparison, and JWT signing, are abstract parameters. Tokens are uninterpreted values. `Login.Sign` is total, so a `jwt.sign` that throws, which the handler answers with 500, is not modelled.
- Login.Json has no array case, and a field's value cannot be a nested object. A body such as `{"email": {}, "password": "x"}` gets past `!email`, and the pattern tests the text "[object Object]", so the code answers 400 'Invalid email format' (`loginFunction.js`, lines 43-57). A body such as `{"email": ["a@b.c"]}` instead passes the email pattern in the code, because the array is tested as the text "a@b.c"; `email.toLowerCase()` then throws and the handler answers 500 (`loginFunction.js`, lines 51-52 and 143-153). The model represents neither body.
- The clock, `Date.now()`, `new Date().toISOString()` and `Math.random` are parameters. Timestamps are integers, not ISO strings.
- `dateInputToISO` and `isoToDateInput` are opaque parameters, because the date utilities depend on `Date` parsing and time zones. The parameters are total, while `toISOString` throws a `RangeError` on a text `Date` cannot parse (`dateUtils.jsx`, lines 22-24 and 30-33); that throw is not modelled.
- The Promise-valued `generateInspectorId()` fallback of the listing's id chain is left out. Only the `id || inspectorId || userId` alternatives are modelled.
- Concurrency is not modelled; calls run one after another. This leaves out the race between the scan that allocates a display id and the write that uses it.
- String operations are modelled on Dafny characters:
  - case mapping covers ASCII letters only;
  - lengths count characters, not UTF-16 code units.
- Roles are looked up among a table's own properties only. Inherited `Object.prototype` names such as `toString` or `constructor` are not modelled.
- `console.log` and `console.error` are left out.
- `navigateByRole`'s assignment to `window.location.href` is modelled as the path it returns.
- React rendering, icons, the sidebar markup, the password-visibility toggles and the top navbar's dropdown state are left out.
- `useUserData.jsx`, the dashboards, the cards and lists, the confirmation modals, the route tree in `App.jsx` and the configuration files are not part of this model. They are rendering, I/O or configuration.
- OfficerService.NextIdReadsBack, OfficerService.NextIdIsFresh, InspectorService.NextInspectorIdIsFresh, and the OfficerService.MaxSuffix, InspectorService.IdNumbers and InspectorService.FormatIdNumber chain under them: numbers are exact unbounded integers, while JavaScript numbers are doubles.
  - From 2^53 on, `parseInt` and `maxNumber + 1` round (`mcOfficerService.jsx`, line 32; `inspectorService.jsx`, lines 24-31). A suffix of 9007199254740993 gives back the id whose suffix reads 9007199254740992, which is not fresh.
  - From 10^21 on, `String` and `toString` print exponent notation, which `Strings.NatToString` does not model.
  - So read-back and freshness, as the code runs, hold only for suffixes below 2^53.
- NaN is not a value of the model.
  - Where the code can meet it, for example `parseInt` of a text without digits or a missing timestamp, the model returns an absent result (`None`).
  - Where NaN would decide the outcome, that outcome is what the code does with an absent result.
- The list hooks' filter effect can throw when a searched field is not a string. The model reports this as a returned message, from `FilterEffect` and from every load or reload, after which the effect re-runs on the new list. It does not model how React surfaces an error thrown inside an effect, nor the render in which the unfiltered list is briefly shown before the effect runs.
- Sorting.SortNewestFirst: promises newest-first order only when every record has a sort key.
  - When keys are missing, the three services' comparators tell nothing about the order; the officers' comparator is not even consistent.
  - For that case the method promises only a permutation.
  - `Array.prototype.sort` is stable since ECMAScript 2019, and so is the model's insertion sort: equal keys keep the scan's order. No contract states this stability.
- Sorting.TimeValue: a text `createdAt` is read as NaN. `Date` parsing of ISO text is not modelled, because the model writes every timestamp as a number of milliseconds. Sorting.CreatedAtOrZero, Sorting.CreatedAt and Sorting.TruthyCreatedAt inherit this.
- InspectorService.GetAllInspectors, OwnerService.GetAllOwners and the searches, status filters and loads built on them: the newest-first order is promised only when every record's key is a valid time, for the same reason as the officers' below.
- OfficerService.GetAllOfficers: promises the newest-first order only when every officer has a truthy numeric `createdAt`, for the same reason.
- The comments in `updateInspector` (`inspectorService.jsx`, lines 121 and 125) say that a password in the updates is removed. The code removes only a property named `_password`, and the model follows the code. `InspectorService.UpdatePayloadMeaning` proves that a `password` property is sent as given.
- The same holds for `updateOfficer` (`mcOfficerService.jsx`, lines 126 and 130): its comments say the password cannot be updated, but only `_password` is removed. OfficerService.UpdateOfficer passes a `password` property through to the table, as `Users.WithoutUnderscorePassword` states.
- InspectorService.NewFieldsStamps, InspectorService.NewInspectorMeaning and OfficerService.NewOfficerMeaning: one clock reading stands for both `new Date()` calls that set `createdAt` and `updatedAt` (`inspectorService.jsx`, lines 101-102; `mcOfficerService.jsx`, lines 113-114). The two calls may read different milliseconds, so the model's promise that both stamps are equal is stronger than the code's.
- InspectorForm.SaveError: the enclosing modal's `handleSave` is reduced to its effect on the error it shares with the form (`AddInspectorModal.jsx`, lines 14 and 29); its hashing and its saving flag are left out.
