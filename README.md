# holistic_crm — a verified model of the learner and admin front end

This project models the logic of a React front end for a coaching and
teaching platform in Dafny and proves properties of it. The front end has two
halves:

- **Live sessions.** A learner joins with an invite code and a username
  (`JoinSessionForm`). The `useEngageSession` hook opens a server-sent-events
  stream and folds every session event into the learner's session state.
  Lost connections are retried with exponential backoff. `SessionController`,
  `SessionHeader`, `SlideRenderer` and `QuizInteraction` choose what the
  learner sees and how a quiz answer is submitted.
- **Administration and courses.**
  - `ManageUsersPage`: import users from a CSV file, add, edit, delete and
    select them, fill an email body's placeholders and wrap it in the HTML
    template, and fill the WhatsApp template.
  - `CourseExplorer`: search the subject/module/chapter/slide tree and count
    its contents. `TreeItem` renders one row of it.
  - `DetailView`: the PDF page and zoom controls, the assessment answers, and
    which viewer or summary the selected item gets.

Modules:

| file | module | models |
|---|---|---|
| `wrappers.dfy` | `Wrappers` | `Option`, `Result`, JavaScript truthiness of optional strings |
| `text.dfy` | `Text` | the JavaScript string operations the core uses, over ASCII |
| `engage_types.dfy` | `EngageTypes` | the session, slide and event records (`src/types/index.ts`) |
| `engage_session.dfy` | `EngageSession` | the event reducer, the backoff and the connection state machine of `useEngageSession` |
| `session_header.dfy`, `slide_renderer.dfy`, `session_controller.dfy` | same names | screen selection for a live session |
| `seqs.dfy` | `Seqs` | the `filter(x => x !== id)` used by the answer forms and the duplicate-freedom it keeps |
| `quiz_interaction.dfy` | `QuizInteraction` | option selection, attempt budget and submit flow |
| `join_session_form.dfy` | `JoinSessionForm` | schema, upper-casing and error handling of the join form |
| `user_validation.dfy`, `user_list.dfy`, `email_composer.dfy` | same names | `ManageUsersPage`: import and form validation, the user list and selection, the message composers |
| `course_data.dfy`, `course_explorer.dfy`, `tree_item.dfy`, `detail_view.dfy` | same names | the course tree, its search and statistics, its rows and the detail pane |

Some code keeps state in React `useState`/`useRef` and changes it from event
handlers. That code is modelled twice:

- as a `class` whose fields are that state and whose methods are the handlers;
- as pure transition functions that the methods are proved against.

Each method's `ensures` states the whole new state. The lemmas about the
transition functions carry the properties. A handler that awaits a network
call is split in two: the part before the `await`, and the part after it,
which takes the call's outcome as a parameter.

Where the hook's or the page's behaviour is surprising, the model keeps it as
written:

- The hook's unmount cleanup (`src/hooks/useEngageSession.ts:268-279`) closes
  the stream and the heartbeat. It does not cancel a reconnect timer that is
  already pending. `EngageSession.Unmounted` therefore keeps
  `pendingReconnects`, and `ReconnectFired` may still open a new stream after
  unmount.
- A `slide_data` payload always becomes `currentSlide`
  (`src/hooks/useEngageSession.ts:224-232`). This is true even when the slide
  does not sit at the session's current index.
  `EngageSession.SlidePayloadMayBreakResolution` exhibits such an event.
- The WhatsApp message fills only the first `{name}` slot
  (`src/pages/ManageUsersPage.tsx:569`, a string `replace`). The email preview
  replaces every occurrence of each placeholder.

## Model

| member | source | states |
|---|---|---|
| Wrappers.OrElse | src/hooks/useEngageSession.ts:234-238 | `x \|\| fallback` on an optional string: the value when it is a non-empty string, the fallback otherwise |
| Text.ToLower | src/components/course/CourseExplorer.tsx:50 | `toLowerCase` keeps the length and maps each character through ASCII lower-casing |
| Text.ToUpper | src/components/JoinSessionForm.tsx:68 | `toUpperCase` keeps the length and maps each character through ASCII upper-casing |
| Text.UpperIdempotent | src/components/JoinSessionForm.tsx:41 | upper-casing twice is upper-casing once, so the submit's second `toUpperCase` changes nothing |
| Text.LowerIdempotent | src/pages/ManageUsersPage.tsx:318 | lower-casing twice is lower-casing once |
| Text.LowerKeepsClasses | src/pages/ManageUsersPage.tsx:307 | lower-casing keeps whitespace-freedom and the positions of `@` and `.` that the email pattern looks at |
| Text.Trim | src/components/course/CourseExplorer.tsx:48 | `trim` is empty exactly for a blank string, and otherwise neither starts nor ends with whitespace |
| Text.TrimIsSlice | src/pages/ManageUsersPage.tsx:310-312 | `trim` drops only whitespace at the two ends: the result is a slice of the input with blank text before and after it |
| Text.TrimStart | src/pages/ManageUsersPage.tsx:310-312 | the result is a suffix, and everything dropped is whitespace |
| Text.TrimEnd | src/pages/ManageUsersPage.tsx:310-312 | the result is a prefix, and everything dropped is whitespace |
| Text.TrimIdempotent | src/pages/ManageUsersPage.tsx:310-312 | trimming twice is trimming once |
| Text.RemoveWhitespace | src/pages/ManageUsersPage.tsx:323 | `replace(/\s+/g, '')` leaves no whitespace, never grows, and is the identity on whitespace-free text |
| Text.RemoveWhitespaceAppend | src/pages/ManageUsersPage.tsx:323 | removing whitespace works piece by piece, so the other characters are kept in order |
| Text.RemoveWhitespaceChar | src/pages/ManageUsersPage.tsx:323 | a whitespace character is dropped, any other kept |
| Text.RemoveWhitespaceIdempotent | src/pages/ManageUsersPage.tsx:318 | removing whitespace twice is removing it once |
| Text.TrimOfCompact | src/pages/ManageUsersPage.tsx:458 | trimming text without whitespace changes nothing |
| Text.KeepDigits | src/pages/ManageUsersPage.tsx:332 | `replace(/\D/g, '')` leaves only digits, never grows, and is the identity on digit strings |
| Text.KeepDigitsAppend | src/pages/ManageUsersPage.tsx:332 | keeping digits works piece by piece, so the digits are kept in order |
| Text.KeepDigitsChar | src/pages/ManageUsersPage.tsx:332 | a digit is kept, any other character dropped |
| Text.IndexOfFrom | src/pages/ManageUsersPage.tsx:569 | the first occurrence at or after the start, or none when there is none |
| Text.IndexOf | src/pages/ManageUsersPage.tsx:569 | found exactly when the text contains the pattern, at its first occurrence |
| Text.ReplaceFirst | src/pages/ManageUsersPage.tsx:569 | a string `replace` changes only the first occurrence: prefix, replacement, the rest untouched; no occurrence leaves the text as it is |
| Text.ReplaceAll | src/pages/ManageUsersPage.tsx:617 | replacing a pattern by itself changes nothing; `ReplaceAllIsJoin` and `ReplaceAllReplacesEveryOccurrence` give its full meaning |
| Text.Split | src/pages/ManageUsersPage.tsx:615-618 | splitting on a pattern yields at least one piece |
| Text.SplitJoin | src/pages/ManageUsersPage.tsx:615-618 | joining the pieces with the pattern gives back the text |
| Text.SplitPiecesAreFree | src/pages/ManageUsersPage.tsx:615-618 | no piece contains the pattern |
| Text.ReplaceAllIsJoin | src/pages/ManageUsersPage.tsx:615-618 | replacing every occurrence is joining the pieces with the replacement |
| Text.ReplaceAllReplacesEveryOccurrence | src/pages/ManageUsersPage.tsx:615-618 | a global replace is the pieces between occurrences joined by the replacement, and none of them contains the pattern |
| Text.JoinHeadPrefix | src/pages/ManageUsersPage.tsx:615-618 | a joined string starts with its first piece |
| Text.JoinConsHead | src/pages/ManageUsersPage.tsx:615-618 | a character in front of the first piece is in front of the joined string |
| Text.JoinEmptyHead | src/pages/ManageUsersPage.tsx:615-618 | an empty first piece contributes only a separator |
| Text.NatToString | src/components/course/TreeItem.tsx:60-64 | a number's decimal text is non-empty digits without a leading zero |
| Text.NatToStringRoundTrip | src/components/course/TreeItem.tsx:60-64 | reading a number's decimal text back gives the number |
| Text.NatToStringInjective | src/components/course/TreeItem.tsx:60-64 | different numbers have different decimal texts |
| Text.IntToString | src/components/course/TreeItem.tsx:60-64 | negative numbers print as `-` followed by their magnitude |
| EngageSession.IndexOfOrder | src/hooks/useEngageSession.ts:162-185 | the first slide whose `slide_order` is the index, or none when no slide has it |
| EngageSession.IndexOfId | src/hooks/useEngageSession.ts:193-221 | the first slide with the id, or none when no slide has it |
| EngageSession.SlideAtOrder | src/hooks/useEngageSession.ts:30 | a slide of the list at that order; none exactly when no slide has it |
| EngageSession.InitialSession | src/hooks/useEngageSession.ts:25-33 | starts connecting, with no error and the initial details; the current slide is the one at the initial index, none when there is none; the slide resolves |
| EngageSession.Merge | src/hooks/useEngageSession.ts:38-40 | `{...prev, ...updates}`: every field given is replaced, every other field and the identity are kept |
| EngageSession.MergeLaws | src/hooks/useEngageSession.ts:38-40 | an empty update changes nothing; a later update that gives every field overrides an earlier one |
| EngageSession.ImplicitStart | src/hooks/useEngageSession.ts:133-136 | only the status can change, and it changes, to `STARTED`, exactly for a `CURRENT_SLIDE` event on an `INIT` session |
| EngageSession.ExplicitStatus | src/hooks/useEngageSession.ts:138-141 | only the status can change; a truthy event status replaces it, a falsy one leaves the details as they were |
| EngageSession.PatchSlide | src/hooks/useEngageSession.ts:193-221 | the slide list keeps its length; only the slide with the event's id is replaced, and an unknown id leaves the list unchanged |
| EngageSession.Reduce | src/hooks/useEngageSession.ts:123-238 | one `session_event_learner` event: identity and connection status are kept; status, index and slide are updated as the event says; slide data wins over the index; an index with no slide clears the slide; an `ERROR` event sets the message or the default |
| EngageSession.ReducePreservesResolution | src/hooks/useEngageSession.ts:162-185 | an event without a slide payload keeps the current slide equal to the slide at the current index |
| EngageSession.FirstSlideStartsSession | src/hooks/useEngageSession.ts:133-136 | a `CURRENT_SLIDE` event on an `INIT` session starts it and shows the slide at that order |
| EngageSession.UnknownIndexClearsSlide | src/hooks/useEngageSession.ts:162-185 | an index no slide has is stored and leaves no current slide |
| EngageSession.SlidePayloadMayBreakResolution | src/hooks/useEngageSession.ts:224-232 | a slide payload becomes the current slide even when it is not at the current index |
| EngageSession.Pow2Monotone | src/hooks/useEngageSession.ts:102 | `2^j <= 2^k` when `j <= k` |
| EngageSession.BackoffDelay | src/hooks/useEngageSession.ts:102 | the reconnect delay never exceeds 30 seconds |
| EngageSession.BackoffDelayBounds | src/hooks/useEngageSession.ts:100-105 | every real retry waits between 2 and 30 seconds |
| EngageSession.BackoffDelayMonotone | src/hooks/useEngageSession.ts:102 | later attempts never wait less |
| EngageSession.BackoffSchedule | src/hooks/useEngageSession.ts:7-8 | the schedule is 2, 4, 8 and 16 seconds, then 30 seconds up to the tenth attempt |
| EngageSession.NewConnection | src/hooks/useEngageSession.ts:25-33 | no stream, no heartbeat, no pending reconnect, attempts within the bound |
| EngageSession.Connect | src/hooks/useEngageSession.ts:61-84 | a missing username or session id gives an error and opens nothing; otherwise the old stream is closed, the heartbeat stopped and a new stream opened in `connecting` |
| EngageSession.Opened | src/hooks/useEngageSession.ts:86-94 | opening resets the attempts, clears the error, marks `connected` and starts the heartbeat |
| EngageSession.Failed | src/hooks/useEngageSession.ts:96-114 | a failure closes the stream; under the limit it counts an attempt, schedules a reconnect after the backoff and says `reconnecting`; at the limit it gives up with an error and stops the heartbeat |
| EngageSession.ReconnectFired | src/hooks/useEngageSession.ts:103-105 | a pending timer fires once and runs the connect step |
| EngageSession.Delivered | src/hooks/useEngageSession.ts:123-148 | an event goes through the reducer; `ENDED` or `CANCELLED` closes the stream and stops the heartbeat |
| EngageSession.Unmounted | src/hooks/useEngageSession.ts:268-279 | unmount closes the stream, stops the heartbeat, resets the attempts and marks `disconnected`; pending timers stay |
| EngageSession.TransitionsKeepAttemptsBounded | src/hooks/useEngageSession.ts:100 | no step takes the attempt counter past ten |
| EngageSession.UnmountIdempotent | src/hooks/useEngageSession.ts:268-279 | a second cleanup changes nothing |
| EngageSession.OneRetry | src/hooks/useEngageSession.ts:96-105 | under the limit a failure schedules exactly one retry; when it fires the hook is connecting again with one more attempt and nothing pending |
| EngageSession.RetriesWhileUnderBound | src/hooks/useEngageSession.ts:96-114 | each failed round under the limit counts one attempt and reconnects |
| EngageSession.FiveFailuresKeepRetrying | src/hooks/useEngageSession.ts:100-105 | after five failures the hook is still connecting, with five attempts counted |
| EngageSession.GivesUpAfterMaxAttempts | src/hooks/useEngageSession.ts:106-112 | the eleventh failure gives up: error status, no pending reconnect added |
| EngageSession.OpenAfterGivingUpResets | src/hooks/useEngageSession.ts:86-94 | a successful open after giving up resets the counter and reconnects |
| EngageSession.EngageConnection.constructor | src/hooks/useEngageSession.ts:25-33 | the hook's refs and state start as `NewConnection` |
| EngageSession.EngageConnection.ConnectSse | src/hooks/useEngageSession.ts:61-84 | the state becomes `Connect` of the old state |
| EngageSession.EngageConnection.OnOpen | src/hooks/useEngageSession.ts:86-94 | the state becomes `Opened` of the old state |
| EngageSession.EngageConnection.OnError | src/hooks/useEngageSession.ts:96-114 | the state becomes `Failed` of the old state |
| EngageSession.EngageConnection.OnSessionEvent | src/hooks/useEngageSession.ts:123-238 | the state becomes `Delivered` of the old state and the event |
| EngageSession.EngageConnection.OnReconnectTimer | src/hooks/useEngageSession.ts:105 | the state becomes `ReconnectFired` of the old state |
| EngageSession.EngageConnection.Unmount | src/hooks/useEngageSession.ts:268-279 | the state becomes `Unmounted` of the old state |
| EngageSession.ReconnectingMessage | src/hooks/useEngageSession.ts:104 | the reconnecting status message names the attempt number and the maximum number of attempts |
| SessionHeader.IndicatorFor | src/components/SessionHeader.tsx:11-19 | live icon exactly when connected, spinner exactly when connecting, lost icon for every other status |
| SessionHeader.StatusLabel | src/components/SessionHeader.tsx:33 | the label is `Connected` or `Connecting` exactly for those statuses, `Disconnected` otherwise |
| SessionHeader.HeaderTitle | src/components/SessionHeader.tsx:26 | the slides title when there is a non-empty one, the fallback otherwise; never empty |
| SessionHeader.RenderHeader | src/components/SessionHeader.tsx:11-40 | title, indicator, label, invite code and username come from the session |
| SessionHeader.IndicatorMatchesLabel | src/components/SessionHeader.tsx:11-33 | the icon and the label always agree |
| SlideRenderer.AttemptsAllowed | src/components/SlideRenderer.tsx:58 | `student_attempts \|\| 1`: never zero; the attempts when set and non-zero, one otherwise |
| SlideRenderer.RenderSlide | src/components/SlideRenderer.tsx:21-94 | no session data means data unavailable; an Excalidraw slide is drawn, a question slide with a question is a quiz, one without is a missing-question message, any other source is unsupported |
| SlideRenderer.QuizShownIff | src/components/SlideRenderer.tsx:42-61 | a quiz is shown exactly for a question slide that carries a question in a loaded session, with at least one attempt |
| SessionController.ContentFor | src/components/SessionController.tsx:37-59 | `INIT` gives the waiting room, `STARTED`/`PAUSED` the slide or its loader, `ENDED`/`CANCELLED` the end screen, anything else the unknown-state message |
| SessionController.SelectScreen | src/components/SessionController.tsx:16-70 | initializing, then the error screen for an error status with a message, then loading without data, then the live screen with a reconnect banner |
| SessionController.SlideShownIff | src/components/SessionController.tsx:37-59 | a slide is shown exactly when the session is running, loaded, without error screen and has a current slide |
| SessionController.ConnectedNeverShowsError | src/components/SessionController.tsx:20-30 | a connected session shows no error screen, before or after any event |
| SessionController.UnknownStateMessage | src/components/SessionController.tsx:53-56 | an unrecognised status is shown inside the text `The session is in an unrecognized state: …` |
| Seqs.RemoveAll | src/components/QuizInteraction.tsx:48-57 | `filter(id => id !== optionId)` keeps exactly the other elements, never grows, and leaves a list without the element as it is |
| Seqs.RemoveAllAppend | src/components/course/DetailView.tsx:428-440 | filtering distributes over concatenation |
| Seqs.RemoveAllKeepsDistinct | src/components/QuizInteraction.tsx:48-57 | filtering keeps a selection duplicate-free |
| Seqs.AppendThenRemove | src/components/QuizInteraction.tsx:48-57 | appending an absent element and filtering it out gives back the list |
| QuizInteraction.Toggle | src/components/QuizInteraction.tsx:48-57 | a selected option is removed, an unselected one appended |
| QuizInteraction.SelectOption | src/components/QuizInteraction.tsx:48-57 | single choice selects exactly that option; multiple choice flips its membership |
| QuizInteraction.SelectKeepsDistinct | src/components/QuizInteraction.tsx:48-57 | no choice ever duplicates an option |
| QuizInteraction.ToggleTwiceRestores | src/components/QuizInteraction.tsx:48-57 | toggling twice restores the selection, exactly when it was absent |
| QuizInteraction.FailureText | src/components/QuizInteraction.tsx:93-94 | the failure's message, or the default when it has none; never empty |
| QuizInteraction.QuizState.constructor | src/components/QuizInteraction.tsx:33-36 | nothing selected, no attempt used, not submitting, no error |
| QuizInteraction.QuizState.QuestionChanged | src/components/QuizInteraction.tsx:41-46 | a new question clears the selection, the count and the error; the same question keeps them |
| QuizInteraction.QuizState.OptionChange | src/components/QuizInteraction.tsx:48-57 | with attempts left the selection follows `SelectOption`; without, nothing changes |
| QuizInteraction.QuizState.BeginSubmit | src/components/QuizInteraction.tsx:59-78 | an empty selection, then a spent budget, is an error and sends nothing; otherwise the error clears and the payload is sent |
| QuizInteraction.QuizState.FinishSubmit | src/components/QuizInteraction.tsx:80-100 | success spends one attempt, failure none and shows its message; the budget is never overspent |
| QuizInteraction.IsMultipleChoice | src/components/QuizInteraction.tsx:38 | a question allows several answers exactly when its type, upper-cased, is `MCQM` |
| QuizInteraction.QuizState.CanAttempt | src/components/QuizInteraction.tsx:39 | another attempt is allowed while fewer answers were submitted than the attempts allowed |
| JoinSessionForm.LengthIssues | src/components/JoinSessionForm.tsx:13-16 | no message exactly when the length is within the bounds, at most one otherwise |
| JoinSessionForm.SchemaIssues | src/components/JoinSessionForm.tsx:13-16 | valid exactly when the invite code has 4–10 and the username 2–30 characters; a short or long code reports its message first |
| JoinSessionForm.UppercasingKeepsValidity | src/components/JoinSessionForm.tsx:38-45 | upper-casing the code keeps its validity, and doing it twice is doing it once |
| JoinSessionForm.JoinFormState.constructor | src/components/JoinSessionForm.tsx:28-35 | a non-empty initial error is shown; the invite code starts as given or empty |
| JoinSessionForm.JoinFormState.EditInviteCode | src/components/JoinSessionForm.tsx:68 | the typed code is stored upper-cased |
| JoinSessionForm.JoinFormState.EditUsername | src/components/JoinSessionForm.tsx:32-35 | the typed username is stored as it is |
| JoinSessionForm.JoinFormState.BeginSubmit | src/components/JoinSessionForm.tsx:38-42 | an invalid form reports its messages and joins nothing; a valid one clears the error and joins with the upper-cased code |
| JoinSessionForm.JoinFormState.FinishSubmit | src/components/JoinSessionForm.tsx:42-45 | a failure shows its message or the default, never an empty one |
| UserValidation.MatchesEmailPattern | src/pages/ManageUsersPage.tsx:307 | `/^[^\s@]+@[^\s@]+\.[^\s@]+$/`: one `@` after a non-empty local part, a `.` after it with characters on both sides, no whitespace and no other `@` |
| UserValidation.NormalizeEmail | src/pages/ManageUsersPage.tsx:312-319 | the stored email has no whitespace, and is empty exactly when the input was blank |
| UserValidation.RemoveWhitespaceKeepsNonBlank | src/pages/ManageUsersPage.tsx:318 | removing whitespace empties exactly the blank strings |
| UserValidation.RemoveWhitespaceKeepsLowerCase | src/pages/ManageUsersPage.tsx:318 | removing whitespace keeps lower-case text lower-case |
| UserValidation.NormalizeEmailIdempotent | src/pages/ManageUsersPage.tsx:467 | normalising a stored email again changes nothing |
| UserValidation.KeepDigitsIgnoresWhitespace | src/pages/ManageUsersPage.tsx:323-332 | stripping whitespace before non-digits does not change the digits kept |
| UserValidation.FormatCsvNumber | src/pages/ManageUsersPage.tsx:321-356 | the formatted number holds only digits |
| UserValidation.WithCountryCode | src/pages/ManageUsersPage.tsx:334-356 | the country-code step keeps a digit string a digit string |
| UserValidation.WithCountryCodeCases | src/pages/ManageUsersPage.tsx:334-356 | after a `+`, `440` is shortened to `44` and other digits kept; without one, a leading `0` becomes `44`, other digits get `91`; no digits give empty |
| UserValidation.CsvDigitsAreFieldDigits | src/pages/ManageUsersPage.tsx:323-332 | the digits the rewriting starts from are the digits of the whole field |
| UserValidation.FormatCsvNumberCases | src/pages/ManageUsersPage.tsx:321-356 | the whole rewriting case by case, in terms of the field's digits and a leading `+` |
| UserValidation.ReimportWithPlus | src/pages/ManageUsersPage.tsx:326-342 | a stored number written with `+` imports back unchanged |
| UserValidation.BareDigitsGetCountryCode | src/pages/ManageUsersPage.tsx:343-356 | bare digits get the UK code for a leading zero and the Indian code otherwise |
| UserValidation.RowMessage | src/pages/ManageUsersPage.tsx:361 | every row message starts with the row's spreadsheet number |
| UserValidation.CheckRow | src/pages/ManageUsersPage.tsx:309-393 | the outcome of one CSV row; when it is accepted is stated by `CheckRowAccepts`, and which messages a rejected row gets, in which order, by `CheckRowReports`, `CheckRowMessagesFromFailures` and `CheckRowMessageOrder` |
| UserValidation.CheckRowAccepts | src/pages/ManageUsersPage.tsx:309-393 | a row is imported exactly when it has a name and a number, an allowed email and a 10–15 digit formatted number; the user gets the id, the trimmed name, the formatted number and the normalised email |
| UserValidation.CheckRowReports | src/pages/ManageUsersPage.tsx:358-382 | a rejected row has at least one message, each starting with the row's number; a missing name, a missing number and a bad email each report their message; a bad number alone reports only its message |
| UserValidation.RowErrorsFromFailures | src/pages/ManageUsersPage.tsx:358-370 | each message pushed by the name, number and email checks belongs to a check that failed |
| UserValidation.CheckRowMessagesFromFailures | src/pages/ManageUsersPage.tsx:358-382 | every message of a rejected row is the message of a check that failed: a missing name, a missing number, a disallowed email, or (only once those three pass) a formatted number that is not 10–15 digits |
| UserValidation.CheckRowMessageOrder | src/pages/ManageUsersPage.tsx:358-375 | the presence and email failures are reported once each, in the order name, number, email, and no number-format message joins them |
| UserValidation.Outcomes | src/pages/ManageUsersPage.tsx:309 | one outcome per row, checked with its own index |
| UserValidation.EveryRowCountedOnce | src/pages/ManageUsersPage.tsx:303-393 | imported plus invalid equals the number of rows |
| UserValidation.ImportedAreAccepted | src/pages/ManageUsersPage.tsx:386-392 | the new users are exactly the accepted rows' users |
| UserValidation.OutcomesStep | src/pages/ManageUsersPage.tsx:309-393 | one more row adds its user, or its messages and one invalid count |
| UserValidation.ProcessRows | src/pages/ManageUsersPage.tsx:303-393 | the loop's users, messages and counts are those of the rows' outcomes, and the counts add up to the rows |
| UserValidation.ImportCsv | src/pages/ManageUsersPage.tsx:294-399 | parse errors stop the import and are listed; otherwise the accepted users are put in front of the existing ones |
| UserValidation.ValidateUserForm | src/pages/ManageUsersPage.tsx:453-478 | accepted exactly when the name is not blank, the number has 10–15 digits and the email is allowed; each failure gives its message in order |
| UserValidation.FormFieldsWellFormed | src/pages/ManageUsersPage.tsx:474-479 | a user built from an accepted form is well formed |
| UserValidation.CsvUserWellFormed | src/pages/ManageUsersPage.tsx:386-392 | an imported user is well formed |
| UserValidation.StoredNumberIsFormNumber | src/pages/ManageUsersPage.tsx:495-503 | a stored 10–15 digit number comes back unchanged from the form's trimming and whitespace removal |
| UserValidation.StoredEmailPasses | src/pages/ManageUsersPage.tsx:504-508 | a well-formed user's email normalises to itself, is allowed, and is saved back as it is |
| UserValidation.WellFormedUserPassesForm | src/pages/ManageUsersPage.tsx:488-508 | a well-formed user's own fields pass the edit form unchanged |
| UserValidation.CsvUserPassesForm | src/pages/ManageUsersPage.tsx:488-508 | every imported user can be opened in the edit form and saved unchanged |
| UserValidation.IsValidNumber | src/pages/ManageUsersPage.tsx:380 | a stored number is 10 to 15 characters, all of them decimal digits (`/^\d{10,15}$/`) |
| UserValidation.EmailAllowed | src/pages/ManageUsersPage.tsx:368 | an email passes when it is empty or matches the email pattern |
| UserValidation.MissingField | src/pages/ManageUsersPage.tsx:360-366 | a field is missing when the cell is absent or holds only whitespace |
| UserList.Ids | src/pages/ManageUsersPage.tsx:253-259 | the users' ids, in order |
| UserList.SaveNewUser | src/pages/ManageUsersPage.tsx:453-486 | an accepted form puts the new user in front and clears the error; a rejected one keeps the list and shows its message |
| UserList.ReplaceById | src/pages/ManageUsersPage.tsx:511-517 | the users with the id get the new fields, every other user is untouched |
| UserList.SaveEditedUser | src/pages/ManageUsersPage.tsx:488-521 | nothing being edited changes nothing; a rejected form shows its message; an accepted one replaces the user's fields |
| UserList.EditKeepsIds | src/pages/ManageUsersPage.tsx:511-517 | editing keeps every id and their order, and keeps them distinct |
| UserList.RemoveId | src/pages/ManageUsersPage.tsx:444 | deleting never makes the list longer |
| UserList.RemoveIdKeeps | src/pages/ManageUsersPage.tsx:444 | deleting keeps exactly the users with another id, and a list without the id is kept as it is |
| UserList.RemoveIdDistributes | src/pages/ManageUsersPage.tsx:444 | deleting distributes over concatenation |
| UserList.DeleteUser | src/pages/ManageUsersPage.tsx:442-451 | the user leaves both the list and the selection |
| UserList.ClearAll | src/pages/ManageUsersPage.tsx:585-590 | the list and the selection are empty |
| UserList.SelectAll | src/pages/ManageUsersPage.tsx:253-259 | checked selects every listed id, unchecked none |
| UserList.SelectUser | src/pages/ManageUsersPage.tsx:261-269 | checked adds the id, unchecked removes it |
| UserList.SelectThenUnselect | src/pages/ManageUsersPage.tsx:261-269 | selecting and unselecting an unselected user restores the state |
| UserList.DistinctIdsCount | src/pages/ManageUsersPage.tsx:271-273 | distinct ids count as many as the users |
| UserList.RepeatedIdCount | src/pages/ManageUsersPage.tsx:271-273 | a repeated id makes the id set smaller than the list |
| UserList.IdSetBound | src/pages/ManageUsersPage.tsx:271-273 | there are never more ids than users |
| UserList.SelectAllShowsAllSelected | src/pages/ManageUsersPage.tsx:253-273 | after select-all the all-selected box is checked exactly when the list is non-empty and its ids distinct |
| UserList.SubsetOfSameSize | src/pages/ManageUsersPage.tsx:271-273 | a subset as large as its superset is the superset |
| UserList.SelectionIndicators | src/pages/ManageUsersPage.tsx:271-273 | all-selected means every id is selected; some-selected means a proper non-empty subset |
| UserList.OperationsKeepConsistent | src/pages/ManageUsersPage.tsx:253-590 | delete, clear, select-all and selecting a listed user keep every user well formed and the selection within the list |
| UserList.SaveNewKeepsConsistent | src/pages/ManageUsersPage.tsx:453-486 | saving the add dialog, valid or not, keeps every user well formed and the selection within the list |
| UserList.ReplaceByIdKeepsWellFormed | src/pages/ManageUsersPage.tsx:511-517 | replacing a user's fields with well-formed ones keeps every user well formed |
| UserList.ReplaceByIdKeepsIdSet | src/pages/ManageUsersPage.tsx:511-517 | replacing a user's fields keeps the set of ids |
| UserList.ReplaceByIdKeepsConsistent | src/pages/ManageUsersPage.tsx:511-517 | replacing a user's fields with well-formed ones keeps every user well formed and every selected id listed |
| UserList.SaveEditedKeepsConsistent | src/pages/ManageUsersPage.tsx:488-521 | saving the edit dialog, valid or not, keeps the list consistent |
| UserList.ImportKeepsConsistent | src/pages/ManageUsersPage.tsx:397-399 | prepending the imported users keeps every user well formed and the selection within the list |
| UserList.IsUserSelected | src/pages/ManageUsersPage.tsx:271 | a user is selected when their id is in the selection |
| UserList.AreAllUsersSelected | src/pages/ManageUsersPage.tsx:272 | all are selected when the list is non-empty and the selection is as large as the list |
| UserList.IsSomeUserSelected | src/pages/ManageUsersPage.tsx:273 | the selection is partial when it is non-empty and smaller than the list |
| EmailComposer.MessageFor | src/pages/ManageUsersPage.tsx:569 | a template without `{name}` is sent as it is; otherwise the first `{name}` becomes the user's name |
| EmailComposer.OnlyFirstSlotFilled | src/pages/ManageUsersPage.tsx:569 | a second `{name}` slot stays in the message |
| EmailComposer.Token | src/pages/ManageUsersPage.tsx:616 | a key's placeholder is the key between `{{` and `}}` |
| EmailComposer.FindUser | src/pages/ManageUsersPage.tsx:602 | the first user with the id, or none when no user has it |
| EmailComposer.FirstRecipientWithEmail | src/pages/ManageUsersPage.tsx:601 | a recipient with a user that has an email, or none when no recipient has one |
| EmailComposer.FirstRecipientIsFirst | src/pages/ManageUsersPage.tsx:601 | the recipient found is the first such: no recipient before it has a user with an email |
| EmailComposer.SampleUser | src/pages/ManageUsersPage.tsx:601-602 | the sample exists exactly when a recipient has an email, and is then the first user listed with that recipient's id |
| EmailComposer.SamplePlaceholders | src/pages/ManageUsersPage.tsx:604-613 | eight placeholders, none with an empty token or an empty value |
| EmailComposer.SamplePlaceholderEntries | src/pages/ManageUsersPage.tsx:604-616 | the eight placeholders in the page's order, each token the key in double braces and each value the sample's or custom field's value, or its bracketed default when that is empty |
| EmailComposer.ApplyPlaceholders | src/pages/ManageUsersPage.tsx:615-618 | the placeholders replaced one after another; `FillPlaceholders`, `BodyWithoutPlaceholdersUnchanged` and `OnePlaceholderEverywhere` state what that yields |
| EmailComposer.FillPlaceholders | src/pages/ManageUsersPage.tsx:615-618 | the loop's result is every placeholder replaced in turn |
| EmailComposer.ReplaceAllAbsent | src/pages/ManageUsersPage.tsx:617 | replacing a placeholder the body does not contain changes nothing |
| EmailComposer.BodyWithoutPlaceholdersUnchanged | src/pages/ManageUsersPage.tsx:615-618 | a body without placeholders is previewed as written |
| EmailComposer.OnePlaceholderEverywhere | src/pages/ManageUsersPage.tsx:617 | every occurrence of a placeholder is filled, and none is left |
| EmailComposer.Classify | src/pages/ManageUsersPage.tsx:620-623 | a full document has `<html>` and `<body>` tags in HTML; a snippet is HTML without them; anything else is plain text |
| EmailComposer.IsLikelyHtml | src/pages/ManageUsersPage.tsx:621 | a body looks like HTML when, once trimmed, it starts with `<` and it contains `</` somewhere |
| EmailComposer.OpensTagAt | src/pages/ManageUsersPage.tsx:623 | at a position, `<` is followed by the tag name in any letter case, then a character that is not a word character (or the end), with a `>` somewhere after |
| EmailComposer.OpensTag | src/pages/ManageUsersPage.tsx:623 | the tag is opened at some position of the body, as the case-insensitive `<name\b[^>]*>` test finds it |
| EmailComposer.IsFullHtmlDocument | src/pages/ManageUsersPage.tsx:623 | a full document looks like HTML and opens both an `html` and a `body` tag |
| EmailComposer.NewlinesToBreaks | src/pages/ManageUsersPage.tsx:632 | every line feed of plain text becomes `<br />`, all of them and not only the first |
| EmailComposer.Wrap | src/pages/ManageUsersPage.tsx:629 | the template's first body slot is replaced by the content, the text around it kept; a template without the slot is unchanged |
| EmailComposer.PreviewHtml | src/pages/ManageUsersPage.tsx:592-635 | a blank body previews the empty message; otherwise the filled body is used as it is, wrapped, or converted to line breaks and wrapped |
| EmailComposer.ApiBody | src/pages/ManageUsersPage.tsx:686-698 | the sent body: a full document as it is, a snippet wrapped, plain text converted and wrapped |
| EmailComposer.ApiBodyKeepsHtml | src/pages/ManageUsersPage.tsx:686-698 | an HTML body reaches the API intact |
| EmailComposer.InsertPlaceholder | src/pages/ManageUsersPage.tsx:238-251 | the selection is replaced by the placeholder, and the cursor lands right after it |
| EmailComposer.InsertAtCursorIsUndone | src/pages/ManageUsersPage.tsx:238-251 | inserting at a cursor and cutting the placeholder out restores the text |
| CourseExplorer.SumBounds | src/components/course/CourseExplorer.tsx:95-97 | every term is at most the sum, and the sum is zero exactly when every term is |
| CourseExplorer.SumStep | src/components/course/CourseExplorer.tsx:33-41 | one more element adds its term to the running total |
| CourseExplorer.FilterMap | src/components/course/CourseExplorer.tsx:52-85 | `map(...).filter(Boolean)` keeps exactly the kept results |
| CourseExplorer.FilterMapEmbeds | src/components/course/CourseExplorer.tsx:52-85 | the kept results are pruned copies of the input, in order |
| CourseExplorer.EmbedsLength | src/components/course/CourseExplorer.tsx:52-85 | an embedded list is never longer |
| CourseExplorer.EmbedsSum | src/components/course/CourseExplorer.tsx:52-85 | an embedded list never sums to more |
| CourseExplorer.EmbedsReflexive | src/components/course/CourseExplorer.tsx:48 | a list embeds in itself |
| CourseExplorer.FilterSlides | src/components/course/CourseExplorer.tsx:55-58 | exactly the slides whose name or type contains the term |
| CourseExplorer.PruneChapter | src/components/course/CourseExplorer.tsx:54-67 | a chapter survives exactly when its name matches or a slide does, with its matching slides |
| CourseExplorer.PruneModule | src/components/course/CourseExplorer.tsx:53-76 | a module survives exactly when its name matches or a chapter survives, with its surviving chapters |
| CourseExplorer.PruneSubject | src/components/course/CourseExplorer.tsx:52-85 | a subject survives exactly when its name matches or a module survives, with its surviving modules |
| CourseExplorer.FilteredData | src/components/course/CourseExplorer.tsx:47-86 | a blank search shows everything; otherwise exactly the surviving subjects, matched against the lower-cased term |
| CourseExplorer.PrunedModuleMatches | src/components/course/CourseExplorer.tsx:53-76 | everything left in a surviving module matches or leads to a match |
| CourseExplorer.PrunedSubjectMatches | src/components/course/CourseExplorer.tsx:52-85 | everything left in a surviving subject matches or leads to a match |
| CourseExplorer.EverySurvivingSlideMatches | src/components/course/CourseExplorer.tsx:55-58 | every slide shown by a search matches the term |
| CourseExplorer.PruneChapterIsPruning | src/components/course/CourseExplorer.tsx:64 | a surviving chapter keeps its id and name and a subsequence of its slides |
| CourseExplorer.PruneModuleIsPruning | src/components/course/CourseExplorer.tsx:73 | a surviving module keeps its id and name and pruned copies of its chapters |
| CourseExplorer.PruneSubjectIsPruning | src/components/course/CourseExplorer.tsx:82 | a surviving subject keeps its id and name and pruned copies of its modules |
| CourseExplorer.SubjectsPruneThemselves | src/components/course/CourseExplorer.tsx:48 | the unfiltered tree is a pruning of itself |
| CourseExplorer.FilteredIsSubtree | src/components/course/CourseExplorer.tsx:47-86 | the search result is always a pruned subtree of the course, in order |
| CourseExplorer.SlideCount | src/components/course/CourseExplorer.tsx:95-97 | zero exactly when every chapter is empty, and at least every chapter's slides |
| CourseExplorer.CourseStats | src/components/course/CourseExplorer.tsx:28-44 | the three loops count every slide, module and chapter of the course |
| CourseExplorer.FilteringNeverAddsItems | src/components/course/CourseExplorer.tsx:47-86 | a search never shows more slides, chapters or modules than the course has |
| TreeItem.InitiallyOpen | src/components/course/TreeItem.tsx:32 | rows of level 0 and 1 start open, deeper rows closed |
| TreeItem.EffectiveOpen | src/components/course/TreeItem.tsx:35 | a given `forceExpanded` wins, the local state is used otherwise |
| TreeItem.AfterToggle | src/components/course/TreeItem.tsx:37-42 | a click flips a folder and leaves any other row |
| TreeItem.AfterKey | src/components/course/TreeItem.tsx:97-108 | a key changes the state exactly when ArrowRight opens a closed folder or ArrowLeft closes an open one |
| TreeItem.NonFolderNeverChanges | src/components/course/TreeItem.tsx:37-108 | no series of clicks and keys opens or closes a row that is not a folder |
| TreeItem.ArrowKeys | src/components/course/TreeItem.tsx:101-107 | ArrowRight always leaves a folder open, ArrowLeft closed, and each undoes the other |
| TreeItem.ToggleTwice | src/components/course/TreeItem.tsx:37-42 | two clicks restore the state |
| TreeItem.TreeItemState.constructor | src/components/course/TreeItem.tsx:32 | the local state starts as `InitiallyOpen` of the level |
| TreeItem.TreeItemState.ActualIsOpen | src/components/course/TreeItem.tsx:35 | a given `forceExpanded` is shown; without it the local state is shown |
| TreeItem.TreeItemState.HandleToggle | src/components/course/TreeItem.tsx:37-42 | the state becomes `AfterToggle` of the old one |
| TreeItem.TreeItemState.KeyDown | src/components/course/TreeItem.tsx:97-108 | Enter and Space select; the state becomes `AfterKey` of the old one |
| TreeItem.IndentPx | src/components/course/TreeItem.tsx:48-54 | the row's level reads back from its indent in steps of 20 pixels, and no row of level 0 or deeper is indented less than 16 pixels |
| TreeItem.BadgeText | src/components/course/TreeItem.tsx:56-67 | badge text exists exactly for a slide, or for a module or chapter with a non-zero count; a slide shows its type upper-cased |
| TreeItem.ModuleBadgeReadsBack | src/components/course/TreeItem.tsx:60-62 | a module's badge reads back as its completed and total counts around `/` |
| TreeItem.ChapterBadgeReadsBack | src/components/course/TreeItem.tsx:63-65 | a chapter's badge reads back as its slide count followed by ` slides` |
| TreeItem.ChildrenVisible | src/components/course/TreeItem.tsx:143 | children show only for a folder with children, never when forced closed, always when forced open, and without forcing exactly when the folder is open |
| TreeItem.KeySelects | src/components/course/TreeItem.tsx:98 | the Enter key and the space key select the row; no other key does |
| DetailView.PrevPage | src/components/course/DetailView.tsx:231 | one page back, never before the first page |
| DetailView.NextPage | src/components/course/DetailView.tsx:237 | one page on, never past the last page |
| DetailView.ZoomOut | src/components/course/DetailView.tsx:243 | 25 points less, or 50 when that would go under 50 |
| DetailView.ZoomIn | src/components/course/DetailView.tsx:247 | 25 points more, or 200 when that would go over 200 |
| DetailView.ControlsStayInRange | src/components/course/DetailView.tsx:227-250 | from a valid page and zoom, any series of button presses stays valid |
| DetailView.CheckboxSelection | src/components/course/DetailView.tsx:428-440 | checking appends the index, unchecking removes every copy |
| DetailView.CheckThenUncheck | src/components/course/DetailView.tsx:428-440 | checking and unchecking an unchecked option restores the selection |
| DetailView.SetAnswer | src/components/course/DetailView.tsx:410-413 | the question gets the answer, every other answer is kept |
| DetailView.RenderSlideContent | src/components/course/DetailView.tsx:502-533 | video and YouTube slides play, PDFs, documents and assessments get their viewers, every other type is a coming-soon placeholder |
| DetailView.PlaceholderTypes | src/components/course/DetailView.tsx:502-533 | the placeholder is shown exactly for the types without a viewer |
| DetailView.RenderPane | src/components/course/DetailView.tsx:535-596 | nothing selected shows the empty pane; a slide shows its viewer; a subject, module or chapter shows a summary with its name and its number of modules, chapters or slides |
| DetailView.DetailViewState.constructor | src/components/course/DetailView.tsx:122-137 | student mode, not editing, page 1 at 100%, no answers, not submitted |
| DetailView.DetailViewState.SetViewMode | src/components/course/DetailView.tsx:122 | only the mode changes |
| DetailView.DetailViewState.PressControl | src/components/course/DetailView.tsx:227-250 | page and zoom follow the control and stay in range; nothing else changes |
| DetailView.DetailViewState.AnswerQuestion | src/components/course/DetailView.tsx:410-413 | the radio or text answer is stored for the question; nothing else changes |
| DetailView.DetailViewState.CheckOption | src/components/course/DetailView.tsx:428-440 | the question's selection becomes the checkbox update of the current one |
| DetailView.DetailViewState.SetSubmitted | src/components/course/DetailView.tsx:466 | only the submitted flag changes |
| DetailView.DetailViewState.HandleEdit | src/components/course/DetailView.tsx:139-145 | editing starts, with the slide's name when a slide is selected |
| DetailView.DetailViewState.StopEditing | src/components/course/DetailView.tsx:147-151 | editing stops, and the content is kept |

## Left out

- The network is not modelled. The `EventSource` stream (section 9.2 of the HTML Living Standard), the heartbeat `POST`, the answer submission, the join call and `mockSendMessageAPI` are not run. Their outcomes are parameters of the handlers that await them.
- Timers are not modelled as time. `setTimeout` reconnects are a list of pending callbacks fired by `OnReconnectTimer`, and the heartbeat interval is a flag.
- React rendering, effects and stale closures are not modelled. Each handler sees the current state. The connect effect's re-run on a `session_status` change (`src/hooks/useEngageSession.ts:260`) is not modelled.
- The in-place mutation of `added_slides` in the reducer (`src/hooks/useEngageSession.ts:193-221`) is not modelled. The model builds a new list, so aliasing with the previous state is not captured.
- CSV parsing (Papaparse) is a parameter: `ImportCsv` receives the parsed rows and parse errors. Zod and react-hook-form are modelled only through the rules they enforce.
- Ids from `uuidv4` and `Date.now()` are parameters. Their uniqueness is not modelled, so the consistency lemmas do not claim distinct ids.
- Floating-point progress is not modelled: `getCompletedSlides` (`src/components/course/CourseExplorer.tsx:99-102`), `getProgressPercentage` (`src/components/course/TreeItem.tsx:76-81`) and `Math.random` in the message mock. `TreeItem.BadgeText` takes the completed count as a parameter.
- Strings are ASCII. `toLowerCase`, `toUpperCase`, `trim` and `\s` cover ASCII only, and Unicode case mapping and whitespace are not modelled.
- Replacement strings are literal. JavaScript's `$&`, `$1` and similar patterns in a replacement value are not interpreted.
- Toasts and console logging are not modelled. Of `processSendMessageQueue`, the queue's loop, its delays and its per-message progress statuses are not modelled; the `{name}` fill it applies to each message is `EmailComposer.MessageFor`.
- Excalidraw drawing, the video play and mute toggles, the open-ended textarea's display and purely presentational components (`LoadingSpinner`, `WaitingScreen`, `SessionEndedScreen`, `ThreeColumnLayout`) are not modelled.
- QuizInteraction.QuizState.BeginSubmit: requires that no submission is in flight, because the submit button is disabled while one is (`src/components/QuizInteraction.tsx:164`).
- DetailView.DetailViewState.AnswerQuestion: takes only radio and text answers. Checkbox answers go through `CheckOption`, and a checkbox update over an answer of another kind starts from an empty selection.
- SlideRenderer.QuizShownIff: states the attempts bound only for a non-negative `student_attempts`. A negative value from the server is passed through unchanged.
