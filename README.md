# Nexus view-state models

A Dafny model of the four pieces of the Nexus front end that keep state of
their own and update it step by step:

- the **document chamber** (`DocumentChamber`): an ordered list of uploaded
  documents (id, name, optional MIME type, status `Draft | In Review | Signed`,
  upload time, optional signature), the pending uploads, the signing dialog,
  the delete confirmation, the preview selection and the derived
  "visible" list, which is filtered by status, filtered by a case-insensitive
  name search and sorted newest first;
- the **meeting calendar** (`MeetingCalendar`): a list of availability slots
  (`available | requested | confirmed`) and an add/edit dialog. A date-range
  selection opens the dialog with a placeholder slot whose id is empty, so
  the save that follows takes the edit branch and adds nothing;
- the **one-time-password form** (`OtpForm`): six slots, each empty or one
  digit, a focus index, and a submit that hands the code to the parent only
  when all six digits are present;
- the **password strength meter** (`PasswordStrength`): a 0..4 score
  counting four criteria, and the label, colour and bar width it selects.

Each component's React state becomes the fields of a class, and each
`useState` setter becomes an assignment to a field in one of its methods.
The values that those methods compute are pure functions, and the lemmas
state properties of those functions. Three small helper modules give the
JavaScript built-ins the components use: `Wrappers` (optional values),
`JsString` (`toLowerCase`, `trim`, `includes`, `endsWith`, UTF-16 `length`)
and `JsArray` (`filter`, `find`).

Inputs that the components take from the browser become parameters:

- generated ids and upload times (`Date.now`, `Math.random`, `new Date()`);
- the answer to `confirm(...)`;
- whether the signature pad is empty, and its `toDataURL()` image;
- picked or dropped files, reduced to their name and MIME type.

Dates are integer timestamps.

## Model

| member | source | states |
|---|---|---|
| `DocumentChamber.VisibleDocs` | src/components/documentchamber/documentchamber.tsx:71-81 | a document is visible exactly when it is in the list, has the filtered status (unless "All") and, when the trimmed search is non-empty, its lowercased name contains the lowercased untrimmed search; the result is a permutation of the filtered list, sorted newest first |
| `DocumentChamber.SortNewestFirst` | src/components/documentchamber/documentchamber.tsx:78-80 | the sort returns a permutation of its input, ordered by non-increasing upload time |
| `DocumentChamber.SortStable` | src/components/documentchamber/documentchamber.tsx:78-80 | the sort is stable: documents with equal upload times keep their relative order |
| `DocumentChamber.BlankSearchIgnored` | src/components/documentchamber/documentchamber.tsx:74-77 | a whitespace-only search shows exactly what the empty search shows |
| `DocumentChamber.SearchIsNotTrimmed` | src/components/documentchamber/documentchamber.tsx:74-77 | the search is matched untrimmed: "ab" finds a document named "ab", " ab" does not |
| `JsString.TrimEmptyIffBlank` | src/components/documentchamber/documentchamber.tsx:74 | `search.trim()` is empty exactly when every character is one `trim` removes |
| `DocumentChamber.NewDrafts` | src/components/documentchamber/documentchamber.tsx:99-106 | one record per pending file, in order: given id and time, the file's name, MIME type absent when the file's type is empty, status Draft, no signature |
| `DocumentChamber.UploadCounts` | src/components/documentchamber/documentchamber.tsx:97-109 | an upload raises the Draft count by the number of files and leaves the In Review and Signed counts unchanged |
| `DocumentChamber.SetStatus` | src/components/documentchamber/documentchamber.tsx:111-115 | length and order kept; documents with the id take the new status; every other field and every other document unchanged |
| `DocumentChamber.SetStatusAbsent` | src/components/documentchamber/documentchamber.tsx:111-115 | changing the status of an id no document has changes nothing |
| `DocumentChamber.SetStatusTwice` | src/components/documentchamber/documentchamber.tsx:111-115 | of two status changes to one id the later wins, and a repeated change is idempotent |
| `DocumentChamber.AttachSignature` | src/components/documentchamber/documentchamber.tsx:135-139 | documents with the id get the signature and status Signed; their other fields and all other documents unchanged |
| `DocumentChamber.SigningNeverUnsigns` | src/components/documentchamber/documentchamber.tsx:135-139 | signing never lowers the number of Signed documents |
| `DocumentChamber.RemoveDocument` | src/components/documentchamber/documentchamber.tsx:146 | a document stays exactly when its id differs; the length drops by the number of documents with the id |
| `DocumentChamber.RemoveDocumentAppend` | src/components/documentchamber/documentchamber.tsx:146 | removal distributes over concatenation, so the remaining documents keep their order |
| `DocumentChamber.StatusCount` | src/components/documentchamber/documentchamber.tsx:177-183 | the count of documents with a status is at most the total, and zero exactly when no document has that status |
| `DocumentChamber.StatusCountsSum` | src/components/documentchamber/documentchamber.tsx:171-184 | the Draft, In Review and Signed counts add up to the total |
| `DocumentChamber.IsPdf` | src/components/documentchamber/documentchamber.tsx:151-152 | a document previews as a PDF exactly when its MIME type contains "pdf" or its name ends in ".pdf" in any ASCII case; a missing (null) document never does |
| `DocumentChamber.LowerEndsWithPdf` | src/components/documentchamber/documentchamber.tsx:152 | lowercasing the name and testing for ".pdf" accepts exactly the names whose last four characters are '.', 'p' or 'P', 'd' or 'D', 'f' or 'F' |
| `DocumentChamber.UpperCaseExtension` | src/components/documentchamber/documentchamber.tsx:151-152 | the extension test ignores case: a name ending ".PDF" is a PDF |
| `DocumentChamber.WordDocumentIsNotPdf` | src/components/documentchamber/documentchamber.tsx:151-152 | a document "report.docx" of type "application/msword" is not shown as a PDF |
| `DocumentChamber.IsPdfIgnoresStatus` | src/components/documentchamber/documentchamber.tsx:151-152 | the PDF decision depends only on name and MIME type, not on status or signature |
| `DocumentChamber.DocumentChamberPage.constructor` | src/components/documentchamber/documentchamber.tsx:57-67 | empty list, empty search, "All" tab, nothing selected, dialogs closed, nothing pending |
| `DocumentChamber.DocumentChamberPage.SetSearch` | src/components/documentchamber/documentchamber.tsx:214 | the search becomes the typed text |
| `DocumentChamber.DocumentChamberPage.SetFilter` | src/components/documentchamber/documentchamber.tsx:200 | the status tab becomes the chosen one |
| `DocumentChamber.DocumentChamberPage.SelectDocument` | src/components/documentchamber/documentchamber.tsx:311 | the clicked document becomes the previewed one |
| `DocumentChamber.DocumentChamberPage.OnPickFiles` | src/components/documentchamber/documentchamber.tsx:83-86 | an empty pick leaves the pending list; a non-empty pick replaces it |
| `DocumentChamber.DocumentChamberPage.OnDragOver` | src/components/documentchamber/documentchamber.tsx:230-233 | the drop zone is highlighted |
| `DocumentChamber.DocumentChamberPage.OnDragLeave` | src/components/documentchamber/documentchamber.tsx:234 | the highlight is removed |
| `DocumentChamber.DocumentChamberPage.OnDrop` | src/components/documentchamber/documentchamber.tsx:88-95 | the highlight is removed; an empty drop leaves the pending list, a non-empty drop replaces it |
| `DocumentChamber.DocumentChamberPage.ClearPending` | src/components/documentchamber/documentchamber.tsx:284 | the pending list is emptied |
| `DocumentChamber.DocumentChamberPage.UploadPending` | src/components/documentchamber/documentchamber.tsx:97-109 | with nothing pending nothing changes; otherwise the new Drafts are prepended to the unchanged old list and the pending list is emptied |
| `DocumentChamber.DocumentChamberPage.ChangeStatus` | src/components/documentchamber/documentchamber.tsx:111-115 | the list becomes `SetStatus` of the old list; no other field changes |
| `DocumentChamber.DocumentChamberPage.OpenSign` | src/components/documentchamber/documentchamber.tsx:117-122 | the signing dialog opens for the id |
| `DocumentChamber.DocumentChamberPage.CloseSign` | src/components/documentchamber/documentchamber.tsx:123-126 | the signing dialog closes and forgets its id |
| `DocumentChamber.DocumentChamberPage.SaveSignature` | src/components/documentchamber/documentchamber.tsx:128-141 | an empty pad or a falsy id (null or "") changes nothing and keeps the dialog open; otherwise the list becomes `AttachSignature` of the old list and the dialog closes |
| `DocumentChamber.DocumentChamberPage.ConfirmDelete` | src/components/documentchamber/documentchamber.tsx:143 | the confirmation opens for the id |
| `DocumentChamber.DocumentChamberPage.CancelDelete` | src/components/documentchamber/documentchamber.tsx:494 | the confirmation closes |
| `DocumentChamber.DocumentChamberPage.DoDelete` | src/components/documentchamber/documentchamber.tsx:144-149 | a falsy id changes nothing; otherwise the documents with the id are removed, the preview is cleared only if it showed that id, and the confirmation closes |
| `MeetingCalendar.StatusClasses` | src/components/Calendar/MeetingCalendar.tsx:26-33 | every status has a non-empty class string |
| `MeetingCalendar.StatusClassesDistinct` | src/components/Calendar/MeetingCalendar.tsx:26-33 | two statuses share a class string only if they are the same status |
| `MeetingCalendar.EditEvents` | src/components/Calendar/MeetingCalendar.tsx:48 | length, order and every id kept; events with the id take the new title, status, start and end; all others unchanged |
| `MeetingCalendar.EditWithoutMatch` | src/components/Calendar/MeetingCalendar.tsx:46-48 | an edit for an id no event has changes nothing |
| `MeetingCalendar.EditIdempotent` | src/components/Calendar/MeetingCalendar.tsx:48 | repeating an edit changes nothing more |
| `MeetingCalendar.RemoveEvent` | src/components/Calendar/MeetingCalendar.tsx:58 | an event stays exactly when its id differs; the length drops by the number of events with the id |
| `MeetingCalendar.RemoveEventAppend` | src/components/Calendar/MeetingCalendar.tsx:58 | removal distributes over concatenation, so the remaining events keep their order |
| `MeetingCalendar.MeetingCalendarPage.constructor` | src/components/Calendar/MeetingCalendar.tsx:18-24 | the list is the initial events, the calendar tab is shown, the dialog is closed and empty |
| `MeetingCalendar.MeetingCalendarPage.SelectTab` | src/components/Calendar/MeetingCalendar.tsx:83 | the chosen tab is shown |
| `MeetingCalendar.MeetingCalendarPage.OpenModal` | src/components/Calendar/MeetingCalendar.tsx:35-38 | the dialog opens with the given event, or empty for "add" |
| `MeetingCalendar.MeetingCalendarPage.CloseModal` | src/components/Calendar/MeetingCalendar.tsx:40-43 | the dialog closes and is emptied |
| `MeetingCalendar.MeetingCalendarPage.SaveEvent` | src/components/Calendar/MeetingCalendar.tsx:45-54 | with a dialog event the list becomes `EditEvents` for its id; without one exactly one new event is appended to the unchanged list; the dialog always ends closed and empty |
| `MeetingCalendar.MeetingCalendarPage.DeleteEvent` | src/components/Calendar/MeetingCalendar.tsx:56-60 | confirmed: the list becomes `RemoveEvent` of the old list; not confirmed: unchanged |
| `MeetingCalendar.MeetingCalendarPage.HandleDateClick` | src/components/Calendar/MeetingCalendar.tsx:62-64 | the dialog opens with a placeholder event of id "", empty title, the selected start, the end or else the start, status available |
| `MeetingCalendar.MeetingCalendarPage.HandleEventClick` | src/components/Calendar/MeetingCalendar.tsx:66-70 | an unknown id changes nothing; otherwise the dialog opens with the first event carrying the id |
| `MeetingCalendar.DateSelectionThenSave` | src/components/Calendar/MeetingCalendar.tsx:45-64 | a date selection followed by a save leaves the list unchanged when no event has the empty id, and closes the dialog |
| `OtpForm.OtpForm.constructor` | src/components/auth/OTPForm.tsx:10-11 | six empty slots, no error, focus on the first slot |
| `OtpForm.OtpForm.HandleChange` | src/components/auth/OTPForm.tsx:14-23 | a value other than "" or one digit changes nothing; otherwise only slot `index` changes, to the value; focus moves to `index + 1` only for a digit typed before the last slot; the slot invariant and focus bounds are kept |
| `OtpForm.OtpForm.HandleKeyDown` | src/components/auth/OTPForm.tsx:25-29 | Backspace on an empty slot after the first moves focus back one; anything else leaves it |
| `OtpForm.OtpForm.HandleSubmit` | src/components/auth/OTPForm.tsx:31-40 | the code goes to `onVerify` exactly when no slot is empty, and it is then six digits; otherwise the error message is set; the error is never cleared |
| `OtpForm.Accepts` | src/components/auth/OTPForm.tsx:15 | a value is accepted exactly when it has at most one character and every character is an ASCII digit |
| `OtpForm.Join` | src/components/auth/OTPForm.tsx:33 | the joined code is empty exactly when every slot is empty |
| `OtpForm.JoinLength` | src/components/auth/OTPForm.tsx:33 | with every slot empty or one digit, the joined code has one digit per filled slot |
| `OtpForm.FilledAll` | src/components/auth/OTPForm.tsx:33-35 | every slot is filled exactly when the filled count equals the number of slots |
| `OtpForm.CodeComplete` | src/components/auth/OTPForm.tsx:33-36 | for six valid slots the joined code has length 6 exactly when no slot is empty, and it is all digits |
| `PasswordStrength.Score` | src/components/auth/PasswordStrengthMeter.tsx:8-14 | the score is at most 4 |
| `PasswordStrength.GetStrength` | src/components/auth/PasswordStrengthMeter.tsx:8-15 | the counter equals the number of criteria met (length at least 8 UTF-16 units, an ASCII capital, a digit, a character outside A-Za-z0-9); 4 exactly when all hold, 0 exactly when none does |
| `PasswordStrength.EmptyScoresZero` | src/components/auth/PasswordStrengthMeter.tsx:8-14 | the empty password scores 0 |
| `PasswordStrength.ScoreMonotone` | src/components/auth/PasswordStrengthMeter.tsx:10-13 | appending a character never lowers the score |
| `PasswordStrength.NonAsciiCountsAsSymbol` | src/components/auth/PasswordStrengthMeter.tsx:11-13 | a single character that is not an ASCII letter or digit counts as a symbol and never as a capital, scoring 1 |
| `PasswordStrength.StrengthLabel` | src/components/auth/PasswordStrengthMeter.tsx:20 | scores 0..4 index the label table; the label is "Strong" exactly for 4, and out-of-range scores fall back to "Very Weak" |
| `PasswordStrength.BarColor` | src/components/auth/PasswordStrengthMeter.tsx:21 | the colour comes from the table: green exactly for 4, red exactly for 0 |
| `PasswordStrength.BarWidth` | src/components/auth/PasswordStrengthMeter.tsx:28 | the width is score/4 of 100 percent, one of 0, 25, 50, 75, 100 |
| `PasswordStrength.Render` | src/components/auth/PasswordStrengthMeter.tsx:17-33 | the rendered label and colour are always in their tables, "Strong" and a full bar exactly when the score is 4, an empty bar exactly when it is 0 |

## Left out

- Rendering: all JSX, the Tailwind class strings of documents (`STATUS_COLORS`, `StatusChip`), the headless-UI dialogs and the FullCalendar widget.
- `JsString.Lower`: lowercases ASCII letters only, where JavaScript's `toLowerCase` folds all of Unicode; the name search and the ".pdf" test are modelled with that restriction.
- `formatDate`, `toISOString` and `new Date(...)` parsing: dates are integer timestamps, so an unparsable date (`NaN`) and its effect on the sort are not modelled.
- Id, timestamp and object-URL generation (`Date.now`, `Math.random`, `URL.createObjectURL`): ids and times are parameters; the `fileUrl` field is not modelled because only rendering reads it (the list's "Open in new tab" link, lines 351-360, and the preview, lines 382 and 394 of src/components/documentchamber/documentchamber.tsx).
- The signature canvas: `isEmpty()` and `toDataURL()` are parameters of `SaveSignature`; clearing the pad when the dialog opens is not modelled.
- `alert` and `confirm`: the alert is dropped and the answer to `confirm` is a parameter of `DeleteEvent`.
- DOM focus: focus is an index field, starting at the first slot; focus moved by the user's own clicks or tabbing is not modelled.
- The file size shown in the pending list: files are reduced to name and MIME type.
- React batching: each handler's setter calls are applied in order at once; no handler here reads state it has just set, so the final state is the same.
- The `default` branch of `getStatusClasses`: the status is a three-valued datatype, so that branch cannot be reached.
- The payment component (floating-point balance arithmetic on parsed user input), the video-call component (browser WebRTC and media-device calls) and the page wrappers that only render a component: they are not part of this model.
