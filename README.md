# CRUD user form: a Dafny model of the form/list controller

This project models the `Form` component of a React single-page client that
creates, lists, updates and deletes user profiles over a REST backend. The
component holds:

- a draft record (`formData`);
- per-field validation flags (`formErrors`);
- the date-input value (`birthday`);
- the id of the user being edited (`selectedUserId`);
- whether the form is shown (`showForm`);
- the fetched user list (`userList`).

Its handlers move this state between create mode and edit mode. They also
validate fields one at a time as they are edited, validate the whole draft
before submitting, and refresh the list after a create, update or delete.

The model has four modules:

- `Wrappers`: `Option`, standing for JavaScript's `null` next to a present value.
- `Dates`: the birthday strings (pure). A picked date is written as
  `YYYY-MM-DD` from its calendar fields, with the month and day zero-padded and
  the year left as it is. A text value is cut at its first `T`. The formatting
  is proved lossless against a parser (`ParseDate`). The cut is proved to be a
  prefix with no `T`, idempotent, and the only such prefix that ends at the
  end of the string or just before a `T`.
- `Draft`: the draft, the flags, user records, and the two validation rules as
  functions. `handleChange` checks one field; `validateForm` rebuilds the whole
  flag map. Lemmas relate the two rules and characterise when a draft is
  accepted.
- `Controller`: class `FormController`. Its fields are the six state variables
  and its methods are the handlers. Each network answer is a parameter:
  `Ok`/`Failed` for create, update and delete, and `Fetched(list)`/`FetchFailed`
  for the list. The refetch that follows a successful submit or delete runs
  inside the handler as one atomic step. Every handler that sends requests
  returns them, in the order they go out (method, endpoint, body). The
  object invariant `Valid()` has two parts:
  every required field has a flag, and a user is selected only while the form
  is shown. Every handler preserves it. Four client methods go through whole
  scenarios: edit then "Add User", a complete create, a submit with the
  first name missing, and a submit of a record whose stored birthday is not
  a date.

Behaviour worth noting:

- An unrecognised birthday value (neither a valid `Date` nor a string) is not
  ignored. The code writes `""` into `formData.birthday` and clears the
  birthday flag (src/pages/Form.js:176-198).
- `handleAddUserClick` clears `selectedUserId` but keeps the draft
  (src/pages/Form.js:229-232), so an edited user's fields stay in the form.
- `handleUpdate` stores a `Date` object, not a string, in `formData.birthday`
  (src/pages/Form.js:84). The draft's birthday is therefore `Null`, `Str(s)` or
  `DateObject(source)`. Only `""` and `null` fail validation.
- After a successful submit the flags are not reset. They stay as
  `validateForm` left them, which for a draft that passed is all false.
- A birthday that is not a date (a stored record value, or a non-empty typed
  text not starting with `T` that `new Date` cannot read) passes validation, but building the request body
  calls `toISOString()` on it, which throws. The `catch` only logs, so
  nothing is sent and the draft stays as it was (src/pages/Form.js:118-170).

## Model

| member | source | states |
|---|---|---|
| Dates.NatToString | src/pages/Form.js:181-182 | `n.toString()` is all digits, has length 1 exactly for n < 10, and starts with `0` only for 0 |
| Dates.ParseNatToString | src/pages/Form.js:181-182 | a number's decimal string reads back as that number |
| Dates.ParseIntToString | src/pages/Form.js:180-183 | the year's string (with a minus sign when negative) reads back as the year |
| Dates.Pad2 | src/pages/Form.js:181-182 | `padStart(2, "0")` gives digits only, exactly two of them for any value below 100 |
| Dates.ParsePad2 | src/pages/Form.js:181-182 | a two-digit month or day reads back as the number it came from |
| Dates.FormatDateShape | src/pages/Form.js:180-183 | a formatted date is the unpadded year, `-`, two digits, `-`, two digits |
| Dates.FormatDateRoundTrip | src/pages/Form.js:178-183 | parsing the formatted date gives back the same year, month and day |
| Dates.FormatDateHasNoT | src/pages/Form.js:183-186 | a formatted date contains no `T` |
| Dates.ShortYearNotPadded | src/pages/Form.js:180-183 | the year is not padded: year 999, May 1 gives `999-05-01` |
| Dates.CutAtT | src/pages/Form.js:184-186 | `split("T")[0]` is a prefix of the input with no `T`; when shorter, the input has a `T` right after it |
| Dates.CutAtTWithoutT | src/pages/Form.js:186 | a string without `T` is kept whole |
| Dates.CutAtTIdempotent | src/pages/Form.js:186 | cutting a second time changes nothing |
| Dates.CutAtTUnique | src/pages/Form.js:186 | the cut is the only `T`-free prefix that ends at the end or just before a `T` |
| Dates.CutIsoTimestamp | src/pages/Form.js:184-186 | `2024-05-01T10:00:00Z` is stored as `2024-05-01` |
| Draft.WithText | src/pages/Form.js:200-203 | storing a string field sets that field and changes no other field, birthday included |
| Draft.ChangedDraft | src/pages/Form.js:174-203 | `handleChange` stores the formatted birthday, or another field's value verbatim, and leaves every other field unchanged |
| Draft.ChangedErrors | src/pages/Form.js:195-207 | `handleChange` clears the birthday flag whatever the value; another field's flag becomes "value is empty"; every other flag is unchanged; the edited key is added |
| Draft.ValidationErrors | src/pages/Form.js:211-221 | the rebuilt flags have exactly the seven required keys and no password; a string field is flagged iff empty, the birthday iff `""` or `null` |
| Draft.SubmittableIff | src/pages/Form.js:211-227 | `validateForm` succeeds iff the six string fields are non-empty and the birthday is neither `""` nor `null` |
| Draft.PasswordIgnored | src/pages/Form.js:216 | the password changes neither the flags nor the verdict |
| Draft.FieldEditAgreesWithValidation | src/pages/Form.js:204-221 | for a required non-birthday field, the flag set by the edit equals the flag `validateForm` computes for the edited draft |
| Draft.BirthdayEditNotRevalidated | src/pages/Form.js:174-198 | every birthday edit clears its flag; `validateForm` then flags it iff the input was unrecognised, empty, or started with `T` |
| Draft.TextOfFormattedDate | src/pages/Form.js:178-194 | typing a formatted date as text stores the same draft as picking that date |
| Draft.RecordDraftSubmittable | src/pages/Form.js:76-87 | a record loaded for editing passes validation iff all its fields, birthday included, are non-empty |
| Controller.SubmitRequest | src/pages/Form.js:119-136 | PUT to `updateUser/{id}` iff the selected id is truthy, else POST to `register`; the body is the draft with only the birthday replaced; that birthday is `null` iff no date is picked, and otherwise the picked date's ISO timestamp cut at `T` |
| Controller.FormController.constructor | src/pages/Form.js:12-36 | the initial state: empty draft, all eight flags false, no date picked, empty list, form hidden, nobody selected |
| Controller.FormController.FetchUsers | src/pages/Form.js:42-54 | sends GET `getUsers`; a successful fetch replaces the list wholesale; a failed fetch leaves it unchanged |
| Controller.FormController.HandleDelete | src/pages/Form.js:56-74 | sends DELETE `deleteUser/{id}`, followed on success by GET `getUsers` whose answer becomes the list; on failure nothing more is sent and the list is unchanged |
| Controller.FormController.HandleUpdate | src/pages/Form.js:76-90 | selects the record's id, copies its fields with an empty password, sets the date input, opens the form |
| Controller.FormController.HandleImageChange | src/pages/Form.js:92-107 | a chosen file's data URI becomes the image; no file changes nothing |
| Controller.FormController.ValidateForm | src/pages/Form.js:211-227 | the flags are replaced by the rebuilt map, and the result is the verdict |
| Controller.FormController.HandleSubmit | src/pages/Form.js:109-172 | flags are always rebuilt; an invalid draft, or a birthday `Date` built from a string whose `toISOString()` throws, sends nothing and changes nothing else; a valid draft whose picker is empty or holds a picked date is always sent (the caller may pass `None` only for a `ParsedDate`); otherwise `SubmitRequest` is sent; on success it is followed by GET `getUsers`, the draft is cleared, nobody is selected, the form is closed and the list is the refetched one; on failure all else is unchanged |
| Controller.FormController.HandleChange | src/pages/Form.js:174-209 | the new draft and flags are `ChangedDraft` and `ChangedErrors` of the old ones; the date input follows a date or text birthday and is kept for an unrecognised one |
| Controller.FormController.HandleAddUserClick | src/pages/Form.js:229-232 | nobody is selected and form visibility flips, so pressing it while editing always hides the form |
| Controller.EditThenAddUser | src/pages/Form.js:76-232 | editing any record and then pressing "Add User" leaves edit mode and hides the form |
| Controller.CreateUser | src/pages/Form.js:109-209 | filling the form and submitting with success POSTs to `register` the typed fields, the image, an empty password and the host's ISO timestamp of the picked date cut at `T` as birthday, then sends GET `getUsers`; the list becomes the served one, the draft is cleared and the form is closed |
| Controller.SubmitWithoutFirstName | src/pages/Form.js:109-227 | with only the first name missing, nothing is sent and exactly the first-name flag is set |
| Controller.SubmitUnparsableBirthday | src/pages/Form.js:76-170 | editing a complete record whose birthday `toISOString()` cannot serialise and submitting sends nothing, whatever the server would answer, and keeps the loaded draft, the selection and the open form |

## Left out

- Network I/O: the `fetch` calls, the backend URLs, JSON parsing and
  `encodeURIComponent` (src/pages/Form.js:44, 58, 119-136). Each call is an
  outcome parameter. An endpoint carries the raw id. Non-2xx answers and
  thrown errors are the same `Failed` outcome.
- The JavaScript `Date` machinery. `new Date(s)` is kept as an opaque
  `ParsedDate(s)` / `DateObject(s)` holding its source string. `isNaN` is
  folded into the three-way input (`DateVal`, `Text`, `Other`).
  `toISOString()`, which converts to UTC, is the `isoTimestamp` parameter of
  `HandleSubmit`: the host's string, or `None` when it throws on an invalid
  `Date`. Which strings `new Date` accepts is not modelled, so whether it
  throws is the caller's choice. The model cuts the string at `T`.
- The date input's displayed value (src/pages/Form.js:355-356) is rendering.
  It calls `toISOString()` on the picker's `Date`, so the render throws
  whenever that `Date` is invalid: right after `handleUpdate` loads a record
  whose birthday is not a date, and right after `handleChange` stores
  `new Date(value)` for a text `new Date` cannot read (line 185), including
  the `""` a cleared date input sends. The model has no render step and keeps
  the state those handlers leave.
- `Controller.FormController.HandleChange`: a `null` (or any non-string) value
  for a field other than the birthday is not modelled. Every caller passes an
  input element's string value (src/pages/Form.js:261-393).
- `FileReader` and its asynchronous `onloadend` (src/pages/Form.js:96-103).
  The data URI it produces is the handler's argument, and the image is set at
  once.
- The mount-time fetch in `useEffect` (lines 38-40), JSX rendering, CSS
  classes, clearing the file input's DOM value (line 155), and `console`
  logging.
- React's batching of state updates and asynchronous interleaving. Every
  handler is one atomic step. The refetch after a submit or delete is applied
  inside that step, so a late, stale list response overwriting a newer one is
  not represented.
- `selectedUserId` is `Some(id)` or `None`. JavaScript truthiness (`""` is
  falsy) is kept where the code tests it (`IsTruthy`, lines 121 and 128).
  Both the initial `""` and the later `null` of the date input are `NoDate`.
- The order of fields in the JSON body is not modelled.
