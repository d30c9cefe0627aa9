# HAL900 audit form — a Dafny model

This project models the lead-capture form of a marketing landing page
(`src/components/HAL900-AuditForm.tsx`). The form has three fields: name,
company name and email. Each edit runs that field's validator and stores the
field's verdict `{isValid, message}`. The submit button is enabled only when all
three verdicts are valid and no submission is in progress. A valid submit raises
`loading` and `animationTriggered`, waits 2000 ms, and clears `loading` again;
`animationTriggered` is never cleared. Beside the form, a message feed cycles
a cursor through five fixed marketing messages on a 3500 ms timer.

The model has three modules:

- `FieldValidation` (`field_validation.dfy`) holds the three validators as pure functions.
  The email pattern `^[^\s@]+@[^\s@]+\.[^\s@]+$` is given twice:
  - `MatchesEmailRegex` is what the anchored expression means: the text splits as
    `local@host.tld`, each part a non-empty run of characters that are neither
    whitespace nor `@`.
  - `EmailPattern` is a direct check: the first `@` is not at index 0, no
    whitespace comes before it, and the part after it holds no whitespace, no
    `@`, and a `.` that is neither its first nor its last character.

  `EmailPatternIffRegex` proves the two agree on every text. `\s` is the
  ECMAScript WhiteSpace and LineTerminator set, written out in `IsWhitespace`.
- `AuditForm` (`audit_form.dfy`) holds the component state as class `Form`:
  - fields `formData`, `validation`, `loading` and `animationTriggered`;
  - methods `InputChange`, `BeginSubmit`, `CompleteSubmit` and `PressSubmit` for the handlers.

  The wait inside the submit handler becomes two steps: `BeginSubmit` runs the
  handler up to its `await`, and `CompleteSubmit` is the end of one pending wait.
  The ghost field `pendingDelays` counts waits begun and not yet ended, because the
  handler itself does not check `loading`. The invariant `Form.Valid` says:
  - each stored verdict is the validator's verdict on the current value, or the
    field is still empty and holds its initial verdict `{false, ""}`;
  - `loading` implies a pending wait;
  - a pending wait implies `animationTriggered`.
- `MessageFeed` (`message_feed.dfy`) holds the feed as class `Feed`, whose
  `Tick` is one firing of the interval timer.

The pattern at line 149 requires a `.` after the `@`, so `a@b` is rejected
(`DotlessDomainExample`).

## Model

| member | source | states |
|---|---|---|
| `FieldValidation.ValidateName` | src/components/HAL900-AuditForm.tsx:128-136 | valid exactly when 2 <= length <= 50 (so length 50 is accepted); the "at least 2" message below 2, the "less than 50" message above 50, "Looks good!" when valid |
| `FieldValidation.ValidateCompanyName` | src/components/HAL900-AuditForm.tsx:138-146 | valid exactly when 2 <= length <= 100, with the matching message for each violated bound and "Looks good!" when valid |
| `FieldValidation.ValidateEmail` | src/components/HAL900-AuditForm.tsx:148-157 | valid exactly when the text matches the anchored email pattern; empty text gets "Email is required"; non-empty text that does not match gets the distinct "Please enter a valid email"; a valid email gets "Valid email!" |
| `FieldValidation.IsWhitespace` | src/components/HAL900-AuditForm.tsx:149 | JavaScript's `\s`: exactly the ECMAScript WhiteSpace and LineTerminator code points; space, tab, newline and carriage return are in it, `@` and `.` are not |
| `FieldValidation.MatchesEmailRegex` | src/components/HAL900-AuditForm.tsx:149 | the anchored pattern's meaning: the whole text is `local@host.tld` with three non-empty runs of `[^\s@]`; such a text has at least 5 characters, does not start with `@` and has no whitespace |
| `FieldValidation.EmailPattern` | src/components/HAL900-AuditForm.tsx:149-153 | the check `emailRegex.test(email)` evaluates: an accepted text has at least 5 characters, no whitespace, and exactly one `@`, at an index above 0 |
| `FieldValidation.EmailPatternIffRegex` | src/components/HAL900-AuditForm.tsx:149 | the direct check (first `@` at index > 0, no whitespace, domain with an inner `.` and no second `@`) accepts exactly the texts of the form `local@host.tld` with three non-empty runs of `[^\s@]` |
| `FieldValidation.EmailPatternSound` | src/components/HAL900-AuditForm.tsx:149 | every text the direct check accepts splits as `local@host.tld` with three non-empty runs of `[^\s@]` |
| `FieldValidation.EmailPatternComplete` | src/components/HAL900-AuditForm.tsx:149 | every text of the form `local@host.tld` with three non-empty runs of `[^\s@]` passes the direct check |
| `FieldValidation.WhitespaceRejected` | src/components/HAL900-AuditForm.tsx:149-155 | any text with a whitespace character anywhere is rejected with the "valid email" message |
| `FieldValidation.TwoAtSignsRejected` | src/components/HAL900-AuditForm.tsx:149-155 | any text with two `@` is rejected with the "valid email" message |
| `FieldValidation.NoDotAfterAtRejected` | src/components/HAL900-AuditForm.tsx:149-155 | any text with an `@` followed by no `.` is rejected with the "valid email" message |
| `FieldValidation.LeadingAtRejected` | src/components/HAL900-AuditForm.tsx:149-155 | a text starting with `@` (empty local part) is rejected |
| `FieldValidation.NoAtSignRejected` | src/components/HAL900-AuditForm.tsx:150-155 | a non-empty text without `@` gets "Please enter a valid email", not "Email is required" |
| `FieldValidation.MinimalEmailAccepted` | src/components/HAL900-AuditForm.tsx:149-156 | `a@b.c` is accepted with "Valid email!" |
| `FieldValidation.DotlessDomainExample` | src/components/HAL900-AuditForm.tsx:149-155 | `a@b` is rejected with "Please enter a valid email" |
| `AuditForm.PerField.With` | src/components/HAL900-AuditForm.tsx:160 | the spread update `{...prev, [field]: value}` sets the named field and leaves the other two unchanged |
| `AuditForm.PerField.Values` | src/components/HAL900-AuditForm.tsx:219 | `Object.values` of a three-field record lists the name, company name and email entries in that order, each exactly once (same multiset as the record) |
| `AuditForm.Validate` | src/components/HAL900-AuditForm.tsx:162-175 | the change handler's switch picks the field's own validator: the name and company length bounds and the email pattern; empty text is invalid for every field |
| `AuditForm.CountValid` | src/components/HAL900-AuditForm.tsx:219 | the number of valid verdicts is at most the number of verdicts and equals it exactly when all are valid |
| `AuditForm.CountValidAppend` | src/components/HAL900-AuditForm.tsx:219 | the count of valid verdicts in a concatenation is the sum of the counts of its parts |
| `AuditForm.CountValidSingle` | src/components/HAL900-AuditForm.tsx:219 | one verdict contributes 1 to the count when valid and 0 otherwise |
| `AuditForm.ValidFieldCount` | src/components/HAL900-AuditForm.tsx:219 | the progress count is exactly the number of valid fields among name, company name and email; so it lies in [0, 3], is 3 exactly when all three are valid and 0 exactly when none is |
| `AuditForm.AllValidIffEachValid` | src/components/HAL900-AuditForm.tsx:194 | overall validity holds exactly when every field's flag holds, over all eight combinations |
| `AuditForm.Form.constructor` | src/components/HAL900-AuditForm.tsx:115-126 | empty values, every verdict `{false, ""}`, both flags false; the form starts invalid with progress count 0 |
| `AuditForm.Form.IsFormValid` | src/components/HAL900-AuditForm.tsx:194 | under the invariant, the conjunction of the stored flags holds exactly when the current name has 2..50 characters, the company name 2..100 and the email matches the pattern, and exactly when the progress count is 3 |
| `AuditForm.Form.ButtonDisabled` | src/components/HAL900-AuditForm.tsx:300 | the button is disabled exactly when a submission is loading or some current value fails its rule; it is enabled exactly when the count is 3 and nothing is loading |
| `AuditForm.Form.InputChange` | src/components/HAL900-AuditForm.tsx:159-181 | writes the value of one field and that field's fresh verdict; the other fields' values and verdicts and both flags are unchanged; the invariant is kept |
| `AuditForm.Form.BeginSubmit` | src/components/HAL900-AuditForm.tsx:183-188 | with all fields valid, raises `loading` and `animationTriggered` and starts one wait; otherwise changes nothing; field values and verdicts never change |
| `AuditForm.Form.CompleteSubmit` | src/components/HAL900-AuditForm.tsx:188-189 | the end of a pending wait clears `loading`, leaves `animationTriggered` raised, and changes no field |
| `AuditForm.Form.PressSubmit` | src/components/HAL900-AuditForm.tsx:298-300 | a click on a disabled button changes nothing, so no second submission starts while one is loading; a click on an enabled button starts exactly one submission |
| `MessageFeed.Next` | src/components/HAL900-AuditForm.tsx:55 | `(prev + 1) % 5` stays below 5, steps forward by one, and wraps from 4 to 0 |
| `MessageFeed.CursorAfterIsMod` | src/components/HAL900-AuditForm.tsx:51-55 | starting at 0, the cursor after k ticks is k mod 5 and so lies in [0, 5) |
| `MessageFeed.CursorPeriodic` | src/components/HAL900-AuditForm.tsx:22-55 | five ticks bring the cursor back to the same message |
| `MessageFeed.Feed.constructor` | src/components/HAL900-AuditForm.tsx:51 | the cursor starts at 0 with no ticks |
| `MessageFeed.Feed.Current` | src/components/HAL900-AuditForm.tsx:92-97 | the message shown is entry (ticks mod 5) of the fixed list |
| `MessageFeed.Feed.Tick` | src/components/HAL900-AuditForm.tsx:53-56 | one timer firing advances the cursor by `Next`; afterwards it equals the tick count mod 5; it does not depend on the collapse flag, so the feed keeps cycling after a submission |

## Left out

- JSX rendering, framer-motion animation, icons, CSS classes and the
  per-field check/alert icons: presentation with no state of their own.
- Real time: the 2000 ms `setTimeout` and the 3500 ms `setInterval` become the
  explicit steps `CompleteSubmit` and `Tick`. `CompleteSubmit` requires a pending
  wait because it stands for the end of a wait that some earlier submit began.
- React's state-setter batching and closure staleness: each handler is one
  atomic update of the component's fields.
- The interval's cancellation on unmount, and the wait completing after unmount:
  the model has no notion of mounting.
- The progress-bar width `(count / 3) * 100` is floating point. Only the
  integer count is modelled (`ValidFieldCount`).
- String length is the length of a `seq<char>` of Unicode scalar values, not
  JavaScript's UTF-16 code-unit count. The two differ for characters outside the
  Basic Multilingual Plane.
- The `default` branch of the change handler's `switch` (verdict `{false, ""}`):
  the field type has exactly three values, so no call reaches it.
- The icon of each feed entry: a rendered element with no behaviour.
- The lead submission to a backend: the component never makes one, so there is no
  success or failure to model.
- `next.config.js` (build and export configuration) and `src/app/page.tsx`
  (fixed-order composition of other components, whose source is not part of
  this model).
