# Registration form: validation rules, submit gate and success listing

This project models the core of a React registration form. The form has eleven
string fields:

- first and last name, username, e-mail and password;
- phone code and phone number;
- country and city;
- PAN and Aadhar numbers.

Each change to an input updates the field record. It then runs that field's
validation rule (`validateField`), which writes one entry of an error map. The
phone code and the phone number share the single entry `phone`.

A submit does two things:

- it re-runs the rule of every field;
- it navigates to the success page only when `isFormValid` holds.

`isFormValid` is a separate conjunction over the raw, untrimmed field values and
"no error entry is non-empty".

The success page lists each submitted key and its value. The label of a key is
the key with a blank inserted before every ASCII capital. When the page is
reached without a record, it shows a fallback instead.

Modules:

- `JsText` holds the JavaScript string primitives the rules use:
  - the ECMAScript white-space set shared by `trim` and `\S`;
  - `String.prototype.trim`;
  - `length` as a count of UTF-16 code units;
  - the class `[A-Z]`.
- `Form` holds:
  - the field record (a datatype);
  - the rule table `Verdict` and `ValidateField`, a pure map update from
    `(errors, name, value, data)`;
  - `IsFormValid`;
  - the lemmas relating them.

  The central result is `Form.GateMatchesRules`. On every consistent state,
  `isFormValid` holds exactly when every field's rule passes. Consistency holds
  initially and is kept by every field change (`Form.ChangeKeepsConsistent`).
  Every error map a submit's re-validation produces from a consistent state is
  consistent again (`Form.SubmitRunsKeepConsistent`), so the result also holds
  after a submit writes one of them back with `setErrors`.
  `isFormValid` and the rules disagree only on inconsistent states. A
  white-space-only first name satisfies its untrimmed conjunct. On a consistent
  state the error map holds the rule's message for it, and `isFormValid` fails
  (`Form.BlankNameDivergence`).
- `FormComponent` is the component state as a class with fields `data` and
  `errors`:
  - `HandleChange` updates both fields;
  - `HandleSubmit` runs the re-validation loop and decides the outcome.
- `Success` holds the label transform, its inverse and the page.

## Model

| member | source | states |
|---|---|---|
| Form.Get | src/Form.jsx:103 | `formData[key]` for a field name; `Form.Set` and `Form.Entries` are stated through it |
| Form.Verdict | src/Form.jsx:29-67 | the message each case of the switch assigns, `""` when the case's test passes; its meaning is stated per rule by `Form.PresenceRule`, `Form.EmailRule`, `Form.LengthRules`, `Form.PhoneRule` and `Form.SelectionRule` |
| Form.EmailTest | src/Form.jsx:40 | `/\S+@\S+\.\S+/.test`: some substring is a non-space run, `@`, a non-space run, `.`, a non-space run (also used at `src/Form.jsx:87`); characterised by `Form.EmailTestIff` |
| Form.IsFormValid | src/Form.jsx:82-97 | the untrimmed conjuncts on the record and every error entry empty; related to the rules by `Form.GateMatchesRules` |
| Form.Set | src/Form.jsx:76 | the spread `{ ...prev, [name]: value }` holds `value` at `name` and every other field unchanged |
| Form.Entries | src/Form.jsx:102 | the record's key/value pairs, one per field, in the record's key order (`src/Form.jsx:8-20`) |
| Form.ErrorKey | src/Form.jsx:45-51 | every field's rule writes one of the ten error keys; the phone pair writes `phone` |
| Form.Message | src/Form.jsx:31-63 | every rule's failure message is non-empty, so the empty string means "passes" |
| Form.ValidateField | src/Form.jsx:26-70 | the result has exactly the keys of `errors` plus the rule's key; every other entry is copied unchanged; an unknown name (the `default` case) changes nothing; the rule's key holds that rule's verdict |
| Form.PresenceRule | src/Form.jsx:30-37 | for firstName, lastName, username and pan the entry is `""` iff the value has a non-white-space character (`trim()` non-empty), otherwise the field's fixed message |
| Form.EmailRule | src/Form.jsx:39-40 | the email entry is `""` iff some `@` has a non-space character before it and is followed by a non-space run, a `.` and a non-space character |
| Form.EmailTestIff | src/Form.jsx:40 | the unanchored match of `\S+@\S+\.\S+` somewhere in the value is equivalent to that two-position shape |
| Form.EmailAccepts | src/Form.jsx:40 | `a@b.co` matches, and so does an address inside surrounding text (the test is unanchored) |
| Form.EmailNeedsDotAndAt | src/Form.jsx:40 | a value without a `.`, or without an `@` after its first character, never matches |
| Form.EmailRejects | src/Form.jsx:40 | `a@b` and `@b.co` do not match |
| Form.LengthRules | src/Form.jsx:42-44 | for values in the Basic Multilingual Plane, password passes iff its raw untrimmed length is at least 6, and aadhar passes iff its raw length is exactly 12, with no digit check (`src/Form.jsx:61-63`) |
| Form.PhoneRule | src/Form.jsx:45-50 | the shared `phone` entry ignores the value passed in; it is `""` iff both phone fields of the record have a non-space character, whichever field is validated |
| Form.SelectionRule | src/Form.jsx:52-57 | country and city pass iff the value is non-empty; the city is not checked against the country's list |
| Form.VerdictReads | src/Form.jsx:26-67 | a rule other than the phone rule depends only on its value; the phone rule depends only on the two phone fields, and is the same for both |
| Form.InitialConsistent | src/Form.jsx:8-23 | the initial record (all fields empty) with the empty error map satisfies the consistency invariant |
| Form.ChangeKeepsConsistent | src/Form.jsx:72-80 | a field change followed by `validateField` on the updated record preserves the invariant: each present error entry is its rule's verdict on the current record, and each field without an entry is still empty |
| Form.SetOwnValue | src/Form.jsx:76 | the spread with a field's own current value gives the same record back |
| Form.SubmitRunKeepsConsistent | src/Form.jsx:103 | `validateField(key, formData[key])` from a consistent state gives a map consistent with the record |
| Form.SubmitRunsKeepConsistent | src/Form.jsx:102-104 | every one of the submit's eleven runs, from a consistent state, gives a map consistent with the record |
| Form.GateMatchesRules | src/Form.jsx:82-97 | on every consistent state, `isFormValid` holds iff every field's rule passes |
| Form.RulesPassGivesRawConditions | src/Form.jsx:84-94 | when every rule passes, so does each untrimmed conjunct of `isFormValid` |
| Form.PresenceFieldsNonEmpty | src/Form.jsx:84-93 | when every rule passes, the fields with a trimming rule are non-empty |
| Form.BlankNameDivergence | src/Form.jsx:82-96 | for every non-empty, all-white-space first name: a record that passes `isFormValid` with an empty error map still passes with that name, because `formData.firstName` (line 84) is not trimmed; the firstName rule (`src/Form.jsx:31`) gives its message; and on every consistent state with that name the error map holds the firstName message and `isFormValid` fails |
| Form.BlankNameExample | src/Form.jsx:84 | the complete registration with a first name of one blank passes `isFormValid` with an empty error map, the firstName rule rejects it, and `isFormValid` fails on it with every consistent error map |
| Form.ExampleGate | src/Form.jsx:82-96 | the complete registration passes `isFormValid` with an empty error map |
| Form.ExampleRecordPasses | src/Form.jsx:26-67 | the complete registration (Ann, Lee, annlee, a@b.co, secret1, +1, 5551234, India, Mumbai, ABCDE1234F, 123456789012) passes every rule |
| Form.ExampleRecordAccepted | src/Form.jsx:82-97 | `isFormValid` holds on the complete registration with any consistent error map |
| Form.ShortAadharRejected | src/Form.jsx:61-63 | a five-character Aadhar number gets "Aadhar must be 12 digits" and `isFormValid` fails (`src/Form.jsx:94`), whatever the other fields and errors |
| JsText.IsSpace | src/Form.jsx:31 | the ECMAScript white-space and line-terminator characters, shared by `trim` and `\S` (`src/Form.jsx:40`) |
| JsText.Trim | src/Form.jsx:31 | `String.prototype.trim`, white space removed from the front and then the end; characterised by `JsText.TrimSpec` |
| JsText.Utf16Length | src/Form.jsx:43 | `length`: one code unit per character, two outside the Basic Multilingual Plane (also `src/Form.jsx:63`); bounded by `JsText.Utf16LengthBounds` |
| JsText.TrimStartSpec | src/Form.jsx:31 | what is dropped from the front is white space, and what remains is a suffix that does not start with white space |
| JsText.TrimEndSpec | src/Form.jsx:31 | the same for the end: a prefix that does not end with white space |
| JsText.TrimSpec | src/Form.jsx:31 | `trim()` is no longer than its input, has no white space at either end, and is empty iff the input is all white space |
| JsText.TrimNonEmptyIff | src/Form.jsx:31 | `value.trim()` is truthy iff the value has a non-white-space character |
| JsText.Utf16LengthBounds | src/Form.jsx:43 | `length` lies between the number of characters and twice that, and equals it inside the Basic Multilingual Plane |
| FormComponent.FormState.constructor | src/Form.jsx:22-23 | the state starts with the initial record and an empty error map, and is consistent |
| FormComponent.FormState.HandleChange | src/Form.jsx:72-80 | the record becomes the previous one with `name` replaced; the error map becomes `validateField` on the updated record; consistency is kept |
| FormComponent.FormState.HandleSubmit | src/Form.jsx:99-109 | one `validateField` per key in key order, each started from the same `errors` snapshot; navigates with the record's entries iff `isFormValid` holds on the pre-submit state; on a consistent state, navigates iff every rule passes, and every returned map is consistent with the record |
| FormComponent.ShortAadharSubmission | src/Form.jsx:99-109 | a submit with a five-character Aadhar stays on the form; its Aadhar run writes the message and copies every other entry unchanged |
| FormComponent.FillInAccount | src/Form.jsx:72-80 | typing five fields in turn sets exactly those fields and keeps consistency |
| FormComponent.FillInContact | src/Form.jsx:72-80 | typing the remaining six fields in turn sets exactly those fields and keeps consistency |
| FormComponent.ExampleRegistration | src/Form.jsx:99-109 | typing the complete registration into a fresh form and submitting it navigates with exactly its eleven entries |
| FormComponent.CountryChangeAfterCity | src/Form.jsx:52-57 | after country "A" and city "X", choosing country "B" leaves the city "X" and its error entry empty: the city is not validated again |
| FormComponent.SubmittedListing | src/Form.jsx:107 | the success page for a submitted record lists one item per field, in key order; each title gives back its key and each value is the field's value (`src/Success.jsx:15-19`) |
| Success.Label | src/Success.jsx:17 | `key.replace(/([A-Z])/g, " $1")`: a blank before every A-Z letter; characterised by the lemmas below |
| Success.LabelLength | src/Success.jsx:17 | the label is longer than the key by the number of A-Z letters in it |
| Success.LabelWithoutCapitals | src/Success.jsx:17 | a key with no A-Z letter is its own label |
| Success.LabelStartsWithoutCapital | src/Success.jsx:17 | a label never starts with a capital |
| Success.UnlabelLabel | src/Success.jsx:17 | removing each blank that precedes a capital gives the key back, so only blanks were inserted |
| Success.CapitalsFollowBlank | src/Success.jsx:17 | every A-Z letter of a label has a blank right before it |
| Success.LabelConcat | src/Success.jsx:17 | the replacement distributes over concatenation (the regex is global and works one character at a time) |
| Success.LabelOfFirstName | src/Success.jsx:17 | `firstName` is labelled `first Name` |
| Success.LabelOfCity | src/Success.jsx:17 | `city` is labelled `city` |
| Success.Items | src/Success.jsx:15-19 | one item per entry, in entry order, pairing the key's label with the unchanged value |
| Success.Render | src/Success.jsx:7-9 | the page is the fallback iff there is no router state; otherwise it is the listing |
| Success.ListingMatchesRecord | src/Success.jsx:15-19 | given entries, the page is a listing with exactly one item per entry; each title un-labels to its key, and each value is unchanged |

## Left out

- JSX, Tailwind classes and the `capitalize` styling class. They affect the
  display only, not the label string.
- The `showPassword` toggle (`src/Form.jsx:24`). It is UI state with no bearing
  on validation.
- React's state hooks. `setFormData` and `setErrors` are modelled as plain
  assignments to the class's fields. Neither update batching nor stale closures
  are modelled.
- FormComponent.FormState.HandleSubmit does not write the re-validated error
  maps back into `errors`. It returns them, one per key, each computed from the
  same pre-submit snapshot (`src/Form.jsx:27`), with the proof that each is
  consistent with the record. Which of them `setErrors` leaves in place is not
  modelled. The navigation decision reads the pre-submit state, as
  `isFormValid` on line 106 does.
- Routing with `useNavigate`/`useLocation`. A submit's outcome is the value
  `Navigate(entries)` or `Stay`. The success page's router state is an `Option`.
  The "Go back" button is not modelled.
- `countryCityMap` (`src/data`). It is not part of this model and only fills the
  select options. The code never checks a city against it.
- FormComponent.FormState.HandleChange requires a known field name. Every input
  of the form carries one of the eleven names, and `ValidateField` models the
  `default` case for any other name.
- Lone UTF-16 surrogates cannot be represented. A Dafny `char` is a Unicode
  scalar value, so `length` is modelled as the UTF-16 code-unit count over
  scalar values.
- Form.LengthRules states the length rules in characters only for values in the
  Basic Multilingual Plane. Outside it, `Verdict` uses the code-unit count, as
  JavaScript does.
- The user's typing and key events are not modelled. The values of `e.target`
  are the parameters of `HandleChange`.

## Notes on the code

- The city rule (`src/Form.jsx:55-56`) only checks that the value is non-empty.
  The city is never checked against `countryCityMap`.
- `isFormValid` (`src/Form.jsx:106`) reads the error map as it was before the
  re-validation, because each re-validation copies the same snapshot
  (`src/Form.jsx:27`). On every consistent state the outcome is still exactly
  "every rule passes" (`Form.GateMatchesRules`). This covers states after
  earlier submits too, since each map a submit writes back is consistent
  (`Form.SubmitRunsKeepConsistent`). The re-validation therefore
  changes only which messages are displayed, not whether the form navigates.
