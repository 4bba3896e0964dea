# CRUD customer form: validator and component state

This project models the `CrudDb` React component of a small customer-record
client (`src/CrudOperation/crudDb.js`). The component keeps three kinds of state:

- a list of customer records (`posts`);
- a form with five string inputs (`name`, `username`, `email`, `phone`, `balance`),
  plus the record being edited, if any (`editingPost`);
- an error map from field to message (`error`).

Its handlers validate the form and talk to a REST backend: `GET /read`,
`POST /add`, `PUT /update/{id}` and `DELETE /delete/{id}`. The model has two parts.

- **The validator** (modules `Patterns`, `Validator`).
  - Each field has one rule, `Validator.Rule`, that looks at that field's value only.
  - `Validator.Errors` is the map of every failing field to its message.
  - `Validator.BuildErrors` builds the map key by key, as `validate` does, and is proved to equal `Errors`.
  - The two regular expressions are predicates on strings. The unanchored `\S+@\S+\.\S+` is proved
    equivalent to "some substring matches the pattern as a whole". `^\d{10}$` is "exactly ten ASCII digits".
  - Only `""` counts as missing, because that is the only falsy string.
- **The component** (module `Component`, class `CrudDb`).
  - The class has the component's eight pieces of state as fields, and one method per handler.
  - Each backend call is made sequential: its outcome is an input of the handler (`Outcome<T>` = `Ok(value)` or `Err`, or a `bool` for PUT and DELETE).
  - Each handler returns the requests it sent, in order. So "invalid input never reaches the backend" is stated as `calls == []`.
  - The list updates are pure functions in `Records`: `Appended` for `[...posts, x]` and `WithoutId` for `posts.filter(post => post.id !== id)`.
  - Lemmas about these functions prove that filtering keeps order, removes exactly the given id, keeps every other record, and is idempotent.

Three behaviours of the code are worth stating outright:

- A whitespace-only name or username passes. The code tests only `!name` and `!username`, and `""` is the only falsy string.
- After a successful PUT the code clears the form and ends the edit whether or not the re-fetch succeeds. The list is replaced only if the re-fetch succeeds.
- `updatePost(post)` validates the component's five fields, not `post`. It sends `post` itself. In `handleSaveClick` the two agree, because `post` is built from those fields.

## Model

| member | source | states |
|---|---|---|
| Patterns.EmailShapeIsPattern | src/CrudOperation/crudDb.js:31 | the validator's email check holds exactly when some substring of the value is a non-space run, `@`, a non-space run, `.`, a non-space run (the unanchored `/\S+@\S+\.\S+/`) |
| Patterns.EmailExamples | src/CrudOperation/crudDb.js:31 | "a@b.com" passes the email pattern; "foo", "a @b.com" and "a@.com" do not |
| Patterns.PhoneExamples | src/CrudOperation/crudDb.js:36 | "1234567890" matches `^\d{10}$`; "123", an 11-digit string and a string with a space do not |
| Form.Draft.Set | src/CrudOperation/crudDb.js:140-186 | an `onChange` sets exactly one input to the typed value and leaves the other four unchanged |
| Validator.BuildErrors | src/CrudOperation/crudDb.js:25-43 | filling `newError` field by field, in the source's order and with its messages, yields the error map of the draft |
| Validator.ErrorOfField | src/CrudOperation/crudDb.js:27-43 | a field is in the map iff its own rule fails on its own value, and its message is that rule's message |
| Validator.ErrorsBounded | src/CrudOperation/crudDb.js:26-43 | the map's keys are among the five fields, so it holds at most five messages, one per field |
| Validator.FieldsIndependent | src/CrudOperation/crudDb.js:27-43 | two drafts that agree on a field get the same entry for it, whatever their other fields are |
| Validator.EmptyIffAcceptable | src/CrudOperation/crudDb.js:27-45 | the map is empty iff all five fields are non-empty, the email and phone have the right shape and the balance is positive |
| Validator.RequiredIffEmpty | src/CrudOperation/crudDb.js:27-40 | a field gets its "… is required" message iff its value is `""` |
| Validator.PresenceOnly | src/CrudOperation/crudDb.js:27-28 | name and username fail iff they are `""`; any other value, whitespace included, passes |
| Validator.EmailRule | src/CrudOperation/crudDb.js:29-33 | a non-empty email gets "Email address is invalid" iff no substring matches the email pattern |
| Validator.PhoneRule | src/CrudOperation/crudDb.js:34-38 | a non-empty phone passes iff it has length 10 and every character is in '0'..'9'; otherwise it gets the 10-digit message |
| Validator.BalanceRule | src/CrudOperation/crudDb.js:39-43 | a non-empty balance gets "Balance must be a positive number" iff it does not read as a positive number |
| Validator.EmptyDraftErrors | src/CrudOperation/crudDb.js:26-43 | the all-empty form gets exactly the five "required" messages |
| Validator.SampleDraftPasses | src/CrudOperation/crudDb.js:25-45 | ("A", "b", "a@b.com", "1234567890", "10") gets no error when "10" reads as positive |
| Validator.SampleDraftFails | src/CrudOperation/crudDb.js:29-38 | email "foo" gets the invalid-email message and phone "123" gets the 10-digit message |
| Records.WithDraft | src/CrudOperation/crudDb.js:116 | `{...editingPost, name, username, email, phone, balance}` keeps the record's id and other properties and takes the five form values |
| Records.Appended | src/CrudOperation/crudDb.js:60 | `[...posts, x]` is one longer, keeps the old list as its prefix and ends with `x` |
| Records.WithoutId | src/CrudOperation/crudDb.js:97 | the filtered list holds exactly the records of the list whose id differs, and is no longer |
| Records.WithoutIdConcat | src/CrudOperation/crudDb.js:97 | filtering distributes over concatenation, so records keep their relative order |
| Records.WithoutIdRemovesAll | src/CrudOperation/crudDb.js:97 | no record with the deleted id is left |
| Records.WithoutIdAbsent | src/CrudOperation/crudDb.js:97 | a list without that id is returned unchanged |
| Records.WithoutIdShrinks | src/CrudOperation/crudDb.js:97 | the list gets shorter iff some record carries the id |
| Records.WithoutIdKeepsOthers | src/CrudOperation/crudDb.js:97 | every record with another id keeps all its occurrences |
| Records.WithoutIdIdempotent | src/CrudOperation/crudDb.js:97 | deleting the same id twice is deleting it once |
| Records.DeleteAfterAppend | src/CrudOperation/crudDb.js:60 | deleting the id of an appended record gives the old list filtered by that id |
| Component.CrudDb.constructor | src/CrudOperation/crudDb.js:5-12 | the initial state: no records, five empty fields, no record being edited, an empty error map |
| Component.CrudDb.LoadPosts | src/CrudOperation/crudDb.js:14-23 | the initial load sends one GET; a success replaces the list; a failure keeps it; nothing else changes |
| Component.CrudDb.SetField | src/CrudOperation/crudDb.js:140-186 | an input's change updates that field only; the error map, even a stale one, is kept |
| Component.CrudDb.Validate | src/CrudOperation/crudDb.js:25-46 | stores the error map of the current five fields and returns true iff it is empty |
| Component.CrudDb.ClearFields | src/CrudOperation/crudDb.js:122-128 | the five fields become `""`; nothing else changes |
| Component.CrudDb.CreatePost | src/CrudOperation/crudDb.js:49-66 | invalid: no request, only `error` changes. Valid: `error` is empty and one POST of the five fields is sent. On success the record is appended and the form cleared; on failure list and form are kept. `editingPost` never changes |
| Component.CrudDb.UpdatePost | src/CrudOperation/crudDb.js:69-89 | invalid: no request, only `error` changes. Valid: a PUT of `post` to its id. After a successful PUT: a GET, the edit ends, the form is cleared, and the list is replaced only if the GET succeeds. A failed PUT changes nothing else |
| Component.CrudDb.DeletePost | src/CrudOperation/crudDb.js:93-102 | one DELETE of the id; on success the list is filtered by that id, on failure it is kept; nothing else changes |
| Component.CrudDb.HandleEditClick | src/CrudOperation/crudDb.js:104-111 | the record becomes the one being edited and the form holds its five values |
| Component.CrudDb.HandleSaveClick | src/CrudOperation/crudDb.js:113-120 | saving updates when a record is being edited, with the form's values laid over that record, and creates otherwise; every outcome is stated as for create and update |
| Component.EditAndSave | src/CrudOperation/crudDb.js:104-120 | editing a valid record and saving it unchanged sends that record to its id and then a GET; a successful PUT leaves no edit under way and an empty form |
| Component.TypeAndSave | src/CrudOperation/crudDb.js:49-66 | typing a draft into a fresh form and saving sends nothing iff the draft fails validation; a valid draft is posted, the created record is appended and the form cleared |
| Component.CreateThenDelete | src/CrudOperation/crudDb.js:93-102 | creating a record and then deleting its id leaves the original list filtered by that id, with no record of that id |

## Left out

- HTTP transport (axios, the URLs, the server): each request is a `Request` value. Its outcome is a handler parameter.
- `console.error` logging on each failure path: it does not touch component state.
- JSX rendering and markup. The `onChange` bindings are modelled only as `SetField`. `event.preventDefault()` in `handleSaveClick` is a browser effect and is left out.
- React scheduling. State-update batching, the stale `posts` captured by the closures at lines 60 and 97, and overlapping requests resolving out of order are not modelled. Every handler runs to completion before the next, and reads the current state. So the GET issued inside a successful PUT is modelled as finishing before the PUT handler returns, although in the source the edit ends and the form clears first.
- Validator.BalanceRule: the balance test `isNaN(balance) || +balance <= 0` depends on JavaScript's Number coercion and floating-point comparison. It is the parameter `balanceIsPositive` of the component (the argument `isPositive` of the validator). So the model does not decide which strings, such as "-5" or "abc", count as positive.
- Values the server may send that are not strings, such as a numeric `balance` copied by `handleEditClick`: every field is a string. Record ids are integers. A record's other properties are a string-to-string map.
- UTF-16: JavaScript strings are sequences of UTF-16 code units, while the model's strings are sequences of Unicode scalar values. This does not change either pattern's verdict, since both halves of a surrogate pair are non-space and are not digits.
