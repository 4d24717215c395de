# NewBill submission handler, modelled in Dafny

This project models the new-bill form handler of an expense-report web client
(`src/containers/NewBill.js`). An employee picks a receipt file. The handler
accepts it only when its name ends in `.jpg`, `.jpeg` or `.png`, ignoring
case, and then stages a multipart payload (the file plus the session email).
On submit, when the format flag is up, it uploads the payload to the store
(`create`). It then records the returned bill key and file URL, sends the bill
record to `update` under that key and navigates back to the bills list. A
second navigation follows once the update has succeeded. Store failures are
only logged.

Layout:

- `wrappers.dfy`: `Option`, standing for `null`, `undefined` and `NaN`.
- `extension.dfy` (module `ImageExtension`): the test `/\.(jpg|jpeg|png)$/i`
  on a file name. It is proved equal to the reading "some dot is followed, up
  to the end, by an accepted extension in either case".
- `parse_int.dfy` (module `JsParseInt`): JavaScript `parseInt` with no radix.
  It skips leading white space, takes an optional sign, switches to base 16
  after a `0x`/`0X` prefix, and reads the longest digit run; no digit at all
  gives NaN (None). `ParseInt` is proved to read back what `Decimal` prints
  (`ParseIntOfDecimal`).
- `bill.dfy` (module `BillRecord`): the bill record, the form fields, the `pct`
  default and the record builder.
- `handler.dfy` (module `NewBillSpec`): the handler as pure transitions over
  its five fields. The store's answers are inputs, and every observable effect
  goes into an ordered trace: upload, update, navigation, alert, error log, and
  the file input being cleared or re-styled. The module also gives the
  handler's invariant and runs over arbitrary sequences of events.
- `new_bill.dfy` (module `NewBillContainer`): the class `NewBill`. Its fields
  are updated in place by `HandleChangeFile`, `HandleSubmit` and `UpdateBill`.
  Each method is proved to produce exactly the state and trace of the matching
  transition and to keep the invariant. Two client methods replay the
  handler's accepted-file and rejected-file tests.

Behaviour kept as the code has it:

- The constructor sets a field named `isValidFormat`, but the handlers read and
  write `isImgFormatValid`. The real flag therefore starts undefined (falsy);
  the model has both fields and starts the flag at `false`.
- The bill record is built before the upload resolves. The record sent to
  `update` therefore carries the `fileUrl` the handler held before the upload:
  null on a first submit, the previous upload's URL on a later one, and not
  the URL this upload returns (`FirstUploadRecordsNoFileUrl`,
  `SecondUploadRecordsPreviousFileUrl`).
- A rejected file leaves the previously staged name and payload in place, and
  only lowers the flag: the rejecting branch (src/containers/NewBill.js:31-37)
  assigns neither field.
- `pct` falls back to 20 when `parseInt` gives NaN and also when it gives 0,
  because JavaScript's `||` treats 0 as false: a typed "0" is stored as 20.
- Navigation to the bills list does not wait for the update. The trace of a
  successful upload is `Create`, `Update`, `Navigate`, then either a second
  `Navigate` or `LogError`, depending on the update's outcome. `UpdateBill`
  returns the effects of the update's settlement, and the submit handler
  appends them after its own navigation.

## Model

| member | source | states |
|---|---|---|
| `ImageExtension.IsImageName` | src/containers/NewBill.js:27 | a name is accepted iff, for one of jpg, jpeg and png, it ends with a '.' followed by that extension in either case (both directions) |
| `ImageExtension.IsImageNameMatchesPattern` | src/containers/NewBill.js:27 | the handler's test accepts a name iff some '.' in it is followed, up to the end, by jpg, jpeg or png in either case (both directions) |
| `ImageExtension.AcceptanceIgnoresCase` | src/containers/NewBill.js:27 | two names that agree up to ASCII case are both accepted or both rejected |
| `ImageExtension.AcceptsEveryStem` | src/containers/NewBill.js:27 | any stem followed by '.' and an accepted extension, in any case, is accepted (".png" included) |
| `ImageExtension.AcceptedExamples` | src/__tests__/NewBill.js:110-126 | "file.png", "file.PNG", ".png" and "scan.JpEg" are accepted |
| `ImageExtension.RejectedExamples` | src/__tests__/NewBill.js:165-179 | "file.xml", "file.png.xml" and "filepng" are rejected |
| `JsParseInt.ParseInt` | src/containers/NewBill.js:63-66 | input that is empty or all white space gives NaN, and a number is only read when the first non-space character is a digit or a sign |
| `JsParseInt.TrimStartRemovesLeadingSpace` | src/containers/NewBill.js:63 | the white-space skip drops exactly the leading white space and keeps the rest as a suffix |
| `JsParseInt.DigitPrefixIsLongest` | src/containers/NewBill.js:63 | the digits read are the longest prefix made of digits of the radix |
| `JsParseInt.ParseIntOfDecimal` | src/containers/NewBill.js:63 | parsing a printed integer followed by anything that does not continue its digits gives back that integer, sign included; an 'x' or 'X' may follow any integer but 0, where it would form a "0x" prefix |
| `JsParseInt.ParseIntSkipsWhiteSpace` | src/containers/NewBill.js:63 | leading white space never changes the parse |
| `JsParseInt.NaNExamples` | src/containers/NewBill.js:63 | "", "abc" and "-" parse to NaN |
| `JsParseInt.HexExamples` | src/containers/NewBill.js:63 | "0x" parses to NaN and "-0x1A" to -26 |
| `BillRecord.PctOrDefault` | src/containers/NewBill.js:66 | the percentage is never 0: it is 20 when the parse gives NaN or 0, and the parsed value otherwise |
| `BillRecord.PctOfDecimal` | src/containers/NewBill.js:66 | a printed non-zero percentage is kept as is; a printed 0 becomes 20 |
| `BillRecord.PctOfBlank` | src/containers/NewBill.js:66 | an empty or all-white-space percentage field gives 20 |
| `BillRecord.BuildBill` | src/containers/NewBill.js:56-71 | the record has status pending and the session email; the amount is the raw parse (NaN kept); pct is the parsed percentage, or 20 when the parse gives NaN or 0; fileUrl and fileName are the handler's values at build time; the text fields are copied |
| `NewBillSpec.SelectFile` | src/containers/NewBill.js:20-50 | the flag becomes exactly the acceptance of the name; an accepted file stages its name and a payload of exactly that file and email, with no alert; a rejected file raises one alert and clears the input, and keeps the staged name and payload; fileUrl and billId never change |
| `NewBillSpec.DispatchUpdate` | src/containers/NewBill.js:97-107 | without a store nothing happens; with one, the update call is issued with the bill id as selector, and settles into one Navigate(Bills) iff it succeeds, or logs the error |
| `NewBillSpec.SubmitBill` | src/containers/NewBill.js:52-94 | with the flag down, no effect and no field change; otherwise the upload of the staged payload comes first; a failed upload logs and changes nothing; a successful one sets billId and fileUrl from the reply, issues the update keyed by the new id with the record built before the upload, navigates at once, then navigates again iff the update succeeds and otherwise logs the update's error |
| `NewBillSpec.InitialConsistent` | src/containers/NewBill.js:13-16 | a fresh handler satisfies the invariant (nothing staged, flag down) |
| `NewBillSpec.SelectFilePreserves` | src/containers/NewBill.js:28-49 | a file selection keeps the invariant: name and payload staged together, for an accepted file, and the flag is up only with something staged |
| `NewBillSpec.SubmitBillPreserves` | src/containers/NewBill.js:74-92 | a submit keeps the invariant |
| `NewBillSpec.RunUploadsOnlyAcceptedFiles` | src/containers/NewBill.js:28-92 | over any sequence of selections and submits from a consistent state, every upload carries a staged payload with an accepted name, and every record sent to update names an accepted file |
| `NewBillSpec.SelectionsStageLastAccepted` | src/containers/NewBill.js:28-49 | after several selections, the flag reflects the last file; the staged name and payload are those of the last accepted file, or what was staged before; there is one alert per rejected file |
| `NewBillSpec.FirstUploadRecordsNoFileUrl` | src/containers/NewBill.js:59-89 | on a first upload, the record sent to update has a null fileUrl whatever URL the upload returned, the staged name and the new key as selector; the handler's own fields take the returned URL and key |
| `NewBillSpec.SecondUploadRecordsPreviousFileUrl` | src/containers/NewBill.js:68-89 | a second submit's record carries the URL returned by the first upload |
| `NewBillSpec.FreshSubmitTrace` | src/containers/NewBill.js:40-104 | on a fresh handler, an accepted file and a fully successful submit give exactly: input marked valid, Create(payload), Update(record with null URL, key), Navigate(Bills), Navigate(Bills) |
| `NewBillSpec.RejectedFileThenSubmit` | src/containers/NewBill.js:28-74 | on a fresh handler a rejected file changes no field and raises one alert, and a submit then does nothing |
| `NewBillContainer.NewBill.constructor` | src/containers/NewBill.js:5-18 | the fields start null, the misnamed isValidFormat is false, the flag the handlers read is down, and the trace is empty |
| `NewBillContainer.NewBill.HandleChangeFile` | src/containers/NewBill.js:20-50 | the fields and the trace become exactly those of SelectFile, and the invariant is kept |
| `NewBillContainer.NewBill.HandleSubmit` | src/containers/NewBill.js:52-94 | the fields and the trace become exactly those of SubmitBill, and the invariant is kept; a store must be present when the flag is up |
| `NewBillContainer.NewBill.UpdateBill` | src/containers/NewBill.js:97-107 | appends the update call when there is a store, and nothing otherwise; returns what the update's settlement triggers |
| `NewBillContainer.AcceptedFileScenario` | src/__tests__/NewBill.js:77-130 | on a fresh container, selecting "file.png" stages that name, raises the flag and shows no alert |
| `NewBillContainer.RejectedFileScenario` | src/__tests__/NewBill.js:132-183 | on a fresh container, selecting "file.xml" stages nothing, leaves the flag down and shows exactly one alert |

## Left out

- DOM work: the selectors, the event wiring in the constructor, and the
  `is-invalid`/`blue-border` classes. The two class changes are one
  `MarkFileInput` effect, and clearing the input's value is `ClearFileInput`.
- `Logout` wiring (src/containers/NewBill.js:17): `Logout.js` is not part of
  this model.
- Browser globals. `window.alert` and `console.error` are trace effects. The
  session user is passed in as its email string; a missing user, which makes
  the source fail on a null dereference, is the caller's obligation. `FormData`
  is the `Payload` datatype.
- Serialisation: `JSON.stringify` of the record is not modelled. `Update`
  carries the record itself.
- Promises: the store's answers are inputs (`CreateReply`, `UpdateReply`).
  Overlapping or in-flight submits are not modelled. An upload reply lacking
  `fileUrl` or `key` is not modelled either.
- A store missing while the flag is up makes the source throw synchronously.
  This is `HandleSubmit`'s precondition.
- A change event with no file (`files[0]` undefined) is not modelled. The
  handler always receives a file.
- `JsParseInt.ParseInt`: the result is an unbounded integer. The model does not
  capture the loss of precision of JavaScript numbers above 2^53, and it does
  not distinguish -0 from 0; both are falsy and both default `pct` to 20.
- `ROUTES_PATH` (`constants/routes.js`) is not part of this model. The bills
  route is the single value `Bills`.
- The bills list (ordering by date, rows, the amount format, the eye-icon
  modal) lives in `views/BillsUI.js` and `containers/Bills.js`. Those files are
  not part of this model.
