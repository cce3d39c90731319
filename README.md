# Bike shop: a Dafny model of the bike API and the test-drive form

The bike shop is a small Flask service over one MongoDB collection of bikes,
plus a marketing site whose script checks a test-drive booking form in the
browser. This project models two parts of it and proves properties of them.

- **The bike routes of `app.py`.** These are create (with its ordered body
  checks), list, lookup by model, partial update by identifier and delete by
  identifier, together with the `serialize_doc` helper. They run over an
  abstract collection: a `BikeStore` class whose `bikes` field is the stored
  documents in natural order. What MongoDB does is read as a short list of
  assumptions, which the head of `bikeapi.dfy` states.
- **The submit handler of the test-drive form in `static/main.js`.** This is
  the clearing loop over `.error-message` elements, the five field checks
  with their messages, and the decision to cancel the submission. The page is
  reduced to the text of its elements by id.

Modules:

| module | file | content |
|---|---|---|
| `Wrappers` | wrappers.dfy | `Option` |
| `Ascii` | ascii.dfy | ASCII lower-casing, the `i` option of the regex |
| `ObjectIds` | objectids.dfy | BSON object identifiers: 24 hex digits, parsed case-insensitively to the lower-case form |
| `Json` | json.dfy | request and document values, Python truthiness, `isinstance(x, (int, float))`, the int64 limit, `str()` of a scalar |
| `Documents` | documents.dfy | `serialize_doc` (a function and an in-place method on a `Dict` object), the `$set` merge and its modified count |
| `Responses` | responses.dfy | responses: a status with a JSON body, or an uncaught exception that the route turns into a 500 |
| `NewBike` | newbike.dfy | the three ordered checks of a create request, with Python's `in` on strings, lists and dictionaries |
| `BikeApi` | bikeapi.dfy | the collection and the five routes |
| `JsText` | jstext.dfy | ECMAScript white space and `String.prototype.trim` |
| `Patterns` | patterns.dfy | the email and phone regular expressions, each with a plain characterisation |
| `TestDrive` | testdrive.dfy | the field messages and the page class with the submit handler |

Inputs the code reads from outside are parameters:

- The request body is a parsed JSON `Value`. `Null` stands for the `None`
  that `request.get_json()` returns for a JSON `null` body, and for an
  absent body in the Flask versions that return `None` there.
- Whether the store can be reached is a boolean `outage` on each route.
- The identifier the driver would generate for a new document is the
  parameter `generated`.
- The five input values of the form are a `Submission`.

## Model

| member | source | states |
|---|---|---|
| Documents.Serialized | app.py:25-28 | `serialize_doc` keeps every key and every value other than `_id`, and replaces `_id`, when present, by the text `str()` gives; the result again has a scalar `_id` |
| Documents.SerializedIdempotent | app.py:25-28 | serializing an already serialized document changes nothing |
| Documents.SerializeDoc | app.py:25-28 | the helper updates the dictionary in place to its serialized form and returns the same object; `None` comes back untouched |
| Documents.SetFields | app.py:110-113 | the `$set` merge: every submitted field other than `_id` takes the submitted value, every other field keeps its value, and the key set is the old keys plus the submitted ones other than `_id` |
| Documents.ChangesIffDiffers | app.py:110-117 | the modified count is positive exactly when the merge yields a different document, in both directions |
| Documents.SetFieldsIdempotent | app.py:110-117 | sending the same update a second time leaves the document as it is and counts as no modification, which leads to the 404 reply |
| ObjectIds.Parse | app.py:99-102 | a segment is accepted as an identifier exactly when it is 24 hexadecimal digits; the result is canonical and equal to the input ignoring case |
| ObjectIds.ParseToText | app.py:100 | the text of every identifier parses back to the same identifier; identifiers are canonical by type |
| ObjectIds.ParseIgnoresCase | app.py:100 | upper- and lower-case spellings of an identifier parse to the same identifier |
| ObjectIds.NotAnIdIsRejected | app.py:99-102 | `"not-an-id"` and 24 non-hex characters are refused |
| NewBike.MissingFieldsExact | app.py:60-61 | the fields reported as missing are exactly the required fields that `in` does not find in the body |
| NewBike.MissingFieldsInOrder | app.py:60-61 | the missing fields are reported in the fixed order make, model, price, type |
| NewBike.ValidateNewBike | app.py:57-66 | the create checks in order: a falsy body gives 400 "No data provided in request body"; a truthy body without `in` is an exception; missing fields give 400 naming them; a string or list holding all four names fails at `.get`; a price that is not an int, float or bool gives 400 "Price must be a number"; a body is accepted exactly when it is a dictionary with all four fields and a numeric price, and its dictionary is what gets stored |
| NewBike.MissingTwoFields | app.py:62-63 | a body with make and price only gets "Missing required fields: model, type" |
| NewBike.BooleanPriceIsANumber | app.py:65-66 | a boolean price passes the number check and a price given as a string does not |
| BikeApi.FirstIndex | app.py:89 | `find_one` yields the first bike that matches: it matches, none before it does, and no result means no bike matches |
| BikeApi.FirstWithIdIsOnly | app.py:110-113 | in a collection of distinct identifiers, a bike with an identifier is found exactly when one exists, and it is the only one |
| BikeApi.Listed | app.py:80-82 | the listing has one entry per stored bike, in collection order, each the bike's fields with its `_id` as text |
| BikeApi.SerializedStoredBike | app.py:81 | `serialize_doc` on a stored document turns its identifier into text and keeps every field |
| BikeApi.ListedIdsParseBack | app.py:81 | the listed `_id` text of a bike with an object identifier parses back to that identifier, so it addresses the same bike in an update or a delete |
| BikeApi.ListedEmpty | app.py:80-82 | an empty collection lists as an empty array |
| BikeApi.ListedAfterInsert | app.py:69-82 | after a successful create, the listing is the earlier listing followed by the new bike with its identifier as text, the text the create reply returned |
| BikeApi.ModelLookupExamples | app.py:89 | the model lookup ignores case and is anchored at both ends: "trek520" and "TREK520" find "Trek520", while "trek52" and "xtrek520" do not |
| BikeApi.RemoveAtKeepsOthers | app.py:123 | removing one bike keeps the collection well formed, leaves no bike with that identifier, and keeps every other bike |
| BikeApi.BikeStore.Create | app.py:52-76 | a refused body changes nothing and gets the refusal; an unreachable store or an integer beyond int64 is a 500; a duplicate or unusable `_id` is a 500 with nothing stored; otherwise exactly one bike is appended under the submitted or generated identifier, with the reply 201 {"message": "Bike added successfully!", "inserted_id": its text} |
| BikeApi.BikeStore.List | app.py:78-84 | 200 with the listing of every stored bike, or a 500 when the store cannot be reached |
| BikeApi.BikeStore.FindByModel | app.py:86-95 | 200 with the serialized first bike whose model matches, 404 "Bike not found" when none does, 500 when the store cannot be reached; a string `model` matches when it equals the name ignoring case, or does so once a final newline is dropped, since `$` also matches before one; an array `model` matches when one of its strings does; any other `model` never matches |
| BikeApi.BikeStore.Update | app.py:98-119 | a malformed identifier gives 400 before anything else; a falsy body gives 400; a body the store cannot apply is a 500; otherwise the one bike with that identifier is merged and answered with 200 when some field changes; no such bike, or no change, gives 404 with the bike's identifier in the message; the reply is 200 exactly when these conditions hold, and any other reply leaves the collection unchanged |
| BikeApi.BikeStore.Delete | app.py:121-129 | a malformed identifier gives 400, as checked at app.py:99-102; the bike with that identifier, if any, is removed with 200, otherwise 404; the reply is 200 exactly when such a bike existed; afterwards no bike has it and every other bike is kept |
| Ascii.ToLower | app.py:89 | the case folding of the `i` option keeps the length, maps each ASCII capital to the lower-case letter at the same position of the alphabet, keeps every other character, and leaves no capital |
| Json.NatTextValue | app.py:72 | the decimal text `str()` gives a non-negative integer spells that integer, with no leading zero |
| JsText.TrimStart | static/main.js:116 | the result is a suffix of the input, what was dropped is all white space, and the result does not start with white space |
| JsText.TrimEnd | static/main.js:116 | the result is a prefix of the input, what was dropped is all white space, and the result does not end with white space |
| JsText.TrimEmptyIff | static/main.js:116 | a value trims to the empty string exactly when it is all white space |
| Patterns.EmailPatternIff | static/main.js:122 | the email pattern accepts exactly the strings with no white space, exactly one `@` with something before it, and after it a `.` that is neither first nor last |
| Patterns.EmailExamples | static/main.js:122 | "a@b.c" matches the email pattern and "a@b" does not |
| Patterns.RepeatDigitsIff | static/main.js:131 | `\d{n}` anchored at both ends matches exactly the strings of n ASCII digits |
| Patterns.PhonePatternIff | static/main.js:131 | the phone pattern accepts exactly ten ASCII digits |
| Patterns.PaddedPhoneRejected | static/main.js:134 | the phone pattern is tested on the untrimmed value, so a leading or trailing space makes it fail |
| TestDrive.NameMessageMeaning | static/main.js:115-118 | a name that is all white space gets "Full name is required.", and any other name gets no message |
| TestDrive.EmailMessageMeaning | static/main.js:120-127 | an email that is all white space is reported as missing and nothing else; any other email is reported as invalid exactly when it fails the email shape |
| TestDrive.PhoneMessageMeaning | static/main.js:129-136 | a phone number that is all white space is reported as missing; any other is reported as invalid exactly when it is not ten ASCII digits |
| TestDrive.AcceptedIff | static/main.js:104-150 | the form gets no message exactly when the name is not all white space, the email is not blank and has the email shape, the phone is ten digits, and a bike and a date are chosen |
| TestDrive.FieldErrorIdsDistinct | static/main.js:117-145 | the five error elements are distinct |
| TestDrive.Cleared | static/main.js:106 | clearing empties every listed element and leaves every other element's text |
| TestDrive.ShownTexts | static/main.js:110-146 | after the five checks each field's element shows its message when the field failed and keeps its text otherwise; no other element changes |
| TestDrive.OutcomeDependsOnlyOnSubmission | static/main.js:106-146 | when every field's error element is of class `error-message`, what the five elements show after a submission depends on that submission alone: two pages with any earlier texts show the same five texts |
| TestDrive.SameShownAfterCleared | static/main.js:106-146 | two cleared pages, whatever their earlier texts, show the same five field texts for the same messages |
| TestDrive.ShownAfterCleared | static/main.js:106-146 | after the clearing loop and the five checks, each field's error element shows exactly that field's message, "" when it passed |
| TestDrive.TestDrivePage.ShowError | static/main.js:110-113 | `showError` sets the text of one element and nothing else; the `isValid` flag it sets to false is the `failed` result of each check |
| TestDrive.TestDrivePage.ClearErrors | static/main.js:106 | the loop over `.error-message` elements leaves the page's texts cleared as `Cleared` states |
| TestDrive.TestDrivePage.ValidateName | static/main.js:115-118 | the name check writes its message exactly when the field fails |
| TestDrive.TestDrivePage.ValidateEmail | static/main.js:120-127 | the email check writes at most one message, the missing one before the invalid one |
| TestDrive.TestDrivePage.ValidatePhone | static/main.js:129-136 | the phone check writes at most one message, the missing one before the invalid one |
| TestDrive.TestDrivePage.ValidateBike | static/main.js:138-141 | the bike check fails exactly on an empty value, untrimmed |
| TestDrive.TestDrivePage.ValidateDate | static/main.js:143-146 | the date check fails exactly on an empty value, untrimmed |
| TestDrive.TestDrivePage.Submit | static/main.js:104-150 | the handler clears every error element, then shows each failing field's message, and lets the submission through exactly when no field failed |

## Left out

- The EMI calculator, the mobile menu and the opening of the script in
  `static/main.js`: they are outside this model. So are the DOM lookups of
  the form and its inputs, which become the `Submission` value.
- Flask routing and `request.get_json()`. The body arrives already parsed.
  A body that is not valid JSON, or one sent without a JSON content type,
  makes `get_json` raise inside the route's `try`, which gives a 500. The
  model does not include that path.
- The routes `/` and `/api/v1`, the `.env` loading, the `MONGO_URI` check at
  start-up and the connection to MongoDB: they reduce to configuration and
  constant replies.
- The text of an exception in a 500 reply. A `Crash` names the kind of
  failure, not Python's or the driver's message.
- BikeApi.BikeStore.FindByModel: the name is read as literal text. The route
  puts it into a regular expression without escaping it, and that
  interpretation of metacharacters is not modelled.
- BikeApi.ModelTextMatches: case folding covers ASCII letters only. The
  store's folding of other letters is not modelled.
- BikeApi.BikeStore.Create: a client `_id` that is an object is refused like
  an array. The store accepts some objects as identifiers; the model does
  not.
- ObjectIds.Parse: only the 24-hex-digit text form is accepted. The
  library's text constructor checks only for 24 characters and then decodes
  the hex digits in a way that also allows ASCII white space between digit
  pairs, so a 24-character segment such as two spaces followed by 22 hex
  digits raises no InvalidId. The model answers such segments with a 400,
  where the route goes on to the store call. The driver also builds
  identifiers from 12-byte values, which a URL segment cannot carry.
- BikeApi.BikeStore.Update: field names containing `.` or starting with `$`,
  and the empty field name, are treated as plain names. The store would read
  them as paths or operators, or reject them; it refuses an empty name, which
  the route answers with a 500 where the model merges the field and may
  answer 200.
- BikeApi.BikeStore.Update: embedded objects are compared as unordered maps,
  so a reordered embedded document counts as unchanged and gets 404. The
  store keeps field order and would report a modification and answer 200.
- BikeApi.BikeStore.Create and BikeApi.BikeStore.Update: only the int64 limit
  is modelled among the BSON encoder's refusals. A key containing U+0000, at
  any depth, makes the encoder raise, so the route answers 500 and stores
  nothing, where the model stores the bike (201) or merges the field (200).
- Json.Value: floats are kept as their text, so the two zero spellings are
  falsy. NaN, infinities and float arithmetic are not modelled.
- BikeApi.BikeStore.Create and BikeApi.BikeStore.Update check an
  unreachable store before an unusable value. The driver's own order for
  these two failures is not modelled; both end in a 500.
- Documents.Serialized: only documents with a scalar `_id` are covered. No
  document the model stores has another kind, because Create refuses them,
  and `str()` of a list or a dictionary is not modelled.
- BikeApi.BikeStore.Create: identifiers are compared structurally, so the
  integer 1 and the float 1.0, or 0 and -0.0, never collide in the model.
  The store's unique `_id` index compares numbers by value and would refuse
  the second of two such creates with a duplicate-key error.
- TestDrive.TestDrivePage.Valid: all five error elements are assumed to
  exist. In the page, a missing one makes `showError` throw at main.js:111;
  the handler then stops before `preventDefault`, so the form is submitted
  even though a field failed. That path is not modelled.
- Concurrency between requests: each route runs as one atomic step on the
  collection.
