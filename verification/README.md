# Auto-parts inventory: a Dafny model of its core

The system is a small inventory manager for auto parts. It has an Express
backend and a Next.js frontend. This project models the core of both sides:

- **Request schemas** (`Validators`). The zod schemas for registering, logging
  in and describing a part. Issues are collected field by field, in schema
  order. Unknown keys are dropped.
- **Parts router** (`PartsRoutes`). `GET /`, `GET /:id`, `POST /`,
  `PUT /:id` and `DELETE /:id` over the parts table. The table is a map from
  id to row plus the next auto-increment id. The model includes the
  catch-all 500s the handlers actually produce.
- **Upload naming** (`Upload`). The stored name of an uploaded image:
  timestamp, dash, random number, then the original extension. The
  extension follows POSIX `path.extname` of Node.js.
- **Auth router** (`AuthRoutes`). Register, login, `isLoggedIn` and logout over
  the users table. Password hashing and token signing are abstract
  functions (`Crypto`). The session cookie is an instruction carried in the
  response.
- **Session guard** (`Session`). `requireAuth`: no cookie, a token that does
  not verify, or a verified user id.
- **Catalogue page** (`HomePage`). The search filter, the card gradients and
  the empty state.
- **Dashboard** (`Dashboard`). How the page's list changes after create,
  update and delete, the totals, and the row gradient.
- **Part form** (`PartForm`). The form's stricter schema, its blank values and
  what it resets to after a submit.
- **End-to-end requests** (`DashboardRequests`). The dashboard's create and
  update requests from form to route to list, as written and as intended.
- **Corrected handlers** (`PartsCorrected`). The parts handlers with the
  error handling the rest of the backend uses: itemised 400s for schema
  refusals (as the auth routes answer), `partSchema` made partial on update,
  and 404s for missing rows (as `GET /:id` answers). They sit next to the
  code as written.
- **Cross-request properties** (`PartsProperties`). Read-after-write, what
  writes leave alone, and idempotent updates.

A few things are parameters rather than behaviour:

- the clock (`now`, `timestamp`);
- the random draw for file names;
- the `API_BASE_URL` setting (`apiBaseEnv`, "" when unset);
- e-mail well-formedness (`isEmail`);
- bcrypt and JWT (`Crypto`);
- `JSON.parse` of a JSON body's `data` value (`parseText`).

`PartsRoutes` follows the parts handlers as written. Where they answer 500
for what auth.ts:22 treats as a 400 (a schema refusal) or what `GET /:id`
treats as a 404 (a missing row), `PartsCorrected` gives the evidently
intended answer, and the differences are listed under Findings.

## Model

| member | source | states |
|---|---|---|
| Validators.ParseRegister | auto-parts/backend/src/utils/validators.ts:3-7 | Accepts exactly when name has at least 2 characters, e-mail is well formed and password has at least 6; the parsed fields are the body's; a refusal carries at least one issue |
| Validators.ParseLogin | auto-parts/backend/src/utils/validators.ts:10-13 | Accepts exactly when the e-mail is well formed and the password has at least 6 characters; the parsed fields are the body's; a refusal carries issues |
| Validators.RegisterAcceptedLoginAccepted | auto-parts/backend/src/utils/validators.ts:3-13 | Every body the register schema accepts is accepted by the login schema with the same e-mail and password |
| Validators.ShortNameRegisterRefused | auto-parts/backend/src/utils/validators.ts:4 | A one-character name is refused with a single TooSmall issue on `name` while the same body logs in, so the implication above is strict |
| Validators.ParsePart | auto-parts/backend/src/utils/validators.ts:16-22 | Accepts exactly a non-empty name, optional string brand and category, price >= 0 and integral stock >= 0; the parsed part reads the body's fields |
| Validators.MinimalPartAccepted | auto-parts/backend/src/utils/validators.ts:18-21 | Brand and category may be left out, and price 0 with stock 0 is accepted |
| Validators.NullBrandRefused | auto-parts/backend/src/utils/validators.ts:18 | `null` is not an absent brand: the optional string refuses it with one InvalidType issue |
| Validators.NegativeFractionalStockIssues | auto-parts/backend/src/utils/validators.ts:20 | Stock -1.5 raises two issues on `stock`, one from the integer check and one from the lower bound |
| Upload.LastIndexOf | auto-parts/backend/src/routes/parts.ts:23 | The index found holds the character and no later position does; no index means the character does not occur |
| Upload.BasenameIsLastSegment | auto-parts/backend/src/routes/parts.ts:23 | The basename is the longest slash-free suffix of the path without its trailing slashes: it ends that path and is either all of it or preceded by a slash |
| Upload.ExtnameShape | auto-parts/backend/src/routes/parts.ts:23 | `path.extname` gives "" or one leading dot followed by neither dots nor slashes, ending the basename; it is "" exactly when the basename is ".." or has no dot after its first character (dot-files have no extension) |
| Upload.StoredNameKeepsExtension | auto-parts/backend/src/routes/parts.ts:22-26 | The stored name ends with the original extension, and taking its extension again gives it back |
| Upload.StoredNameIsPlain | auto-parts/backend/src/routes/parts.ts:22-25 | The stored name holds no slash, whatever the client's file name, so the file stays in the uploads directory |
| Upload.StoredNamesDiffer | auto-parts/backend/src/routes/parts.ts:24 | Two uploads of one file get the same stored name only when both their clock readings and their random draws are equal |
| Text.IncludesIffOccurs | auto-parts/frontend/src/pages/index.tsx:39 | `includes` holds exactly when the needle occurs at some position |
| Text.LowerIdempotent | auto-parts/frontend/src/pages/index.tsx:39 | Lower-casing twice is lower-casing once |
| Text.LowerOfConcat | auto-parts/frontend/src/pages/index.tsx:39 | Lower-casing distributes over the concatenation the search text is built from |
| Text.IncludesInPrefix | auto-parts/frontend/src/pages/index.tsx:39 | A needle included in a string is included in every extension of it |
| Text.DecimalRoundTrip | auto-parts/backend/src/routes/parts.ts:24 | Reading back the decimal digits written for a number gives the number |
| Text.DecimalInjective | auto-parts/backend/src/routes/parts.ts:24 | Different numbers are written as different digit strings |
| Session.RequireAuth | auto-parts/backend/src/middleware/auth.ts:11-21 | 401 "Not authenticated" exactly when the cookie is missing or empty; 401 "Invalid or expired token" exactly when it does not verify; otherwise proceeds with the verified user id |
| Session.VerifiedTokenProceeds | auto-parts/backend/src/middleware/auth.ts:13-17 | A non-empty token that verifies to a user id lets the request through with that id |
| PartsRoutes.Normalize | auto-parts/backend/src/routes/parts.ts:40-43 | The row is kept; `imageUrl` is the stored image, or the placeholder when the image is null or empty |
| PartsRoutes.ApiBaseFallback | auto-parts/backend/src/routes/parts.ts:97 | `API_BASE_URL` is used when set and non-empty, otherwise "http://localhost:5000"; the base is never empty |
| PartsRoutes.List | auto-parts/backend/src/routes/parts.ts:33-51 | 200 with every stored row exactly once, each normalised, ids distinct, newest first |
| PartsRoutes.Get | auto-parts/backend/src/routes/parts.ts:54-71 | 200 with the normalised row exactly when the id names a row; 404 "Part not found" for another integer; 500 for a non-integer id |
| PartsRoutes.ImagePath | auto-parts/backend/src/routes/parts.ts:80 | An image path exists exactly when a file was uploaded, and it is `/uploads/` plus the stored name |
| PartsRoutes.Create | auto-parts/backend/src/routes/parts.ts:75-103 | 201 exactly when `data` parses and the part schema accepts it, else the catch-all 500 with the table unchanged; the new row has the next id, the body's fields, the clock reading and the upload's path; the answer links the placeholder under the API base when there is no file; table validity and value constraints are kept |
| PartsRoutes.Apply | auto-parts/backend/src/routes/parts.ts:113-116 | Each column the update data names takes its value; every other column, the id and the creation time keep theirs |
| PartsRoutes.BodyFieldsOfData | auto-parts/backend/src/routes/parts.ts:109 | A missing or empty `data` contributes no fields; a parsed object contributes its own fields; other scalars and empty strings or arrays contribute none; unparsable text or a non-empty string or array makes the write fail |
| PartsRoutes.UpdateDataFileWins | auto-parts/backend/src/routes/parts.ts:111-115 | The written data has the body's keys plus `image` when a file came; the file's path wins over a body `image`; every other key keeps the body's value |
| PartsRoutes.Update | auto-parts/backend/src/routes/parts.ts:106-129 | 200 exactly when the row exists, `data` spreads to fields and the database accepts every field, else 500 with the table unchanged; only named columns change; the image is kept unless the body names it or a file arrives, and the file wins; the `imageUrl` formula; validity kept |
| PartsRoutes.Delete | auto-parts/backend/src/routes/parts.ts:132-141 | 200 "Deleted" exactly when the row exists, and only that row is removed; otherwise 500 with the table unchanged; validity and value constraints kept |
| PartsRoutes.Guard | auto-parts/backend/src/middleware/auth.ts:14-20 | A refused request gets the guard's 401 and leaves the table untouched; an admitted one gets the handler's outcome |
| PartsRoutes.PostPart | auto-parts/backend/src/routes/parts.ts:75 | Creating without a valid session answers 401 and changes nothing |
| PartsRoutes.PutPart | auto-parts/backend/src/routes/parts.ts:106 | Updating without a valid session answers 401 and changes nothing |
| PartsRoutes.DeletePart | auto-parts/backend/src/routes/parts.ts:132 | Deleting without a valid session answers 401 and changes nothing |
| PartsProperties.CreateThenGet | auto-parts/backend/src/routes/parts.ts:63-66 | A created part reads back under its new id as created; without a file the read links the bare placeholder where the create answer prefixed the API base |
| PartsProperties.CreateKeepsOthers | auto-parts/backend/src/routes/parts.ts:82-91 | A create leaves every other id reading as before |
| PartsProperties.DeleteThenGet | auto-parts/backend/src/routes/parts.ts:135 | After a delete the id reads as 404, a second delete of it is a 500, and every other id reads as before |
| PartsProperties.UpdateKeepsOthers | auto-parts/backend/src/routes/parts.ts:113-116 | An update leaves every other id reading as before |
| PartsProperties.StockOnlyUpdateKeepsImage | auto-parts/backend/src/routes/parts.ts:115 | A body naming only the stock, with no file, changes the stock and nothing else, so the image is kept |
| PartsProperties.ImageOnlyUpdate | auto-parts/backend/src/routes/parts.ts:111-121 | An update with no body and a file replaces the image and nothing else, and answers with the upload's path |
| PartsProperties.UpdateIdempotent | auto-parts/backend/src/routes/parts.ts:113-116 | Repeating an accepted update changes nothing more and gets the same answer |
| AuthRoutes.Find | auto-parts/backend/src/routes/auth.ts:16 | Finds a row with the given unique key (e-mail or id), or reports that no row has it |
| AuthRoutes.Register | auto-parts/backend/src/routes/auth.ts:13-26 | 400 with the schema's issues for a refused body; 400 "Email already used" for a taken e-mail; otherwise 200 with `{id, name, email}` (never the hash), and the user is appended under the next id with the password's hash; no cookie is set; table validity kept |
| AuthRoutes.Login | auto-parts/backend/src/routes/auth.ts:29-58 | 400 with issues for a refused body; 400 "Invalid credentials" for an unknown e-mail; in a valid table, for the stored user with that e-mail, 200 with the summary and a cookie holding a token signed for that user's id with a 7-day max age (604800000 ms) exactly when the password compares true, and otherwise the same "Invalid credentials" 400; every 200 is for a stored user whose hash matches; a 400 sets no cookie |
| AuthRoutes.LoginFailuresIndistinguishable | auto-parts/backend/src/routes/auth.ts:33-35 | A wrong password and an unknown e-mail get the very same response |
| AuthRoutes.IsLoggedIn | auto-parts/backend/src/routes/auth.ts:60-74 | The guard's 401 when it refuses; 200 with the live user's summary exactly when the token verifies to a stored id; 401 "User not found" otherwise |
| AuthRoutes.Logout | auto-parts/backend/src/routes/auth.ts:76-79 | 200 `{ok: true}` and an instruction to clear the session cookie |
| AuthRoutes.RegisterLoginSession | auto-parts/backend/src/routes/auth.ts:13-58 | If bcrypt compares true on its own hashes and a token verifies to the id it was signed for, then registering, logging in with the same body and calling `isLoggedIn` with the cookie yields the new user |
| AuthRoutes.LogoutEndsBrowserSession | auto-parts/backend/src/routes/auth.ts:76-79 | After logout the browser has no token, so `isLoggedIn` answers 401 "Not authenticated" |
| AuthRoutes.TokenOutlivesLogout | auto-parts/backend/src/routes/auth.ts:76-79 | Logout revokes nothing on the server: a copy of a token that still verifies keeps opening the session |
| HomePage.Filtered | auto-parts/frontend/src/pages/index.tsx:38-40 | A part is shown exactly when its lower-cased "name brand category" text contains the lower-cased query |
| HomePage.NameMatchShown | auto-parts/frontend/src/pages/index.tsx:38-40 | A part whose name contains the query, ignoring case, is shown whatever its brand and category |
| HomePage.FilteredIsSubsequence | auto-parts/frontend/src/pages/index.tsx:38-40 | The filter only leaves parts out and keeps the order of the rest |
| HomePage.EmptyQueryKeepsAll | auto-parts/frontend/src/pages/index.tsx:37-40 | The initial empty query shows every part |
| HomePage.FilterIdempotent | auto-parts/frontend/src/pages/index.tsx:38-40 | Filtering twice with the same query is filtering once |
| HomePage.FilterIgnoresQueryCase | auto-parts/frontend/src/pages/index.tsx:39 | Queries with the same lower-case form show the same parts |
| HomePage.FilterLowerQuery | auto-parts/frontend/src/pages/index.tsx:39 | The query may be replaced by its lower-case form |
| HomePage.CardGradient | auto-parts/frontend/src/pages/index.tsx:18-34 | The card at position `i` gets gradient `i` mod 15, always one of the fifteen |
| HomePage.Cards | auto-parts/frontend/src/pages/index.tsx:57-58 | One card per shown part, in order; card i has colour `colors[i % colors.length]` |
| HomePage.CardColorsCycle | auto-parts/frontend/src/pages/index.tsx:57-58 | The first card has the palette's first colour, and cards fifteen places apart share a colour |
| HomePage.EmptyStateIffNoMatch | auto-parts/frontend/src/pages/index.tsx:91-93 | "No parts found" shows exactly when no part matches the query |
| Dashboard.AfterCreate | auto-parts/frontend/src/pages/dashboard.tsx:63-70 | A created part is put at the front of the list; a failure changes nothing |
| Dashboard.AfterUpdate | auto-parts/frontend/src/pages/dashboard.tsx:72-81 | Nothing changes without a part being edited or when the request fails; otherwise entries with the returned id are replaced and editing ends |
| Dashboard.ReplaceById | auto-parts/frontend/src/pages/dashboard.tsx:76 | Same length; every entry with the updated id becomes the updated part and every other entry stays |
| Dashboard.AfterDelete | auto-parts/frontend/src/pages/dashboard.tsx:83-91 | Only a confirmed, successful delete removes entries with the id; the editing state is kept |
| Dashboard.RemoveById | auto-parts/frontend/src/pages/dashboard.tsx:87 | Keeps exactly the entries with another id |
| Dashboard.RemoveKeepsOrder | auto-parts/frontend/src/pages/dashboard.tsx:87 | Removing keeps the order of the entries left |
| Dashboard.CreateThenDeleteRestores | auto-parts/frontend/src/pages/dashboard.tsx:66-87 | Deleting a just-created part with a fresh id restores the list |
| Dashboard.UpdateReplacesOnlyThatId | auto-parts/frontend/src/pages/dashboard.tsx:76 | After an update the list keeps its length, and only entries with the updated id change |
| Dashboard.Categories | auto-parts/frontend/src/pages/dashboard.tsx:93-94 | The category count is the number of distinct labels, with "Uncategorized" for a missing or empty category; it is at most the total and at least 1 for a non-empty list |
| Dashboard.Distinct | auto-parts/frontend/src/pages/dashboard.tsx:94 | `Array.from(new Set(xs))` holds exactly the values of `xs`, each once, and is no longer than `xs` |
| Dashboard.DistinctLabelsCount | auto-parts/frontend/src/pages/dashboard.tsx:94 | The deduplicated label list is as long as the set of labels |
| Dashboard.JsRemainder | auto-parts/frontend/src/pages/dashboard.tsx:122 | JavaScript `%`, truncating toward zero: the mathematical remainder on non-negative numbers; on a negative dividend a the negation of (-a) % b, a value in (-b, 0], so the sign follows the dividend |
| Dashboard.JsRemainderOfNegation | auto-parts/frontend/src/pages/dashboard.tsx:122 | Negating the dividend negates the remainder; `-7 % 10` is -7, where the Euclidean remainder is 3 |
| Dashboard.GradientIndex | auto-parts/frontend/src/pages/dashboard.tsx:122 | A non-negative id picks one of the ten gradients; a negative id that is not a multiple of ten picks a negative index, which has no gradient |
| PartForm.ParseForm | auto-parts/frontend/src/components/PartForm.tsx:7-18 | Accepts exactly non-empty name, brand and category, a positive price and a positive integral stock; the submitted values are the form's |
| PartForm.AcceptedIsSubmittable | auto-parts/frontend/src/components/PartForm.tsx:7-18 | Every accepted submit carries values within the schema's bounds |
| PartForm.InputValueRoundTrip | auto-parts/frontend/src/components/PartForm.tsx:7-18 | Values within the bounds, written back as an object, parse to themselves |
| PartForm.FormAcceptedBackendAccepted | auto-parts/frontend/src/components/PartForm.tsx:7-18 | Whatever the form accepts, the backend part schema accepts with the same fields |
| PartForm.ZeroPriceOnlyBackend | auto-parts/frontend/src/components/PartForm.tsx:12 | A zero price passes the backend schema but the form refuses it with one issue on `price` |
| PartForm.BlankRefused | auto-parts/frontend/src/components/PartForm.tsx:36-42 | The blank values fail with TooSmall on name, brand and category |
| PartForm.ResetValues | auto-parts/frontend/src/components/PartForm.tsx:50-53 | After a submit in add mode the form holds the blank values, which the form schema refuses; in edit mode it holds the edited part again |
| DashboardRequests.Reply | auto-parts/frontend/src/lib/api.ts:19-34 | The page gets a part exactly for a 2xx answer carrying one, and gets that part |
| DashboardRequests.CreateFromDashboardFails | auto-parts/frontend/src/pages/dashboard.tsx:63-70 | As written, creating from the dashboard never stores anything: the answer is 401 or 500 and the page's list is unchanged |
| DashboardRequests.UpdateFromDashboardIsLost | auto-parts/frontend/src/pages/dashboard.tsx:72-81 | As written, an edit never changes the table: without a session the guard answers 401 and the page keeps its list; with one the route answers 200, writes nothing, and the page shows the stored part in place of the edited one |
| DashboardRequests.SubmittedCreateIsStored | auto-parts/frontend/src/pages/dashboard.tsx:63-70 | With the intended request, a submitted form is stored as entered under the next id with the upload's path, and it is shown first |
| DashboardRequests.SubmittedUpdateIsStored | auto-parts/frontend/src/pages/dashboard.tsx:72-81 | With the intended request, an edit is stored as entered, the image changes only with an upload, and the page shows the written part |
| PartsCorrected.ParsePartial | auto-parts/backend/src/utils/validators.ts:16-22 | The partial schema accepts exactly the bodies whose present fields pass the part schema's checks; the result holds exactly the known keys present, with their values, and they are writable |
| PartsCorrected.CreateChecked | auto-parts/backend/src/routes/parts.ts:75-103 | 400 with the schema's issues exactly when `data` parses and the schema refuses it, with the table unchanged; otherwise as written; value constraints kept |
| PartsCorrected.WriteChecked | auto-parts/backend/src/routes/parts.ts:106-129 | Once the body passes: 500 for a non-integer id, 404 exactly for a missing integer id, 200 exactly for a stored row, written as the request gives; validity and value constraints kept |
| PartsCorrected.UpdateChecked | auto-parts/backend/src/routes/parts.ts:106-129 | 400 with issues exactly for a body the partial schema refuses; 404 exactly for a missing integer row once the body passes; 200 exactly for a stored row with parsable data; 500 for unparsable `data` or a non-integer id; the table changes only on 200, and then only in the columns the request gives, the image replaced by an upload or kept; validity and value constraints kept |
| PartsCorrected.DeleteChecked | auto-parts/backend/src/routes/parts.ts:132-141 | 404 exactly for a missing integer id, with the table unchanged; otherwise as written |
| PartsCorrected.UnvalidatedPriceBreaksSoundness | auto-parts/backend/src/routes/parts.ts:109-116 | As written, `{"price": -5}` is stored and breaks the value constraints; the checked update refuses it with one issue on `price` |
| PartsCorrected.InvalidCreateIsServerError | auto-parts/backend/src/routes/parts.ts:77-78 | As written, a body with an empty name ends in the catch-all 500; the checked create answers 400 with one issue on `name` |
| PartsCorrected.MissingRowIsServerError | auto-parts/backend/src/routes/parts.ts:113-140 | As written, updating or deleting a missing row is a 500; the checked handlers answer 404 |
| PartsCorrected.CheckedUpdateKeepsSound | auto-parts/backend/src/routes/parts.ts:75-141 | No create, update or delete request to the checked handlers, at any clock reading, can make the table violate the value constraints |

## Left out

- Databases, the file system and the network are not modelled: Prisma, the Multer disk writes, `getServerSideProps` and `fetchParts`. Store operations do not fail on their own, so the model has no 500 for a database outage.
- Clock, randomness and environment are parameters: `Date.now()`, `Math.random()`, `API_BASE_URL`, `JWT_SECRET` and `COOKIE_NAME`. The range of `Math.round(Math.random() * 1e9)` is not constrained.
- bcrypt and JWT are abstract functions. Salt, cost factor, signature and token expiry are not modelled. The properties that need them (a hash compares true; a signed token verifies) appear only as preconditions of the flow lemmas.
- Cookie attributes `httpOnly`, `secure` and `sameSite` are not modelled. Only setting and clearing the session cookie, and its max age, are.
- PartsRoutes.List: requires the table invariant (each row under its id). The order among rows with the same `createdAt` is left open, as the database leaves it.
- PartsRoutes.Update: the database accepts only the six content columns, with their types. Writes to `id`, `createdAt` or other keys always count as errors. A price given as a numeric string, which Prisma's Decimal would accept, is refused. Prisma's atomic-operation objects in update data (`{"stock": {"decrement": 10}}`, `{"name": {"set": "x"}}`) are refused with 500 here, while the database layer would write them and answer 200; a decrement can so make stock negative. The Prisma schema is not part of this model, so the model follows the plain column types.
- PartsRoutes.Create: integer columns are unbounded. Prisma `Int` columns are 32-bit, so a `stock` of 3000000000 passes `partSchema` (validators.ts:20 sets no upper bound) but the insert fails with 500, where the model answers 201.
- PartsRoutes.Get: ids are unbounded. `GET /parts/3000000000` fails in the database layer with 500, where the model answers 404; the same holds for update and delete.
- PartsRoutes.Part: price is an exact rational. Decimal precision and JSON number formatting are not modelled.
- JsValue.Value: numbers are exact rationals. The only non-finite value is NaN; there is no Infinity and no -0.
- Text.Lower: lower-cases ASCII letters only. String lengths count characters, not UTF-16 code units.
- Session.RequireAuth: a payload without `userId` makes the source continue with an undefined id. Here `verify` returns an id or nothing.
- AuthRoutes.Register: the 500 branch for non-zod errors is not modelled. Neither is the race between the e-mail lookup and the insert.
- PartForm: react-hook-form's rendering, its per-field messages and the `useEffect` reset on prop change are not modelled. An empty number input (NaN under `valueAsNumber`) is covered only as a non-number.
- zod's issue messages and the extra fields of an issue are not modelled. Only path and kind are.
- Pages outside the core are not part of this model: login, register, the part detail page and the analytics bar.

## Findings

| source | as written | input that shows it | evidently intended | confidence | as-written member | corrected member |
|---|---|---|---|---|---|---|
| auto-parts/frontend/src/pages/dashboard.tsx:63-70 | `createPart` sends the form values as a JSON body, but the create route parses `req.body.data` (parts.ts:77), which is then missing | any valid form, e.g. name "Pad", brand "Bosch", price 10, stock 3, category "Brakes" | send a multipart form whose `data` field holds the values as JSON | high (not executed) | DashboardRequests.CreateFromDashboardFails | DashboardRequests.SubmittedCreateIsStored |
| auto-parts/frontend/src/pages/dashboard.tsx:72-81 | `updatePart` sends a JSON body; the update route reads `req.body.data \|\| "{}"` (parts.ts:109), writes nothing and answers 200 | editing a stored part's name to "Rotor" | the same multipart request as for create | high (not executed) | DashboardRequests.UpdateFromDashboardIsLost | DashboardRequests.SubmittedUpdateIsStored |
| auto-parts/backend/src/routes/parts.ts:109-116 | the update body is spread into the write without validation | `{"price": -5}` on a stored part | check the body against the partial part schema and answer 400 | high (not executed) | PartsCorrected.UnvalidatedPriceBreaksSoundness | PartsCorrected.UpdateChecked |
| auto-parts/backend/src/routes/parts.ts:77-78 | a body the part schema refuses falls into the catch-all 500 | `{"name": "", "price": 1, "stock": 1}` | answer 400 with the issues, as the auth routes do | medium (not executed) | PartsCorrected.InvalidCreateIsServerError | PartsCorrected.CreateChecked |
| auto-parts/backend/src/routes/parts.ts:113-127 | updating a missing id fails in the database and ends in the catch-all 500 | `PUT /parts/0` on an empty table | answer 404 "Part not found", as `GET /:id` does | medium (not executed) | PartsCorrected.MissingRowIsServerError | PartsCorrected.UpdateChecked |
| auto-parts/backend/src/routes/parts.ts:135-140 | deleting a missing id fails in the database and ends in the catch-all 500 | `DELETE /parts/0` on an empty table | answer 404 "Part not found" | medium (not executed) | PartsCorrected.MissingRowIsServerError | PartsCorrected.DeleteChecked |
