# Complaint-tracking backend: request policy model

This project models the request-policy layer of a small complaint-tracking
backend (`backend/server.js`). Students register, log in and submit
complaints. Administrators list every complaint, filter the list by status
and change a complaint's status. The model is a state machine over an
abstract store with two collections:

- a user table keyed by normalised email;
- the complaint collection in insertion order, where each complaint has an
  id, a creation stamp, an owner id and a status. The status may be null,
  which an update without a status can leave behind.

Each of the six operations returns an HTTP status code and a JSON payload.
The operations are the bearer-token gate, register, login, submit complaint,
list complaints and update status.

Layout, one module per file:

- `wrappers.dfy` (`Wrappers`): `Option`, which stands for JavaScript's `undefined`, and `Result`.
- `text.dfy` (`Text`): the JavaScript string built-ins the handlers use. These are
  `trim`, `toLowerCase`, `startsWith` and `split`, plus the ECMAScript whitespace
  set that `trim` and `\s` share.
- `email.dfy` (`Email`): the regular expression `^\S+@\S+\.\S+$` written as a
  predicate. Beside it is a one-pass check, with a proof that the two accept the same strings.
- `records.dfy` (`Records`): users, complaints, the caller identity, request
  bodies and responses. bcrypt and JWT appear as a datatype of functions
  (`Crypto`) together with the assumptions the handlers make about them (`Sound`).
- `gate.dfy` (`Gate`): `authMiddleware`.
- `query.dfy` (`Query`): the filter object, `find`, `sort({createdAt: -1})`, and the
  role-based listing.
- `backend.dfy` (`Backend`): class `Server`. Its fields are the two collections and the
  id and stamp counters. Its methods are the route handlers. Each
  state-changing method states the whole new state and keeps `Valid()`. `Valid()`
  requires emails to be the keys they are filed under, and those keys to be
  normalised. Complaint ids must be distinct, and stamps must grow in
  insertion order.
- `scenarios.dfy` (`Scenarios`): callers that chain several requests. One is a
  registration followed by a login whose token passes the gate. Others are a
  duplicate registration, a submission, and an admin resolving a complaint
  and then listing it.

Behaviours of the code worth knowing, all of them modelled:

- Both refusals of the gate are 401, with different messages. A missing
  header, or one without the `Bearer ` prefix, gets "Unauthorized". A token
  that fails verification gets "Invalid token".
- Login tells "User not found" apart from "Invalid password".
- Submission spreads the body into the new record, so a `status` sent by
  the client is kept. "Pending" is the schema default, used only when the
  body has no status. Only `userId` is always overwritten, with the caller's id.
- The complaint schema requires `name`. A submission with only category,
  description and priority fails validation and gets 500 "Failed to submit
  complaint". See `Scenarios.SubmitAsStudent`.

## Model

| member | source | states |
|---|---|---|
| `Text.Trim` | backend/server.js:67-69 | The trimmed string has no whitespace at either end and is no longer than the input. |
| `Text.TrimIsCut` | backend/server.js:67-69 | Trimming removes only whitespace, and only at the ends: the result is a slice of the input with whitespace on both sides of it. |
| `Text.StartsWith` | backend/server.js:45 | A string that starts with `p` is `p` followed by the rest of it. |
| `Text.StartsWithConcat` | backend/server.js:45 | `p + rest` starts with `p`, so a header built as `Bearer <token>` passes the prefix test. |
| `Text.Lower` | backend/server.js:68 | Lowercasing keeps the length and maps every character through the ASCII lowercase mapping. |
| `Text.NormalizeIsNormalized` | backend/server.js:68 | Every `trim().toLowerCase()` result has no whitespace at either end and no ASCII capital letter. |
| `Text.NormalizedIsFixed` | backend/server.js:112 | A normalised email comes back unchanged when it is normalised again. This is why login's lookup finds what register stored. |
| `Text.NormalizeIdempotent` | backend/server.js:68 | Normalising twice gives the same result as normalising once. |
| `Text.Split` | backend/server.js:49 | `split(" ")` returns at least one piece. No piece contains the separator. The first piece is the longest separator-free prefix. |
| `Text.JoinSplit` | backend/server.js:49 | Joining the pieces of a split with the separator gives back the original string. |
| `Text.SplitAfterPrefix` | backend/server.js:49 | A separator-free prefix followed by the separator becomes the first piece, and the remainder is split independently. |
| `Email.IsEmailFormat` | backend/server.js:76-77 | The test register calls. An accepted email contains no whitespace, is at least five characters long, has an `@` after its first character, and contains a `.`. Its exact extent is `Email.EmailFormatMatchesRegex`. |
| `Email.EmailFormatMatchesRegex` | backend/server.js:76-79 | The one-pass check accepts exactly the strings that `^\S+@\S+\.\S+$` matches. |
| `Email.EmailFormatExamples` | backend/server.js:76 | `a@@b.c` and `a@x.com` are accepted. `a@b`, `a b@c.d`, `@b.c` and `a@.c` are rejected. |
| `Gate.TokenField` | backend/server.js:49 | `split(" ")[1]`: a token found there contains no space, and a header with no space has no token (`undefined`). |
| `Gate.Authenticate` | backend/server.js:42-58 | A missing header, or one without the `Bearer ` prefix, gets 401 "Unauthorized". Every refusal is a 401. An admitted caller is exactly what `jwt.verify` decoded from the second space-separated field. |
| `Gate.GateOnBearerHeader` | backend/server.js:45-57 | For a header with the prefix, the result depends only on the longest space-free run after `Bearer `. If it verifies, its identity is admitted. Otherwise the answer is 401 "Invalid token". |
| `Gate.IssuedTokenAuthenticates` | backend/server.js:127-131 | A token signed over `{id, role}`, sent as `Bearer <token>`, is admitted as exactly that identity. |
| `Gate.EmptyTokenRefused` | backend/server.js:49-56 | A bare `Bearer ` header gets 401 "Invalid token". |
| `Query.BuildFilter` | backend/server.js:166-179 | An admin's filter never restricts the owner, and a non-admin's never restricts the status. A complaint matches the admin's filter exactly when one of two things holds: the status parameter is missing, "" or "All", or the complaint has that status. A complaint matches a non-admin's filter exactly when the caller owns it. |
| `Query.Find` | backend/server.js:174 | `find(filter)` returns each matching complaint as often as it is stored, and nothing else. |
| `Query.FindAscending` | backend/server.js:174 | `find` keeps stored order, so increasing creation stamps stay increasing. |
| `Query.Insert` | backend/server.js:174 | Inserting into a newest-first sequence keeps it newest-first and adds exactly the one element. |
| `Query.SortNewestFirst` | backend/server.js:174 | `sort({createdAt: -1})` returns a permutation of its input with creation stamps non-increasing. |
| `Query.SortOfAscending` | backend/server.js:181 | When stamps increase in stored order, the sorted result is the stored order reversed. The order is therefore fully determined. |
| `Query.Listing` | backend/server.js:165-183 | Admin with a status other than "" and "All": exactly the complaints with that status. Admin otherwise: all complaints. Non-admin: exactly the caller's own complaints. Always newest first. With increasing stamps, the selection in reverse stored order. |
| `Query.ListingIgnoresStatusForNonAdmin` | backend/server.js:177-182 | A non-admin's listing does not depend on the `status` parameter. |
| `Backend.TrimOrEmpty` | backend/server.js:67-69 | `v?.trim()`, read for truthiness. The result has no whitespace at either end. It is "" when the field is missing, and no longer than the field otherwise. A field that is already trimmed comes back unchanged. |
| `Backend.NormalizeOrEmpty` | backend/server.js:68 | `v?.trim().toLowerCase()`, read for truthiness. The result is normalised. It is "" when the field is missing. A field that is already normalised comes back unchanged. |
| `Backend.RequiredExamples` | backend/server.js:27-30 | Mongoose's `required` on a String path refuses a missing value and "", but accepts whitespace-only text, because it does not trim. |
| `Backend.SchemaIgnoresOptionalPaths` | backend/server.js:27-32 | The schema's verdict on a body does not depend on `status` (which has a default) or on `userId` (which is not required). |
| `Backend.NewComplaint` | backend/server.js:146-149 | `new Complaint({...req.body, userId: req.user.id})`. The record carries the body's four required fields, each non-empty. Its owner is the caller. Its status is the body's status when one is sent, and "Pending" otherwise. It gets the fresh id and the stamp. |
| `Backend.NewComplaintIgnoresBodyOwner` | backend/server.js:146-149 | Changing the body's `userId` does not change the stored record: the spread field is overwritten by the caller's id. |
| `Backend.SetStatus` | backend/server.js:201 | The update sets the given status, or null, on every complaint with the id and leaves all the others unchanged. |
| `Backend.SetStatusTouchesOne` | backend/server.js:201 | With distinct ids, at most one complaint changes, and only its status. If no complaint has the id, nothing changes. |
| `Backend.UsersValidInsert` | backend/server.js:85-95 | Filing a fresh user with a normalised email that is not yet taken keeps the user table valid. |
| `Backend.EmailsUnique` | backend/server.js:81-83 | No two stored users share an email. |
| `Backend.Server.constructor` | backend/server.js:25-37 | The store starts with a user table provisioned out of band and no complaints, and satisfies the invariant. It records how the database layer treats an `undefined` update value (`undefinedAsNull`). |
| `Backend.Server.Register` | backend/server.js:63-103 | Checks run in order: empty field, then email format, then duplicate email. Each failure is a 400 with its own message and leaves the store unchanged. On success exactly one user is added: trimmed name, normalised email, digest of the trimmed password, and role "student" whatever the body says. |
| `Backend.Server.AddUser` | backend/server.js:88-95 | `user.save()` files the new user under its email, issues the next id, and changes nothing else. |
| `Backend.Server.Login` | backend/server.js:108-139 | Checks run in order: empty field, unknown email ("User not found"), hash mismatch ("Invalid password"). Only a match returns 200 with a token over the stored `{id, role}` and the stored role. The store is only read. |
| `Backend.Server.SubmitComplaint` | backend/server.js:144-158 | A refused header gets the gate's response. A missing required field gets 500 and nothing is stored. Otherwise exactly one complaint is appended, owned by the caller whatever `userId` the body sent. Its status is "Pending" when the body has none. |
| `Backend.Server.ListComplaints` | backend/server.js:163-189 | A refused header gets the gate's response. Otherwise the reply is 200 with the role-filtered, newest-first listing. The store is only read. |
| `Backend.Server.UpdateStatus` | backend/server.js:194-209 | A non-admin gets 403 "Access denied" and nothing changes. An id that does not parse gets 500. Otherwise the complaint with that id, if there is one, gets the body's status verbatim. When the body has no status, the update is `{status: undefined}`: the status becomes null if the database layer writes `undefined` as null, and nothing changes if it drops the key. Nothing else changes, and the reply is "Status Updated" in every case. |
| `Scenarios.RegisterThenLogin` | backend/server.js:85-133 | After a successful registration, even one that asks for role "admin", logging in with the same credentials succeeds with role "student". The token it returns passes the gate as the new account. |
| `Scenarios.SubmitAsStudent` | backend/server.js:146-152 | A body without `name` stores nothing. A full body stores one "Pending" complaint owned by the caller, not by the `userId` the body names. |
| `Scenarios.RegisterTwice` | backend/server.js:81-97 | Registering the same email twice files exactly one user. The first call is answered "User Registered Successfully" and the second "User already exists". |
| `Scenarios.ResolveAsAdmin` | backend/server.js:196-203 | A student's request to set "In Progress" is answered 403 "Access denied". An admin's "Resolved" and an update of an unknown id are both answered "Status Updated". The only change to the store is the admin's: users and counters stay as they were. |
| `Scenarios.UpdateWithoutStatus` | backend/server.js:199-203 | An admin's update whose body has no status is answered "Status Updated". It nulls the complaint's status when the database layer writes `undefined` as null, and leaves it as it was when the layer drops the key. |
| `Scenarios.ListResolved` | backend/server.js:168-182 | An admin's "Resolved" listing shows the resolved complaint. So does its owner's listing, where the "Pending" parameter is ignored. |

## Left out

- Express, CORS and JSON middleware, `mongoose.connect` and `app.listen` (backend/server.js:1-20, 212-217) are wiring and I/O.
- bcrypt and JWT are not implemented. They are the functions of `Records.Crypto`, and `Records.Sound` lists what the handlers rely on:
  - a password matches its own digest;
  - a signed payload verifies to itself;
  - signed tokens contain no space;
  - an empty token is refused.
- Gate.Authenticate: token expiry (`expiresIn: "1h"`) is not modelled, because `verify` takes no clock. In the model a token the server signed never expires: `Records.Sound` makes `verify` accept every output of `sign`. Only tokens that `sign` never produced can be refused.
- Backend.Server.Register: the model states that the stored password is `hash(trimmed password, salt)`. That a digest never equals its plaintext is a property of bcrypt and is not stated.
- bcrypt's random salt is a parameter of `Register`.
- ObjectIds and automatic timestamps are counters (`nextId`, `clock`). `updatedAt` is not modelled.
- Register's 500 path is not modelled: `models/User` is not part of this model, so saving a user always succeeds. Store failures are not modelled either. These are the 500s of login (backend/server.js:135-138), listing (:185-188), submission (:154-157) and update (:205-208). The only 500s modelled are a failed schema validation on submit and an id that does not cast on update.
- Concurrency is not modelled. Each handler call is one atomic step, so the race between two concurrent registrations with the same email is left out.
- JavaScript dynamic typing is not modelled. Bodies hold strings or nothing. A non-string field that makes `.trim()` throw, Mongoose casting of non-strings, and a `status` query that arrives as an array are all left out.
- Text.Lower: `toLowerCase` is modelled for ASCII letters only. Non-ASCII capitals, which JavaScript maps, are left unchanged. The whitespace set is the exact ECMAScript WhiteSpace and LineTerminator set.
- Complaint bodies carry only the schema's fields. Fields the body sends outside the schema, `_id` and timestamps are not modelled.
- Backend.Server.UpdateStatus: a body without `status` sends the update `{status: undefined}`. What the database then stores depends on the Mongoose and MongoDB driver versions and options: the key is either written as null or dropped. The source does not fix which, so the model takes that choice as the parameter `undefinedAsNull` and does not settle it.
- A path id that does not cast to an ObjectId is modelled as `None` and gets 500.
- `frontend/script.js` and `frontend/auth.js` are not modelled. They are DOM, `fetch` and `localStorage` code.
