# In-class prototyping API: access gates, user identity store, post store

This project models the decision logic of a small Express/Mongoose blog API
and proves properties of it:

- the request gates of `auth.js`: `createAccessToken`, the bearer-token
  `verify` middleware with its 401/403/404 answers, `verifyAdmin`,
  `isLoggedIn` and the shared `errorHandler`;
- the user identity service of `controllers/user.js` over the User schema of
  `models/User.js`: availability checks, registration with its advisory
  pre-check and the binding unique indexes, login by email or by
  case-insensitive userName, profile read, password reset, self-service and
  admin updates;
- the post service of `controllers/post.js` over the Post and Comment schemas
  of `models/Post.js`: create, list newest first, read, delete, add and
  remove comments.

Module layout, one file each:

- `js.dfy` (`Js`): the JavaScript value semantics the handlers rely on:
  truthiness and `||`, `String(v)`, `trim`, `toLowerCase` on ASCII letters,
  `split` on one character and its inverse, the UTF-16 `length`.
- `db.dfy` (`Db`): ObjectIds and casting a value to one, the errors Mongoose
  and the driver throw (CastError, ValidationError, duplicate key 11000,
  TypeError), and `FindFirst`, the first document in natural order a query
  matches (`findOne`).
- `user_model.dfy` (`UserModel`): the User schema (setters, defaults,
  validators, unique indexes, `toJSON`) and the `UserStore` class holding
  the collection, with the invariant that no two documents share an id, an
  email or a case-folded userName.
- `post_model.dfy` (`PostModel`): the Post and Comment schemas and the
  `PostStore` class holding the collection, with the invariant that every
  post's title and blog conform, ids are unique and creation keys increase.
  Comments are outside the invariant because the comment handler pushes
  them without running the validators.
- `http.dfy` (`Http`): the responses (status and JSON body).
- `auth.dfy` (`Auth`): the gates and the error handler.
- `user_controller.dfy` (`UserController`), `post_controller.dfy`
  (`PostController`): the handlers.

The token library and the password hashing library are parameters. A
`Codec` has `sign` and `verify`; the hypothesis `Auth.Sound` says tokens hold
no space and verifying a token with the key it was signed with gives back
its payload. A `Hasher` has `hash` and `compare`; `UserController.Matches`
says `compare(p, hash(p))` and `UserController.Binding` says no other
password matches a hash. Lemmas take these as `requires`; nothing is assumed.

Handlers that only read a collection (`checkEmailExists`,
`checkUsernameExists`, `loginUser`, `getProfile`, `getAllPosts`, `getPost`)
are functions of its contents. Handlers that write are module-level methods
that take the store object (`UserModel.UserStore`, `PostModel.PostStore`)
and call its write methods; the `ensures` of both give the whole new
collection and keep the store invariant. The `forEach` of `updateProfile` is a loop in
`UserController.BuildProfileUpdate`.

Observations the model makes precise:

- Login classifies an identifier by `@`. A userName that contains `@` can be
  registered, but logging in with it looks it up as an email
  (`UserController.Identifies`, `UserController.RegisterThenLoginByUserName`
  needs `'@' !in name`).
- The collation in the code is ICU strength 2 (controllers/user.js:26, 52,
  93). Strength 2 folds case but keeps accents, so the model folds ASCII case
  and nothing else. This follows the code, not the looser "accent-insensitive"
  reading of that collation.
- The unique index on `userName` compares stored bytes, and the schema stores
  userNames lower-cased, so the index enforces case-insensitive uniqueness
  (`UserModel.InsertKeepsWellFormed`). The pre-check in `registerUser` is
  advisory: `RegisterUser` reads it from a snapshot `seen` (the two
  concurrent queries), and the insert itself rejects a clash with 11000,
  which becomes 409.

## Model

| member | source | states |
|---|---|---|
| Auth.SecretKey | auth.js:5 | the configured secret when set and non-empty, otherwise "In-ClassPrototypingAPI"; never empty |
| Auth.CreateAccessToken | auth.js:8-16 | under a sound codec the token has no space and verifies at every time to exactly the user's id, email and isAdmin with no `exp` |
| Auth.ParseBearer | auth.js:31-39 | the split yields two parts with `Bearer` first exactly when the header is "Bearer " followed by a space-free token (possibly empty); the token is the rest of the header |
| Auth.Verify | auth.js:19-64 | 401 "No token provided" for a missing or empty header; 401 "Invalid token format" for a malformed one; `next` with the decoded claims when the token verifies; on a failed verification 403 "Action Forbidden" exactly for GET /products + /all, else 404 "User not found" with the library's message |
| Auth.VerifyAdmin | auth.js:67-75 | continues with the same user exactly when a user is set and is admin; otherwise 403 "Action Forbidden" |
| Auth.IsLoggedIn | auth.js:93-98 | continues exactly when a user is set; otherwise 401 |
| Auth.ErrorHandler | auth.js:78-90 | status is `err.status` or 500, message is `err.message` or "Internal Server Error", errorCode is `err.code` or "SERVER_ERROR", details copied |
| Auth.IssuedTokenPassesVerify | auth.js:41-62 | a token this service issued, sent as `Bearer <token>`, passes `verify` on any route at any time and sets `req.user` to the issued claims |
| Auth.AdminRoute | routes/post.js:15-16 | `verify` then `verifyAdmin`: a halt of `verify` is the answer; otherwise the request continues only with the verified user when it is admin, and a non-admin gets 403 "Action Forbidden" |
| Auth.IssuedTokenAtAdminRoute | routes/user.js:21 | on an admin route (`verify` then `verifyAdmin`) an issued token gets through exactly when the user was admin at issuance, else 403 |
| Auth.AdminRouteAdmitsOnlyAdmins | routes/post.js:15-16 | the admin routes let a request through exactly when its bearer token verifies to claims with isAdmin set |
| Js.Or | controllers/user.js:77 | `a \|\| b` is one of its operands and is truthy exactly when either is |
| Js.ToStr | controllers/user.js:43 | `String(v)` keeps a string; any other value renders non-empty and without `@` |
| Js.Trim | controllers/user.js:9 | the result has no whitespace at either end and is no longer than the input |
| Js.TrimEmpty | controllers/post.js:8 | `!s.trim()` holds exactly when the string is empty or all whitespace |
| Js.TrimTrimmed | controllers/post.js:12-13 | trimming a string with no whitespace at either end leaves it unchanged |
| Js.TrimKeepsAt | controllers/user.js:9-10 | trimming keeps an `@` exactly when the input has one |
| Js.LowerFacts | models/User.js:8 | lower-casing is idempotent, keeps a trimmed string trimmed and keeps or drops `@` as the input had it |
| Js.Split | auth.js:31 | `split(d)` gives at least one part, no part contains `d`, and joining the parts with `d` gives the input back |
| Js.SplitJoin | auth.js:31 | splitting a join of `d`-free parts gives those parts back |
| Js.Utf16Length | controllers/user.js:44 | the `length` of a string lies between its number of characters and twice that |
| Db.CastObjectId | controllers/user.js:114 | a value casts exactly when it is a string of 24 hex digits, and then to the id equal to it ignoring case |
| Db.CastCanonical | controllers/post.js:35 | the text of a stored id casts back to that id |
| Db.FindFirst | controllers/user.js:12 | `findOne` gives the first document in natural order that matches, and nothing exactly when none matches |
| UserModel.ToJson | models/User.js:17-23 | every field but the password is copied |
| UserModel.ToJsonHidesOnlyPassword | models/User.js:17-23 | two documents look the same through `toJSON` exactly when they differ at most in their password |
| UserModel.NormalizeKey | models/User.js:7-8 | the trim and lowercase setters give a trimmed lower-case string, empty exactly when the input is blank, with an `@` exactly when the input had one |
| UserModel.ApplySchema | models/User.js:3-14 | setters applied, isAdmin defaults to false, password kept; the document conforms exactly when no required field is blank and the password is non-empty |
| UserModel.InsertKeepsWellFormed | models/User.js:7-8 | an insert the unique indexes accept keeps ids, emails and case-folded userNames distinct |
| UserModel.ReplaceKeepsWellFormed | controllers/user.js:171 | a validated rewrite of one document that the unique indexes accept keeps the collection well formed |
| UserModel.SameKeysNoCollision | controllers/user.js:146 | a write that keeps id, email and userName cannot clash with another document |
| UserModel.ApplyUpdate | controllers/user.js:146 | a `$set` never changes the id, userName or password, and an empty one changes nothing |
| UserModel.ValidatedUpdateConforms | controllers/user.js:146 | an update that passes the update validators keeps a conforming document conforming |
| UserModel.UserStore.Create | controllers/user.js:58-65 | validation error for a non-conforming document, duplicate key for a clash with a stored id, email or userName, else exactly that document appended; the invariant holds |
| UserModel.UserStore.FindByIdAndUpdate | controllers/user.js:146-147 | CastError for a bad id, ValidationError for a blank required field, nothing for an absent id, duplicate key for a clash with another document, else only that document rewritten |
| UserModel.UserStore.SetPassword | controllers/user.js:130 | only the password of the document with that id changes, and nothing when there is none |
| UserController.TextField | controllers/user.js:142 | a field is taken exactly when it is a string, and then trimmed |
| UserController.CheckEmailExists | controllers/user.js:7-17 | 400 exactly when the email has no `@`; else 200 with the normalised email and `available` true exactly when no stored user has it |
| UserController.CheckUsernameExists | controllers/user.js:20-34 | 400 exactly when the userName is blank; else 200 with `available` true exactly when no stored userName equals it ignoring case |
| UserController.RegistrationError | controllers/user.js:40-44 | 400 in this order: a falsy field, an email without `@`, a password shorter than 8; a body that passes carries its email as a string |
| UserController.Registrant | controllers/user.js:57-65 | the stored document has the new id, is not admin, and stores only the hash of the password |
| UserController.RegistrantKeys | controllers/user.js:46-47 | the stored email is the pre-checked email and the stored userName is the pre-checked userName lower-cased |
| UserController.PreCheck | controllers/user.js:49-55 | 409 "Email already in use" when a user seen has the email; else 409 "Username already in use" when one has the userName ignoring case; else no answer |
| UserController.PreCheckAgreesWithIndexes | controllers/user.js:49-55 | with no concurrent writer, a body that passes the pre-check clashes with the indexes only through its id |
| UserController.CaseVariantIsTaken | controllers/user.js:52-55 | once a userName is stored, a later registration with a case variant of it fails the pre-check |
| UserController.RegisterUser | controllers/user.js:37-72 | the 400s, then 409 "Email already in use" before 409 "Username already in use" with nothing created; 500 for a validation error; 409 for a duplicate key; else 201 with the password-free document and exactly it appended |
| UserController.LoginLookup | controllers/user.js:85-94 | an identifier with `@` finds the user with that email lower-cased, any other the user whose userName equals it ignoring case; nothing exactly when no user is so identified |
| UserController.LoginAnswer | controllers/user.js:85-104 | once both are present: 200 or the one 401 "Incorrect credentials"; the 401 whenever no user is identified; 200 only with a token for an identified user whose hash matches |
| UserController.LoginUser | controllers/user.js:75-108 | 400 "Identifier and password are required" exactly when the trimmed identifier or the password is empty; otherwise the answer of `LoginAnswer` for them |
| UserController.IdentifiesAtMostOne | models/User.js:7-8 | in a well-formed collection an identifier names at most one user |
| UserController.LookupFinds | controllers/user.js:85-94 | the lookup finds exactly the user the identifier names |
| UserController.LoginSucceeds | controllers/user.js:98-104 | the identified user with the right password gets 200 and a token for exactly that user |
| UserController.WrongPasswordRejected | controllers/user.js:96-99 | with a binding hash any other password gets the same 401 as an unknown user |
| UserController.LoginBodyFields | controllers/user.js:77-78 | a body with a truthy identifier and password logs in with the trimmed identifier and that password |
| UserController.RegisterThenLoginByEmail | controllers/user.js:85-89 | after registering, logging in with the registration email and password gives 200 and a token for the new user |
| UserController.RegisterThenLoginByUserName | controllers/user.js:90-93 | after registering, logging in with the userName in any case and no `@` gives 200 and a token for the new user |
| UserController.GetProfile | controllers/user.js:112-120 | 404 exactly when no document has the caller's id; else 200 with that document without its password |
| UserController.ResetPassword | controllers/user.js:123-135 | 400 for a missing or short password; else 200, and only the caller's password becomes the new hash, nothing when the caller is absent |
| UserController.BuildProfileUpdate | controllers/user.js:140-143 | the loop builds exactly the `$set` of the string-typed, trimmed firstName, lastName and mobileNo |
| UserController.UpdateProfile | controllers/user.js:138-154 | 400 when no field is given, 404 when the caller is absent; else only the names and mobile number change, email and isAdmin stay |
| UserController.AdminFields | controllers/user.js:162-167 | string names and mobile trimmed, a string email trimmed and lower-cased, a boolean isAdmin, and nothing else |
| UserController.UpdateUserByAdmin | controllers/user.js:157-180 | 400 without userId or without an accepted field, 404 for an absent target, 409 "Email already in use" on a clash; else the target is rewritten with userName and password unchanged |
| PostModel.AppendKeepsWellFormed | models/Post.js:11-20 | appending a conforming post with a fresh id at the current creation key keeps the collection well formed |
| PostModel.WithoutComment | controllers/post.js:79 | `$pull` never lengthens the list and shortens it exactly when a comment had that id |
| PostModel.PullKeepsExactlyOthers | controllers/post.js:79 | every comment left by `$pull` was in the list with another id, and every comment with another id is left |
| PostModel.ReplaceKeepsWellFormed | controllers/post.js:50-54 | rewriting one post that keeps its id, its creation key and conforming title and blog keeps the collection well formed |
| PostModel.RemoveKeepsWellFormed | controllers/post.js:65 | removing one post keeps the collection well formed |
| PostModel.WithComment | controllers/post.js:52 | `$push` appends the comment and changes nothing else in the post |
| PostModel.PullUndoesPush | controllers/post.js:77-81 | pulling a comment whose id no earlier comment shares restores the comment list before its push |
| PostModel.UnvalidatedPushBreaksSchema | controllers/post.js:50-54 | the push as written stores a 2001-character comment into a conforming post, which then violates the schema |
| PostModel.ValidatedPushKeepsSchema | models/Post.js:6 | pushing a conforming comment keeps a conforming post conforming |
| PostModel.NewestFirst | controllers/post.js:25 | the listing is the collection in reverse natural order |
| PostModel.NewestFirstSorted | controllers/post.js:25 | on a collection with increasing creation keys the listing holds every post once, sorted by createdAt descending |
| PostModel.NewestFirstPermutes | controllers/post.js:25 | the listing is a permutation of the collection |
| PostModel.PostStore.Create | controllers/post.js:11-15 | ValidationError for an uncastable userId or a non-conforming post, duplicate key for a used id, else exactly that post appended with no comments at the next creation key |
| PostModel.PostStore.PushCommentUnvalidated | controllers/post.js:50-54 | the push as written: CastError for a bad post or user id, nothing for an absent post, else only that post gains exactly the trimmed comment, whatever its length; the clock stays |
| PostModel.PostStore.PushComment | models/Post.js:6 | the push with the validators run: as `PushCommentUnvalidated` except that a comment breaking the schema is a ValidationError with nothing stored, so a collection whose documents all conform keeps conforming |
| PostModel.PostStore.FindByIdAndDelete | controllers/post.js:65 | the post with that id is removed and returned, every other post stays in order; nothing changes when it is absent |
| PostModel.PostStore.PullComment | controllers/post.js:77-81 | only a post with that id holding that comment matches; from it every comment with that id is removed; nothing changes otherwise; a fully conforming collection stays conforming |
| PostController.TrimOf | controllers/post.js:8 | `v?.trim()` is undefined for null or undefined, the trimmed text for a string, and a TypeError otherwise |
| PostController.TitleBlogCheck | controllers/post.js:8-10 | passes exactly when title and blog are non-blank strings; a missing or blank title gives 400 and a non-string title the TypeError's 500; after a usable title, a missing or blank blog gives 400 and a non-string blog the TypeError's 500 |
| PostController.AddPost | controllers/post.js:5-20 | 400 or 500 from the check; else 201 with the post of trimmed title and blog owned by the caller, exactly it appended and the creation clock advanced; schema and id failures go to the error handler and leave collection and clock as they were |
| PostController.GetAllPosts | controllers/post.js:23-30 | 200 with every post once, newest first |
| PostController.GetPost | controllers/post.js:33-41 | 404 exactly when no post has the id; else 200 with that post; a non-ObjectId gives the CastError's 500 |
| PostController.CreatedPostIsFound | controllers/post.js:11-16 | a post just created is what `getPost` returns for its id |
| PostController.DeletedPostIsGone | controllers/post.js:65-67 | after a delete, `getPost` answers 404 for that id |
| PostController.AddComment | controllers/post.js:44-60 | 400 for a missing or blank comment, the TypeError's 500 for a non-string one, the CastError's 500 for a bad id; 404 for an absent post; else 200 and only that post gains the caller's trimmed comment, of any length; the clock stays |
| PostController.DeletePost | controllers/post.js:63-71 | 404 when absent, else 200 "Post deleted" and exactly that post removed; the clock stays |
| PostController.RemoveComment | controllers/post.js:74-89 | 404 unless the post exists and holds the comment; else 200 and only that comment leaves that post; the clock stays |

## Left out

- Express itself (`index.js`: app setup, CORS, the MongoDB connection, `listen`) and the routing tables; only the order `verify` then `verifyAdmin` on the admin routes is kept, as `Auth.AdminRoute`.
- `console.error` in the error handler, and all I/O.
- JWT signing and bcrypt hashing: they are the parameters `Codec` and `Hasher` with the hypotheses `Auth.Sound`, `UserController.Matches` and `UserController.Binding`. Salts, the work factor 10, token encoding and bcrypt's 72-byte truncation are not modelled.
- The store keeps each collection as a sequence in natural order rather than a map from id to record, so that `findOne` is the first match; uniqueness of ids is part of the invariant.
- Concurrency: the two pre-check queries of `registerUser` read the snapshot `seen`; interleavings of whole requests are not modelled.
- Timestamps: a post's `createdAt` is a counter of the store, so newest first is reverse insertion order; `publishedAt`, `updatedAt`, comment timestamps and `__v` are not modelled.
- Js.Lower: folds the ASCII letters only; full Unicode `toLowerCase` and ICU collation beyond case folding are not modelled.
- Js.ToStr: numbers are integers, and `Obj` renders as a plain object; non-integer numbers and arrays (whose `String` can contain `@`) are not modelled.
- Db.CastObjectId: a 12-character string, which Mongoose also accepts as an ObjectId, is treated as a CastError.
- The texts of thrown errors are stand-ins (CastError, ValidationError, E11000, TypeError). Whether one is thrown follows the schema's `required`, `trim` and `maxlength` (title 200; comment 2000 only in the corrected `PostModel.PostStore.PushComment`) and the ObjectId casts; which validator failed is not recorded.
- `req.body` missing altogether (`req.body || {}`) is the empty body.
- UserModel.UserStore.FindByIdAndUpdate: the update validators are modelled as the required checks only; Mongoose's exact validation errors are not.

## Findings

| source | as written | input that shows it | evidently intended | confidence | as-written member | corrected member |
|---|---|---|---|---|---|---|
| controllers/post.js:50-54 | `findByIdAndUpdate` with `$push` runs without `runValidators`, so the comment's `maxlength: 2000` (models/Post.js:6) is never checked; `PostModel.PostStore.PushCommentUnvalidated` and `PostController.AddComment` store such a comment and answer 200 | a comment of 2001 `a` characters on an existing post | the schema's limit holds for every stored comment: a too-long comment is rejected with a validation error | medium, not executed | PostModel.UnvalidatedPushBreaksSchema | PostModel.PostStore.PushComment |
