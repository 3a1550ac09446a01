# fancy-todo-back, modelled in Dafny

fancy-todo-back is the backend of a todo-list application, built on Express and Mongoose. Users sign up and log in with an email and a password. Each todo request must carry a bearer token. The `protect` middleware checks the token and loads the user. The todo handlers then list, create, delete or patch todos in the caller's collection.

This project models that core:

- `wrappers.dfy`: `Option` stands for `undefined`, and `Result` stands for a failure.
- `js.dfy`: the JavaScript built-ins that the handlers rely on. These are truthiness, `startsWith`, `split` on one character, and `trim`, with ECMAScript whitespace.
- `query.dfy`: a collection in natural order. `find` and `deleteMany` select by filter, and `findOne` takes the first match.
- `http.dfy`: what a handler can do. It can send a status and a payload, or pass an error to `next`. A middleware can also call `next()`.
- `user_model.dfy`: the User schema and its validators. Also:
  - the `email` setters;
  - the pre-save hook that hashes a modified password (class `UserDocument`);
  - `changedPasswordAfter`;
  - the default projection that hides the password;
  - `User.create` over a collection with unique `_id` and `email` indexes (class `UserCollection`).
- `auth_controller.dfy`: `signup`, `login` and `protect`. `protect` is a method that writes `req.userID` and `req.user` on a `Request` object. It is specified by the pure `Gate` decision.
- `todo_model.dfy`: the Todo schema, its one validator, and the `$set` patch.
- `todo_controller.dfy`: the four todo handlers. They are methods of class `TodoStore` and are specified by pure functions on the collection.

These are parameters of the model:

- `jwt.sign` (behind `signToken`) and `jwt.verify`;
- `bcrypt.hash` and `bcrypt.compare` (behind `correctPassword`);
- `validator.isEmail`;
- the id the database gives a new user;
- the failure of a database call (`fault`).

### Quirks of the code that the model keeps

- `signup` sends the created user with its password field set. That field holds the bcrypt hash.
- When signing the token throws after `User.create` succeeded, the new user stays stored and the error goes to `next`.
- The email option is spelled `lowecase` (models/userModel.js:14). Mongoose ignores it, so emails are trimmed but keep their case. The unique index and the login lookup are case-sensitive.
- The Todo `_id` is a declared String path with no default. A create without `_id` is refused with "document must have an _id before saving".
- `changeFinishedStatus` does not check the owner. The update runs no validators, so it can store an empty text or give the todo to another owner. It sends the todo as it was before the update.
- The route declares `/:uid`, but the handler reads `req.params.id`. The model takes the lookup id as an explicit parameter (see Left out).
- `startsWith('Bearer')` needs no space after the scheme, so "BearerXYZ abc" yields the token "abc". "Bearer  x", with two spaces, yields an empty token, and the request is refused as not logged in.

## Model

| member | source | states |
|---|---|---|
| Js.Split | controllers/authController.js:67 | `split(' ')` yields at least one piece, and no piece contains the separator |
| Js.JoinSplit | controllers/authController.js:67 | splitting loses nothing: joining the pieces with the separator gives back the header |
| Js.SplitJoin | controllers/authController.js:67 | splitting a join of separator-free pieces gives back those pieces |
| Js.SplitSecondPiece | controllers/authController.js:67 | `split(' ')[1]` exists exactly when the string has a space, and it is then the text between the first and the second space |
| Js.Trim | models/userModel.js:15 | the trimmed email is a slice of the input with only whitespace outside it, and has no leading or trailing whitespace itself |
| Js.TrimIdempotent | models/userModel.js:15 | trimming an already trimmed email changes nothing |
| Query.Select | controllers/todoController.js:5 | a `find` keeps exactly the documents that match the filter, and never more than there were |
| Query.SelectSelect | controllers/todoController.js:41 | deleting by one filter and then finding by another selects what the conjunction of the two selects, in the same order |
| Query.SelectKeepsDistinctKeys | models/todoModel.js:4-7 | dropping documents cannot make two unique keys collide |
| Query.FindOne | controllers/authController.js:43 | `findOne` returns nothing exactly when no document matches; otherwise it returns a stored document that matches |
| UserModel.SettersOnlyTrimEmail | models/userModel.js:10-17 | casting trims the email and changes nothing else, case included (`lowecase` is not a Mongoose option); an already trimmed email is left as it is |
| UserModel.Validate | models/userModel.js:5-41 | saving reports no error exactly when the name is given, the email is given and accepted by `isEmail`, the password has at least 8 characters, and the confirmation equals the password; no two errors share a path, and every path is a schema path |
| UserModel.ConfirmMismatchReported | models/userModel.js:27-37 | "Passwords must match" is reported exactly when a confirmation is given and differs from the password |
| UserModel.ShortPasswordReported | models/userModel.js:21-26 | "Passwords must have at least 8 characters" is reported exactly when a password is given and is shorter than 8 |
| UserModel.NeverChangedNeverStale | models/userModel.js:58-69 | a user with no recorded password change never reports a token as older than the change |
| UserModel.ChangedAfterExactly | models/userModel.js:58-69 | for a change at `ms >= 0` milliseconds, a token issued at second `t` is stale exactly when `(t + 1) * 1000 <= ms` (whole seconds, truncated) |
| UserModel.SameSecondNotStale | models/userModel.js:65 | the comparison is strict: a token issued in the same second as the change is accepted |
| UserModel.StaleIsDownwardClosed | models/userModel.js:65 | any token issued earlier than a stale token is stale too |
| UserModel.UserDocument.PreSave | models/userModel.js:43-52 | a document whose password was not modified is left as it is; otherwise the password becomes its bcrypt hash at cost 12 and `passwordConfirm` is removed, and nothing else changes |
| UserModel.FindById | controllers/authController.js:79 | `findById` finds nothing exactly when no user has that id; otherwise it returns a stored user with that id and the password left out (`select: false`) |
| UserModel.FindByEmailWithPassword | controllers/authController.js:43 | `findOne({ email }).select('+password')` finds nothing exactly when no user has that exact email; otherwise it returns a stored user with it, hash included |
| UserModel.Creation | models/userModel.js:5-52 | `User.create` succeeds exactly when the cast document validates and neither its `_id` nor its email is taken; the stored user then has the hashed password, no confirmation, a trimmed email, and every other field as given; a validation failure is reported with its errors |
| UserModel.InsertKeepsKeysUnique | models/userModel.js:13 | inserting a user with a free id and a free email keeps both indexes unique |
| UserModel.UserCollection.Create | controllers/authController.js:13-18 | validate, run the pre-save hook, check the indexes and insert; the result is `Creation` of the old collection, the user is appended only on success, and both indexes stay unique |
| UserModel.FindByEmailOfUnique | models/userModel.js:13 | under the unique email index, the lookup by a stored user's email finds that user |
| AuthController.HeaderTokenIsSecondPiece | controllers/authController.js:64-68 | the token is the text between the first and the second space of a header that starts with "Bearer", and there is none otherwise; it never contains a space |
| AuthController.SchemeAndTokenYieldToken | controllers/authController.js:66-67 | any space-free word that starts with "Bearer", followed by one space and a space-free token, yields exactly that token |
| AuthController.DoubleSpaceEmptyToken | controllers/authController.js:67-73 | two spaces after "Bearer" yield the empty token |
| AuthController.Gate | controllers/authController.js:60-93 | a request is admitted exactly when its token verifies, the user with the token's id still exists, and the password was not changed after the token was issued; the admitted user is the one `findById` returned for the token's id, without its password |
| AuthController.NoTokenRejected | controllers/authController.js:69-73 | without a truthy token the request is refused as not logged in, whatever the verifier and the users are |
| AuthController.VerificationFailureRejected | controllers/authController.js:74-76 | a token the verifier refuses is refused with the verifier's message, whatever the users are |
| AuthController.UserGoneRejected | controllers/authController.js:78-80 | a verified token whose user no longer exists is refused with "The user no longer exists!" |
| AuthController.IssuedTokenAdmitted | controllers/authController.js:60-89 | "Bearer <token>" for a verified token of an existing user admits that user, unless the password changed in a later second |
| AuthController.StaleTokenRejected | controllers/authController.js:83-86 | a verified token of an existing user is refused as stale exactly when the change is in a later second, and is admitted otherwise |
| AuthController.Protect | controllers/authController.js:60-93 | calls `next()` exactly when `Gate` admits, and otherwise passes `Gate`'s error; sets `req.userID` once the token verifies, and sets `req.user` only on admission |
| AuthController.Login | controllers/authController.js:34-58 | a missing or empty email or password is refused with "Please provide email and password!"; the reply is 200 with a token for the found user's id exactly when the user with that email has a hash that the password matches and signing succeeds; an unknown email and a wrong password get the same message; a signing error goes to `next` |
| AuthController.StoredUserLogsIn | controllers/authController.js:43-54 | a stored user logs in with a password that matches its hash, and the token is signed for its own id |
| AuthController.SignupIgnoresOtherFields | controllers/authController.js:11-18 | only name, email, password and passwordConfirm are read from the body; other fields, such as `passwordChangedAt`, cannot be set |
| AuthController.Signup | controllers/authController.js:10-32 | the reply is 201 with a token for the new id and the created user exactly when `Creation` and signing succeed; otherwise the error goes to `next`; the collection grows by the user exactly when `Creation` succeeds, even if signing then fails |
| AuthController.SignupReplyCarriesHash | controllers/authController.js:20-28 | the user sent back by `signup` has the new id, the bcrypt hash of the password, no confirmation, and the trimmed email |
| TodoModel.Validate | models/todoModel.js:8-11 | a todo is refused exactly when its text is given and empty, and then with the one error "Todos cannot be empty" on path `text` |
| TodoModel.PatchKeepsIdAndIsIdempotent | controllers/todoController.js:55 | a patch never changes `_id`, and applying it twice is the same as applying it once |
| TodoModel.PatchBypassesSchema | controllers/todoController.js:55 | the update runs no validators: a patch can store an empty text and can give the todo to any owner |
| TodoController.OwnedBy | controllers/todoController.js:5 | `find({ owner })` returns exactly the todos of that owner |
| TodoController.RemoveCompleted | controllers/todoController.js:41 | `deleteMany({ owner, finished: true })` keeps exactly the todos that are not both the owner's and finished |
| TodoController.RemoveCompletedKeepsUniqueIds | controllers/todoController.js:41 | the deletion keeps todo ids unique |
| TodoController.RemoveCompletedIdempotent | controllers/todoController.js:41 | deleting the completed todos again deletes nothing more |
| TodoController.RemoveCompletedSparesOthers | controllers/todoController.js:41 | every other owner sees the same todos, in the same order, after the caller's deletion |
| TodoController.RemoveCompletedKeepsCallersUnfinished | controllers/todoController.js:41 | after the deletion the caller holds exactly their unfinished todos, in order |
| TodoController.RemoveCompletedWithoutFinished | controllers/todoController.js:41 | when the caller has no finished todo, the collection is left as it is |
| TodoController.Insert | controllers/todoController.js:22-26 | create succeeds exactly when the text, if given, is not empty, an `_id` is given, the database does not fail, and the id is free; the new todo has the body's id and text, the caller as owner, and is unfinished; an empty text is refused with the schema message |
| TodoController.InsertReadsOnlyIdAndText | controllers/todoController.js:22-26 | only `_id` and `text` are read from the body, so a body cannot set `owner` or `finished` |
| TodoController.SecondInsertWithSameIdFails | models/todoModel.js:4-7 | once a todo is created, a second create with the same `_id` fails, whoever asks |
| TodoController.FindTodo | controllers/todoController.js:55 | the todo sent back is absent exactly when no todo has the id; otherwise it is the stored todo with that id |
| TodoController.UpdateById | controllers/todoController.js:55 | the update changes at most the todo with that id: length and ids are kept, other todos are untouched, nothing changes when the id is unknown, and with unique ids the matching todo receives the patch |
| TodoController.UpdateIgnoresOwner | controllers/todoController.js:52-55 | any stored todo is patched by its id, whoever owns it |
| TodoController.TodoStore.GetAllTodos | controllers/todoController.js:3-17 | replies 200 with exactly the caller's todos and their count, or passes the database error to `next` |
| TodoController.TodoStore.CreateTodo | controllers/todoController.js:19-37 | replies 200 with the created todo and appends it when `Insert` succeeds; otherwise it passes the error to `next` and leaves the collection as it was; ids stay unique |
| TodoController.TodoStore.DeleteCompleted | controllers/todoController.js:39-50 | replies 204 "Todos deleted" and leaves `RemoveCompleted` of the collection, or passes the database error to `next` and changes nothing; ids stay unique |
| TodoController.TodoStore.ChangeFinishedStatus | controllers/todoController.js:52-66 | replies 200 with the todo as it was before the update, and leaves `UpdateById` of the collection, or passes the database error to `next` and changes nothing; ids stay unique |

## Left out

- jsonwebtoken: signing (`signToken`, controllers/authController.js:5-8, with its secret and expiry) and verification, including token expiry, are the `Signer` and `Verifier` parameters. Both may fail, and their error messages pass through as they are.
- bcrypt: hashing and `correctPassword` (models/userModel.js:54-56) are the `Hasher` and `Comparer` parameters. Salt and randomness are inside the hasher.
- `validator.isEmail` is the `EmailCheck` parameter.
- The database is modelled as a sequence in natural order. Connection handling, index building and asynchrony are left out. Concurrent requests are left out too, since every operation is one atomic step.
- The failure of a database call is a `fault` parameter of each todo handler. The failure of a user lookup is not modelled.
- index.js, app.js, routes/todoRoutes.js, the user routes and controllers/userController.js are not part of this model. Neither is the global error handler, which turns the error passed to `next` into an HTTP response.
- ChangeFinishedStatus: the route in routes/todoRoutes.js:13 names the parameter `uid`, while the handler reads `req.params.id`, which is therefore `undefined`. The model takes the id as a parameter. What Mongoose does with an `undefined` id in `findByIdAndUpdate` is not modelled.
- Every source error is wrapped as `new Error(err.message)`. The model keeps the kind of error (a message, validation errors, a duplicate key) and does not flatten it into the driver's exact message string.
- UserModel.FindById: user ids are plain strings, so the CastError that Mongoose raises for an id that is not an ObjectId is not modelled.
- AuthController.Login: the query setters are not applied to the email filter, so an email that needs trimming is looked up as given.
- Request bodies are maps from field names to strings. Non-string JSON values, including query-operator objects in the login body, are not modelled.
- String length counts code points, while JavaScript counts UTF-16 code units. The two differ only for characters outside the Basic Multilingual Plane.
- TodoModel.TodoPatch: an update body is cast to `text`, `finished` and `owner`. A body that also carries `_id` is not represented. MongoDB refuses an update that would change `_id`, and that refusal is not modelled.
- The fields `photo`, `passwordResetToken` and `passwordResetExpires` are carried along but have no behaviour in the core.
- HTTP serialization of the JSON replies, the `status: 'success'` field and response headers are left out.
