# User-management backend: a verified model

This project models the server side of a small user-management application:
registration and login with JWT bearer tokens, profile self-service (name,
email, password), and administrators who list regular users and activate or
deactivate their accounts. The Express middleware, the Mongoose `User` schema
and the controllers are modelled in Dafny. The libraries under them become
abstract parameters:

- bcrypt is a function `hash: string -> Digest`.
- `jsonwebtoken` is a `TokenService` of `sign`/`verify` arrows with an explicit clock.
- validator.js `isEmail` / `normalizeEmail` are arrows.
- The schema's email regular expression is a predicate.

Modules follow the program's files:

| module | file | models |
|---|---|---|
| `Wrappers` | wrappers.dfy | `Option`, `Result` |
| `Text` | text.dfy | the JavaScript string built-ins the code relies on: `trim`, ASCII `toLowerCase`, `split`/`join`, UTF-16 `.length`, validator.js length |
| `UserModel` | user_model.dfy | backend/models/User.js: record, enumerations, defaults, setters, validators, `pre('save')`, `comparePassword`, `toJSON` |
| `Http` | http.dfy | request bodies, JSON replies, thrown errors, middleware verdicts |
| `ErrorHandling` | error_handling.dfy | backend/middleware/error.js |
| `Auth` | auth.dfy | backend/middleware/auth.js: `protect` (a method that sets `req.user`), `authorize`, `checkActive` |
| `Listing` | listing.dfy | the query arithmetic and filter/sort/skip/limit of `getAllUsers` |
| `Accounts` | accounts.dfy | the controllers of backend/controllers/authController.js and userController.js, as methods of a `Store` class over a `map<Id, Account>` |
| `UserRoutes` | user_routes.dfy | backend/routes/userRoutes.js and backend/middleware/validate.js: the validation chains, each route's middleware list, and `Dispatch`, which serves one request |

## Modelling choices

**The store.** A record is saved the way Mongoose saves it:

1. Schema validation runs first. It reports every failing path, and for each path the first validator that fails.
2. Then the `pre('save')` hook runs.
3. Then the unique index on `email` is checked.
4. Finally the timestamps are written: `createdAt` on insert, and `updatedAt` only when the save changed something.

The store keeps a ghost invariant, `Consistent`:

- every record is filed under its own id;
- every record conforms to the schema, with its name trimmed and its email normalised;
- emails are unique.

Every handler preserves it.

**Email queries.** Mongoose runs query values through the schema setters. So
`findOne({ email })` is modelled as a lookup of `Canon(email)` (lower-cased,
then trimmed) that returns the least matching id.

**Behaviour worth noting:**

- `updateProfile` refuses an email that any account holds, the caller included. It does this whenever the submitted value differs from the stored one as written.
- `login` checks the account status before comparing the password. So an inactive account is answered 403 whatever the password is.

**Assigning an unchanged value.** Mongoose does not mark a path modified when it
is assigned a value equal to the one it holds. So `changePassword` with a new
password equal to the stored digest string hashes nothing, saves nothing and
still answers 200 "Password changed successfully".

## Model

| member | source | states |
|---|---|---|
| Text.Trim | backend/models/User.js:9 | the trimmed string is the run of the input that starts where its leading whitespace ends; everything before and after that run is whitespace, and the run neither starts nor ends with whitespace |
| Text.TrimIdempotent | backend/models/User.js:9 | trimming a trimmed string changes nothing, so trimming twice is trimming once |
| Text.Lower | backend/models/User.js:17 | each character is mapped on its own: an ASCII upper-case letter becomes the lower-case letter whose upper case it is, and every other character is kept; so no upper-case letter is left and a string without one is unchanged |
| Text.Split | backend/middleware/auth.js:14 | `split(' ')` gives at least one field and no field contains the separator |
| Text.JoinSplit | backend/middleware/auth.js:14 | joining the fields of a split with the separator gives back the string |
| Text.SplitJoin | backend/middleware/auth.js:14 | splitting a join of separator-free fields gives back the fields |
| Text.Utf16Length | backend/models/User.js:10-11 | JavaScript `.length` counts one or two units per code point: it equals the character count exactly when no code point is above U+FFFF, and twice it exactly when every one is |
| Text.Utf16LengthConcat | backend/models/User.js:10-11 | `.length` of a concatenation is the sum of the two lengths |
| Text.ValidatorLength | backend/routes/userRoutes.js:21 | validator.js `isLength` counts at most one per code point: it equals the character count exactly when there is no variation selector (U+FE0E, U+FE0F), and is 0 exactly when there is nothing else |
| Text.ValidatorLengthConcat | backend/routes/userRoutes.js:21 | the `isLength` count of a concatenation is the sum of the two counts |
| Text.FirstLine | backend/routes/userRoutes.js:41 | the prefix a `.*` can cover: a prefix free of line terminators, stopped by one when shorter than the input |
| UserModel.ToJsonForgetsOnlyPassword | backend/models/User.js:76-80 | two accounts have the same `toJSON` view exactly when they differ at most in the password |
| UserModel.ToJson | backend/models/User.js:76-80 | the public view: every field but the password, as `ToJsonForgetsOnlyPassword` states |
| UserModel.CanonOfCanonical | backend/models/User.js:17-18 | an email that is trimmed and has no upper-case letter is left unchanged by the setters |
| UserModel.CanonIdempotent | backend/models/User.js:13-18 | the email setters' output is canonical and is its own normal form |
| UserModel.Canon | backend/models/User.js:13-18 | the `lowercase` and `trim` setters of `email`; `CanonIdempotent` and `CanonOfCanonical` state that its output is canonical and that it leaves a canonical email alone |
| UserModel.NewDoc | backend/models/User.js:30-43 | a new document takes role `user`, status `active` and `lastLogin` null unless given, and its values pass through the setters |
| UserModel.NewDocNormalised | backend/models/User.js:6-18 | a new document's name is trimmed and its email canonical |
| UserModel.Messages | backend/models/User.js:4-48 | the ValidationError's messages are no more than the paths and are empty exactly when no path failed; they are non-empty strings when every message is |
| UserModel.MessagesConcat | backend/models/User.js:4-48 | the messages of consecutive paths are those of the first paths followed by those of the rest, so the path order is kept |
| UserModel.MessagesOfOne | backend/models/User.js:4-48 | a failing path contributes its own message and a passing one nothing |
| UserModel.MessagesArePresentValues | backend/models/User.js:4-48 | a string is among the messages exactly when some path failed with it |
| UserModel.ViolationsEmptyIff | backend/models/User.js:6-29 | a save passes validation exactly when the name counts 4 to 30, the email is present and matches the pattern, a password is present, and an assigned plaintext counts at least 8 |
| UserModel.OnlyPasswordViolation | backend/models/User.js:24-28 | when name and email pass, the password's first failing validator is the only message |
| UserModel.Violations | backend/models/User.js:4-29 | the ValidationError's messages in path order; `ViolationsEmptyIff` states when there are none and `OnlyPasswordViolation` which one a bad password gives |
| UserModel.PreSave | backend/models/User.js:51-64 | the hook hashes an assigned plaintext, so that `comparePassword` accepts it; any other document, such as a status or `lastLogin` save, is left exactly as it was |
| UserModel.ComparePasswordAcceptsOnlyOriginal | backend/models/User.js:67-73 | with an injective hash the digest of `p` accepts `p` and nothing else |
| UserModel.ComparePassword | backend/models/User.js:67-73 | `bcrypt.compare` against the stored digest; `ComparePasswordAcceptsOnlyOriginal` states that it accepts exactly the hashed plaintext |
| UserModel.Persist | backend/models/User.js:45-47 | the written record carries the document's fields; `createdAt` is kept from the prior record or set now; an unchanged save keeps the prior record, any other save sets `updatedAt` to now |
| ErrorHandling.Capitalize | backend/middleware/error.js:20 | the field name with its first character upper-cased and the rest unchanged |
| ErrorHandling.HandleError | backend/middleware/error.js:2-51 | CastError 404 "Resource not found"; 11000 400 "<Field> already exists", or 500 when `keyValue` is missing; ValidationError 400 with the messages joined by ", "; the two JWT errors 401 with their own messages; a later rule overrides an earlier one; otherwise the error's own status or 500, and its message or "Server Error"; never a success |
| ErrorHandling.NotFound | backend/middleware/error.js:54-59 | every unmatched route answers 404 with "Route <url> not found" |
| Auth.BearerToken | backend/middleware/auth.js:10-15 | a token is found exactly when the header is present, starts with `Bearer` and has a non-empty second space-separated field; the token is that field, and it is non-empty and space-free |
| Auth.BearerTokenRoundTrip | backend/middleware/auth.js:14 | the header `Bearer <t>` for a non-empty, space-free `t` yields exactly `t` |
| Auth.Authenticate | backend/middleware/auth.js:5-56 | success exactly for the stored, active account the verified token names, as its password-free view; failures are 401 or 403, and 403 exactly for a verified id whose account is inactive |
| Auth.NoBearerRefused | backend/middleware/auth.js:10-23 | every header that yields no token (missing, not starting with `Bearer`, or whose second space-separated field is missing or empty, such as "Bearer", "Bearer " and "Bearerx") is refused 401 "Not authorized…" |
| Auth.InvalidAndExpiredAlike | backend/middleware/auth.js:25-56 | an invalid and an expired token get the identical 401 reply |
| Auth.MissingAccountRefused | backend/middleware/auth.js:31-38 | a verified id with no stored account is refused 401 "User no longer exists" |
| Auth.SignedTokenAdmits | backend/middleware/auth.js:28-49 | a token signed for a stored, active account admits it before its lifetime has elapsed and is refused 401 from then on |
| Auth.Protect | backend/middleware/auth.js:5-63 | `protect` answers with the first failing check and leaves `req.user` alone; only when every check passes does it set `req.user` to the account and call `next` |
| Auth.Authorize | backend/middleware/auth.js:66-90 | 401 without a user; 403 naming the role when the role is not allowed; `next` exactly for a user whose role is allowed |
| Auth.CheckActive | backend/middleware/auth.js:93-101 | 403 exactly when the attached user is not active; a TypeError without a user |
| Listing.IntOr | backend/controllers/userController.js:11-12 | `parseInt(q)`, or the default `d` when that is absent (NaN) or 0 |
| Listing.CeilDiv | backend/controllers/userController.js:33 | `Math.ceil(total / limit)` for either sign of `limit`, stated by its bounds |
| Listing.PageCountCoversUsers | backend/controllers/userController.js:31-36 | with a positive limit the page count is 0 exactly when there are no users, and the pages hold all of them |
| Listing.UserIdsBelow | backend/controllers/userController.js:19 | the filter selects no more ids than are allocated, and each id it lists is allocated and holds a `user`-role account |
| Listing.UserIdsBelowExact | backend/controllers/userController.js:19 | the `{ role: 'user' }` filter lists exactly the `user`-role accounts, each once, in natural order |
| Listing.UserIdsCount | backend/controllers/userController.js:16 | `countDocuments({ role: 'user' })` equals the number of accounts the filter lists |
| Listing.Project | backend/controllers/userController.js:20 | `select('-password')` gives each listed account's public view, in order |
| Listing.InsertByAge | backend/controllers/userController.js:21 | inserting into a newest-first list keeps it newest first and adds exactly that entry |
| Listing.SortNewestFirst | backend/controllers/userController.js:21 | `sort({ createdAt: -1 })` is newest first and a permutation of its input |
| Listing.Page | backend/controllers/userController.js:22-23 | `skip(s).limit(c)` holds at most `c` entries, exactly the input's entries from offset `s` |
| Listing.ListUsersShape | backend/controllers/userController.js:19-23 | the listing holds at most `limit` accounts, newest first, all stored `user`-role accounts and never an administrator |
| Listing.ListUsers | backend/controllers/userController.js:19-23 | `find({ role: 'user' }).select('-password').sort({ createdAt: -1 }).skip(skip).limit(limit)`; `ListUsersShape` and `PagesCoverUsers` state its contents |
| Listing.PageSplit | backend/controllers/userController.js:22-23 | two adjacent slices make the slice that spans both |
| Listing.PagesPrefix | backend/controllers/userController.js:13 | pages 1 to `p` with skip `(page - 1) * limit` are the list's first `p * limit` entries |
| Listing.PagesCoverUsers | backend/controllers/userController.js:11-36 | with a positive limit, pages 1 to `totalPages`, one after the other, are every `user`-role account exactly once, newest first |
| Accounts.FindEmail | backend/controllers/authController.js:17 | `findOne({ email })` gives the least id storing the email, and nothing exactly when no account stores it |
| Accounts.FindByEmailFindsOwner | backend/controllers/authController.js:70 | in a consistent store an email in any letter case and with any surrounding whitespace finds its one owner |
| Accounts.FindByEmail | backend/controllers/authController.js:17 | `findOne({ email })` after the query casts the email through the setters; `FindByEmailFindsOwner` states that any case or whitespace variant of a stored email finds its owner |
| Accounts.FindEmailOwner | backend/models/User.js:16 | in a consistent store the lookup of a stored email finds the account that holds it |
| Accounts.Saved | backend/models/User.js:4-64 | a save fails with a ValidationError carrying the messages exactly when the document breaks the schema; a valid document fails with a duplicate key on `email` exactly when another account holds the email; a stored record carries the document's fields with the password kept or hashed |
| Accounts.SavedKeepsConsistent | backend/models/User.js:16 | a successful save of a normalised document keeps every record filed, schema-valid and normalised, and emails unique |
| Accounts.SavedStored | backend/models/User.js:45-55 | re-saving an edited stored account without a new password either reports its validation failures or stores the edit, moving `updatedAt` only when something changed |
| Accounts.SavedNewPassword | backend/controllers/userController.js:247-248 | saving a stored account with a new plaintext that differs from the stored digest string and that the digest does not accept answers "Password is required" for an empty one, "at least 8 characters" for a short one, and otherwise stores only the new digest with `updatedAt` now |
| Accounts.OnlyOwner | backend/models/User.js:16 | when the email lookup finds nothing or the saved id, no other account holds that email |
| Accounts.ViolationsMessage | backend/middleware/error.js:26-32 | a failed validation's joined message is never empty |
| Accounts.Logout | backend/controllers/authController.js:149-160 | `logout` always answers 200 "Logout successful" with empty data |
| Accounts.Store.Save | backend/models/User.js:51-64 | `save()` stores the record that `Saved` computes, or reports its error and changes nothing, keeping the store consistent |
| Accounts.Store.Signup | backend/controllers/authController.js:12-54 | a taken email is answered 400 and nothing changes; a form that breaks the schema is answered 400 with the messages; otherwise a `user`-role, active account with the trimmed name, normalised email, hashed password and null `lastLogin` is stored at the next id, and the 201 reply carries a token for that id that `protect` accepts |
| Accounts.Store.Login | backend/controllers/authController.js:57-122 | 400 without both fields; 401 for an unknown email; 403 for an inactive account before any password check; 401 for a wrong password, the same reply as the unknown email; only on success `lastLogin` becomes now and a token that `protect` accepts is issued |
| Accounts.Store.GetMe | backend/controllers/authController.js:125-146 | 200 with the caller's account, or 500 when it is gone |
| Accounts.Store.GetProfile | backend/controllers/userController.js:145-158 | `ReadsProfile`: 200 with the caller's password-free account, or with null when it is gone |
| Accounts.Store.UpdateProfile | backend/controllers/userController.js:161-210 | `UpdatesProfile`: 404 without an account; a supplied, differing email that any account holds is answered 400 and nothing is saved; otherwise only the supplied name and email change, other fields keep their values, and a schema failure is answered 400 |
| Accounts.Store.ChangePassword | backend/controllers/userController.js:213-257 | `ChangesPassword`: 404, a missing current password 500, a wrong one 401, a missing new password 500, a new password the digest accepts 400, each with no change; a new password equal to the stored digest string leaves the path unmodified, so 200 with nothing saved; a new password failing the schema 400; otherwise only the password (and `updatedAt`) changes. After a 200 the new password matches and the current one does not exactly when the password was replaced |
| Accounts.Store.SetStatus | backend/controllers/userController.js:45-138 | `SetsStatus`, for activate and deactivate: an uncastable id 404, a missing account 404, the caller's own account 400 whatever its status, an account already in that status 400; otherwise only that account's status (and `updatedAt`) changes |
| Accounts.Store.GetAllUsers | backend/controllers/userController.js:9-42 | `ListsUsers`: `page`/`limit` default to 1 and 5; `skip` is `(page - 1) * limit`, a negative one makes the query fail (500); the reply lists the newest-first `user`-role accounts from `skip`, at most `limit` of them, with the count of all of them and `ceil(total / limit)` pages |
| UserRoutes.LookaheadFindsIff | backend/routes/userRoutes.js:41 | a lookahead `(?=.*C)` succeeds exactly when the first line holds a character of `C` |
| UserRoutes.NameRule | backend/routes/userRoutes.js:18-22 | an absent name passes; a present one is trimmed and passes exactly when it counts 2 to 100 |
| UserRoutes.EmailRule | backend/routes/userRoutes.js:23-28 | an absent email passes; a present one is trimmed and passes exactly when `isEmail` accepts it, and is then normalised |
| UserRoutes.ProfileRules | backend/routes/userRoutes.js:17-29 | the profile form passes exactly when each present field passes its rule; the sanitized `fullName` is the trimmed name; the sanitized `email` is absent when it was, and the normalised trimmed email when the form passes; no other field changes |
| UserRoutes.SchemaNamesPassRoute | backend/routes/userRoutes.js:18-22 | every name the schema accepts, barring variation selectors, passes the route's rule |
| UserRoutes.ShortNamePassesRoute | backend/routes/userRoutes.js:21 | the route's rule is looser than the schema: "Al" passes it and then fails "at least 4 characters" |
| UserRoutes.LongNamePassesRoute | backend/routes/userRoutes.js:21 | a 31-letter name passes the route's rule and then fails "cannot exceed 30 characters" |
| UserRoutes.PasswordRules | backend/routes/userRoutes.js:32-54 | the password form passes exactly when the current password is non-empty, the new one counts at least 8 and is strong, and the confirmation is non-empty and equal to it; which errors a failing form reports is stated by `PasswordRulesReport` |
| UserRoutes.Failing | backend/routes/userRoutes.js:32-54 | running a chain of validators that never bail lists exactly the validators of the chain that fail, in chain order |
| UserRoutes.PasswordFailures | backend/routes/userRoutes.js:32-54 | the failing validators of the password form are exactly those whose condition fails (`notEmpty` on each field, `isLength({ min: 8 })` and `matches` on the new password, and `confirmPassword !== newPassword`), each once, in chain order |
| UserRoutes.ReportInjective | backend/routes/userRoutes.js:33-50 | no two validators of the password form report the same field and message |
| UserRoutes.PasswordRulesReport | backend/routes/userRoutes.js:32-54 | a validator's field and message are among the reported errors exactly when that validator fails; the report holds one entry per failing validator, in chain order, and nothing else |
| UserRoutes.PasswordPolicy | backend/routes/userRoutes.js:36-44 | a password is accepted exactly when it counts at least 8 and its first line holds a lower-case letter, an upper-case letter and a digit |
| UserRoutes.MissingNewPasswordReportsAll | backend/routes/userRoutes.js:36-44 | without a new password each of its three validators reports its own message |
| UserRoutes.Chain | backend/routes/userRoutes.js:59-80 | every route starts with `protect` and ends with its handler; admin routes run `authorize('admin')` between them; the form routes run their validation and the error report between them |
| UserRoutes.Apply | backend/routes/userRoutes.js:59-80 | one middleware: `protect` attaches the caller or answers, `authorize` passes or answers, the validation chains add their errors, `handleValidationErrors` answers 400 when there are any; `AuthenticationFirst`, `AdminRouteRun` and `FormRouteRun` state its effect on each route |
| UserRoutes.Run | backend/routes/userRoutes.js:59-80 | Express calling a route's handlers in order until one answers; `AuthenticationFirst`, `AdminRoutesAdmitActiveAdmins`, `FormRouteRun` and `ProfileReadAdmission` state where each route stops or which state reaches its handler |
| UserRoutes.AuthenticationFirst | backend/routes/userRoutes.js:59-80 | on every route a refused token or account is answered by `protect` alone |
| UserRoutes.InactiveAdminStoppedByProtect | backend/routes/userRoutes.js:78-80 | an inactive administrator with a valid token gets 403 "deactivated" from `protect` and never reaches the role check |
| UserRoutes.AdminRoutesAdmitActiveAdmins | backend/routes/userRoutes.js:78-80 | an admin route's handler is reached exactly for the active administrator the token names |
| UserRoutes.AdminRouteRun | backend/routes/userRoutes.js:78-80 | after `protect` passes, an admin route answers with `authorize('admin')`'s refusal or reaches its handler with the caller attached |
| UserRoutes.FormRouteRun | backend/middleware/validate.js:4-21 | a non-empty error list is answered 400 "Validation failed" with all the errors; an empty one reaches the handler |
| UserRoutes.ProfileReadAdmission | backend/routes/userRoutes.js:59 | `GET /profile` reaches its handler for every authenticated caller |
| UserRoutes.ProfileRouteAdmission | backend/routes/userRoutes.js:60-66 | `PUT /profile` reaches its handler with the sanitized body exactly when the form passes, and otherwise answers 400 with its errors |
| UserRoutes.PasswordRouteAdmission | backend/routes/userRoutes.js:67-73 | `PUT /change-password` reaches its handler exactly when the form passes, and otherwise answers 400 with its errors |
| UserRoutes.ServeProfileRead | backend/routes/userRoutes.js:59 | after `protect`, the request reaches `getProfile`, which answers for the attached caller as `ReadsProfile` states and changes nothing |
| UserRoutes.ProfileUpdateServed | backend/routes/userRoutes.js:60-66 | a failing profile form is answered 400 with its errors and changes nothing; a passing one gets `updateProfile`'s effect for the attached caller on the sanitized body |
| UserRoutes.ServeProfileUpdate | backend/routes/userRoutes.js:60-66 | after `protect`, validation and the error report, the request gets `updateProfile`'s answer and effect (`UpdatesProfile`) for the attached caller on the sanitized body |
| UserRoutes.PasswordChangeServed | backend/routes/userRoutes.js:67-73 | a failing password form is answered 400 with its errors and changes nothing; a passing one gets `changePassword`'s effect for the attached caller |
| UserRoutes.ServePasswordChange | backend/routes/userRoutes.js:67-73 | after `protect`, validation and the error report, the request gets `changePassword`'s answer and effect (`ChangesPassword`) for the attached caller |
| UserRoutes.ServeAdmin | backend/routes/userRoutes.js:78-80 | after `protect` and `authorize('admin')`, `GET /` gets `getAllUsers`'s answer (`ListsUsers`) with no change, `PUT /:id/activate` sets the target active and `PUT /:id/deactivate` sets it inactive (`SetsStatus`) |
| UserRoutes.Dispatch | backend/routes/userRoutes.js:59-80 | a request stopped by a middleware gets that middleware's answer and leaves the store unchanged; a request that reaches its handler carries the attached user and sanitized body and gets the handler its route is registered with (`Handled`), run for that user on that body; no id is allocated |

## Left out

- The React front end, the axios wrapper, backend/config/db.js and backend/scripts/checkUsers.js. These are UI, connection set-up, process exit and console output. The wrapper sends `Bearer ${token}`, which is the form `BearerTokenRoundTrip` covers.
- backend/routes/authRoutes.js is not part of this model. So `Signup`, `Login`, `GetMe` and `Logout` are modelled as handlers, but no middleware chain for them is.
- bcrypt: an abstract hash, so its salt, its cost and its 72-byte input limit are not modelled.
- JWT: an abstract sign/verify with an explicit clock. The secret and the `expiresIn` string are not modelled either.
- validator.js `isEmail`/`normalizeEmail` and the schema's email regular expression are abstract functions.
- Case mapping covers ASCII letters only. JavaScript's full Unicode `toLowerCase`/`toUpperCase` is not modelled.
- `async`/`await`, concurrent requests, and email races that the unique index resolves. Database and network failures, including the outer 500 catch of `protect`.
- `Date` values are an integer clock, and `console.log` output is not modelled.
- Accounts.Store.Signup: a lookup with an absent email matches nothing. This follows the driver serialising `undefined` as null, and no record stores a null email.
- Accounts.Store.GetAllUsers: the store's negative-skip error is modelled with a fixed message, without the offending value. Ordering among accounts with equal `createdAt` is taken to be id order. `page`, `limit` and `skip` are exact integers: JavaScript's double arithmetic is not modelled, so neither the `Infinity` that `parseInt` gives for a digit string of about 309 digits or more, nor the rounding of the parsed values and of `(page - 1) * limit` above 2^53.
- Http.Data: replies carry the whole password-free account where a handler picks a subset of its fields (`id`, `fullName`, `email`, `role`, `status`, …).
- UserModel.Violations: the messages of a ValidationError are taken in schema path order (name, email, password).
- UserRoutes.EmailRule: the sanitized value of an email that fails `isEmail` is taken to be the trimmed input. No handler sees it, because the request is answered 400.
- Http.Body: fields are strings or absent. JSON `null`, numbers and other non-string values are not modelled.
- Auth.Authorize: a stored role is never missing, so `authorize`'s "role missing" branch is reachable only without a user.
- ErrorHandling.HandleError: the `stack` member that is added in development mode is not modelled. For code 11000 without `keyValue`, the handler itself throws and Express's default handler answers 500 with its own page, not a JSON body; the model renders that answer as `Fail(500, "Internal Server Error")`.
- Accounts.Store.SetStatus models both `activateUser` and `deactivateUser`, which differ only in the target status and its messages.
