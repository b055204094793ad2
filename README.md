# Authentication and self-service account handlers, modelled in Dafny

This project models the account logic of a Node.js/Express API backend:
the handlers in `controllers/authController.js` (token issuance, signup,
login, the `protect` session gate, `restrictTo` role gating, and the
forgot / reset / update password flows) and the self-service handlers in
`controllers/userController.js` (`filterObj`, `updateMe`, `deleteMe` and
four unimplemented routes).

Structure:

- `wrappers.dfy`: `Option`, standing for JavaScript's `undefined`.
- `user_model.dfy` (module `UserModel`): the user record, the two queries the
  controllers issue (`findOne` by email, `findOne` by reset digest and
  expiry), and the store class `UserStore` whose map from id to record is
  reassigned by `save()`. A loaded document is a copy: assigning to its
  fields changes the store only when it is saved. This is why
  `createSendToken` blanking `user.password` never reaches the store.
- `bearer_token.dfy` (module `BearerToken`): the `Authorization` header parser
  of `protect`, with JavaScript's `split(' ')` written out. The code is looser
  than the `Bearer` scheme of section 2.1 of RFC 6750, and lemmas pin down how.
- `collaborators.dfy` (module `Collaborators`): the code the controllers call
  but do not define, passed in as a value `Env` of functions. This covers JWT
  sign/verify (RFC 7519), SHA-256 hex, `correctPassword`,
  `changedPasswordAfter`, the schema's default role and the environment
  variables. The properties the proofs rely on are ghost predicates:
  verify-after-sign, tokens are `b64token`s, and the digest is injective.
- `http.dfy` (module `Http`): a response is a status code, the JSON body's
  fields and an optional cookie. `Reply.Unhandled` stands for a handler whose
  promise rejects without sending anything.
- `auth_controller.dfy` (module `AuthController`): `login`, `protect`,
  `restrictTo`, `signToken` and `createSendToken` only read, so they are
  functions. `signup`, `forgotPassword`, `resetPassword` and `updatePassword`
  load, assign and save, so they are methods on the store with
  `modifies store`.
- `auth_scenarios.dfy` (module `AuthScenarios`): the reset protocol across
  several requests, as client methods that call the handlers in sequence.
  They cover single use, redemption before expiry, refusal after expiry and
  refusal of a wrong token. A last method shows that signup lets the client
  pick its own role.
- `user_controller.dfy` (module `UserController`): `filterObj` as a loop over
  the keys, specified by the map comprehension `Whitelist`. It also holds
  `updateMe` and `deleteMe` as patches of the caller's record, and the four
  constant 500 routes.

Inputs that come from outside the code are parameters:

- the clock is `now`, in milliseconds;
- the random reset token and its expiry come from the unseen
  `createPasswordResetToken`;
- the id the database assigns is `newId`;
- whether the email was delivered is `delivered`;
- the verdict of the unseen schema validation is `accepted` or `saveOk`.

When several documents match a `findOne`, the model takes the one with the
least id, which stands for the collection's natural order.

The model follows the code as written, including where it departs from
common practice:

- `signup` stores the request's `role` and `passwordChangedAt` as given.
  It does not apply a default role when a role is supplied.
- `forgotPassword` answers an unknown email with 404. An email-delivery
  failure is answered with status 200 and `status: 'fail'`. The rollback
  clears both reset fields; it does not restore any earlier reset token.
- `resetPassword` does not set `passwordChangedAt`, and it does not compare
  the new password with its confirmation itself. Both are left to the user
  model, which is not part of this model.
- `updatePassword` has no error handling. A missing user or a failed save
  rejects the promise without a reply (`Unhandled`).
- `updateMe` has no error handling either. A failed validation rejects the
  promise without a reply (`Unhandled`). A missing user is not an error:
  `findByIdAndUpdate` yields `null`, and the reply is 200 with `user: null`.

## Model

| member | source | states |
|---|---|---|
| `BearerToken.Split` | controllers/authController.js:84 | `split(' ')` yields at least one field, and no field contains the separator |
| `BearerToken.JoinSplit` | controllers/authController.js:84 | joining the fields of a split with the separator gives back the header |
| `BearerToken.SplitJoin` | controllers/authController.js:84 | splitting the join of separator-free fields gives back those fields |
| `BearerToken.ExtractBearerToken` | controllers/authController.js:82-85 | a token is read only from a present header starting with `Bearer`; it holds no space |
| `BearerToken.TokenIsSecondField` | controllers/authController.js:83-85 | the token is exactly the text between the header's first space and the next space or the end |
| `BearerToken.ExtractIgnoresLaterFields` | controllers/authController.js:84 | with a third field, as in `Bearer abc def`, the token is still exactly the second field |
| `BearerToken.BearerRoundTrip` | controllers/authController.js:83-85 | `Bearer <t>` for any RFC 6750 `b64token` t yields exactly t |
| `BearerToken.BareSchemeHasNoToken` | controllers/authController.js:83-85 | `Bearer` alone yields no token |
| `BearerToken.LowerCaseSchemeHasNoToken` | controllers/authController.js:83 | the scheme check is case-sensitive: `bearer abc` yields no token |
| `BearerToken.SchemeNeedNotEndAtSpace` | controllers/authController.js:83-84 | no space is required after `Bearer`: `Bearerx abc` yields `abc` |
| `BearerToken.DoubleSpaceYieldsEmptyToken` | controllers/authController.js:84 | two spaces after the scheme yield the empty token |
| `BearerToken.B64TokenHasNoSpace` | controllers/authController.js:84 | a `b64token` is non-empty and space-free, so it survives the split |
| `UserModel.FirstMatch` | controllers/authController.js:67 | `findOne(filter)` returns the first record in natural order that the filter matches, and none exactly when no record matches |
| `UserModel.FindByEmail` | controllers/authController.js:67 | `findOne({ email })` finds the first record with that email, and finds none exactly when no record has it |
| `UserModel.FindByResetToken` | controllers/authController.js:183 | finds the first record whose digest matches and whose expiry is strictly later than now; none exactly when no record is live |
| `UserModel.DefaultRead` | controllers/authController.js:103 | a read without `.select('+password')` returns the record with no password and differs from it in nothing else |
| `UserModel.UserStore.Insert` | controllers/authController.js:36-43 | `create` stores the new record under a fresh id and touches no other record |
| `UserModel.UserStore.Save` | controllers/authController.js:148 | `save()` replaces the stored record under its id and touches no other record |
| `AuthController.SignToken` | controllers/authController.js:7-10 | under verify-after-sign, the token verifies to the id it was signed for; it is a `b64token` when signing yields those |
| `AuthController.CreateSendToken` | controllers/authController.js:13-31 | the reply carries the signed token and the same token as the `jwt` cookie. The user is returned with only the password blanked. The cookie expires now + days × 86,400,000 ms, is HttpOnly, and is Secure iff in production |
| `AuthController.Signup` | controllers/authController.js:33-51 | a rejected create is a 404 and changes nothing. Otherwise exactly one new record holds the body's fields, with role and passwordChangedAt as sent and no reset token, and the reply is a 201 `createSendToken` for it |
| `AuthController.Login` | controllers/authController.js:53-78 | 400 iff email or password is missing or empty, with a fixed reply that does not depend on the store. 401 is always the one reply "Incorrect email or password". 200 iff the first user with the email exists and the password matches; the reply is then exactly `createSendToken` for that user: its token, the `jwt` cookie, and the user without password |
| `AuthController.LoginDoesNotRevealWhichCheckFailed` | controllers/authController.js:67-74 | an unknown email and a wrong password for a known one get identical replies |
| `AuthController.Protect` | controllers/authController.js:80-123 | access is granted iff a non-empty bearer token is present, it verifies, its subject exists, and `changedPasswordAfter(iat)` is false. The attached user is that subject's record without password. Every refusal is a 401 with no user and no token |
| `AuthController.ProtectRefusesBareScheme` | controllers/authController.js:83-89 | `Authorization: Bearer` alone is refused as not logged in |
| `AuthController.ProtectRefusesEmptyToken` | controllers/authController.js:84-89 | two spaces after the scheme leave an empty token, refused as not logged in |
| `AuthController.LoginThenProtect` | controllers/authController.js:53-123 | a token from a successful login, sent back as `Bearer <token>`, grants access to that same user, when presented at the same instant it was issued, unless the password counts as changed after its `iat` |
| `AuthController.RestrictTo` | controllers/authController.js:125-137 | passes iff the attached user's role is listed; otherwise 403 with the fixed message |
| `AuthController.ForgotPassword` | controllers/authController.js:139-177 | an unknown email is a 404 and changes nothing. Otherwise only the first matching record changes, and only in its reset fields. On delivery they hold the digest and expiry; on delivery failure both are cleared and the reply is 200 `fail` |
| `AuthController.ResetPassword` | controllers/authController.js:179-210 | 400 "Token is invalid or has expired" iff no record holds the token's digest with expiry strictly after now. A token is issued iff such a record exists and the save succeeds. Then the first such record alone gets the new password and both reset fields cleared, and the token is signed for it. A failed save of a live reset is 200 `fail`. Otherwise nothing changes |
| `AuthController.RedeemedTokenIsSpent` | controllers/authController.js:190-194 | after a redemption, the digest is live on no record at any time, unless another record held the same digest |
| `AuthController.UpdatePassword` | controllers/authController.js:212-227 | a wrong current password is a 401 with the store unchanged. A missing user or a failed save sends nothing and changes nothing. Otherwise only that user's password changes and the reply is a 200 `createSendToken` |
| `AuthScenarios.RedeemTwice` | controllers/authController.js:182-194 | when digests are distinct, a second redemption of a token that succeeded once gets 400 "Token is invalid or has expired" |
| `AuthScenarios.ForgotThenReset` | controllers/authController.js:139-210 | provided no other record already holds the new token's digest, a mailed token redeemed before its expiry resets the password of the user it was mailed to and clears both reset fields; no other record changes |
| `AuthScenarios.ForgotThenLateReset` | controllers/authController.js:183-187 | provided no other record already holds the new token's digest, a mailed token redeemed at or after its expiry is refused with 400 |
| `AuthScenarios.ForgotThenWrongToken` | controllers/authController.js:182-187 | with an injective digest, a token other than the mailed one is refused with 400, provided no other record holds a live reset under the guessed token |
| `AuthScenarios.SignupChoosesRole` | controllers/authController.js:41-42 | an account created with any requested role passes `restrictTo` for that role |
| `UserController.Whitelist` | controllers/userController.js:4-10 | the result holds exactly the keys in both the object and the allowed list, each with its original value |
| `UserController.FilterObj` | controllers/userController.js:4-10 | the key-by-key loop builds a fresh object equal to `Whitelist(obj, allowed)`, and the input map is a value it cannot change |
| `UserController.WhitelistIdempotent` | controllers/userController.js:4-10 | filtering twice with the same fields equals filtering once |
| `UserController.WhitelistCommutes` | controllers/userController.js:4-10 | filtering by two lists, in either order, keeps exactly the keys both allow |
| `UserController.UpdateMe` | controllers/userController.js:25-46 | a truthy `password` or `passwordConfirm` is a 401 with no update. A failed validation sends nothing and changes nothing. A missing caller gets 200 with `user: null` and no change. Otherwise only the caller's record changes, and only `name` and `email` take the body's values; the reply carries it without password |
| `UserController.DeleteMe` | controllers/userController.js:48-55 | only the caller's record changes, and only `active` becomes false; the reply is always 204 |
| `UserController.GetUser` | controllers/userController.js:57-62 | always 500 "This route is not yet defined"; no state is touched |
| `UserController.CreateUser` | controllers/userController.js:64-69 | always 500 "This route is not yet defined"; no state is touched |
| `UserController.UpdateUser` | controllers/userController.js:71-76 | always 500 "This route is not yet defined"; no state is touched |
| `UserController.DeleteUser` | controllers/userController.js:78-83 | always 500 "This route is not yet defined"; no state is touched |

## Left out

- Cryptography: JWT signing and verification, SHA-256 and bcrypt are
  abstract functions in `Env`. Of their properties, only verify-after-sign,
  the token character set and digest injectivity are assumed, and only by
  the lemmas that need them. The freshness of reset tokens is a further
  assumption, on the next line.
- Reset tokens are assumed fresh: the scenarios in `AuthScenarios` require
  that no other record already holds the new token's digest
  (`DigestsDistinct` in `RedeemTwice`). This stands for the randomness of
  the unseen `createPasswordResetToken`. Without it, another record holding
  the same digest live would be the one `resetPassword` redeems.
- `ForgotPassword`: the reset digest it stores is `sha256Hex(resetToken)`,
  the same digest `resetPassword` computes. This stands for what the unseen
  `createPasswordResetToken` does; the model does not check it.
- `DefaultRead`: a read without `.select('+password')` omits the password.
  This stands for the unseen schema's default; the code's own
  `.select('+password')` at controllers/authController.js:67 and 214 implies
  it.
- `Signup`: a new account is stored with `active` true. This stands for the
  unseen schema's default; the controller does not set the field.
- `models/userModel.js` is not part of this model. That file holds
  `correctPassword`, `changedPasswordAfter`, `createPasswordResetToken`, the
  schema validators and the pre-save hooks. The stored password is the value
  the controller assigns. No hook hashes it or stamps `passwordChangedAt`. A
  reset token's expiry is a parameter; no 10-minute window is assumed.
- Query middleware of the user model is not modelled, for instance one that
  hides inactive users from `find` queries. In this model, `deleteMe`'s
  `active: false` does not affect later lookups.
- `passwordConfirm` is not a field of the record. It only feeds the unseen
  validator, whose verdict is the `accepted` / `saveOk` parameter.
- `forgotPassword` and `login` take the email as a string. The database's
  treatment of an `undefined` email in a query is not modelled for
  `forgotPassword`.
- Express mechanics are not modelled. This covers `res.cookie`, the
  `next(res...)` calls after a reply, and the reset URL and email text
  at controllers/authController.js:151-153. Error objects sent as `message`
  are the single value `ErrorObject`.
- Failures of the database itself, of `signToken`, or of `findOne` inside
  `resetPassword`'s `try` are not modelled. In `resetPassword` only the save
  can fail.
- Concurrency: each handler is one sequential transition on the store.
  Racing redemptions are not modelled.
- JSON values in `updateMe`'s body are strings, and truthiness is "present
  and non-empty".
- `getAllUsers` and `controllers/tourController.js` are not modelled: they
  are plain store reads and database queries.
- `dev-data/data/import-dev-data.js` is not modelled: it is file and database
  I/O only.
