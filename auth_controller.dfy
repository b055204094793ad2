/**
 * The authentication handlers: issuing a session token, signup, login, the
 * `protect` gate, role restriction, and the forgot / reset / update password
 * flows.
 *
 * Handlers that only read the store (`login`, `protect`, `restrictTo`) are
 * functions of the store's contents. Handlers that load a document, assign
 * to its fields and save it are methods on the store object.
 */
module AuthController {
  import opened Wrappers
  import opened UserModel
  import opened Http
  import opened Collaborators
  import opened BearerToken

  /** `signToken(id)`: a session token for `id`, signed at time `now`. */
  function SignToken(env: Env, id: Id, now: int): (token: string)
    ensures VerifiesOwnTokens(env) ==> env.verify(token, now).Some? && env.verify(token, now).value.id == id
    ensures TokensAreB64(env) ==> IsB64Token(token)
  {
    env.sign(id, now)
  }

  /**
   * `createSendToken(user, statusCode, res)`: signs a token for `id`, sets it
   * as the `jwt` cookie and sends it with the user, whose password is blanked.
   */
  function CreateSendToken(env: Env, id: Id, user: UserRecord, statusCode: nat, now: int): (r: Response)
    ensures r.code == statusCode && r.status == Some("success")
    ensures r.token == Some(SignToken(env, id, now))
    ensures r.user.Some? && r.user.value.password.None? && r.user.value.(password := user.password) == user
    ensures r.cookie.Some? && r.cookie.value.name == "jwt" && r.cookie.value.value == r.token.value
    ensures r.cookie.value.expires == now + env.cookieExpiresInDays * 86_400_000
    ensures r.cookie.value.httpOnly && (r.cookie.value.secure <==> env.production)
  {
    var token := SignToken(env, id, now);
    var cookieOptions := Cookie("jwt", token, now + env.cookieExpiresInDays * 24 * 60 * 60 * 1000, true, env.production);
    var sent := user.(password := None);
    Response(statusCode, Some("success"), NoMessage, Some(token), Some(sent), Some(cookieOptions))
  }

  // ----- signup -----

  /** The reply when `User.create` throws. */
  const SignupFailed: Response := Json(404, Some("fail"), ErrorObject)

  /**
   * `signup`: creates a document from the body's name, email, password,
   * passwordChangedAt and role, as given, and logs the new user in.
   * `accepted` is the verdict of the schema's validation on `User.create`
   * and `newId` the id the database assigns.
   */
  method Signup(env: Env, store: UserStore, name: Option<string>, email: Option<string>,
                password: Option<string>, passwordChangedAt: Option<int>, role: Option<string>,
                accepted: bool, newId: Id, now: int) returns (r: Response)
    requires newId !in store.users
    modifies store
    ensures !accepted ==> r == SignupFailed && store.users == old(store.users)
    ensures accepted ==> store.users.Keys == old(store.users).Keys + {newId}
    ensures accepted ==> forall j :: j in old(store.users) ==> store.users[j] == old(store.users)[j]
    ensures accepted ==> var u := store.users[newId];
      && u.name == name && u.email == email && u.password == password
      && u.passwordChangedAt == passwordChangedAt
      && (role.Some? ==> u.role == role.value) && (role.None? ==> u.role == env.defaultRole)
      && u.passwordResetToken.None? && u.passwordResetExpires.None? && u.active
    ensures accepted ==> r == CreateSendToken(env, newId, store.users[newId], 201, now)
  {
    if !accepted {
      return SignupFailed;
    }
    var newUser := UserRecord(name, email, password, role.GetOr(env.defaultRole), passwordChangedAt,
                              None, None, true);
    store.Insert(newId, newUser);
    r := CreateSendToken(env, newId, newUser, 201, now);
  }

  // ----- login -----

  const MissingCredentials: Response := Json(400, Some("fail"), Text("Please provide email and password"))
  const IncorrectCredentials: Response := Json(401, Some("fail"), Text("Incorrect email or password"))

  /**
   * `login`: both fields must be truthy; then the first user with that email
   * must exist and the password must match. Unknown email and wrong password
   * give the same reply.
   */
  function Login(env: Env, users: map<Id, UserRecord>, email: Option<string>, password: Option<string>,
                 now: int): (r: Response)
    ensures r.code == 400 <==> !Truthy(email) || !Truthy(password)
    ensures r.code == 400 ==> r == MissingCredentials
    ensures r.code == 401 ==> r == IncorrectCredentials
    ensures r.code == 200 || r.code == 400 || r.code == 401
    ensures r.code == 200 <==>
      && Truthy(email) && Truthy(password)
      && FindByEmail(users, email.value).Some?
      && env.correctPassword(password, users[FindByEmail(users, email.value).value].password)
    ensures r.code == 200 ==>
      var id := FindByEmail(users, email.value).value;
      r.token == Some(SignToken(env, id, now)) && r.user == Some(DefaultRead(users[id]))
    ensures r.code == 200 ==>
      var id := FindByEmail(users, email.value).value;
      r == CreateSendToken(env, id, users[id], 200, now)
  {
    if !Truthy(email) || !Truthy(password) then
      MissingCredentials
    else
      match FindByEmail(users, email.value)
      case None => IncorrectCredentials
      case Some(id) =>
        var user := users[id];
        if !env.correctPassword(password, user.password) then IncorrectCredentials
        else CreateSendToken(env, id, user, 200, now)
  }

  /** An unknown email and a wrong password for a known one get identical replies. */
  lemma LoginDoesNotRevealWhichCheckFailed(env: Env, users: map<Id, UserRecord>,
                                           unknown: string, known: string, guess1: string, guess2: string,
                                           now: int)
    requires unknown != "" && known != "" && guess1 != "" && guess2 != ""
    requires forall j :: j in users ==> users[j].email != Some(unknown)
    requires FindByEmail(users, known).Some?
    requires !env.correctPassword(Some(guess2), users[FindByEmail(users, known).value].password)
    ensures Login(env, users, Some(unknown), Some(guess1), now) == Login(env, users, Some(known), Some(guess2), now)
    ensures Login(env, users, Some(unknown), Some(guess1), now) == IncorrectCredentials
  {
  }

  // ----- protect -----

  /** The outcome of `protect`: the request goes on with the user attached, or is refused. */
  datatype Access = Granted(id: Id, user: UserRecord) | Denied(response: Response)

  const NotLoggedIn: Response := Json(401, None, Text("You're not logged in!. Please log in to get access"))
  const InvalidToken: Response := Json(401, Some("fail"), TextWithError("Invalid token, Please log in"))
  const UserGone: Response := Json(401, Some("fail"), Text("The user belonging to this token does not exist"))
  const PasswordChanged: Response := Json(401, Some("fail"), Text("User recently changed passowrd! Please log in again!"))

  /**
   * `protect`: grants access only if a non-empty bearer token is present, it
   * verifies, its subject still exists, and the subject has not changed the
   * password after the token was issued. Everything else is a 401 with no
   * user attached. The store is only read.
   */
  function Protect(env: Env, users: map<Id, UserRecord>, authorization: Option<string>, now: int): (r: Access)
    ensures r.Granted? <==>
      var token := ExtractBearerToken(authorization);
      && token.Some? && token.value != ""
      && env.verify(token.value, now).Some?
      && env.verify(token.value, now).value.id in users
      && !env.changedPasswordAfter(DefaultRead(users[env.verify(token.value, now).value.id]),
                                   env.verify(token.value, now).value.iat)
    ensures r.Granted? ==>
      && r.id == env.verify(ExtractBearerToken(authorization).value, now).value.id
      && r.id in users && r.user == DefaultRead(users[r.id])
    ensures r.Denied? ==> r.response.code == 401 && r.response.token.None? && r.response.user.None?
  {
    var token := ExtractBearerToken(authorization);
    if token.None? || token.value == "" then
      Denied(NotLoggedIn)
    else
      match env.verify(token.value, now)
      case None => Denied(InvalidToken)
      case Some(decoded) =>
        if decoded.id !in users then
          Denied(UserGone)
        else
          var currentUser := DefaultRead(users[decoded.id]);
          if env.changedPasswordAfter(currentUser, decoded.iat) then Denied(PasswordChanged)
          else Granted(decoded.id, currentUser)
  }

  /** `Authorization: Bearer` with no token is refused as not logged in. */
  lemma ProtectRefusesBareScheme(env: Env, users: map<Id, UserRecord>, now: int)
    ensures Protect(env, users, Some(Scheme), now) == Denied(NotLoggedIn)
  {
  }

  /** Two spaces after the scheme leave an empty token, refused as not logged in. */
  lemma ProtectRefusesEmptyToken(env: Env, users: map<Id, UserRecord>, rest: string, now: int)
    ensures Protect(env, users, Some(Scheme + [Space, Space] + rest), now) == Denied(NotLoggedIn)
  {
    DoubleSpaceYieldsEmptyToken(Scheme, rest);
  }

  /**
   * A token that login issues, sent back as `Authorization: Bearer <token>`
   * at the same instant, lets its user through `protect`, unless the user's
   * password counts as changed after the token's `iat`.
   */
  lemma {:induction false} LoginThenProtect(env: Env, users: map<Id, UserRecord>, email: string, password: string,
                                            now: int)
    requires VerifiesOwnTokens(env) && TokensAreB64(env)
    requires Login(env, users, Some(email), Some(password), now).code == 200
    requires var id := FindByEmail(users, email).value;
      !env.changedPasswordAfter(DefaultRead(users[id]), env.verify(SignToken(env, id, now), now).value.iat)
    ensures var id := FindByEmail(users, email).value;
      var token := Login(env, users, Some(email), Some(password), now).token.value;
      Protect(env, users, Some(Scheme + [Space] + token), now) == Granted(id, DefaultRead(users[id]))
  {
    var id := FindByEmail(users, email).value;
    var token := SignToken(env, id, now);
    BearerRoundTrip(token);
    assert env.verify(token, now).value.id == id;
  }

  // ----- restrictTo -----

  /** The outcome of `restrictTo(...roles)`: the request goes on unchanged, or is refused. */
  datatype Gate = Pass | Forbidden(response: Response)

  const NoPermission: Response := Json(403, None, Text("You do not have permission to perform this action"))

  /** `restrictTo(...roles)`: passes exactly the users whose role is listed. */
  function RestrictTo(roles: seq<string>, user: UserRecord): (r: Gate)
    ensures r.Pass? <==> user.role in roles
    ensures r.Forbidden? ==> r.response == NoPermission && r.response.code == 403
  {
    if user.role !in roles then Forbidden(NoPermission) else Pass
  }

  // ----- forgotPassword -----

  const NoUserWithEmail: Response := Json(404, None, Text("There is no user with this email address"))
  const TokenSent: Response := Json(200, Some("success"), Text("Token sent to email!"))
  const DeliveryFailed: Response := Json(200, Some("fail"), ErrorObject)

  /**
   * `forgotPassword`: stores the digest and expiry of a fresh reset token on
   * the first user with `email` and mails the raw token; if the mail fails,
   * both reset fields are cleared again. `resetToken` and `resetExpires` are
   * what the user model's `createPasswordResetToken` generates, and
   * `delivered` whether `sendEmail` succeeded.
   */
  method ForgotPassword(env: Env, store: UserStore, email: string, resetToken: string, resetExpires: int,
                        delivered: bool) returns (r: Response)
    modifies store
    ensures (r == NoUserWithEmail) <==> forall j :: j in old(store.users) ==> old(store.users)[j].email != Some(email)
    ensures r == NoUserWithEmail ==> store.users == old(store.users)
    ensures r != NoUserWithEmail ==>
      var id := FindByEmail(old(store.users), email).value;
      var before := old(store.users)[id];
      && OnlyRecordChanged(old(store.users), store.users, id)
      && store.users[id] == before.(passwordResetToken := store.users[id].passwordResetToken,
                                    passwordResetExpires := store.users[id].passwordResetExpires)
      && (delivered ==> r == TokenSent
                        && store.users[id].passwordResetToken == Some(env.sha256Hex(resetToken))
                        && store.users[id].passwordResetExpires == Some(resetExpires))
      && (!delivered ==> r == DeliveryFailed
                         && store.users[id].passwordResetToken.None?
                         && store.users[id].passwordResetExpires.None?)
  {
    var found := FindByEmail(store.users, email);
    if found.None? {
      return NoUserWithEmail;
    }
    var id := found.value;
    var user := store.users[id];
    user := user.(passwordResetToken := Some(env.sha256Hex(resetToken)));
    user := user.(passwordResetExpires := Some(resetExpires));
    store.Save(id, user);
    if delivered {
      r := TokenSent;
    } else {
      user := user.(passwordResetToken := None);
      user := user.(passwordResetExpires := None);
      store.Save(id, user);
      r := DeliveryFailed;
    }
  }

  // ----- resetPassword -----

  const InvalidResetToken: Response := Json(400, None, Text("Token is invalid or has expired"))
  const ResetSaveFailed: Response := Json(200, Some("fail"), ErrorObject)

  /**
   * `after` is `before` with the record `id`, which held a live reset token
   * with `digest`, given the new password and both reset fields cleared.
   */
  ghost predicate Redeemed(before: map<Id, UserRecord>, after: map<Id, UserRecord>, id: Id,
                           digest: string, now: int, password: Option<string>)
  {
    && id in before && LiveReset(before[id], digest, now)
    && after == before[id := before[id].(password := password, passwordResetToken := None,
                                         passwordResetExpires := None)]
  }

  /**
   * `resetPassword`: finds the first user holding the digest of `resetToken`
   * with an expiry strictly after `now`, sets the new password, clears both
   * reset fields and saves; `saveOk` is the verdict of the schema's
   * validation on that save. On success a fresh session token is sent.
   */
  method ResetPassword(env: Env, store: UserStore, resetToken: string, password: Option<string>,
                       saveOk: bool, now: int) returns (r: Response)
    modifies store
    ensures (r == InvalidResetToken) <==>
      forall j :: j in old(store.users) ==> !LiveReset(old(store.users)[j], env.sha256Hex(resetToken), now)
    ensures r.token.Some? <==>
      saveOk && exists j :: j in old(store.users) && LiveReset(old(store.users)[j], env.sha256Hex(resetToken), now)
    ensures r.token.None? ==> store.users == old(store.users)
    ensures !saveOk && (exists j :: j in old(store.users) && LiveReset(old(store.users)[j], env.sha256Hex(resetToken), now)) ==>
      r == ResetSaveFailed
    ensures r.token.Some? ==>
      && FindByResetToken(old(store.users), env.sha256Hex(resetToken), now).Some?
      && var id := FindByResetToken(old(store.users), env.sha256Hex(resetToken), now).value;
      && Redeemed(old(store.users), store.users, id, env.sha256Hex(resetToken), now, password)
      && r == Json(200, Some("success"), NoMessage).(token := Some(SignToken(env, id, now)))
  {
    var hashedToken := env.sha256Hex(resetToken);
    var found := FindByResetToken(store.users, hashedToken, now);
    if found.None? {
      return InvalidResetToken;
    }
    var id := found.value;
    var user := store.users[id];
    user := user.(password := password);
    user := user.(passwordResetToken := None);
    user := user.(passwordResetExpires := None);
    if !saveOk {
      return ResetSaveFailed;
    }
    store.Save(id, user);
    var token := SignToken(env, id, now);
    r := Json(200, Some("success"), NoMessage).(token := Some(token));
    assert Redeemed(old(store.users), store.users, id, hashedToken, now, password);
  }

  /**
   * After a redemption, the digest is live on no record any more, provided
   * no other record held the same digest: the reset token is single-use.
   */
  lemma RedeemedTokenIsSpent(before: map<Id, UserRecord>, after: map<Id, UserRecord>, id: Id,
                             digest: string, now: int, password: Option<string>, later: int)
    requires Redeemed(before, after, id, digest, now, password)
    requires forall j :: j in before && j != id ==> before[j].passwordResetToken != Some(digest)
    ensures forall j :: j in after ==> !LiveReset(after[j], digest, later)
  {
  }

  // ----- updatePassword -----

  const WrongCurrentPassword: Response := Json(401, None, Text("Your current password is wrong"))

  /**
   * `updatePassword`, for the user `id` that `protect` attached: the current
   * password must match; then the new one is saved (`saveOk` is the schema's
   * verdict) and the user is logged in again. A missing user or a failed save
   * rejects the handler's promise without a reply.
   */
  method UpdatePassword(env: Env, store: UserStore, id: Id, passwordCurrent: Option<string>,
                        password: Option<string>, saveOk: bool, now: int) returns (r: Reply)
    modifies store
    ensures id !in old(store.users) ==> r == Unhandled && store.users == old(store.users)
    ensures id in old(store.users) && !env.correctPassword(passwordCurrent, old(store.users)[id].password) ==>
      r == Sent(WrongCurrentPassword) && store.users == old(store.users)
    ensures id in old(store.users) && env.correctPassword(passwordCurrent, old(store.users)[id].password) ==>
      && (!saveOk ==> r == Unhandled && store.users == old(store.users))
      && (saveOk ==> store.users == old(store.users)[id := old(store.users)[id].(password := password)]
                     && r == Sent(CreateSendToken(env, id, store.users[id], 200, now)))
  {
    if id !in store.users {
      return Unhandled;
    }
    var user := store.users[id];
    if !env.correctPassword(passwordCurrent, user.password) {
      return Sent(WrongCurrentPassword);
    }
    user := user.(password := password);
    if !saveOk {
      return Unhandled;
    }
    store.Save(id, user);
    r := Sent(CreateSendToken(env, id, user, 200, now));
  }
}
