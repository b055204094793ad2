/**
 * The password-reset protocol across requests: what a client observes when
 * handlers run one after another on the same store.
 */
module AuthScenarios {
  import opened Wrappers
  import opened UserModel
  import opened Http
  import opened Collaborators
  import opened AuthController

  /** No two records hold the same reset digest. */
  ghost predicate DigestsDistinct(users: map<Id, UserRecord>)
  {
    forall i, j :: i in users && j in users && i != j && users[i].passwordResetToken.Some? ==>
      users[i].passwordResetToken != users[j].passwordResetToken
  }

  /** A reset token redeemed once is refused the second time, whatever the time. */
  method RedeemTwice(env: Env, store: UserStore, resetToken: string, password1: Option<string>,
                     password2: Option<string>, saveOk1: bool, saveOk2: bool, now1: int, now2: int)
    returns (first: Response, second: Response)
    requires DigestsDistinct(store.users)
    modifies store
    ensures first.token.Some? ==> second == InvalidResetToken
  {
    ghost var before := store.users;
    first := ResetPassword(env, store, resetToken, password1, saveOk1, now1);
    ghost var afterFirst := store.users;
    if first.token.Some? {
      ghost var id := FindByResetToken(before, env.sha256Hex(resetToken), now1).value;
      RedeemedTokenIsSpent(before, afterFirst, id, env.sha256Hex(resetToken), now1, password1, now2);
    }
    second := ResetPassword(env, store, resetToken, password2, saveOk2, now2);
  }

  /**
   * A reset token mailed by forgotPassword and redeemed before its expiry
   * resets the password of the user it was mailed to and clears the token,
   * provided no other record holds the same digest.
   */
  method ForgotThenReset(env: Env, store: UserStore, email: string, resetToken: string, resetExpires: int,
                         password: Option<string>, now: int)
    returns (forgot: Response, reset: Response)
    requires FindByEmail(store.users, email).Some?
    requires forall j :: j in store.users && j != FindByEmail(store.users, email).value ==>
      store.users[j].passwordResetToken != Some(env.sha256Hex(resetToken))
    requires now < resetExpires
    modifies store
    ensures forgot == TokenSent
    ensures reset.token.Some?
    ensures var id := FindByEmail(old(store.users), email).value;
      && OnlyRecordChanged(old(store.users), store.users, id)
      && store.users[id] == old(store.users)[id].(password := password, passwordResetToken := None,
                                                  passwordResetExpires := None)
  {
    ghost var id := FindByEmail(store.users, email).value;
    forgot := ForgotPassword(env, store, email, resetToken, resetExpires, true);
    ghost var mailed := store.users;
    assert LiveReset(mailed[id], env.sha256Hex(resetToken), now);
    assert forall j :: j in mailed && j != id ==> !LiveReset(mailed[j], env.sha256Hex(resetToken), now);
    reset := ResetPassword(env, store, resetToken, password, true, now);
  }

  /** A reset token presented at or after its expiry is refused and changes nothing. */
  method ForgotThenLateReset(env: Env, store: UserStore, email: string, resetToken: string, resetExpires: int,
                             password: Option<string>, saveOk: bool, now: int)
    returns (forgot: Response, reset: Response)
    requires FindByEmail(store.users, email).Some?
    requires forall j :: j in store.users && j != FindByEmail(store.users, email).value ==>
      store.users[j].passwordResetToken != Some(env.sha256Hex(resetToken))
    requires resetExpires <= now
    modifies store
    ensures reset == InvalidResetToken
  {
    forgot := ForgotPassword(env, store, email, resetToken, resetExpires, true);
    reset := ResetPassword(env, store, resetToken, password, saveOk, now);
  }

  /**
   * With an injective digest, a token other than the one mailed does not
   * redeem the mailed user's reset, even the user's earlier, still-live
   * token, which the new one overwrote.
   */
  method ForgotThenWrongToken(env: Env, store: UserStore, email: string, resetToken: string, guess: string,
                              resetExpires: int, password: Option<string>, saveOk: bool, now: int)
    returns (forgot: Response, reset: Response)
    requires DigestInjective(env)
    requires guess != resetToken
    requires FindByEmail(store.users, email).Some?
    requires forall j :: j in store.users && j != FindByEmail(store.users, email).value ==>
      !LiveReset(store.users[j], env.sha256Hex(guess), now)
    modifies store
    ensures reset == InvalidResetToken
  {
    forgot := ForgotPassword(env, store, email, resetToken, resetExpires, true);
    assert env.sha256Hex(guess) != env.sha256Hex(resetToken);
    reset := ResetPassword(env, store, guess, password, saveOk, now);
  }

  /**
   * signup stores the role the request asks for, so a new account that asks
   * for any role passes `restrictTo` for that role.
   */
  method SignupChoosesRole(env: Env, store: UserStore, email: string, password: string, role: string,
                           newId: Id, now: int) returns (r: Response, gate: Gate)
    requires newId !in store.users
    modifies store
    ensures gate == Pass
  {
    r := Signup(env, store, None, Some(email), Some(password), None, Some(role), true, newId, now);
    gate := RestrictTo([role], store.users[newId]);
  }
}
