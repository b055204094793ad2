/**
 * The self-service user handlers: the field whitelist `filterObj`, `updateMe`
 * and `deleteMe` as patches of the caller's own record, and the four routes
 * that are not implemented yet.
 */
module UserController {
  import opened Wrappers
  import opened UserModel
  import opened Http

  /** The object `filterObj(obj, ...allowed)` builds: the entries of `obj` whose key is allowed. */
  function Whitelist<V>(obj: map<string, V>, allowed: seq<string>): (r: map<string, V>)
    ensures forall k :: k in r <==> k in obj && k in allowed
    ensures forall k :: k in r ==> r[k] == obj[k]
  {
    map k | k in obj && k in allowed :: obj[k]
  }

  /** Whitelisting twice with the same fields is whitelisting once. */
  lemma WhitelistIdempotent<V>(obj: map<string, V>, allowed: seq<string>)
    ensures Whitelist(Whitelist(obj, allowed), allowed) == Whitelist(obj, allowed)
  {
  }

  /** Whitelisting by two lists, in either order, keeps the keys both allow. */
  lemma WhitelistCommutes<V>(obj: map<string, V>, first: seq<string>, second: seq<string>)
    ensures Whitelist(Whitelist(obj, first), second) == Whitelist(Whitelist(obj, second), first)
    ensures forall k :: k in Whitelist(Whitelist(obj, first), second) <==> k in obj && k in first && k in second
  {
  }

  /**
   * `filterObj(obj, ...allowedFields)`: walks the keys of `obj` and copies
   * each allowed entry into a fresh object; `obj` is left as it was.
   */
  method FilterObj<V>(obj: map<string, V>, allowedFields: seq<string>) returns (newObj: map<string, V>)
    ensures newObj == Whitelist(obj, allowedFields)
  {
    newObj := map[];
    var keys := obj.Keys;
    while keys != {}
      invariant keys <= obj.Keys
      invariant forall k :: k in newObj <==> k in obj && k !in keys && k in allowedFields
      invariant forall k :: k in newObj ==> newObj[k] == obj[k]
      decreases keys
    {
      var el :| el in keys;
      if el in allowedFields {
        newObj := newObj[el := obj[el]];
      }
      keys := keys - {el};
    }
  }

  const NotForPasswords: Response := Json(401, None, Text("This route is not for password updates. Please /updateMyPassword route"))

  /** `updateMe`'s reply carrying the updated user, or `null` when there is none. */
  function UpdatedUser(user: Option<UserRecord>): (r: Response)
    ensures r.code == 200 && r.status == Some("success") && r.user == user && r.token.None?
  {
    Json(200, Some("success"), NoMessage).(user := user)
  }

  /**
   * `updateMe`, for the user `id` that `protect` attached: refuses bodies
   * carrying a password, then writes the body's `name` and `email` (and
   * nothing else) to the caller's record. `saveOk` is the verdict of the
   * validators `findByIdAndUpdate` runs; a failure rejects the handler's
   * promise without a reply.
   */
  method UpdateMe(store: UserStore, id: Id, body: map<string, string>, saveOk: bool) returns (r: Reply)
    modifies store
    ensures Truthy(Field(body, "password")) || Truthy(Field(body, "passwordConfirm")) ==>
      r == Sent(NotForPasswords) && store.users == old(store.users)
    ensures !(Truthy(Field(body, "password")) || Truthy(Field(body, "passwordConfirm"))) ==>
      && (!saveOk ==> r == Unhandled && store.users == old(store.users))
      && (saveOk && id !in old(store.users) ==> r == Sent(UpdatedUser(None)) && store.users == old(store.users))
      && (saveOk && id in old(store.users) ==>
            && OnlyRecordChanged(old(store.users), store.users, id)
            && var before, after := old(store.users)[id], store.users[id];
            && after.(name := before.name, email := before.email) == before
            && after.name == (if "name" in body then Some(body["name"]) else before.name)
            && after.email == (if "email" in body then Some(body["email"]) else before.email)
            && r == Sent(UpdatedUser(Some(DefaultRead(after)))))
  {
    if Truthy(Field(body, "password")) || Truthy(Field(body, "passwordConfirm")) {
      return Sent(NotForPasswords);
    }
    var filteredBody := FilterObj(body, ["name", "email"]);
    if !saveOk {
      return Unhandled;
    }
    if id !in store.users {
      return Sent(UpdatedUser(None));
    }
    var updatedUser := store.users[id];
    if "name" in filteredBody {
      updatedUser := updatedUser.(name := Some(filteredBody["name"]));
    }
    if "email" in filteredBody {
      updatedUser := updatedUser.(email := Some(filteredBody["email"]));
    }
    store.Save(id, updatedUser);
    r := Sent(UpdatedUser(Some(DefaultRead(updatedUser))));
  }

  const Deleted: Response := Json(204, Some("success"), NoMessage)

  /**
   * `deleteMe`, for the user `id` that `protect` attached: marks the
   * caller's record inactive, changes nothing else, and replies 204.
   */
  method DeleteMe(store: UserStore, id: Id) returns (r: Response)
    modifies store
    ensures r == Deleted && r.code == 204
    ensures id in old(store.users) ==> store.users == old(store.users)[id := old(store.users)[id].(active := false)]
    ensures id !in old(store.users) ==> store.users == old(store.users)
  {
    if id in store.users {
      var user := store.users[id];
      store.Save(id, user.(active := false));
    }
    r := Deleted;
  }

  const NotYetDefined: Response := Json(500, Some("error"), Text("This route is not yet defined"))

  /** `getUser`: not implemented; always 500. */
  function GetUser(): (r: Response)
    ensures r.code == 500 && r.status == Some("error") && r.message == Text("This route is not yet defined")
    ensures r.user.None? && r.token.None?
  {
    NotYetDefined
  }

  /** `createUser`: not implemented; always 500. */
  function CreateUser(): (r: Response)
    ensures r.code == 500 && r.status == Some("error") && r.message == Text("This route is not yet defined")
    ensures r.user.None? && r.token.None?
  {
    NotYetDefined
  }

  /** `updateUser`: not implemented; always 500. */
  function UpdateUser(): (r: Response)
    ensures r.code == 500 && r.status == Some("error") && r.message == Text("This route is not yet defined")
    ensures r.user.None? && r.token.None?
  {
    NotYetDefined
  }

  /** `deleteUser`: not implemented; always 500. */
  function DeleteUser(): (r: Response)
    ensures r.code == 500 && r.status == Some("error") && r.message == Text("This route is not yet defined")
    ensures r.user.None? && r.token.None?
  {
    NotYetDefined
  }
}
