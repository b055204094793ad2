/**
 * The user collection as the controllers see it: one record per document,
 * the two queries they issue (`findOne` by email, `findOne` by reset digest
 * and expiry) and the store object whose `save()` writes a record back.
 *
 * A loaded document is a copy: assigning to its fields changes nothing in the
 * store until it is saved. Records are therefore values, and the store is a
 * class whose only field, the map from id to record, is reassigned on save.
 */
module UserModel {
  import opened Wrappers

  /** Document ids. Their order stands for the collection's natural order. */
  type Id = nat

  datatype UserRecord = UserRecord(
    name: Option<string>,
    email: Option<string>,
    password: Option<string>,           // the stored secret
    role: string,
    passwordChangedAt: Option<int>,     // milliseconds since the epoch
    passwordResetToken: Option<string>, // digest of the outstanding reset token
    passwordResetExpires: Option<int>,  // milliseconds since the epoch
    active: bool)

  /**
   * A read without `.select('+password')`: the schema excludes the secret
   * from default reads, and nothing else differs.
   */
  function DefaultRead(u: UserRecord): (v: UserRecord)
    ensures v.password.None?
    ensures v.(password := u.password) == u
  {
    u.(password := None)
  }

  /** Every non-empty set of ids has a least element, returned as `m`. */
  lemma {:induction false} LeastElement(s: set<Id>) returns (m: Id)
    requires s != {}
    ensures m in s && forall j :: j in s ==> m <= j
  {
    var x :| x in s;
    if s - {x} == {} {
      m := x;
    } else {
      var rest := LeastElement(s - {x});
      m := if rest < x then rest else x;
    }
    forall j | j in s
      ensures m <= j
    {
      if j != x {
        assert j in s - {x};
      }
    }
  }

  /** The first id of a non-empty set of ids in natural order. */
  function Least(s: set<Id>): (m: Id)
    requires s != {}
    ensures m in s && forall j :: j in s ==> m <= j
  {
    assert exists m :: m in s && forall j :: j in s ==> m <= j by {
      var w := LeastElement(s);
    }
    var m :| m in s && forall j :: j in s ==> m <= j;
    m
  }

  /**
   * `User.findOne(filter)`: the first record, in natural order, that the
   * filter `matches`, or none when no record does.
   */
  function FirstMatch(users: map<Id, UserRecord>, matches: UserRecord -> bool): (r: Option<Id>)
    ensures r.Some? ==> r.value in users && matches(users[r.value])
    ensures r.Some? ==> forall j :: j in users && matches(users[j]) ==> r.value <= j
    ensures r.None? <==> forall j :: j in users ==> !matches(users[j])
  {
    var matching := set j | j in users && matches(users[j]);
    assert forall j :: j in users ==> (matches(users[j]) ==> j in matching);
    if matching == {} then None else Some(Least(matching))
  }

  /** `User.findOne({ email })`: the first record whose email is `email`. */
  function FindByEmail(users: map<Id, UserRecord>, email: string): (r: Option<Id>)
    ensures r.Some? ==> r.value in users && users[r.value].email == Some(email)
    ensures r.Some? ==> forall j :: j in users && users[j].email == Some(email) ==> r.value <= j
    ensures r.None? <==> forall j :: j in users ==> users[j].email != Some(email)
  {
    FirstMatch(users, (u: UserRecord) => u.email == Some(email))
  }

  /**
   * A record holds a live reset token with digest `digest` at time `now`: the
   * stored digest equals it and the stored expiry is strictly later than `now`.
   */
  predicate LiveReset(u: UserRecord, digest: string, now: int)
  {
    u.passwordResetToken == Some(digest)
    && u.passwordResetExpires.Some? && u.passwordResetExpires.value > now
  }

  /**
   * `User.findOne({ passwordResetToken: digest, passwordResetExpires: { $gt: now } })`.
   */
  function FindByResetToken(users: map<Id, UserRecord>, digest: string, now: int): (r: Option<Id>)
    ensures r.Some? ==> r.value in users && LiveReset(users[r.value], digest, now)
    ensures r.Some? ==> forall j :: j in users && LiveReset(users[j], digest, now) ==> r.value <= j
    ensures r.None? <==> forall j :: j in users ==> !LiveReset(users[j], digest, now)
  {
    FirstMatch(users, (u: UserRecord) => LiveReset(u, digest, now))
  }

  /** `after` differs from `before` at most in the record stored under `id`. */
  ghost predicate OnlyRecordChanged(before: map<Id, UserRecord>, after: map<Id, UserRecord>, id: Id)
  {
    after.Keys == before.Keys && forall j :: j in before && j != id ==> after[j] == before[j]
  }

  /** The user collection. */
  class UserStore {
    var users: map<Id, UserRecord>

    /** `User.create(...)`: a new document under a fresh id. */
    method Insert(id: Id, user: UserRecord)
      requires id !in users
      modifies this
      ensures users == old(users)[id := user]
      ensures users.Keys == old(users).Keys + {id}
    {
      users := users[id := user];
    }

    /** `document.save()`: the loaded, modified copy replaces the stored one. */
    method Save(id: Id, user: UserRecord)
      requires id in users
      modifies this
      ensures users == old(users)[id := user]
      ensures users.Keys == old(users).Keys
    {
      users := users[id := user];
    }
  }
}
