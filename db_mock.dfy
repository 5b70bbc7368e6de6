/** The in-memory store (db_mock.go). It keeps every record ever created, soft
    deletes by stamping `deleted` on the stored record, and refuses to create a
    second active record with the same email. Its snapshot of the service still uses
    the plain-string record of the first iteration (its seed assigns plain strings),
    so it works on `Classic.User`.

    The Go store holds pointers and copies records with `clone := *u` on the way in
    and out. The copies are shallow, so the `Phone` and `Deleted` pointees stay
    shared, but nothing in the program writes through them. A sequence of values
    therefore captures the store, and updating the record that `findActive` points
    at is an update at its index. */
module MockStore {
  import opened Common
  import opened Errors
  import opened Classic

  /** The record at `i`, soft-deleted at `now`, the rest untouched. */
  function SoftDelete(us: Users, i: nat, now: Time): (vs: Users)
    requires i < |us|
    ensures |vs| == |us| && vs[i].deleted == Some(now)
    ensures vs[i].(deleted := None) == us[i].(deleted := None)
    ensures forall j :: 0 <= j < |us| && j != i ==> vs[j] == us[j]
  {
    us[i := us[i].(deleted := Some(now))]
  }

  /** Soft-deleting a record keeps the emails of active records unique. */
  lemma SoftDeleteKeepsUnique(us: Users, i: nat, now: Time)
    requires UniqueActive(us) && i < |us|
    ensures UniqueActive(SoftDelete(us, i, now))
  {
    var vs := SoftDelete(us, i, now);
    forall a, b | 0 <= a < |vs| && 0 <= b < |vs| && a != b && vs[a].deleted.None? && vs[b].deleted.None?
      ensures vs[a].email != vs[b].email
    {
      assert vs[a] == us[a] && vs[b] == us[b];
    }
  }

  /** Soft-deleting the active holder of an email leaves that email with no active
      holder, so it can be looked up no more and created afresh. This relies on the
      uniqueness invariant: `findActive` stops at the first match only. */
  lemma SoftDeleteFreesEmail(us: Users, email: string, now: Time)
    requires UniqueActive(us) && FirstActive(us, email).Some?
    ensures FirstActive(SoftDelete(us, FirstActive(us, email).value, now), email).None?
  {
    var i := FirstActive(us, email).value;
    var vs := SoftDelete(us, i, now);
    forall j | 0 <= j < |vs| ensures !ActiveWith(vs[j], email) {
      assert j != i ==> vs[j] == us[j];
    }
  }

  /** A soft-deleted record never blocks its email: after the active holder is
      deleted, a new record with the same email can be stored, and the active
      emails stay unique. */
  lemma SoftDeletedNeverBlock(us: Users, email: string, now: Time, u: User)
    requires UniqueActive(us) && FirstActive(us, email).Some? && u.email == email
    ensures var vs := SoftDelete(us, FirstActive(us, email).value, now);
      FirstActive(vs, email).None? && UniqueActive(vs + [u])
  {
    var vs := SoftDelete(us, FirstActive(us, email).value, now);
    SoftDeleteFreesEmail(us, email, now);
    SoftDeleteKeepsUnique(us, FirstActive(us, email).value, now);
    AppendKeepsUnique(vs, u);
  }

  /** `MockDB`: the list of stored users, oldest first. */
  class MockDB {
    var users: Users

    /** At most one active user per email. */
    ghost predicate Valid()
      reads this
    {
      UniqueActive(users)
    }

    /** `NewMockDB`: the store starts with the seed records. */
    constructor ()
      ensures users == SeedUsers()
      ensures Valid()
    {
      users := SeedUsers();
      SeedIsConsistent();
    }

    /** `ListUsers`: one copy of every stored user, deleted ones included, in the
        order they are stored. It never fails. */
    method ListUsers() returns (snapshot: Users, err: Option<Error>)
      ensures |snapshot| == |users|
      ensures forall i :: 0 <= i < |users| ==> snapshot[i] == users[i]
      ensures err.None?
    {
      snapshot := [];
      var i := 0;
      while i < |users|
        invariant 0 <= i <= |users|
        invariant snapshot == users[..i]
      {
        snapshot := snapshot + [users[i]];
        i := i + 1;
      }
      err := None;
    }

    /** `findActive`: the position of the first stored user that is active and has
        the given email, or nothing. */
    method FindActive(email: string) returns (index: Option<nat>)
      ensures index == FirstActive(users, email)
    {
      var i := 0;
      while i < |users|
        invariant 0 <= i <= |users|
        invariant forall j :: 0 <= j < i ==> !ActiveWith(users[j], email)
      {
        if users[i].deleted.None? && users[i].email == email {
          return Some(i);
        }
        i := i + 1;
      }
      return None;
    }

    /** `GetUser`: a copy of the active user with the email; absence is not an error. */
    method GetUser(email: string) returns (user: Option<User>, err: Option<Error>)
      ensures user.None? <==> forall j :: 0 <= j < |users| ==> !ActiveWith(users[j], email)
      ensures user.Some? ==> user.value == users[FirstActive(users, email).value]
      ensures user.Some? ==> ActiveWith(user.value, email)
      ensures err.None?
    {
      var index := FindActive(email);
      if index.None? {
        return None, None;
      }
      user, err := Some(users[index.value]), None;
    }

    /** `CreateUser`: refuses, and changes nothing, when an active user already has the
        email; otherwise stores one copy of `u` after all earlier records. The refusal
        is an untagged error, not `Conflict`. */
    method CreateUser(u: User) returns (err: Option<Error>)
      requires Valid()
      modifies this
      ensures Valid()
      ensures err.Some? ==> KindOf(err.value) == Internal
      ensures FirstActive(old(users), u.email).Some? ==>
        && err == Some(Plain("user with the same .email already exists: " + u.email))
        && users == old(users)
      ensures FirstActive(old(users), u.email).None? ==>
        && err.None?
        && users == old(users) + [u]
    {
      var conflict := FindActive(u.email);
      if conflict.Some? {
        return Some(Plain("user with the same .email already exists: " + u.email));
      }
      AppendKeepsUnique(users, u);
      users := users + [u];
      err := None;
    }

    /** `DeleteUser`: soft-deletes the active user with the email, stamping it with
        `now` (the Go code reads the clock), and touches no other record. Without such
        a user it fails with an untagged "user not found" error and changes nothing. */
    method DeleteUser(email: string, now: Time) returns (err: Option<Error>)
      requires Valid()
      modifies this
      ensures Valid()
      ensures err.Some? ==> KindOf(err.value) == Internal
      ensures FirstActive(old(users), email).None? ==>
        && err == Some(Plain("user not found: " + email))
        && users == old(users)
      ensures FirstActive(old(users), email).Some? ==>
        && err.None?
        && users == SoftDelete(old(users), FirstActive(old(users), email).value, now)
        && FirstActive(users, email).None?
    {
      var index := FindActive(email);
      if index.None? {
        return Some(Plain("user not found: " + email));
      }
      SoftDeleteKeepsUnique(users, index.value, now);
      SoftDeleteFreesEmail(users, email, now);
      users := SoftDelete(users, index.value, now);
      err := None;
    }
  }
}
