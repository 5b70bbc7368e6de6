/** The first iteration of the service (main.go): a `User` record with plain string
    fields, a global slice of users guarded by a lock, a linear search for the
    active user with a given email, and the create handler's field checks followed
    by a conflict-checked append. The in-memory store of db_mock.go keeps the same
    plain-string record and the same seed, so it builds on this module. */
module Classic {
  import opened Common

  /** One person record; `phone` and `deleted` are the two pointer fields. */
  datatype User = User(
    name: string,
    surname: string,
    email: string,
    password: string,
    birthday: Time,
    address: string,
    phone: Option<string>,
    technology: string,
    deleted: Option<Time>)

  /** The technologies a user may name. */
  const ValidTechnology: set<string> := {"go", "java", "js", "php"}

  type Users = seq<User>

  /** `u` is not soft-deleted and is identified by `email`. */
  predicate ActiveWith(u: User, email: string)
  {
    u.deleted.None? && u.email == email
  }

  /** No two active records share an email; soft-deleted records are unconstrained. */
  ghost predicate UniqueActive(us: Users)
  {
    forall i, j :: 0 <= i < |us| && 0 <= j < |us| && i != j && us[i].deleted.None? && us[j].deleted.None?
      ==> us[i].email != us[j].email
  }

  /** The position of the first active record with the given email, if any. */
  function FirstActive(us: Users, email: string): (r: Option<nat>)
    ensures r.Some? ==> r.value < |us| && ActiveWith(us[r.value], email)
    ensures r.Some? ==> forall j :: 0 <= j < r.value ==> !ActiveWith(us[j], email)
    ensures r.None? <==> forall j :: 0 <= j < |us| ==> !ActiveWith(us[j], email)
  {
    if |us| == 0 then None
    else if ActiveWith(us[0], email) then Some(0)
    else
      match FirstActive(us[1..], email)
      case None => None
      case Some(k) => Some(k + 1)
  }

  /** `Users.findActive`: scans the slice in order and returns a copy of the first
      active record whose email is `id`, or nothing. */
  method FindActive(us: Users, id: string) returns (found: Option<User>)
    ensures found.None? <==> FirstActive(us, id).None?
    ensures found.Some? ==> found.value == us[FirstActive(us, id).value]
  {
    var i := 0;
    while i < |us|
      invariant 0 <= i <= |us|
      invariant forall j :: 0 <= j < i ==> !ActiveWith(us[j], id)
    {
      if us[i].deleted.None? && us[i].email == id {
        return Some(us[i]);
      }
      i := i + 1;
    }
    return None;
  }

  /** The field checks of `createUser`, in their order: email contains '@', technology
      is known, deleted is empty. The first failing check gives the message. */
  function CheckFields(u: User): (err: Option<string>)
    ensures err.None? <==> '@' in u.email && u.technology in ValidTechnology && u.deleted.None?
    ensures '@' !in u.email ==> err.Some? && Mentions(err.value, "email")
    ensures '@' in u.email && u.technology !in ValidTechnology
      ==> err.Some? && Mentions(err.value, "technology")
    ensures '@' in u.email && u.technology in ValidTechnology && u.deleted.Some?
      ==> err.Some? && Mentions(err.value, "deleted")
  {
    FieldMessageMentions(".", "email", " is not a valid email address");
    FieldMessageMentions(".", "technology", " must be one of: go java js php");
    FieldMessageMentions(".", "deleted", " must be empty");
    if '@' !in u.email then Some("." + "email" + " is not a valid email address")
    else if u.technology !in ValidTechnology then Some("." + "technology" + " must be one of: go java js php")
    else if u.deleted.Some? then Some("." + "deleted" + " must be empty")
    else None
  }

  /** Appending a record whose email has no active holder keeps emails of active
      records unique, whatever the new record's own deleted field says. */
  lemma AppendKeepsUnique(us: Users, u: User)
    requires UniqueActive(us)
    requires FirstActive(us, u.email).None?
    ensures UniqueActive(us + [u])
  {
    var vs := us + [u];
    forall i, j | 0 <= i < |vs| && 0 <= j < |vs| && i != j && vs[i].deleted.None? && vs[j].deleted.None?
      ensures vs[i].email != vs[j].email
    {
      if i == |us| {
        assert !ActiveWith(us[j], u.email);
      } else if j == |us| {
        assert !ActiveWith(us[i], u.email);
      }
    }
  }

  /** The seed of `mockUsers`, also used by `NewMockDB` in db_mock.go. */
  function SeedUsers(): Users
  {
    [ User("John", "Smith", "john@smith.name", "iAmJohnny",
           Date(1980, 1, 1, 0, 0, 0), "some city, some street 1", None, "php", None),
      User("Anne J. Marie", "von Flick", "Anne-Marie@vonflick.de", "foo123!\"%",
           Date(2000, 12, 12, 0, 0, 0), "Anneville", Some("+48 123-456-789"), "java", None),
      User("Robert'); DROP TABLE Users;--", "Tables", "bobby.tables@xkcd.com", "TODO: harder",
           Date(2007, 10, 7, 0, 0, 0), "Wherever", None, "js", None),
      User("Dorothy", "Deleted de 1", "bobby.tables@xkcd.com", "",
           Date(2000, 12, 12, 0, 0, 0), "Dorothyville 1", Some("+48 1"), "go",
           Some(Date(2020, 3, 28, 12, 21, 1))),
      User("Dorothy", "Deleted de 2", "bobby.tables@xkcd.com", "",
           Date(2000, 12, 12, 0, 0, 0), "Dorothyville 2", Some("+48 2"), "go",
           Some(Date(2020, 3, 28, 12, 21, 2))) ]
  }

  /** The seed starts the store in a consistent state: three records share the email
      bobby.tables@xkcd.com, of which only the first is active. */
  lemma SeedIsConsistent()
    ensures UniqueActive(SeedUsers())
    ensures FirstActive(SeedUsers(), "bobby.tables@xkcd.com") == Some(2)
    ensures forall j :: 0 <= j < |SeedUsers()| && SeedUsers()[j].email == "bobby.tables@xkcd.com"
                 ==> 2 <= j && (j == 2 <==> SeedUsers()[j].deleted.None?)
  {
    var s := SeedUsers();
    assert !ActiveWith(s[0], "bobby.tables@xkcd.com") && !ActiveWith(s[1], "bobby.tables@xkcd.com");
  }

  /** What `createUser` decides, leaving out how it is written to the HTTP response. */
  datatype CreateOutcome =
    | BadRequest(message: string)   // a field check failed
    | AlreadyExists                 // an active user already has the email
    | Created                       // the user was appended

  /** The process-wide state of main.go: the `mockUsers` slice. */
  class Service {
    var mockUsers: Users

    ghost predicate Valid()
      reads this
    {
      UniqueActive(mockUsers)
    }

    constructor ()
      ensures mockUsers == SeedUsers()
      ensures Valid()
    {
      mockUsers := SeedUsers();
      SeedIsConsistent();
    }

    /** The decision of `createUser` on an already decoded record: check the fields,
        refuse an email held by an active user, otherwise append the record. */
    method CreateUser(u: User) returns (outcome: CreateOutcome)
      requires Valid()
      modifies this
      ensures Valid()
      ensures CheckFields(u).Some?
        ==> outcome == BadRequest(CheckFields(u).value) && mockUsers == old(mockUsers)
      ensures CheckFields(u).None? && FirstActive(old(mockUsers), u.email).Some?
        ==> outcome == AlreadyExists && mockUsers == old(mockUsers)
      ensures CheckFields(u).None? && FirstActive(old(mockUsers), u.email).None?
        ==> outcome == Created && mockUsers == old(mockUsers) + [u]
    {
      var err := CheckFields(u);
      if err.Some? {
        return BadRequest(err.value);
      }
      var conflict := FindActive(mockUsers, u.email);
      if conflict.Some? {
        return AlreadyExists;
      }
      AppendKeepsUnique(mockUsers, u);
      mockUsers := mockUsers + [u];
      outcome := Created;
    }
  }
}
