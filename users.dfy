/** The structured iteration of the user record (user.go): every field is a pointer,
    so "absent" is distinct from the empty string, and `Validate` checks a record
    before it may enter the store. */
module Users {
  import opened Common

  /** The technologies a user may name. */
  const ValidTechnology: set<string> := {"go", "java", "js", "php"}

  /** One person record. Every field may be absent; only `phone` and `deleted` are
      allowed to be, and `deleted` must be absent on input. */
  datatype User = User(
    name: Option<string>,
    surname: Option<string>,
    email: Option<string>,
    password: Option<string>,
    birthday: Option<Time>,
    address: Option<string>,
    phone: Option<string>,
    technology: Option<string>,
    deleted: Option<Time>)

  /** The individual checks of `Validate`. */
  datatype Rule =
    | NameGiven | SurnameGiven | EmailGiven | EmailHasAt | PasswordGiven
    | BirthdayGiven | AddressGiven | TechnologyGiven | TechnologyKnown | NotDeleted

  /** The order in which `Validate` applies its checks. */
  const Rules: seq<Rule> := [
    NameGiven, SurnameGiven, EmailGiven, EmailHasAt, PasswordGiven,
    BirthdayGiven, AddressGiven, TechnologyGiven, TechnologyKnown, NotDeleted]

  /** Whether `u` passes check `r`, judged on its own. */
  predicate Holds(u: User, r: Rule)
  {
    match r
    case NameGiven => u.name.Some?
    case SurnameGiven => u.surname.Some?
    case EmailGiven => u.email.Some?
    case EmailHasAt => u.email.Some? && '@' in u.email.value
    case PasswordGiven => u.password.Some?
    case BirthdayGiven => u.birthday.Some?
    case AddressGiven => u.address.Some?
    case TechnologyGiven => u.technology.Some?
    case TechnologyKnown => u.technology.Some? && u.technology.value in ValidTechnology
    case NotDeleted => u.deleted.None?
  }

  /** The field a check is about. */
  function Field(r: Rule): string
  {
    match r
    case NameGiven => "name"
    case SurnameGiven => "surname"
    case EmailGiven | EmailHasAt => "email"
    case PasswordGiven => "password"
    case BirthdayGiven => "birthday"
    case AddressGiven => "address"
    case TechnologyGiven | TechnologyKnown => "technology"
    case NotDeleted => "deleted"
  }

  /** The error message reported when check `r` fails. */
  function Message(r: Rule): string
  {
    match r
    case EmailHasAt => "." + Field(r) + " is not a valid email address"
    case TechnologyKnown => "." + Field(r) + " must be one of: go java js php"
    case NotDeleted => "." + Field(r) + " must be empty"
    case _ => "." + Field(r) + " mandatory field is missing"
  }

  /** Every message names the field its check is about. */
  lemma MessageNamesField(r: Rule)
    ensures Mentions(Message(r), Field(r))
  {
    match r
    case EmailHasAt => FieldMessageMentions(".", Field(r), " is not a valid email address");
    case TechnologyKnown => FieldMessageMentions(".", Field(r), " must be one of: go java js php");
    case NotDeleted => FieldMessageMentions(".", Field(r), " must be empty");
    case _ => FieldMessageMentions(".", Field(r), " mandatory field is missing");
  }

  /** `(*User).Validate`: a chain of checks in a fixed order; the first failure wins.
      A field counts as given when it is present, whatever its text. */
  function Validate(u: User): (err: Option<string>)
    ensures err.None? <==>
      && u.name.Some? && u.surname.Some? && u.email.Some? && '@' in u.email.value
      && u.password.Some? && u.birthday.Some? && u.address.Some?
      && u.technology.Some? && u.technology.value in ValidTechnology
      && u.deleted.None?
  {
    if u.name.None? then Some(Message(NameGiven))
    else if u.surname.None? then Some(Message(SurnameGiven))
    else if u.email.None? then Some(Message(EmailGiven))
    else if '@' !in u.email.value then Some(Message(EmailHasAt))
    else if u.password.None? then Some(Message(PasswordGiven))
    else if u.birthday.None? then Some(Message(BirthdayGiven))
    else if u.address.None? then Some(Message(AddressGiven))
    else if u.technology.None? then Some(Message(TechnologyGiven))
    else if u.technology.value !in ValidTechnology then Some(Message(TechnologyKnown))
    else if u.deleted.Some? then Some(Message(NotDeleted))
    else None
  }

  /** `Validate` accepts exactly the records that pass every check of the table. */
  lemma ValidateAcceptsIffAllHold(u: User)
    ensures Validate(u).None? <==> forall k :: 0 <= k < |Rules| ==> Holds(u, Rules[k])
  {
    if forall k :: 0 <= k < |Rules| ==> Holds(u, Rules[k]) {
      assert Holds(u, Rules[0]) && Holds(u, Rules[1]) && Holds(u, Rules[3]);
      assert Holds(u, Rules[4]) && Holds(u, Rules[5]) && Holds(u, Rules[6]);
      assert Holds(u, Rules[8]) && Holds(u, Rules[9]);
    }
  }

  /** When `Validate` fails, its error is the message of the first check in the table
      that the record fails, and that message names the check's field. */
  lemma ValidateReportsFirstFailure(u: User, k: nat)
    requires k < |Rules| && !Holds(u, Rules[k])
    requires forall j :: 0 <= j < k ==> Holds(u, Rules[j])
    ensures Validate(u) == Some(Message(Rules[k]))
    ensures Mentions(Validate(u).value, Field(Rules[k]))
  {
    MessageNamesField(Rules[k]);
    if k >= 1 { assert Holds(u, Rules[0]); }
    if k >= 2 { assert Holds(u, Rules[1]); }
    if k >= 3 { assert Holds(u, Rules[2]); }
    if k >= 4 { assert Holds(u, Rules[3]); }
    if k >= 5 { assert Holds(u, Rules[4]); }
    if k >= 6 { assert Holds(u, Rules[5]); }
    if k >= 7 { assert Holds(u, Rules[6]); }
    if k >= 8 { assert Holds(u, Rules[7]); }
    if k >= 9 { assert Holds(u, Rules[8]); }
  }

  /** The optional phone never affects the outcome of validation. */
  lemma PhoneNeverMatters(u: User, phone: Option<string>)
    ensures Validate(u.(phone := phone)) == Validate(u)
  {
  }

  /** Presence is all that is asked of the mandatory text fields: a record whose
      texts are all empty, except an email of just "@", is accepted. */
  lemma EmptyTextsAccepted(birthday: Time, phone: Option<string>, tech: string)
    requires tech in ValidTechnology
    ensures Validate(User(Some(""), Some(""), Some("@"), Some(""), Some(birthday), Some(""),
                          phone, Some(tech), None)).None?
  {
  }
}
