# User CRUD service: validation, filtering and the in-memory store

This project models the domain layer of a small HTTP service that keeps "user"
records with soft-delete semantics. The repository holds successive iterations of
the same program, and each iteration is its own Dafny module:

- `Classic` (`classic.dfy`): the first iteration in main.go. It has a `User` record
  with plain string fields and a global `mockUsers` slice, modelled as the class
  `Service`. `Users.findActive` is a linear search (`FindActive`, specified by the
  function `FirstActive`). The `createUser` handler's decision is
  `Service.CreateUser`: three field checks (`CheckFields`), then a conflict check,
  then an append.
- `Users` (`users.dfy`): the structured record of user.go, where every field is
  optional. `Validate` runs ten checks in a fixed order. The table `Rules` with
  `Holds`, `Field` and `Message` is an independent statement of the same checks.
  The lemmas prove that `Validate` accepts exactly the records that pass every rule.
  They also prove that it reports the first failing rule, with a message naming the
  field.
- `Filters` (`user_filter.dfy`): `NewUserFilter` turns URL query values into a
  `UserFilter` whose fields are "match any" when absent. `Matches` states the
  documented selection rule. `ToQuery` spells a filter back out as a query, and the
  two round-trip.
- `MockStore` (`db_mock.dfy`): the in-memory store `MockDB` with `ListUsers`,
  `GetUser`, `CreateUser`, `DeleteUser` and `findActive`, plus the `NewMockDB`
  seed. The class invariant `Valid()` says that at most one active user has any
  given email. The Postgres backend enforces the same rule with a partial unique
  index (db_postgres.go:51-55). The constructor establishes the invariant and both
  mutators preserve it. Soft deletion is the pure function `SoftDelete`, and the
  lemmas beside it say why a deleted record never blocks its email.
- `Errors` (`errors.dfy`): the `ErrConflict` and `ErrNotFound` wrappers and a plain
  error, with `Error()` (`Message`), `Unwrap` and the kind a caller branches on.
- `Common` (`common.dfy`): `Option` (a Go pointer that may be nil), the
  substring predicate `Mentions`, and `Time`.

The snapshot of db_mock.go still uses main.go's plain-string record: its seed
assigns plain strings to `Email` and the other fields. So `MockStore` works on
`Classic.User` and shares its seed and search specification. The store holds
pointers and copies records with `clone := *u` on the way in and out
(db_mock.go:21, 36, 50). `Users.findActive` returns the address of its loop
variable, which is a copy too (main.go:211-213). These copies are shallow: the
`Phone` and `Deleted` pointees stay shared with the stored record. Nothing in the
program writes through those pointers, so the model treats records as values.
Setting `Deleted` on the record `findActive` found is an update at that index.
`Validate` and `NewUserFilter` are functions and so have no side effects.

Behaviour of the code worth noting:

- Mandatory fields need only be present; an empty string is accepted (user.go:84-86).
- A `technology` query value of `""` means "match any", as `"*"` does (user_filter.go:20).
- The store's create and delete failures are untagged errors, not `Conflict` or
  `NotFound` (db_mock.go:47-48, 61-62, with FIXMEs asking for distinct types).
  `MockDB.CreateUser` and `MockDB.DeleteUser` state that their errors are of the
  internal kind.
- The test at server_test.go:321 expects `Technology: "*"`. That belongs to an
  older filter shape. user_filter.go uses an absent technology for "match any".

## Model

| member | source | states |
|---|---|---|
| `Errors.KindOf` | errors.go:3-7 | a conflict, a not-found and a plain error fall into three different kinds, and each kind comes from exactly one of them |
| `Errors.Unwrap` | errors.go:10 | unwrapping gives a cause exactly for the two wrappers, and that cause is smaller than the wrapper |
| `Errors.Root` | errors.go:7-10 | following `Unwrap` always ends at an untagged error, and however deeply an error is wrapped its message is that root's text |
| `Errors.WrapKeepsCause` | errors.go:3-10 | wrapping a cause as a conflict or not-found gives it back on `Unwrap` and keeps its message; the two wrappers and a plain error are distinct kinds |
| `Classic.FirstActive` | main.go:210-217 | the index returned holds an active record with the email and no earlier one does; nothing is returned exactly when no record is active with the email |
| `Classic.FindActive` | main.go:210-217 | the loop returns a copy of the first active record with the email, or nothing when there is none |
| `Classic.CheckFields` | main.go:100-109 | a record passes iff its email contains '@', its technology is in {go, java, js, php} and deleted is empty; otherwise the error names the first failing field in the order email, technology, deleted |
| `Classic.AppendKeepsUnique` | main.go:124-132 | appending a record whose email has no active holder keeps at most one active record per email |
| `Classic.SeedIsConsistent` | main.go:144-203 | the seed has at most one active record per email; of the three bobby.tables records only the first is active |
| `Classic.Service.constructor` | main.go:143-203 | `mockUsers` starts as the seed, which satisfies the invariant |
| `Classic.Service.CreateUser` | main.go:98-132 | a failing field check gives its message and leaves `mockUsers` unchanged; otherwise an email with an active holder is refused with `mockUsers` unchanged; otherwise exactly the record is appended at the end; the invariant is kept |
| `Users.Validate` | user.go:31-83 | a record is accepted iff name, surname, email, password, birthday, address and technology are present, the email contains '@', the technology is in {go, java, js, php} and deleted is absent |
| `Users.MessageNamesField` | user.go:47-79 | every validation message contains the name of the field its check is about |
| `Users.ValidateAcceptsIffAllHold` | user.go:43-83 | `Validate` accepts exactly the records that pass every check of the rule table |
| `Users.ValidateReportsFirstFailure` | user.go:44-83 | when the k-th check in the order name, surname, email given, email has '@', password, birthday, address, technology given, technology known, deleted empty is the first to fail, `Validate` returns that check's message, which names its field |
| `Users.PhoneNeverMatters` | user.go:26-71 | replacing the phone, or removing it, never changes the outcome of validation |
| `Users.EmptyTextsAccepted` | user.go:45-86 | presence is all that is asked: empty strings in the mandatory text fields (with an email of "@") are accepted |
| `Filters.NewUserFilter` | user_filter.go:16-41 | parsing succeeds iff technology is "", "*" or a known technology and deleted is one of "*", yes, true, "", no, false; on failure the filter is the zero filter; on success the technology is a known one or absent |
| `Filters.TechnologyParameter` | user_filter.go:19-26 | "" and "*" give match-any technology; a known technology gives itself; any other value gives the technology error and the zero filter whatever deleted says, and that error names the parameter |
| `Filters.DeletedParameter` | user_filter.go:29-37 | with an acceptable technology, "*" gives match-any, yes and true give deleted-only, "", no and false give active-only; any other value gives the deleted error and the zero filter, and that error names the parameter |
| `Filters.EmptyQueryListsActiveUsers` | user_filter.go:9-41 | an empty query gives {technology: any, deleted: false}, which matches exactly the users whose deleted field is absent |
| `Filters.ParsedQuerySelects` | user_filter.go:9-41 | a parsed filter matches a user iff the technology text is "", "*" or equal to the user's, and the deleted text is "*" or says "deleted" exactly when the user is soft-deleted |
| `Filters.QueryRoundTrip` | user_filter.go:16-41 | every filter with a known or absent technology is parsed back, without error, from the query that spells it out |
| `MockStore.SoftDelete` | db_mock.go:65 | the record at the index gets the deletion time and is otherwise unchanged; the length and every other record stay the same |
| `MockStore.SoftDeleteKeepsUnique` | db_mock.go:59-66 | soft-deleting any record keeps at most one active record per email |
| `MockStore.SoftDeleteFreesEmail` | db_mock.go:59-78 | with the invariant, soft-deleting the record `findActive` found leaves no active record with that email |
| `MockStore.SoftDeletedNeverBlock` | db_mock.go:44-78 | after the active holder of an email is soft-deleted, a new record with that email passes the conflict check and storing it keeps the invariant |
| `MockStore.MockDB.constructor` | db_mock.go:80-143 | `NewMockDB` starts with the seed records, which satisfy the invariant |
| `MockStore.MockDB.ListUsers` | db_mock.go:14-25 | the snapshot has one copy of every stored user, deleted ones included, in storage order, and no error |
| `MockStore.MockDB.FindActive` | db_mock.go:71-78 | the loop returns the index of the first stored user that is active with the email, or nothing |
| `MockStore.MockDB.GetUser` | db_mock.go:27-38 | returns a copy of the first active user with the email, or absent with no error when no stored user is active with it |
| `MockStore.MockDB.CreateUser` | db_mock.go:40-53 | with an active holder of the email it fails and leaves the store unchanged; otherwise exactly one copy of the input is appended after the unchanged earlier entries; any error is of the internal kind, not `Conflict`; the invariant is kept |
| `MockStore.MockDB.DeleteUser` | db_mock.go:55-67 | without an active holder it fails with "user not found" and changes nothing; otherwise only that record gets the deletion time, the length and all other records are unchanged, and the email has no active holder afterwards; any error is of the internal kind, not `NotFound`; the invariant is kept |

## Left out

- HTTP routing, handlers, JSON encoding and decoding, and status writing in main.go. The `createUser` model starts from a decoded record and returns the decision (bad request, already exists, created) instead of writing a response. The `listUsers` and `getUser` handlers only lock and encode.
- `modifyUser` in main.go only panics, so there is nothing to model.
- db_postgres.go: the go-pg wiring, table creation, query hooks and SQLSTATE decoding. Its partial unique index enforces the same invariant that `MockDB.Valid()` states.
- rq_logger.go: file I/O and random request identifiers.
- The `sync.Mutex` locking in db_mock.go and main.go. Every method runs atomically and sequentially, so concurrent creates are not modelled.
- `time.Now()` in `DeleteUser`: the deletion time is the parameter `now`. Times are opaque values that are only stored and compared.
- `MockDB.Close` returns nil and touches nothing.
- Copies of records are shallow in Go: the `Phone` and `Deleted` pointees of a copy returned by `GetUser`, `ListUsers` or `Users.findActive`, or of the record passed to `CreateUser`, are shared with the stored record. The model treats records as values, so it cannot express a write through those pointers; nothing in the program makes one.
- `ListUsers` in Go returns a nil slice when the store is empty; the model returns an empty sequence.
- The `ID` primary-key field of user.go's `User` belongs to the Postgres mapping, and `Validate` never reads it.
- The HTTP layer that maps error kinds to statuses (server.go) is not part of this model. `KindOf` classifies by the outermost wrapper only, not by Go's `errors.As` search of the whole `Unwrap` chain.
- `Errors.Message` carries no contract of its own. `WrapKeepsCause` and `Root` state what it promises.
- Strings are sequences of characters rather than bytes. The only text test is for the single ASCII character '@', so this changes nothing.
