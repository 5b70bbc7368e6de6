/** Definitions shared by every snapshot of the service: nil-able values, the
    substring test used on error messages, and points in time. */
module Common {

  /** A Go pointer that may be nil: `None` is nil, `Some(v)` points at `v`. */
  datatype Option<+T> = None | Some(value: T)

  /** `sub` occurs in `s` starting at position `i`. */
  ghost predicate OccursAt(s: string, sub: string, i: int)
  {
    0 <= i <= |s| - |sub| && s[i..i + |sub|] == sub
  }

  /** `sub` occurs somewhere inside `s` (Go's `strings.Contains`). */
  ghost predicate Mentions(s: string, sub: string)
  {
    exists i :: OccursAt(s, sub, i)
  }

  /** A message built as `prefix + field + rest` names that field. */
  lemma FieldMessageMentions(prefix: string, field: string, rest: string)
    ensures Mentions(prefix + field + rest, field)
  {
    var s := prefix + field + rest;
    assert s[|prefix|..|prefix| + |field|] == field;
    assert OccursAt(s, field, |prefix|);
  }

  /** A point in time, as the seed data writes it with `time.Date`.
      The service never computes with times; it only stores and compares them. */
  datatype Time = Date(year: int, month: int, day: int, hour: int, minute: int, second: int)
}
