/** The tagged error wrappers of errors.go: `ErrConflict` and `ErrNotFound` both embed
    `wraperr`, which holds a cause and delegates `Error()` and `Unwrap()` to it. */
module Errors {
  import opened Common

  /** The errors the core produces. `Plain` is an untagged error built by
      `errors.New` or `fmt.Errorf`; the other two are the tagged wrappers. */
  datatype Error =
    | Plain(text: string)
    | Conflict(cause: Error)
    | NotFound(cause: Error)

  /** The three outcomes a caller can branch on without reading the message. */
  datatype Kind = ConflictKind | NotFoundKind | Internal

  /** The kind of the outermost wrapper; anything untagged is `Internal`. */
  function KindOf(e: Error): (k: Kind)
    ensures k == ConflictKind <==> e.Conflict?
    ensures k == NotFoundKind <==> e.NotFound?
    ensures k == Internal <==> e.Plain?
  {
    match e
    case Plain(_) => Internal
    case Conflict(_) => ConflictKind
    case NotFound(_) => NotFoundKind
  }

  /** `Error()`: a plain error reports its text, a wrapper reports its cause's message. */
  function Message(e: Error): string
  {
    match e
    case Plain(t) => t
    case Conflict(c) => Message(c)
    case NotFound(c) => Message(c)
  }

  /** `Unwrap()`: a wrapper gives back exactly its cause; a plain error has none. */
  function Unwrap(e: Error): (r: Option<Error>)
    ensures r.None? <==> e.Plain?
    ensures r.Some? ==> r.value < e
  {
    match e
    case Plain(_) => None
    case Conflict(c) => Some(c)
    case NotFound(c) => Some(c)
  }

  /** The end of the `Unwrap` chain: the untagged error every wrapper was built around.
      However deeply an error is wrapped, its message is the text of its root. */
  function Root(e: Error): (r: Error)
    ensures r.Plain?
    ensures e.Plain? ==> r == e
    ensures Message(e) == r.text
  {
    match Unwrap(e)
    case None => e
    case Some(c) => Root(c)
  }

  /** Wrapping a cause as a conflict or as not-found keeps its message and gives it back
      on `Unwrap`, while the two wrappers and a plain error are three distinct kinds. */
  lemma WrapKeepsCause(cause: Error, m: string)
    ensures Unwrap(Conflict(cause)) == Some(cause) && Unwrap(NotFound(cause)) == Some(cause)
    ensures Message(Conflict(cause)) == Message(cause) && Message(NotFound(cause)) == Message(cause)
    ensures KindOf(Conflict(cause)) != KindOf(NotFound(cause))
    ensures KindOf(Plain(m)) != KindOf(Conflict(cause)) && KindOf(Plain(m)) != KindOf(NotFound(cause))
  {
  }
}
