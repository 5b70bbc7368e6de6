/** List-query criteria (user_filter.go): `NewUserFilter` turns URL query values into a
    `UserFilter` whose two fields are each "match any" when absent. */
module Filters {
  import opened Common
  import opened Users

  /** URL query values: every key maps to the values given for it, in order. */
  type Query = map<string, seq<string>>

  /** `url.Values.Get`: the first value given for `key`, or "" when there is none. */
  function Get(query: Query, key: string): string
  {
    if key in query && |query[key]| > 0 then query[key][0] else ""
  }

  /** Criteria for selecting users; `None` matches any value. */
  datatype UserFilter = UserFilter(technology: Option<string>, deleted: Option<bool>)

  /** The zero `UserFilter{}` returned beside an error. */
  const ZeroFilter: UserFilter := UserFilter(None, None)

  /** The two results of `NewUserFilter`: a filter and an error that may be nil. */
  datatype Parsed = Parsed(filter: UserFilter, err: Option<string>)

  const TechnologyError: string := "'" + "technology" + "' query parameter must be one of: * go java js php"
  const DeletedError: string := "'" + "deleted" + "' query parameter must be one of: * yes no true false"

  /** The values accepted for each parameter. */
  const TechnologyValues: set<string> := {"", "*"} + ValidTechnology
  const DeletedValues: set<string> := {"*", "yes", "true", "", "no", "false"}

  /** A filter that `NewUserFilter` can build: its technology is a known one. */
  predicate WellFormed(f: UserFilter)
  {
    f.technology.Some? ==> f.technology.value in ValidTechnology
  }

  /** The documented meaning of a filter: an absent field matches any user, a
      technology matches an equal one, and `deleted` tells soft-deleted users
      (true) from active ones (false). */
  predicate Matches(f: UserFilter, u: User)
  {
    && (f.technology.None? || u.technology == f.technology)
    && (f.deleted.None? || f.deleted.value == u.deleted.Some?)
  }

  /** `NewUserFilter`: the technology parameter is decided first, then deleted; the
      first bad value gives the error and the zero filter. */
  function NewUserFilter(query: Query): (r: Parsed)
    ensures r.err.Some? ==> r.filter == ZeroFilter
    ensures r.err.None? ==> WellFormed(r.filter)
    ensures r.err.None? <==> Get(query, "technology") in TechnologyValues && Get(query, "deleted") in DeletedValues
  {
    var t := Get(query, "technology");
    if !(t == "" || t == "*" || t in ValidTechnology) then Parsed(ZeroFilter, Some(TechnologyError))
    else
      var technology := if t == "" || t == "*" then None else Some(t);
      var d := Get(query, "deleted");
      if d == "*" then Parsed(UserFilter(technology, None), None)
      else if d == "yes" || d == "true" then Parsed(UserFilter(technology, Some(true)), None)
      else if d == "" || d == "no" || d == "false" then Parsed(UserFilter(technology, Some(false)), None)
      else Parsed(ZeroFilter, Some(DeletedError))
  }

  /** The technology parameter alone decides the technology field: "" and "*" match
      any, a known technology matches itself, and anything else is refused with an
      error naming the parameter, whatever the deleted parameter says. */
  lemma TechnologyParameter(query: Query)
    ensures var t := Get(query, "technology");
      && (t == "" || t == "*" ==> NewUserFilter(query).filter.technology.None?)
      && (t in ValidTechnology && NewUserFilter(query).err.None? ==>
            NewUserFilter(query).filter.technology == Some(t))
      && (t !in TechnologyValues ==> NewUserFilter(query) == Parsed(ZeroFilter, Some(TechnologyError)))
    ensures Mentions(TechnologyError, "technology")
  {
    FieldMessageMentions("'", "technology", "' query parameter must be one of: * go java js php");
  }

  /** Once the technology is acceptable, the deleted parameter decides the deleted
      field: "*" matches any, "yes" and "true" select soft-deleted users, "", "no" and
      "false" select active ones, and anything else is refused with an error naming
      the parameter. */
  lemma DeletedParameter(query: Query)
    requires Get(query, "technology") in TechnologyValues
    ensures var d, r := Get(query, "deleted"), NewUserFilter(query);
      && (d == "*" ==> r.err.None? && r.filter.deleted.None?)
      && (d == "yes" || d == "true" ==> r.err.None? && r.filter.deleted == Some(true))
      && (d == "" || d == "no" || d == "false" ==> r.err.None? && r.filter.deleted == Some(false))
      && (d !in DeletedValues ==> r == Parsed(ZeroFilter, Some(DeletedError)))
    ensures Mentions(DeletedError, "deleted")
  {
    FieldMessageMentions("'", "deleted", "' query parameter must be one of: * yes no true false");
  }

  /** An empty query lists exactly the active users, of any technology. */
  lemma EmptyQueryListsActiveUsers(u: User)
    ensures NewUserFilter(map[]) == Parsed(UserFilter(None, Some(false)), None)
    ensures Matches(NewUserFilter(map[]).filter, u) <==> u.deleted.None?
  {
  }

  /** A successfully parsed query selects users by its parameters' text. */
  lemma ParsedQuerySelects(query: Query, u: User)
    requires NewUserFilter(query).err.None?
    ensures var t, d := Get(query, "technology"), Get(query, "deleted");
      Matches(NewUserFilter(query).filter, u) <==>
        && (t == "" || t == "*" || u.technology == Some(t))
        && (d == "*" || ((d == "yes" || d == "true") <==> u.deleted.Some?))
  {
  }

  /** A query that spells a filter out, as a client would. */
  function ToQuery(f: UserFilter): Query
  {
    map[
      "technology" := [if f.technology.Some? then f.technology.value else "*"],
      "deleted" := [if f.deleted == None then "*" else if f.deleted == Some(true) then "true" else "false"]]
  }

  /** Every filter `NewUserFilter` can produce is produced back from its own query. */
  lemma QueryRoundTrip(f: UserFilter)
    requires WellFormed(f)
    ensures NewUserFilter(ToQuery(f)) == Parsed(f, None)
  {
    var q := ToQuery(f);
    var t, d := Get(q, "technology"), Get(q, "deleted");
    assert t == if f.technology.Some? then f.technology.value else "*";
    assert t != "" && (t == "*" <==> f.technology.None?);
    match f.deleted
    case None => assert d == "*";
    case Some(true) => assert d == "true" && d != "*" && d != "yes";
    case Some(false) => assert d == "false" && d != "*" && d != "yes" && d != "true" && d != "" && d != "no";
  }
}
