/** What the controller sends to and receives from the random-user API: the
    query parameters each endpoint builds, and the outcome of the cache
    supplier that performs the request. The HTTP call itself is an abstract
    total function of the URL and the query. */
module Upstream {
  import opened Php

  datatype Name = Name(first: string, last: string)

  /** One element of the upstream `results` array, reduced to the fields the
      controller reads (`nationality` is the API's `nat`). */
  datatype User = User(name: Name, email: string, gender: string, nationality: string)

  /** The query string of the upstream request. */
  datatype Query = Query(results: int, gender: Option<string>)

  /** The outcome of the cache supplier: the `results` array of a successful
      response, or the exception it throws when the status is not OK or the
      body has no `results` field. */
  datatype Fetched = Ok(records: seq<User>) | Err

  /** The upstream request: URL and query to outcome. */
  type Api = (string, Query) -> Fetched

  /** The gender values the upstream API understands. */
  predicate Supported(g: string) {
    g == "male" || g == "female"
  }

  /** `in_array($gender, ['male', 'female'])` with PHP's loose comparison: null
      never equals a non-empty string, and a non-numeric string is compared
      as a string. */
  predicate InSupportedList(gender: Option<string>)
    // exactly the two values the API understands
    ensures InSupportedList(gender) <==> gender == Some("male") || gender == Some("female")
    // a listed value is always truthy, so a truthiness test in front of it
    // changes nothing
    ensures InSupportedList(gender) ==> Truthy(gender)
  {
    gender.Some? && Supported(gender.value)
  }

  /** The query the supplier in `index` sends: `results` always, `gender` only
      when the parameter is truthy and one of the supported values. */
  function IndexQuery(gender: Option<string>, resultsCount: int): (q: Query)
    ensures q.results == resultsCount
    ensures q.gender.Some? <==> gender.Some? && Supported(gender.value)
    ensures q.gender.Some? ==> q.gender == gender
  {
    var withGender := Truthy(gender) && InSupportedList(gender);
    Query(resultsCount, if withGender then gender else None)
  }

  /** The query the supplier in `export` sends: the same, guarded by the list
      test alone. */
  function ExportQuery(gender: Option<string>, resultsCount: int): (q: Query)
    ensures q.results == resultsCount
    ensures q.gender.Some? <==> gender.Some? && Supported(gender.value)
    ensures q.gender.Some? ==> q.gender == gender
  {
    Query(resultsCount, if InSupportedList(gender) then gender else None)
  }

  /** The two guards differ in text but not in effect: both endpoints send the
      same upstream request. */
  lemma QueriesAgree(gender: Option<string>, resultsCount: int)
    ensures IndexQuery(gender, resultsCount) == ExportQuery(gender, resultsCount)
  {
  }

  /** Any gender other than "male" or "female" is dropped from the query, so
      it asks upstream for exactly what an unfiltered request asks for. */
  lemma UnsupportedGenderQueriesAll(gender: Option<string>, resultsCount: int)
    requires !InSupportedList(gender)
    ensures IndexQuery(gender, resultsCount) == IndexQuery(None, resultsCount)
    ensures ExportQuery(gender, resultsCount) == ExportQuery(None, resultsCount)
  {
  }
}
