/** The league filter (middleware/leagueFilter.js), which is switched off:
    both filters return their input and the middleware only wraps
    `res.json` with a pass-through. */
module LeagueFilter {
  /** `filterMatches` */
  function FilterMatches<T>(matches: seq<T>): (r: seq<T>)
    ensures r == matches
  {
    matches
  }

  /** `filterMatchesByAllowedLeagues` */
  function FilterMatchesByAllowedLeagues<T>(matches: seq<T>): (r: seq<T>)
    ensures r == matches
  {
    matches
  }

  /** What the wrapped `res.json` hands to the original one. */
  function WrappedJson<T>(data: T): (forwarded: T)
    ensures forwarded == data
  {
    data
  }

  /** Whether the middleware calls `next`: exactly when one was given. */
  function Middleware(nextGiven: bool): (callsNext: bool)
    ensures callsNext <==> nextGiven
  {
    nextGiven
  }

  /** Filtering composes with itself and with the other filter as identity. */
  lemma FiltersAgree<T>(matches: seq<T>)
    ensures FilterMatches(FilterMatchesByAllowedLeagues(matches)) == matches
    ensures FilterMatches(matches) == FilterMatchesByAllowedLeagues(matches)
  {
  }
}
