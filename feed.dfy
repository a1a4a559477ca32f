/** The match objects that flow from the feed routes into the analysis
    pipelines and the analyzer. A field that an object lacks is Undefined;
    a nested object whose properties the code dereferences is an Option,
    None standing for a missing object (reading a property of it throws). */
module Feed {
  import opened Wrappers
  import opened Js
  import AnalysisModel

  datatype FeedMatch = FeedMatch(
    matchId: Value,
    apiId: Value,
    docId: Value,             // `_id`
    fixtureId: Value,         // `fixture?.id`
    fixtureStatus: Value,     // `fixture?.status?.short`
    status: Value,
    homeTeam: Option<AnalysisModel.TeamRef>,
    awayTeam: Option<AnalysisModel.TeamRef>,
    scoreHome: Value,         // `score?.home`
    scoreAway: Value,         // `score?.away`
    scoreA: Value,
    scoreB: Value,
    tournament: Option<AnalysisModel.TournamentRef>,
    venue: Value,
    date: Value,
    minute: Value,
    isLive: Value)

  /** What an awaited call settles to: its value, or Rejected when the
      promise rejects. */
  datatype Settled<+T> = Rejected | Resolved(value: T)

  predicate HasTeams(m: FeedMatch) {
    m.homeTeam.Some? && m.awayTeam.Some?
  }
}
