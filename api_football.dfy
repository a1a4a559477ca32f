/** The fixture objects the external football API returns, as far as the
    routes and the match-data service read them. A nested object that may
    be absent is an Option; reading a property of an absent one throws. */
module ApiFootball {
  import opened Wrappers
  import opened Js

  datatype Venue = Venue(id: Value, name: Value, city: Value)

  datatype Status = Status(long: Value, short: Value, elapsed: Value, extra: Value)

  datatype Fixture = Fixture(
    id: Value,
    referee: Value,
    timezone: Value,
    date: Value,
    timestamp: Value,
    periods: Value,
    venue: Option<Venue>,
    status: Option<Status>)

  datatype TeamInfo = TeamInfo(id: Value, name: Value, logo: Value, winner: Value)

  datatype Teams = Teams(home: Option<TeamInfo>, away: Option<TeamInfo>)

  datatype Goals = Goals(home: Value, away: Value)

  datatype League = League(
    id: Value, name: Value, country: Value, logo: Value, flag: Value,
    season: Value, round: Value, standings: Value)

  datatype ScoreInfo = ScoreInfo(halftime: Value, fulltime: Value, extratime: Value, penalty: Value)

  datatype ApiMatch = ApiMatch(
    fixture: Option<Fixture>,
    league: Option<League>,
    teams: Option<Teams>,
    goals: Option<Goals>,
    score: Option<ScoreInfo>)

  /** `match.fixture.id.toString()`: throws for a missing fixture or a
      null or undefined id. */
  function FixtureIdString(m: ApiMatch): Option<string> {
    if m.fixture.None? || Nullish(m.fixture.value.id) then None
    else Some(ToStr(m.fixture.value.id))
  }

  /** `match.fixture.venue?.name || "Unknown Venue"` */
  function VenueName(f: Fixture): (v: Value)
    ensures (v.Str? && v.s == "Unknown Venue") || (f.venue.Some? && Truthy(f.venue.value.name) && v == f.venue.value.name)
    ensures f.venue.Some? && Truthy(f.venue.value.name) ==> v == f.venue.value.name
  {
    Or(if f.venue.Some? then f.venue.value.name else Undefined, Str("Unknown Venue"))
  }
}
