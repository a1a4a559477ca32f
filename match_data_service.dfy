/** The match-data service (services/matchDataService.js): position
    mapping, the fantasy view of a fixture's player statistics, the
    conversion to the stored external-match document, and the in-place
    update of fantasy squads from a match. */
module MatchDataService {
  import opened Wrappers
  import opened Js
  import Seqs
  import opened ApiFootball
  import MatchesRoutes

  // ---------------------------------------------------------------------
  // Positions

  /** The five own keys of the position table. */
  function PositionTable(key: string): Option<string> {
    if key == "G" then Some("Goalkeeper")
    else if key == "D" then Some("Defender")
    else if key == "M" then Some("Midfielder")
    else if key == "F" then Some("Forward")
    else if key == "A" then Some("Attacker")
    else None
  }

  const PositionNames: set<string> := {"Goalkeeper", "Defender", "Midfielder", "Forward", "Attacker"}

  /** `positionMap[apiPosition] || 'Midfielder'`; the property key is the
      string form of the argument. */
  function MapPosition(apiPosition: Value): string {
    var hit := PositionTable(ToStr(apiPosition));
    if hit.Some? then hit.value else "Midfielder"
  }

  /** Every code maps to one of the five names: G, D, M, F and A to their
      own, anything else (a missing position included) to Midfielder. */
  lemma MapPositionSpec(apiPosition: Value)
    ensures MapPosition(apiPosition) in PositionNames
    ensures apiPosition == Str("G") ==> MapPosition(apiPosition) == "Goalkeeper"
    ensures apiPosition == Str("D") ==> MapPosition(apiPosition) == "Defender"
    ensures apiPosition == Str("F") ==> MapPosition(apiPosition) == "Forward"
    ensures apiPosition == Str("A") ==> MapPosition(apiPosition) == "Attacker"
    ensures ToStr(apiPosition) !in {"G", "D", "F", "A"} ==> MapPosition(apiPosition) == "Midfielder"
  {
  }

  // ---------------------------------------------------------------------
  // Player statistics for fantasy scoring

  datatype Games = Games(position: Value, minutes: Value)
  datatype GoalStats = GoalStats(total: Value, assists: Value, saves: Value)
  datatype Cards = Cards(yellow: Value, red: Value)
  datatype Penalty = Penalty(missed: Value)

  /** One entry of a player's `statistics` array; a missing group is None. */
  datatype PlayerStatistics = PlayerStatistics(
    games: Option<Games>, goals: Option<GoalStats>, cards: Option<Cards>, penalty: Option<Penalty>)

  datatype PlayerIdent = PlayerIdent(id: Value, name: Value)

  datatype ApiPlayer = ApiPlayer(player: Option<PlayerIdent>, statistics: Option<seq<PlayerStatistics>>)

  /** A fixture with its per-team player lists. */
  datatype StatsMatch = StatsMatch(fixture: Option<Fixture>, teams: Option<Teams>, players: Option<seq<seq<ApiPlayer>>>)

  datatype FantasyPlayer = FantasyPlayer(
    playerId: Value, name: Value, position: string,
    minutesPlayed: Value, goals: Value, assists: Value,
    yellowCards: Value, redCards: Value,
    penaltiesSaved: Value, penaltiesMissed: Value,
    cleanSheet: bool, goalsConceded: int)

  datatype FantasySide = FantasySide(id: Value, name: Value, players: seq<FantasyPlayer>)

  datatype FantasyMatch = FantasyMatch(
    matchId: Value, homeTeam: FantasySide, awayTeam: FantasySide, status: Value, date: Value)

  /** `calculateCleanSheet`: a placeholder that never awards a clean sheet. */
  function CalculateCleanSheet(stats: Option<PlayerStatistics>, isHome: bool): (clean: bool)
    ensures !clean
  {
    if stats.None? then false else false
  }

  /** `calculateGoalsConceded`: a placeholder that always reports 0. */
  function CalculateGoalsConceded(stats: Option<PlayerStatistics>, isHome: bool): (conceded: int)
    ensures conceded == 0
  {
    if stats.None? then 0 else 0
  }

  /** A statistic read as `value || 0`. */
  function StatOrZero(v: Value): Value {
    Or(v, Num(0))
  }

  /** The fantasy entry of one player, or None when reading it throws (no
      `player`, no `statistics` array, or a first statistics entry missing
      one of its groups). */
  function ProcessPlayer(p: ApiPlayer, isHome: bool): Option<FantasyPlayer> {
    if p.player.None? || p.statistics.None? then None
    else if p.statistics.value == [] then
      Some(FantasyPlayer(p.player.value.id, p.player.value.name, MapPosition(Undefined),
        Num(0), Num(0), Num(0), Num(0), Num(0), Num(0), Num(0),
        CalculateCleanSheet(None, isHome), CalculateGoalsConceded(None, isHome)))
    else
      var s := p.statistics.value[0];
      if s.games.None? || s.goals.None? || s.cards.None? || s.penalty.None? then None
      else
        Some(FantasyPlayer(p.player.value.id, p.player.value.name, MapPosition(s.games.value.position),
          StatOrZero(s.games.value.minutes), StatOrZero(s.goals.value.total), StatOrZero(s.goals.value.assists),
          StatOrZero(s.cards.value.yellow), StatOrZero(s.cards.value.red),
          StatOrZero(s.goals.value.saves), StatOrZero(s.penalty.value.missed),
          CalculateCleanSheet(Some(s), isHome), CalculateGoalsConceded(Some(s), isHome)))
  }

  /** Every statistic of a fantasy entry is the source's truthy value or
      0; a player without statistics gets all zeros and Midfielder; no one
      gets a clean sheet or conceded goals. */
  lemma ProcessPlayerSpec(p: ApiPlayer, isHome: bool)
    ensures ProcessPlayer(p, isHome).Some? ==>
      var f := ProcessPlayer(p, isHome).value;
      && f.playerId == p.player.value.id && f.name == p.player.value.name
      && f.position in PositionNames
      && (forall v :: v in [f.minutesPlayed, f.goals, f.assists, f.yellowCards, f.redCards, f.penaltiesSaved, f.penaltiesMissed]
            ==> Truthy(v) || v == Num(0))
      && !f.cleanSheet && f.goalsConceded == 0
    ensures p.player.Some? && p.statistics == Some([]) ==>
      var f := ProcessPlayer(p, isHome).value;
      && f.position == "Midfielder"
      && f.minutesPlayed == f.goals == f.assists == f.yellowCards == f.redCards == f.penaltiesSaved == f.penaltiesMissed == Num(0)
  {
    if ProcessPlayer(p, isHome).Some? {
      if p.statistics.value == [] {
        MapPositionSpec(Undefined);
      } else {
        MapPositionSpec(p.statistics.value[0].games.value.position);
      }
    }
  }

  /** `players.map(...)`, or None when one player throws. */
  function ProcessPlayers(ps: seq<ApiPlayer>, isHome: bool): Option<seq<FantasyPlayer>> {
    Seqs.MapPartial((p: ApiPlayer) => ProcessPlayer(p, isHome), ps)
  }

  /** The player list of side `k` (0 home, 1 away): empty unless
      `players[k]` exists. */
  function SidePlayers(players: Option<seq<seq<ApiPlayer>>>, k: nat): Option<seq<FantasyPlayer>> {
    if players.None? || |players.value| <= k then Some([])
    else ProcessPlayers(players.value[k], k == 0)
  }

  /** `processMatchDataForFantasy`, or None when it throws. */
  function ProcessMatchDataForFantasy(md: StatsMatch): Option<FantasyMatch> {
    if md.fixture.None? || md.teams.None? || md.teams.value.home.None? || md.teams.value.away.None?
       || md.fixture.value.status.None?
       || SidePlayers(md.players, 0).None? || SidePlayers(md.players, 1).None?
    then None
    else
      var f, home, away := md.fixture.value, md.teams.value.home.value, md.teams.value.away.value;
      Some(FantasyMatch(
        f.id,
        FantasySide(home.id, home.name, SidePlayers(md.players, 0).value),
        FantasySide(away.id, away.name, SidePlayers(md.players, 1).value),
        f.status.value.short, f.date))
  }

  /** The fantasy view carries the fixture id and status code; each side's
      list is empty unless its player list exists, and otherwise has one
      entry per listed player, in order. */
  lemma ProcessMatchDataSpec(md: StatsMatch)
    requires ProcessMatchDataForFantasy(md).Some?
    ensures var r := ProcessMatchDataForFantasy(md).value;
      && r.matchId == md.fixture.value.id && r.status == md.fixture.value.status.value.short
      && r.homeTeam.name == md.teams.value.home.value.name && r.awayTeam.name == md.teams.value.away.value.name
      && (md.players.None? || |md.players.value| == 0 ==> r.homeTeam.players == [])
      && (md.players.None? || |md.players.value| <= 1 ==> r.awayTeam.players == [])
      && (md.players.Some? && |md.players.value| > 0 ==>
            |r.homeTeam.players| == |md.players.value[0]|
            && forall i :: 0 <= i < |md.players.value[0]| ==>
                 ProcessPlayer(md.players.value[0][i], true) == Some(r.homeTeam.players[i]))
      && (md.players.Some? && |md.players.value| > 1 ==>
            |r.awayTeam.players| == |md.players.value[1]|
            && forall i :: 0 <= i < |md.players.value[1]| ==>
                 ProcessPlayer(md.players.value[1][i], false) == Some(r.awayTeam.players[i]))
  {
    if md.players.Some? && |md.players.value| > 0 {
      Seqs.MapPartialSpec((p: ApiPlayer) => ProcessPlayer(p, true), md.players.value[0]);
    }
    if md.players.Some? && |md.players.value| > 1 {
      Seqs.MapPartialSpec((p: ApiPlayer) => ProcessPlayer(p, false), md.players.value[1]);
    }
  }

  // ---------------------------------------------------------------------
  // Conversion to the stored external-match document

  datatype ExternalMatch = ExternalMatch(
    apiId: Value, fixture: Fixture, league: League, teams: Teams, goals: Goals, score: ScoreInfo,
    matchType: string, season: Value, leagueId: Value)

  datatype Converted = NullDoc | ConvertThrew | Doc(doc: ExternalMatch)

  const DefaultTimezone := "UTC"
  const UnknownVenue := "Unknown Venue"
  const UnknownCity := "Unknown City"
  const NotStartedLong := "Not Started"
  const NotStartedShort := "NS"
  const RegularMatch := "Regular Match"

  /** `convertToExternalMatchFormat`, with the current year as a parameter;
      `new Date(date)` keeps the date value as it is. */
  function ConvertToExternalMatchFormat(input: Option<ApiMatch>, currentYear: int): Converted {
    if input.None? then NullDoc
    else
      var m := input.value;
      if m.fixture.None? || m.league.None? || m.teams.None? || m.teams.value.home.None? || m.teams.value.away.None?
      then ConvertThrew
      else
        var f, l, home, away := m.fixture.value, m.league.value, m.teams.value.home.value, m.teams.value.away.value;
        var v := if f.venue.Some? then f.venue.value else Venue(Undefined, Undefined, Undefined);
        var st := if f.status.Some? then f.status.value else Status(Undefined, Undefined, Undefined, Undefined);
        var g := if m.goals.Some? then m.goals.value else Goals(Undefined, Undefined);
        var sc := if m.score.Some? then m.score.value else ScoreInfo(Undefined, Undefined, Undefined, Undefined);
        Doc(ExternalMatch(
          f.id,
          Fixture(f.id, f.referee, Or(f.timezone, Str(DefaultTimezone)), f.date, f.timestamp, Or(f.periods, Obj(0)),
            Some(Venue(Or(v.id, Null), Or(v.name, Str(UnknownVenue)), Or(v.city, Str(UnknownCity)))),
            Some(Status(Or(st.long, Str(NotStartedLong)), Or(st.short, Str(NotStartedShort)), Or(st.elapsed, Null), Or(st.extra, Null)))),
          League(l.id, l.name, l.country, l.logo, l.flag, Or(l.season, Num(currentYear)), l.round, Or(l.standings, Bool(false))),
          Teams(Some(TeamInfo(home.id, home.name, home.logo, home.winner)), Some(TeamInfo(away.id, away.name, away.logo, away.winner))),
          Goals(Or(g.home, Null), Or(g.away, Null)),
          ScoreInfo(Or(sc.halftime, Obj(0)), Or(sc.fulltime, Obj(0)), Or(sc.extratime, Obj(0)), Or(sc.penalty, Obj(0))),
          RegularMatch, l.season, l.id))
  }

  /** Null in, null out; a missing fixture, league or team throws; else
      `apiId` and `fixture.id` are the source id, the status defaults to
      "NS" / "Not Started", the time zone to "UTC", the venue to "Unknown
      Venue" in "Unknown City", a goal count of 0 (or a missing one) is
      stored as null, and the league season falls back to the current
      year while the top-level `season` keeps the raw value. */
  lemma ConvertSpec(input: Option<ApiMatch>, currentYear: int)
    ensures ConvertToExternalMatchFormat(input, currentYear).NullDoc? <==> input.None?
    ensures ConvertToExternalMatchFormat(input, currentYear).ConvertThrew? <==>
      input.Some? && (input.value.fixture.None? || input.value.league.None? || input.value.teams.None?
        || input.value.teams.value.home.None? || input.value.teams.value.away.None?)
    ensures ConvertToExternalMatchFormat(input, currentYear).Doc? ==>
      var d, m := ConvertToExternalMatchFormat(input, currentYear).doc, input.value;
      && d.apiId == m.fixture.value.id && d.fixture.id == m.fixture.value.id
      && d.matchType == "Regular Match" && d.leagueId == m.league.value.id
      && (m.fixture.value.status.None? ==> d.fixture.status == Some(Status(Str("Not Started"), Str("NS"), Null, Null)))
      && (!Truthy(m.fixture.value.timezone) ==> d.fixture.timezone == Str("UTC"))
      && (m.fixture.value.venue.None? ==> d.fixture.venue == Some(Venue(Null, Str("Unknown Venue"), Str("Unknown City"))))
      && (m.goals.None? ==> d.goals == Goals(Null, Null))
      && (m.goals.Some? && m.goals.value.home == Num(0) ==> d.goals.home == Null)
      && (m.goals.Some? && m.goals.value.away == Num(0) ==> d.goals.away == Null)
      && (!Truthy(m.league.value.season) ==> d.league.season == Num(currentYear) && d.season == m.league.value.season)
  {
  }

  /** The document read back as a fixture. */
  function AsApiMatch(d: ExternalMatch): ApiMatch {
    ApiMatch(Some(d.fixture), Some(d.league), Some(d.teams), Some(d.goals), Some(d.score))
  }

  /** Converting a converted document again changes nothing but the
      top-level `season`, which then takes the defaulted league season. */
  lemma ConvertIdempotent(input: Option<ApiMatch>, currentYear: int, laterYear: int)
    requires ConvertToExternalMatchFormat(input, currentYear).Doc? && currentYear > 0
    ensures var d := ConvertToExternalMatchFormat(input, currentYear).doc;
      ConvertToExternalMatchFormat(Some(AsApiMatch(d)), laterYear) == Doc(d.(season := d.league.season))
  {
  }

  /** A converted document always has a venue and a status, so the match
      list routes map it without throwing whenever its id is set. */
  lemma ConvertedFeedsMatchRoutes(input: Option<ApiMatch>, currentYear: int, rule: MatchesRoutes.LiveRule)
    requires ConvertToExternalMatchFormat(input, currentYear).Doc?
    ensures var d := ConvertToExternalMatchFormat(input, currentYear).doc;
      MatchesRoutes.ToDto(AsApiMatch(d), rule).Some? <==> !Nullish(d.fixture.id)
  {
    MatchesRoutes.ToDtoSpec(AsApiMatch(ConvertToExternalMatchFormat(input, currentYear).doc), rule);
  }

  // ---------------------------------------------------------------------
  // Updating fantasy squads from a match

  /** One player slot of a fantasy squad: the populated player's `apiId`
      (None when the slot has no player) and the statistics the sync
      writes. */
  datatype Slot = Slot(
    player: Option<Value>,
    minutesPlayed: Value, goals: Value, assists: Value,
    cleanSheet: Value, goalsConceded: Value,
    yellowCards: Value, redCards: Value,
    penaltiesSaved: Value, penaltiesMissed: Value)

  /** `a === b`: NaN equals nothing, and two object values are taken to be
      distinct objects. */
  predicate StrictEq(a: Value, b: Value) {
    a == b && !a.NaN? && !a.Obj?
  }

  /** `players.find(p => p.playerId === apiId)` */
  function FindEntry(players: seq<FantasyPlayer>, apiId: Value): Option<FantasyPlayer> {
    Seqs.Find((p: FantasyPlayer) => StrictEq(p.playerId, apiId), players)
  }

  /** The slot with the nine statistics of a match entry written over it. */
  function WithStats(slot: Slot, e: FantasyPlayer): Slot {
    slot.(minutesPlayed := e.minutesPlayed, goals := e.goals, assists := e.assists,
          cleanSheet := Bool(e.cleanSheet), goalsConceded := Num(e.goalsConceded),
          yellowCards := e.yellowCards, redCards := e.redCards,
          penaltiesSaved := e.penaltiesSaved, penaltiesMissed := e.penaltiesMissed)
  }

  /** What the loop body does to one slot: `homePlayer || awayPlayer`. */
  function UpdateSlot(slot: Slot, data: FantasyMatch): Slot {
    if slot.player.None? then slot
    else
      var home := FindEntry(data.homeTeam.players, slot.player.value);
      var away := FindEntry(data.awayTeam.players, slot.player.value);
      if home.Some? then WithStats(slot, home.value)
      else if away.Some? then WithStats(slot, away.value)
      else slot
  }

  /** An empty slot, or one whose player is in neither list, is left
      alone; otherwise its statistics come from the first home entry with
      the player's id, or failing that the first away entry. The player
      reference never changes. */
  lemma UpdateSlotSpec(slot: Slot, data: FantasyMatch)
    ensures UpdateSlot(slot, data).player == slot.player
    ensures slot.player.None? ==> UpdateSlot(slot, data) == slot
    ensures slot.player.Some? ==>
      var id, home, away := slot.player.value, data.homeTeam.players, data.awayTeam.players;
      && ((forall i :: 0 <= i < |home| ==> !StrictEq(home[i].playerId, id))
          && (forall i :: 0 <= i < |away| ==> !StrictEq(away[i].playerId, id))
          ==> UpdateSlot(slot, data) == slot)
      && (forall i ::
            (0 <= i < |home| && StrictEq(home[i].playerId, id)
             && (forall j :: 0 <= j < i ==> !StrictEq(home[j].playerId, id)))
            ==> UpdateSlot(slot, data) == WithStats(slot, home[i]))
      && (forall i ::
            (0 <= i < |away| && StrictEq(away[i].playerId, id)
             && (forall j :: 0 <= j < i ==> !StrictEq(away[j].playerId, id))
             && (forall j :: 0 <= j < |home| ==> !StrictEq(home[j].playerId, id)))
            ==> UpdateSlot(slot, data) == WithStats(slot, away[i]))
  {
    if slot.player.Some? {
      var id, home, away := slot.player.value, data.homeTeam.players, data.awayTeam.players;
      var p := (e: FantasyPlayer) => StrictEq(e.playerId, id);
      FirstFound(p, home);
      FirstFound(p, away);
    }
  }

  /** `find` returns the element at the first index satisfying `p`. */
  lemma FirstFound<T>(p: T -> bool, s: seq<T>)
    ensures forall i ::
      (0 <= i < |s| && p(s[i]) && (forall j :: 0 <= j < i ==> !p(s[j])))
      ==> Seqs.Find(p, s) == Some(s[i])
  {
    forall i | 0 <= i < |s| && p(s[i]) && (forall j :: 0 <= j < i ==> !p(s[j]))
      ensures Seqs.Find(p, s) == Some(s[i])
    {
      var k :| 0 <= k < |s| && s[k] == Seqs.Find(p, s).value && p(s[k]) && forall j :: 0 <= j < k ==> !p(s[j]);
      assert !(k < i) && !(i < k);
    }
  }

  /** Syncing the same match twice leaves a slot as syncing it once. */
  lemma UpdateSlotIdempotent(slot: Slot, data: FantasyMatch)
    ensures UpdateSlot(UpdateSlot(slot, data), data) == UpdateSlot(slot, data)
  {
    UpdateSlotSpec(slot, data);
  }

  /** Every slot of a squad after the sync. */
  function SyncedSquad(slots: seq<Slot>, data: FantasyMatch): (r: seq<Slot>)
    ensures |r| == |slots|
  {
    seq(|slots|, i requires 0 <= i < |slots| => UpdateSlot(slots[i], data))
  }

  /** The inner loop over one squad's players, updating slots in place. */
  method SyncSquad(slots: array<Slot>, data: FantasyMatch)
    modifies slots
    ensures slots[..] == SyncedSquad(old(slots[..]), data)
  {
    var j := 0;
    while j < slots.Length
      invariant 0 <= j <= slots.Length
      invariant forall k :: 0 <= k < j ==> slots[k] == UpdateSlot(old(slots[k]), data)
      invariant forall k :: j <= k < slots.Length ==> slots[k] == old(slots[k])
    {
      var slot := slots[j];
      if slot.player.Some? {
        var homePlayer := FindEntry(data.homeTeam.players, slot.player.value);
        var awayPlayer := FindEntry(data.awayTeam.players, slot.player.value);
        var matchPlayer := if homePlayer.Some? then homePlayer else awayPlayer;
        if matchPlayer.Some? {
          slots[j] := WithStats(slot, matchPlayer.value);
        }
      }
      assert slots[j] == UpdateSlot(old(slots[j]), data);
      j := j + 1;
    }
    assert forall k :: 0 <= k < slots.Length ==> slots[..][k] == SyncedSquad(old(slots[..]), data)[k];
  }

  /** The outer loop over all squads; each squad is its own array. */
  method SyncSquads(squads: seq<array<Slot>>, data: FantasyMatch)
    requires forall a, b :: 0 <= a < b < |squads| ==> squads[a] != squads[b]
    modifies set q | q in squads
    ensures forall k :: 0 <= k < |squads| ==> squads[k][..] == SyncedSquad(old(squads[k][..]), data)
  {
    var i := 0;
    while i < |squads|
      invariant 0 <= i <= |squads|
      invariant forall k :: 0 <= k < i ==> squads[k][..] == SyncedSquad(old(squads[k][..]), data)
      invariant forall k :: i <= k < |squads| ==> squads[k][..] == old(squads[k][..])
    {
      SyncSquad(squads[i], data);
      i := i + 1;
    }
  }

  datatype SyncOutcome =
    | SyncedWithFallback(matchId: Value)
    | SyncedReal(data: FantasyMatch)
    | SyncThrew

  /** How the scoring service's `syncMatchDataToFantasyTeams` answers
      the sync's two calls of it: the one in the no-statistics branch and
      the retry in the catch block. */
  datatype ScoringReplies = ScoringReplies(firstOk: bool, retryOk: bool)

  /** The catch block: one more fallback sync through the scoring service;
      when that fails too the first error is rethrown. */
  function CatchBranch(matchId: Value, scoring: ScoringReplies): SyncOutcome {
    if scoring.retryOk then SyncedWithFallback(matchId) else SyncThrew
  }

  /** The no-statistics branch: a missing match throws into the catch
      block, else the scoring service syncs (and a failure there reaches
      the catch block, which asks it again). */
  function FallbackBranch(matchId: Value, detailsFound: bool, scoring: ScoringReplies): SyncOutcome {
    if !detailsFound then CatchBranch(matchId, scoring)
    else if scoring.firstOk then SyncedWithFallback(matchId)
    else CatchBranch(matchId, scoring)
  }

  /** The no-statistics branch reports the fallback sync for the same match
      exactly when the first scoring call succeeds on a match that exists,
      or the retry succeeds; otherwise it throws. Whether the details exist
      matters only when the retry fails. */
  lemma FallbackOutcome(matchId: Value, detailsFound: bool, scoring: ScoringReplies)
    ensures var o := FallbackBranch(matchId, detailsFound, scoring);
      && (o.SyncedWithFallback? <==> (detailsFound && scoring.firstOk) || scoring.retryOk)
      && (o.SyncedWithFallback? ==> o.matchId == matchId)
      && (!o.SyncedWithFallback? ==> o.SyncThrew?)
    ensures scoring.retryOk ==> FallbackBranch(matchId, true, scoring) == FallbackBranch(matchId, false, scoring)
  {
  }

  /** A value `.response` can be read from: the array the statistics call
      returns, or the API's envelope object holding such an array. */
  datatype StatsReply = ArrayReply(items: seq<StatsMatch>) | Envelope(response: seq<StatsMatch>)

  /** `reply.response`: an array has no such property. */
  function ResponseProperty(reply: StatsReply): Option<seq<StatsMatch>> {
    match reply
    case ArrayReply(_) => None
    case Envelope(items) => Some(items)
  }

  /** `getMatchPlayerStats`: the envelope's `response || []` (or [] when the
      request fails), which is always an array. */
  function GetMatchPlayerStats(apiResponse: Option<seq<StatsMatch>>): (reply: StatsReply)
    ensures reply.ArrayReply?
    ensures apiResponse.Some? ==> reply.items == apiResponse.value
  {
    ArrayReply(if apiResponse.Some? then apiResponse.value else [])
  }

  /** `syncMatchToFantasyTeams` as written: it tests and reads
      `matchStats.response` on what the statistics call returned. */
  function SyncAsWritten(matchId: Value, matchStats: StatsReply, detailsFound: bool, scoring: ScoringReplies): SyncOutcome {
    var response := ResponseProperty(matchStats);
    if response.None? || response.value == [] then FallbackBranch(matchId, detailsFound, scoring)
    else match ProcessMatchDataForFantasy(response.value[0])
      case None => CatchBranch(matchId, scoring)
      case Some(processed) => SyncedReal(processed)
  }

  /** `syncMatchToFantasyTeams` reading the statistics array itself. */
  function SyncCorrected(matchId: Value, matchStats: seq<StatsMatch>, detailsFound: bool, scoring: ScoringReplies): SyncOutcome {
    if matchStats == [] then FallbackBranch(matchId, detailsFound, scoring)
    else match ProcessMatchDataForFantasy(matchStats[0])
      case None => CatchBranch(matchId, scoring)
      case Some(processed) => SyncedReal(processed)
  }

  /** As written, real statistics are never used: whenever the first
      fixture's statistics process, the code still takes the no-statistics
      branch, while the corrected sync uses them. */
  lemma SyncIgnoresStatistics(matchId: Value, matchStats: seq<StatsMatch>, detailsFound: bool, scoring: ScoringReplies)
    requires matchStats != [] && ProcessMatchDataForFantasy(matchStats[0]).Some?
    ensures SyncAsWritten(matchId, GetMatchPlayerStats(Some(matchStats)), detailsFound, scoring) == FallbackBranch(matchId, detailsFound, scoring)
    ensures !SyncAsWritten(matchId, GetMatchPlayerStats(Some(matchStats)), detailsFound, scoring).SyncedReal?
    ensures SyncCorrected(matchId, matchStats, detailsFound, scoring) == SyncedReal(ProcessMatchDataForFantasy(matchStats[0]).value)
  {
  }

  /** The corrected sync uses the first fixture's statistics exactly when
      there are some and they process; otherwise it reports the fallback
      sync when the retry succeeds, or when there were no statistics and
      the first scoring call succeeded on an existing match, and throws in
      every other case. */
  lemma SyncCorrectedSpec(matchId: Value, matchStats: seq<StatsMatch>, detailsFound: bool, scoring: ScoringReplies)
    ensures var o := SyncCorrected(matchId, matchStats, detailsFound, scoring);
      && (o.SyncedReal? <==> matchStats != [] && ProcessMatchDataForFantasy(matchStats[0]).Some?)
      && (o.SyncedReal? ==> o.data == ProcessMatchDataForFantasy(matchStats[0]).value)
      && (!o.SyncedReal? ==>
            (o.SyncedWithFallback? <==> scoring.retryOk || (matchStats == [] && detailsFound && scoring.firstOk)))
      && (o.SyncedWithFallback? ==> o.matchId == matchId)
  {
    FallbackOutcome(matchId, detailsFound, scoring);
  }

  /** `syncMatchToFantasyTeams` on the given squads, in its corrected form
      (reading the statistics array itself): with usable statistics every
      squad is synced in place; otherwise no squad changes. */
  method SyncMatchToFantasyTeams(matchId: Value, matchStats: seq<StatsMatch>, detailsFound: bool, scoring: ScoringReplies,
                                 squads: seq<array<Slot>>) returns (outcome: SyncOutcome)
    requires forall a, b :: 0 <= a < b < |squads| ==> squads[a] != squads[b]
    modifies set q | q in squads
    ensures outcome == SyncCorrected(matchId, matchStats, detailsFound, scoring)
    ensures outcome.SyncedReal? ==>
      forall k :: 0 <= k < |squads| ==> squads[k][..] == SyncedSquad(old(squads[k][..]), outcome.data)
    ensures !outcome.SyncedReal? ==> forall k :: 0 <= k < |squads| ==> squads[k][..] == old(squads[k][..])
  {
    if matchStats == [] {
      return FallbackBranch(matchId, detailsFound, scoring);
    }
    var processed := ProcessMatchDataForFantasy(matchStats[0]);
    if processed.None? {
      return CatchBranch(matchId, scoring);
    }
    SyncSquads(squads, processed.value);
    outcome := SyncedReal(processed.value);
  }
}
