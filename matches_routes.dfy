/** The match list routes (routes/matches.js): each maps the API's
    fixtures to the match objects the analysis pipelines fetch. */
module MatchesRoutes {
  import opened Wrappers
  import opened Js
  import opened AnalysisModel
  import opened Feed
  import opened ApiFootball
  import Seqs
  import AiAnalysis
  import AutoAnalyzeScript
  import AutoAnalyzeService

  /** How a route sets `isLive`: from the in-play codes (/today), always
      (/live), or not at all (/yesterday, /tomorrow). */
  datatype LiveRule = ByCodes | Always | Omitted

  const LiveCodes: seq<string> := ["1H", "2H", "HT", "LIVE"]

  /** `["1H", "2H", "HT", "LIVE"].includes(short)` */
  predicate IsLiveCode(v: Value) {
    v.Str? && v.s in LiveCodes
  }

  /** The object one fixture maps to, or None when building it throws. */
  function ToDto(m: ApiMatch, rule: LiveRule): Option<FeedMatch> {
    if FixtureIdString(m).None? || m.teams.None? || m.teams.value.home.None? || m.teams.value.away.None?
       || m.goals.None? || m.fixture.value.status.None? || m.league.None?
    then None
    else
      var f, home, away, g, st, l := m.fixture.value, m.teams.value.home.value, m.teams.value.away.value,
        m.goals.value, m.fixture.value.status.value, m.league.value;
      Some(FeedMatch(
        Undefined, f.id, Str(FixtureIdString(m).value), Undefined, Undefined, st.short,
        Some(TeamRef(home.id, home.name, home.logo)),
        Some(TeamRef(away.id, away.name, away.logo)),
        Undefined, Undefined,
        Coalesce(g.home, Num(0)), Coalesce(g.away, Num(0)),
        Some(TournamentRef(l.id, l.name, l.country, l.logo)),
        VenueName(f), f.date,
        Or(st.elapsed, Num(0)),
        match rule
        case ByCodes => Bool(IsLiveCode(st.short))
        case Always => Bool(true)
        case Omitted => Undefined))
  }

  /** Building a fixture's object throws exactly when the fixture, its id,
      its status, the teams (or either side), the goals or the league is
      missing. Otherwise `_id` is the id's string form and `apiId` the id;
      the scores use `??` (null and undefined read 0, 0 stays 0); the
      minute uses `||`; the venue defaults to "Unknown Venue"; `isLive`
      follows the route's rule. */
  lemma ToDtoSpec(m: ApiMatch, rule: LiveRule)
    ensures ToDto(m, rule).None? <==>
      m.fixture.None? || Nullish(m.fixture.value.id) || m.fixture.value.status.None?
      || m.teams.None? || m.teams.value.home.None? || m.teams.value.away.None?
      || m.goals.None? || m.league.None?
    ensures ToDto(m, rule).Some? ==>
      var d, f, g := ToDto(m, rule).value, m.fixture.value, m.goals.value;
      && d.docId == Str(ToStr(f.id)) && d.apiId == f.id
      && d.status == f.status.value.short
      && (Nullish(g.home) ==> d.scoreA == Num(0)) && (!Nullish(g.home) ==> d.scoreA == g.home)
      && (Nullish(g.away) ==> d.scoreB == Num(0)) && (!Nullish(g.away) ==> d.scoreB == g.away)
      && (Truthy(f.status.value.elapsed) ==> d.minute == f.status.value.elapsed)
      && (!Truthy(f.status.value.elapsed) ==> d.minute == Num(0))
      && (f.venue.None? ==> d.venue == Str("Unknown Venue"))
      && d.homeTeam.value.name == m.teams.value.home.value.name
      && d.awayTeam.value.name == m.teams.value.away.value.name
      && d.isLive == match rule
        case ByCodes => Bool(f.status.value.short in [Str("1H"), Str("2H"), Str("HT"), Str("LIVE")])
        case Always => Bool(true)
        case Omitted => Undefined
  {
    if ToDto(m, rule).Some? && rule.ByCodes? {
      var short := m.fixture.value.status.value.short;
      assert IsLiveCode(short) <==> short in [Str("1H"), Str("2H"), Str("HT"), Str("LIVE")];
    }
  }

  /** `apiMatches.map(...)`, or None when any element throws. */
  function MapAll(ms: seq<ApiMatch>, rule: LiveRule): Option<seq<FeedMatch>> {
    Seqs.MapPartial((m: ApiMatch) => ToDto(m, rule), ms)
  }

  /** A list route: a feed call that throws answers 500, an empty or
      missing feed answers [], a fixture that throws answers 500,
      otherwise the mapped list. */
  function ListRoute(feed: Settled<Option<seq<ApiMatch>>>, rule: LiveRule): (r: Result<seq<FeedMatch>, int>)
    ensures feed.Rejected? ==> r == Err(500)
    ensures feed == Resolved(None) || feed == Resolved(Some([])) ==> r == Ok([])
    ensures r.Err? <==> feed.Rejected? || (feed.value.Some? && exists i :: 0 <= i < |feed.value.value| && ToDto(feed.value.value[i], rule).None?)
    ensures r.Err? ==> r.error == 500
    ensures r.Ok? && feed.Resolved? && feed.value.Some? ==>
      |r.value| == |feed.value.value| && forall i :: 0 <= i < |feed.value.value| ==> ToDto(feed.value.value[i], rule) == Some(r.value[i])
  {
    match feed
    case Rejected => Err(500)
    case Resolved(None) => Ok([])
    case Resolved(Some(ms)) =>
      if ms == [] then Ok([])
      else
        Seqs.MapPartialSpec((m: ApiMatch) => ToDto(m, rule), ms);
        match MapAll(ms, rule)
        case None => Err(500)
        case Some(out) => Ok(out)
  }

  /** `GET /today` */
  function Today(feed: Settled<Option<seq<ApiMatch>>>): Result<seq<FeedMatch>, int> { ListRoute(feed, ByCodes) }
  /** `GET /yesterday` */
  function Yesterday(feed: Settled<Option<seq<ApiMatch>>>): Result<seq<FeedMatch>, int> { ListRoute(feed, Omitted) }
  /** `GET /tomorrow` */
  function Tomorrow(feed: Settled<Option<seq<ApiMatch>>>): Result<seq<FeedMatch>, int> { ListRoute(feed, Omitted) }
  /** `GET /live` */
  function Live(feed: Settled<Option<seq<ApiMatch>>>): Result<seq<FeedMatch>, int> { ListRoute(feed, Always) }

  /** /live marks every match live; /today marks a match live exactly for
      an in-play code; /yesterday and /tomorrow set no flag. */
  lemma LiveFlags(feed: seq<ApiMatch>)
    ensures var live := Live(Resolved(Some(feed)));
      live.Ok? ==> forall i :: 0 <= i < |live.value| ==> live.value[i].isLive == Bool(true)
    ensures var today := Today(Resolved(Some(feed)));
      today.Ok? ==> forall i :: 0 <= i < |today.value| ==> (today.value[i].isLive == Bool(true) <==> IsLiveCode(today.value[i].status))
    ensures var yesterday := Yesterday(Resolved(Some(feed)));
      yesterday.Ok? ==> forall i :: 0 <= i < |yesterday.value| ==> yesterday.value[i].isLive == Undefined
  {
  }

  /** The objects these routes serve are what the analysis pipelines
      expect: for a numeric fixture id they have both teams and a
      tournament, a truthy id for the script, and a service key naming the
      same record as the analyzer's id; a full-time fixture is finished for
      both pipelines. */
  lemma DtoFeedsPipelines(m: ApiMatch, rule: LiveRule, n: int)
    requires ToDto(m, rule).Some? && m.fixture.value.id == Num(n)
    ensures var d := ToDto(m, rule).value;
      && AutoAnalyzeScript.Complete(d) && AutoAnalyzeService.KeysAgree(d)
      && AiAnalysis.GetMatchId(d) == AutoAnalyzeScript.ScriptMatchId(d)
      && (d.status == Str("FT") ==> AutoAnalyzeScript.IsMatchFinished(d) && AutoAnalyzeService.ServiceFinished(d))
  {
    var d := ToDto(m, rule).value;
    TruthyToStrNonEmpty(Num(if n == 0 then 1 else n));
    assert ToStr(Num(n)) != "" by {
      if n < 0 { } else { assert NatToDecimal(n) != ""; }
    }
    if d.status == Str("FT") {
      AutoAnalyzeService.FinishedTestsCompared(d);
    }
    if n == 0 {
      assert ToStr(Num(0)) == "0";
    }
  }
}
