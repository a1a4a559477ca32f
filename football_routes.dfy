/** The football routes (routes/football.js): the live/today/yesterday/
    tomorrow list routes, which map fixtures like the match routes but
    pass on a missing team or league instead of throwing, and the
    cache-first lookup of one match. */
module FootballRoutes {
  import opened Wrappers
  import opened Js
  import Text
  import opened AnalysisModel
  import opened Feed
  import opened ApiFootball
  import Seqs
  import LeagueFilter
  import AutoAnalyzeScript
  import AutoAnalyzeService

  /** The `status` field: on /matches/live "LIVE" reads "live" and any
      other code is lower-cased (a code that is not a string throws); the
      other routes copy the code. */
  function RouteStatus(short: Value, live: bool): Option<Value> {
    if !live then Some(short)
    else if short == Str("LIVE") then Some(Str("live"))
    else if short.Str? then Some(Str(Text.ToLower(short.s)))
    else None
  }

  /** The live route's status is the lower-case form of the code, "LIVE"
      included, and it throws exactly on a code that is not a string. */
  lemma LiveStatusIsLowerCase(short: Value)
    ensures RouteStatus(short, true).None? <==> !short.Str?
    ensures short.Str? ==> RouteStatus(short, true) == Some(Str(Text.ToLower(short.s)))
    ensures RouteStatus(short, false) == Some(short)
  {
    if short == Str("LIVE") {
      assert Text.ToLower("LIVE") == "live";
    }
  }

  function ToTeamRef(t: Option<TeamInfo>): Option<TeamRef> {
    if t.None? then None else Some(TeamRef(t.value.id, t.value.name, t.value.logo))
  }

  function ToTournamentRef(l: Option<League>): Option<TournamentRef> {
    if l.None? then None else Some(TournamentRef(l.value.id, l.value.name, l.value.country, l.value.logo))
  }

  /** The object one fixture maps to, or None when building it throws. */
  function ToDto(m: ApiMatch, live: bool): Option<FeedMatch> {
    if FixtureIdString(m).None? || m.teams.None? || m.goals.None? || m.fixture.value.status.None?
       || RouteStatus(m.fixture.value.status.value.short, live).None?
    then None
    else
      var f, g, st := m.fixture.value, m.goals.value, m.fixture.value.status.value;
      Some(FeedMatch(
        Undefined, f.id, Str(FixtureIdString(m).value), Undefined, Undefined,
        RouteStatus(st.short, live).value,
        ToTeamRef(m.teams.value.home), ToTeamRef(m.teams.value.away),
        Undefined, Undefined,
        Coalesce(g.home, Num(0)), Coalesce(g.away, Num(0)),
        ToTournamentRef(m.league),
        VenueName(f), f.date,
        Or(st.elapsed, Num(0)),
        if live then Bool(true) else Bool(st.short == Str("LIVE"))))
  }

  /** A fixture throws exactly when its fixture, id, status, teams or goals
      are missing, or on /matches/live when the code is not a string; a
      missing side or league is passed on as missing. Scores use `??`, the
      minute `||`, and `isLive` is true on /matches/live and otherwise
      exactly for the code "LIVE". */
  lemma ToDtoSpec(m: ApiMatch, live: bool)
    ensures ToDto(m, live).None? <==>
      m.fixture.None? || Nullish(m.fixture.value.id) || m.fixture.value.status.None?
      || m.teams.None? || m.goals.None? || (live && !m.fixture.value.status.value.short.Str?)
    ensures ToDto(m, live).Some? ==>
      var d, f, g := ToDto(m, live).value, m.fixture.value, m.goals.value;
      && d.docId == Str(ToStr(f.id)) && d.apiId == f.id
      && (Nullish(g.home) ==> d.scoreA == Num(0)) && (!Nullish(g.home) ==> d.scoreA == g.home)
      && (Nullish(g.away) ==> d.scoreB == Num(0)) && (!Nullish(g.away) ==> d.scoreB == g.away)
      && (Truthy(f.status.value.elapsed) ==> d.minute == f.status.value.elapsed)
      && (!Truthy(f.status.value.elapsed) ==> d.minute == Num(0))
      && (d.homeTeam.Some? <==> m.teams.value.home.Some?)
      && (d.tournament.Some? <==> m.league.Some?)
      && (live ==> d.isLive == Bool(true))
      && (!live ==> (d.isLive == Bool(true) <==> f.status.value.short == Str("LIVE")))
  {
    if m.fixture.Some? && m.fixture.value.status.Some? {
      LiveStatusIsLowerCase(m.fixture.value.status.value.short);
    }
  }

  /** `feed.map(...)`, or None when any element throws. */
  function MapAll(ms: seq<ApiMatch>, live: bool): Option<seq<FeedMatch>> {
    Seqs.MapPartial((m: ApiMatch) => ToDto(m, live), ms)
  }

  /** A list route: a feed call that throws answers 500, a missing or
      empty feed answers [], a fixture that throws answers 500, otherwise
      the mapped list after `filterMatches`. */
  function ListRoute(feed: Settled<Option<seq<ApiMatch>>>, live: bool): (r: Result<seq<FeedMatch>, int>)
    ensures feed.Rejected? ==> r == Err(500)
    ensures feed == Resolved(None) || feed == Resolved(Some([])) ==> r == Ok([])
    ensures r.Err? <==> feed.Rejected? || (feed.value.Some? && exists i :: 0 <= i < |feed.value.value| && ToDto(feed.value.value[i], live).None?)
    ensures r.Err? ==> r.error == 500
    ensures r.Ok? && feed.Resolved? && feed.value.Some? ==>
      |r.value| == |feed.value.value| && forall i :: 0 <= i < |feed.value.value| ==> ToDto(feed.value.value[i], live) == Some(r.value[i])
  {
    match feed
    case Rejected => Err(500)
    case Resolved(None) => Ok([])
    case Resolved(Some(ms)) =>
      if ms == [] then Ok([])
      else
        Seqs.MapPartialSpec((m: ApiMatch) => ToDto(m, live), ms);
        match MapAll(ms, live)
        case None => Err(500)
        case Some(out) => Ok(LeagueFilter.FilterMatches(out))
  }

  /** `GET /matches/live` */
  function LiveMatches(feed: Settled<Option<seq<ApiMatch>>>): Result<seq<FeedMatch>, int> { ListRoute(feed, true) }
  /** `GET /today`, `GET /yesterday` and `GET /tomorrow` */
  function DayMatches(feed: Settled<Option<seq<ApiMatch>>>): Result<seq<FeedMatch>, int> { ListRoute(feed, false) }

  /** Every match /matches/live serves is flagged live and has a
      lower-case status; every match the day routes serve is flagged live
      exactly when its status is "LIVE". */
  lemma ListFlags(feed: seq<ApiMatch>)
    ensures var served := LiveMatches(Resolved(Some(feed)));
      served.Ok? ==> forall i :: 0 <= i < |served.value| ==>
        served.value[i].isLive == Bool(true) && served.value[i].status.Str? && Text.ToLower(served.value[i].status.s) == served.value[i].status.s
    ensures var served := DayMatches(Resolved(Some(feed)));
      served.Ok? ==> forall i :: 0 <= i < |served.value| ==> served.value[i].isLive == Bool(served.value[i].status == Str("LIVE"))
  {
    forall i | 0 <= i < |feed| && ToDto(feed[i], true).Some?
      ensures ToDto(feed[i], true).value.status.Str?
      ensures Text.ToLower(ToDto(feed[i], true).value.status.s) == ToDto(feed[i], true).value.status.s
    {
      var short := feed[i].fixture.value.status.value.short;
      LiveStatusIsLowerCase(short);
      Text.ToLowerIdempotent(short.s);
    }
  }

  /** The live route's lower-casing changes what the pipelines consider
      finished: a full-time match served by /matches/live has status "ft",
      which the script's case-insensitive test accepts and the service's
      exact test does not. */
  lemma LiveFullTimeSeenByScriptOnly(m: ApiMatch)
    requires ToDto(m, true).Some? && m.fixture.value.status.value.short == Str("FT")
    ensures ToDto(m, true).value.status == Str("ft")
    ensures AutoAnalyzeScript.IsMatchFinished(ToDto(m, true).value)
    ensures !AutoAnalyzeService.ServiceFinished(ToDto(m, true).value)
  {
    LiveStatusIsLowerCase(Str("FT"));
    assert Text.ToLower("FT") == "ft";
    AutoAnalyzeService.FinishedTestsCompared(ToDto(m, true).value);
  }

  /** One step of `GET /matches/:id`: the answer, the stored matches after
      it, and whether the feed was asked. */
  datatype Lookup = Lookup(response: Result<FeedMatch, int>, docs: map<string, FeedMatch>, fetched: bool)

  /** The stored key of a fetched match: its `apiId` as the store casts it. */
  function StoreKey(d: FeedMatch): string {
    ToStr(d.apiId)
  }

  /** How the database answers the route's two calls: `Match.findOne`
      and the upsert `Match.findOneAndUpdate`; either may throw. */
  datatype StoreReplies = StoreReplies(findThrows: bool, upsertThrows: bool)

  /** Cache-first lookup: a store read that throws answers 500 before the
      feed is asked; a stored match answers without the feed; else the
      feed's match is upserted by its `apiId` and returned; a feed or an
      upsert that throws answers 500 and stores nothing; no match is 404. */
  function CacheFirst(docs: map<string, FeedMatch>, id: string, db: StoreReplies,
                      fetch: string -> Settled<Option<FeedMatch>>): (l: Lookup)
    ensures db.findThrows ==> l == Lookup(Err(500), docs, false)
    ensures !db.findThrows && id in docs ==> l == Lookup(Ok(docs[id]), docs, false)
    ensures l.fetched <==> !db.findThrows && id !in docs
    ensures l.response.Err? ==> l.docs == docs
    ensures l.response == Err(404) <==> !db.findThrows && id !in docs && fetch(id) == Resolved(None)
    ensures l.response.Err? <==>
      db.findThrows || (id !in docs && (fetch(id).Rejected? || fetch(id).value.None? || db.upsertThrows))
    ensures l.response.Err? ==> l.response.error in {404, 500}
    ensures l.fetched && fetch(id).Resolved? && fetch(id).value.Some? && !db.upsertThrows ==>
      var d := fetch(id).value.value;
      l.response == Ok(d) && l.docs == docs[StoreKey(d) := d]
  {
    if db.findThrows then Lookup(Err(500), docs, false)
    else if id in docs then Lookup(Ok(docs[id]), docs, false)
    else match fetch(id)
      case Rejected => Lookup(Err(500), docs, true)
      case Resolved(None) => Lookup(Err(404), docs, true)
      case Resolved(Some(d)) =>
        if db.upsertThrows then Lookup(Err(500), docs, true)
        else Lookup(Ok(d), docs[StoreKey(d) := d], true)
  }

  /** Once a lookup has filled the cache with a match stored under the
      requested id, the next lookup of that id is answered from the store,
      whatever the feed would say, and returns the same match, as long as
      the store can be read. */
  lemma CacheWarms(docs: map<string, FeedMatch>, id: string, db: StoreReplies, fetch: string -> Settled<Option<FeedMatch>>,
                   later: StoreReplies, laterFetch: string -> Settled<Option<FeedMatch>>)
    requires !db.findThrows && !db.upsertThrows && !later.findThrows
    requires fetch(id).Resolved? && fetch(id).value.Some? && StoreKey(fetch(id).value.value) == id
    ensures var first := CacheFirst(docs, id, db, fetch);
      var second := CacheFirst(first.docs, id, later, laterFetch);
      !second.fetched && second.response == first.response && second.docs == first.docs
  {
  }

  /** The matches stored by the single-match route. */
  class MatchCache {
    var docs: map<string, FeedMatch>

    constructor(initial: map<string, FeedMatch>)
      ensures docs == initial
    {
      docs := initial;
    }

    /** `GET /matches/:id` */
    method GetMatch(id: string, db: StoreReplies, fetch: string -> Settled<Option<FeedMatch>>)
      returns (response: Result<FeedMatch, int>, fetched: bool)
      modifies this
      ensures Lookup(response, docs, fetched) == CacheFirst(old(docs), id, db, fetch)
    {
      if db.findThrows {
        return Err(500), false;
      }
      if id in docs {
        return Ok(docs[id]), false;
      }
      fetched := true;
      var fromFeed := fetch(id);
      if fromFeed.Rejected? {
        response := Err(500);
      } else if fromFeed.value.None? {
        response := Err(404);
      } else if db.upsertThrows {
        response := Err(500);
      } else {
        docs := docs[StoreKey(fromFeed.value.value) := fromFeed.value.value];
        response := Ok(fromFeed.value.value);
      }
    }
  }

  /** The `stats` field of `GET /stats`: the provider's usage figures, or
      `{}` when the API client has no `getUsageStats`. */
  function UsageStats(provider: Option<Value>): (stats: Value)
    ensures provider.None? ==> stats == Obj(0)
    ensures provider.Some? ==> stats == provider.value
  {
    if provider.Some? then provider.value else Obj(0)
  }
}
