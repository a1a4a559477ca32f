# football-backend in Dafny

A model of the football back end's core, with proofs about it. The core has three parts:

- **The automated match-analysis pipeline.** Two variants read the finished fixtures of today and yesterday from the feed. Each drops fixtures that already have a stored analysis and hands the rest, one at a time, to the analyzer. The analyzer either saves exactly one new analysis or returns a fallback, and never throws.
- **The routes that shape the feed.** These are the match and football lists and the league filter. They produce the objects the pipeline consumes.
- **The smaller services around it:**
  - the news model and its routes: likes, the single featured article, the indexing queue and slugs;
  - the analysis routes: search, pagination and generation;
  - the match-data service;
  - the sitemaps;
  - the contact form.

Modules follow the source files:

| module | file | models |
|---|---|---|
| `AutoAnalyzeScript` | `auto_analyze_script.dfy` | scripts/autoAnalyze.js |
| `AutoAnalyzeService` | `auto_analyze_service.dfy` | services/autoAnalyzeService.js |
| `RunStats` | `run_stats.dfy` | the statistics both pipelines keep |
| `AiAnalysis` | `ai_analysis.dfy` | services/aiAnalysis.js |
| `AnalysisModel` | `analysis_model.dfy` | models/Analysis.js |
| `AnalysisRoutes` | `analysis_routes.dfy` | routes/analysis.js |
| `Feed`, `ApiFootball` | `feed.dfy`, `api_football.dfy` | the match objects the routes serve, and the football API's fixtures |
| `MatchesRoutes` | `matches_routes.dfy` | routes/matches.js |
| `FootballRoutes` | `football_routes.dfy` | routes/football.js |
| `LeagueFilter` | `league_filter.dfy` | middleware/leagueFilter.js |
| `MatchDataService` | `match_data_service.dfy` | services/matchDataService.js |
| `NewsModel` | `news_model.dfy` | models/news.js |
| `NewsRoutes` | `news_routes.dfy` | routes/news.js |
| `Sitemap` | `sitemap.dfy` | routes/sitemap.js |
| `Contact` | `contact.dfy` | routes/contact.js |
| `Js`, `Text`, `Seqs`, `Wrappers` | `js.dfy`, `text.dfy`, `seqs.dfy`, `wrappers.dfy` | JavaScript values and truthiness, string and array operations, Option and Result |

How the model is built:

- **State the source changes in place is a class.** The pipelines' `isRunning` flag and counters are fields of a class. So are the analysis store (a `map` from `matchId` to record), the news collection and the match cache. Each class method is proved against a pure specification function. That function's properties are lemmas: exactly one analysis per id, skip-when-running, per-match error isolation, and idempotence of a second run.
- **The sync loop works on arrays.** The in-place player update of the fantasy sync runs over arrays of player slots.
- **Everything else is pure.** Route handlers and mappings are functions on JavaScript values (`Js.Value`, with truthiness, `||`, `??`, `String()` and `Number()` written out).
- **The outside world is an input.** The feed, the text generator and the database's acceptance of a write form an oracle passed in as a parameter (`Backend`). Clocks are parameters too.

## Model

| member | source | states |
|---|---|---|
| AiAnalysis.GetMatchIdPrecedence | services/aiAnalysis.js:10-12 | the id is the first truthy of matchId, apiId, _id, fixture.id, and it is truthy exactly when one of them is |
| AiAnalysis.ExtractSpec | services/aiAnalysis.js:155-159 | an extract is empty exactly when the text is; with no line mentioning a key it is the first 300 characters, and otherwise it is built from matching lines only |
| AiAnalysis.Sections | services/aiAnalysis.js:139-153 | one section per key list, each empty exactly when the text is |
| AiAnalysis.SectionsAreExtracts | services/aiAnalysis.js:139-159 | each section is `extract` of its key list |
| AiAnalysis.Parse | services/aiAnalysis.js:139-153 | the parsed narrative keeps the full text, has empty strength and weakness lists, and has an empty summary exactly when the text is empty |
| AiAnalysis.ParseSections | services/aiAnalysis.js:141-149 | summary, performance, key players, tactics and statistics are the extracts for their key lists |
| AiAnalysis.FallbackSpec | services/aiAnalysis.js:161-176 | the fallback's summary equals its non-empty full text, which names both teams and the score; its id is `getMatchId`; falsy scores read "0 - 0" |
| AiAnalysis.FallbackParts | services/aiAnalysis.js:164-167 | a message built from fixed text and three inserted parts contains each inserted part |
| AiAnalysis.Analyze | services/aiAnalysis.js:14-108 | a call throws exactly when a team is missing (the fallback reads both names); the store is unchanged, or it gains exactly the created record under its id; an existing answer is the stored record |
| AiAnalysis.AnalyzeCreates | services/aiAnalysis.js:18-101 | a record is created exactly when the id is truthy, not an object and not yet stored, the store answers, both teams and a tournament are present, the generator replies with non-empty text and the save is accepted |
| AiAnalysis.AnalyzeCreatedRecord | services/aiAnalysis.js:52-95 | a created record holds the generator's text, the `||` scores, model "groq-llama-3.3-70b", isPublished true, zero views and the elapsed time |
| AiAnalysis.SavedRecordFields | services/aiAnalysis.js:55-97 | what a successful save stores for a generated analysis |
| AiAnalysis.AnalyzeExisting | services/aiAnalysis.js:26-30 | an id already stored is answered with the stored record, with no generator call and no change |
| AiAnalysis.AnalyzeFailureIsFallback | services/aiAnalysis.js:103-107 | with both teams present, every outcome other than an existing or created record is the fallback, and the store is then unchanged |
| AiAnalysis.AnalyzeTwice | services/aiAnalysis.js:26-30 | analysing the same match twice generates and stores at most once; the second call finds the first call's record |
| AiAnalysis.AnalyzeMatch | services/aiAnalysis.js:14-108 | the method on the live store returns and stores what `Analyze` describes |
| AiAnalysis.AnalyzeAll | services/aiAnalysis.js:180-184 | the batch leaves a well-formed store |
| AiAnalysis.AnalyzeAllOk | services/aiAnalysis.js:180-184 | the batch resolves exactly when every match has both teams, with one truthy result per match in input order |
| AiAnalysis.AnalyzeAllErr | services/aiAnalysis.js:180-184 | a rejected batch names a match that lacks a team, and every match before it has both |
| AiAnalysis.AnalyzeAllStops | services/aiAnalysis.js:182 | once a prefix is rejected, the matches after it are not analysed |
| AiAnalysis.AnalyzeAllSnoc | services/aiAnalysis.js:182 | the batch over one more match is the batch so far followed by one call |
| AiAnalysis.AnalyzeMultipleMatches | services/aiAnalysis.js:180-184 | the loop over the live store returns and stores what `AnalyzeAll` describes |
| AnalysisModel.InstantiateDefaults | models/Analysis.js:26-121 | absent score parts, views and likes become 0, the record is published and in "ar" unless told otherwise, and every given field is kept |
| AnalysisModel.FindByMatchId | models/Analysis.js:147-149 | a record is found exactly when one is stored with that `matchId`, and the record found has it |
| AnalysisModel.UniqueMatchId | models/Analysis.js:5-10 | two stored records never share a `matchId` |
| AnalysisModel.FindByKey | models/Analysis.js:147-149 | a lookup fails exactly when the store is down or the key is an object, and finds a record exactly when `findByMatchId` on the key's string form does |
| AnalysisModel.PreSave | models/Analysis.js:189-197 | the hook changes only `processingTime`, gives a new document one, keeps a truthy one, and leaves an existing document alone |
| AnalysisModel.SaveNew | models/Analysis.js:5-90 | a save succeeds exactly when the write is accepted, the required texts are non-empty and the `matchId` is not yet stored; what it stores is the hooked document |
| AnalysisModel.SaveKeepsWellFormed | models/Analysis.js:5-10 | a successful save keeps every record under its own `matchId` and adds exactly one record |
| AnalysisModel.WithView | models/Analysis.js:183-186 | `views` goes up by one and nothing else changes |
| AnalysisModel.ScoreDisplayRoundTrip | models/Analysis.js:142-144 | for non-negative numeric scores the display is "home - away" and both scores read back from it in that order |
| AnalysisModel.GetRecentSpec | models/Analysis.js:152-157 | only published records, each from the store, newest first; as many as are published, cut down to `limit` (10 when none is given, none when it is 0); every published record when fewer than the limit come back; no published record left out is newer than one kept |
| AnalysisModel.AnalysisStore.Save | models/Analysis.js:189-197 | the store gains the saved document under its `matchId` when the save succeeds and is unchanged when it fails; the unique-id invariant is kept |
| AnalysisModel.AnalysisStore.IncrementViews | models/Analysis.js:183-186 | the stored record's `views` goes up by one and nothing else in the store changes |
| AnalysisModel.MatchTitleSpec | models/Analysis.js:137-139 | the title is the home name, " vs ", then the away name |
| AnalysisRoutes.TestRouteSpec | routes/analysis.js:9-24 | the probe counts every record and names a newest one, or none for an empty collection; 500 exactly when the store fails |
| AnalysisRoutes.SearchSpec | routes/analysis.js:29-47 | an empty or missing `q` answers `[]` without a query; otherwise at most 50 results, each a record matching `q` in one of the four fields, and every match when fewer than 50 match |
| AnalysisRoutes.TrendingSpec | routes/analysis.js:52-62 | ten records, or all of them when there are fewer, most viewed first, and no record left out has more views than one listed; 500 exactly when the store fails |
| AnalysisRoutes.FilterOptionsSpec | routes/analysis.js:67-94 | 500 exactly when the store fails or the `date` query is an Invalid Date, which the schema's cast refuses; otherwise at most fifty records, each meeting every given condition, newest first; fewer than fifty only when every matching record is listed; none left out newer than one listed; no parameters means no condition |
| AnalysisRoutes.GenerateAsWritten | routes/analysis.js:123-141 | with the module object of line 4 bound in place of `analyzeMatch`, no request succeeds: a complete body always answers 500 and nothing is stored |
| AnalysisRoutes.GenerateCorrected | routes/analysis.js:123-141 | with `analyzeMatch` bound, 400 exactly for a body lacking a team, otherwise the analyzer's outcome, with a created record stored under the body's match id and nothing stored otherwise |
| AnalysisRoutes.Generate | routes/analysis.js:123-141 | the route on the live store answers and stores what the corrected specification describes |
| AnalysisRoutes.NumberOr | routes/analysis.js:149-150 | `Number(v) || d` is never 0 |
| AnalysisRoutes.NumberOrSpec | routes/analysis.js:149-150 | a missing or empty parameter, or the numeral 0, gives the default; the numeral of any other integer gives that integer |
| AnalysisRoutes.PageCountSpec | routes/analysis.js:164 | the page count is the ceiling of count / limit, and with a positive limit it is 0 exactly for an empty collection |
| AnalysisRoutes.ListPageDefaults | routes/analysis.js:147-166 | missing parameters give page 1 of 20: the twenty newest records |
| AnalysisRoutes.PaginateSpec | routes/analysis.js:151-164 | page p is the newest-first slice from (p-1)*limit, limit long or cut short by the end; the reply counts every record |
| AnalysisRoutes.PageOfPosition | routes/analysis.js:151-164 | position i lies on page i/limit + 1, which is between 1 and the page count |
| AnalysisRoutes.EveryRecordOnAPage | routes/analysis.js:151-164 | with a positive limit every record appears on the page its newest-first position puts it on |
| AnalysisRoutes.GetByMatchId | routes/analysis.js:177-193 | 404 exactly when no record has the id, 500 exactly when the store fails, and otherwise the stored record with that id |
| AutoAnalyzeScript.ScriptMatchIdPrecedence | scripts/autoAnalyze.js:21-23 | the script's id is the first truthy of apiId, _id, fixture.id, ignores `matchId`, and is truthy exactly when one of them is |
| AutoAnalyzeScript.IsMatchFinishedSpec | scripts/autoAnalyze.js:25-31 | a match with neither status is not finished; the test is case-insensitive and is true exactly when the upper-cased status is FT, AET or PEN, the fixture's short status standing in for a falsy `status` |
| AutoAnalyzeScript.ScriptStep | scripts/autoAnalyze.js:93-121 | a match with a truthy id counts exactly once, as analyzed or, when a team is missing, as an error; other matches count nothing; at most one generator call |
| AutoAnalyzeScript.Process | scripts/autoAnalyze.js:93-121 | the loop leaves a well-formed store |
| AutoAnalyzeScript.ScriptRun | scripts/autoAnalyze.js:57-133 | a run leaves a well-formed store |
| AutoAnalyzeScript.WorklistSpec | scripts/autoAnalyze.js:72-89 | the worklist holds exactly the finished matches of today ++ yesterday whose truthy id is not stored, in feed order; a match with a falsy id is never on it |
| AutoAnalyzeScript.ProcessAccounting | scripts/autoAnalyze.js:105-120 | every worklist item is counted exactly once, as analyzed or as an error; the errors are the items lacking a team; at most one generator call per item |
| AutoAnalyzeScript.ProcessGrowsStore | scripts/autoAnalyze.js:93-121 | the loop only adds records: every record stored before is kept unchanged, and each new key is the id of a worklist match |
| AutoAnalyzeScript.ProcessStoresAll | scripts/autoAnalyze.js:93-121 | with a healthy backend and complete matches, every worklist match is stored under its id after the loop |
| AutoAnalyzeScript.ProcessFallbacksNotSaved | scripts/autoAnalyze.js:105-113 | when the generator fails for every item, each is answered by the unsaved fallback and counted as analyzed, with no error, and the store is unchanged |
| AutoAnalyzeScript.ScriptRunStoresAll | scripts/autoAnalyze.js:57-133 | with a healthy backend a run leaves every finished match stored under its id |
| AutoAnalyzeScript.ScriptRunNothingToDo | scripts/autoAnalyze.js:79-93 | a run whose finished matches are all stored makes no generator call and changes nothing but the check counters |
| AutoAnalyzeScript.ScriptRunIdempotent | scripts/autoAnalyze.js:57-133 | a second run on the same feed with a healthy backend analyzes nothing: no call, no new record, no error |
| AutoAnalyzeScript.ScanFinished | scripts/autoAnalyze.js:79-89 | the first loop reports a throwing look-up exactly when one occurs, and otherwise builds the worklist |
| AutoAnalyzeScript.AutoAnalyzeScript.constructor | scripts/autoAnalyze.js:6-19 | `ENABLED` is the setting "true", the interval is `Number(setting || 10)`, nothing running, zero counters, no job |
| AutoAnalyzeScript.AutoAnalyzeScript.Start | scripts/autoAnalyze.js:135-154 | a job is scheduled only when enabled and a generator key is given; counters and flag untouched |
| AutoAnalyzeScript.AutoAnalyzeScript.Stop | scripts/autoAnalyze.js:156-161 | a scheduled job is stopped; without one nothing happens |
| AutoAnalyzeScript.AutoAnalyzeScript.GetStats | scripts/autoAnalyze.js:163-170 | the counters with `enabled`, `interval` and `isRunning` |
| AutoAnalyzeScript.AutoAnalyzeScript.AnalyzeWorklist | scripts/autoAnalyze.js:93-121 | the loop leaves the store and counters that `Process` describes |
| AutoAnalyzeScript.AutoAnalyzeScript.AnalyzeOne | scripts/autoAnalyze.js:94-120 | one iteration leaves the store and counters that `ScriptStep` describes |
| AutoAnalyzeScript.AutoAnalyzeScript.CheckAndAnalyzeMatches | scripts/autoAnalyze.js:57-133 | a call while running changes nothing; otherwise the run is `ScriptRun` and `isRunning` is false again at the end |
| RunStats.BeginRun | scripts/autoAnalyze.js:63-65 | a run adds one check and sets `lastCheck`, leaving the other counters alone |
| RunStats.Apply | scripts/autoAnalyze.js:110-119 | a pass adds its analyzed and error counts, and `lastAnalysis` moves to now exactly when something was analyzed |
| RunStats.OuterFailure | scripts/autoAnalyze.js:123-126 | an outer failure adds one error and changes nothing else |
| AutoAnalyzeService.FinishedTestsCompared | services/autoAnalyzeService.js:95-99 | the service's exact test is stricter than the script's: whatever it accepts the script does, and a lower-case "ft" passes only the script's |
| AutoAnalyzeService.ServiceStep | services/autoAnalyzeService.js:124-142 | each worklist match counts exactly once, as an error exactly when a team is missing and otherwise as analyzed; a generator call only for a match counted as analyzed |
| AutoAnalyzeService.Process | services/autoAnalyzeService.js:123-144 | the loop leaves a well-formed store and counts every worklist match once |
| AutoAnalyzeService.ServiceRun | services/autoAnalyzeService.js:69-163 | a run leaves a well-formed store |
| AutoAnalyzeService.ServiceRunNothingFinished | services/autoAnalyzeService.js:103-107 | with nothing finished a run only counts the check: no look-up, no generator call, store unchanged |
| AutoAnalyzeService.WorklistSpec | services/autoAnalyzeService.js:92-118 | the worklist holds exactly the finished matches of today ++ yesterday whose key `_id || apiId` finds nothing, an undefined or null key always finding nothing |
| AutoAnalyzeService.ProcessAccounting | services/autoAnalyzeService.js:124-143 | the errors are exactly the worklist matches lacking a team, and generator calls never exceed the matches counted as analyzed |
| AutoAnalyzeService.ProcessGrowsStore | services/autoAnalyzeService.js:123-144 | the loop keeps every record stored before, unchanged |
| AutoAnalyzeService.StepStores | services/autoAnalyzeService.js:128 | a complete match with a healthy backend ends up stored under its key, and nothing stored before is lost |
| AutoAnalyzeService.ProcessStoresAll | services/autoAnalyzeService.js:123-144 | with a healthy backend and complete matches, every worklist match is stored under its key after the loop |
| AutoAnalyzeService.ServiceRunNothingToDo | services/autoAnalyzeService.js:109-123 | a run whose finished matches are all stored under agreeing keys only counts the check |
| AutoAnalyzeService.ServiceRunIdempotent | services/autoAnalyzeService.js:69-163 | with a healthy backend and agreeing keys, a second run on the same feed analyzes nothing: no call, no new record, no error |
| AutoAnalyzeService.FirstRunStoresFinished | services/autoAnalyzeService.js:92-144 | with a healthy backend, a run that finds finished matches leaves each of them stored under its key |
| AutoAnalyzeService.MismatchedKeyRecounted | services/autoAnalyzeService.js:113-134 | when `_id || apiId` differs from the analyzer's id, a stored analysis is not seen: the match is handed over again, nothing is generated or stored, and it is counted as analyzed once more |
| AutoAnalyzeService.AutoAnalyzeService.constructor | services/autoAnalyzeService.js:7-19 | `ENABLED` is the setting "true", `CHECK_INTERVAL` is `setting || 10` (not converted), nothing running, zero counters, no job |
| AutoAnalyzeService.AutoAnalyzeService.Start | services/autoAnalyzeService.js:24-54 | a job is scheduled only when enabled and a generator key is given; counters and flag untouched |
| AutoAnalyzeService.AutoAnalyzeService.Stop | services/autoAnalyzeService.js:59-64 | a scheduled job is stopped; without one nothing happens |
| AutoAnalyzeService.AutoAnalyzeService.GetStats | services/autoAnalyzeService.js:205-212 | the counters with `isRunning`, `enabled` and `checkInterval` |
| AutoAnalyzeService.AutoAnalyzeService.AnalyzeWorklist | services/autoAnalyzeService.js:123-144 | the loop leaves the store and counters that `Process` describes |
| AutoAnalyzeService.AutoAnalyzeService.AnalyzeOne | services/autoAnalyzeService.js:125-142 | one iteration leaves the store and counters that `ServiceStep` describes |
| AutoAnalyzeService.AutoAnalyzeService.ScanFinished | services/autoAnalyzeService.js:110-118 | the look-up loop reports a throwing look-up exactly when one occurs, and otherwise builds the worklist |
| AutoAnalyzeService.AutoAnalyzeService.CheckAndAnalyzeMatches | services/autoAnalyzeService.js:69-163 | a call while running changes nothing; otherwise the run is `ServiceRun` and `isRunning` is false again on every path |
| AutoAnalyzeService.AutoAnalyzeService.CronTick | services/autoAnalyzeService.js:45-51 | a tick while a run is in progress changes nothing; otherwise it performs one run |
| LeagueFilter.FilterMatches | middleware/leagueFilter.js:7-9 | the list comes back unchanged |
| LeagueFilter.FilterMatchesByAllowedLeagues | middleware/leagueFilter.js:27 | the list comes back unchanged |
| LeagueFilter.WrappedJson | middleware/leagueFilter.js:15-19 | the wrapped `res.json` forwards its data unchanged |
| LeagueFilter.Middleware | middleware/leagueFilter.js:21 | `next` is called exactly when one is given |
| LeagueFilter.FiltersAgree | middleware/leagueFilter.js:7-27 | the two filters agree and compose to the identity |
| ApiFootball.VenueName | routes/matches.js:42 | the venue is the fixture venue's truthy name, or else "Unknown Venue" |
| MatchesRoutes.ToDtoSpec | routes/matches.js:24-51 | building an object throws exactly when the fixture, its id, its status, a team, the goals or the league is missing; otherwise `_id` is the id's string and `apiId` the id, scores use `??`, the minute uses `||`, the venue defaults, and `isLive` follows the route's rule |
| MatchesRoutes.ListRoute | routes/matches.js:18-58 | a feed call that throws answers 500; an empty or missing feed answers `[]`; a fixture that throws answers 500; otherwise one object per fixture, same length and order |
| MatchesRoutes.LiveFlags | routes/matches.js:49-206 | /live marks every match live, /today exactly those with an in-play code, /yesterday and /tomorrow set no flag |
| MatchesRoutes.DtoFeedsPipelines | routes/matches.js:24-40 | for a numeric fixture id the served object has both teams and a tournament, a truthy id for the script, a service key naming the analyzer's record, and "FT" counts as finished for both pipelines |
| FootballRoutes.LiveStatusIsLowerCase | routes/football.js:31-66 | on /matches/live the status is the lower-case code ("LIVE" gives "live") and building throws exactly for a non-string code; the other routes copy the code |
| FootballRoutes.ToDtoSpec | routes/football.js:23-71 | a fixture throws exactly when its fixture, id, status, teams or goals are missing (or the live code is not a string); scores use `??`, the minute `||`, and `isLive` is true on /matches/live and otherwise exactly for "LIVE" |
| FootballRoutes.ListRoute | routes/football.js:18-77 | a feed call that throws answers 500; a missing or empty feed answers `[]`; a fixture that throws answers 500; otherwise one object per fixture in order, passed through `filterMatches` |
| FootballRoutes.ListFlags | routes/football.js:31-70 | every match /matches/live serves is live with a lower-case status; a day-route match is live exactly when its status is "LIVE" |
| FootballRoutes.LiveFullTimeSeenByScriptOnly | routes/football.js:31 | a full-time match served by /matches/live has status "ft", which the script's test accepts and the service's exact test does not |
| FootballRoutes.CacheFirst | routes/football.js:150-171 | a store read that throws answers 500 without asking the feed; a stored match answers without the feed; otherwise the feed's match is upserted by its `apiId` and returned; a feed call or upsert that throws answers 500 and no match answers 404, both with nothing stored |
| FootballRoutes.CacheWarms | routes/football.js:150-171 | once a lookup has stored a match under the requested id, the next lookup whose store read succeeds is answered from the store with the same match, whatever the feed says |
| FootballRoutes.MatchCache.GetMatch | routes/football.js:150-171 | the route on the live store answers, stores and fetches as `CacheFirst` describes, store and feed failures included |
| FootballRoutes.UsageStats | routes/football.js:272-283 | `stats` is the provider's figures, or `{}` when it has no `getUsageStats` |
| MatchDataService.MapPositionSpec | services/matchDataService.js:280-289 | every code maps to one of the five names; G, D, F and A map to Goalkeeper, Defender, Forward and Attacker, and every other code (M included) to Midfielder |
| MatchDataService.CalculateCleanSheet | services/matchDataService.js:292-297 | never awards a clean sheet |
| MatchDataService.CalculateGoalsConceded | services/matchDataService.js:300-304 | always reports 0 |
| MatchDataService.ProcessPlayerSpec | services/matchDataService.js:177-190 | each statistic is the source's truthy value or 0; a player without statistics gets zeros and Midfielder; no one gets a clean sheet or conceded goals |
| MatchDataService.ProcessMatchDataSpec | services/matchDataService.js:158-212 | the view carries the fixture id, status code and team names; each side's list is empty unless its player list exists, and otherwise has one entry per player, in order |
| MatchDataService.ConvertSpec | services/matchDataService.js:215-277 | null in, null out; a missing fixture, league or team throws; otherwise both ids are the fixture id, and the "NS"/"Not Started", "UTC", "Unknown Venue"/"Unknown City", "Regular Match" and current-year defaults apply, with a goal count of 0 stored as null |
| MatchDataService.ConvertIdempotent | services/matchDataService.js:215-277 | converting a converted document again changes nothing but the top-level season |
| MatchDataService.ConvertedFeedsMatchRoutes | services/matchDataService.js:227-237 | a converted document always has a venue and a status, so the match routes map it exactly when its id is set |
| MatchDataService.UpdateSlotSpec | services/matchDataService.js:338-361 | an empty slot or one in neither list is left alone; otherwise its nine statistics come from the first home entry with the player's id, else the first away entry; the player never changes |
| MatchDataService.FirstFound | services/matchDataService.js:342-347 | `find` returns the element at the first index that satisfies the test |
| MatchDataService.UpdateSlotIdempotent | services/matchDataService.js:338-361 | syncing the same match twice leaves a slot as syncing it once |
| MatchDataService.SyncedSquad | services/matchDataService.js:338-362 | one slot after the sync for every slot before it |
| MatchDataService.SyncSquad | services/matchDataService.js:338-362 | the inner loop updates the squad's array in place to `SyncedSquad` of its old contents |
| MatchDataService.SyncSquads | services/matchDataService.js:337-364 | every squad's array ends as `SyncedSquad` of its old contents |
| MatchDataService.FallbackOutcome | services/matchDataService.js:314-381 | in the no-statistics branch the sync reports the fallback sync for the same match exactly when the first scoring call succeeds on an existing match or the retry in the catch block succeeds, and otherwise throws; once the retry succeeds, whether the details exist no longer matters |
| MatchDataService.GetMatchPlayerStats | services/matchDataService.js:77-90 | the call returns the array of fixtures, never an envelope, holding the API's `response` when there is one |
| MatchDataService.SyncIgnoresStatistics | services/matchDataService.js:312-331 | as written, usable statistics still lead to the no-statistics branch, so real statistics are never used, while the corrected sync uses them |
| MatchDataService.SyncCorrectedSpec | services/matchDataService.js:312-383 | the corrected sync uses the first fixture's statistics exactly when there are some and they process; otherwise it reports the fallback sync when the retry succeeds, or when there were no statistics and the first scoring call succeeded on an existing match, and throws in every other case |
| MatchDataService.SyncMatchToFantasyTeams | services/matchDataService.js:307-383 | the corrected sync on the squads: its outcome is that of the corrected sync; with usable statistics every squad is synced in place; otherwise no squad changes |
| NewsModel.NewArticle | models/news.js:6-99 | a new article holds the trimmed title and content, the category "Sports" when none is given, no likes, zero views and attempts, status not_submitted and no slug yet |
| NewsModel.LikesCount | models/news.js:109-111 | the `likesCount` virtual is the number of likes, 0 when there is no list |
| NewsModel.ToggledLikesSpec | models/news.js:181-189 | an absent user is appended; a present one loses its first occurrence and the list shrinks by one; on a list without duplicates the user likes the article afterwards exactly when it did not before, and no duplicate appears |
| NewsModel.ToggleTwiceRestores | models/news.js:181-189 | liking then unliking gives back the original list |
| NewsModel.CountersKeepSchema | models/news.js:176-201 | incrementViews adds one view, markIndexingFailed adds one attempt and sets failed; all three counters keep the schema's bounds |
| NewsModel.GetPendingIndexingSpec | models/news.js:236-243 | fifty articles waiting for indexing, or all of them when there are fewer, each with fewer than three attempts and not indexed, newest first, and no waiting article left out is newer than one returned |
| NewsModel.IndexingRetriesBounded | models/news.js:191-201 | an indexed article leaves the queue; after k failures the attempts grew by k, the article stays queued only while attempts stay below three, and three failures take it out for good |
| NewsModel.CollapseRunsChars | models/news.js:168 | the run-collapsing replace leaves only '-' or input characters outside the runs |
| NewsModel.CollapseRunsNone | models/news.js:168 | a text without any run comes back unchanged from the replace |
| NewsModel.SlugBounds | models/news.js:163-170 | a slug is at most 100 characters, each an Arabic letter, a lower-case ASCII letter, a digit or '-'; the slug as written never holds the letter s |
| NewsModel.SlugChars | models/news.js:163-170 | the whitespace-class slug is at most 100 slug characters |
| NewsModel.SlugAsWrittenChars | models/news.js:163-170 | the slug as written is at most 100 slug characters and holds no s |
| NewsModel.SlugOfPlainTitle | models/news.js:163-170 | a title made of slug characters is its own slug, cut to 100 characters; as written, any such title with an s in its first 100 characters gets a different slug |
| NewsModel.CollapseRunsPrefix | models/news.js:168 | a prefix without any run passes through the replace unchanged |
| NewsModel.CollapseSeparator | models/news.js:168 | one separator character between two texts without runs becomes a single '-' |
| NewsModel.SlugOfTwoWords | models/news.js:163-170 | with whitespace classes, two lower-case words joined by a space give the words joined by '-' |
| NewsModel.SlugAsWrittenDropsSpace | models/news.js:166 | as written, the space between two lower-case words is dropped: the slug is that of the words run together |
| NewsModel.SportsNewsSlug | models/news.js:163-170 | the intended slug of the title "sports news" is "sports-news" |
| NewsModel.SportsNewsSlugAsWritten | models/news.js:166-168 | as written, the slug of "sports news" holds no s and so is not "sports-news" |
| NewsModel.Unfeature | models/news.js:155-160 | the updateMany keeps every id, changes only isFeatured, and leaves featured at most the kept id, and only if it was featured before |
| NewsModel.UnfeatureKeepsValid | models/news.js:143-160 | un-featuring keeps ids, schema bounds, the unique slug index and the single-featured index, and leaves no article but the kept one featured |
| NewsModel.SaveNew | models/news.js:153-173 | validation fails exactly when the schema bounds fail, and then nothing changes; a successful save stores the document after the hook's un-featuring |
| NewsModel.InsertKeepsValid | models/news.js:132-150 | inserting a valid article with a free slug that is featured only when nothing else is keeps both unique indexes |
| NewsModel.SaveNewSpec | models/news.js:132-173 | a save keeps the store valid; the saved article has a slug and differs from the input only in its slug; a saved featured article is the only featured one; a featured article refused for its slug is not stored and leaves none featured |
| NewsModel.UpdateById | routes/news.js:253-256 | an unknown id changes nothing and yields nothing; a failed update changes nothing; a successful one stores and returns the patched article |
| NewsModel.UpdateByIdSpec | routes/news.js:253-256 | an update keeps the store valid, and on a known id it succeeds exactly when the patched article passes the validators and is not a second featured article |
| NewsModel.NewsStore.constructor | models/news.js:3-106 | an empty collection is valid |
| NewsModel.NewsStore.Create | routes/news.js:60-67 | the store and the result are those of SaveNew, and the store stays valid |
| NewsModel.NewsStore.UnfeatureOthers | routes/news.js:57 | the store becomes Unfeature of the old store and stays valid |
| NewsModel.NewsStore.IncrementViews | models/news.js:176-179 | only the article's view count changes, by one, and the store stays valid |
| NewsModel.NewsStore.MarkAsIndexed | models/news.js:191-195 | only that article changes: status indexed, last indexed at now |
| NewsModel.NewsStore.MarkIndexingFailed | models/news.js:197-201 | only that article changes: status failed, one more attempt |
| NewsModel.NewsStore.ToggleLike | routes/news.js:291-304 | only the article's likes change, by ToggledLikes, and the result says whether the user likes it now, which is exactly when it did not before |
| NewsModel.NewsStore.FindByIdAndUpdate | routes/news.js:253-256 | the store and the result are those of UpdateById, and the store stays valid |
| NewsModel.NewsStore.FindByIdAndDelete | routes/news.js:272 | a known id is removed and its article returned; an unknown id changes nothing and returns nothing |
| NewsRoutes.ParseBooleanSpec | routes/news.js:28-37 | a boolean passes through; a number is true only when it is 1; a string is true exactly when, trimmed and lower-cased, it is true, 1, yes or on; every other value is false |
| NewsRoutes.NumeralTrueWord | routes/news.js:33 | the only decimal numeral among the true words is "1" |
| NewsRoutes.ParseBooleanNumeral | routes/news.js:30-34 | a number and its decimal string parse to the same boolean |
| NewsRoutes.CreateRejects | routes/news.js:47-51 | the reply is 400 exactly when the title or the content is falsy, and then the store is unchanged; every reply leaves the store valid |
| NewsRoutes.CreateCheckedSpec | routes/news.js:53-69 | past the 400 check the store stays valid and the reply is never 400; a created article is stored under its id with the trimmed title and the parsed featured flag, and when featured it is the only featured article |
| NewsRoutes.CreateCheckedClears | routes/news.js:56-67 | a featured request leaves no other article featured, whether or not the create then succeeds |
| NewsRoutes.CreatedArticle | routes/news.js:47-69 | a created article is stored under its id, its featured flag is parseBoolean of the request's, its title the trimmed request title, and when featured it is the only featured one |
| NewsRoutes.CreateFeaturedClearsOthers | routes/news.js:54-58 | a featured request past the 400 check leaves no other article featured |
| NewsRoutes.CreateNews | routes/news.js:40-74 | the reply and the new store are those of the create specification, and the store stays valid |
| NewsRoutes.CreateCheckedOn | routes/news.js:53-69 | the reply and the new store are those of the checked create, and the store stays valid |
| NewsRoutes.ListNewsSpec | routes/news.js:77-101 | the list is a permutation of all articles, newest first; each like count is the length of its likes; with no signed-in user nothing is liked |
| NewsRoutes.GetNews | routes/news.js:206-225 | an id that is not an ObjectId reaches the error handler; otherwise 404 exactly for an unknown id, and for a known one the stored article, its like count, and liked exactly when a signed-in user is among its likes |
| NewsRoutes.UpdateDocument | routes/news.js:239-251 | the featured flag is set exactly when the request sends one, and then to its parsed value |
| NewsRoutes.UpdateNews | routes/news.js:232-267 | an id that is not an ObjectId changes nothing and reaches the error handler; otherwise a featuring request un-features the others first, the store and reply follow findByIdAndUpdate, and an unknown id answers 404 |
| NewsRoutes.UpdateFeaturing | routes/news.js:241-261 | featuring an unknown well-formed id answers nothing found yet leaves no article featured; featuring a known article whose patch is valid succeeds and leaves it the only featured one |
| NewsRoutes.DeleteNews | routes/news.js:270-281 | an error exactly for a malformed or unknown id (the error handler's status, or 404), and then nothing changes; otherwise the article is removed |
| NewsRoutes.LikeNews | routes/news.js:284-308 | an error exactly for a malformed or unknown id (the error handler's status, or 404), and then nothing changes; otherwise the likes are toggled and the reply gives the new count and whether the user likes it now |
| Sitemap.IndexLocs | routes/sitemap.js:20-24 | the index names one location per child sitemap |
| Sitemap.IndexRouteSpec | routes/sitemap.js:16-28 | the index document reads back as exactly five locations, static, news, matches, teams and players, in that order, each `https://mal3abak.com/sitemaps/<name>.xml` |
| Sitemap.IndexRoundTrip | routes/sitemap.js:18-25 | any sitemap index written from plain locations reads back as those locations |
| Sitemap.StaticRouteSpec | routes/sitemap.js:38-48 | the static urlset reads back as the five fixed pages in order, with their change frequencies and priorities 1.0, 0.9, 0.9, 0.8, 0.8 |
| Sitemap.LexRender | routes/sitemap.js:39-46 | cutting the text of well-formed markup and character data at its angle brackets gives the same tokens back |
| Sitemap.PiecesOfRender | routes/sitemap.js:39-46 | the text of well-formed declaration, root, start, end and character-data pieces reads back as those pieces |
| Sitemap.UrlRoundTrip | routes/sitemap.js:65-72 | one `<url>` element reads back as its entry, leaving what follows it |
| Sitemap.UrlsRoundTrip | routes/sitemap.js:57-74 | a run of joined `<url>` elements reads back as its entries, in order |
| Sitemap.UrlsetRoundTrip | routes/sitemap.js:76-80 | every urlset written from entries whose texts need no escaping reads back as those entries |
| Sitemap.SitemapsRoundTrip | routes/sitemap.js:19-25 | a run of `<sitemap>` elements reads back as its locations, in order |
| Sitemap.NewsTopSpec | routes/sitemap.js:56 | the news listed are 1000 of the stored documents, or all of them when there are fewer, newest first, and no document left out is newer than one listed |
| Sitemap.NewsEntriesSpec | routes/sitemap.js:54-74 | 500 exactly when the store fails; otherwise one entry per listed document, `loc` under /news/ with its id, `lastmod` from updatedAt or else createdAt, hourly at 0.9, an image block exactly when the image path is truthy, captioned with the title |
| Sitemap.NewsImagesAsWritten | routes/sitemap.js:59 | read from `n.image`, a path the news schema lacks, no entry ever carries an image block |
| Sitemap.NewsRouteRoundTrip | routes/sitemap.js:54-83 | the news sitemap is written whenever the store answers and reads back as its entries when ids, image paths and titles need no escaping |
| Sitemap.MatchEntriesErr | routes/sitemap.js:93-117 | the matches sitemap fails with 500 exactly when the store fails or a match has neither timestamp |
| Sitemap.MatchEntriesSpec | routes/sitemap.js:95-105 | one entry per match, a permutation sorted by updatedAt descending with undated matches last, `loc` under /matches/, `lastmod` from updatedAt or else createdAt, hourly at 0.8, no image |
| Sitemap.MatchesRouteRoundTrip | routes/sitemap.js:93-113 | the matches sitemap is written exactly when its entries are, and then reads back as them |
| Sitemap.KindRoundTrip | routes/sitemap.js:123-178 | a teams or players urlset reads back as its entries |
| Sitemap.KindRoutesSpec | routes/sitemap.js:123-178 | the teams and players sitemaps read back as one weekly entry per document in store order, `base/teams/<id>` at 0.7 and `base/players/<id>` at 0.6, each dated now |
| Contact.MissingNames | routes/contact.js:6-9 | at most the four field names the route destructures |
| Contact.SubmitSpec | routes/contact.js:4-13 | the reply is 200 exactly when no field is missing, and then `{ok: true}`; otherwise 400 with "Missing fields" |
| Contact.EmptyFieldRefused | routes/contact.js:7-9 | a field sent as the empty string is refused like a missing one |

## Findings

| source | as written | input that shows it | evidently intended | confidence | as-written member | corrected member |
|---|---|---|---|---|---|---|
| models/news.js:166-168 | the slug regexes use a literal `s` where `\s` was meant: spaces are dropped, and each run of the letter s becomes '-' | the title "sports news" gives the slug "-port-new-" | "sports-news": whitespace kept, each run of it becomes one '-' | high; not executed | NewsModel.SportsNewsSlugAsWritten | NewsModel.SlugOfTwoWords |
| services/matchDataService.js:314 | the sync reads `.response` on the array that `getMatchPlayerStats` returns (line 85). That is undefined, so the real-statistics branch never runs | any match whose statistics request returns a non-empty array of fixtures | use the returned array itself | high; not executed | MatchDataService.SyncIgnoresStatistics | MatchDataService.SyncCorrectedSpec |
| routes/analysis.js:4 | binds the module object `{ analyzeMatch, analyzeMultipleMatches }` and calls it at line 131. The call throws, so every well-formed request answers 500 | a body with both `homeTeam` and `awayTeam` | bind `analyzeMatch` itself | high; not executed | AnalysisRoutes.GenerateAsWritten | AnalysisRoutes.GenerateCorrected |
| routes/sitemap.js:59 | the news sitemap reads the image from `n.image`, a path the news schema does not declare, so no entry ever has an image block | an article with `imageUrl` "/uploads/news/a.jpg" | read `n.imageUrl` | high; not executed | Sitemap.NewsImagesAsWritten | Sitemap.NewsEntriesSpec |

## Left out

- No retry or backoff exists in the code. A fallback is returned but never saved, so a match that fell back is tried again on a later run.
- Console logging is left out.
- Backend: whether the database answers is one flag for a whole run. A store that answers the scan and then fails at `findByMatchId` inside `analyzeMatch` (services/aiAnalysis.js:26), which the source catches and answers with an unsaved fallback counted as analyzed, is not expressed. The accounting lemmas of both pipelines (ProcessAccounting, ProcessStoresAll, ScriptRunIdempotent, ServiceRunIdempotent and their kin) hold for runs whose store answers every call the same way.
- SaveNew (NewsModel): a missing slug is filled with the corrected `Slug` of the title, not with `SlugAsWritten`, which is what models/news.js:163-170 computes. So the unique slug index refuses different saves than the source does. Two titles whose as-written slugs agree, such as "sport news" and "sportnews" (SlugAsWrittenDropsSpace), collide in the source and answer 500 on the second create, while the model stores both.
- SaveNewSpec: its slug clauses speak of the corrected slug that SaveNew stores, not of the as-written one, for the reason given under SaveNew above.
- Create (NewsModel.NewsStore): inherits the corrected slug of SaveNew.
- CreateCheckedSpec: which creates the slug index refuses follows SaveNew's corrected slug, not the as-written one.
- CreatedArticle: the created article carries the corrected slug of SaveNew, not the as-written one.
- CreateNews: inherits the corrected-slug save of SaveNew.
- CreateCheckedOn: inherits the corrected-slug save of SaveNew.
- ToNumber (Js): reads only optionally signed decimal integer numerals. "2.5", "1e1" and "0x10" become NaN, where JavaScript's `Number` reads 2.5, 10 and 16.
- NumberOr (AnalysisRoutes): because of ToNumber, a non-integer numeral falls back to the default. With `?page=2.5` the source computes page 2.5 and skip 30; the model uses page 1 and skip 0.
- ToLower and ToUpper (Text): map the ASCII letters only. JavaScript's case mapping is Unicode's: "İ" lowers to "i" followed by a combining dot, whose "i" the slug would keep.
- MapPositionSpec (MatchDataService): the position table is a plain object, so a key such as "toString" finds an inherited member in the source. The model treats every code outside the five letters as a miss.
- GetRecentSpec (AnalysisModel): the `-analysis.fullText` projection is not modelled; the records come back whole.
- Cron scheduling, start-up timers, the `sleep(3000)` pacing and HTTP timeouts are left out. One run is one atomic step, and `isRunning` is a plain flag: the event loop is single-threaded.
- The football API fetches, the Groq completion call and the database's answers are inputs to the model. A feed call that throws is a `Rejected` feed, and a database call that throws is a failing flag (`StoreReplies`, `ScoringReplies`, the pipelines' store flag) or an `Err` result. The routes answer 500 for them, as their `catch` blocks do.
- GetNews (NewsRoutes): an id is an ObjectId when it has 24 hexadecimal characters. A 12-character string, which some driver versions also cast, is treated as malformed.
- GetNews (NewsRoutes): a malformed id throws a cast error that `next(err)` hands to middlewares/errorHandler.js, which is not part of this model. `HandlerStatus` takes the status it writes to be 500, Express's default.
- UpdateNews (NewsRoutes): the same ObjectId test and error-handler status as GetNews.
- UpdateFeaturing (NewsRoutes): speaks of well-formed ids only; for a malformed one UpdateNews states that nothing changes.
- DeleteNews (NewsRoutes): the same ObjectId test and error-handler status as GetNews.
- LikeNews (NewsRoutes): the same ObjectId test and error-handler status as GetNews.
- ToDtoSpec (MatchesRoutes): the `updatedAt: new Date()` field (routes/matches.js:50, 104, 158, 207) is left out, because it reads the clock.
- ListRoute (MatchesRoutes): the objects it serves lack `updatedAt`, as under ToDtoSpec.
- ToDtoSpec (FootballRoutes): the route passes on the API's whole `teams.home`, `teams.away` and `league` objects (routes/football.js:26-27, 34). The model keeps only their id, name and logo, and the league's country. The `updatedAt: new Date()` field (routes/football.js:36) is left out, because it reads the clock.
- ListRoute (FootballRoutes): the objects it serves carry the narrowed team and league objects and lack `updatedAt`, as under ToDtoSpec.
- CacheFirst (FootballRoutes): models/Match.js is not part of this model. The requested id is a plain key, and a store read that fails to cast it is a `findThrows` reply. The upsert replaces the stored match with the feed's, while the database would merge the feed's fields into an existing document under that key.
- SyncMatchToFantasyTeams (MatchDataService): follows the corrected sync, which reads the statistics array itself. As written no squad is ever updated (SyncIgnoresStatistics).
- `buildPrompt` (services/aiAnalysis.js:113-137) is left out: prompt wording is presentation. Only its throwing on a missing tournament is modelled.
- Dates are integer timestamps. `toISOString` is a formatter the caller passes in, and the `ar-EG` date strings of the log lines and of the prompt are not modelled. Nor is the date arithmetic for yesterday and tomorrow.
- Sitemap: the urlsets are modelled as sequences of pieces without the indentation whitespace of the templates.
- Sitemap: the round-trip lemmas require texts that need no XML escaping, because the source escapes nothing.
- Sitemap: in the matches order, every timestamp is assumed to be 1970 or later.
- The sitemap ping route (routes/sitemap.js:183-193) is two foreign calls and is left out.
- The daily statistics route (routes/analysis.js:100-117) is a database aggregation with date arithmetic and is left out.
- Analysis routes: `$regex` with the `i` option is modelled as a substring test after lower-casing both sides. This holds only for patterns without regular-expression metacharacters.
- FilterHit (AnalysisRoutes): a parsed filter date is a timestamp, and a date condition matches only records whose `date` is a number. A record whose date was copied from a feed as a string never matches it, where the database would compare the cast `Date`.
- Analysis routes: a negative `skip`, which the database refuses, is modelled as a 500.
- `getByTournament` and `getByTeam` (models/Analysis.js:160-180) are simple `find` queries that nothing in the core calls. They are left out.
- News model: the statics `getFeaturedNews`, `getLatestNews`, `getNewsByCategory` and `searchNews` are left out. So are the query helpers (models/news.js:204-262), `populate`, the comments virtual and count, and the cascade delete of comments.
- News routes: the HTML preview page (routes/news.js:108-203) is presentation and is left out.
- News routes: multer's disk storage is left out; an uploaded file is an optional image path.
- News routes: the `q` regex filter of the list is left out.
- News routes: `commentsCount` is left out; it is a second collection.
- Schema fields that no modelled operation reads are not in the model: `ogImage`, `metaDescription`, `keywords` and `publishedAt`.
- Football routes: the pass-through proxies `/standings`, `/teams/:id/players/:season`, `/teams/:leagueId/:season`, `/statistics`, `/events` and `/lineups` (routes/football.js:195-208, 225-249 and 285-313) forward one provider call each and are left out.
- Football routes: three store-writing cache fills are left out. The provider client and the Tournament and Team models are not part of this model, so what they store has no shape here.
  - `/tournaments` (routes/football.js:177-193) reads `Tournament.find`; when that is empty it fetches `getLeagues`, runs `Tournament.insertMany`, and on an insert failure falls back to a second `find`.
  - `/teams/:id` (routes/football.js:210-223) reads `Team.findOne`; on a miss it fetches `getTeamInfo` and runs `Team.create`.
  - `/news` (routes/football.js:251-266) reads `News.find`; when that is empty it fetches `getLatestNews` and runs `News.insertMany` into the news collection that `NewsStore` models, with the same catch-and-find fallback. This write path, and what it does to the news store's indexes, is not modelled.
- scripts/autoAnalyze.js and services/autoAnalyzeService.js: `triggerManualAnalysis` only calls the run, so it is not modelled separately. The fetch helpers are the feed input.
- server.js, the root sitemap.js placeholder, google/index.js and ecosystem.config.js are not part of this model.
