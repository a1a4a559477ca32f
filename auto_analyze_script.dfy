/** The cron script variant of the pipeline (scripts/autoAnalyze.js):
    case-folded finished test, identity `apiId || _id || fixture.id`, and a
    run that builds its worklist from the store before analyzing it. */
module AutoAnalyzeScript {
  import opened Wrappers
  import opened Js
  import opened Text
  import Seqs
  import opened AnalysisModel
  import opened Feed
  import opened AiAnalysis
  import opened RunStats

  /** `getMatchId` of the script: `apiId || _id || fixture?.id`. */
  function ScriptMatchId(m: FeedMatch): Value {
    Or(m.apiId, Or(m.docId, m.fixtureId))
  }

  /** The script's id is the first truthy of apiId, _id, fixture.id; the
      feed's own `matchId` plays no part in it. */
  lemma ScriptMatchIdPrecedence(m: FeedMatch, other: Value)
    ensures ScriptMatchId(m) == FirstTruthy([m.apiId, m.docId, m.fixtureId])
    ensures ScriptMatchId(m.(matchId := other)) == ScriptMatchId(m)
    ensures Truthy(ScriptMatchId(m)) <==> Truthy(m.apiId) || Truthy(m.docId) || Truthy(m.fixtureId)
  {
    var vs := [m.apiId, m.docId, m.fixtureId];
    assert vs[1..] == [m.docId, m.fixtureId];
    assert vs[1..][1..] == [m.fixtureId];
    assert FirstTruthy([m.fixtureId]) == m.fixtureId;
    assert FirstTruthy([m.docId, m.fixtureId]) == Or(m.docId, m.fixtureId);
  }

  const FinishedCodes: seq<string> := ["FT", "AET", "PEN"]

  /** The status string the test looks at: `(status || '').toString()`
      with `status = match.status || match.fixture?.status?.short`. */
  function StatusText(m: FeedMatch): string {
    ToStr(Or(Or(m.status, m.fixtureStatus), Str("")))
  }

  /** `isMatchFinished`: the upper-cased status is FT, AET or PEN. */
  predicate IsMatchFinished(m: FeedMatch) {
    ToUpper(StatusText(m)) in FinishedCodes
  }

  /** A match with neither status is not finished; the test ignores the
      case of the status; and a falsy `status` defers to the fixture's. */
  lemma IsMatchFinishedSpec(m: FeedMatch, s: string)
    ensures !Truthy(m.status) && !Truthy(m.fixtureStatus) ==> !IsMatchFinished(m)
    ensures s != "" ==> (IsMatchFinished(m.(status := Str(s))) <==> IsMatchFinished(m.(status := Str(ToUpper(s)))))
    ensures s != "" ==> (IsMatchFinished(m.(status := Str(s))) <==> ToUpper(s) in FinishedCodes)
    ensures !Truthy(m.status) && m.fixtureStatus == Str(s) ==> (IsMatchFinished(m) <==> ToUpper(s) in FinishedCodes)
  {
    if s != "" {
      assert ToUpper(ToUpper(s)) == ToUpper(s) by {
        forall i | 0 <= i < |s| ensures ToUpper(ToUpper(s))[i] == ToUpper(s)[i] {
          assert UpperChar(UpperChar(s[i])) == UpperChar(s[i]);
        }
      }
    }
  }

  /** The look-up for a finished match throws: its id is truthy but the
      database is down or the id is an object. */
  predicate LookupFails(records: map<string, Record>, env: Backend, m: FeedMatch)
    requires WellFormed(records)
  {
    Truthy(ScriptMatchId(m)) && FindByKey(records, env.storeUp, ScriptMatchId(m)).Failed?
  }

  /** A finished match goes on the worklist: its id is truthy and the
      store holds no analysis under it. */
  predicate NeedsAnalysis(records: map<string, Record>, env: Backend, m: FeedMatch)
    requires WellFormed(records)
  {
    Truthy(ScriptMatchId(m)) && FindByKey(records, env.storeUp, ScriptMatchId(m)).Missing?
  }

  function Finished(today: seq<FeedMatch>, yesterday: seq<FeedMatch>): seq<FeedMatch> {
    Seqs.Filter(IsMatchFinished, today + yesterday)
  }

  function Worklist(records: map<string, Record>, env: Backend, finished: seq<FeedMatch>): seq<FeedMatch>
    requires WellFormed(records)
  {
    Seqs.Filter((m: FeedMatch) => NeedsAnalysis(records, env, m), finished)
  }

  /** One iteration of the analysis loop: the analyzer is called on the
      match with `matchId` set to its id; a truthy result counts as
      analyzed, a rejection as an error. */
  function ScriptStep(t: Tally, m: FeedMatch, env: Backend, clock: Clock): (t': Tally)
    requires WellFormed(t.records)
    ensures WellFormed(t'.records)
    ensures t'.analyzed + t'.errors == t.analyzed + t.errors + (if Truthy(ScriptMatchId(m)) then 1 else 0)
    ensures t'.errors == t.errors + (if Truthy(ScriptMatchId(m)) && !HasTeams(m) then 1 else 0)
    ensures t'.calls <= t.calls + (if Truthy(ScriptMatchId(m)) then 1 else 0)
  {
    var id := ScriptMatchId(m);
    if !Truthy(id) then t
    else
      var a := Analyze(t.records, m.(matchId := id), env, clock);
      Tally(a.records,
            t.analyzed + (if a.outcome.Threw? then 0 else 1),
            t.errors + (if a.outcome.Threw? then 1 else 0),
            t.calls + (if a.generated then 1 else 0))
  }

  /** The analysis loop over a worklist, starting from the store `records`. */
  function Process(records: map<string, Record>, w: seq<FeedMatch>, env: Backend, clock: Clock): (t: Tally)
    requires WellFormed(records)
    ensures WellFormed(t.records)
    decreases |w|
  {
    if w == [] then Tally(records, 0, 0, 0)
    else ScriptStep(Process(records, w[..|w| - 1], env, clock), w[|w| - 1], env, clock)
  }

  datatype RunResult = RunResult(stats: Stats, records: map<string, Record>, calls: nat)

  /** One run of `checkAndAnalyzeMatches` that is not skipped. */
  function ScriptRun(records: map<string, Record>, s: Stats, today: seq<FeedMatch>, yesterday: seq<FeedMatch>,
                     env: Backend, clock: Clock): (r: RunResult)
    requires WellFormed(records)
    ensures WellFormed(r.records)
  {
    var s1 := BeginRun(s, clock.now);
    var finished := Finished(today, yesterday);
    if exists i :: 0 <= i < |finished| && LookupFails(records, env, finished[i]) then
      RunResult(OuterFailure(s1), records, 0)
    else
      var t := Process(records, Worklist(records, env, finished), env, clock);
      RunResult(Apply(s1, t, clock.now), t.records, t.calls)
  }

  /** The worklist holds finished matches with a truthy id, in feed order,
      none of them stored; a finished match with a falsy id is never on it. */
  lemma WorklistSpec(records: map<string, Record>, env: Backend, today: seq<FeedMatch>, yesterday: seq<FeedMatch>)
    requires WellFormed(records)
    ensures var w := Worklist(records, env, Finished(today, yesterday));
      forall m :: m in w <==> (m in today + yesterday && IsMatchFinished(m) && NeedsAnalysis(records, env, m))
    ensures var w := Worklist(records, env, Finished(today, yesterday));
      forall m :: m in w ==> Truthy(ScriptMatchId(m)) && ToStr(ScriptMatchId(m)) !in records
  {
    var finished := Finished(today, yesterday);
    Seqs.FilterMembership(IsMatchFinished, today + yesterday);
    Seqs.FilterMembership((m: FeedMatch) => NeedsAnalysis(records, env, m), finished);
  }

  /** Every worklist item is accounted for exactly once, as analyzed or as
      an error, and the generator is called at most once per item. */
  lemma {:induction false} ProcessAccounting(records: map<string, Record>, w: seq<FeedMatch>, env: Backend, clock: Clock)
    requires WellFormed(records)
    requires forall i :: 0 <= i < |w| ==> Truthy(ScriptMatchId(w[i]))
    ensures var t := Process(records, w, env, clock);
      t.analyzed + t.errors == |w| && t.calls <= |w|
    ensures var t := Process(records, w, env, clock);
      t.errors == |Seqs.Filter((m: FeedMatch) => !HasTeams(m), w)|
    decreases |w|
  {
    if w != [] {
      var init := w[..|w| - 1];
      ProcessAccounting(records, init, env, clock);
      assert |Seqs.Filter((m: FeedMatch) => !HasTeams(m), w)|
        == |Seqs.Filter((m: FeedMatch) => !HasTeams(m), init)| + (if HasTeams(w[|w| - 1]) then 0 else 1) by {
        Seqs.FilterStep((m: FeedMatch) => !HasTeams(m), w, |w| - 1);
        assert w[..|w|] == w;
      }
      assert Truthy(ScriptMatchId(w[|w| - 1]));
    }
  }

  /** The loop only adds records: every record stored before is still
      stored unchanged, and every new key is the id of a worklist match. */
  lemma {:induction false} ProcessGrowsStore(records: map<string, Record>, w: seq<FeedMatch>, env: Backend, clock: Clock)
    requires WellFormed(records)
    ensures var t := Process(records, w, env, clock);
      && (forall k :: k in records ==> k in t.records && t.records[k] == records[k])
      && (forall k :: k in t.records && k !in records ==>
            exists i :: 0 <= i < |w| && k == ToStr(ScriptMatchId(w[i])))
    decreases |w|
  {
    if w != [] {
      var init := w[..|w| - 1];
      ProcessGrowsStore(records, init, env, clock);
      var prev := Process(records, init, env, clock);
      var m := w[|w| - 1];
      var t := Process(records, w, env, clock);
      forall k | k in t.records && k !in records
        ensures exists i :: 0 <= i < |w| && k == ToStr(ScriptMatchId(w[i]))
      {
        if k in prev.records {
          var i :| 0 <= i < |init| && k == ToStr(ScriptMatchId(init[i]));
          assert w[i] == init[i];
        } else {
          var id := ScriptMatchId(m);
          assert Truthy(id);
          assert GetMatchId(m.(matchId := id)) == id;
          assert k == ToStr(ScriptMatchId(w[|w| - 1]));
        }
      }
    }
  }

  /** A healthy backend for a set of matches: the database answers, and
      every match with a truthy id gets non-empty text from the generator
      and an accepted write. */
  predicate Healthy(env: Backend, ms: seq<FeedMatch>) {
    env.storeUp &&
    forall i :: 0 <= i < |ms| ==> (
      var m := ms[i].(matchId := ScriptMatchId(ms[i]));
      env.reply(m).Some? && env.reply(m).value != "" && env.accepts(m))
  }

  /** Matches the analyzer can complete: both teams, a tournament, and an
      id that is truthy and not an object. */
  predicate Complete(m: FeedMatch) {
    HasTeams(m) && m.tournament.Some? && Truthy(ScriptMatchId(m)) && !ScriptMatchId(m).Obj?
  }

  /** With a healthy backend, after the loop every worklist match is stored
      under its id. */
  lemma {:induction false} ProcessStoresAll(records: map<string, Record>, w: seq<FeedMatch>, env: Backend, clock: Clock)
    requires WellFormed(records)
    requires Healthy(env, w) && forall i :: 0 <= i < |w| ==> Complete(w[i])
    ensures forall i :: 0 <= i < |w| ==> ToStr(ScriptMatchId(w[i])) in Process(records, w, env, clock).records
    decreases |w|
  {
    if w != [] {
      var init := w[..|w| - 1];
      assert Healthy(env, init) by {
        forall i | 0 <= i < |init| ensures init[i] == w[i] { }
      }
      ProcessStoresAll(records, init, env, clock);
      ProcessGrowsStore(Process(records, init, env, clock).records, [w[|w| - 1]], env, clock);
      var prev := Process(records, init, env, clock);
      var m := w[|w| - 1];
      var id := ScriptMatchId(m);
      var m' := m.(matchId := id);
      assert GetMatchId(m') == id;
      AnalyzeCreates(prev.records, m', env, clock);
      var t := Process(records, w, env, clock);
      assert t == ScriptStep(prev, m, env, clock);
      assert ToStr(id) in t.records;
      IdsStoredExtend(w, init, prev.records, t.records);
    }
  }

  lemma IdsStoredExtend(w: seq<FeedMatch>, init: seq<FeedMatch>, before: map<string, Record>, after: map<string, Record>)
    requires w != [] && init == w[..|w| - 1]
    requires forall i :: 0 <= i < |init| ==> ToStr(ScriptMatchId(init[i])) in before
    requires forall k :: k in before ==> k in after
    requires ToStr(ScriptMatchId(w[|w| - 1])) in after
    ensures forall i :: 0 <= i < |w| ==> ToStr(ScriptMatchId(w[i])) in after
  {
    forall i | 0 <= i < |w| ensures ToStr(ScriptMatchId(w[i])) in after {
      if i < |init| {
        assert ToStr(ScriptMatchId(init[i])) in before;
      }
    }
  }

  /** With the text generator failing for every match, each one is
      answered by the fallback: the store stays as it was, and every match
      with both teams still counts as analyzed. */
  lemma {:induction false} ProcessFallbacksNotSaved(records: map<string, Record>, w: seq<FeedMatch>, env: Backend, clock: Clock)
    requires WellFormed(records)
    requires forall i :: 0 <= i < |w| ==> Truthy(ScriptMatchId(w[i])) && HasTeams(w[i])
    requires forall i :: 0 <= i < |w| ==> env.reply(w[i].(matchId := ScriptMatchId(w[i]))).None?
    ensures Process(records, w, env, clock) == Tally(records, |w|, 0, Process(records, w, env, clock).calls)
    decreases |w|
  {
    if w != [] {
      ProcessFallbacksNotSaved(records, w[..|w| - 1], env, clock);
    }
  }

  /** With a healthy backend, a run leaves every finished match stored
      under its id. */
  lemma ScriptRunStoresAll(records: map<string, Record>, s: Stats, today: seq<FeedMatch>, yesterday: seq<FeedMatch>,
                           env: Backend, clock: Clock)
    requires WellFormed(records)
    requires Healthy(env, Finished(today, yesterday))
    requires forall i :: 0 <= i < |Finished(today, yesterday)| ==> Complete(Finished(today, yesterday)[i])
    ensures var r := ScriptRun(records, s, today, yesterday, env, clock);
      forall i :: 0 <= i < |Finished(today, yesterday)| ==> ToStr(ScriptMatchId(Finished(today, yesterday)[i])) in r.records
  {
    var finished := Finished(today, yesterday);
    var p := (m: FeedMatch) => NeedsAnalysis(records, env, m);
    var w := Worklist(records, env, finished);
    assert !exists i :: 0 <= i < |finished| && LookupFails(records, env, finished[i]);
    var r := ScriptRun(records, s, today, yesterday, env, clock);
    assert r.records == Process(records, w, env, clock).records;
    WorklistHealthy(records, env, finished);
    ProcessStoresAll(records, w, env, clock);
    ProcessGrowsStore(records, w, env, clock);
    Seqs.FilterMembership(p, finished);
    forall i | 0 <= i < |finished| ensures ToStr(ScriptMatchId(finished[i])) in r.records {
      var m := finished[i];
      if p(m) {
        assert m in w;
        var j :| 0 <= j < |w| && w[j] == m;
      }
    }
  }

  /** The worklist drawn from healthy, complete matches is healthy and complete. */
  lemma WorklistHealthy(records: map<string, Record>, env: Backend, finished: seq<FeedMatch>)
    requires WellFormed(records)
    requires Healthy(env, finished) && forall i :: 0 <= i < |finished| ==> Complete(finished[i])
    ensures var w := Worklist(records, env, finished);
      Healthy(env, w) && forall i :: 0 <= i < |w| ==> Complete(w[i])
  {
    var p := (m: FeedMatch) => NeedsAnalysis(records, env, m);
    var w := Seqs.Filter(p, finished);
    Seqs.FilterMembership(p, finished);
    forall i | 0 <= i < |w|
      ensures Complete(w[i])
      ensures var m := w[i].(matchId := ScriptMatchId(w[i])); env.reply(m).Some? && env.reply(m).value != "" && env.accepts(m)
    {
      assert w[i] in w;
      var j :| 0 <= j < |finished| && finished[j] == w[i];
    }
  }

  /** A run whose finished matches are all stored already changes nothing
      but the check counters. */
  lemma ScriptRunNothingToDo(records: map<string, Record>, s: Stats, today: seq<FeedMatch>, yesterday: seq<FeedMatch>,
                             env: Backend, clock: Clock)
    requires WellFormed(records) && env.storeUp
    requires forall i :: 0 <= i < |Finished(today, yesterday)| ==>
      Complete(Finished(today, yesterday)[i]) && ToStr(ScriptMatchId(Finished(today, yesterday)[i])) in records
    ensures ScriptRun(records, s, today, yesterday, env, clock) == RunResult(BeginRun(s, clock.now), records, 0)
  {
    var finished := Finished(today, yesterday);
    var p := (m: FeedMatch) => NeedsAnalysis(records, env, m);
    forall i | 0 <= i < |finished|
      ensures !LookupFails(records, env, finished[i]) && !p(finished[i])
    {
      StoredIdFound(records, env, finished[i]);
    }
    Seqs.FilterEmpty(p, finished);
    assert Worklist(records, env, finished) == [];
  }

  /** A match stored under its id is found by the look-up. */
  lemma StoredIdFound(records: map<string, Record>, env: Backend, m: FeedMatch)
    requires WellFormed(records) && env.storeUp
    requires Complete(m) && ToStr(ScriptMatchId(m)) in records
    ensures !LookupFails(records, env, m) && !NeedsAnalysis(records, env, m)
  {
    var k := ToStr(ScriptMatchId(m));
    assert records[k].matchId == k;
  }

  /** Running the script twice on the same feed with a healthy backend
      analyzes nothing the second time: no generator call, no new record,
      no error. */
  lemma ScriptRunIdempotent(records: map<string, Record>, s: Stats, today: seq<FeedMatch>, yesterday: seq<FeedMatch>,
                            env: Backend, clock1: Clock, clock2: Clock)
    requires WellFormed(records)
    requires Healthy(env, Finished(today, yesterday))
    requires forall i :: 0 <= i < |Finished(today, yesterday)| ==> Complete(Finished(today, yesterday)[i])
    ensures var r1 := ScriptRun(records, s, today, yesterday, env, clock1);
      ScriptRun(r1.records, r1.stats, today, yesterday, env, clock2) == RunResult(BeginRun(r1.stats, clock2.now), r1.records, 0)
  {
    ScriptRunStoresAll(records, s, today, yesterday, env, clock1);
    var r1 := ScriptRun(records, s, today, yesterday, env, clock1);
    ScriptRunNothingToDo(r1.records, r1.stats, today, yesterday, env, clock2);
  }

  /** The first loop of a run: the worklist, or true when a look-up throws. */
  method ScanFinished(records: map<string, Record>, env: Backend, finished: seq<FeedMatch>)
    returns (failed: bool, toAnalyze: seq<FeedMatch>)
    requires WellFormed(records)
    ensures failed <==> exists i :: 0 <= i < |finished| && LookupFails(records, env, finished[i])
    ensures !failed ==> toAnalyze == Worklist(records, env, finished)
  {
    var p := (m: FeedMatch) => NeedsAnalysis(records, env, m);
    toAnalyze := [];
    var i := 0;
    while i < |finished|
      invariant 0 <= i <= |finished|
      invariant toAnalyze == Seqs.Filter(p, finished[..i])
      invariant forall j :: 0 <= j < i ==> !LookupFails(records, env, finished[j])
    {
      var m := finished[i];
      Seqs.FilterStep(p, finished, i);
      var id := ScriptMatchId(m);
      if Truthy(id) {
        var found := FindByKey(records, env.storeUp, id);
        if found.Failed? {
          assert LookupFails(records, env, finished[i]);
          return true, [];
        }
        if found.Missing? {
          toAnalyze := toAnalyze + [m];
        }
      }
      i := i + 1;
    }
    assert finished[..i] == finished;
    failed := false;
  }

  /** The script pipeline: its counters, the running flag, and the cron job. */
  class AutoAnalyzeScript {
    var isRunning: bool
    var stats: Stats
    var cronJob: Option<CronJob>
    const enabled: bool
    const interval: Value

    /** Module load: `ENABLED` and `CHECK_INTERVAL = Number(setting || 10)`. */
    constructor (enableSetting: Value, intervalSetting: Value)
      ensures enabled == Enabled(enableSetting)
      ensures interval == ToNumber(Or(intervalSetting, Num(10)))
      ensures !isRunning && stats == Initial && cronJob.None?
    {
      enabled := Enabled(enableSetting);
      interval := ToNumber(Or(intervalSetting, Num(10)));
      isRunning := false;
      stats := Initial;
      cronJob := None;
    }

    /** `start`: schedules the job only when enabled and given a generator
        key; otherwise nothing happens. */
    method Start(generatorKey: Value)
      modifies this
      ensures cronJob == if enabled && Truthy(generatorKey) then Some(CronJob(CronExpression(interval), false)) else old(cronJob)
      ensures isRunning == old(isRunning) && stats == old(stats)
    {
      if !enabled {
        return;
      }
      if !Truthy(generatorKey) {
        return;
      }
      cronJob := Some(CronJob(CronExpression(interval), false));
    }

    /** `stop`: stops the job if one was scheduled. */
    method Stop()
      modifies this
      ensures cronJob == if old(cronJob).Some? then Some(old(cronJob).value.(stopped := true)) else None
      ensures isRunning == old(isRunning) && stats == old(stats)
    {
      if cronJob.Some? {
        cronJob := Some(cronJob.value.(stopped := true));
      }
    }

    /** `getStats`: the counters with `enabled`, `interval`, `isRunning`. */
    function GetStats(): (v: (Stats, bool, Value, bool))
      reads this
      ensures v.0 == stats && v.1 == enabled && v.2 == interval && v.3 == isRunning
    {
      (stats, enabled, interval, isRunning)
    }

    /** The second loop of a run: each worklist match goes to the analyzer
        in turn; errors are counted and the loop goes on. */
    method AnalyzeWorklist(store: AnalysisStore, toAnalyze: seq<FeedMatch>, env: Backend, clock: Clock)
      returns (calls: nat)
      requires store.Valid()
      modifies this`stats, store
      ensures store.Valid()
      ensures var t := Process(old(store.records), toAnalyze, env, clock);
        store.records == t.records && calls == t.calls && stats == Apply(old(stats), t, clock.now)
    {
      ghost var r0 := store.records;
      ghost var s1 := stats;
      calls := 0;
      var k := 0;
      ghost var t := Tally(r0, 0, 0, 0);
      while k < |toAnalyze|
        invariant 0 <= k <= |toAnalyze| && store.Valid()
        invariant t == Process(r0, toAnalyze[..k], env, clock)
        invariant store.records == t.records && calls == t.calls
        invariant stats == Apply(s1, t, clock.now)
      {
        assert toAnalyze[..k + 1][..k] == toAnalyze[..k];
        var generated := AnalyzeOne(store, toAnalyze[k], env, clock, s1, t);
        if generated {
          calls := calls + 1;
        }
        t := ScriptStep(t, toAnalyze[k], env, clock);
        k := k + 1;
      }
      assert toAnalyze[..k] == toAnalyze;
    }

    /** The body of the loop: a match with a truthy id goes to the analyzer
        under that id; a truthy result counts as analyzed, a rejection as an
        error. Reports whether the generator was called. */
    method AnalyzeOne(store: AnalysisStore, m: FeedMatch, env: Backend, clock: Clock, ghost s1: Stats, ghost t: Tally)
      returns (generated: bool)
      requires store.Valid() && store.records == t.records && stats == Apply(s1, t, clock.now)
      modifies this`stats, store
      ensures store.Valid()
      ensures var t' := ScriptStep(t, m, env, clock);
        store.records == t'.records && stats == Apply(s1, t', clock.now)
        && t'.calls == t.calls + (if generated then 1 else 0)
    {
      generated := false;
      var id := ScriptMatchId(m);
      if Truthy(id) {
        var outcome;
        outcome, generated := AnalyzeMatch(store, m.(matchId := id), env, clock);
        if outcome.IsTruthy() {
          stats := stats.(matchesAnalyzed := stats.matchesAnalyzed + 1, lastAnalysis := Some(clock.now));
        } else {
          stats := stats.(errors := stats.errors + 1);
        }
      }
    }

    /** `checkAndAnalyzeMatches` on the fetched lists (a failed fetch is an
        empty list). Returns the number of generator calls it made. */
    method CheckAndAnalyzeMatches(store: AnalysisStore, today: seq<FeedMatch>, yesterday: seq<FeedMatch>,
                                  env: Backend, clock: Clock)
      returns (calls: nat)
      requires store.Valid()
      modifies this, store
      ensures store.Valid() && cronJob == old(cronJob)
      ensures old(isRunning) ==> isRunning && stats == old(stats) && store.records == old(store.records) && calls == 0
      ensures !old(isRunning) ==>
        !isRunning && RunResult(stats, store.records, calls) == ScriptRun(old(store.records), old(stats), today, yesterday, env, clock)
    {
      if isRunning {
        return 0;
      }
      isRunning := true;
      stats := BeginRun(stats, clock.now);
      var failed, toAnalyze := ScanFinished(store.records, env, Finished(today, yesterday));
      if failed {
        stats := OuterFailure(stats);
        calls := 0;
      } else {
        calls := AnalyzeWorklist(store, toAnalyze, env, clock);
      }
      isRunning := false;
    }
  }
}
