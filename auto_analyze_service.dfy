/** The service variant of the pipeline (services/autoAnalyzeService.js):
    exact finished test, store key `_id || apiId`, an early return when
    nothing finished, and the analyzer called on the match as fetched. */
module AutoAnalyzeService {
  import opened Wrappers
  import opened Js
  import Seqs
  import opened AnalysisModel
  import opened Feed
  import opened AiAnalysis
  import opened RunStats
  import AutoAnalyzeScript

  /** `status === 'FT' || status === 'AET' || status === 'PEN'` */
  predicate ServiceFinished(m: FeedMatch) {
    m.status == Str("FT") || m.status == Str("AET") || m.status == Str("PEN")
  }

  /** The service's test is stricter than the script's: whatever it
      accepts the script accepts too, while a lower-case "ft" passes only
      the script's. */
  lemma FinishedTestsCompared(m: FeedMatch)
    ensures ServiceFinished(m) ==> AutoAnalyzeScript.IsMatchFinished(m)
    ensures m.status == Str("ft") ==> AutoAnalyzeScript.IsMatchFinished(m) && !ServiceFinished(m)
  {
    if m.status == Str("ft") {
      assert Text.ToUpper("ft") == "FT";
    }
    if m.status == Str("FT") {
      assert Text.ToUpper("FT") == "FT";
    } else if m.status == Str("AET") {
      assert Text.ToUpper("AET") == "AET";
    } else if m.status == Str("PEN") {
      assert Text.ToUpper("PEN") == "PEN";
    }
  }

  /** The key the service looks a match up by: `_id || apiId`. */
  function ServiceKey(m: FeedMatch): Value {
    Or(m.docId, m.apiId)
  }

  predicate LookupFails(records: map<string, Record>, env: Backend, m: FeedMatch)
    requires WellFormed(records)
  {
    FindByKey(records, env.storeUp, ServiceKey(m)).Failed?
  }

  predicate NeedsAnalysis(records: map<string, Record>, env: Backend, m: FeedMatch)
    requires WellFormed(records)
  {
    FindByKey(records, env.storeUp, ServiceKey(m)).Missing?
  }

  function Finished(today: seq<FeedMatch>, yesterday: seq<FeedMatch>): seq<FeedMatch> {
    Seqs.Filter(ServiceFinished, today + yesterday)
  }

  function Worklist(records: map<string, Record>, env: Backend, finished: seq<FeedMatch>): seq<FeedMatch>
    requires WellFormed(records)
  {
    Seqs.Filter((m: FeedMatch) => NeedsAnalysis(records, env, m), finished)
  }

  /** One iteration: reading a missing team's name throws before the
      analyzer is called (an error); otherwise the analyzer's result,
      which is then always truthy, counts as analyzed. */
  function ServiceStep(t: Tally, m: FeedMatch, env: Backend, clock: Clock): (t': Tally)
    requires WellFormed(t.records)
    ensures WellFormed(t'.records)
    ensures t'.analyzed + t'.errors == t.analyzed + t.errors + 1
    ensures t'.errors == t.errors + (if HasTeams(m) then 0 else 1)
    ensures t'.calls - t.calls <= t'.analyzed - t.analyzed
  {
    if !HasTeams(m) then t.(errors := t.errors + 1)
    else
      var a := Analyze(t.records, m, env, clock);
      Tally(a.records, t.analyzed + 1, t.errors, t.calls + (if a.generated then 1 else 0))
  }

  function Process(records: map<string, Record>, w: seq<FeedMatch>, env: Backend, clock: Clock): (t: Tally)
    requires WellFormed(records)
    ensures WellFormed(t.records)
    ensures t.analyzed + t.errors == |w|
    decreases |w|
  {
    if w == [] then Tally(records, 0, 0, 0)
    else ServiceStep(Process(records, w[..|w| - 1], env, clock), w[|w| - 1], env, clock)
  }

  /** One run of `checkAndAnalyzeMatches` that is not skipped. */
  function ServiceRun(records: map<string, Record>, s: Stats, today: seq<FeedMatch>, yesterday: seq<FeedMatch>,
                      env: Backend, clock: Clock): (r: AutoAnalyzeScript.RunResult)
    requires WellFormed(records)
    ensures WellFormed(r.records)
  {
    var s1 := BeginRun(s, clock.now);
    var finished := Finished(today, yesterday);
    if finished == [] then AutoAnalyzeScript.RunResult(s1, records, 0)
    else if exists i :: 0 <= i < |finished| && LookupFails(records, env, finished[i]) then
      AutoAnalyzeScript.RunResult(OuterFailure(s1), records, 0)
    else
      var t := Process(records, Worklist(records, env, finished), env, clock);
      AutoAnalyzeScript.RunResult(Apply(s1, t, clock.now), t.records, t.calls)
  }

  /** With nothing finished, a run only counts the check: no look-up, no
      analyzer call, no error. */
  lemma ServiceRunNothingFinished(records: map<string, Record>, s: Stats, today: seq<FeedMatch>, yesterday: seq<FeedMatch>,
                                  env: Backend, clock: Clock)
    requires WellFormed(records)
    requires forall i :: 0 <= i < |today + yesterday| ==> !ServiceFinished((today + yesterday)[i])
    ensures ServiceRun(records, s, today, yesterday, env, clock) == AutoAnalyzeScript.RunResult(BeginRun(s, clock.now), records, 0)
  {
    Seqs.FilterEmpty(ServiceFinished, today + yesterday);
  }

  /** The worklist holds, in feed order, the finished matches whose key
      finds nothing: an undefined or null key always finds nothing. */
  lemma WorklistSpec(records: map<string, Record>, env: Backend, today: seq<FeedMatch>, yesterday: seq<FeedMatch>)
    requires WellFormed(records) && env.storeUp
    ensures var w := Worklist(records, env, Finished(today, yesterday));
      forall m :: m in w <==> (m in today + yesterday && ServiceFinished(m) && !ServiceKey(m).Obj?
        && (Nullish(ServiceKey(m)) || ToStr(ServiceKey(m)) !in records))
  {
    Seqs.FilterMembership(ServiceFinished, today + yesterday);
    Seqs.FilterMembership((m: FeedMatch) => NeedsAnalysis(records, env, m), Finished(today, yesterday));
  }

  /** Every worklist match is counted once: those lacking a team are the
      errors, all others count as analyzed, and the generator is called at
      most once per analyzed match. */
  lemma {:induction false} ProcessAccounting(records: map<string, Record>, w: seq<FeedMatch>, env: Backend, clock: Clock)
    requires WellFormed(records)
    ensures var t := Process(records, w, env, clock);
      t.errors == |Seqs.Filter((m: FeedMatch) => !HasTeams(m), w)| && t.calls <= t.analyzed
    decreases |w|
  {
    if w != [] {
      var init := w[..|w| - 1];
      ProcessAccounting(records, init, env, clock);
      assert |Seqs.Filter((m: FeedMatch) => !HasTeams(m), w)|
        == |Seqs.Filter((m: FeedMatch) => !HasTeams(m), init)| + (if HasTeams(w[|w| - 1]) then 0 else 1) by {
        Seqs.FilterStep((m: FeedMatch) => !HasTeams(m), w, |w| - 1);
        assert w[..|w|] == w;
      }
    }
  }

  /** The store only grows during the loop. */
  lemma {:induction false} ProcessGrowsStore(records: map<string, Record>, w: seq<FeedMatch>, env: Backend, clock: Clock)
    requires WellFormed(records)
    ensures var t := Process(records, w, env, clock);
      forall k :: k in records ==> k in t.records && t.records[k] == records[k]
    decreases |w|
  {
    if w != [] {
      ProcessGrowsStore(records, w[..|w| - 1], env, clock);
    }
  }

  /** A match whose service key and analyzer id name the same record. */
  predicate KeysAgree(m: FeedMatch) {
    Truthy(ServiceKey(m)) && !ServiceKey(m).Obj? && !GetMatchId(m).Obj?
    && ToStr(ServiceKey(m)) == ToStr(GetMatchId(m))
  }

  predicate Healthy(env: Backend, ms: seq<FeedMatch>) {
    env.storeUp &&
    forall i :: 0 <= i < |ms| ==> env.reply(ms[i]).Some? && env.reply(ms[i]).value != "" && env.accepts(ms[i])
  }

  predicate Complete(m: FeedMatch) {
    HasTeams(m) && m.tournament.Some? && KeysAgree(m)
  }

  /** One complete match with a healthy backend ends up stored under its
      key, and nothing stored before is lost. */
  lemma StepStores(records: map<string, Record>, m: FeedMatch, env: Backend, clock: Clock)
    requires WellFormed(records) && Complete(m) && Healthy(env, [m])
    ensures var a := Analyze(records, m, env, clock);
      ToStr(ServiceKey(m)) in a.records && forall k :: k in records ==> k in a.records
  {
    assert [m][0] == m;
    GetMatchIdPrecedence(m);
    AnalyzeCreates(records, m, env, clock);
  }

  /** With a healthy backend, after the loop every worklist match whose
      keys agree is stored under its key. */
  lemma {:induction false} ProcessStoresAll(records: map<string, Record>, w: seq<FeedMatch>, env: Backend, clock: Clock)
    requires WellFormed(records)
    requires Healthy(env, w) && forall i :: 0 <= i < |w| ==> Complete(w[i])
    ensures forall i :: 0 <= i < |w| ==> ToStr(ServiceKey(w[i])) in Process(records, w, env, clock).records
    decreases |w|
  {
    if w != [] {
      var init := w[..|w| - 1];
      assert forall i :: 0 <= i < |init| ==> init[i] == w[i];
      assert Healthy(env, init);
      ProcessStoresAll(records, init, env, clock);
      var prev := Process(records, init, env, clock);
      var m := w[|w| - 1];
      assert Healthy(env, [m]);
      StepStores(prev.records, m, env, clock);
      var t := Process(records, w, env, clock);
      assert t.records == Analyze(prev.records, m, env, clock).records;
      KeysStoredExtend(w, init, prev.records, t.records);
    }
  }

  lemma KeysStoredExtend(w: seq<FeedMatch>, init: seq<FeedMatch>, before: map<string, Record>, after: map<string, Record>)
    requires w != [] && init == w[..|w| - 1]
    requires forall i :: 0 <= i < |init| ==> ToStr(ServiceKey(init[i])) in before
    requires forall k :: k in before ==> k in after
    requires ToStr(ServiceKey(w[|w| - 1])) in after
    ensures forall i :: 0 <= i < |w| ==> ToStr(ServiceKey(w[i])) in after
  {
    forall i | 0 <= i < |w| ensures ToStr(ServiceKey(w[i])) in after {
      if i < |init| {
        assert ToStr(ServiceKey(init[i])) in before;
      }
    }
  }

  /** A run whose finished matches are all stored under their keys only
      counts the check. */
  lemma ServiceRunNothingToDo(records: map<string, Record>, s: Stats, today: seq<FeedMatch>, yesterday: seq<FeedMatch>,
                              env: Backend, clock: Clock)
    requires WellFormed(records) && env.storeUp
    requires forall i :: 0 <= i < |Finished(today, yesterday)| ==>
      KeysAgree(Finished(today, yesterday)[i]) && ToStr(ServiceKey(Finished(today, yesterday)[i])) in records
    ensures ServiceRun(records, s, today, yesterday, env, clock) == AutoAnalyzeScript.RunResult(BeginRun(s, clock.now), records, 0)
  {
    var finished := Finished(today, yesterday);
    var p := (m: FeedMatch) => NeedsAnalysis(records, env, m);
    forall i | 0 <= i < |finished|
      ensures !LookupFails(records, env, finished[i]) && !p(finished[i])
    {
      StoredKeyFound(records, env, finished[i]);
    }
    Seqs.FilterEmpty(p, finished);
    assert Worklist(records, env, finished) == [];
  }

  /** A match stored under its key is found by the look-up. */
  lemma StoredKeyFound(records: map<string, Record>, env: Backend, m: FeedMatch)
    requires WellFormed(records) && env.storeUp
    requires KeysAgree(m) && ToStr(ServiceKey(m)) in records
    ensures !LookupFails(records, env, m) && !NeedsAnalysis(records, env, m)
  {
    var k := ToStr(ServiceKey(m));
    assert records[k].matchId == k;
  }

  /** With a healthy backend and agreeing keys, a second run on the same
      feed analyzes nothing: exactly-once per match. */
  lemma ServiceRunIdempotent(records: map<string, Record>, s: Stats, today: seq<FeedMatch>, yesterday: seq<FeedMatch>,
                             env: Backend, clock1: Clock, clock2: Clock)
    requires WellFormed(records)
    requires Healthy(env, Finished(today, yesterday))
    requires forall i :: 0 <= i < |Finished(today, yesterday)| ==> Complete(Finished(today, yesterday)[i])
    ensures var r1 := ServiceRun(records, s, today, yesterday, env, clock1);
      ServiceRun(r1.records, r1.stats, today, yesterday, env, clock2)
        == AutoAnalyzeScript.RunResult(BeginRun(r1.stats, clock2.now), r1.records, 0)
  {
    var finished := Finished(today, yesterday);
    var r1 := ServiceRun(records, s, today, yesterday, env, clock1);
    if finished != [] {
      FirstRunStoresFinished(records, s, today, yesterday, env, clock1);
      ServiceRunNothingToDo(r1.records, r1.stats, today, yesterday, env, clock2);
    } else {
      Seqs.FilterEmpty(ServiceFinished, today + yesterday);
      ServiceRunNothingFinished(r1.records, r1.stats, today, yesterday, env, clock2);
    }
  }

  /** The worklist drawn from healthy, complete matches is healthy and complete. */
  lemma WorklistHealthy(records: map<string, Record>, env: Backend, finished: seq<FeedMatch>)
    requires WellFormed(records)
    requires Healthy(env, finished) && forall i :: 0 <= i < |finished| ==> Complete(finished[i])
    ensures var w := Worklist(records, env, finished);
      Healthy(env, w) && forall i :: 0 <= i < |w| ==> Complete(w[i])
  {
    var p := (m: FeedMatch) => NeedsAnalysis(records, env, m);
    var w := Seqs.Filter(p, finished);
    Seqs.FilterMembership(p, finished);
    forall i | 0 <= i < |w|
      ensures Complete(w[i]) && env.reply(w[i]).Some? && env.reply(w[i]).value != "" && env.accepts(w[i])
    {
      assert w[i] in w;
      var j :| 0 <= j < |finished| && finished[j] == w[i];
    }
  }

  /** With a healthy backend, a run that finds finished matches leaves
      each of them stored under its key. */
  lemma FirstRunStoresFinished(records: map<string, Record>, s: Stats, today: seq<FeedMatch>, yesterday: seq<FeedMatch>,
                               env: Backend, clock: Clock)
    requires WellFormed(records) && Finished(today, yesterday) != []
    requires Healthy(env, Finished(today, yesterday))
    requires forall i :: 0 <= i < |Finished(today, yesterday)| ==> Complete(Finished(today, yesterday)[i])
    ensures var r := ServiceRun(records, s, today, yesterday, env, clock);
      forall i :: 0 <= i < |Finished(today, yesterday)| ==> ToStr(ServiceKey(Finished(today, yesterday)[i])) in r.records
  {
    var finished := Finished(today, yesterday);
    var w := Worklist(records, env, finished);
    assert !exists i :: 0 <= i < |finished| && LookupFails(records, env, finished[i]);
    var t := Process(records, w, env, clock);
    assert ServiceRun(records, s, today, yesterday, env, clock).records == t.records;
    WorklistHealthy(records, env, finished);
    ProcessStoresAll(records, w, env, clock);
    ProcessGrowsStore(records, w, env, clock);
    FinishedStored(records, t.records, env, finished);
  }

  /** Once the worklist is stored, every finished match is: those off the
      worklist were found by the look-up. */
  lemma FinishedStored(records: map<string, Record>, after: map<string, Record>, env: Backend, finished: seq<FeedMatch>)
    requires WellFormed(records)
    requires forall k :: k in records ==> k in after
    requires forall i :: 0 <= i < |finished| ==> !LookupFails(records, env, finished[i])
    requires var w := Worklist(records, env, finished);
      forall i :: 0 <= i < |w| ==> ToStr(ServiceKey(w[i])) in after
    ensures forall i :: 0 <= i < |finished| ==> ToStr(ServiceKey(finished[i])) in after
  {
    var p := (m: FeedMatch) => NeedsAnalysis(records, env, m);
    var w := Worklist(records, env, finished);
    assert w == Seqs.Filter(p, finished);
    Seqs.FilterMembership(p, finished);
    forall i | 0 <= i < |finished| ensures ToStr(ServiceKey(finished[i])) in after {
      var m := finished[i];
      if p(m) {
        assert m in w;
        var j :| 0 <= j < |w| && w[j] == m;
        assert ToStr(ServiceKey(w[j])) in after;
      } else {
        assert !LookupFails(records, env, m);
        assert FindByKey(records, env.storeUp, ServiceKey(m)).Found?;
        var k :| k in records && records[k].matchId == ToStr(ServiceKey(m));
      }
    }
  }

  /** When the service key and the analyzer's id differ, a stored analysis
      under the analyzer's id is not seen by the look-up: each run hands
      the match to the analyzer again, which returns the stored record
      without generating, and the run counts it as analyzed once more. */
  lemma MismatchedKeyRecounted(records: map<string, Record>, s: Stats, m: FeedMatch, env: Backend, clock: Clock)
    requires WellFormed(records) && env.storeUp && ServiceFinished(m) && HasTeams(m)
    requires Truthy(GetMatchId(m)) && !GetMatchId(m).Obj? && ToStr(GetMatchId(m)) in records
    requires Nullish(ServiceKey(m)) || (!ServiceKey(m).Obj? && ToStr(ServiceKey(m)) !in records)
    ensures var r := ServiceRun(records, s, [m], [], env, clock);
      r.records == records && r.calls == 0
      && r.stats.matchesAnalyzed == s.matchesAnalyzed + 1 && r.stats.errors == s.errors
  {
    assert [m] + [] == [m];
    var finished := Finished([m], []);
    assert finished == [m] by {
      assert Seqs.Filter(ServiceFinished, [m]) == Seqs.Filter(ServiceFinished, [m][..0]) + [m];
    }
    assert !LookupFails(records, env, m);
    var w := Worklist(records, env, finished);
    assert w == [m] by {
      assert Seqs.Filter((x: FeedMatch) => NeedsAnalysis(records, env, x), [m])
        == Seqs.Filter((x: FeedMatch) => NeedsAnalysis(records, env, x), [m][..0]) + [m];
    }
    AnalyzeExisting(records, m, env, clock);
    assert Process(records, w, env, clock) == ServiceStep(Process(records, [], env, clock), m, env, clock) by {
      assert w[..|w| - 1] == [];
    }
  }

  /** The service pipeline: its counters, the running flag, and the cron job. */
  class AutoAnalyzeService {
    var isRunning: bool
    var stats: Stats
    var cronJob: Option<CronJob>
    const enabled: bool
    const checkInterval: Value

    /** Module load: `ENABLED` and `CHECK_INTERVAL = setting || 10`, which
        stays a string when it comes from the environment. */
    constructor (enableSetting: Value, intervalSetting: Value)
      ensures enabled == Enabled(enableSetting) && checkInterval == Or(intervalSetting, Num(10))
      ensures !isRunning && stats == Initial && cronJob.None?
    {
      enabled := Enabled(enableSetting);
      checkInterval := Or(intervalSetting, Num(10));
      isRunning := false;
      stats := Initial;
      cronJob := None;
    }

    /** `start`: schedules the job only when enabled and given a generator
        key. */
    method Start(generatorKey: Value)
      modifies this
      ensures cronJob == if enabled && Truthy(generatorKey) then Some(CronJob(CronExpression(checkInterval), false)) else old(cronJob)
      ensures isRunning == old(isRunning) && stats == old(stats)
    {
      if !enabled {
        return;
      }
      if !Truthy(generatorKey) {
        return;
      }
      cronJob := Some(CronJob(CronExpression(checkInterval), false));
    }

    /** `stop`: stops the job if one was scheduled. */
    method Stop()
      modifies this
      ensures cronJob == if old(cronJob).Some? then Some(old(cronJob).value.(stopped := true)) else None
      ensures isRunning == old(isRunning) && stats == old(stats)
    {
      if cronJob.Some? {
        cronJob := Some(cronJob.value.(stopped := true));
      }
    }

    /** `getStats`: the counters with `isRunning`, `enabled`, `checkInterval`. */
    function GetStats(): (v: (Stats, bool, bool, Value))
      reads this
      ensures v.0 == stats && v.1 == isRunning && v.2 == enabled && v.3 == checkInterval
    {
      (stats, isRunning, enabled, checkInterval)
    }

    /** The loop over the worklist, one match at a time. */
    method AnalyzeWorklist(store: AnalysisStore, toAnalyze: seq<FeedMatch>, env: Backend, clock: Clock)
      returns (calls: nat)
      requires store.Valid()
      modifies this`stats, store
      ensures store.Valid()
      ensures var t := Process(old(store.records), toAnalyze, env, clock);
        store.records == t.records && calls == t.calls && stats == Apply(old(stats), t, clock.now)
    {
      ghost var r0 := store.records;
      ghost var s1 := stats;
      calls := 0;
      var k := 0;
      ghost var t := Tally(r0, 0, 0, 0);
      while k < |toAnalyze|
        invariant 0 <= k <= |toAnalyze| && store.Valid()
        invariant t == Process(r0, toAnalyze[..k], env, clock)
        invariant store.records == t.records && calls == t.calls
        invariant stats == Apply(s1, t, clock.now)
      {
        assert toAnalyze[..k + 1][..k] == toAnalyze[..k];
        var generated := AnalyzeOne(store, toAnalyze[k], env, clock, s1, t);
        if generated {
          calls := calls + 1;
        }
        t := ServiceStep(t, toAnalyze[k], env, clock);
        k := k + 1;
      }
      assert toAnalyze[..k] == toAnalyze;
    }

    /** The body of the loop: a match lacking a team is an error, any other
        goes to the analyzer and, its result being truthy, counts as
        analyzed; reports whether the generator was called. */
    method AnalyzeOne(store: AnalysisStore, m: FeedMatch, env: Backend, clock: Clock, ghost s1: Stats, ghost t: Tally)
      returns (generated: bool)
      requires store.Valid() && store.records == t.records && stats == Apply(s1, t, clock.now)
      modifies this`stats, store
      ensures store.Valid()
      ensures var t' := ServiceStep(t, m, env, clock);
        store.records == t'.records && stats == Apply(s1, t', clock.now)
        && t'.calls == t.calls + (if generated then 1 else 0)
    {
      generated := false;
      if !HasTeams(m) {
        stats := stats.(errors := stats.errors + 1);
      } else {
        var outcome;
        outcome, generated := AnalyzeMatch(store, m, env, clock);
        if outcome.IsTruthy() {
          stats := stats.(matchesAnalyzed := stats.matchesAnalyzed + 1, lastAnalysis := Some(clock.now));
        }
      }
    }

    /** The look-up loop: the worklist, or true when a look-up throws. */
    static method ScanFinished(records: map<string, Record>, env: Backend, finished: seq<FeedMatch>)
      returns (failed: bool, toAnalyze: seq<FeedMatch>)
      requires WellFormed(records)
      ensures failed <==> exists i :: 0 <= i < |finished| && LookupFails(records, env, finished[i])
      ensures !failed ==> toAnalyze == Worklist(records, env, finished)
    {
      var p := (m: FeedMatch) => NeedsAnalysis(records, env, m);
      toAnalyze := [];
      var i := 0;
      while i < |finished|
        invariant 0 <= i <= |finished|
        invariant toAnalyze == Seqs.Filter(p, finished[..i])
        invariant forall j :: 0 <= j < i ==> !LookupFails(records, env, finished[j])
      {
        var m := finished[i];
        Seqs.FilterStep(p, finished, i);
        var found := FindByKey(records, env.storeUp, ServiceKey(m));
        if found.Failed? {
          assert LookupFails(records, env, finished[i]);
          return true, [];
        }
        if found.Missing? {
          toAnalyze := toAnalyze + [m];
        }
        i := i + 1;
      }
      assert finished[..i] == finished;
      failed := false;
    }

    /** `checkAndAnalyzeMatches` on the fetched lists; returns the number
        of generator calls made. */
    method CheckAndAnalyzeMatches(store: AnalysisStore, today: seq<FeedMatch>, yesterday: seq<FeedMatch>,
                                  env: Backend, clock: Clock)
      returns (calls: nat)
      requires store.Valid()
      modifies this, store
      ensures store.Valid() && cronJob == old(cronJob)
      ensures old(isRunning) ==> isRunning && stats == old(stats) && store.records == old(store.records) && calls == 0
      ensures !old(isRunning) ==>
        !isRunning && AutoAnalyzeScript.RunResult(stats, store.records, calls) == ServiceRun(old(store.records), old(stats), today, yesterday, env, clock)
    {
      if isRunning {
        return 0;
      }
      isRunning := true;
      stats := BeginRun(stats, clock.now);
      calls := 0;
      var finished := Finished(today, yesterday);
      if |finished| == 0 {
        isRunning := false;
        return;
      }
      var failed, toAnalyze := ScanFinished(store.records, env, finished);
      if failed {
        stats := OuterFailure(stats);
      } else {
        calls := AnalyzeWorklist(store, toAnalyze, env, clock);
      }
      isRunning := false;
    }

    /** The cron tick: a run only when none is in progress. */
    method CronTick(store: AnalysisStore, today: seq<FeedMatch>, yesterday: seq<FeedMatch>, env: Backend, clock: Clock)
      returns (calls: nat)
      requires store.Valid()
      modifies this, store
      ensures store.Valid() && cronJob == old(cronJob)
      ensures old(isRunning) ==> isRunning && stats == old(stats) && store.records == old(store.records) && calls == 0
      ensures !old(isRunning) ==>
        !isRunning && AutoAnalyzeScript.RunResult(stats, store.records, calls) == ServiceRun(old(store.records), old(stats), today, yesterday, env, clock)
    {
      if !isRunning {
        calls := CheckAndAnalyzeMatches(store, today, yesterday, env, clock);
      } else {
        calls := 0;
      }
    }
  }
}
