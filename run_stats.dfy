/** The statistics both analysis pipelines keep, and what one pass over a
    worklist adds to them. */
module RunStats {
  import opened Wrappers
  import opened Js
  import AnalysisModel

  /** `stats`; a timestamp that is still `null` is None. */
  datatype Stats = Stats(
    totalChecks: nat,
    matchesAnalyzed: nat,
    lastCheck: Option<int>,
    lastAnalysis: Option<int>,
    errors: nat)

  const Initial: Stats := Stats(0, 0, None, None, 0)

  /** What a pass over the worklist leaves behind: the store, the matches
      counted as analyzed, the errors, and the generator calls made. */
  datatype Tally = Tally(records: map<string, AnalysisModel.Record>, analyzed: nat, errors: nat, calls: nat)

  /** The counters a run starts with: one more check, checked now. */
  function BeginRun(s: Stats, now: int): (s': Stats)
    ensures s'.totalChecks == s.totalChecks + 1 && s'.lastCheck == Some(now)
    ensures s'.matchesAnalyzed == s.matchesAnalyzed && s'.errors == s.errors && s'.lastAnalysis == s.lastAnalysis
  {
    s.(totalChecks := s.totalChecks + 1, lastCheck := Some(now))
  }

  /** The counters after a pass: the analyzed and error counts grow by the
      tally's, and `lastAnalysis` moves to now iff something was analyzed. */
  function Apply(s: Stats, t: Tally, now: int): (s': Stats)
    ensures s'.matchesAnalyzed == s.matchesAnalyzed + t.analyzed && s'.errors == s.errors + t.errors
    ensures s'.totalChecks == s.totalChecks && s'.lastCheck == s.lastCheck
    ensures s'.lastAnalysis == if t.analyzed > 0 then Some(now) else s.lastAnalysis
  {
    s.(matchesAnalyzed := s.matchesAnalyzed + t.analyzed,
       errors := s.errors + t.errors,
       lastAnalysis := if t.analyzed > 0 then Some(now) else s.lastAnalysis)
  }

  /** The counters after a failure outside the per-match loop. */
  function OuterFailure(s: Stats): (s': Stats)
    ensures s'.errors == s.errors + 1 && s' == s.(errors := s'.errors)
  {
    s.(errors := s.errors + 1)
  }

  /** `ENABLE_AUTO_ANALYSIS === 'true'` */
  predicate Enabled(setting: Value) {
    setting == Str("true")
  }

  /** The cron expression `*\/N * * * *` for an interval of N minutes. */
  function CronExpression(interval: Value): string {
    "*/" + ToStr(interval) + " * * * *"
  }

  /** The scheduled job, if any, and whether it was stopped. */
  datatype CronJob = CronJob(expression: string, stopped: bool)
}
