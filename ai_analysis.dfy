/** The analyzer (services/aiAnalysis.js): identity resolution, the
    exists-check, generation, record building and the single save, the
    fallback that replaces every failure, the text extraction, and the
    sequential batch. The generator and the database are an oracle. */
module AiAnalysis {
  import opened Wrappers
  import opened Js
  import opened Text
  import Seqs
  import opened AnalysisModel
  import opened Feed

  /** The environment of one call: whether the database answers, the text
      the generator returns for a match (None when the call fails or
      returns no content), and whether the database accepts the write
      (type casts of the copied fields, the date, the connection). */
  datatype Backend = Backend(
    storeUp: bool,
    reply: FeedMatch -> Option<string>,
    accepts: FeedMatch -> bool)

  /** One timestamp per call, and the elapsed time reported as
      `processingTime`. */
  datatype Clock = Clock(now: int, elapsed: nat)

  /** The object `fallback` returns. */
  datatype FallbackDoc = FallbackDoc(matchId: Value, summary: string, fullText: string)

  /** What a call of `analyzeMatch` resolves to, or Threw when it rejects. */
  datatype Outcome = Existing(record: Record) | Created(record: Record) | FellBack(doc: FallbackDoc) | Threw
  {
    predicate IsTruthy() { !Threw? }
  }

  datatype Analyzed = Analyzed(outcome: Outcome, records: map<string, Record>, generated: bool)

  const AnalyzerModel: string := "groq-llama-3.3-70b"
  const ExcerptLength: nat := 300

  /** `getMatchId`: `matchId || apiId || _id || fixture?.id` */
  function GetMatchId(m: FeedMatch): Value {
    Or(m.matchId, Or(m.apiId, Or(m.docId, m.fixtureId)))
  }

  /** The id is the first truthy candidate in the order matchId, apiId,
      _id, fixture.id, and it is falsy only when all four are. */
  lemma GetMatchIdPrecedence(m: FeedMatch)
    ensures GetMatchId(m) == FirstTruthy([m.matchId, m.apiId, m.docId, m.fixtureId])
    ensures Truthy(GetMatchId(m)) <==>
      Truthy(m.matchId) || Truthy(m.apiId) || Truthy(m.docId) || Truthy(m.fixtureId)
  {
    var vs := [m.matchId, m.apiId, m.docId, m.fixtureId];
    assert vs[1..] == [m.apiId, m.docId, m.fixtureId];
    assert vs[1..][1..] == [m.docId, m.fixtureId];
    assert vs[1..][1..][1..] == [m.fixtureId];
    assert FirstTruthy([m.fixtureId]) == m.fixtureId;
    assert FirstTruthy([m.docId, m.fixtureId]) == Or(m.docId, m.fixtureId);
    assert FirstTruthy([m.apiId, m.docId, m.fixtureId]) == Or(m.apiId, Or(m.docId, m.fixtureId));
  }

  /** Does the line mention one of the keys? */
  predicate MentionsAny(line: string, keys: seq<string>) {
    exists i :: 0 <= i < |keys| && Contains(line, keys[i])
  }

  /** `extract`: the matching lines joined and trimmed, or the first 300
      characters of the text when that is empty. */
  function Extract(text: string, keys: seq<string>): string {
    var found := Seqs.Filter((l: string) => MentionsAny(l, keys), Split(text, '\n'));
    var joined := Trim(Join(found, "\n"));
    if joined != "" then joined else Take(text, ExcerptLength)
  }

  /** An extract is empty exactly when the text is; with no line mentioning
      a key it is the 300-character excerpt; and it differs from the
      excerpt only when some line does mention a key. */
  lemma ExtractSpec(text: string, keys: seq<string>)
    requires forall i :: 0 <= i < |keys| ==> keys[i] != ""
    ensures Extract(text, keys) == "" <==> text == ""
    ensures (forall i :: 0 <= i < |Split(text, '\n')| ==> !MentionsAny(Split(text, '\n')[i], keys))
      ==> Extract(text, keys) == Take(text, ExcerptLength)
    ensures Extract(text, keys) != Take(text, ExcerptLength) ==>
      exists i :: 0 <= i < |Split(text, '\n')| && MentionsAny(Split(text, '\n')[i], keys)
  {
    var p := (l: string) => MentionsAny(l, keys);
    var lines := Split(text, '\n');
    Seqs.FilterEmpty(p, lines);
    if text == "" {
      assert Split(text, '\n') == [""];
      forall i | 0 <= i < |keys| ensures !Contains("", keys[i]) {
        ContainsEmptyString(keys[i]);
      }
      assert !p("");
      assert Seqs.Filter(p, lines) == [];
      assert Trim(Join([], "\n")) == "";
    } else if Trim(Join(Seqs.Filter(p, lines), "\n")) == "" {
      assert Take(text, ExcerptLength) != "";
    }
  }

  const SummaryKeys: seq<string> := ["ملخص", "summary"]
  const PerformanceKeys: seq<string> := ["الأداء", "performance"]
  const KeyPlayerKeys: seq<string> := ["لاعب", "مؤثر"]
  const TacticsKeys: seq<string> := ["تكتيك", "خطة"]
  const StatisticsKeys: seq<string> := ["إحصائ", "statistic"]

  /** The key lists of the five sections `parse` fills, in field order:
      summary, performance, key players, tactics, statistics. */
  const SectionKeys: seq<seq<string>> := [SummaryKeys, PerformanceKeys, KeyPlayerKeys, TacticsKeys, StatisticsKeys]

  /** One extract per key list; each is empty exactly when the text is. */
  function Sections(text: string, lists: seq<seq<string>>): (r: seq<string>)
    requires forall i, j :: 0 <= i < |lists| && 0 <= j < |lists[i]| ==> lists[i][j] != ""
    ensures |r| == |lists|
    ensures forall i :: 0 <= i < |r| ==> (r[i] == "" <==> text == "")
    decreases |lists|
  {
    if lists == [] then []
    else
      ExtractSpec(text, lists[0]);
      [Extract(text, lists[0])] + Sections(text, lists[1..])
  }

  /** Each section is the extract for its key list. */
  lemma {:induction false} SectionsAreExtracts(text: string, lists: seq<seq<string>>)
    requires forall i, j :: 0 <= i < |lists| && 0 <= j < |lists[i]| ==> lists[i][j] != ""
    ensures forall i :: 0 <= i < |lists| ==> Sections(text, lists)[i] == Extract(text, lists[i])
    decreases |lists|
  {
    if lists != [] {
      SectionsAreExtracts(text, lists[1..]);
    }
  }

  /** `parse` together with the full text it was taken from. */
  function Parse(text: string): (n: Narrative)
    ensures n.fullText == text
    ensures n.strengths == SideLists([], []) && n.weaknesses == SideLists([], [])
    ensures n.summary == "" <==> text == ""
  {
    var s := Sections(text, SectionKeys);
    Narrative(s[0], s[1], s[2], s[3], s[4], SideLists([], []), SideLists([], []), text)
  }

  /** The five sections of `parse` are the extracts for the summary,
      performance, key-player, tactics and statistics keys. */
  lemma ParseSections(text: string)
    ensures Parse(text).summary == Extract(text, SummaryKeys)
    ensures Parse(text).performance == Extract(text, PerformanceKeys)
    ensures Parse(text).keyPlayers == Extract(text, KeyPlayerKeys)
    ensures Parse(text).tactics == Extract(text, TacticsKeys)
    ensures Parse(text).statistics == Extract(text, StatisticsKeys)
  {
    SectionsAreExtracts(text, SectionKeys);
  }

  /** The score the fallback shows: a missing or falsy part reads 0. */
  function FallbackScore(m: FeedMatch): string {
    ToStr(Or(m.scoreHome, Num(0))) + " - " + ToStr(Or(m.scoreAway, Num(0)))
  }

  const FallbackOpening: string := "\nانتهت مباراة "
  const FallbackVersus: string := " ضد "
  const FallbackResult: string := " بنتيجة "
  const FallbackClosing: string := ".\nالتحليل الكامل غير متوفر حالياً وسيتم توليده قريباً تلقائياً.\n  "

  function FallbackText(m: FeedMatch): string
    requires HasTeams(m)
  {
    FallbackOpening + ToStr(m.homeTeam.value.name) + FallbackVersus + ToStr(m.awayTeam.value.name)
      + FallbackResult + FallbackScore(m) + FallbackClosing
  }

  /** `fallback(m)`; it reads both team names, so it needs both teams. */
  function Fallback(m: FeedMatch): FallbackDoc
    requires HasTeams(m)
  {
    var txt := FallbackText(m);
    FallbackDoc(GetMatchId(m), txt, txt)
  }

  /** The fallback's summary is its full text, which names both teams and
      shows the score with missing parts as 0; its id is `getMatchId`. */
  lemma FallbackSpec(m: FeedMatch)
    requires HasTeams(m)
    ensures Fallback(m).summary == Fallback(m).fullText != ""
    ensures Fallback(m).matchId == GetMatchId(m)
    ensures Contains(Fallback(m).fullText, ToStr(m.homeTeam.value.name))
    ensures Contains(Fallback(m).fullText, ToStr(m.awayTeam.value.name))
    ensures Contains(Fallback(m).fullText, FallbackScore(m))
    ensures !Truthy(m.scoreHome) && !Truthy(m.scoreAway) ==> FallbackScore(m) == "0 - 0"
  {
    FallbackParts(FallbackOpening, ToStr(m.homeTeam.value.name), FallbackVersus, ToStr(m.awayTeam.value.name),
      FallbackResult, FallbackScore(m), FallbackClosing);
    if !Truthy(m.scoreHome) && !Truthy(m.scoreAway) {
      assert ToStr(Num(0)) == "0";
    }
  }

  /** The three variable parts of a message built as a + home + b + away + c + score + d. */
  lemma FallbackParts(a: string, home: string, b: string, away: string, c: string, score: string, d: string)
    ensures var txt := a + home + b + away + c + score + d;
      Contains(txt, home) && Contains(txt, away) && Contains(txt, score)
  {
    var txt := a + home + b + away + c + score + d;
    var i1 := |a|;
    var i2 := i1 + |home| + |b|;
    var i3 := i2 + |away| + |c|;
    assert txt[i1..i1 + |home|] == home;
    ContainsAt(txt, home, i1);
    assert txt[i2..i2 + |away|] == away;
    ContainsAt(txt, away, i2);
    assert txt[i3..i3 + |score|] == score;
    ContainsAt(txt, score, i3);
  }

  /** The draft `new Analysis({...})` receives. */
  function BuildDraft(m: FeedMatch, key: string, text: string, clock: Clock): Draft
    requires HasTeams(m) && m.tournament.Some?
  {
    var home, away, t := m.homeTeam.value, m.awayTeam.value, m.tournament.value;
    Draft(
      key,
      TeamRef(home.id, home.name, home.logo),
      TeamRef(away.id, away.name, away.logo),
      Score(Or(Or(m.scoreHome, m.scoreA), Num(0)), Or(Or(m.scoreAway, m.scoreB), Num(0))),
      TournamentRef(t.id, t.name, t.country, t.logo),
      m.venue, m.date, m.status,
      Parse(text),
      Some(AnalyzerModel), None, Some(clock.elapsed as int), Some(true), None, None)
  }

  function BuildRecord(m: FeedMatch, key: string, text: string, clock: Clock): Record
    requires HasTeams(m) && m.tournament.Some?
  {
    Instantiate(BuildDraft(m, key, text, clock), clock.now)
  }

  /** A failure inside the try block: the fallback, which itself throws
      when a team is missing. */
  function Fail(records: map<string, Record>, m: FeedMatch, generated: bool): Analyzed {
    Analyzed(if HasTeams(m) then FellBack(Fallback(m)) else Threw, records, generated)
  }

  /** One call of `analyzeMatch` against the store `records`. */
  function Analyze(records: map<string, Record>, m: FeedMatch, env: Backend, clock: Clock): (a: Analyzed)
    requires WellFormed(records)
    ensures WellFormed(a.records)
    ensures a.outcome.Threw? <==> !HasTeams(m)
    ensures a.records == records || (a.outcome.Created? && a.records == records[a.outcome.record.matchId := a.outcome.record])
    ensures a.outcome.Created? ==>
      a.generated && a.outcome.record.matchId !in records && a.outcome.record.matchId == ToStr(GetMatchId(m))
    ensures a.outcome.Existing? ==>
      !a.generated && a.records == records && ToStr(GetMatchId(m)) in records && a.outcome.record == records[ToStr(GetMatchId(m))]
  {
    var id := GetMatchId(m);
    if !Truthy(id) || !HasTeams(m) then Fail(records, m, false)
    else match FindByKey(records, env.storeUp, id)
      case Failed => Fail(records, m, false)
      case Found(r) => Analyzed(Existing(r), records, false)
      case Missing =>
        if m.tournament.None? then Fail(records, m, false)
        else match env.reply(m)
          case None => Fail(records, m, true)
          case Some(text) =>
            var rec := BuildRecord(m, ToStr(id), text, clock);
            match SaveNew(records, rec, env.accepts(m))
            case None => Fail(records, m, true)
            case Some(saved) =>
              SaveKeepsWellFormed(records, rec, env.accepts(m));
              Analyzed(Created(saved), records[saved.matchId := saved], true)
  }

  /** The conditions under which a call stores a new record: the match has
      a truthy, non-object id not yet stored, both teams and a tournament,
      the generator answers with non-empty text and the write is accepted.
      The stored record carries the generator text and the `||` scores. */
  lemma AnalyzeCreates(records: map<string, Record>, m: FeedMatch, env: Backend, clock: Clock)
    requires WellFormed(records)
    ensures var a := Analyze(records, m, env, clock);
      a.outcome.Created? <==>
        && Truthy(GetMatchId(m)) && !GetMatchId(m).Obj? && ToStr(GetMatchId(m)) !in records
        && HasTeams(m) && m.tournament.Some? && env.storeUp
        && env.reply(m).Some? && env.reply(m).value != "" && env.accepts(m)
  {
    var id := GetMatchId(m);
    if Truthy(id) && !id.Obj? && HasTeams(m) && env.storeUp {
      TruthyToStrNonEmpty(id);
    }
  }

  /** A stored record carries the generator text, the `||` scores, the
      analyzer's model name, is published with no views, and records the
      elapsed time. */
  lemma AnalyzeCreatedRecord(records: map<string, Record>, m: FeedMatch, env: Backend, clock: Clock)
    requires WellFormed(records)
    ensures var a := Analyze(records, m, env, clock);
      a.outcome.Created? ==>
        && a.outcome.record.analysis.fullText == env.reply(m).value
        && a.outcome.record.score == Score(Or(Or(m.scoreHome, m.scoreA), Num(0)), Or(Or(m.scoreAway, m.scoreB), Num(0)))
        && a.outcome.record.aiModel == AnalyzerModel
        && a.outcome.record.isPublished && a.outcome.record.views == 0
        && a.outcome.record.processingTime == Some(clock.elapsed)
  {
    var a := Analyze(records, m, env, clock);
    var id := GetMatchId(m);
    if a.outcome.Created? && Truthy(id) && HasTeams(m) && FindByKey(records, env.storeUp, id).Missing?
       && m.tournament.Some? && env.reply(m).Some? {
      var rec := BuildRecord(m, ToStr(id), env.reply(m).value, clock);
      assert SaveNew(records, rec, env.accepts(m)) == Some(a.outcome.record);
      SavedRecordFields(m, ToStr(id), env.reply(m).value, clock);
    }
  }

  /** What a successful save stores for a generated analysis. */
  lemma SavedRecordFields(m: FeedMatch, key: string, text: string, clock: Clock)
    requires HasTeams(m) && m.tournament.Some?
    ensures var r := PreSave(BuildRecord(m, key, text, clock), true);
      && r.analysis.fullText == text
      && r.score == Score(Or(Or(m.scoreHome, m.scoreA), Num(0)), Or(Or(m.scoreAway, m.scoreB), Num(0)))
      && r.aiModel == AnalyzerModel
      && r.isPublished && r.views == 0
      && r.processingTime == Some(clock.elapsed)
  {
  }

  /** An id already in the store is answered from the store: no generator
      call, no write. */
  lemma AnalyzeExisting(records: map<string, Record>, m: FeedMatch, env: Backend, clock: Clock)
    requires WellFormed(records)
    requires Truthy(GetMatchId(m)) && !GetMatchId(m).Obj? && ToStr(GetMatchId(m)) in records
    requires HasTeams(m) && env.storeUp
    ensures Analyze(records, m, env, clock) == Analyzed(Existing(records[ToStr(GetMatchId(m))]), records, false)
  {
  }

  /** Whatever goes wrong, a failure is answered by the fallback and leaves
      the store as it was; only a missing team makes the call reject. */
  lemma AnalyzeFailureIsFallback(records: map<string, Record>, m: FeedMatch, env: Backend, clock: Clock)
    requires WellFormed(records)
    requires HasTeams(m)
    ensures var a := Analyze(records, m, env, clock);
      a.outcome.Existing? || a.outcome.Created? || (a.outcome == FellBack(Fallback(m)) && a.records == records)
  {
  }

  /** Analyzing the same match twice generates and stores at most once:
      the second call finds the first call's record. */
  lemma AnalyzeTwice(records: map<string, Record>, m: FeedMatch, env: Backend, clock1: Clock, clock2: Clock)
    requires WellFormed(records)
    requires Analyze(records, m, env, clock1).outcome.Created?
    ensures var a1 := Analyze(records, m, env, clock1);
      Analyze(a1.records, m, env, clock2) == Analyzed(Existing(a1.outcome.record), a1.records, false)
  {
    AnalyzeCreates(records, m, env, clock1);
  }

  /** `analyzeMatch` on the live store. */
  method AnalyzeMatch(store: AnalysisStore, m: FeedMatch, env: Backend, clock: Clock)
    returns (outcome: Outcome, generated: bool)
    requires store.Valid()
    modifies store
    ensures store.Valid()
    ensures Analyze(old(store.records), m, env, clock) == Analyzed(outcome, store.records, generated)
  {
    var id := GetMatchId(m);
    generated := false;
    if !Truthy(id) || !HasTeams(m) {
      var a := Fail(store.records, m, false);
      return a.outcome, false;
    }
    var found := FindByKey(store.records, env.storeUp, id);
    if found.Failed? || found.Found? {
      outcome := if found.Found? then Existing(found.record) else Fail(store.records, m, false).outcome;
      return;
    }
    if m.tournament.None? {
      outcome := Fail(store.records, m, false).outcome;
      return;
    }
    var reply := env.reply(m);
    generated := true;
    if reply.None? {
      outcome := Fail(store.records, m, true).outcome;
      return;
    }
    var rec := BuildRecord(m, ToStr(id), reply.value, clock);
    var saved := store.Save(rec, env.accepts(m));
    if saved.Some? {
      outcome := Created(saved.value);
    } else {
      outcome := Fail(store.records, m, true).outcome;
    }
  }

  /** `analyzeMultipleMatches`: the matches in order, one call at a time;
      the first rejection rejects the batch (Err), keeping the writes made
      before it. */
  datatype Batch = Batch(result: Result<seq<Outcome>, FeedMatch>, records: map<string, Record>, calls: nat)

  function AnalyzeAll(records: map<string, Record>, ms: seq<FeedMatch>, env: Backend, clock: Clock): (b: Batch)
    requires WellFormed(records)
    ensures WellFormed(b.records)
    decreases |ms|
  {
    if ms == [] then Batch(Ok([]), records, 0)
    else
      var prev := AnalyzeAll(records, ms[..|ms| - 1], env, clock);
      if prev.result.Err? then prev
      else
        var a := Analyze(prev.records, ms[|ms| - 1], env, clock);
        Batch(if a.outcome.Threw? then Err(ms[|ms| - 1]) else Ok(prev.result.value + [a.outcome]),
              a.records, prev.calls + if a.generated then 1 else 0)
  }

  /** The batch yields one truthy result per match, in input order, exactly
      when every match has both teams. */
  lemma {:induction false} AnalyzeAllOk(records: map<string, Record>, ms: seq<FeedMatch>, env: Backend, clock: Clock)
    requires WellFormed(records)
    ensures var b := AnalyzeAll(records, ms, env, clock);
      && (b.result.Ok? <==> forall i :: 0 <= i < |ms| ==> HasTeams(ms[i]))
      && (b.result.Ok? ==> |b.result.value| == |ms| && forall i :: 0 <= i < |ms| ==> b.result.value[i].IsTruthy())
    decreases |ms|
  {
    if ms != [] {
      var init, last := ms[..|ms| - 1], ms[|ms| - 1];
      var prev := AnalyzeAll(records, init, env, clock);
      AnalyzeAllOk(records, init, env, clock);
      assert forall i :: 0 <= i < |init| ==> ms[i] == init[i];
      var b := AnalyzeAll(records, ms, env, clock);
      if prev.result.Err? {
        assert b == prev;
        var i :| 0 <= i < |init| && !HasTeams(init[i]);
        assert !HasTeams(ms[i]);
      } else {
        var a := Analyze(prev.records, last, env, clock);
        assert a.outcome.Threw? <==> !HasTeams(last);
        if a.outcome.Threw? {
          assert b.result == Err(last);
        } else {
          assert b.result == Ok(prev.result.value + [a.outcome]);
          assert HasTeams(last);
          AllHaveTeams(ms, init);
        }
      }
    }
  }

  lemma AllHaveTeams(ms: seq<FeedMatch>, init: seq<FeedMatch>)
    requires ms != [] && init == ms[..|ms| - 1] && HasTeams(ms[|ms| - 1])
    requires forall i :: 0 <= i < |init| ==> HasTeams(init[i])
    ensures forall i :: 0 <= i < |ms| ==> HasTeams(ms[i])
  {
  }

  /** A rejected batch names a match that lacks a team, and every match
      before it has both. */
  lemma {:induction false} AnalyzeAllErr(records: map<string, Record>, ms: seq<FeedMatch>, env: Backend, clock: Clock)
    requires WellFormed(records)
    ensures var b := AnalyzeAll(records, ms, env, clock);
      b.result.Err? ==>
        exists i :: 0 <= i < |ms| && ms[i] == b.result.error && !HasTeams(ms[i]) && forall j :: 0 <= j < i ==> HasTeams(ms[j])
    decreases |ms|
  {
    if ms != [] {
      var init := ms[..|ms| - 1];
      var prev := AnalyzeAll(records, init, env, clock);
      if prev.result.Err? {
        AnalyzeAllErr(records, init, env, clock);
        var i :| 0 <= i < |init| && init[i] == prev.result.error && !HasTeams(init[i])
          && forall j :: 0 <= j < i ==> HasTeams(init[j]);
        assert ms[i] == init[i];
        assert forall j :: 0 <= j < i ==> ms[j] == init[j];
      } else {
        AnalyzeAllOk(records, init, env, clock);
        assert forall j :: 0 <= j < |init| ==> ms[j] == init[j];
      }
    }
  }

  /** Once a prefix of the batch is rejected, the rest of it is not run. */
  lemma {:induction false} AnalyzeAllStops(records: map<string, Record>, ms: seq<FeedMatch>, k: nat, env: Backend, clock: Clock)
    requires WellFormed(records) && k <= |ms|
    requires AnalyzeAll(records, ms[..k], env, clock).result.Err?
    ensures AnalyzeAll(records, ms, env, clock) == AnalyzeAll(records, ms[..k], env, clock)
    decreases |ms| - k
  {
    if k < |ms| {
      assert ms[..k + 1][..k] == ms[..k];
      AnalyzeAllStops(records, ms, k + 1, env, clock);
    } else {
      assert ms[..k] == ms;
    }
  }

  lemma AnalyzeAllSnoc(records: map<string, Record>, ms: seq<FeedMatch>, i: nat, env: Backend, clock: Clock)
    requires WellFormed(records) && i < |ms|
    requires AnalyzeAll(records, ms[..i], env, clock).result.Ok?
    ensures var prev := AnalyzeAll(records, ms[..i], env, clock);
      var a := Analyze(prev.records, ms[i], env, clock);
      AnalyzeAll(records, ms[..i + 1], env, clock) ==
        Batch(if a.outcome.Threw? then Err(ms[i]) else Ok(prev.result.value + [a.outcome]),
              a.records, prev.calls + if a.generated then 1 else 0)
  {
    assert ms[..i + 1][..i] == ms[..i];
  }

  method AnalyzeMultipleMatches(store: AnalysisStore, ms: seq<FeedMatch>, env: Backend, clock: Clock)
    returns (result: Result<seq<Outcome>, FeedMatch>)
    requires store.Valid()
    modifies store
    ensures store.Valid()
    ensures var b := AnalyzeAll(old(store.records), ms, env, clock);
      result == b.result && store.records == b.records
  {
    ghost var r0 := store.records;
    var arr: seq<Outcome> := [];
    var i := 0;
    while i < |ms|
      invariant 0 <= i <= |ms| && store.Valid()
      invariant AnalyzeAll(r0, ms[..i], env, clock).result == Ok(arr)
      invariant AnalyzeAll(r0, ms[..i], env, clock).records == store.records
    {
      AnalyzeAllSnoc(r0, ms, i, env, clock);
      var outcome, _ := AnalyzeMatch(store, ms[i], env, clock);
      if outcome.Threw? {
        AnalyzeAllStops(r0, ms, i + 1, env, clock);
        return Err(ms[i]);
      }
      arr := arr + [outcome];
      i := i + 1;
    }
    assert ms[..i] == ms;
    result := Ok(arr);
  }
}
