/** The stored match analysis (models/Analysis.js): the record and its
    schema defaults and required fields, the unique `matchId`, the two
    virtuals, the pre-save hook, and the store with `findByMatchId`,
    `getRecent` and `incrementViews`. */
module AnalysisModel {
  import opened Wrappers
  import opened Js
  import Seqs

  datatype TeamRef = TeamRef(id: Value, name: Value, logo: Value)

  datatype TournamentRef = TournamentRef(id: Value, name: Value, country: Value, logo: Value)

  datatype SideLists = SideLists(homeTeam: seq<string>, awayTeam: seq<string>)

  /** The `analysis` sub-document. `performance` and `tactics` stand for
      `performance.overall` and `tactics.comparison`, the only parts filled. */
  datatype Narrative = Narrative(
    summary: string,
    performance: string,
    keyPlayers: string,
    tactics: string,
    statistics: string,
    strengths: SideLists,
    weaknesses: SideLists,
    fullText: string)

  datatype Score = Score(home: Value, away: Value)

  datatype Record = Record(
    matchId: string,
    homeTeam: TeamRef,
    awayTeam: TeamRef,
    score: Score,
    tournament: TournamentRef,
    venue: Value,
    date: Value,
    status: Value,
    analysis: Narrative,
    aiModel: string,
    analysisLanguage: string,
    processingTime: Option<int>,
    isPublished: bool,
    views: int,
    likes: int,
    createdAt: int)

  /** The fields handed to `new Analysis({...})`: a field that is absent
      (None, or Undefined for the score parts) takes its schema default. */
  datatype Draft = Draft(
    matchId: string,
    homeTeam: TeamRef,
    awayTeam: TeamRef,
    score: Score,
    tournament: TournamentRef,
    venue: Value,
    date: Value,
    status: Value,
    analysis: Narrative,
    aiModel: Option<string>,
    analysisLanguage: Option<string>,
    processingTime: Option<int>,
    isPublished: Option<bool>,
    views: Option<int>,
    likes: Option<int>)

  const DefaultAiModel: string := "groq-llama-3.1-70b"
  const DefaultLanguage: string := "ar"

  function DefaultZero(v: Value): Value {
    if v.Undefined? then Num(0) else v
  }

  /** The document mongoose builds from a draft; `createdAt` is the
      timestamp the store assigns. */
  function Instantiate(d: Draft, createdAt: int): Record {
    Record(
      d.matchId, d.homeTeam, d.awayTeam,
      Score(DefaultZero(d.score.home), DefaultZero(d.score.away)),
      d.tournament, d.venue, d.date, d.status, d.analysis,
      d.aiModel.GetOr(DefaultAiModel), d.analysisLanguage.GetOr(DefaultLanguage),
      d.processingTime, d.isPublished.GetOr(true),
      d.views.GetOr(0), d.likes.GetOr(0), createdAt)
  }

  /** Schema defaults: absent score parts, views and likes are 0, the record
      is published, the language is "ar"; every given field is kept. */
  lemma InstantiateDefaults(d: Draft, createdAt: int)
    ensures var r := Instantiate(d, createdAt);
      && (d.score.home.Undefined? ==> r.score.home == Num(0))
      && (d.score.away.Undefined? ==> r.score.away == Num(0))
      && (!d.score.home.Undefined? ==> r.score.home == d.score.home)
      && (!d.score.away.Undefined? ==> r.score.away == d.score.away)
      && (d.views.None? ==> r.views == 0)
      && (d.likes.None? ==> r.likes == 0)
      && (d.isPublished.None? ==> r.isPublished)
      && (d.analysisLanguage.None? ==> r.analysisLanguage == "ar")
      && r.matchId == d.matchId && r.analysis == d.analysis
  {
  }

  /** A required String fails validation when it is empty. */
  predicate Validates(r: Record) {
    r.matchId != "" && r.analysis.summary != "" && r.analysis.fullText != ""
  }

  /** The store's invariant: each record sits under its own `matchId` (the
      unique index) and passed validation. */
  ghost predicate WellFormed(records: map<string, Record>) {
    forall k :: k in records ==> records[k].matchId == k && Validates(records[k])
  }

  /** `Analysis.findByMatchId(key)`, i.e. `findOne({ matchId: key })`. */
  function FindByMatchId(records: map<string, Record>, key: string): (r: Option<Record>)
    requires WellFormed(records)
    ensures r.Some? <==> exists k :: k in records && records[k].matchId == key
    ensures r.Some? ==> r.value in records.Values && r.value.matchId == key
  {
    if key in records then Some(records[key]) else None
  }

  /** The unique index: two stored records never share a `matchId`. */
  lemma UniqueMatchId(records: map<string, Record>, k1: string, k2: string)
    requires WellFormed(records) && k1 in records && k2 in records
    requires records[k1].matchId == records[k2].matchId
    ensures k1 == k2 && records[k1] == records[k2]
  {
  }

  /** The answer of `findOne({ matchId: key })` for a key of any type:
      Failed when the database is unreachable or the key cannot be cast to
      a string (an object), Missing for a null or undefined key, otherwise
      the record stored under the key's string form, if any. */
  datatype Lookup = Found(record: Record) | Missing | Failed

  function FindByKey(records: map<string, Record>, storeUp: bool, key: Value): (l: Lookup)
    requires WellFormed(records)
    ensures l.Failed? <==> !storeUp || key.Obj?
    ensures l.Found? <==> storeUp && !key.Obj? && !Nullish(key) && FindByMatchId(records, ToStr(key)).Some?
    ensures l.Found? ==> l.record == FindByMatchId(records, ToStr(key)).value
  {
    if !storeUp || key.Obj? then Failed
    else if Nullish(key) then Missing
    else match FindByMatchId(records, ToStr(key))
      case Some(r) => Found(r)
      case None => Missing
  }

  /** The pre-save hook: a new document whose `processingTime` is falsy
      gets 0; anything else passes through. */
  function PreSave(r: Record, isNew: bool): (r': Record)
    ensures r' == r.(processingTime := r'.processingTime)
    ensures isNew ==> r'.processingTime.Some?
    ensures isNew && r.processingTime.Some? && r.processingTime.value != 0 ==> r' == r
    ensures !isNew ==> r' == r
  {
    if isNew && (r.processingTime.None? || r.processingTime.value == 0)
    then r.(processingTime := Some(0))
    else r
  }

  /** What `doc.save()` stores for a new document, or None when the save
      fails: validation, the unique index, or a refused write (`accepted`
      false stands for a lost connection or a replica that inserted first). */
  function SaveNew(records: map<string, Record>, r: Record, accepted: bool): (saved: Option<Record>)
    ensures saved.Some? <==> accepted && Validates(r) && r.matchId !in records
    ensures saved.Some? ==> saved.value == PreSave(r, true)
  {
    var doc := PreSave(r, true);
    if accepted && Validates(doc) && doc.matchId !in records then Some(doc) else None
  }

  /** A successful save keeps the store well formed and adds exactly one record. */
  lemma SaveKeepsWellFormed(records: map<string, Record>, r: Record, accepted: bool)
    requires WellFormed(records)
    requires SaveNew(records, r, accepted).Some?
    ensures WellFormed(records[r.matchId := SaveNew(records, r, accepted).value])
    ensures |records[r.matchId := SaveNew(records, r, accepted).value]| == |records| + 1
  {
  }

  /** `analysis.incrementViews()` */
  function WithView(r: Record): (r': Record)
    ensures r'.views == r.views + 1
    ensures r' == r.(views := r'.views)
  {
    r.(views := r.views + 1)
  }

  /** Virtual `matchTitle`: "homeName vs awayName". */
  function MatchTitle(r: Record): string {
    ToStr(r.homeTeam.name) + " vs " + ToStr(r.awayTeam.name)
  }

  /** The title opens with the home team's name and closes with the away
      team's, " vs " between them. */
  lemma MatchTitleSpec(r: Record)
    ensures var t, h, a := MatchTitle(r), ToStr(r.homeTeam.name), ToStr(r.awayTeam.name);
      && |t| == |h| + 4 + |a|
      && t[..|h|] == h && t[|h|..|h| + 4] == " vs " && t[|h| + 4..] == a
  {
  }

  /** Virtual `scoreDisplay`: "home - away". */
  function ScoreDisplay(r: Record): string {
    ToStr(r.score.home) + " - " + ToStr(r.score.away)
  }

  /** Number of leading decimal digits of `s`. */
  function DigitRun(s: string): (n: nat)
    ensures n <= |s| && IsDigits(s[..n])
    ensures n < |s| ==> !IsDigit(s[n])
  {
    if s != [] && IsDigit(s[0]) then
      var n := 1 + DigitRun(s[1..]);
      assert forall k :: 1 <= k < n ==> s[k] == s[1..][..n - 1][k - 1];
      n
    else 0
  }

  /** Reads "h - a" back into the two scores. */
  function ParseScoreDisplay(s: string): Option<(nat, nat)> {
    var i := DigitRun(s);
    if 0 < i && i + 3 < |s| && s[i..i + 3] == " - " && IsDigits(s[i + 3..])
    then Some((DecimalToNat(s[..i]), DecimalToNat(s[i + 3..])))
    else None
  }

  /** For non-negative numeric scores the display shows both scores, home
      first, and they can be read back from it. */
  lemma ScoreDisplayRoundTrip(r: Record, h: nat, a: nat)
    requires r.score == Score(Num(h), Num(a))
    ensures ParseScoreDisplay(ScoreDisplay(r)) == Some((h, a))
  {
    var dh, da := NatToDecimal(h), NatToDecimal(a);
    assert ScoreDisplay(r) == dh + " - " + da;
    ParseJoined(dh, da);
    DecimalRoundTrip(h);
    DecimalRoundTrip(a);
  }

  lemma ParseJoined(dh: string, da: string)
    requires dh != [] && IsDigits(dh) && da != [] && IsDigits(da)
    ensures ParseScoreDisplay(dh + " - " + da) == Some((DecimalToNat(dh), DecimalToNat(da)))
  {
    var s := dh + " - " + da;
    assert s == dh + (" - " + da);
    DigitRunOfNumeral(dh, " - " + da);
    var i := DigitRun(s);
    assert i == |dh|;
    assert s[..i] == dh;
    assert s[i..i + 3] == " - ";
    assert s[i + 3..] == da;
  }

  lemma {:induction false} DigitRunOfNumeral(d: string, t: string)
    requires IsDigits(d) && t != [] && !IsDigit(t[0])
    ensures DigitRun(d + t) == |d|
    decreases |d|
  {
    var s := d + t;
    if d != [] {
      assert s[0] == d[0] && IsDigit(d[0]);
      assert s[1..] == d[1..] + t;
      assert IsDigits(d[1..]) by {
        forall k | 0 <= k < |d[1..]| ensures IsDigit(d[1..][k]) {
          assert d[1..][k] == d[k + 1];
        }
      }
      DigitRunOfNumeral(d[1..], t);
      assert DigitRun(s) == 1 + DigitRun(s[1..]);
    } else {
      assert s == t && !IsDigit(s[0]);
    }
  }

  function CreatedAt(r: Record): int { r.createdAt }

  predicate Published(r: Record) { r.isPublished }

  /** The limit `getRecent` uses when it is called without one. */
  const RecentDefault: int := 10

  /** `Analysis.getRecent(limit = 10)`: published records, newest first,
      at most `limit` of them (mongo reads a limit of 0 as no limit). */
  function GetRecent(records: seq<Record>, limit: Option<int>): seq<Record> {
    Seqs.TopByKey(Published, CreatedAt, records, limit.GetOr(RecentDefault))
  }

  /** The recent list holds published records only, newest first; it is
      as long as the number of published records, cut down to the limit
      (ten when none is given); when it is shorter than the limit every
      published record is in it; and no published record left out is
      newer than one kept. */
  lemma GetRecentSpec(records: seq<Record>, limit: Option<int>)
    ensures var out := GetRecent(records, limit);
      var n := if limit.Some? then limit.value else 10;
      var k := if n < 0 then -n else n;
      var m := |Seqs.Filter(Published, records)|;
      && (forall i :: 0 <= i < |out| ==> out[i].isPublished && out[i] in records)
      && (forall i, j :: 0 <= i < j < |out| ==> out[i].createdAt >= out[j].createdAt)
      && |out| == (if n == 0 || m <= k then m else k)
      && (limit.None? ==> |out| <= 10)
      && ((n == 0 || |out| < k) ==> forall r :: r in records && r.isPublished ==> r in out)
      && (forall r, i :: r in records && r.isPublished && r !in out && 0 <= i < |out|
            ==> r.createdAt <= out[i].createdAt)
  {
    var n := limit.GetOr(RecentDefault);
    var out := Seqs.TopByKey(Published, CreatedAt, records, n);
    assert GetRecent(records, limit) == out;
    Seqs.TopByKeySpec(Published, CreatedAt, records, n);
    forall i | 0 <= i < |out| ensures out[i].isPublished && out[i] in records {
      assert Published(out[i]);
    }
    forall i, j | 0 <= i < j < |out| ensures out[i].createdAt >= out[j].createdAt {
      assert CreatedAt(out[i]) >= CreatedAt(out[j]);
    }
    forall r | r in records && r.isPublished ensures (n == 0 || |out| < (if n < 0 then -n else n)) ==> r in out {
      assert Published(r);
    }
    forall r, i | r in records && r.isPublished && r !in out && 0 <= i < |out|
      ensures r.createdAt <= out[i].createdAt
    {
      assert Published(r) && CreatedAt(r) <= CreatedAt(out[i]);
    }
  }

  /** The collection of analyses. */
  class AnalysisStore {
    var records: map<string, Record>

    ghost predicate Valid()
      reads this
    {
      WellFormed(records)
    }

    constructor ()
      ensures Valid() && records == map[]
    {
      records := map[];
    }

    /** `new Analysis(draft).save()`: inserts the record when the save
        succeeds and changes nothing when it fails. */
    method Save(r: Record, accepted: bool) returns (saved: Option<Record>)
      requires Valid()
      modifies this
      ensures Valid()
      ensures saved == SaveNew(old(records), r, accepted)
      ensures records == if saved.Some? then old(records)[r.matchId := saved.value] else old(records)
    {
      saved := SaveNew(records, r, accepted);
      if saved.Some? {
        SaveKeepsWellFormed(records, r, accepted);
        records := records[r.matchId := saved.value];
      }
    }

    /** `analysis.incrementViews()` on a stored record: its `views` goes up
        by one and nothing else in the store changes. */
    method IncrementViews(key: string)
      requires Valid() && key in records
      modifies this
      ensures Valid()
      ensures key in records && records == old(records)[key := WithView(old(records)[key])]
    {
      records := records[key := WithView(records[key])];
    }
  }
}
