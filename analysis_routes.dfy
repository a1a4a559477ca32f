/** The analysis routes (routes/analysis.js): the status probe, search,
    trending, filter, generate, the paginated list and the lookup by
    match id. The collection is read as a sequence in natural order for
    the list queries and as the keyed store for the lookup and the
    generator; `storeUp` says whether the database answers. Every error
    the handlers catch is written as 500. */
module AnalysisRoutes {
  import opened Wrappers
  import opened Js
  import Text
  import Seqs
  import opened AnalysisModel
  import opened Feed
  import opened AiAnalysis

  const DefaultPage: int := 1
  const DefaultLimit: int := 20
  const SearchCap: int := 50
  const FilterCap: int := 50
  const TrendingCap: int := 10

  // ---------------------------------------------------------------------
  // GET /test

  datatype Probe = Probe(total: nat, latest: Option<Record>)

  /** `countDocuments()` and `findOne().sort({createdAt: -1})` */
  function TestRoute(records: seq<Record>, storeUp: bool): Result<Probe, int> {
    if !storeUp then Err(500)
    else
      var sorted := Seqs.SortDesc(CreatedAt, records);
      Ok(Probe(|records|, if sorted == [] then None else Some(sorted[0])))
  }

  /** The probe counts every record and names a newest one, or none when
      the collection is empty. */
  lemma TestRouteSpec(records: seq<Record>, storeUp: bool)
    ensures TestRoute(records, storeUp).Err? <==> !storeUp
    ensures TestRoute(records, storeUp).Ok? ==>
      var p := TestRoute(records, storeUp).value;
      && p.total == |records|
      && (p.latest.None? <==> records == [])
      && (p.latest.Some? ==>
            p.latest.value in records && forall r :: r in records ==> r.createdAt <= p.latest.value.createdAt)
  {
    if storeUp {
      var sorted := Seqs.SortDesc(CreatedAt, records);
      if sorted != [] {
        assert sorted[0] in multiset(sorted);
        forall r | r in records ensures r.createdAt <= sorted[0].createdAt {
          assert r in multiset(sorted);
          var j :| 0 <= j < |sorted| && sorted[j] == r;
        }
      }
    }
  }

  // ---------------------------------------------------------------------
  // GET /search/query

  /** `{ $regex: q, $options: 'i' }` on a field, for a `q` without regular
      expression metacharacters: a case-insensitive substring test that
      only a string field passes. */
  predicate FieldMatches(field: Value, q: string) {
    field.Str? && Text.Contains(Text.ToLower(field.s), Text.ToLower(q))
  }

  /** The `$or` of the four searched fields. */
  predicate SearchHit(q: string, r: Record) {
    || FieldMatches(r.homeTeam.name, q)
    || FieldMatches(r.awayTeam.name, q)
    || FieldMatches(r.tournament.name, q)
    || FieldMatches(Str(r.analysis.summary), q)
  }

  /** `GET /search/query?q=`: no query at all for an empty `q`. */
  function Search(records: seq<Record>, storeUp: bool, q: Option<string>): Result<seq<Record>, int> {
    if q.None? || q.value == "" then Ok([])
    else if !storeUp then Err(500)
    else Ok(Seqs.Limit(Seqs.Filter(r => SearchHit(q.value, r), records), SearchCap))
  }

  /** An empty or missing `q` answers an empty list even when the database
      is down; otherwise every result is a record that matches `q`, there
      are at most 50 of them, and when fewer than 50 match, all do. */
  lemma SearchSpec(records: seq<Record>, storeUp: bool, q: Option<string>)
    ensures (q.None? || q == Some("")) ==> Search(records, storeUp, q) == Ok([])
    ensures Search(records, storeUp, q).Err? <==> q.Some? && q.value != "" && !storeUp
    ensures Search(records, storeUp, q).Ok? && q.Some? && q.value != "" ==>
      var out := Search(records, storeUp, q).value;
      && |out| <= 50
      && (forall r :: r in out ==> r in records && SearchHit(q.value, r))
      && (|out| < 50 ==> forall r :: r in records && SearchHit(q.value, r) ==> r in out)
  {
    if q.Some? && q.value != "" && storeUp {
      var hit := r => SearchHit(q.value, r);
      Seqs.FilterMembership(hit, records);
      var hits := Seqs.Filter(hit, records);
      var out := Search(records, storeUp, q).value;
      assert out <= hits;
      forall r | r in out ensures r in hits {
        var k :| 0 <= k < |out| && out[k] == r;
        assert hits[k] == r;
      }
    }
  }

  // ---------------------------------------------------------------------
  // GET /trending/list

  function Views(r: Record): int { r.views }

  predicate Any(r: Record) { true }

  /** `find().sort({views: -1}).limit(10)` */
  function Trending(records: seq<Record>, storeUp: bool): Result<seq<Record>, int> {
    if !storeUp then Err(500) else Ok(Seqs.TopByKey(Any, Views, records, TrendingCap))
  }

  /** Ten records, or all of them when there are fewer, most viewed
      first, and no record left out has more views than one listed. */
  lemma TrendingSpec(records: seq<Record>, storeUp: bool)
    ensures Trending(records, storeUp).Err? <==> !storeUp
    ensures Trending(records, storeUp).Ok? ==>
      var out := Trending(records, storeUp).value;
      && |out| == (if |records| <= 10 then |records| else 10)
      && (|out| < 10 ==> forall r :: r in records ==> r in out)
      && (forall i :: 0 <= i < |out| ==> out[i] in records)
      && (forall i, j :: 0 <= i < j < |out| ==> out[i].views >= out[j].views)
      && (forall r, i :: r in records && r !in out && 0 <= i < |out| ==> r.views <= out[i].views)
  {
    if storeUp {
      var out := Seqs.TopByKey(Any, Views, records, TrendingCap);
      assert Trending(records, storeUp) == Ok(out);
      Seqs.TopByKeySpec(Any, Views, records, TrendingCap);
      assert Seqs.Filter(Any, records) == records by { Seqs.FilterAll(Any, records); }
      forall r | r in records ensures |out| < 10 ==> r in out {
        assert Any(r);
      }
      forall r, i | r in records && r !in out && 0 <= i < |out| ensures r.views <= out[i].views {
        assert Any(r) && Views(r) <= Views(out[i]);
      }
    }
  }

  // ---------------------------------------------------------------------
  // GET /filter/options

  /** What `new Date(date)` gives for the query's `date`: a timestamp, or
      an Invalid Date, which the schema's `Date` cast refuses. */
  datatype DateQuery = Parsed(t: int) | InvalidDate

  /** The query parameters; `date` is present when the query's `date` is
      truthy. */
  datatype FilterParams = FilterParams(team: Option<string>, tournament: Option<string>, date: Option<DateQuery>)

  /** The query the route builds: each parameter that is present and not
      empty adds its condition. */
  predicate FilterHit(f: FilterParams, r: Record) {
    && (f.team.Some? && f.team.value != "" ==>
          r.homeTeam.name == Str(f.team.value) || r.awayTeam.name == Str(f.team.value))
    && (f.tournament.Some? && f.tournament.value != "" ==> r.tournament.name == Str(f.tournament.value))
    && (f.date.Some? && f.date.value.Parsed? ==> r.date.Num? && r.date.n >= f.date.value.t)
  }

  /** `find(query).sort({createdAt: -1}).limit(50)`; a date that does not
      parse makes the query's cast throw, and the catch answers 500. */
  function FilterOptions(records: seq<Record>, storeUp: bool, f: FilterParams): Result<seq<Record>, int> {
    if !storeUp || f.date == Some(InvalidDate) then Err(500) else Ok(Seqs.TopByKey(r => FilterHit(f, r), CreatedAt, records, FilterCap))
  }

  /** At most fifty records, each meeting every given condition, newest
      first; fewer than fifty only when every matching record is listed;
      and no matching record left out is newer than one listed; with no
      parameters every record matches. The route answers 500 exactly when
      the store fails or the date does not parse. */
  lemma FilterOptionsSpec(records: seq<Record>, storeUp: bool, f: FilterParams)
    ensures FilterOptions(records, storeUp, f).Err? <==> !storeUp || f.date == Some(InvalidDate)
    ensures FilterOptions(records, storeUp, f).Err? ==> FilterOptions(records, storeUp, f).error == 500
    ensures FilterOptions(records, storeUp, f).Ok? ==>
      var out := FilterOptions(records, storeUp, f).value;
      && |out| <= 50
      && (|out| < 50 ==> forall r :: r in records && FilterHit(f, r) ==> r in out)
      && (forall i :: 0 <= i < |out| ==> out[i] in records && FilterHit(f, out[i]))
      && (forall i, j :: 0 <= i < j < |out| ==> out[i].createdAt >= out[j].createdAt)
      && (forall r, i :: r in records && FilterHit(f, r) && r !in out && 0 <= i < |out|
            ==> r.createdAt <= out[i].createdAt)
    ensures f == FilterParams(None, None, None) ==> forall r :: FilterHit(f, r)
  {
    if storeUp && f.date != Some(InvalidDate) {
      var hit := r => FilterHit(f, r);
      var out := Seqs.TopByKey(hit, CreatedAt, records, FilterCap);
      assert FilterOptions(records, storeUp, f) == Ok(out);
      Seqs.TopByKeySpec(hit, CreatedAt, records, FilterCap);
      forall r | r in records && FilterHit(f, r) ensures |out| < 50 ==> r in out {
        assert hit(r);
      }
      forall r, i | r in records && FilterHit(f, r) && r !in out && 0 <= i < |out|
        ensures r.createdAt <= out[i].createdAt
      {
        assert hit(r) && CreatedAt(r) <= CreatedAt(out[i]);
      }
    }
  }

  // ---------------------------------------------------------------------
  // POST /generate

  /** What the name `analyzeMatch` is bound to: the module object that
      `require('../services/aiAnalysis')` returns, or its `analyzeMatch`
      function. */
  datatype Binding = ModuleObject | AnalyzeFunction

  /** A body with both teams. */
  predicate Complete(body: Option<FeedMatch>) {
    body.Some? && HasTeams(body.value)
  }

  /** `POST /generate`: 400 for an incomplete body; calling the module
      object throws a TypeError, which the catch writes as 500. */
  function GenerateSpec(binding: Binding, records: map<string, Record>, body: Option<FeedMatch>,
                        env: Backend, clock: Clock): (Result<Outcome, int>, map<string, Record>)
    requires WellFormed(records)
  {
    if !Complete(body) then (Err(400), records)
    else if binding.ModuleObject? then (Err(500), records)
    else
      var a := Analyze(records, body.value, env, clock);
      (if a.outcome.Threw? then Err(500) else Ok(a.outcome), a.records)
  }

  /** As written, with the module object bound: no request ever succeeds,
      a complete body always answers 500, and nothing is stored. */
  lemma GenerateAsWritten(records: map<string, Record>, body: Option<FeedMatch>, env: Backend, clock: Clock)
    requires WellFormed(records)
    ensures GenerateSpec(ModuleObject, records, body, env, clock).0.Err?
    ensures GenerateSpec(ModuleObject, records, body, env, clock).0 == Err(500) <==> Complete(body)
    ensures GenerateSpec(ModuleObject, records, body, env, clock).1 == records
  {
  }

  /** With the function bound, a complete body is always answered with the
      analyzer's outcome (an existing record, a new one, or a fallback),
      and a new record is stored under the body's match id. */
  lemma GenerateCorrected(records: map<string, Record>, body: Option<FeedMatch>, env: Backend, clock: Clock)
    requires WellFormed(records)
    ensures var (reply, after) := GenerateSpec(AnalyzeFunction, records, body, env, clock);
      && WellFormed(after)
      && (reply.Ok? <==> Complete(body))
      && (reply == Err(400) <==> !Complete(body))
      && (reply.Ok? && reply.value.Created? ==>
            after == records[reply.value.record.matchId := reply.value.record]
            && reply.value.record.matchId == ToStr(GetMatchId(body.value)))
      && (reply.Ok? && !reply.value.Created? ==> after == records)
  {
  }

  /** `POST /generate` with the analyzer bound as intended. */
  method Generate(store: AnalysisStore, body: Option<FeedMatch>, env: Backend, clock: Clock)
    returns (reply: Result<Outcome, int>)
    requires store.Valid()
    modifies store
    ensures store.Valid()
    ensures (reply, store.records) == GenerateSpec(AnalyzeFunction, old(store.records), body, env, clock)
  {
    if body.None? || !HasTeams(body.value) {
      return Err(400);
    }
    var outcome, _ := AnalyzeMatch(store, body.value, env, clock);
    reply := if outcome.Threw? then Err(500) else Ok(outcome);
  }

  // ---------------------------------------------------------------------
  // GET /

  /** `Number(v) || fallback` for a query parameter. */
  function NumberOr(v: Value, fallback: int): (n: int)
    requires fallback != 0
    ensures n != 0
  {
    var x := ToNumber(v);
    if Truthy(x) then x.n else fallback
  }

  /** A missing, empty, zero or non-numeric parameter takes the default;
      a numeral of any other integer is read as that integer. */
  lemma NumberOrSpec(n: int, fallback: int)
    requires fallback != 0
    ensures NumberOr(Undefined, fallback) == fallback
    ensures NumberOr(Str(""), fallback) == fallback
    ensures NumberOr(Str(ToStr(Num(n))), fallback) == if n == 0 then fallback else n
  {
    NumberOfStringIsIdentity(n);
  }

  /** `Math.ceil(count / limit)` */
  function PageCount(count: nat, limit: int): (pages: int)
    requires limit != 0
  {
    if limit > 0 then (count + limit - 1) / limit else -(count / -limit)
  }

  /** The page count is the ceiling of `count / limit`: the least integer
      at least the quotient; with a positive limit it is 0 exactly for an
      empty collection. */
  lemma PageCountSpec(count: nat, limit: int)
    requires limit != 0
    ensures var pages := PageCount(count, limit);
      && (limit > 0 ==> (pages - 1) * limit < count <= pages * limit)
      && (limit < 0 ==> pages * limit <= count < (pages - 1) * limit)
      && (limit > 0 ==> (pages == 0 <==> count == 0))
  {
    var pages := PageCount(count, limit);
    if limit > 0 {
      var q := (count + limit - 1) / limit;
      var r := (count + limit - 1) % limit;
      assert q * limit + r == count + limit - 1;
      assert (q - 1) * limit == q * limit - limit;
    } else {
      var l := -limit;
      var q := count / l;
      var r := count % l;
      assert q * l + r == count;
      assert pages * limit == q * l;
      assert (pages - 1) * limit == q * l + l;
    }
  }

  datatype PageReply = PageReply(total: nat, page: int, pages: int, data: seq<Record>)

  /** `GET /?page=&limit=`: the parameters read as numbers, then the
      page. */
  function ListPage(records: seq<Record>, storeUp: bool, pageParam: Value, limitParam: Value): Result<PageReply, int> {
    Paginate(records, storeUp, NumberOr(pageParam, DefaultPage), NumberOr(limitParam, DefaultLimit))
  }

  /** `find().sort({createdAt: -1}).skip(skip).limit(limit)` with the
      count; the database rejects a negative skip. */
  function Paginate(records: seq<Record>, storeUp: bool, page: int, limit: int): Result<PageReply, int>
    requires limit != 0
  {
    var skip := (page - 1) * limit;
    if !storeUp || skip < 0 then Err(500)
    else
      var data := Seqs.Limit(Seqs.Skip(Seqs.SortDesc(CreatedAt, records), skip), limit);
      Ok(PageReply(|records|, page, PageCount(|records|, limit), data))
  }

  /** The window a skip and a positive limit cut out of a sequence. */
  lemma {:induction false} Window<T>(s: seq<T>, start: nat, limit: int)
    requires limit > 0
    ensures var d := Seqs.Limit(Seqs.Skip(s, start), limit);
      && |d| <= limit
      && (forall k :: 0 <= k < |d| ==> start + k < |s| && d[k] == s[start + k])
      && |d| == if start + limit <= |s| then limit else if start <= |s| then |s| - start else 0
  {
  }

  lemma MulNonneg(a: int, b: int)
    requires a >= 0 && b >= 0
    ensures a * b >= 0
  {
  }

  /** Missing parameters read as page 1 of 20: the twenty newest. */
  lemma ListPageDefaults(records: seq<Record>)
    ensures ListPage(records, true, Undefined, Undefined)
      == Ok(PageReply(|records|, 1, PageCount(|records|, 20), Seqs.Limit(Seqs.SortDesc(CreatedAt, records), 20)))
  {
    assert NumberOr(Undefined, DefaultPage) == 1 && NumberOr(Undefined, DefaultLimit) == 20;
    var sorted := Seqs.SortDesc(CreatedAt, records);
    assert Seqs.Skip(sorted, 0) == sorted;
  }

  /** With positive page and limit, page `p` is the slice of the newest-
      first order from `(p-1)*limit`, `limit` long or cut short by the end
      of the collection; the reply counts every record. */
  lemma PaginateSpec(records: seq<Record>, page: int, limit: int)
    requires page > 0 && limit > 0
    ensures var start := (page - 1) * limit;
      var sorted := Seqs.SortDesc(CreatedAt, records);
      && start >= 0
      && Paginate(records, true, page, limit).Ok?
      && Paginate(records, true, page, limit).value.total == |records|
      && Paginate(records, true, page, limit).value.page == page
      && (forall k :: 0 <= k < |Paginate(records, true, page, limit).value.data| ==>
            start + k < |sorted| && Paginate(records, true, page, limit).value.data[k] == sorted[start + k])
      && |Paginate(records, true, page, limit).value.data|
         == if start + limit <= |records| then limit else if start <= |records| then |records| - start else 0
  {
    var sorted := Seqs.SortDesc(CreatedAt, records);
    MulNonneg(page - 1, limit);
    Window(sorted, (page - 1) * limit, limit);
  }

  /** The page that holds position `i` when pages are `limit` long, and
      the place `i` has on it. */
  lemma PageOfPosition(count: nat, limit: int, i: nat)
    requires limit > 0 && i < count
    ensures 1 <= i / limit + 1 <= PageCount(count, limit)
    ensures (i / limit + 1 - 1) * limit >= 0
    ensures (i / limit + 1 - 1) * limit + i % limit == i && 0 <= i % limit < limit
  {
    PageCountSpec(count, limit);
    var pages := PageCount(count, limit);
    var q := i / limit;
    MulNonneg(q, limit);
    if pages < q + 1 {
      MulMono(pages, q, limit);
    }
  }

  lemma MulMono(a: int, b: int, c: int)
    requires a <= b && c > 0
    ensures a * c <= b * c
  {
  }

  /** With a positive limit every record sits on exactly the page its
      position in the newest-first order puts it on, and that page is
      between 1 and the page count. */
  lemma EveryRecordOnAPage(records: seq<Record>, limit: int, i: nat)
    requires limit > 0 && i < |records|
    ensures var p := i / limit + 1;
      && 1 <= p <= PageCount(|records|, limit)
      && Paginate(records, true, p, limit).Ok?
      && i % limit < |Paginate(records, true, p, limit).value.data|
      && Paginate(records, true, p, limit).value.data[i % limit] == Seqs.SortDesc(CreatedAt, records)[i]
  {
    var p := i / limit + 1;
    var sorted := Seqs.SortDesc(CreatedAt, records);
    assert 1 <= p <= PageCount(|records|, limit) && (p - 1) * limit >= 0 by {
      PageOfPosition(|records|, limit, i);
    }
    WindowAt(sorted, limit, i);
  }

  /** Position `i` is at place `i % limit` of the window that starts at
      the multiple of `limit` below it. */
  lemma WindowAt<T>(s: seq<T>, limit: int, i: nat)
    requires limit > 0 && i < |s|
    ensures (i / limit) * limit >= 0
    ensures var d := Seqs.Limit(Seqs.Skip(s, (i / limit) * limit), limit);
      i % limit < |d| && d[i % limit] == s[i]
  {
    var start := (i / limit) * limit;
    var k := i % limit;
    assert start >= 0 && start + k == i && k < limit by {
      PageOfPosition(|s|, limit, i);
    }
    Window(s, start, limit);
  }

  // ---------------------------------------------------------------------
  // GET /:matchId

  /** `findOne({ matchId })`: 404 when no record has the id. */
  function GetByMatchId(records: map<string, Record>, storeUp: bool, matchId: string): (r: Result<Record, int>)
    requires WellFormed(records)
    ensures r.Err? ==> r.error == 404 || r.error == 500
    ensures r == Err(500) <==> !storeUp
    ensures r == Err(404) <==> storeUp && forall k :: k in records ==> records[k].matchId != matchId
    ensures r.Ok? ==> r.value in records.Values && r.value.matchId == matchId
  {
    if !storeUp then Err(500)
    else
      match FindByMatchId(records, matchId)
      case None => Err(404)
      case Some(rec) => Ok(rec)
  }
}
