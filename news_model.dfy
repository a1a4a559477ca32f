/** The news article model (models/news.js): schema bounds and defaults,
    the likes list, view and indexing counters, the pending-indexing
    query, and the save hook that keeps one featured article and derives a
    slug from the title. */
module NewsModel {
  import opened Wrappers
  import opened Js
  import Text
  import Seqs

  datatype IndexingStatus = Pending | Indexed | Failed | NotSubmitted

  const Categories: seq<string> := ["Sports", "Football", "Basketball", "Tennis", "News", "Other"]
  const DefaultCategory: string := "Sports"
  const TitleMin: nat := 3
  const TitleMax: nat := 200
  const ContentMin: nat := 10
  const SlugMax: nat := 100
  const MaxIndexingAttempts: int := 3
  const PendingBatch: int := 50

  datatype Article = Article(
    id: string,
    title: string,
    content: string,
    category: string,
    imageUrl: Value,
    author: Value,
    slug: Option<string>,
    isFeatured: bool,
    likes: seq<string>,
    viewsCount: int,
    indexingStatus: IndexingStatus,
    lastIndexedAt: Option<int>,
    indexingAttempts: int,
    createdAt: int)

  /** The schema's validators, on the trimmed fields. */
  predicate SchemaValid(a: Article) {
    && TitleMin <= |a.title| <= TitleMax
    && |a.content| >= ContentMin
    && a.category in Categories
    && a.viewsCount >= 0
  }

  /** A new document: trimmed strings and the schema's defaults. */
  function NewArticle(id: string, title: string, content: string, category: Option<string>,
                      imageUrl: Value, author: Value, isFeatured: bool, now: int): (a: Article)
    ensures a.title == Text.Trim(title) && a.content == Text.Trim(content)
    ensures category.None? ==> a.category == "Sports"
    ensures a.likes == [] && a.viewsCount == 0 && a.indexingAttempts == 0
    ensures a.indexingStatus == NotSubmitted && a.slug.None? && a.isFeatured == isFeatured
  {
    Article(id, Text.Trim(title), Text.Trim(content),
      if category.Some? then Text.Trim(category.value) else DefaultCategory,
      imageUrl, author, None, isFeatured, [], 0, NotSubmitted, None, 0, now)
  }

  // ---------------------------------------------------------------------
  // Likes and counters

  /** `likesCount`: the length of `likes`, or 0 when there is none. */
  function LikesCount(likes: Option<seq<string>>): (n: nat)
    ensures likes.None? ==> n == 0
    ensures likes.Some? ==> n == |likes.value|
  {
    if likes.Some? then |likes.value| else 0
  }

  /** `toggleLike(userId)`: append when absent, else remove the first
      occurrence. */
  function ToggledLikes(likes: seq<string>, user: string): seq<string> {
    var i := Seqs.IndexOf(likes, user);
    if i == -1 then likes + [user] else likes[..i] + likes[i + 1..]
  }

  predicate NoDuplicates(likes: seq<string>) {
    forall i, j :: 0 <= i < j < |likes| ==> likes[i] != likes[j]
  }

  /** An absent user is appended; a present one loses its first
      occurrence and the list shrinks by one; with no duplicates the user
      is in the result exactly when it was not in the input, and the list
      stays free of duplicates. */
  lemma ToggledLikesSpec(likes: seq<string>, user: string)
    ensures user !in likes ==> ToggledLikes(likes, user) == likes + [user]
    ensures user in likes ==>
      |ToggledLikes(likes, user)| == |likes| - 1
      && exists i :: 0 <= i < |likes| && likes[i] == user && user !in likes[..i]
           && ToggledLikes(likes, user) == likes[..i] + likes[i + 1..]
    ensures NoDuplicates(likes) ==>
      NoDuplicates(ToggledLikes(likes, user)) && (user in ToggledLikes(likes, user) <==> user !in likes)
  {
    var i := Seqs.IndexOf(likes, user);
    var r := ToggledLikes(likes, user);
    if NoDuplicates(likes) {
      if i == -1 {
        assert forall k :: 0 <= k < |likes| ==> r[k] == likes[k];
      } else {
        assert forall k :: 0 <= k < |r| ==> r[k] == if k < i then likes[k] else likes[k + 1];
      }
    }
  }

  /** Liking and then unliking gives back the original list. */
  lemma ToggleTwiceRestores(likes: seq<string>, user: string)
    requires user !in likes
    ensures ToggledLikes(ToggledLikes(likes, user), user) == likes
  {
    var once := likes + [user];
    ToggledLikesSpec(likes, user);
    assert Seqs.IndexOf(once, user) == |likes|;
  }

  /** `incrementViews()` */
  function WithView(a: Article): Article {
    a.(viewsCount := a.viewsCount + 1)
  }

  /** `markAsIndexed()` at time `now` */
  function MarkedIndexed(a: Article, now: int): Article {
    a.(indexingStatus := Indexed, lastIndexedAt := Some(now))
  }

  /** `markIndexingFailed()` */
  function MarkedFailed(a: Article): Article {
    a.(indexingStatus := Failed, indexingAttempts := a.indexingAttempts + 1)
  }

  /** The counters keep the schema's bounds, and each changes only its
      own fields. */
  lemma CountersKeepSchema(a: Article, now: int)
    requires SchemaValid(a)
    ensures SchemaValid(WithView(a)) && WithView(a).viewsCount == a.viewsCount + 1
    ensures SchemaValid(MarkedIndexed(a, now)) && SchemaValid(MarkedFailed(a))
    ensures MarkedFailed(a).indexingAttempts == a.indexingAttempts + 1 && MarkedFailed(a).indexingStatus == Failed
  {
  }

  // ---------------------------------------------------------------------
  // Indexing queue

  /** The filter of `getPendingIndexing`. */
  predicate PendingForIndexing(a: Article) {
    a.indexingStatus in {Pending, NotSubmitted, Failed} && a.indexingAttempts < MaxIndexingAttempts
  }

  function CreatedAt(a: Article): int { a.createdAt }

  /** `getPendingIndexing()`: pending, unsubmitted or failed articles with
      fewer than three attempts, newest first, at most 50. */
  function GetPendingIndexing(articles: seq<Article>): seq<Article> {
    Seqs.TopByKey(PendingForIndexing, CreatedAt, articles, PendingBatch)
  }

  /** Fifty waiting articles, or every waiting one when there are fewer,
      newest first, and none left out newer than one listed. */
  lemma GetPendingIndexingSpec(articles: seq<Article>)
    ensures var out := GetPendingIndexing(articles);
      var m := |Seqs.Filter(PendingForIndexing, articles)|;
      && |out| == (if m <= 50 then m else 50)
      && (|out| < 50 ==> forall a :: a in articles && PendingForIndexing(a) ==> a in out)
      && (forall i :: 0 <= i < |out| ==>
            out[i] in articles && out[i].indexingAttempts < 3 && out[i].indexingStatus != Indexed)
      && (forall i, j :: 0 <= i < j < |out| ==> out[i].createdAt >= out[j].createdAt)
      && (forall a, i :: a in articles && PendingForIndexing(a) && a !in out && 0 <= i < |out|
            ==> a.createdAt <= out[i].createdAt)
  {
    var out := GetPendingIndexing(articles);
    assert Seqs.TopByKey(PendingForIndexing, CreatedAt, articles, PendingBatch) == out;
    Seqs.TopByKeyCount(PendingForIndexing, CreatedAt, articles, PendingBatch);
    Seqs.TopByKeyOrder(PendingForIndexing, CreatedAt, articles, PendingBatch);
    forall i | 0 <= i < |out| ensures out[i] in articles && out[i].indexingAttempts < 3 && out[i].indexingStatus != Indexed {
      assert PendingForIndexing(out[i]);
    }
    forall i, j | 0 <= i < j < |out| ensures out[i].createdAt >= out[j].createdAt {
      assert CreatedAt(out[i]) >= CreatedAt(out[j]);
    }
    forall a, i | a in articles && PendingForIndexing(a) && a !in out && 0 <= i < |out|
      ensures a.createdAt <= out[i].createdAt
    {
      assert CreatedAt(a) <= CreatedAt(out[i]);
    }
  }

  /** `k` failed indexing attempts in a row. */
  function FailedTimes(a: Article, k: nat): Article {
    if k == 0 then a else MarkedFailed(FailedTimes(a, k - 1))
  }

  /** An indexed article leaves the queue; a failed one stays in it only
      while it has had fewer than three attempts, so an article that
      starts at zero attempts is retried at most three times. */
  lemma {:induction false} IndexingRetriesBounded(a: Article, k: nat, now: int)
    requires a.indexingAttempts >= 0
    ensures !PendingForIndexing(MarkedIndexed(a, now))
    ensures FailedTimes(a, k).indexingAttempts == a.indexingAttempts + k
    ensures k > 0 ==> (PendingForIndexing(FailedTimes(a, k)) <==> a.indexingAttempts + k < 3)
    ensures k >= 3 ==> !PendingForIndexing(FailedTimes(a, k))
  {
    if k > 0 {
      IndexingRetriesBounded(a, k - 1, now);
    }
  }

  // ---------------------------------------------------------------------
  // Slug

  predicate IsArabicLetter(c: char) {
    '\U{621}' <= c <= '\U{64A}'
  }

  /** The characters a slug may hold: Arabic letters, lower-case ASCII
      letters, digits and '-' (no upper case, no whitespace). */
  predicate SlugChar(c: char) {
    IsArabicLetter(c) || ('a' <= c <= 'z') || ('0' <= c <= '9') || c == '-'
  }

  /** The class `[ء-يa-z0-9s-]` as written: a literal `s`, already among
      a-z. */
  predicate KeptAsWritten(c: char) {
    SlugChar(c) || c == 's'
  }

  /** The class `[ء-يa-z0-9\s-]`, keeping whitespace. */
  predicate KeptWithSpaces(c: char) {
    SlugChar(c) || Text.IsWhitespace(c)
  }

  predicate IsLetterS(c: char) {
    c == 's'
  }

  /** `s` without its leading run of characters satisfying `p`. */
  function DropRun(p: char -> bool, s: string): (r: string)
    ensures |r| <= |s| && r == s[|s| - |r|..]
    ensures s != [] && p(s[0]) ==> |r| < |s|
  {
    if s != [] && p(s[0]) then DropRun(p, s[1..]) else s
  }

  /** `s.replace(/R+/g, "-")` where R matches the characters satisfying `p`. */
  function CollapseRuns(p: char -> bool, s: string): (r: string)
    ensures |r| <= |s|
    decreases |s|
  {
    if s == [] then []
    else if p(s[0]) then "-" + CollapseRuns(p, DropRun(p, s))
    else [s[0]] + CollapseRuns(p, s[1..])
  }

  /** Every character of the result is '-' or a character of the input
      outside the runs. */
  lemma {:induction false} CollapseRunsChars(p: char -> bool, s: string)
    requires !p('-')
    ensures forall k :: 0 <= k < |CollapseRuns(p, s)| ==>
      !p(CollapseRuns(p, s)[k]) && (CollapseRuns(p, s)[k] == '-' || CollapseRuns(p, s)[k] in s)
    decreases |s|
  {
    if s != [] {
      if p(s[0]) {
        var rest := DropRun(p, s);
        CollapseRunsChars(p, rest);
        assert forall c :: c in rest ==> c in s;
      } else {
        CollapseRunsChars(p, s[1..]);
      }
    }
  }

  /** Without any run the input comes back unchanged. */
  lemma {:induction false} CollapseRunsNone(p: char -> bool, s: string)
    requires forall k :: 0 <= k < |s| ==> !p(s[k])
    ensures CollapseRuns(p, s) == s
    decreases |s|
  {
    if s != [] {
      CollapseRunsNone(p, s[1..]);
    }
  }

  /** The slug as the save hook computes it: lower-case, drop characters
      outside `[ء-يa-z0-9s-]`, trim, turn runs of the letter `s` into '-',
      keep the first 100 characters. */
  function SlugAsWritten(title: string): string {
    Text.Take(CollapseRuns(IsLetterS, Text.Trim(Seqs.Filter(KeptAsWritten, Text.ToLower(title)))), SlugMax)
  }

  /** The slug with whitespace classes: spaces are kept by the filter and
      each run of them becomes one '-'. */
  function Slug(title: string): string {
    Text.Take(CollapseRuns(Text.IsWhitespace, Text.Trim(Seqs.Filter(KeptWithSpaces, Text.ToLower(title)))), SlugMax)
  }

  /** Both slugs are at most 100 slug characters; the one as written never
      contains the letter `s`. */
  lemma SlugBounds(title: string)
    ensures |Slug(title)| <= 100 && forall k :: 0 <= k < |Slug(title)| ==> SlugChar(Slug(title)[k])
    ensures |SlugAsWritten(title)| <= 100
    ensures forall k :: 0 <= k < |SlugAsWritten(title)| ==>
      SlugChar(SlugAsWritten(title)[k]) && SlugAsWritten(title)[k] != 's'
  {
    SlugChars(title);
    SlugAsWrittenChars(title);
  }

  lemma SlugChars(title: string)
    ensures |Slug(title)| <= 100 && forall k :: 0 <= k < |Slug(title)| ==> SlugChar(Slug(title)[k])
  {
    var lower := Text.ToLower(title);
    var kept := Seqs.Filter(KeptWithSpaces, lower);
    Seqs.FilterMembership(KeptWithSpaces, lower);
    Text.TrimKeepsChars(kept);
    CollapseRunsChars(Text.IsWhitespace, Text.Trim(kept));
  }

  lemma SlugAsWrittenChars(title: string)
    ensures |SlugAsWritten(title)| <= 100
    ensures forall k :: 0 <= k < |SlugAsWritten(title)| ==>
      SlugChar(SlugAsWritten(title)[k]) && SlugAsWritten(title)[k] != 's'
  {
    var lower := Text.ToLower(title);
    var keptW := Seqs.Filter(KeptAsWritten, lower);
    Seqs.FilterMembership(KeptAsWritten, lower);
    Text.TrimKeepsChars(keptW);
    CollapseRunsChars(IsLetterS, Text.Trim(keptW));
  }

  /** A title already made of slug characters is its own slug (cut to 100
      characters); as written, such a title loses every `s`, so any one
      with an `s` among its first 100 characters gets a different slug. */
  lemma SlugOfPlainTitle(title: string)
    requires forall k :: 0 <= k < |title| ==> SlugChar(title[k])
    ensures Slug(title) == Text.Take(title, 100)
    ensures 's' in Text.Take(title, 100) ==> SlugAsWritten(title) != Slug(title)
  {
    assert Text.ToLower(title) == title;
    Seqs.FilterAll(KeptWithSpaces, title);
    Text.TrimNoWhitespace(title);
    CollapseRunsNone(Text.IsWhitespace, title);
    SlugBounds(title);
    if 's' in Text.Take(title, 100) {
      var k :| 0 <= k < |Text.Take(title, 100)| && Text.Take(title, 100)[k] == 's';
      assert Slug(title)[k] == 's';
    }
  }

  /** A prefix without any run passes through the replace unchanged. */
  lemma {:induction false} CollapseRunsPrefix(p: char -> bool, a: string, b: string)
    requires forall k :: 0 <= k < |a| ==> !p(a[k])
    ensures CollapseRuns(p, a + b) == a + CollapseRuns(p, b)
    decreases |a|
  {
    if a != [] {
      var s := a + b;
      assert s != [] && s[0] == a[0] && !p(a[0]);
      assert s[1..] == a[1..] + b;
      assert CollapseRuns(p, s) == [a[0]] + CollapseRuns(p, s[1..]);
      assert forall k :: 0 <= k < |a[1..]| ==> !p(a[1..][k]) by {
        forall k | 0 <= k < |a[1..]| ensures !p(a[1..][k]) {
          assert a[1..][k] == a[k + 1];
        }
      }
      CollapseRunsPrefix(p, a[1..], b);
      calc {
        CollapseRuns(p, a + b);
        [a[0]] + CollapseRuns(p, a[1..] + b);
        [a[0]] + (a[1..] + CollapseRuns(p, b));
        { assert a == [a[0]] + a[1..]; }
        a + CollapseRuns(p, b);
      }
    } else {
      assert a + b == b;
    }
  }

  lemma LettersNotWhitespace(s: string)
    requires forall k :: 0 <= k < |s| ==> 'a' <= s[k] <= 'z'
    ensures forall k :: 0 <= k < |s| ==> !Text.IsWhitespace(s[k])
  {
  }

  predicate LowerWord(w: string) {
    w != [] && forall k :: 0 <= k < |w| ==> 'a' <= w[k] <= 'z'
  }

  /** As written, the space between two lower-case words is dropped: the
      slug of "sports news" is that of "sportsnews", which turns each `s`
      into '-' ("-port-new-"). */
  lemma SlugAsWrittenDropsSpace(a: string, b: string)
    requires LowerWord(a) && LowerWord(b)
    ensures SlugAsWritten(a + " " + b) == SlugAsWritten(a + b)
  {
    var t := a + " " + b;
    assert Text.ToLower(t) == t;
    assert Text.ToLower(a + b) == a + b;
    assert Seqs.Filter(KeptAsWritten, t) == a + b by {
      assert t == (a + " ") + b;
      Seqs.FilterConcat(KeptAsWritten, a + " ", b);
      assert (a + " ")[..|a|] == a && !KeptAsWritten((a + " ")[|a|]);
      assert Seqs.Filter(KeptAsWritten, a + " ") == Seqs.Filter(KeptAsWritten, a);
      Seqs.FilterAll(KeptAsWritten, a);
      Seqs.FilterAll(KeptAsWritten, b);
    }
    assert Seqs.Filter(KeptAsWritten, a + b) == a + b by {
      assert forall k :: 0 <= k < |a + b| ==> KeptAsWritten((a + b)[k]);
      Seqs.FilterAll(KeptAsWritten, a + b);
    }
  }

  /** With whitespace classes, two lower-case words joined by a space
      give the words joined by '-' ("sports news" gives "sports-news"). */
  lemma SlugOfTwoWords(a: string, b: string)
    requires LowerWord(a) && LowerWord(b) && |a| + 1 + |b| <= 100
    ensures Slug(a + " " + b) == a + "-" + b
  {
    var t := a + " " + b;
    assert Text.ToLower(t) == t;
    assert Seqs.Filter(KeptWithSpaces, t) == t by {
      assert forall k :: 0 <= k < |t| ==> KeptWithSpaces(t[k]);
      Seqs.FilterAll(KeptWithSpaces, t);
    }
    assert Text.Trim(t) == t by {
      assert t[0] == a[0] && t[|t| - 1] == b[|b| - 1];
      TrimOfEnds(t);
    }
    assert CollapseRuns(Text.IsWhitespace, t) == a + "-" + b by {
      LettersNotWhitespace(a);
      LettersNotWhitespace(b);
      CollapseSeparator(Text.IsWhitespace, a, ' ', b);
    }
  }

  /** The intended slug of the title "sports news" is "sports-news". */
  lemma SportsNewsSlug()
    ensures Slug("sports news") == "sports-news"
  {
    assert LowerWord("sports") && LowerWord("news");
    assert "sports news" == "sports" + " " + "news";
    SlugOfTwoWords("sports", "news");
  }

  /** As written, the slug of "sports news" holds no `s`, so it is not
      "sports-news". */
  lemma SportsNewsSlugAsWritten()
    ensures 's' !in SlugAsWritten("sports news")
    ensures SlugAsWritten("sports news") != "sports-news"
  {
    SlugAsWrittenChars("sports news");
    assert "sports-news"[0] == 's';
  }

  /** A text that starts and ends with a lower-case letter is its own trim. */
  lemma TrimOfEnds(t: string)
    requires t != [] && 'a' <= t[0] <= 'z' && 'a' <= t[|t| - 1] <= 'z'
    ensures Text.Trim(t) == t
  {
    assert Text.LeadingWhitespace(t) == 0;
    assert t[0..] == t;
    assert Text.TrailingStart(t) == |t|;
  }

  /** A separator matched by `p` in front of a text without runs becomes '-'. */
  lemma CollapseLeadingSeparator(p: char -> bool, c: char, b: string)
    requires forall k :: 0 <= k < |b| ==> !p(b[k])
    requires p(c)
    ensures CollapseRuns(p, [c] + b) == "-" + b
  {
    var rest := [c] + b;
    assert DropRun(p, rest) == b by {
      assert rest[0] == c && rest[1..] == b;
      assert b == [] || !p(b[0]);
    }
    assert CollapseRuns(p, b) == b by {
      CollapseRunsNone(p, b);
    }
  }

  /** One separator matched by `p` between two texts without runs becomes '-'. */
  lemma CollapseSeparator(p: char -> bool, a: string, c: char, b: string)
    requires forall k :: 0 <= k < |a| ==> !p(a[k])
    requires forall k :: 0 <= k < |b| ==> !p(b[k])
    requires p(c)
    ensures CollapseRuns(p, a + [c] + b) == a + "-" + b
  {
    assert CollapseRuns(p, a + ([c] + b)) == a + ("-" + b) by {
      CollapseLeadingSeparator(p, c, b);
      CollapseRunsPrefix(p, a, [c] + b);
    }
    assert a + [c] + b == a + ([c] + b);
    assert a + "-" + b == a + ("-" + b);
  }

  // ---------------------------------------------------------------------
  // The collection

  predicate KeysMatch(items: map<string, Article>) {
    forall id :: id in items ==> items[id].id == id
  }

  /** The unique partial index on `isFeatured: true`. */
  predicate AtMostOneFeatured(items: map<string, Article>) {
    forall a, b :: a in items && b in items && items[a].isFeatured && items[b].isFeatured ==> a == b
  }

  /** The unique sparse index on `slug`. */
  predicate SlugsUnique(items: map<string, Article>) {
    forall a, b :: a in items && b in items && items[a].slug.Some? && items[a].slug == items[b].slug ==> a == b
  }

  predicate StoreValid(items: map<string, Article>) {
    && KeysMatch(items) && AtMostOneFeatured(items) && SlugsUnique(items)
    && forall id :: id in items ==> SchemaValid(items[id])
  }

  /** `updateMany({_id: {$ne: keep}, isFeatured: true}, {$set: {isFeatured: false}})`;
      with no `keep` every article is un-featured. */
  function Unfeature(items: map<string, Article>, keep: Option<string>): (r: map<string, Article>)
    ensures r.Keys == items.Keys
    ensures forall id :: id in r ==> r[id].isFeatured == (items[id].isFeatured && keep == Some(id))
    ensures forall id :: id in r ==> r[id] == items[id].(isFeatured := r[id].isFeatured)
  {
    map id | id in items :: if keep == Some(id) then items[id] else items[id].(isFeatured := false)
  }

  /** Un-featuring keeps the store valid and leaves at most `keep`
      featured. */
  lemma UnfeatureKeepsValid(items: map<string, Article>, keep: Option<string>)
    requires StoreValid(items)
    ensures StoreValid(Unfeature(items, keep))
    ensures forall id :: id in Unfeature(items, keep) && Unfeature(items, keep)[id].isFeatured ==> keep == Some(id)
  {
    var r := Unfeature(items, keep);
    forall a, b | a in r && b in r && r[a].slug.Some? && r[a].slug == r[b].slug ensures a == b {
      assert items[a].slug == r[a].slug && items[b].slug == r[b].slug;
    }
    forall id | id in r ensures SchemaValid(r[id]) {
      assert SchemaValid(items[id]);
    }
  }

  datatype SaveError = ValidationError | DuplicateKey

  /** A save: the store afterwards and the saved document or the error. */
  datatype Saved = Saved(items: map<string, Article>, result: Result<Article, SaveError>)

  predicate SlugTaken(items: map<string, Article>, slug: Option<string>) {
    slug.Some? && exists id :: id in items && items[id].slug == slug
  }

  /** `save()` of a new document: validation first; then the hook
      un-features every other article when this one is featured and sets
      the slug from the title when there is none; then the insert, which
      the unique slug index can refuse after the un-featuring is done. */
  function SaveNew(items: map<string, Article>, a: Article): (s: Saved)
    requires a.id !in items
    ensures s.result.Err? && s.result.error == ValidationError <==> !SchemaValid(a)
    ensures !SchemaValid(a) ==> s.items == items
    ensures s.result.Ok? ==>
      s.items == (if a.isFeatured then Unfeature(items, Some(a.id)) else items)[a.id := s.result.value]
  {
    if !SchemaValid(a) then Saved(items, Err(ValidationError))
    else
      var afterHook := if a.isFeatured then Unfeature(items, Some(a.id)) else items;
      var withSlug := if a.slug.None? || a.slug == Some("") then a.(slug := Some(Slug(a.title))) else a;
      if SlugTaken(afterHook, withSlug.slug) then Saved(afterHook, Err(DuplicateKey))
      else Saved(afterHook[a.id := withSlug], Ok(withSlug))
  }

  /** Inserting a valid article with a free slug, and that is not
      featured unless nothing else is, keeps the store valid. */
  lemma InsertKeepsValid(items: map<string, Article>, a: Article)
    requires StoreValid(items) && a.id !in items && SchemaValid(a) && !SlugTaken(items, a.slug)
    requires a.isFeatured ==> forall id :: id in items ==> !items[id].isFeatured
    ensures StoreValid(items[a.id := a])
  {
  }

  /** Saving keeps the store valid; a saved featured article is the only
      featured one; the saved document has a slug; a featured article that
      the slug index refuses still leaves no article featured. */
  lemma SaveNewSpec(items: map<string, Article>, a: Article)
    requires StoreValid(items) && a.id !in items
    ensures StoreValid(SaveNew(items, a).items)
    ensures SaveNew(items, a).result.Ok? ==>
      var saved := SaveNew(items, a).result.value;
      saved.slug.Some? && saved == a.(slug := saved.slug)
      && (a.isFeatured ==> forall id :: id in SaveNew(items, a).items && SaveNew(items, a).items[id].isFeatured ==> id == a.id)
    ensures SaveNew(items, a).result == Err(DuplicateKey) && a.isFeatured ==>
      a.id !in SaveNew(items, a).items
      && forall id :: id in SaveNew(items, a).items ==> !SaveNew(items, a).items[id].isFeatured
  {
    if SchemaValid(a) {
      var afterHook := if a.isFeatured then Unfeature(items, Some(a.id)) else items;
      UnfeatureKeepsValid(items, Some(a.id));
      var s := SaveNew(items, a);
      if s.result.Ok? {
        InsertKeepsValid(afterHook, s.result.value);
      }
    }
  }

  /** The fields an update sets; None leaves a field as it is (an
      undefined key is dropped from the update). */
  datatype Patch = Patch(
    title: Option<string>, content: Option<string>, category: Option<string>,
    isFeatured: Option<bool>, imageUrl: Option<Value>)

  function Patched(a: Article, p: Patch): Article {
    a.(title := if p.title.Some? then Text.Trim(p.title.value) else a.title,
       content := if p.content.Some? then Text.Trim(p.content.value) else a.content,
       category := if p.category.Some? then Text.Trim(p.category.value) else a.category,
       isFeatured := if p.isFeatured.Some? then p.isFeatured.value else a.isFeatured,
       imageUrl := if p.imageUrl.Some? then p.imageUrl.value else a.imageUrl)
  }

  /** An update's outcome: the store afterwards and the updated document
      (None when no article has the id) or the error. */
  datatype Updated = Updated(items: map<string, Article>, result: Result<Option<Article>, SaveError>)

  /** `findByIdAndUpdate(id, patch, {new: true, runValidators: true})`:
      no save hook runs (the slug stays), the validators check the result,
      and the unique index refuses a second featured article. */
  function UpdateById(items: map<string, Article>, id: string, p: Patch): (u: Updated)
    ensures id !in items ==> u == Updated(items, Ok(None))
    ensures u.result.Err? ==> u.items == items
    ensures u.result.Ok? && id in items ==>
      u.result.value == Some(Patched(items[id], p)) && u.items == items[id := Patched(items[id], p)]
  {
    if id !in items then Updated(items, Ok(None))
    else
      var b := Patched(items[id], p);
      if !SchemaValid(b) then Updated(items, Err(ValidationError))
      else if b.isFeatured && exists other :: other in items && other != id && items[other].isFeatured
      then Updated(items, Err(DuplicateKey))
      else Updated(items[id := b], Ok(Some(b)))
  }

  /** An update keeps the store valid, and it succeeds on a known id
      exactly when the patched article passes the validators and is not a
      second featured one. */
  lemma UpdateByIdSpec(items: map<string, Article>, id: string, p: Patch)
    requires StoreValid(items)
    ensures StoreValid(UpdateById(items, id, p).items)
    ensures id in items ==>
      (UpdateById(items, id, p).result.Ok? <==>
        SchemaValid(Patched(items[id], p))
        && (Patched(items[id], p).isFeatured ==> forall o :: o in items && o != id ==> !items[o].isFeatured))
  {
    if id in items && UpdateById(items, id, p).result.Ok? {
      var b := Patched(items[id], p);
      var r := items[id := b];
      forall x, y | x in r && y in r && r[x].slug.Some? && r[x].slug == r[y].slug ensures x == y {
        assert r[x].slug == items[x].slug && r[y].slug == items[y].slug;
      }
    }
  }

  /** The articles. */
  class NewsStore {
    var items: map<string, Article>

    ghost predicate Valid()
      reads this
    {
      StoreValid(items)
    }

    constructor ()
      ensures Valid() && items == map[]
    {
      items := map[];
    }

    /** `News.create(...)` with a fresh id. */
    method Create(a: Article) returns (result: Result<Article, SaveError>)
      requires Valid() && a.id !in items
      modifies this
      ensures Valid()
      ensures Saved(items, result) == SaveNew(old(items), a)
    {
      SaveNewSpec(items, a);
      var s := SaveNew(items, a);
      items, result := s.items, s.result;
    }

    /** `News.updateMany(...)` clearing `isFeatured` except on `keep`. */
    method UnfeatureOthers(keep: Option<string>)
      requires Valid()
      modifies this
      ensures Valid()
      ensures items == Unfeature(old(items), keep)
    {
      UnfeatureKeepsValid(items, keep);
      items := Unfeature(items, keep);
    }

    /** `news.incrementViews()` */
    method IncrementViews(id: string)
      requires Valid() && id in items
      modifies this
      ensures Valid()
      ensures items == old(items)[id := WithView(old(items)[id])]
    {
      CountersKeepSchema(items[id], 0);
      items := items[id := WithView(items[id])];
    }

    /** `news.markAsIndexed()` at time `now` */
    method MarkAsIndexed(id: string, now: int)
      requires Valid() && id in items
      modifies this
      ensures Valid()
      ensures items == old(items)[id := MarkedIndexed(old(items)[id], now)]
    {
      CountersKeepSchema(items[id], now);
      items := items[id := MarkedIndexed(items[id], now)];
    }

    /** `news.markIndexingFailed()` */
    method MarkIndexingFailed(id: string)
      requires Valid() && id in items
      modifies this
      ensures Valid()
      ensures items == old(items)[id := MarkedFailed(old(items)[id])]
    {
      CountersKeepSchema(items[id], 0);
      items := items[id := MarkedFailed(items[id])];
    }

    /** `news.toggleLike(userId)`, and the like route's own copy of it:
        `indexOf`, then `push` or `splice`. Reports whether the user now
        likes the article. */
    method ToggleLike(id: string, user: string) returns (likedByUser: bool)
      requires Valid() && id in items
      modifies this
      ensures Valid()
      ensures items == old(items)[id := old(items)[id].(likes := ToggledLikes(old(items)[id].likes, user))]
      ensures likedByUser <==> user !in old(items)[id].likes
    {
      var a := items[id];
      var likedIndex := Seqs.IndexOf(a.likes, user);
      if likedIndex == -1 {
        a := a.(likes := a.likes + [user]);
        likedByUser := true;
      } else {
        a := a.(likes := a.likes[..likedIndex] + a.likes[likedIndex + 1..]);
        likedByUser := false;
      }
      items := items[id := a];
      assert SchemaValid(items[id]);
    }

    /** `News.findByIdAndUpdate(id, patch, ...)` */
    method FindByIdAndUpdate(id: string, p: Patch) returns (result: Result<Option<Article>, SaveError>)
      requires Valid()
      modifies this
      ensures Valid()
      ensures Updated(items, result) == UpdateById(old(items), id, p)
    {
      UpdateByIdSpec(items, id, p);
      var u := UpdateById(items, id, p);
      items, result := u.items, u.result;
    }

    /** `News.findByIdAndDelete(id)`: the removed article, or None. */
    method FindByIdAndDelete(id: string) returns (deleted: Option<Article>)
      requires Valid()
      modifies this
      ensures Valid()
      ensures id in old(items) ==> deleted == Some(old(items)[id]) && items == old(items) - {id}
      ensures id !in old(items) ==> deleted.None? && items == old(items)
    {
      if id in items {
        deleted := Some(items[id]);
        items := items - {id};
      } else {
        deleted := None;
      }
    }
  }
}
