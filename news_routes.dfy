/** The news routes (routes/news.js): boolean parsing of form fields,
    create, list, read, update, delete and the like toggle. A status the
    route sets itself (400, 404) is returned as an error code; a failed
    save reaches the error handler and is written 500. */
module NewsRoutes {
  import opened Wrappers
  import opened Js
  import Text
  import Seqs
  import opened NewsModel

  const TrueWords: seq<string> := ["true", "1", "yes", "on"]
  const FalseWords: seq<string> := ["false", "0", "no", "off", ""]

  /** `parseBoolean(value)` */
  function ParseBoolean(v: Value): bool {
    match v
    case Bool(b) => b
    case Num(n) => n == 1
    case NaN => false
    case Str(s) =>
      var t := Text.ToLower(Text.Trim(s));
      if t in TrueWords then true
      else if t in FalseWords then false
      else false
    case _ => false
  }

  /** Booleans pass through, a number is true only when it is 1, a string
      is true exactly when trimmed and lower-cased it is one of "true",
      "1", "yes", "on", and anything else is false. */
  lemma ParseBooleanSpec(v: Value)
    ensures v.Bool? ==> ParseBoolean(v) == v.b
    ensures v.Num? ==> (ParseBoolean(v) <==> v.n == 1)
    ensures v.Str? ==> (ParseBoolean(v) <==> Text.ToLower(Text.Trim(v.s)) in {"true", "1", "yes", "on"})
    ensures v.Undefined? || v.Null? || v.NaN? || v.Obj? ==> !ParseBoolean(v)
  {
  }

  /** Every character of a decimal numeral is a digit or the sign. */
  lemma NumeralChars(n: int)
    ensures forall k :: 0 <= k < |ToStr(Num(n))| ==> ToStr(Num(n))[k] == '-' || IsDigit(ToStr(Num(n))[k])
  {
    if n < 0 {
      var d := NatToDecimal(-n);
      assert ToStr(Num(n)) == "-" + d;
      assert forall k :: 1 <= k < |ToStr(Num(n))| ==> ToStr(Num(n))[k] == d[k - 1];
    }
  }

  /** The only numeral among the true words is "1". */
  lemma NumeralTrueWord(n: int)
    ensures ToStr(Num(n)) in TrueWords <==> n == 1
  {
    var s := ToStr(Num(n));
    NumeralChars(n);
    if s in TrueWords {
      assert s[0] == '-' || IsDigit(s[0]);
      assert s == "1";
      assert n >= 0;
      DecimalRoundTrip(n);
      assert DecimalToNat("1") == 1;
    }
  }

  /** A number and its decimal string parse alike. */
  lemma ParseBooleanNumeral(n: int)
    ensures ParseBoolean(Str(ToStr(Num(n)))) == ParseBoolean(Num(n))
  {
    var s := ToStr(Num(n));
    NumeralChars(n);
    Text.TrimNoWhitespace(s);
    assert Text.ToLower(s) == s;
    NumeralTrueWord(n);
  }

  /** `String(value)` as the schema casts a field to a string; an object
      or a missing value fails the cast. */
  function CastString(v: Value): Option<string> {
    match v
    case Str(s) => Some(s)
    case Num(_) => Some(ToStr(v))
    case Bool(_) => Some(ToStr(v))
    case NaN => Some(ToStr(v))
    case _ => None
  }

  datatype CreateBody = CreateBody(title: Value, content: Value, category: Option<string>, isFeatured: Value)

  /** `POST /`: the reply (the created article, or the status) and the
      articles afterwards. */
  function CreateSpec(items: map<string, Article>, body: CreateBody, imageUrl: Value, author: Value,
                      id: string, now: int): (r: (Result<Article, int>, map<string, Article>))
    requires id !in items
  {
    if !Truthy(body.title) || !Truthy(body.content) then (Err(400), items)
    else
      CreateChecked(items, CastString(body.title), CastString(body.content), body.category,
        ParseBoolean(body.isFeatured), imageUrl, author, id, now)
  }

  /** What `POST /` does once the title and content are present: clear
      the featured flags when asked to feature, cast the fields, save. */
  function CreateChecked(items: map<string, Article>, title: Option<string>, content: Option<string>,
                         category: Option<string>, featured: bool, imageUrl: Value, author: Value,
                         id: string, now: int): (r: (Result<Article, int>, map<string, Article>))
    requires id !in items
  {
    var cleared := if featured then Unfeature(items, None) else items;
    if title.None? || content.None? then (Err(500), cleared)
    else
      var s := SaveNew(cleared, NewArticle(id, title.value, content.value, category, imageUrl, author, featured, now));
      (if s.result.Ok? then Ok(s.result.value) else Err(500), s.items)
  }

  /** A missing or empty title or content answers 400 and changes
      nothing; every reply leaves the store valid. */
  lemma CreateRejects(items: map<string, Article>, body: CreateBody, imageUrl: Value, author: Value, id: string, now: int)
    requires StoreValid(items) && id !in items
    ensures StoreValid(CreateSpec(items, body, imageUrl, author, id, now).1)
    ensures CreateSpec(items, body, imageUrl, author, id, now).0 == Err(400) <==> !Truthy(body.title) || !Truthy(body.content)
    ensures CreateSpec(items, body, imageUrl, author, id, now).0 == Err(400) ==>
      CreateSpec(items, body, imageUrl, author, id, now).1 == items
  {
    if Truthy(body.title) && Truthy(body.content) {
      CreateCheckedSpec(items, CastString(body.title), CastString(body.content), body.category,
        ParseBoolean(body.isFeatured), imageUrl, author, id, now);
    }
  }

  /** Past the 400 check the store stays valid and the reply is never 400;
      a created article is stored under its id with the trimmed title and
      the requested featured flag, and when featured it is the only
      featured article. */
  lemma CreateCheckedSpec(items: map<string, Article>, title: Option<string>, content: Option<string>,
                          category: Option<string>, featured: bool, imageUrl: Value, author: Value,
                          id: string, now: int)
    requires StoreValid(items) && id !in items
    ensures var (reply, after) := CreateChecked(items, title, content, category, featured, imageUrl, author, id, now);
      && StoreValid(after)
      && reply != Err(400)
      && (reply.Ok? ==>
            title.Some? && id in after && after[id] == reply.value
            && reply.value.isFeatured == featured && reply.value.title == Text.Trim(title.value)
            && (featured ==> forall o :: o in after && after[o].isFeatured ==> o == id))
  {
    var cleared := if featured then Unfeature(items, None) else items;
    UnfeatureKeepsValid(items, None);
    if title.Some? && content.Some? {
      SaveNewSpec(cleared, NewArticle(id, title.value, content.value, category, imageUrl, author, featured, now));
    }
  }

  /** A featured request clears the flag on every other article, whether
      or not the save then succeeds. */
  lemma CreateCheckedClears(items: map<string, Article>, title: Option<string>, content: Option<string>,
                            category: Option<string>, imageUrl: Value, author: Value, id: string, now: int)
    requires StoreValid(items) && id !in items
    ensures var after := CreateChecked(items, title, content, category, true, imageUrl, author, id, now).1;
      forall o :: o in after && o != id ==> !after[o].isFeatured
  {
    var cleared := Unfeature(items, None);
    var after := CreateChecked(items, title, content, category, true, imageUrl, author, id, now).1;
    UnfeatureKeepsValid(items, None);
    if title.Some? && content.Some? {
      var a := NewArticle(id, title.value, content.value, category, imageUrl, author, true, now);
      var saved := SaveNew(cleared, a);
      assert after == saved.items;
      SaveNewSpec(cleared, a);
      if saved.result.Ok? {
        assert a.isFeatured;
      } else if saved.result.error == ValidationError {
        assert after == cleared;
      }
    } else {
      assert after == cleared;
    }
  }

  /** The route's create, in the request's terms. */
  lemma CreatedArticle(items: map<string, Article>, body: CreateBody, imageUrl: Value, author: Value, id: string, now: int)
    requires StoreValid(items) && id !in items
    requires CreateSpec(items, body, imageUrl, author, id, now).0.Ok?
    ensures var (reply, after) := CreateSpec(items, body, imageUrl, author, id, now);
      && id in after && after[id] == reply.value
      && reply.value.isFeatured == ParseBoolean(body.isFeatured)
      && reply.value.title == Text.Trim(CastString(body.title).value)
      && (reply.value.isFeatured ==> forall o :: o in after && after[o].isFeatured ==> o == id)
  {
    CreateCheckedSpec(items, CastString(body.title), CastString(body.content), body.category,
      ParseBoolean(body.isFeatured), imageUrl, author, id, now);
  }

  /** A featured request that passes the 400 check clears the flag on
      every other article, whether or not the save then succeeds. */
  lemma CreateFeaturedClearsOthers(items: map<string, Article>, body: CreateBody, imageUrl: Value, author: Value, id: string, now: int)
    requires StoreValid(items) && id !in items
    requires Truthy(body.title) && Truthy(body.content) && ParseBoolean(body.isFeatured)
    ensures var after := CreateSpec(items, body, imageUrl, author, id, now).1;
      forall o :: o in after && o != id ==> !after[o].isFeatured
  {
    CreateCheckedClears(items, CastString(body.title), CastString(body.content), body.category, imageUrl, author, id, now);
  }

  /** `POST /` on the store. */
  method CreateNews(store: NewsStore, body: CreateBody, imageUrl: Value, author: Value, id: string, now: int)
    returns (reply: Result<Article, int>)
    requires store.Valid() && id !in store.items
    modifies store
    ensures store.Valid()
    ensures (reply, store.items) == CreateSpec(old(store.items), body, imageUrl, author, id, now)
  {
    if !Truthy(body.title) || !Truthy(body.content) {
      return Err(400);
    }
    reply := CreateCheckedOn(store, CastString(body.title), CastString(body.content), body.category,
      ParseBoolean(body.isFeatured), imageUrl, author, id, now);
  }

  /** `POST /` on the store past the 400 check. */
  method CreateCheckedOn(store: NewsStore, title: Option<string>, content: Option<string>,
                         category: Option<string>, featured: bool, imageUrl: Value, author: Value,
                         id: string, now: int)
    returns (reply: Result<Article, int>)
    requires store.Valid() && id !in store.items
    modifies store
    ensures store.Valid()
    ensures (reply, store.items) == CreateChecked(old(store.items), title, content, category, featured, imageUrl, author, id, now)
  {
    if featured {
      store.UnfeatureOthers(None);
    }
    if title.None? || content.None? {
      return Err(500);
    }
    var result := store.Create(NewArticle(id, title.value, content.value, category, imageUrl, author, featured, now));
    reply := if result.Ok? then Ok(result.value) else Err(500);
  }

  /** An article as the list and read routes show it. */
  datatype ArticleView = ArticleView(article: Article, likesCount: nat, likedByUser: bool)

  /** `likedByUser` for `req.user?.id || null`. */
  predicate LikedBy(a: Article, userId: Value) {
    var id := Or(userId, Null);
    Truthy(id) && id.Str? && id.s in a.likes
  }

  function View(a: Article, userId: Value): ArticleView {
    ArticleView(a, |a.likes|, LikedBy(a, userId))
  }

  /** `GET /`: every article, newest first, with its like count and
      whether the caller likes it. */
  function ListNews(articles: seq<Article>, userId: Value): seq<ArticleView> {
    var sorted := Seqs.SortDesc(CreatedAt, articles);
    seq(|sorted|, i requires 0 <= i < |sorted| => View(sorted[i], userId))
  }

  /** The list holds every article once, newest first; each count is the
      length of its likes; with no signed-in user nothing is liked. */
  lemma ListNewsSpec(articles: seq<Article>, userId: Value)
    ensures var out := ListNews(articles, userId);
      && |out| == |articles|
      && multiset(seq(|out|, i requires 0 <= i < |out| => out[i].article)) == multiset(articles)
      && (forall i, j :: 0 <= i < j < |out| ==> out[i].article.createdAt >= out[j].article.createdAt)
      && (forall i :: 0 <= i < |out| ==> out[i].likesCount == |out[i].article.likes|)
      && (!Truthy(userId) ==> forall i :: 0 <= i < |out| ==> !out[i].likedByUser)
  {
    var sorted := Seqs.SortDesc(CreatedAt, articles);
    var out := ListNews(articles, userId);
    assert seq(|out|, i requires 0 <= i < |out| => out[i].article) == sorted;
  }

  predicate IsHexDigit(c: char) {
    ('0' <= c <= '9') || ('a' <= c <= 'f') || ('A' <= c <= 'F')
  }

  /** A path id the driver can cast to an ObjectId: 24 hexadecimal
      characters. Any other id makes the query throw a cast error before
      it reaches the collection. */
  predicate IsObjectId(id: string) {
    |id| == 24 && forall k :: 0 <= k < |id| ==> IsHexDigit(id[k])
  }

  /** The status the error handler writes for an error thrown without a
      status set on the response (middlewares/errorHandler.js is not part
      of this model; this is Express's default). */
  const HandlerStatus := 500

  /** `GET /:id` */
  function GetNews(items: map<string, Article>, id: string, userId: Value): (r: Result<ArticleView, int>)
    ensures !IsObjectId(id) ==> r == Err(HandlerStatus)
    ensures IsObjectId(id) ==> (r.Err? <==> id !in items)
    ensures IsObjectId(id) && r.Err? ==> r.error == 404
    ensures r.Ok? ==>
      id in items && r.value.article == items[id] && r.value.likesCount == |items[id].likes|
      && (r.value.likedByUser <==> Truthy(userId) && userId.Str? && userId.s in items[id].likes)
  {
    if !IsObjectId(id) then Err(HandlerStatus)
    else if id !in items then Err(404) else Ok(View(items[id], userId))
  }

  datatype UpdateBody = UpdateBody(title: Option<string>, content: Option<string>, category: Option<string>, isFeatured: Value)

  /** The update document built from the body and the uploaded file. */
  function UpdateDocument(body: UpdateBody, imageUrl: Option<Value>): (p: Patch)
    ensures body.isFeatured.Undefined? <==> p.isFeatured.None?
    ensures p.isFeatured.Some? ==> p.isFeatured.value == ParseBoolean(body.isFeatured)
  {
    Patch(body.title, body.content, body.category,
      if body.isFeatured.Undefined? then None else Some(ParseBoolean(body.isFeatured)),
      imageUrl)
  }

  /** `PUT /:id` on the store: an id that is not an ObjectId makes the
      first query throw, so nothing changes and the error handler answers;
      otherwise a request that features the article first clears the flag
      on every other article, before the id is even looked up; then the
      update, 404 for an unknown id. */
  method UpdateNews(store: NewsStore, id: string, body: UpdateBody, imageUrl: Option<Value>)
    returns (reply: Result<Article, int>)
    requires store.Valid()
    modifies store
    ensures store.Valid()
    ensures !IsObjectId(id) ==> reply == Err(HandlerStatus) && store.items == old(store.items)
    ensures IsObjectId(id) ==>
      var patch := UpdateDocument(body, imageUrl);
      var cleared := if patch.isFeatured == Some(true) then Unfeature(old(store.items), Some(id)) else old(store.items);
      var u := UpdateById(cleared, id, patch);
      && store.items == u.items
      && reply == match u.result
         case Ok(Some(a)) => Ok(a)
         case Ok(None) => Err(404)
         case Err(_) => Err(500)
    ensures IsObjectId(id) && id !in old(store.items) ==> reply == Err(404)
  {
    if !IsObjectId(id) {
      return Err(HandlerStatus);
    }
    var patch := UpdateDocument(body, imageUrl);
    if patch.isFeatured == Some(true) {
      store.UnfeatureOthers(Some(id));
    }
    var updated := store.FindByIdAndUpdate(id, patch);
    reply := match updated
      case Ok(Some(a)) => Ok(a)
      case Ok(None) => Err(404)
      case Err(_) => Err(500);
  }

  /** An update that asks to feature an unknown, well-formed id answers
      404 and yet leaves no article featured (a malformed id changes
      nothing at all, as UpdateNews states); an update
      that features a known article succeeds whenever the patched article
      is valid, and then it is the only featured one. */
  lemma UpdateFeaturing(items: map<string, Article>, id: string, body: UpdateBody, imageUrl: Option<Value>)
    requires StoreValid(items) && ParseBoolean(body.isFeatured) && !body.isFeatured.Undefined?
    ensures var cleared := Unfeature(items, Some(id));
      var u := UpdateById(cleared, id, UpdateDocument(body, imageUrl));
      && (IsObjectId(id) && id !in items ==> u.result == Ok(None) && forall o :: o in u.items ==> !u.items[o].isFeatured)
      && (IsObjectId(id) && id in items && SchemaValid(Patched(items[id], UpdateDocument(body, imageUrl))) ==>
            u.result.Ok? && forall o :: o in u.items && u.items[o].isFeatured ==> o == id)
  {
    var cleared := Unfeature(items, Some(id));
    UnfeatureKeepsValid(items, Some(id));
    var patch := UpdateDocument(body, imageUrl);
    UpdateByIdSpec(cleared, id, patch);
    if id in items {
      assert Patched(cleared[id], patch) == Patched(items[id], patch).(isFeatured := true);
    }
  }

  /** `DELETE /:id`: the error handler's status for a malformed id, 404
      for an unknown one. */
  method DeleteNews(store: NewsStore, id: string) returns (reply: Result<(), int>)
    requires store.Valid()
    modifies store
    ensures store.Valid()
    ensures reply.Err? <==> !IsObjectId(id) || id !in old(store.items)
    ensures reply.Err? ==> store.items == old(store.items)
    ensures reply.Err? ==> reply.error == if IsObjectId(id) then 404 else HandlerStatus
    ensures reply.Ok? ==> store.items == old(store.items) - {id}
  {
    if !IsObjectId(id) {
      return Err(HandlerStatus);
    }
    var deleted := store.FindByIdAndDelete(id);
    if deleted.None? {
      return Err(404);
    }
    return Ok(());
  }

  datatype LikeReply = LikeReply(likesCount: nat, likedByUser: bool)

  /** `POST /:id/like`: the error handler's status for a malformed id, 404
      for an unknown one; otherwise the user's like is toggled and the
      reply gives the new count and whether the user now likes the
      article. */
  method LikeNews(store: NewsStore, id: string, user: string) returns (reply: Result<LikeReply, int>)
    requires store.Valid()
    modifies store
    ensures store.Valid()
    ensures reply.Err? <==> !IsObjectId(id) || id !in old(store.items)
    ensures reply.Err? ==> store.items == old(store.items)
    ensures reply.Err? ==> reply.error == if IsObjectId(id) then 404 else HandlerStatus
    ensures reply.Ok? ==>
      var likes := ToggledLikes(old(store.items)[id].likes, user);
      && store.items == old(store.items)[id := old(store.items)[id].(likes := likes)]
      && reply.value == LikeReply(|likes|, user !in old(store.items)[id].likes)
  {
    if !IsObjectId(id) {
      return Err(HandlerStatus);
    }
    if id !in store.items {
      return Err(404);
    }
    var likedByUser := store.ToggleLike(id, user);
    reply := Ok(LikeReply(|store.items[id].likes|, likedByUser));
  }
}
