/** The sitemap routes (routes/sitemap.js): the sitemap index, the static
    urlset, and the news, matches, teams and players urlsets, following the
    Sitemaps protocol (sitemaps.org, schema 0.9) and Google's image
    extension. A urlset is built as a sequence of entries and then written
    as XML; the reader beside the writer shows that every entry, in order,
    can be read back from the text. Dates are timestamps, written by a
    formatter the caller supplies (`toISOString`). */
module Sitemap {
  import opened Wrappers
  import opened Js
  import Text
  import Seqs
  import NewsModel

  const BaseUrl: string := "https://mal3abak.com"

  /** The child sitemaps the index lists, in order. */
  const Children: seq<string> := ["static", "news", "matches", "teams", "players"]

  const NewsLimit: int := 1000

  // ---------------------------------------------------------------------
  // Entries

  datatype Freq = Hourly | Daily | Weekly

  /** A priority in tenths: 10 is "1.0", 9 is "0.9". */
  type Priority = p: nat | p <= 10

  datatype Image = Image(loc: string, caption: string)

  datatype UrlEntry = UrlEntry(loc: string, lastmod: Option<string>, changefreq: Freq, priority: Priority, image: Option<Image>)

  /** The five fixed pages of the static urlset. */
  const StaticEntries: seq<UrlEntry> := [
    UrlEntry(BaseUrl + "/", None, Daily, 10, None),
    UrlEntry(BaseUrl + "/news", None, Hourly, 9, None),
    UrlEntry(BaseUrl + "/matches", None, Hourly, 9, None),
    UrlEntry(BaseUrl + "/teams", None, Weekly, 8, None),
    UrlEntry(BaseUrl + "/players", None, Weekly, 8, None)
  ]

  /** The index's children: `base/sitemaps/<name>.xml`. */
  function IndexLocs(): (locs: seq<string>)
    ensures |locs| == |Children|
  {
    seq(|Children|, i requires 0 <= i < |Children| => BaseUrl + "/sitemaps/" + Children[i] + ".xml")
  }

  // ---------------------------------------------------------------------
  // Text and tokens

  /** A document's text cut at its angle brackets: markup between `<`
      and `>`, and the characters between markups. */
  datatype Token = Markup(m: string) | Chars(t: string)

  function RenderToken(k: Token): string {
    match k
    case Markup(m) => "<" + m + ">"
    case Chars(t) => t
  }

  function RenderTokens(ks: seq<Token>): string {
    if ks == [] then "" else RenderToken(ks[0]) + RenderTokens(ks[1..])
  }

  /** Cuts a text into tokens: markup runs from `<` to the next `>`,
      characters up to the next `<`. */
  function Lex(s: string): seq<Token>
    decreases |s|
  {
    if s == [] then []
    else if s[0] == '<' then
      var j := Text.IndexOf(s[1..], '>');
      if j == |s| - 1 then [Markup(s[1..])]
      else [Markup(s[1..j + 1])] + Lex(s[j + 2..])
    else
      var i := Text.IndexOf(s, '<');
      [Chars(s[..i])] + Lex(s[i..])
  }

  /** Text that needs no escaping to stand between two tags. */
  predicate TagFree(t: string) {
    '<' !in t
  }

  /** Non-empty text that needs no escaping. */
  predicate Plain(t: string) {
    t != [] && TagFree(t)
  }

  /** Tokens that lex back as themselves: markup without `>`; characters
      non-empty, tag-free and followed by markup. */
  predicate TokensWellFormed(ks: seq<Token>) {
    && (forall i :: 0 <= i < |ks| && ks[i].Markup? ==> '>' !in ks[i].m)
    && (forall i :: 0 <= i < |ks| && ks[i].Chars? ==>
          ks[i].t != [] && TagFree(ks[i].t) && i + 1 < |ks| && ks[i + 1].Markup?)
  }

  lemma {:induction false} IndexOfAt(a: string, c: char, b: string)
    requires c !in a && b != [] && b[0] == c
    ensures Text.IndexOf(a + b, c) == |a|
  {
    if a != [] {
      IndexOfAt(a[1..], c, b);
      assert (a + b)[1..] == a[1..] + b;
    }
  }

  lemma LexMarkup(m: string, rest: string)
    requires '>' !in m
    ensures Lex(RenderToken(Markup(m)) + rest) == [Markup(m)] + Lex(rest)
  {
    var s := RenderToken(Markup(m)) + rest;
    assert s[1..] == m + (">" + rest);
    IndexOfAt(m, '>', ">" + rest);
    assert s[1..|m| + 1] == m;
    assert s[|m| + 2..] == rest;
  }

  lemma LexChars(t: string, rest: string)
    requires t != [] && TagFree(t) && rest != [] && rest[0] == '<'
    ensures Lex(t + rest) == [Chars(t)] + Lex(rest)
  {
    var s := t + rest;
    assert s[0] == t[0];
    IndexOfAt(t, '<', rest);
    assert s[..|t|] == t && s[|t|..] == rest;
  }

  /** Lexing the text of well-formed tokens gives the tokens back. */
  lemma {:induction false} LexRender(ks: seq<Token>)
    requires TokensWellFormed(ks)
    ensures Lex(RenderTokens(ks)) == ks
  {
    if ks != [] {
      var k, rest := ks[0], ks[1..];
      assert RenderTokens(ks) == RenderToken(k) + RenderTokens(rest);
      assert TokensWellFormed(rest) by { WellFormedTail(ks); }
      LexRender(rest);
      if k.Markup? {
        assert '>' !in k.m;
        LexMarkup(k.m, RenderTokens(rest));
      } else {
        assert k.t != [] && TagFree(k.t) && rest != [] && rest[0].Markup?;
        assert RenderTokens(rest) == "<" + rest[0].m + ">" + RenderTokens(rest[1..]);
        LexChars(k.t, RenderTokens(rest));
      }
      assert [k] + rest == ks;
    }
  }

  /** The tokens after the first of a well-formed list are well formed. */
  lemma WellFormedTail(ks: seq<Token>)
    requires ks != [] && TokensWellFormed(ks)
    ensures TokensWellFormed(ks[1..])
  {
    var rest := ks[1..];
    forall i | 0 <= i < |rest| ensures rest[i] == ks[i + 1] { }
  }

  // ---------------------------------------------------------------------
  // Documents

  /** The elements the routes write. */
  datatype Tag =
    | UrlsetTag | IndexTag | SitemapTag | UrlTag | LocTag | LastmodTag
    | ChangefreqTag | PriorityTag | ImageTag | ImageLocTag | ImageCaptionTag

  /** A document as a sequence of pieces: the XML declaration, the start
      tag of the root element with its namespaces (`images` declares the
      image namespace), other start and end tags, and character data. */
  datatype Piece = Decl | Root(images: bool) | IndexRoot | Start(tag: Tag) | End(tag: Tag) | CharData(t: string)

  function TagName(g: Tag): string {
    match g
    case UrlsetTag => "urlset"
    case IndexTag => "sitemapindex"
    case SitemapTag => "sitemap"
    case UrlTag => "url"
    case LocTag => "loc"
    case LastmodTag => "lastmod"
    case ChangefreqTag => "changefreq"
    case PriorityTag => "priority"
    case ImageTag => "image:image"
    case ImageLocTag => "image:loc"
    case ImageCaptionTag => "image:caption"
  }

  const XmlDecl: string := "?xml version=\"1.0\" encoding=\"UTF-8\"?"
  const SitemapNs: string := "http://www.sitemaps.org" + "/schemas/sitemap/0.9"
  const ImageNs: string := "http://www.google.com" + "/schemas/sitemap-image/1.1"
  const UrlsetOpen: string := "urlset xmlns=\"" + SitemapNs + "\""
  const ImageUrlsetOpen: string := UrlsetOpen + " xmlns:image=\"" + ImageNs + "\""
  const IndexOpen: string := "sitemapindex xmlns=\"" + SitemapNs + "\""

  function TokenOf(p: Piece): Token {
    match p
    case Decl => Markup(XmlDecl)
    case Root(images) => Markup(if images then ImageUrlsetOpen else UrlsetOpen)
    case IndexRoot => Markup(IndexOpen)
    case Start(g) => Markup(TagName(g))
    case End(g) => Markup("/" + TagName(g))
    case CharData(t) => Chars(t)
  }

  function Tokens(ps: seq<Piece>): (ks: seq<Token>)
    ensures |ks| == |ps| && forall i :: 0 <= i < |ps| ==> ks[i] == TokenOf(ps[i])
  {
    seq(|ps|, i requires 0 <= i < |ps| => TokenOf(ps[i]))
  }

  /** The text of a document. */
  function Render(ps: seq<Piece>): string {
    RenderTokens(Tokens(ps))
  }

  /** The element a name stands for. */
  function NamedTag(name: string): Option<Tag> {
    if name == "urlset" then Some(UrlsetTag)
    else if name == "sitemapindex" then Some(IndexTag)
    else if name == "sitemap" then Some(SitemapTag)
    else if name == "url" then Some(UrlTag)
    else if name == "loc" then Some(LocTag)
    else if name == "lastmod" then Some(LastmodTag)
    else if name == "changefreq" then Some(ChangefreqTag)
    else if name == "priority" then Some(PriorityTag)
    else if name == "image:image" then Some(ImageTag)
    else if name == "image:loc" then Some(ImageLocTag)
    else if name == "image:caption" then Some(ImageCaptionTag)
    else None
  }

  /** The piece a token stands for, if any. */
  function PieceOf(k: Token): Option<Piece> {
    match k
    case Chars(t) => Some(CharData(t))
    case Markup(m) =>
      if m == XmlDecl then Some(Decl)
      else if m == UrlsetOpen then Some(Root(false))
      else if m == ImageUrlsetOpen then Some(Root(true))
      else if m == IndexOpen then Some(IndexRoot)
      else if m != [] && m[0] == '/' then
        var g :- NamedTag(m[1..]);
        Some(End(g))
      else
        var g :- NamedTag(m);
        Some(Start(g))
  }

  /** Reads the pieces of a text. */
  function Pieces(x: string): Option<seq<Piece>> {
    Seqs.MapPartial(PieceOf, Lex(x))
  }

  /** Pieces whose text reads back as them: character data non-empty,
      tag-free and followed by a tag. */
  predicate WellFormed(ps: seq<Piece>) {
    forall i :: 0 <= i < |ps| && ps[i].CharData? ==>
      Plain(ps[i].t) && i + 1 < |ps| && !ps[i + 1].CharData?
  }

  lemma WellFormedConcat(a: seq<Piece>, b: seq<Piece>)
    requires WellFormed(a) && WellFormed(b)
    ensures WellFormed(a + b)
  {
    var ab := a + b;
    forall i | 0 <= i < |ab| && ab[i].CharData?
      ensures i + 1 < |ab| && !ab[i + 1].CharData?
    {
      if i < |a| {
        assert ab[i] == a[i];
        assert ab[i + 1] == a[i + 1];
      } else {
        assert ab[i] == b[i - |a|];
        assert ab[i + 1] == b[i + 1 - |a|];
      }
    }
  }

  lemma NamedTagOf(g: Tag)
    ensures NamedTag(TagName(g)) == Some(g)
    ensures 0 < |TagName(g)| < 15 && TagName(g)[0] != '/' && '>' !in TagName(g)
  {
  }

  lemma SitemapNsNoClose()
    ensures '>' !in SitemapNs
  {
    assert '>' !in "http://www.sitemaps.org";
    assert '>' !in "/schemas/sitemap/0.9";
  }

  lemma ImageNsNoClose()
    ensures '>' !in ImageNs
  {
    assert '>' !in "http://www.google.com";
    assert '>' !in "/schemas/sitemap-image/1.1";
  }

  lemma HeadersNoClose()
    ensures '>' !in XmlDecl && '>' !in UrlsetOpen && '>' !in ImageUrlsetOpen && '>' !in IndexOpen
    ensures |XmlDecl| > 15 && |UrlsetOpen| > 15 && |ImageUrlsetOpen| > 15 && |IndexOpen| > 15
  {
    SitemapNsNoClose();
    ImageNsNoClose();
    assert '>' !in "urlset xmlns=\"" && '>' !in "\"";
    assert '>' !in " xmlns:image=\"";
    assert '>' !in "sitemapindex xmlns=\"";
  }

  /** Each piece is read back from its token. */
  lemma PieceOfToken(p: Piece)
    ensures PieceOf(TokenOf(p)) == Some(p)
  {
    HeadersNoClose();
    match p
    case Decl =>
    case Root(_) =>
    case IndexRoot =>
    case CharData(_) =>
    case Start(g) =>
      NamedTagOf(g);
    case End(g) =>
      NamedTagOf(g);
      var m := "/" + TagName(g);
      assert m[0] == '/' && m[1..] == TagName(g);
  }

  lemma TokensOfWellFormed(ps: seq<Piece>)
    requires WellFormed(ps)
    ensures TokensWellFormed(Tokens(ps))
  {
    var ks := Tokens(ps);
    forall i | 0 <= i < |ks| && ks[i].Markup? ensures '>' !in ks[i].m {
      HeadersNoClose();
      if ps[i].Start? || ps[i].End? {
        NamedTagOf(ps[i].tag);
      }
    }
  }

  lemma PiecesOfTokens(ps: seq<Piece>)
    ensures Seqs.MapPartial(PieceOf, Tokens(ps)) == Some(ps)
  {
    var ks := Tokens(ps);
    forall i | 0 <= i < |ks| ensures PieceOf(ks[i]) == Some(ps[i]) {
      PieceOfToken(ps[i]);
    }
    Seqs.MapPartialSpec(PieceOf, ks);
    assert !exists i :: 0 <= i < |ks| && PieceOf(ks[i]).None?;
    assert Seqs.MapPartial(PieceOf, ks).Some?;
    var v := Seqs.MapPartial(PieceOf, ks).value;
    assert |v| == |ps|;
    assert forall i :: 0 <= i < |v| ==> v[i] == ps[i];
    assert v == ps;
    assert Seqs.MapPartial(PieceOf, ks) == Some(ps);
  }

  /** The text of well-formed pieces reads back as the pieces. */
  lemma PiecesOfRender(ps: seq<Piece>)
    requires WellFormed(ps)
    ensures Pieces(Render(ps)) == Some(ps)
  {
    TokensOfWellFormed(ps);
    LexRender(Tokens(ps));
    PiecesOfTokens(ps);
  }

  // ---------------------------------------------------------------------
  // Writing

  function FreqText(f: Freq): string {
    match f
    case Hourly => "hourly"
    case Daily => "daily"
    case Weekly => "weekly"
  }

  function PriorityText(p: Priority): string {
    if p == 10 then "1.0" else "0." + [DigitChar(p)]
  }

  /** `<name>text</name>` */
  function Elem(g: Tag, t: string): seq<Piece> {
    [Start(g), CharData(t), End(g)]
  }

  function LastmodPieces(lastmod: Option<string>): seq<Piece> {
    if lastmod.Some? then Elem(LastmodTag, lastmod.value) else []
  }

  function ImagePieces(image: Option<Image>): seq<Piece> {
    if image.Some? then
      [Start(ImageTag)] + Elem(ImageLocTag, image.value.loc) + Elem(ImageCaptionTag, image.value.caption) + [End(ImageTag)]
    else []
  }

  /** `<url>`, then the fields of the entry, then `</url>`. */
  function UrlPieces(e: UrlEntry): seq<Piece> {
    [Start(UrlTag)] + FieldPieces(e)
  }

  function FieldPieces(e: UrlEntry): seq<Piece> {
    Elem(LocTag, e.loc) + LastmodPieces(e.lastmod) + TailPieces(e)
  }

  function TailPieces(e: UrlEntry): seq<Piece> {
    Elem(ChangefreqTag, FreqText(e.changefreq)) + EndPieces(e)
  }

  function EndPieces(e: UrlEntry): seq<Piece> {
    Elem(PriorityTag, PriorityText(e.priority)) + ImagePieces(e.image) + [End(UrlTag)]
  }

  function UrlsPieces(es: seq<UrlEntry>): seq<Piece> {
    if es == [] then [] else UrlPieces(es[0]) + UrlsPieces(es[1..])
  }

  /** A urlset document; `images` declares the image namespace. */
  function UrlsetPieces(es: seq<UrlEntry>, images: bool): seq<Piece> {
    [Decl, Root(images)] + UrlsPieces(es) + [End(UrlsetTag)]
  }

  function UrlsetXml(es: seq<UrlEntry>, images: bool): string {
    Render(UrlsetPieces(es, images))
  }

  function SitemapsPieces(locs: seq<string>): seq<Piece> {
    if locs == [] then [] else [Start(SitemapTag)] + Elem(LocTag, locs[0]) + [End(SitemapTag)] + SitemapsPieces(locs[1..])
  }

  /** A sitemap index document. */
  function IndexPieces(locs: seq<string>): seq<Piece> {
    [Decl, IndexRoot] + SitemapsPieces(locs) + [End(IndexTag)]
  }

  function IndexXml(locs: seq<string>): string {
    Render(IndexPieces(locs))
  }

  // ---------------------------------------------------------------------
  // Reading

  function ReadElem(ps: seq<Piece>, g: Tag): (r: Option<(string, seq<Piece>)>)
    ensures r.Some? ==> |r.value.1| < |ps|
  {
    if |ps| >= 3 && ps[0] == Start(g) && ps[1].CharData? && ps[2] == End(g) then Some((ps[1].t, ps[3..]))
    else None
  }

  function OptionalElem(ps: seq<Piece>, g: Tag): (r: Option<(Option<string>, seq<Piece>)>)
    ensures r.Some? ==> |r.value.1| <= |ps|
  {
    if ps != [] && ps[0] == Start(g) then
      var t :- ReadElem(ps, g);
      Some((Some(t.0), t.1))
    else Some((None, ps))
  }

  function FreqOf(t: string): Option<Freq> {
    if t == "hourly" then Some(Hourly)
    else if t == "daily" then Some(Daily)
    else if t == "weekly" then Some(Weekly)
    else None
  }

  function PriorityOf(t: string): Option<Priority> {
    if t == "1.0" then Some(10)
    else if |t| == 3 && t[0] == '0' && t[1] == '.' && IsDigit(t[2]) then Some(t[2] as int - '0' as int)
    else None
  }

  function OptionalImage(ps: seq<Piece>): (r: Option<(Option<Image>, seq<Piece>)>)
    ensures r.Some? ==> |r.value.1| <= |ps|
  {
    if ps != [] && ps[0] == Start(ImageTag) then
      var l :- ReadElem(ps[1..], ImageLocTag);
      var c :- ReadElem(l.1, ImageCaptionTag);
      if c.1 != [] && c.1[0] == End(ImageTag) then Some((Some(Image(l.0, c.0)), c.1[1..])) else None
    else Some((None, ps))
  }

  function ReadUrl(ps: seq<Piece>): (r: Option<(UrlEntry, seq<Piece>)>)
    ensures r.Some? ==> |r.value.1| < |ps|
  {
    if ps == [] || ps[0] != Start(UrlTag) then None else ReadFields(ps[1..])
  }

  /** The fields of a `<url>` element and its end tag. */
  function ReadFields(ps: seq<Piece>): (r: Option<(UrlEntry, seq<Piece>)>)
    ensures r.Some? ==> |r.value.1| < |ps|
  {
    var loc :- ReadElem(ps, LocTag);
    var lastmod :- OptionalElem(loc.1, LastmodTag);
    ReadTail(loc.0, lastmod.0, lastmod.1)
  }

  function ReadTail(loc: string, lastmod: Option<string>, ps: seq<Piece>): (r: Option<(UrlEntry, seq<Piece>)>)
    ensures r.Some? ==> |r.value.1| < |ps|
  {
    var freq :- ReadElem(ps, ChangefreqTag);
    var f :- FreqOf(freq.0);
    ReadEnd(loc, lastmod, f, freq.1)
  }

  function ReadEnd(loc: string, lastmod: Option<string>, f: Freq, ps: seq<Piece>): (r: Option<(UrlEntry, seq<Piece>)>)
    ensures r.Some? ==> |r.value.1| < |ps|
  {
    var prio :- ReadElem(ps, PriorityTag);
    var p :- PriorityOf(prio.0);
    var img :- OptionalImage(prio.1);
    if img.1 != [] && img.1[0] == End(UrlTag) then Some((UrlEntry(loc, lastmod, f, p, img.0), img.1[1..]))
    else None
  }

  /** Reads `<url>` elements for as long as the next piece opens one. */
  function ReadUrls(ps: seq<Piece>): Option<(seq<UrlEntry>, seq<Piece>)>
    decreases |ps|
  {
    if ps != [] && ps[0] == Start(UrlTag) then
      var e :- ReadUrl(ps);
      var more :- ReadUrls(e.1);
      Some(([e.0] + more.0, more.1))
    else Some(([], ps))
  }

  /** The entries of a whole urlset document, if it is one. */
  function ReadUrlset(x: string, images: bool): Option<seq<UrlEntry>> {
    var ps :- Pieces(x);
    if |ps| >= 2 && ps[0] == Decl && ps[1] == Root(images) then
      var body :- ReadUrls(ps[2..]);
      if body.1 == [End(UrlsetTag)] then Some(body.0) else None
    else None
  }

  function ReadSitemaps(ps: seq<Piece>): Option<(seq<string>, seq<Piece>)>
    decreases |ps|
  {
    if ps != [] && ps[0] == Start(SitemapTag) then
      var loc :- ReadElem(ps[1..], LocTag);
      if loc.1 != [] && loc.1[0] == End(SitemapTag) then
        var more :- ReadSitemaps(loc.1[1..]);
        Some(([loc.0] + more.0, more.1))
      else None
    else Some(([], ps))
  }

  /** The child locations of a sitemap index document, if it is one. */
  function ReadIndex(x: string): Option<seq<string>> {
    var ps :- Pieces(x);
    if |ps| >= 2 && ps[0] == Decl && ps[1] == IndexRoot then
      var body :- ReadSitemaps(ps[2..]);
      if body.1 == [End(IndexTag)] then Some(body.0) else None
    else None
  }

  // ---------------------------------------------------------------------
  // Round trips

  /** An entry whose texts can be written as they are. */
  predicate EntryPlain(e: UrlEntry) {
    && Plain(e.loc)
    && (e.lastmod.Some? ==> Plain(e.lastmod.value))
    && (e.image.Some? ==> Plain(e.image.value.loc) && Plain(e.image.value.caption))
  }

  lemma ReadElemOf(g: Tag, t: string, rest: seq<Piece>)
    ensures ReadElem(Elem(g, t) + rest, g) == Some((t, rest))
  {
    assert (Elem(g, t) + rest)[3..] == rest;
  }

  lemma ElemWellFormed(g: Tag, t: string)
    requires Plain(t)
    ensures WellFormed(Elem(g, t))
  {
  }

  lemma OptionalElemOf(g: Tag, t: Option<string>, rest: seq<Piece>)
    requires t.None? ==> rest == [] || rest[0] != Start(g)
    ensures OptionalElem((if t.Some? then Elem(g, t.value) else []) + rest, g) == Some((t, rest))
  {
    if t.Some? {
      ReadElemOf(g, t.value, rest);
    } else {
      assert [] + rest == rest;
    }
  }

  lemma OptionalImageOf(img: Option<Image>, rest: seq<Piece>)
    requires img.None? ==> rest == [] || rest[0] != Start(ImageTag)
    ensures OptionalImage(ImagePieces(img) + rest) == Some((img, rest))
  {
    if img.Some? {
      ImageOf(img.value, rest);
    } else {
      assert ImagePieces(img) + rest == rest;
    }
  }

  lemma ImageOf(i: Image, rest: seq<Piece>)
    ensures OptionalImage(ImagePieces(Some(i)) + rest) == Some((Some(i), rest))
  {
    var r2 := [End(ImageTag)] + rest;
    var r1 := Elem(ImageCaptionTag, i.caption) + r2;
    var r0 := Elem(ImageLocTag, i.loc) + r1;
    var ps := ImagePieces(Some(i)) + rest;
    assert ps[0] == Start(ImageTag) && ps[1..] == r0 by {
      ImageLayout(i, rest);
    }
    assert ReadElem(r0, ImageLocTag) == Some((i.loc, r1)) by {
      ReadElemOf(ImageLocTag, i.loc, r1);
    }
    assert ReadElem(r1, ImageCaptionTag) == Some((i.caption, r2)) by {
      ReadElemOf(ImageCaptionTag, i.caption, r2);
    }
    assert r2 != [] && r2[0] == End(ImageTag) && r2[1..] == rest;
  }

  /** An image block is its start tag, then its two elements, then its
      end tag. */
  lemma ImageLayout(i: Image, rest: seq<Piece>)
    ensures var ps := ImagePieces(Some(i)) + rest;
      ps[0] == Start(ImageTag)
      && ps[1..] == Elem(ImageLocTag, i.loc) + (Elem(ImageCaptionTag, i.caption) + ([End(ImageTag)] + rest))
  {
    var a, b := Elem(ImageLocTag, i.loc), Elem(ImageCaptionTag, i.caption);
    var ps := ImagePieces(Some(i)) + rest;
    assert ps == [Start(ImageTag)] + (a + (b + ([End(ImageTag)] + rest)));
  }

  lemma FreqRoundTrip(f: Freq)
    ensures FreqOf(FreqText(f)) == Some(f) && Plain(FreqText(f))
  {
  }

  lemma PriorityRoundTrip(p: Priority)
    ensures PriorityOf(PriorityText(p)) == Some(p) && Plain(PriorityText(p))
  {
    if p < 10 {
      var t := PriorityText(p);
      assert t == ['0', '.', DigitChar(p)];
      assert DigitChar(p) as int - '0' as int == p;
    }
  }

  lemma EndOf(e: UrlEntry, rest: seq<Piece>)
    ensures ReadEnd(e.loc, e.lastmod, e.changefreq, EndPieces(e) + rest) == Some((e, rest))
  {
    var p := PriorityText(e.priority);
    PriorityRoundTrip(e.priority);
    var r5 := [End(UrlTag)] + rest;
    var r4 := ImagePieces(e.image) + r5;
    assert EndPieces(e) + rest == Elem(PriorityTag, p) + r4;
    ReadElemOf(PriorityTag, p, r4);
    OptionalImageOf(e.image, r5);
  }

  lemma TailOf(e: UrlEntry, rest: seq<Piece>)
    ensures ReadTail(e.loc, e.lastmod, TailPieces(e) + rest) == Some((e, rest))
  {
    var f := FreqText(e.changefreq);
    var r3 := EndPieces(e) + rest;
    assert ReadElem(TailPieces(e) + rest, ChangefreqTag) == Some((f, r3)) by {
      assert TailPieces(e) + rest == Elem(ChangefreqTag, f) + r3;
      ReadElemOf(ChangefreqTag, f, r3);
    }
    assert FreqOf(f) == Some(e.changefreq) by {
      FreqRoundTrip(e.changefreq);
    }
    EndOf(e, rest);
  }

  lemma FieldsOf(e: UrlEntry, rest: seq<Piece>)
    ensures ReadFields(FieldPieces(e) + rest) == Some((e, rest))
  {
    var r2 := TailPieces(e) + rest;
    var r1 := LastmodPieces(e.lastmod) + r2;
    assert ReadElem(FieldPieces(e) + rest, LocTag) == Some((e.loc, r1)) by {
      assert FieldPieces(e) + rest == Elem(LocTag, e.loc) + r1;
      ReadElemOf(LocTag, e.loc, r1);
    }
    assert OptionalElem(r1, LastmodTag) == Some((e.lastmod, r2)) by {
      OptionalElemOf(LastmodTag, e.lastmod, r2);
    }
    assert ReadTail(e.loc, e.lastmod, r2) == Some((e, rest)) by {
      TailOf(e, rest);
    }
  }

  /** One `<url>` element reads back as its entry, leaving what follows
      it. */
  lemma UrlRoundTrip(e: UrlEntry, rest: seq<Piece>)
    ensures ReadUrl(UrlPieces(e) + rest) == Some((e, rest))
  {
    var ps := UrlPieces(e) + rest;
    assert ps[0] == Start(UrlTag) && ps[1..] == FieldPieces(e) + rest;
    FieldsOf(e, rest);
  }

  lemma UrlWellFormed(e: UrlEntry)
    requires EntryPlain(e)
    ensures WellFormed(UrlPieces(e))
  {
    FreqRoundTrip(e.changefreq);
    PriorityRoundTrip(e.priority);
    var img := ImagePieces(e.image);
    if e.image.Some? {
      var i := e.image.value;
      ElemWellFormed(ImageLocTag, i.loc);
      ElemWellFormed(ImageCaptionTag, i.caption);
      WellFormedConcat([Start(ImageTag)] + Elem(ImageLocTag, i.loc), Elem(ImageCaptionTag, i.caption));
      WellFormedConcat([Start(ImageTag)] + Elem(ImageLocTag, i.loc) + Elem(ImageCaptionTag, i.caption), [End(ImageTag)]);
    }
    ElemWellFormed(PriorityTag, PriorityText(e.priority));
    WellFormedConcat(Elem(PriorityTag, PriorityText(e.priority)), img);
    WellFormedConcat(Elem(PriorityTag, PriorityText(e.priority)) + img, [End(UrlTag)]);
    ElemWellFormed(ChangefreqTag, FreqText(e.changefreq));
    WellFormedConcat(Elem(ChangefreqTag, FreqText(e.changefreq)), EndPieces(e));
    if e.lastmod.Some? {
      ElemWellFormed(LastmodTag, e.lastmod.value);
    }
    ElemWellFormed(LocTag, e.loc);
    WellFormedConcat(Elem(LocTag, e.loc), LastmodPieces(e.lastmod));
    WellFormedConcat(Elem(LocTag, e.loc) + LastmodPieces(e.lastmod), TailPieces(e));
    WellFormedConcat([Start(UrlTag)], FieldPieces(e));
  }

  /** A `<url>` element in front of a readable run extends the run. */
  lemma UrlsCons(e: UrlEntry, tail: seq<Piece>, more: seq<UrlEntry>, rest: seq<Piece>)
    requires ReadUrls(tail) == Some((more, rest))
    ensures ReadUrls(UrlPieces(e) + tail) == Some(([e] + more, rest))
  {
    UrlRoundTrip(e, tail);
    assert (UrlPieces(e) + tail)[0] == Start(UrlTag);
  }

  lemma UrlsPiecesCons(es: seq<UrlEntry>, rest: seq<Piece>)
    requires es != []
    ensures UrlsPieces(es) + rest == UrlPieces(es[0]) + (UrlsPieces(es[1..]) + rest)
  {
  }

  /** A run of `<url>` elements reads back as its entries, in order. */
  lemma {:induction false} UrlsRoundTrip(es: seq<UrlEntry>, rest: seq<Piece>)
    requires rest == [] || rest[0] != Start(UrlTag)
    ensures ReadUrls(UrlsPieces(es) + rest) == Some((es, rest))
  {
    if es == [] {
      assert UrlsPieces(es) + rest == rest;
    } else {
      UrlsRoundTrip(es[1..], rest);
      UrlsCons(es[0], UrlsPieces(es[1..]) + rest, es[1..], rest);
      UrlsPiecesCons(es, rest);
      assert [es[0]] + es[1..] == es;
    }
  }

  lemma {:induction false} UrlsWellFormed(es: seq<UrlEntry>)
    requires forall i :: 0 <= i < |es| ==> EntryPlain(es[i])
    ensures WellFormed(UrlsPieces(es))
  {
    if es != [] {
      UrlWellFormed(es[0]);
      UrlsWellFormed(es[1..]);
      WellFormedConcat(UrlPieces(es[0]), UrlsPieces(es[1..]));
    }
  }

  lemma UrlsetWellFormed(es: seq<UrlEntry>, images: bool)
    requires forall i :: 0 <= i < |es| ==> EntryPlain(es[i])
    ensures WellFormed(UrlsetPieces(es, images))
  {
    UrlsWellFormed(es);
    WellFormedConcat([Decl, Root(images)], UrlsPieces(es));
    WellFormedConcat([Decl, Root(images)] + UrlsPieces(es), [End(UrlsetTag)]);
  }

  lemma ReadUrlsetPieces(es: seq<UrlEntry>, images: bool)
    ensures var ps := UrlsetPieces(es, images);
      |ps| >= 2 && ps[0] == Decl && ps[1] == Root(images) && ReadUrls(ps[2..]) == Some((es, [End(UrlsetTag)]))
  {
    var ps := UrlsetPieces(es, images);
    assert ps[2..] == UrlsPieces(es) + [End(UrlsetTag)];
    UrlsRoundTrip(es, [End(UrlsetTag)]);
  }

  /** Every urlset this module writes reads back as the entries it was
      written from, whenever their texts need no escaping. */
  lemma UrlsetRoundTrip(es: seq<UrlEntry>, images: bool)
    requires forall i :: 0 <= i < |es| ==> EntryPlain(es[i])
    ensures ReadUrlset(UrlsetXml(es, images), images) == Some(es)
  {
    UrlsetWellFormed(es, images);
    PiecesOfRender(UrlsetPieces(es, images));
    ReadUrlsetPieces(es, images);
  }

  /** One `<sitemap>` element in front of a readable run extends the run. */
  lemma SitemapCons(loc: string, tail: seq<Piece>, more: seq<string>, rest: seq<Piece>)
    requires ReadSitemaps(tail) == Some((more, rest))
    ensures ReadSitemaps([Start(SitemapTag)] + Elem(LocTag, loc) + [End(SitemapTag)] + tail) == Some(([loc] + more, rest))
  {
    var r0 := [End(SitemapTag)] + tail;
    var ps := [Start(SitemapTag)] + Elem(LocTag, loc) + [End(SitemapTag)] + tail;
    assert ps == [Start(SitemapTag)] + (Elem(LocTag, loc) + r0);
    assert ps[1..] == Elem(LocTag, loc) + r0;
    ReadElemOf(LocTag, loc, r0);
    assert r0[1..] == tail;
  }

  lemma SitemapWellFormed(loc: string)
    requires Plain(loc)
    ensures WellFormed([Start(SitemapTag)] + Elem(LocTag, loc) + [End(SitemapTag)])
  {
    ElemWellFormed(LocTag, loc);
    WellFormedConcat([Start(SitemapTag)], Elem(LocTag, loc));
    WellFormedConcat([Start(SitemapTag)] + Elem(LocTag, loc), [End(SitemapTag)]);
  }

  lemma SitemapsRoundTrip(locs: seq<string>, rest: seq<Piece>)
    requires forall i :: 0 <= i < |locs| ==> Plain(locs[i])
    requires rest == [] || rest[0] != Start(SitemapTag)
    ensures ReadSitemaps(SitemapsPieces(locs) + rest) == Some((locs, rest))
    ensures WellFormed(SitemapsPieces(locs))
  {
    SitemapsReadBack(locs, rest);
    SitemapsWellFormed(locs);
  }

  lemma {:induction false} SitemapsReadBack(locs: seq<string>, rest: seq<Piece>)
    requires rest == [] || rest[0] != Start(SitemapTag)
    ensures ReadSitemaps(SitemapsPieces(locs) + rest) == Some((locs, rest))
  {
    if locs != [] {
      var one := [Start(SitemapTag)] + Elem(LocTag, locs[0]) + [End(SitemapTag)];
      var tail := SitemapsPieces(locs[1..]);
      assert SitemapsPieces(locs) == one + tail;
      assert SitemapsPieces(locs) + rest == one + (tail + rest);
      assert ReadSitemaps(tail + rest) == Some((locs[1..], rest)) by {
        SitemapsReadBack(locs[1..], rest);
      }
      assert ReadSitemaps(one + (tail + rest)) == Some(([locs[0]] + locs[1..], rest)) by {
        SitemapCons(locs[0], tail + rest, locs[1..], rest);
      }
      assert [locs[0]] + locs[1..] == locs;
    } else {
      assert SitemapsPieces(locs) + rest == rest;
    }
  }

  lemma {:induction false} SitemapsWellFormed(locs: seq<string>)
    requires forall i :: 0 <= i < |locs| ==> Plain(locs[i])
    ensures WellFormed(SitemapsPieces(locs))
  {
    if locs != [] {
      var one := [Start(SitemapTag)] + Elem(LocTag, locs[0]) + [End(SitemapTag)];
      assert forall i :: 0 <= i < |locs[1..]| ==> Plain(locs[1..][i]) by {
        forall i | 0 <= i < |locs[1..]| ensures Plain(locs[1..][i]) {
          assert locs[1..][i] == locs[i + 1];
        }
      }
      SitemapsWellFormed(locs[1..]);
      SitemapWellFormed(locs[0]);
      WellFormedConcat(one, SitemapsPieces(locs[1..]));
    } else {
      assert SitemapsPieces(locs) == [];
    }
  }

  lemma ReadIndexPieces(locs: seq<string>)
    requires forall i :: 0 <= i < |locs| ==> Plain(locs[i])
    ensures var ps := IndexPieces(locs);
      |ps| >= 2 && ps[0] == Decl && ps[1] == IndexRoot && ReadSitemaps(ps[2..]) == Some((locs, [End(IndexTag)]))
    ensures WellFormed(IndexPieces(locs))
  {
    var ps := IndexPieces(locs);
    SitemapsRoundTrip(locs, [End(IndexTag)]);
    assert ps[2..] == SitemapsPieces(locs) + [End(IndexTag)];
    WellFormedConcat([Decl, IndexRoot], SitemapsPieces(locs));
    WellFormedConcat([Decl, IndexRoot] + SitemapsPieces(locs), [End(IndexTag)]);
  }

  /** A sitemap index reads back as the locations it lists. */
  lemma IndexRoundTrip(locs: seq<string>)
    requires forall i :: 0 <= i < |locs| ==> Plain(locs[i])
    ensures ReadIndex(IndexXml(locs)) == Some(locs)
  {
    ReadIndexPieces(locs);
    PiecesOfRender(IndexPieces(locs));
  }

  // ---------------------------------------------------------------------
  // The routes

  lemma BaseUrlPlain()
    ensures Plain(BaseUrl)
  {
  }

  /** `GET /sitemap.xml` */
  function IndexRoute(): string {
    IndexXml(IndexLocs())
  }

  /** The index lists exactly the five child sitemaps, static, news,
      matches, teams and players, in that order, each under
      `base/sitemaps/`. */
  lemma IndexRouteSpec()
    ensures ReadIndex(IndexRoute()) == Some(IndexLocs())
    ensures |IndexLocs()| == 5
    ensures forall i :: 0 <= i < 5 ==> IndexLocs()[i] == BaseUrl + "/sitemaps/" + Children[i] + ".xml"
  {
    var locs := IndexLocs();
    forall i | 0 <= i < |locs| ensures Plain(locs[i]) {
      ChildLocPlain(i);
    }
    assert ReadIndex(IndexXml(locs)) == Some(locs) by {
      IndexRoundTrip(locs);
    }
  }

  /** Each child location needs no escaping. */
  lemma ChildLocPlain(i: nat)
    requires i < |Children|
    ensures Plain(IndexLocs()[i])
  {
    var c := Children[i];
    assert TagFree(c);
    assert TagFree("/sitemaps/") && TagFree(".xml");
    BaseUrlPlain();
    assert IndexLocs()[i] == BaseUrl + "/sitemaps/" + c + ".xml";
  }

  /** `GET /sitemaps/static.xml` */
  function StaticRoute(): string {
    UrlsetXml(StaticEntries, false)
  }

  /** The static urlset reads back as the five fixed pages, in order. */
  lemma StaticRouteSpec()
    ensures ReadUrlset(StaticRoute(), false) == Some(StaticEntries)
  {
    StaticEntriesPlain();
    UrlsetRoundTrip(StaticEntries, false);
  }

  lemma StaticEntriesPlain()
    ensures forall i :: 0 <= i < |StaticEntries| ==> EntryPlain(StaticEntries[i])
  {
    BaseUrlPlain();
    assert TagFree("/") && TagFree("/news") && TagFree("/matches") && TagFree("/teams") && TagFree("/players");
  }

  /** A news document as the sitemap reads it: the article and its
      `updatedAt` timestamp (set by the schema's timestamps). */
  datatype NewsRow = NewsRow(article: NewsModel.Article, updatedAt: Option<int>)

  function RowCreatedAt(r: NewsRow): int { r.article.createdAt }

  predicate AnyRow(r: NewsRow) { true }

  /** `n[field]` on a news document: a path the schema does not declare
      reads as undefined. */
  function Field(a: NewsModel.Article, field: string): Value {
    if field == "imageUrl" then a.imageUrl
    else if field == "title" then Str(a.title)
    else Undefined
  }

  /** The image block for the image held in `field`, with the title (or
      "News Image") as caption. */
  function NewsImage(a: NewsModel.Article, field: string): Option<Image> {
    var img := Field(a, field);
    if Truthy(img) then Some(Image(BaseUrl + ToStr(img), ToStr(Or(Field(a, "title"), Str("News Image")))))
    else None
  }

  /** The entry of one news document, its image taken from `field`. */
  function NewsEntry(r: NewsRow, field: string, iso: int -> string): UrlEntry {
    UrlEntry(BaseUrl + "/news/" + r.article.id,
      Some(iso(if r.updatedAt.Some? then r.updatedAt.value else r.article.createdAt)),
      Hourly, 9, NewsImage(r.article, field))
  }

  /** `News.find().sort({createdAt: -1}).limit(1000)`, one entry each. */
  function NewsEntries(rows: seq<NewsRow>, storeUp: bool, field: string, iso: int -> string): Result<seq<UrlEntry>, int> {
    if !storeUp then Err(500)
    else
      var top := Seqs.TopByKey(AnyRow, RowCreatedAt, rows, NewsLimit);
      Ok(seq(|top|, i requires 0 <= i < |top| => NewsEntry(top[i], field, iso)))
  }

  /** As written the image is read from `n.image`, a path the news schema
      does not have: no news entry ever carries an image block. */
  lemma NewsImagesAsWritten(rows: seq<NewsRow>, iso: int -> string)
    ensures var out := NewsEntries(rows, true, "image", iso);
      out.Ok? && forall i :: 0 <= i < |out.value| ==> out.value[i].image.None?
  {
  }

  /** `GET /sitemaps/news.xml`, reading the image from `imageUrl`. */
  function NewsRoute(rows: seq<NewsRow>, storeUp: bool, iso: int -> string): Result<string, int> {
    var es :- NewsEntries(rows, storeUp, "imageUrl", iso);
    Ok(UrlsetXml(es, true))
  }

  /** The documents listed: 1000, or all of them when there are fewer,
      newest first, each one of the store's, and no document left out is
      newer than one listed. */
  lemma NewsTopSpec(rows: seq<NewsRow>)
    ensures var top := Seqs.TopByKey(AnyRow, RowCreatedAt, rows, NewsLimit);
      && |top| == (if |rows| <= 1000 then |rows| else 1000)
      && (|top| < 1000 ==> forall r :: r in rows ==> r in top)
      && (forall i :: 0 <= i < |top| ==> top[i] in rows)
      && (forall i, j :: 0 <= i < j < |top| ==> top[i].article.createdAt >= top[j].article.createdAt)
      && (forall r, i :: r in rows && r !in top && 0 <= i < |top| ==> r.article.createdAt <= top[i].article.createdAt)
  {
    var top := Seqs.TopByKey(AnyRow, RowCreatedAt, rows, NewsLimit);
    Seqs.TopByKeyOrder(AnyRow, RowCreatedAt, rows, NewsLimit);
    assert |top| == (if |rows| <= 1000 then |rows| else 1000) && (|top| < 1000 ==> forall r :: r in rows ==> r in top) by {
      Seqs.TopByKeyCount(AnyRow, RowCreatedAt, rows, NewsLimit);
      Seqs.FilterAll(AnyRow, rows);
      assert Seqs.Filter(AnyRow, rows) == rows;
    }
    forall i, j | 0 <= i < j < |top| ensures top[i].article.createdAt >= top[j].article.createdAt {
      assert RowCreatedAt(top[i]) >= RowCreatedAt(top[j]);
    }
    forall r, i | r in rows && r !in top && 0 <= i < |top| ensures r.article.createdAt <= top[i].article.createdAt {
      assert AnyRow(r) && RowCreatedAt(r) <= RowCreatedAt(top[i]);
    }
  }

  /** One entry per document listed, with `loc = base/news/<id>`,
      `lastmod` from `updatedAt` or else `createdAt`, hourly at 0.9; an
      entry has an image block exactly when its `imageUrl` is truthy,
      captioned with the title of a valid article; 500 when the store
      fails. */
  lemma NewsEntriesSpec(rows: seq<NewsRow>, storeUp: bool, iso: int -> string)
    ensures NewsEntries(rows, storeUp, "imageUrl", iso).Err? <==> !storeUp
    ensures NewsEntries(rows, storeUp, "imageUrl", iso).Ok? ==>
      var out := NewsEntries(rows, storeUp, "imageUrl", iso).value;
      var top := Seqs.TopByKey(AnyRow, RowCreatedAt, rows, NewsLimit);
      && |out| == |top|
      && (forall i :: 0 <= i < |out| ==>
            && out[i].loc == BaseUrl + "/news/" + top[i].article.id
            && out[i].lastmod == Some(iso(top[i].updatedAt.GetOr(top[i].article.createdAt)))
            && out[i].changefreq == Hourly && out[i].priority == 9
            && (out[i].image.Some? <==> Truthy(top[i].article.imageUrl))
            && (out[i].image.Some? && NewsModel.SchemaValid(top[i].article) ==>
                  out[i].image.value.caption == top[i].article.title))
  {
    if storeUp {
      var out := NewsEntries(rows, storeUp, "imageUrl", iso).value;
      var top := Seqs.TopByKey(AnyRow, RowCreatedAt, rows, NewsLimit);
      forall i | 0 <= i < |out|
        ensures out[i].image.Some? && NewsModel.SchemaValid(top[i].article) ==> out[i].image.value.caption == top[i].article.title
      {
        assert out[i] == NewsEntry(top[i], "imageUrl", iso);
      }
    }
  }

  lemma NewsEntryPlain(r: NewsRow, iso: int -> string)
    requires TagFree(r.article.id) && TagFree(r.article.title) && TagFree(ToStr(r.article.imageUrl))
    requires Plain(iso(r.updatedAt.GetOr(r.article.createdAt)))
    ensures EntryPlain(NewsEntry(r, "imageUrl", iso))
  {
    BaseUrlPlain();
    assert TagFree("/news/") && Plain("News Image");
  }

  /** The news sitemap reads back as its entries whenever ids, image
      paths and titles need no escaping and dates are written as plain
      text. */
  lemma NewsRouteRoundTrip(rows: seq<NewsRow>, iso: int -> string)
    requires forall r :: r in rows ==>
      && TagFree(r.article.id) && TagFree(r.article.title) && TagFree(ToStr(r.article.imageUrl))
      && Plain(iso(r.updatedAt.GetOr(r.article.createdAt)))
    ensures NewsRoute(rows, true, iso).Ok?
    ensures ReadUrlset(NewsRoute(rows, true, iso).value, true) == Some(NewsEntries(rows, true, "imageUrl", iso).value)
  {
    var out := NewsEntries(rows, true, "imageUrl", iso).value;
    var top := Seqs.TopByKey(AnyRow, RowCreatedAt, rows, NewsLimit);
    assert forall i :: 0 <= i < |top| ==> top[i] in rows by {
      Seqs.TopByKeySpec(AnyRow, RowCreatedAt, rows, NewsLimit);
    }
    forall i | 0 <= i < |out| ensures EntryPlain(out[i]) {
      var r := top[i];
      assert r in rows;
      NewsEntryPlain(r, iso);
    }
    UrlsetRoundTrip(out, true);
  }

  /** A document of another collection as the sitemap reads it: its id
      and its timestamps, absent when the document has none. Timestamps
      are milliseconds since 1970. */
  datatype DocRow = DocRow(id: string, updatedAt: Option<nat>, createdAt: Option<nat>)

  /** `updatedAt || createdAt` */
  function LastMod(r: DocRow): Option<nat> {
    if r.updatedAt.Some? then r.updatedAt else r.createdAt
  }

  /** The order of `sort({updatedAt: -1})`: a missing value sorts below
      every date. */
  function UpdatedKey(r: DocRow): int {
    if r.updatedAt.Some? then r.updatedAt.value + 1 else 0
  }

  /** The entry of one match; `new Date(undefined).toISOString()` throws
      when the match has neither timestamp. */
  function MatchEntry(iso: int -> string, r: DocRow): Option<UrlEntry> {
    var t :- LastMod(r);
    Some(UrlEntry(BaseUrl + "/matches/" + r.id, Some(iso(t)), Hourly, 8, None))
  }

  /** `Match.find().sort({updatedAt: -1})`, one entry each. */
  function MatchEntries(rows: seq<DocRow>, storeUp: bool, iso: int -> string): Result<seq<UrlEntry>, int> {
    if !storeUp then Err(500)
    else
      var sorted := Seqs.SortDesc(UpdatedKey, rows);
      match Seqs.MapPartial(r => MatchEntry(iso, r), sorted)
      case None => Err(500)
      case Some(es) => Ok(es)
  }

  /** `GET /sitemaps/matches.xml` */
  function MatchesRoute(rows: seq<DocRow>, storeUp: bool, iso: int -> string): Result<string, int> {
    var es :- MatchEntries(rows, storeUp, iso);
    Ok(UrlsetXml(es, false))
  }

  /** The matches sitemap fails with 500 exactly when the store fails or
      a match has neither timestamp. */
  lemma MatchEntriesErr(rows: seq<DocRow>, storeUp: bool, iso: int -> string)
    ensures MatchEntries(rows, storeUp, iso).Err? <==>
      !storeUp || exists r :: r in rows && r.updatedAt.None? && r.createdAt.None?
  {
    if storeUp {
      var sorted := Seqs.SortDesc(UpdatedKey, rows);
      var f := r => MatchEntry(iso, r);
      Seqs.MapPartialSpec(f, sorted);
      if exists r :: r in rows && r.updatedAt.None? && r.createdAt.None? {
        var r :| r in rows && r.updatedAt.None? && r.createdAt.None?;
        var k := Seqs.SortedIndex(UpdatedKey, rows, r);
        assert f(sorted[k]).None?;
      }
      if Seqs.MapPartial(f, sorted).None? {
        var k :| 0 <= k < |sorted| && f(sorted[k]).None?;
        Seqs.InSorted(UpdatedKey, rows, k);
      }
    }
  }

  /** One entry per match, most recently updated first (undated last),
      `loc = base/matches/<id>`, `lastmod` from `updatedAt` or else
      `createdAt`, hourly at 0.8, without image. */
  lemma MatchEntriesSpec(rows: seq<DocRow>, iso: int -> string)
    ensures MatchEntries(rows, true, iso).Ok? ==>
      var out := MatchEntries(rows, true, iso).value;
      var sorted := Seqs.SortDesc(UpdatedKey, rows);
      && |out| == |rows|
      && multiset(sorted) == multiset(rows)
      && (forall i, j :: 0 <= i < j < |sorted| ==> UpdatedKey(sorted[i]) >= UpdatedKey(sorted[j]))
      && (forall i :: 0 <= i < |out| ==>
            && out[i].loc == BaseUrl + "/matches/" + sorted[i].id
            && LastMod(sorted[i]).Some? && out[i].lastmod == Some(iso(LastMod(sorted[i]).value))
            && out[i].changefreq == Hourly && out[i].priority == 8 && out[i].image.None?)
  {
    var sorted := Seqs.SortDesc(UpdatedKey, rows);
    var f := r => MatchEntry(iso, r);
    Seqs.MapPartialSpec(f, sorted);
  }

  lemma MatchEntryPlain(iso: int -> string, r: DocRow)
    requires TagFree(r.id) && (LastMod(r).Some? ==> Plain(iso(LastMod(r).value)))
    ensures MatchEntry(iso, r).Some? ==> EntryPlain(MatchEntry(iso, r).value)
  {
    BaseUrlPlain();
    assert TagFree("/matches/");
  }

  /** The matches sitemap, when it is written, reads back as its
      entries whenever ids need no escaping and dates are written as plain
      text. */
  lemma MatchesRouteRoundTrip(rows: seq<DocRow>, iso: int -> string)
    requires forall r :: r in rows ==> TagFree(r.id) && (LastMod(r).Some? ==> Plain(iso(LastMod(r).value)))
    ensures MatchesRoute(rows, true, iso).Ok? <==> MatchEntries(rows, true, iso).Ok?
    ensures MatchesRoute(rows, true, iso).Ok? ==>
      ReadUrlset(MatchesRoute(rows, true, iso).value, false) == Some(MatchEntries(rows, true, iso).value)
  {
    if MatchEntries(rows, true, iso).Ok? {
      var out := MatchEntries(rows, true, iso).value;
      var sorted := Seqs.SortDesc(UpdatedKey, rows);
      var f := r => MatchEntry(iso, r);
      Seqs.MapPartialSpec(f, sorted);
      forall i | 0 <= i < |out| ensures EntryPlain(out[i]) {
        Seqs.InSorted(UpdatedKey, rows, i);
        MatchEntryPlain(iso, sorted[i]);
      }
      UrlsetRoundTrip(out, false);
    }
  }

  /** The entries of a collection listed in its natural order: one per
      document, dated now. */
  function KindEntries(path: string, freq: Freq, priority: Priority, rows: seq<DocRow>, storeUp: bool,
                       now: int, iso: int -> string): Result<seq<UrlEntry>, int> {
    if !storeUp then Err(500)
    else Ok(seq(|rows|, i requires 0 <= i < |rows| => UrlEntry(BaseUrl + path + rows[i].id, Some(iso(now)), freq, priority, None)))
  }

  /** `GET /sitemaps/teams.xml` */
  function TeamsRoute(rows: seq<DocRow>, storeUp: bool, now: int, iso: int -> string): Result<string, int> {
    var es :- KindEntries("/teams/", Weekly, 7, rows, storeUp, now, iso);
    Ok(UrlsetXml(es, false))
  }

  /** `GET /sitemaps/players.xml` */
  function PlayersRoute(rows: seq<DocRow>, storeUp: bool, now: int, iso: int -> string): Result<string, int> {
    var es :- KindEntries("/players/", Weekly, 6, rows, storeUp, now, iso);
    Ok(UrlsetXml(es, false))
  }

  /** A collection's sitemap reads back as its entries. */
  lemma KindRoundTrip(path: string, freq: Freq, priority: Priority, rows: seq<DocRow>, now: int, iso: int -> string)
    requires TagFree(path) && Plain(iso(now))
    requires forall i :: 0 <= i < |rows| ==> TagFree(rows[i].id)
    ensures var es := KindEntries(path, freq, priority, rows, true, now, iso).value;
      ReadUrlset(UrlsetXml(es, false), false) == Some(es)
  {
    var es := KindEntries(path, freq, priority, rows, true, now, iso).value;
    BaseUrlPlain();
    forall i | 0 <= i < |es| ensures EntryPlain(es[i]) {
      assert es[i].loc == BaseUrl + path + rows[i].id;
    }
    UrlsetRoundTrip(es, false);
  }

  /** The teams and players sitemaps read back as one weekly entry per
      document, in the collection's order, at 0.7 and 0.6, each
      `base/<kind>/<id>` and dated now. */
  lemma KindRoutesSpec(rows: seq<DocRow>, now: int, iso: int -> string)
    requires forall i :: 0 <= i < |rows| ==> TagFree(rows[i].id)
    requires Plain(iso(now))
    ensures var teams := ReadUrlset(TeamsRoute(rows, true, now, iso).value, false);
      && teams.Some? && |teams.value| == |rows|
      && forall i :: 0 <= i < |rows| ==>
           teams.value[i] == UrlEntry(BaseUrl + "/teams/" + rows[i].id, Some(iso(now)), Weekly, 7, None)
    ensures var players := ReadUrlset(PlayersRoute(rows, true, now, iso).value, false);
      && players.Some? && |players.value| == |rows|
      && forall i :: 0 <= i < |rows| ==>
           players.value[i] == UrlEntry(BaseUrl + "/players/" + rows[i].id, Some(iso(now)), Weekly, 6, None)
  {
    assert TagFree("/teams/") && TagFree("/players/");
    KindRoundTrip("/teams/", Weekly, 7, rows, now, iso);
    KindRoundTrip("/players/", Weekly, 6, rows, now, iso);
  }
}
