/**
 * Field selection of `scrape_article` (src/scraper.py).
 *
 * Fetching the page and parsing it are left to the caller: a Page holds what
 * the parser's lookups return, already reduced to plain values, and the
 * functions below choose the article's fields from it as the source does.
 */
module Scraper {
  import opened Common

  /** A `div` element: its class values and the stripped texts of the `p` elements inside it. */
  datatype Div = Div(classes: seq<string>, paragraphs: seq<string>)

  /** The first `time` element: its `datetime` attribute, if present, and its stripped text. */
  datatype TimeTag = TimeTag(datetime: Option<string>, text: string)

  /**
   * The parsed page, after non-content elements are removed. Every text is the
   * element's stripped text. A meta tag is `Some(content attribute)` when the
   * tag exists, and its content attribute may itself be missing.
   */
  datatype Page = Page(
    h1: Option<string>,                  // the first h1
    titleTag: Option<string>,            // the first title element
    article: Option<seq<string>>,        // paragraphs of the first article element
    divs: seq<Div>,                      // every div, in document order
    mainElement: Option<seq<string>>,    // paragraphs of the first main element
    paragraphs: seq<string>,             // every p of the page, in document order
    fullText: string,                    // the page's text, lines separated by "\n"
    authorMeta: Option<Option<string>>,  // meta name="author"
    dateMeta: Option<Option<string>>,    // meta property="article:published_time"
    time: Option<TimeTag>)

  /** The extracted article (`Article`). */
  datatype Article = Article(
    url: string, title: string, content: string, author: Option<string>, publishedDate: Option<string>)

  /** A paragraph is kept only when its stripped text is longer than this. */
  const MinParagraph: nat := 30
  /** Dates are cut to their first ten characters (an ISO date). */
  const DateLength: nat := 10
  const Separator: string := "\n\n"
  /** The words of the class pattern `article|post|content|story`. */
  const ContainerWords: seq<string> := ["article", "post", "content", "story"]

  // ---------------------------------------------------------------------------
  // Title

  /** The first h1's text, else the title element's text, else "". */
  function Title(page: Page): string {
    if page.h1.Some? then page.h1.value
    else if page.titleTag.Some? then page.titleTag.value
    else ""
  }

  // ---------------------------------------------------------------------------
  // Container

  /** Python's `a or b or c` over found elements: the first one that exists. */
  function FirstFound<T>(candidates: seq<Option<T>>): (r: Option<T>)
    ensures r.None? <==> forall i :: 0 <= i < |candidates| ==> candidates[i].None?
    ensures r.Some? ==> exists i :: 0 <= i < |candidates| && candidates[i] == r &&
                                   forall j :: 0 <= j < i ==> candidates[j].None?
  {
    if candidates == [] then None
    else if candidates[0].Some? then candidates[0]
    else
      var r := FirstFound(candidates[1..]);
      assert r.Some? ==> exists i :: 1 <= i < |candidates| && candidates[i] == r &&
                                    forall j :: 0 <= j < i ==> candidates[j].None? by {
        if r.Some? {
          var i :| 0 <= i < |candidates| - 1 && candidates[1..][i] == r &&
                   forall j :: 0 <= j < i ==> candidates[1..][j].None?;
          assert forall j :: 1 <= j < i + 1 ==> candidates[j] == candidates[1..][j - 1];
        }
      }
      r
  }

  /** The title follows the same rule as Python's `h1 or title`: the first element that exists, else "". */
  lemma TitlePriority(page: Page)
    ensures Title(page) == FirstFound([page.h1, page.titleTag]).GetOr("")
    ensures page.h1.Some? ==> Title(page) == page.h1.value
    ensures page.h1.None? && page.titleTag.Some? ==> Title(page) == page.titleTag.value
    ensures page.h1.None? && page.titleTag.None? ==> Title(page) == ""
  {
    var candidates := [page.h1, page.titleTag];
    if page.h1.None? && page.titleTag.None? {
      assert forall i :: 0 <= i < |candidates| ==> candidates[i].None?;
    }
  }

  /** True when `word` occurs in `s`, ignoring ASCII case (a `re.I` search for a lower-case word). */
  predicate ContainsIgnoreCase(s: string, word: string)
    decreases |s|
  {
    (|word| <= |s| && Lower(s[..|word|]) == word) || (s != [] && ContainsIgnoreCase(s[1..], word))
  }

  /** A div's class attribute matches `article|post|content|story` (case-insensitive) in one of its values. */
  predicate ClassMatches(classes: seq<string>) {
    exists i, w :: 0 <= i < |classes| && 0 <= w < |ContainerWords| && ContainsIgnoreCase(classes[i], ContainerWords[w])
  }

  /** The paragraphs of the first div whose class matches, in document order. */
  function FirstMatchingDiv(divs: seq<Div>): (r: Option<seq<string>>)
    ensures r.None? <==> forall i :: 0 <= i < |divs| ==> !ClassMatches(divs[i].classes)
    ensures r.Some? ==> exists i :: 0 <= i < |divs| && ClassMatches(divs[i].classes) &&
                                   r.value == divs[i].paragraphs &&
                                   forall j :: 0 <= j < i ==> !ClassMatches(divs[j].classes)
  {
    if divs == [] then None
    else if ClassMatches(divs[0].classes) then Some(divs[0].paragraphs)
    else
      var rest := divs[1..];
      var r := FirstMatchingDiv(rest);
      assert forall j :: 1 <= j < |divs| ==> divs[j] == rest[j - 1];
      if r.Some? then
        var i :| 0 <= i < |rest| && ClassMatches(rest[i].classes) && r.value == rest[i].paragraphs &&
                 forall j :: 0 <= j < i ==> !ClassMatches(rest[j].classes);
        assert ClassMatches(divs[i + 1].classes) && r.value == divs[i + 1].paragraphs;
        r
      else
        r
  }

  /**
   * The paragraphs the content is taken from: those of the first article
   * element, else of the first matching div, else of the first main element,
   * else every paragraph of the page.
   */
  function SourceParagraphs(page: Page): seq<string> {
    FirstFound([page.article, FirstMatchingDiv(page.divs), page.mainElement]).GetOr(page.paragraphs)
  }

  /** The container rule, case by case. */
  lemma ContainerPriority(page: Page)
    ensures page.article.Some? ==> SourceParagraphs(page) == page.article.value
    ensures page.article.None? && FirstMatchingDiv(page.divs).Some? ==>
      SourceParagraphs(page) == FirstMatchingDiv(page.divs).value
    ensures page.article.None? && FirstMatchingDiv(page.divs).None? && page.mainElement.Some? ==>
      SourceParagraphs(page) == page.mainElement.value
    ensures page.article.None? && FirstMatchingDiv(page.divs).None? && page.mainElement.None? ==>
      SourceParagraphs(page) == page.paragraphs
  {
    var candidates := [page.article, FirstMatchingDiv(page.divs), page.mainElement];
    var r := FirstFound(candidates);
    assert SourceParagraphs(page) == r.GetOr(page.paragraphs);
    if r.Some? {
      var i :| 0 <= i < |candidates| && candidates[i] == r && forall j :: 0 <= j < i ==> candidates[j].None?;
      assert SourceParagraphs(page) == r.value;
      if candidates[0].Some? {
        assert i == 0;
      } else if candidates[1].Some? {
        assert i == 1 && r == FirstMatchingDiv(page.divs);
      } else {
        assert i == 2 && r == page.mainElement;
      }
    } else {
      assert candidates[1].None? && candidates[2].None?;
    }
  }

  // ---------------------------------------------------------------------------
  // Content

  /** The paragraphs longer than MinParagraph, in their order. */
  function Kept(paragraphs: seq<string>): (r: seq<string>)
    ensures |r| <= |paragraphs|
    ensures forall i :: 0 <= i < |r| ==> |r[i]| > MinParagraph
  {
    if paragraphs == [] then []
    else (if |paragraphs[0]| > MinParagraph then [paragraphs[0]] else []) + Kept(paragraphs[1..])
  }

  /** Python's `sep.join(parts)`. */
  function Join(parts: seq<string>, sep: string): string {
    if parts == [] then ""
    else if |parts| == 1 then parts[0]
    else parts[0] + sep + Join(parts[1..], sep)
  }

  /** The filter keeps document order: it distributes over concatenation. */
  lemma {:induction false} KeptAppend(a: seq<string>, b: seq<string>)
    ensures Kept(a + b) == Kept(a) + Kept(b)
    decreases |a|
  {
    if a == [] {
      assert a + b == b;
    } else {
      assert (a + b)[1..] == a[1..] + b;
      KeptAppend(a[1..], b);
    }
  }

  /** The filter keeps exactly the paragraphs longer than MinParagraph. */
  lemma {:induction false} KeptExactly(paragraphs: seq<string>, p: string)
    ensures p in Kept(paragraphs) <==> p in paragraphs && |p| > MinParagraph
    decreases |paragraphs|
  {
    if paragraphs != [] {
      KeptExactly(paragraphs[1..], p);
      assert paragraphs == [paragraphs[0]] + paragraphs[1..];
    }
  }

  /** Joining non-empty parts gives "" only when there are no parts. */
  lemma {:induction false} JoinEmpty(parts: seq<string>, sep: string)
    requires forall i :: 0 <= i < |parts| ==> parts[i] != ""
    ensures Join(parts, sep) == "" <==> parts == []
  {
    if |parts| > 1 {
      assert parts[0] <= Join(parts, sep);
    }
  }

  /** The "\n\n"-join of the kept paragraphs of the chosen source. */
  function JoinedParagraphs(page: Page): string {
    Join(Kept(SourceParagraphs(page)), Separator)
  }

  /** `content`: the joined paragraphs, or the page's full text when that join is empty. */
  function Content(page: Page): string {
    var joined := JoinedParagraphs(page);
    if joined == "" then page.fullText else joined
  }

  /**
   * The full-text fallback is taken exactly when no paragraph of the chosen
   * source is longer than MinParagraph; otherwise the content is the join of
   * the kept paragraphs and is not empty.
   */
  lemma FallbackExactly(page: Page)
    ensures JoinedParagraphs(page) == "" <==>
      forall p :: p in SourceParagraphs(page) ==> |p| <= MinParagraph
    ensures JoinedParagraphs(page) != "" ==>
      Content(page) == JoinedParagraphs(page) && Content(page) != ""
    ensures JoinedParagraphs(page) == "" ==> Content(page) == page.fullText
  {
    var source := SourceParagraphs(page);
    JoinEmpty(Kept(source), Separator);
    if Kept(source) != [] {
      KeptExactly(source, Kept(source)[0]);
    } else {
      forall p | p in source
        ensures |p| <= MinParagraph
      {
        KeptExactly(source, p);
      }
    }
  }

  // ---------------------------------------------------------------------------
  // Author and date

  /** `author`: the author meta's content attribute (None if missing), or None without the meta. */
  function Author(page: Page): (r: Option<string>)
    ensures r.Some? <==> page.authorMeta.Some? && page.authorMeta.value.Some?
    ensures r.Some? ==> page.authorMeta == Some(r)
  {
    match page.authorMeta
    case Some(content) => content
    case None => None
  }

  /** The time tag's `datetime` attribute, or its text when the attribute is missing or empty. */
  function RawDate(tag: TimeTag): string {
    if tag.datetime.Some? && tag.datetime.value != "" then tag.datetime.value else tag.text
  }

  /**
   * `published_date`: the published-time meta wins over any time tag; its
   * content (or "" without one) is cut to DateLength characters. Without the
   * meta, the time tag's raw date is cut the same way, and an empty raw date or
   * a missing tag gives None.
   */
  function PublishedDate(page: Page): (r: Option<string>)
    ensures r.Some? ==> |r.value| <= DateLength
    ensures page.dateMeta.Some? ==>
      && r.Some? && r.value <= page.dateMeta.value.GetOr("")
      && |r.value| == Min(|page.dateMeta.value.GetOr("")|, DateLength)
    ensures page.dateMeta.None? ==>
      (r.Some? <==> page.time.Some? && RawDate(page.time.value) != "")
    ensures page.dateMeta.None? && r.Some? ==>
      && r.value <= RawDate(page.time.value) && r.value != ""
      && |r.value| == Min(|RawDate(page.time.value)|, DateLength)
  {
    match page.dateMeta
    case Some(content) => Some(Take(content.GetOr(""), DateLength))
    case None =>
      match page.time
      case None => None
      case Some(tag) =>
        var raw := RawDate(tag);
        if raw != "" then Some(Take(raw, DateLength)) else None
  }

  function Min(a: nat, b: nat): nat {
    if a < b then a else b
  }

  // ---------------------------------------------------------------------------
  // The whole extraction

  /**
   * `scrape_article(url)`: `fetched` is the parsed page, or the error the fetch
   * raised (connection failure, timeout, an HTTP error status), which is
   * propagated.
   */
  function ScrapeArticle(url: string, fetched: Result<Page>): (r: Result<Article>)
    ensures fetched.Failure? ==> r == Failure(fetched.error)
    ensures fetched.Success? ==> r.Success? && r.value.url == url
    ensures fetched.Success? ==>
      var page := fetched.value;
      r.value == Article(url, Title(page), Content(page), Author(page), PublishedDate(page))
    ensures r.Success? && r.value.publishedDate.Some? ==> |r.value.publishedDate.value| <= DateLength
  {
    match fetched
    case Failure(e) => Failure(e)
    case Success(page) =>
      Success(Article(url, Title(page), Content(page), Author(page), PublishedDate(page)))
  }

  /**
   * A scraped article's title is the first of h1 and title that exists, and
   * its content is the join of the chosen source's paragraphs longer than
   * MinParagraph, or the page's full text exactly when there are none.
   */
  lemma ScrapedFields(url: string, page: Page)
    ensures var a := ScrapeArticle(url, Success(page)).value;
      && a.title == FirstFound([page.h1, page.titleTag]).GetOr("")
      && ((forall p :: p in SourceParagraphs(page) ==> |p| <= MinParagraph) ==> a.content == page.fullText)
      && ((exists p :: p in SourceParagraphs(page) && |p| > MinParagraph) ==>
            a.content == Join(Kept(SourceParagraphs(page)), Separator) && a.content != "")
  {
    TitlePriority(page);
    FallbackExactly(page);
  }
}
