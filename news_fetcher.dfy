/**
 * `fetch_rss_news`: for each of the first `num_articles` feed entries, fetch the linked page,
 * turn the paragraphs of its content container into clean text, keep a 500-character preview of
 * it, and summarise it when it is long enough. The network, the HTML parser and the regex
 * boilerplate chain are inputs (`Env`); what is modelled is the processing between them.
 */
module NewsFetcher {
  import opened Optional
  import opened Text
  import opened Summarizer

  /** Paragraph lines this long or shorter are dropped. */
  const MinLineLength := 20
  /** The text handed to the summariser is cut to this many characters. */
  const MaxTextLength := 5000
  /** Cleaned text whose stripped length is below this counts as not extracted. */
  const MinContentLength := 50
  /** `full_content` keeps this many characters of a longer text, then the ellipsis. */
  const PreviewLength := 497
  const Ellipsis := "..."
  /** The summary is generated only from text longer than this. */
  const MinSummaryInput := 100
  const SummarySentences := 3

  const NoContainer := "Could not identify primary article content area."
  const InsufficientContent := "Could not extract sufficient main article content after aggressive cleaning."
  /** The placeholder the summary gate (line 195) tests against; it is worded differently from `InsufficientContent`. */
  const InsufficientContentAsTested := "Could not extract sufficient main article content after cleaning."
  const SummaryUnavailable := "Summary not available (full content too short or not extracted cleanly)."
  const NoPublished := "N/A"
  const NoOriginalSummary := "No summary available."

  const HttpErrorPrefix := "HTTP Error: "
  const ConnectionErrorPrefix := "Error Connecting: "
  const TimeoutPrefix := "Timeout Error: "
  const RequestErrorPrefix := "Something went wrong with request: "
  const UnexpectedErrorPrefix := "An unexpected error occurred during content fetching: "

  /**
   * A matched content container after pruning: the stripped text (`get_text(strip=True)`) of each
   * `<p>` in it, and of each `div.text-block`.
   */
  datatype Container = Container(paragraphs: seq<string>, textBlocks: seq<string>)

  /** The results of the four container lookups of lines 112-115, in the order they are tried. */
  datatype Page = Page(
    article: Option<Container>,
    storytextClass: Option<Container>,
    storyBodyClass: Option<Container>,
    storytextId: Option<Container>)

  /**
   * How fetching an article page ended: one of the four exceptions `requests.get` itself can end
   * in (lines 181-192), or a response. `errorText` is the message of the `HTTPError` that
   * `raise_for_status` (line 106) raises when the status is an error status.
   */
  datatype PageOutcome =
    | ConnectionError(detail: string)
    | Timeout(detail: string)
    | RequestError(detail: string)
    | UnexpectedError(detail: string)
    | Response(status: int, errorText: string, page: Page)

  /** A feed entry; `title` and `link` are read as attributes and raise when missing. */
  datatype Entry = Entry(title: Option<string>, link: Option<string>, published: Option<string>, summary: Option<string>)

  /** What parsing a feed gave: its entries, or an exception. */
  datatype FeedOutcome = Parsed(entries: seq<Entry>) | ParseError

  /** One article record. `summary` is the feed's own teaser. */
  datatype Article = Article(
    title: string,
    link: string,
    published: string,
    summary: string,
    fullContent: string,
    generatedSummary: string)

  /**
   * Everything outside the modelled code: the feed parser and the page fetcher (each a function of
   * its URL), the regex boilerplate chain of lines 143-159, and the NLTK resources.
   */
  datatype Env = Env(
    feedAt: string -> FeedOutcome,
    pageAt: string -> PageOutcome,
    boilerplate: string -> string,
    nlp: Nlp)

  /** What the extraction block leaves: the `full_content` field and the variable `full_article_text`. */
  datatype Extraction = Extraction(fullContent: string, text: string)

  // ---------------------------------------------------------------------------------------------
  // Finding the container (lines 112-117)

  /** `a or b or c or d` over lookups that give a tag or `None`: the first tag found. */
  function FirstFound<T>(lookups: seq<Option<T>>): (r: Option<T>)
    ensures r.None? <==> forall i :: 0 <= i < |lookups| ==> lookups[i].None?
    ensures r.Some? ==> exists i :: 0 <= i < |lookups| && lookups[i] == r && forall j :: 0 <= j < i ==> lookups[j].None?
  {
    if lookups == [] then None
    else if lookups[0].Some? then lookups[0]
    else
      var r := FirstFound(lookups[1..]);
      assert r.Some? ==> exists i :: 0 <= i < |lookups| - 1 && lookups[1..][i] == r && forall j :: 0 <= j < i ==> lookups[1..][j].None?;
      r
  }

  /** Lines 112-115: the article element, else the three named containers in turn. */
  function ContainerOf(page: Page): (r: Option<Container>)
    ensures page.article.Some? ==> r == page.article
    ensures page.article.None? && page.storytextClass.Some? ==> r == page.storytextClass
    ensures page.article.None? && page.storytextClass.None? && page.storyBodyClass.Some? ==> r == page.storyBodyClass
    ensures page.article.None? && page.storytextClass.None? && page.storyBodyClass.None? ==> r == page.storytextId
  {
    var lookups := [page.article, page.storytextClass, page.storyBodyClass, page.storytextId];
    assert lookups[0] == page.article && lookups[1] == page.storytextClass;
    assert lookups[2] == page.storyBodyClass && lookups[3] == page.storytextId;
    FirstFound(lookups)
  }

  // ---------------------------------------------------------------------------------------------
  // Text post-processing (lines 123-172)

  /** Line 132: a line is kept when it is longer than 20 characters. */
  predicate IsLongLine(line: string) {
    |line| > MinLineLength
  }

  /** Lines 123-124: the paragraphs, or the text blocks when the container has no paragraph. */
  function Blocks(c: Container): seq<string> {
    if |c.paragraphs| > 0 then c.paragraphs else c.textBlocks
  }

  /**
   * The kept lines come from the paragraphs whenever the container has one, and from the text
   * blocks only when it has none.
   */
  lemma LinesFromBlocks(c: Container)
    ensures forall line :: line in Filter(Blocks(c), IsLongLine) ==>
              if c.paragraphs != [] then line in c.paragraphs else line in c.textBlocks
  {
    forall line | line in Filter(Blocks(c), IsLongLine)
      ensures if c.paragraphs != [] then line in c.paragraphs else line in c.textBlocks
    {
      FilterKeepsMembers(Blocks(c), IsLongLine, line);
    }
  }

  /** Lines 126-133: the loop that appends every long enough line. */
  method CollectLines(blocks: seq<string>) returns (lines: seq<string>)
    ensures lines == Filter(blocks, IsLongLine)
  {
    lines := [];
    for i := 0 to |blocks|
      invariant lines == Filter(blocks[..i], IsLongLine)
    {
      var line := blocks[i];
      assert blocks[..i + 1][..i] == blocks[..i];
      if line != [] && |line| > MinLineLength {
        lines := lines + [line];
      }
    }
    assert blocks[..|blocks|] == blocks;
  }

  /** The kept lines are exactly the long ones, in their order, each as often as it occurred. */
  lemma CollectedLines(blocks: seq<string>)
    ensures forall i :: 0 <= i < |Filter(blocks, IsLongLine)| ==> |Filter(blocks, IsLongLine)[i]| > MinLineLength
    ensures IsSubsequence(Filter(blocks, IsLongLine), blocks)
    ensures forall line :: multiset(Filter(blocks, IsLongLine))[line] == if |line| > MinLineLength then multiset(blocks)[line] else 0
  {
    FilterIsSubsequence(blocks, IsLongLine);
    forall line
      ensures multiset(Filter(blocks, IsLongLine))[line] == if |line| > MinLineLength then multiset(blocks)[line] else 0
    {
      FilterCounts(blocks, IsLongLine, line);
    }
  }

  /** Line 139: every whitespace run becomes one space, then the ends are stripped. */
  function FoldSpace(s: string): string {
    Strip(Collapse(s, 1))
  }

  /** Line 160: every run of two or more whitespace characters becomes one space, then the ends are stripped. */
  function TidySpace(s: string): string {
    Strip(Collapse(s, 2))
  }

  /** After lines 139 and 160 the text has no whitespace at its ends and no whitespace run. */
  lemma FoldedText(s: string)
    ensures Folded(FoldSpace(s)) && Folded(TidySpace(s))
  {
    StripCollapseFolded(s, 1);
    StripCollapseFolded(s, 2);
  }

  /** After line 139 every whitespace character left is a plain space. */
  lemma FoldSpaceOnlySpaces(s: string)
    ensures forall i :: 0 <= i < |FoldSpace(s)| && IsSpace(FoldSpace(s)[i]) ==> FoldSpace(s)[i] == ' '
  {
    var c := Collapse(s, 1);
    CollapseOnlySpaces(s);
    var a := StripIsInfix(c);
    var f := FoldSpace(s);
    forall i | 0 <= i < |f| && IsSpace(f[i])
      ensures f[i] == ' '
    {
      assert f[i] == c[a + i];
    }
  }

  /** Lines 139 and 160 change whitespace only: the other characters stay, in their order. */
  lemma FoldingKeepsVisible(s: string)
    ensures Visible(FoldSpace(s)) == Visible(s) && Visible(TidySpace(s)) == Visible(s)
  {
    StripKeepsVisible(Collapse(s, 1));
    StripKeepsVisible(Collapse(s, 2));
    CollapseKeepsVisible(s, 1);
    CollapseKeepsVisible(s, 2);
  }

  /**
   * Line 139 is `" ".join(s.split())`: the words of `s` separated by single spaces. Line 160 keeps
   * every word: a whitespace run between two words is shortened, never removed.
   */
  lemma FoldingKeepsWords(s: string)
    ensures FoldSpace(s) == Join(" ", Words(s))
    ensures Words(TidySpace(s)) == Words(s)
  {
    StripCollapseFolded(s, 1);
    FoldSpaceOnlySpaces(s);
    FoldedIsJoinedWords(FoldSpace(s));
    StripKeepsWords(Collapse(s, 1));
    CollapseKeepsWords(s, 1);
    StripKeepsWords(Collapse(s, 2));
    CollapseKeepsWords(s, 2);
  }

  /** Lines 165-166: at most 5000 characters go on. */
  function Cap(s: string): (r: string)
    ensures |r| <= MaxTextLength
    ensures r <= s
    ensures |s| <= MaxTextLength ==> r == s
    ensures |s| > MaxTextLength ==> |r| == MaxTextLength
  {
    if |s| > MaxTextLength then s[..MaxTextLength] else s
  }

  /** Line 172: the `full_content` of a long enough text. */
  function Preview(text: string): (r: string)
    ensures |r| <= PreviewLength + |Ellipsis|
    ensures |text| <= PreviewLength ==> r == text
    ensures |text| > PreviewLength ==> |r| == PreviewLength + |Ellipsis| && r[..PreviewLength] <= text && r[PreviewLength..] == Ellipsis
  {
    if |text| > PreviewLength then text[..PreviewLength] + Ellipsis else text
  }

  /** The text after lines 135-166: joined lines, folded, the boilerplate chain, tidied, capped. */
  function CleanedText(c: Container, boilerplate: string -> string): string {
    Cap(TidySpace(boilerplate(FoldSpace(Join("\n", Filter(Blocks(c), IsLongLine))))))
  }

  /** Lines 165-172: the outcome of a matched container. */
  function ContainerExtraction(c: Container, boilerplate: string -> string): Extraction {
    var text := CleanedText(c, boilerplate);
    if |Strip(text)| < MinContentLength then Extraction(InsufficientContent, "")
    else Extraction(Preview(text), text)
  }

  /** Lines 123-172 as the source runs them: `full_article_text` reassigned step by step. */
  method ExtractContainer(c: Container, boilerplate: string -> string) returns (x: Extraction)
    ensures x == ContainerExtraction(c, boilerplate)
    ensures |x.text| <= MaxTextLength
    ensures x.text == "" ==> x.fullContent == InsufficientContent
    ensures x.text != "" ==> |Strip(x.text)| >= MinContentLength && x.fullContent == Preview(x.text)
  {
    var blocks := Blocks(c);
    var lines := CollectLines(blocks);
    var text := Join("\n", lines);
    text := FoldSpace(text);
    text := boilerplate(text);
    text := TidySpace(text);
    if |text| > MaxTextLength {
      text := text[..MaxTextLength];
    }
    assert text == CleanedText(c, boilerplate);
    if |Strip(text)| == 0 || |Strip(text)| < MinContentLength {
      x := Extraction(InsufficientContent, "");
    } else {
      var preview := if |text| > PreviewLength then text[..PreviewLength] + Ellipsis else text;
      assert preview == Preview(text);
      x := Extraction(preview, text);
    }
  }

  /** The text that reaches the summariser: at most 5000 characters, starting with no whitespace, with no whitespace run. */
  lemma CleanedTextShape(c: Container, boilerplate: string -> string)
    ensures |CleanedText(c, boilerplate)| <= MaxTextLength
    ensures NoSpaceRun(CleanedText(c, boilerplate))
    ensures CleanedText(c, boilerplate) == [] || !IsSpace(CleanedText(c, boilerplate)[0])
  {
    var tidy := TidySpace(boilerplate(FoldSpace(Join("\n", Filter(Blocks(c), IsLongLine)))));
    FoldedText(boilerplate(FoldSpace(Join("\n", Filter(Blocks(c), IsLongLine)))));
    NoSpaceRunInfix(tidy, 0, |CleanedText(c, boilerplate)|);
    assert CleanedText(c, boilerplate) == tidy[0..|CleanedText(c, boilerplate)|];
  }

  /** Line 106: `raise_for_status` raises `HTTPError` for a client error (4xx) or a server error (5xx). */
  predicate IsErrorStatus(status: int) {
    400 <= status < 600
  }

  /** Lines 103-192: the outcome of one page fetch. */
  function PageExtraction(outcome: PageOutcome, boilerplate: string -> string): Extraction {
    match outcome
    case ConnectionError(detail) => Extraction(ConnectionErrorPrefix + detail, "")
    case Timeout(detail) => Extraction(TimeoutPrefix + detail, "")
    case RequestError(detail) => Extraction(RequestErrorPrefix + detail, "")
    case UnexpectedError(detail) => Extraction(UnexpectedErrorPrefix + detail, "")
    case Response(status, errorText, page) =>
      if IsErrorStatus(status) then Extraction(HttpErrorPrefix + errorText, "")
      else if status != 200 then Extraction("", "")
      else
        match ContainerOf(page)
        case None => Extraction(NoContainer, "")
        case Some(c) => ContainerExtraction(c, boilerplate)
  }

  /**
   * `full_content` is at most 500 characters (a preview, a fixed placeholder or empty) unless the
   * fetch failed, in which case it is that failure's prefix followed by the exception text; an error
   * status is such a failure; text reaches the summariser only from a 200 response with a container.
   */
  lemma ExtractionOutcomes(outcome: PageOutcome, boilerplate: string -> string)
    ensures var x := PageExtraction(outcome, boilerplate);
            && (outcome.Response? && !IsErrorStatus(outcome.status) ==> |x.fullContent| <= PreviewLength + |Ellipsis|)
            && (outcome.Response? && IsErrorStatus(outcome.status) ==> x.fullContent == HttpErrorPrefix + outcome.errorText)
            && (outcome.ConnectionError? ==> x.fullContent == ConnectionErrorPrefix + outcome.detail)
            && (outcome.Timeout? ==> x.fullContent == TimeoutPrefix + outcome.detail)
            && (outcome.RequestError? ==> x.fullContent == RequestErrorPrefix + outcome.detail)
            && (outcome.UnexpectedError? ==> x.fullContent == UnexpectedErrorPrefix + outcome.detail)
            && (x.text != "" ==> outcome.Response? && outcome.status == 200 && ContainerOf(outcome.page).Some?)
            && |x.text| <= MaxTextLength
            && (x.text != "" ==> x.fullContent == Preview(x.text) && |Strip(x.text)| >= MinContentLength)
  {
    if outcome.Response? && outcome.status == 200 && ContainerOf(outcome.page).Some? {
      CleanedTextShape(ContainerOf(outcome.page).value, boilerplate);
    }
  }

  // ---------------------------------------------------------------------------------------------
  // Record assembly (lines 94-200)

  /**
   * Line 195: the summary is generated when the text is non-empty, longer than 100 characters and
   * not one of two placeholders. Both placeholders are 100 characters or shorter, so only the length counts.
   */
  predicate SummaryGate(text: string): (open: bool)
    ensures open <==> |text| > MinSummaryInput
  {
    text != "" && |text| > MinSummaryInput && text !in [InsufficientContentAsTested, NoContainer]
  }

  /** The record built for an entry that has a title and a link. */
  ghost function ArticleOf(e: Entry, env: Env): Article
    requires e.title.Some? && e.link.Some?
  {
    var x := PageExtraction(env.pageAt(e.link.value), env.boilerplate);
    Article(
      e.title.value,
      e.link.value,
      e.published.GetOr(NoPublished),
      e.summary.GetOr(NoOriginalSummary),
      x.fullContent,
      if SummaryGate(x.text) then SummaryOf(Some(x.text), SummarySentences, env.nlp) else SummaryUnavailable)
  }

  /** Lines 94-198 for one entry. */
  method BuildArticle(e: Entry, env: Env) returns (article: Article)
    requires e.title.Some? && e.link.Some?
    ensures article == ArticleOf(e, env)
  {
    var outcome := env.pageAt(e.link.value);
    var x: Extraction;
    match outcome {
      case ConnectionError(detail) =>
        x := Extraction(ConnectionErrorPrefix + detail, "");
      case Timeout(detail) =>
        x := Extraction(TimeoutPrefix + detail, "");
      case RequestError(detail) =>
        x := Extraction(RequestErrorPrefix + detail, "");
      case UnexpectedError(detail) =>
        x := Extraction(UnexpectedErrorPrefix + detail, "");
      case Response(status, errorText, page) =>
        if IsErrorStatus(status) {
          x := Extraction(HttpErrorPrefix + errorText, "");
        } else if status != 200 {
          x := Extraction("", "");
        } else {
          var container := ContainerOf(page);
          if container.None? {
            x := Extraction(NoContainer, "");
          } else {
            x := ExtractContainer(container.value, env.boilerplate);
          }
        }
    }
    assert x == PageExtraction(outcome, env.boilerplate);
    var generated: string;
    if SummaryGate(x.text) {
      generated := Summarize(Some(x.text), SummarySentences, env.nlp);
    } else {
      generated := SummaryUnavailable;
    }
    article := Article(
      e.title.value,
      e.link.value,
      e.published.GetOr(NoPublished),
      e.summary.GetOr(NoOriginalSummary),
      x.fullContent,
      generated);
  }

  /**
   * The generated summary is `summarize_text(text, 3)` exactly when the extracted text is longer than
   * 100 characters; every failed fetch, missing container, non-200 response or too short text
   * gives the fixed placeholder. An error status (a 404, say) shows as `"HTTP Error: ..."`.
   */
  lemma SummaryGating(e: Entry, env: Env)
    requires e.title.Some? && e.link.Some?
    ensures var outcome := env.pageAt(e.link.value);
            var x := PageExtraction(outcome, env.boilerplate);
            && (|x.text| > MinSummaryInput ==>
                  ArticleOf(e, env).generatedSummary == SummaryOf(Some(x.text), SummarySentences, env.nlp))
            && (|x.text| <= MinSummaryInput ==> ArticleOf(e, env).generatedSummary == SummaryUnavailable)
            && (!(outcome.Response? && outcome.status == 200) ==> ArticleOf(e, env).generatedSummary == SummaryUnavailable)
            && (outcome.Response? && IsErrorStatus(outcome.status) ==>
                  HttpErrorPrefix <= ArticleOf(e, env).fullContent && ArticleOf(e, env).generatedSummary == SummaryUnavailable)
  {
    ExtractionOutcomes(env.pageAt(e.link.value), env.boilerplate);
  }

  // ---------------------------------------------------------------------------------------------
  // The feed (lines 75-204)

  /** Every entry of the batch has the two attributes read unconditionally. */
  predicate WellFormed(batch: seq<Entry>) {
    forall i :: 0 <= i < |batch| ==> batch[i].title.Some? && batch[i].link.Some?
  }

  /** The records of a batch of well-formed entries, one per entry, in order. */
  ghost function ArticlesOf(batch: seq<Entry>, env: Env): (articles: seq<Article>)
    requires WellFormed(batch)
  {
    seq(|batch|, i requires 0 <= i < |batch| => ArticleOf(batch[i], env))
  }

  /** Extending a well-formed batch by one well-formed entry adds that entry's record at the end. */
  lemma ArticlesOfSnoc(batch: seq<Entry>, i: nat, env: Env)
    requires i < |batch| && WellFormed(batch[..i]) && batch[i].title.Some? && batch[i].link.Some?
    ensures WellFormed(batch[..i + 1])
    ensures ArticlesOf(batch[..i + 1], env) == ArticlesOf(batch[..i], env) + [ArticleOf(batch[i], env)]
  {
    var longer := batch[..i + 1];
    assert longer[..i] == batch[..i];
    forall k | 0 <= k <= i
      ensures longer[k].title.Some? && longer[k].link.Some?
    {
      if k < i {
        assert longer[k] == batch[..i][k];
      }
    }
    var a, b := ArticlesOf(longer, env), ArticlesOf(batch[..i], env) + [ArticleOf(batch[i], env)];
    assert |a| == |b|;
    forall k | 0 <= k <= i
      ensures a[k] == b[k]
    {
      assert longer[k] == batch[k];
      if k < i {
        assert batch[..i][k] == batch[k];
      }
    }
  }

  /**
   * `fetch_rss_news(url, limit)`: one record per entry of `entries[:limit]`, in feed order; an
   * empty list when parsing fails or when an entry lacks a title or a link (the `AttributeError`
   * reaches the outer handler).
   */
  ghost function FeedArticles(url: string, limit: int, env: Env): seq<Article> {
    match env.feedAt(url)
    case ParseError => []
    case Parsed(entries) =>
      var batch := Take(entries, limit);
      if WellFormed(batch) then ArticlesOf(batch, env) else []
  }

  method FetchFeed(url: string, limit: int, env: Env) returns (articles: seq<Article>)
    ensures articles == FeedArticles(url, limit, env)
  {
    var feed := env.feedAt(url);
    if feed.ParseError? || feed.entries == [] {
      return [];
    }
    var batch := Take(feed.entries, limit);
    articles := [];
    for i := 0 to |batch|
      invariant WellFormed(batch[..i])
      invariant articles == ArticlesOf(batch[..i], env)
    {
      var entry := batch[i];
      if entry.title.None? || entry.link.None? {
        assert !WellFormed(batch);
        return [];
      }
      var article := BuildArticle(entry, env);
      ArticlesOfSnoc(batch, i, env);
      articles := articles + [article];
    }
    assert batch[..|batch|] == batch;
  }

  /**
   * The records follow `entries[:limit]` one to one and in order, each carrying its entry's title
   * and link; a feed with no entries gives no records.
   */
  lemma FeedOrder(url: string, limit: int, env: Env)
    requires env.feedAt(url).Parsed?
    ensures var batch := Take(env.feedAt(url).entries, limit);
            var articles := FeedArticles(url, limit, env);
            && (WellFormed(batch) ==> |articles| == |batch|)
            && (!WellFormed(batch) ==> articles == [])
            && |articles| <= (if limit < 0 then |env.feedAt(url).entries| else limit)
            && (forall i :: 0 <= i < |articles| ==>
                  articles[i].title == batch[i].title.value && articles[i].link == batch[i].link.value)
            && (env.feedAt(url).entries == [] ==> articles == [])
  {

  }
}
