/**
 * The home page and the preferences form: the stored preferences are normalised (article count,
 * keyword lists, feed list), up to 25 records are fetched from every feed, the combined list is
 * filtered by the wanted and unwanted keywords, and its first records are displayed.
 */
module App {
  import opened Optional
  import opened Text
  import opened NewsFetcher

  /** The feeds used until the form has been submitted. */
  const DefaultFeeds: seq<string> := ["https://www.npr.org/rss/rss.php?id=1001"]
  /** The number of records displayed when none valid is stored. */
  const DefaultCount := 10
  const FewestArticles := 1
  const MostArticles := 50
  /** Records requested from each feed. */
  const PerFeed := 25

  /**
   * The preferences stored by the form, each absent until first saved. `numArticles` is the stored
   * text; before any save the default is the number 10 itself.
   */
  datatype Session = Session(
    rssFeeds: Option<seq<string>>,
    keywords: Option<string>,
    excludeKeywords: Option<string>,
    numArticles: Option<string>)

  /** The form fields, each absent when not submitted. */
  datatype Form = Form(
    rssFeeds: Option<string>,
    keywords: Option<string>,
    excludeKeywords: Option<string>,
    numArticles: Option<string>)

  // ---------------------------------------------------------------------------------------------
  // Normalisation

  /**
   * app.py:29-34: the stored count when it parses as an integer in [1, 50], otherwise 10.
   * `parseInt` is Python's `int()` on a string, `None` where it raises.
   */
  function ArticleCount(stored: Option<string>, parseInt: string -> Option<int>): (n: int)
    ensures FewestArticles <= n <= MostArticles
    ensures n != DefaultCount ==> stored.Some? && parseInt(stored.value) == Some(n)
    ensures stored.Some? && parseInt(stored.value).Some? && FewestArticles <= parseInt(stored.value).value <= MostArticles
            ==> n == parseInt(stored.value).value
  {
    match stored
    case None => DefaultCount
    case Some(text) =>
      match parseInt(text)
      case None => DefaultCount
      case Some(v) => if FewestArticles <= v <= MostArticles then v else DefaultCount
  }

  /** `[p.strip() for p in parts]`. */
  function StripEach(parts: seq<string>): (r: seq<string>)
    ensures |r| == |parts|
    ensures forall i :: 0 <= i < |r| ==> r[i] == Strip(parts[i])
  {
    seq(|parts|, i requires 0 <= i < |parts| => Strip(parts[i]))
  }

  predicate NonBlank(s: string) {
    s != ""
  }

  /** `[p.strip() for p in parts if p.strip()]`. */
  function StripAll(parts: seq<string>): (r: seq<string>)
    ensures forall i :: 0 <= i < |r| ==> r[i] != "" && Trimmed(r[i])
  {
    var stripped := StripEach(parts);
    assert forall p :: p in stripped ==> Trimmed(p);
    var r := Filter(stripped, NonBlank);
    FilterIsSubsequence(stripped, NonBlank);
    forall i | 0 <= i < |r|
      ensures Trimmed(r[i])
    {
      FilterCounts(stripped, NonBlank, r[i]);
      assert r[i] in multiset(r);
    }
    r
  }

  /**
   * The kept entries are the stripped parts that are not blank, in input order, each as often as
   * it occurs.
   */
  lemma StripAllFacts(parts: seq<string>)
    ensures IsSubsequence(StripAll(parts), StripEach(parts))
    ensures forall p :: multiset(StripAll(parts))[p] == if p != "" then multiset(StripEach(parts))[p] else 0
  {
    FilterIsSubsequence(StripEach(parts), NonBlank);
    forall p
      ensures multiset(StripAll(parts))[p] == if p != "" then multiset(StripEach(parts))[p] else 0
    {
      FilterCounts(StripEach(parts), NonBlank, p);
    }
  }

  /** Stripping brings in no character: a separator absent from every part is absent from every kept entry. */
  lemma NoSepAfterStrip(parts: seq<string>, k: string, sep: char)
    requires forall p :: p in parts ==> sep !in p
    requires k in StripAll(parts)
    ensures sep !in k
  {
    FilterKeepsMembers(StripEach(parts), NonBlank, k);
    var j :| 0 <= j < |parts| && StripEach(parts)[j] == k;
    assert parts[j] in parts;
    StripKeepsOut(parts[j], sep);
  }

  /** Lines 45-46: the comma-separated list, entries stripped, blank ones dropped, lowercased. */
  function ParseKeywords(s: string): (keywords: seq<string>)
    ensures forall i :: 0 <= i < |keywords| ==> keywords[i] != "" && Trimmed(keywords[i])
    ensures forall i :: 0 <= i < |keywords| ==> ',' !in keywords[i]
    ensures forall i, j :: 0 <= i < |keywords| && 0 <= j < |keywords[i]| ==> !IsUpper(keywords[i][j])
  {
    var parts := Split(s, ',');
    var kept := StripAll(parts);
    forall i | 0 <= i < |kept|
      ensures ',' !in kept[i]
    {
      NoSepAfterStrip(parts, kept[i], ',');
    }
    LowerAllFacts(kept, ',');
    LowerAll(kept)
  }

  /** `[k.lower() for k in ks]`. */
  function LowerAll(ks: seq<string>): (r: seq<string>)
    ensures |r| == |ks|
    ensures forall i :: 0 <= i < |r| ==> r[i] == Lower(ks[i])
  {
    seq(|ks|, i requires 0 <= i < |ks| => Lower(ks[i]))
  }

  /** Lower-casing keeps an entry non-empty and trimmed, and brings in no punctuation. */
  lemma LowerAllFacts(ks: seq<string>, sep: char)
    requires forall i :: 0 <= i < |ks| ==> ks[i] != "" && Trimmed(ks[i]) && sep !in ks[i]
    requires !('A' as int + 32 <= sep as int <= 'Z' as int + 32)
    ensures forall i :: 0 <= i < |LowerAll(ks)| ==> LowerAll(ks)[i] != "" && Trimmed(LowerAll(ks)[i]) && sep !in LowerAll(ks)[i]
  {
    forall i | 0 <= i < |ks|
      ensures LowerAll(ks)[i] != "" && Trimmed(LowerAll(ks)[i]) && sep !in LowerAll(ks)[i]
    {
      var k, l := ks[i], Lower(ks[i]);
      assert IsSpace(l[0]) <==> IsSpace(k[0]);
      assert IsSpace(l[|l| - 1]) <==> IsSpace(k[|k| - 1]);
      forall j | 0 <= j < |l|
        ensures l[j] != sep
      {
        assert k[j] != sep;
      }
    }
  }

  /** Line 81-82: the text stripped, split at newlines, entries stripped, blank ones dropped. */
  function ParseFeeds(s: string): (feeds: seq<string>)
    ensures forall i :: 0 <= i < |feeds| ==> feeds[i] != "" && Trimmed(feeds[i]) && '\n' !in feeds[i]
  {
    var parts := Split(Strip(s), '\n');
    var kept := StripAll(parts);
    forall i | 0 <= i < |kept|
      ensures '\n' !in kept[i]
    {
      NoSepAfterStrip(parts, kept[i], '\n');
    }
    kept
  }

  /** What saving the form stores (lines 81-92). */
  function Customize(form: Form): (session: Session)
    ensures session.rssFeeds.Some? && session.keywords.Some? && session.excludeKeywords.Some? && session.numArticles.Some?
    ensures Trimmed(session.keywords.value) && Trimmed(session.excludeKeywords.value) && Trimmed(session.numArticles.value)
    ensures form.numArticles.None? ==> session.numArticles == Some("10")
  {
    assert Trimmed("10");
    Session(
      Some(ParseFeeds(form.rssFeeds.GetOr(""))),
      Some(Strip(form.keywords.GetOr(""))),
      Some(Strip(form.excludeKeywords.GetOr(""))),
      Some(Strip(form.numArticles.GetOr("10"))))
  }

  // ---------------------------------------------------------------------------------------------
  // Canonical forms of the parsed lists

  /** A joined list of non-empty trimmed entries starts with its first entry's first character and ends with its last entry's last character. */
  lemma {:induction false} JoinEnds(sep: string, parts: seq<string>)
    requires |parts| >= 1 && forall i :: 0 <= i < |parts| ==> parts[i] != ""
    ensures Join(sep, parts) != []
    ensures Join(sep, parts)[0] == parts[0][0]
    ensures Join(sep, parts)[|Join(sep, parts)| - 1] == parts[|parts| - 1][|parts[|parts| - 1]| - 1]
    decreases |parts|
  {
    if |parts| > 1 {
      JoinEnds(sep, parts[1..]);
      var rest := Join(sep, parts[1..]);
      assert Join(sep, parts) == parts[0] + sep + rest;
    }
  }

  /** Entries that are already stripped and non-blank pass `StripAll` unchanged. */
  lemma StripAllOfClean(parts: seq<string>)
    requires forall i :: 0 <= i < |parts| ==> parts[i] != "" && Trimmed(parts[i])
    ensures StripAll(parts) == parts
  {
    assert StripEach(parts) == parts;
    FilterAll(parts, NonBlank);
  }

  /** A string with no upper-case letter is its own lower-case form. */
  lemma LowerOfLower(s: string)
    requires forall j :: 0 <= j < |s| ==> !IsUpper(s[j])
    ensures Lower(s) == s
  {
    assert forall j :: 0 <= j < |s| ==> Lower(s)[j] == LowerChar(s[j]) == s[j];
  }

  /** Saving the parsed keywords again, joined by commas, gives the same keyword list. */
  lemma KeywordsCanonical(s: string)
    ensures ParseKeywords(Join(",", ParseKeywords(s))) == ParseKeywords(s)
  {
    var ks := ParseKeywords(s);
    if ks == [] {
      NoKeywordsReadBack();
    } else {
      CleanKeywordsReadBack(ks);
    }
  }

  /** An empty text gives no keyword. */
  lemma NoKeywordsReadBack()
    ensures ParseKeywords("") == []
  {
    assert Split("", ',') == [""];
    assert StripEach([""]) == [""];
  }

  /** Non-blank, stripped, lower-case keywords without a comma are read back from their comma-joined form. */
  lemma CleanKeywordsReadBack(ks: seq<string>)
    requires |ks| >= 1
    requires forall i :: 0 <= i < |ks| ==> ks[i] != "" && Trimmed(ks[i]) && ',' !in ks[i]
    requires forall i, j :: 0 <= i < |ks| && 0 <= j < |ks[i]| ==> !IsUpper(ks[i][j])
    ensures LowerAll(StripAll(Split(Join(",", ks), ','))) == ks
  {
    SplitJoin(ks, ',');
    StripAllOfClean(ks);
    LowerAllOfLower(ks);
  }

  /** Lower-casing entries with no upper-case letter changes nothing. */
  lemma LowerAllOfLower(ks: seq<string>)
    requires forall i, j :: 0 <= i < |ks| && 0 <= j < |ks[i]| ==> !IsUpper(ks[i][j])
    ensures LowerAll(ks) == ks
  {
    forall i | 0 <= i < |ks|
      ensures LowerAll(ks)[i] == ks[i]
    {
      LowerOfLower(ks[i]);
    }
  }

  /** Saving the parsed feed list again, one address per line, gives the same list. */
  lemma FeedsCanonicalForm(s: string)
    ensures ParseFeeds(Join("\n", ParseFeeds(s))) == ParseFeeds(s)
  {
    FeedsCanonical(ParseFeeds(s));
  }

  /** A list of non-blank stripped feed addresses, one per line, is read back as the same list. */
  lemma FeedsCanonical(feeds: seq<string>)
    requires forall i :: 0 <= i < |feeds| ==> feeds[i] != "" && Trimmed(feeds[i]) && '\n' !in feeds[i]
    ensures ParseFeeds(Join("\n", feeds)) == feeds
  {
    if feeds == [] {
      NoFeedsReadBack();
    } else {
      JoinTrimmed("\n", feeds);
      forall p | p in feeds
        ensures '\n' !in p
      {
      }
      SplitJoin(feeds, '\n');
      StripAllOfClean(feeds);
    }
  }

  /** An empty text saves an empty feed list. */
  lemma NoFeedsReadBack()
    ensures ParseFeeds("") == []
  {
    assert Strip("") == "";
    assert Split("", '\n') == [""];
    assert StripEach([""]) == [""];
  }

  /** Joining non-empty trimmed entries gives a trimmed text. */
  lemma JoinTrimmed(sep: string, parts: seq<string>)
    requires |parts| >= 1 && forall i :: 0 <= i < |parts| ==> parts[i] != "" && Trimmed(parts[i])
    ensures Trimmed(Join(sep, parts))
  {
    JoinEnds(sep, parts);
    assert Trimmed(parts[0]) && Trimmed(parts[|parts| - 1]);
  }

  // ---------------------------------------------------------------------------------------------
  // Filtering (lines 45-65)

  /** `kw` is a substring of the lower-cased title, teaser, preview or generated summary. */
  predicate Mentions(a: Article, kw: string) {
    Contains(Lower(a.title), kw) || Contains(Lower(a.summary), kw)
    || Contains(Lower(a.fullContent), kw) || Contains(Lower(a.generatedSummary), kw)
  }

  /**
   * The four fields are lower-cased before the test, so a keyword with an upper-case letter never
   * matches; lower-casing the keywords when they are parsed (lines 45-46) is what makes the test
   * case-insensitive.
   */
  lemma UpperKeywordNeverMatches(a: Article, kw: string, j: nat)
    requires j < |kw| && IsUpper(kw[j])
    ensures !Mentions(a, kw)
  {
    ContainsNoUpper(Lower(a.title), kw, j);
    ContainsNoUpper(Lower(a.summary), kw, j);
    ContainsNoUpper(Lower(a.fullContent), kw, j);
    ContainsNoUpper(Lower(a.generatedSummary), kw, j);
  }

  /** `any(kw in ... for kw in keywords)`. */
  predicate MentionsAny(a: Article, keywords: seq<string>) {
    exists i :: 0 <= i < |keywords| && Mentions(a, keywords[i])
  }

  /** Lines 56-63: the wanted test applies only to a non-empty wanted list; the unwanted test rejects any mention. */
  predicate Keep(wanted: seq<string>, unwanted: seq<string>, a: Article) {
    (wanted == [] || MentionsAny(a, wanted)) && (unwanted == [] || !MentionsAny(a, unwanted))
  }

  function Keeper(wanted: seq<string>, unwanted: seq<string>): Article -> bool {
    a => Keep(wanted, unwanted, a)
  }

  /** Lines 48-65: the loop that appends each article passing both tests. */
  method FilterArticles(all: seq<Article>, wanted: seq<string>, unwanted: seq<string>) returns (kept: seq<Article>)
    ensures kept == Filter(all, Keeper(wanted, unwanted))
  {
    kept := [];
    for i := 0 to |all|
      invariant kept == Filter(all[..i], Keeper(wanted, unwanted))
    {
      var article := all[i];
      assert all[..i + 1][..i] == all[..i];
      if wanted != [] && !MentionsAny(article, wanted) {
        continue;
      }
      if unwanted != [] && MentionsAny(article, unwanted) {
        continue;
      }
      kept := kept + [article];
    }
    assert all[..|all|] == all;
  }

  /**
   * The keyword filter: a kept article mentions some wanted keyword (when there is one) and no
   * unwanted keyword; every article doing so is kept, as often as it occurs; the kept list is in
   * the fetched order; with no keyword at all nothing is dropped.
   */
  lemma FilterFacts(all: seq<Article>, wanted: seq<string>, unwanted: seq<string>)
    ensures var kept := Filter(all, Keeper(wanted, unwanted));
            && (forall a :: a in kept && wanted != [] ==> exists k :: k in wanted && Mentions(a, k))
            && (forall a, k :: a in kept && k in unwanted ==> !Mentions(a, k))
            && (forall a :: multiset(kept)[a] == if Keep(wanted, unwanted, a) then multiset(all)[a] else 0)
            && IsSubsequence(kept, all)
            && (wanted == [] && unwanted == [] ==> kept == all)
  {
    var kept := Filter(all, Keeper(wanted, unwanted));
    forall a | a in kept
      ensures Keep(wanted, unwanted, a)
    {
      var i :| 0 <= i < |kept| && kept[i] == a;
      assert Keeper(wanted, unwanted)(kept[i]);
    }
    forall a | a in kept && wanted != []
      ensures exists k :: k in wanted && Mentions(a, k)
    {
      var i :| 0 <= i < |wanted| && Mentions(a, wanted[i]);
      assert wanted[i] in wanted;
    }
    forall a, k | a in kept && k in unwanted
      ensures !Mentions(a, k)
    {
      var j :| 0 <= j < |unwanted| && unwanted[j] == k;
    }
    forall a
      ensures multiset(kept)[a] == if Keep(wanted, unwanted, a) then multiset(all)[a] else 0
    {
      FilterCounts(all, Keeper(wanted, unwanted), a);
    }
    FilterIsSubsequence(all, Keeper(wanted, unwanted));
    if wanted == [] && unwanted == [] {
      FilterAll(all, Keeper(wanted, unwanted));
    }
  }

  // ---------------------------------------------------------------------------------------------
  // Aggregation and display (lines 36-41, 67-68)

  /** Lines 37-41: the records of every feed, 25 requested from each, concatenated in feed order. */
  ghost function Combined(feeds: seq<string>, env: Env): seq<Article> {
    if feeds == [] then [] else Combined(feeds[..|feeds| - 1], env) + FeedArticles(feeds[|feeds| - 1], PerFeed, env)
  }

  method Aggregate(feeds: seq<string>, env: Env) returns (all: seq<Article>)
    ensures all == Combined(feeds, env)
  {
    all := [];
    for i := 0 to |feeds|
      invariant all == Combined(feeds[..i], env)
    {
      var fromFeed := FetchFeed(feeds[i], PerFeed, env);
      assert feeds[..i + 1][..i] == feeds[..i];
      all := all + fromFeed;
    }
    assert feeds[..|feeds|] == feeds;
  }

  /** Each feed contributes at most 25 records, so the combined list has at most 25 per feed. */
  lemma {:induction false} CombinedSize(feeds: seq<string>, env: Env)
    ensures |Combined(feeds, env)| <= PerFeed * |feeds|
    decreases |feeds|
  {
    if feeds != [] {
      CombinedSize(feeds[..|feeds| - 1], env);
      var last := feeds[|feeds| - 1];
      match env.feedAt(last) {
        case ParseError =>
        case Parsed(entries) =>
          FeedOrder(last, PerFeed, env);
      }
    }
  }

  /** What the home page displays for the stored preferences. */
  ghost function HomeView(session: Session, parseInt: string -> Option<int>, env: Env): seq<Article> {
    var feeds := session.rssFeeds.GetOr(DefaultFeeds);
    var wanted := ParseKeywords(session.keywords.GetOr(""));
    var unwanted := ParseKeywords(session.excludeKeywords.GetOr(""));
    Take(Filter(Combined(feeds, env), Keeper(wanted, unwanted)), ArticleCount(session.numArticles, parseInt))
  }

  /** Lines 21-68: the articles the home page renders. */
  method Home(session: Session, parseInt: string -> Option<int>, env: Env) returns (display: seq<Article>)
    ensures display == HomeView(session, parseInt, env)
  {
    var feeds := session.rssFeeds.GetOr(DefaultFeeds);
    var count := ArticleCount(session.numArticles, parseInt);
    var all := Aggregate(feeds, env);
    var wanted := ParseKeywords(session.keywords.GetOr(""));
    var unwanted := ParseKeywords(session.excludeKeywords.GetOr(""));
    var filtered := FilterArticles(all, wanted, unwanted);
    display := filtered[..if count < |filtered| then count else |filtered|];
    assert display == Take(filtered, count);
  }

  /**
   * The displayed list is the first min(n, |filtered|) filtered records, n in [1, 50]; a saved
   * but empty feed list fetches nothing, while a session with no saved feeds uses the default feed.
   */
  lemma DisplayFacts(session: Session, parseInt: string -> Option<int>, env: Env)
    ensures var wanted := ParseKeywords(session.keywords.GetOr(""));
            var unwanted := ParseKeywords(session.excludeKeywords.GetOr(""));
            var filtered := Filter(Combined(session.rssFeeds.GetOr(DefaultFeeds), env), Keeper(wanted, unwanted));
            var n := ArticleCount(session.numArticles, parseInt);
            var display := HomeView(session, parseInt, env);
            && display <= filtered
            && |display| == (if n < |filtered| then n else |filtered|)
            && |display| <= MostArticles
            && (session.rssFeeds == Some([]) ==> display == [])
            && (session.rssFeeds.None? ==> Combined(session.rssFeeds.GetOr(DefaultFeeds), env) == FeedArticles(DefaultFeeds[0], PerFeed, env))
  {
    assert DefaultFeeds[..0] == [];
  }
}
