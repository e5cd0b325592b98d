# News aggregator: extraction, summarisation and filtering, modelled in Dafny

The news aggregator is a small Flask application. For each RSS feed the user chooses, it:

1. fetches up to 25 entries;
2. downloads each linked page and finds the article container;
3. turns the container's paragraphs into cleaned text;
4. keeps a preview of at most 500 characters of that text;
5. writes an extractive summary of at most three sentences when the text is longer than 100 characters. Only a sentence holding a counted word can be chosen, so the summary is empty when words are counted but no sentence holds one. When no word is counted at all, the summary is the first sentence, or a fixed message when there is no sentence.

The home page joins the records of every feed. It keeps those that mention no unwanted keyword and, when wanted keywords are set, at least one of them. It shows the first n of them, n being the stored article count (1 to 50, default 10), or fewer when fewer pass the filter. The preferences form stores the feed list, the two keyword texts and the article count.

The model has five modules:

- `Optional`: the `Option` type. It stands for Python's `None`, a missing attribute and a missing session or form key.
- `Text`: the parts of Python's `str` and list behaviour that the pipeline relies on:
  - `str.isspace` and the `\s` class of `re`;
  - `strip()`, and ASCII `lower()`;
  - `split` on one character, and `join`;
  - substring tests;
  - the two whitespace-folding `re.sub` calls;
  - list comprehensions with a filter;
  - slices `s[:n]`.
- `Summarizer`: `summarize_text`. Each loop is a method proved equal to a specification function: word counting, the maximum, normalisation, sentence scoring and top-n selection. The properties that `summarize_text` promises are proved about those functions.
- `NewsFetcher`: the post-processing inside `fetch_rss_news`:
  - the container choice;
  - line filtering;
  - whitespace folding;
  - the 5000-character cap;
  - the 500-character preview;
  - the failure placeholders;
  - the summary gate;
  - the loop that assembles the records.
- `App`: the home page and the preferences form:
  - the article count;
  - keyword and feed parsing, with round trips;
  - the keyword filter loop;
  - aggregation over feeds;
  - the displayed slice.

Several things outside the code are parameters of the model. They are the feed parser, the page fetcher, the HTML lookups, the regular-expression boilerplate chain, the NLTK tokenisers and stopword list, and Python's `int()`.

Three behaviours of the code are worth knowing:

- **Which sentences can be chosen.** Only sentences containing a word from the frequency table get a score, so only they can be selected. "Fewer sentences than requested" therefore selects every *scored* sentence, not every sentence. When the table has words but no sentence token matches one of them, the summary is the empty string rather than a fallback (`Summarizer.UnscoredSummaryIsEmpty`). This happens because sentences are tokenised from the original text and the table from the letters-only text.
- **What the summary gate tests.** The gate tests the cleaned text `full_article_text`, not the `full_content` field. Its placeholder list names "…after cleaning.", but the text actually stored is "…after aggressive cleaning.". Both placeholders are 100 characters or shorter, so the gate reduces to "longer than 100 characters" (`NewsFetcher.SummaryGate`).
- **Ties in the top-n selection.** They are broken by the earlier sentence. `heapq.nlargest` is a stable sort, and the score table is filled in sentence order.

## Model

| member | source | states |
|---|---|---|
| Text.Strip | news_fetcher.py:17 | `strip()` gives a string with no whitespace at either end, empty exactly when the input is all whitespace, never longer, and unchanged when the input has no whitespace at its ends |
| Text.StripKeepsVisible | news_fetcher.py:139 | stripping removes whitespace only: the non-whitespace characters stay, in order |
| Text.Lower | app.py:50-53 | `lower()` keeps the length, leaves no upper-case letter, keeps every character's whitespace class and changes only A-Z |
| Text.Split | app.py:45 | `split(sep)` gives at least one piece and no piece contains the separator |
| Text.JoinSplit | app.py:45 | joining the pieces of a split with the separator gives the input back |
| Text.SplitJoin | app.py:82 | splitting a join on a separator that no piece contains gives the pieces back (so a join of lines with newline, as the fetcher builds its text, loses nothing) |
| Text.Collapse | news_fetcher.py:139 | folding whitespace runs gives an empty result only for an empty input, keeps whether the text starts with whitespace, and never lengthens it; that it keeps every word is `Text.CollapseKeepsWords` |
| Text.CollapseKeepsWords | news_fetcher.py:139 | replacing `\s+` or `\s{2,}` by one space keeps the words (`s.split()`) unchanged: no two words merge and none splits |
| Text.CollapseNoRun | news_fetcher.py:160 | after `\s+` or `\s{2,}` is replaced by one space, no two whitespace characters are adjacent |
| Text.CollapseOnlySpaces | news_fetcher.py:139 | after `\s+` is replaced by one space, every whitespace character left is a plain space |
| Text.CollapseKeepsVisible | news_fetcher.py:139 | folding whitespace runs keeps every non-whitespace character, in order |
| Text.CollapseStaysWithin | news_fetcher.py:22-23 | folding brings in no character but the space: a property of every input character and of the space holds of every output character |
| Text.WordsShape | news_fetcher.py:139 | every word of `s.split()` is non-empty and contains no whitespace |
| Text.StripKeepsWords | news_fetcher.py:139 | `strip()` keeps the words unchanged |
| Text.FoldedIsJoinedWords | news_fetcher.py:139 | text with no whitespace at its ends, no whitespace run and only plain spaces is its words joined by single spaces |
| Text.StripCollapseFolded | news_fetcher.py:139 | folding then stripping leaves no whitespace at the ends and no whitespace run |
| Text.ContainsIsInfix | app.py:57-62 | `kw in field` holds exactly when `kw` is a contiguous piece of the field |
| Text.ContainsNoUpper | app.py:50-57 | a needle with an upper-case letter is never found in text without one |
| Text.Filter | app.py:82 | a filtered comprehension keeps only elements passing the test and is never longer than its input |
| Text.FilterCounts | app.py:82 | a filtered comprehension keeps each passing element exactly as often as it occurs and drops every other element |
| Text.FilterIsSubsequence | app.py:48-65 | a filtered list keeps the input order |
| Text.FilterAll | app.py:56-63 | when every element passes, the filtered list is the input |
| Text.Take | app.py:68 | `s[:n]` is a prefix of `s` with min(n, len) elements, and for negative n drops the last -n |
| Summarizer.FormattedShape | news_fetcher.py:22-24 | the text words are counted in consists of lower-case ASCII letters and single spaces |
| Summarizer.CountWords | news_fetcher.py:38-41 | the frequency table maps exactly the non-stopword words to their number of occurrences |
| Summarizer.CountsPositive | news_fetcher.py:38-41 | every word in the table occurs at least once |
| Summarizer.MaxFrequency | news_fetcher.py:48 | the result is one of the counts and no count exceeds it, so it equals the specification maximum `MaxCount` |
| Summarizer.Normalise | news_fetcher.py:49-50 | every word's weight is its count divided by the largest count |
| Summarizer.WeightsInUnitInterval | news_fetcher.py:47-50 | every weight lies in (0, 1] and the most frequent word weighs exactly 1 |
| Summarizer.ScoreSentences | news_fetcher.py:53-57 | a sentence has a score exactly when one of its tokens is in the table, and the score is the sum of its tokens' weights |
| Summarizer.WeightSumPositive | news_fetcher.py:53-57 | a sentence with a word in the table scores above zero |
| Summarizer.WeightSumIsScaledCountSum | news_fetcher.py:49-57 | a sentence's weight sum is its raw count sum divided by the largest count |
| Summarizer.RankingByCounts | news_fetcher.py:47-60 | ranking sentences by score is ranking them by raw count sum |
| Summarizer.Best | news_fetcher.py:60 | the candidate returned ranks ahead of every other candidate (higher score, or equal score and earlier index) |
| Summarizer.LargestN | news_fetcher.py:60 | `nlargest(n, scores)` chooses min(n, number scored) indices, each ranking ahead of every index left out; it equals `TopOf`, the unique set with that property |
| Summarizer.TopExists | news_fetcher.py:60 | every score table has a top-n selection |
| Summarizer.TopUnique | news_fetcher.py:60 | the top-n selection is determined by the scores: two selections are equal |
| Summarizer.TopOf | news_fetcher.py:60 | the selection used by the summary is a top-n selection |
| Summarizer.TopFacts | news_fetcher.py:60 | at most n indices are chosen, each scoring at least as high as every one left out, and all are chosen when there are no more than n |
| Summarizer.EligibleSentences | news_fetcher.py:53-57 | sentence i is scored exactly when it exists and has a word in the table, and its score is positive |
| Summarizer.SelectionFacts | news_fetcher.py:53-60 | the selected sentences are scored ones, at most n, outscore or tie every scored sentence left out, and are all of them when no more than n are scored |
| Summarizer.Ascending | news_fetcher.py:63 | `sorted(chosen)` lists exactly the chosen indices, strictly increasing |
| Summarizer.SummaryIsOrderedSelection | news_fetcher.py:59-65 | past the early returns, the summary is the chosen sentences verbatim, in strictly increasing original order, joined by single spaces |
| Summarizer.UnscoredSummaryIsEmpty | news_fetcher.py:53-65 | when the table has words but no sentence contains one, the summary is the empty string |
| Summarizer.NoSentenceScored | news_fetcher.py:53-57 | no sentence with a table word means an empty score table |
| Summarizer.Summarize | news_fetcher.py:16-65 | the result is the specified summary; an absent or empty text gives "Not enough content to summarize.", a text stripping to under 50 characters gives its stripped form, and a text with no non-stopword gives its first sentence or "Could not generate summary." |
| NewsFetcher.FirstFound | news_fetcher.py:112-115 | the `or` chain gives nothing exactly when every lookup gives nothing, and otherwise the first lookup that found a tag |
| NewsFetcher.ContainerOf | news_fetcher.py:112-115 | the container is the `article` element when there is one, else the `storytext` class, else the `story-body` class, else the `storytext` id |
| NewsFetcher.LinesFromBlocks | news_fetcher.py:123-133 | the kept lines come from the paragraphs whenever the container has one, and from the text blocks only when it has none |
| NewsFetcher.CollectLines | news_fetcher.py:126-133 | the appending loop keeps exactly the lines longer than 20 characters, in order |
| NewsFetcher.CollectedLines | news_fetcher.py:126-133 | every kept line is longer than 20 characters, the kept lines are a subsequence of the paragraphs, and each long line is kept as often as it occurs |
| NewsFetcher.FoldedText | news_fetcher.py:139-160 | after line 139 and after line 160 the text has no whitespace at its ends and no whitespace run |
| NewsFetcher.FoldingKeepsWords | news_fetcher.py:139-160 | line 139 gives `" ".join(s.split())`, the words separated by single spaces; line 160 keeps every word |
| NewsFetcher.FoldSpaceOnlySpaces | news_fetcher.py:139 | after line 139 every whitespace character is a plain space |
| NewsFetcher.FoldingKeepsVisible | news_fetcher.py:139-160 | lines 139 and 160 change whitespace only: every other character stays, in order |
| NewsFetcher.Cap | news_fetcher.py:165-166 | the text passed on is a prefix of the text: the whole text when it has at most 5000 characters, and exactly its first 5000 characters otherwise |
| NewsFetcher.Preview | news_fetcher.py:172 | the preview has at most 500 characters; it is the text itself up to 497 characters, otherwise its first 497 characters followed by "..." |
| NewsFetcher.ExtractContainer | news_fetcher.py:123-172 | a container gives either the "insufficient content" placeholder with no text, or text of at most 5000 characters whose stripped form has at least 50 characters, with its preview as `full_content` |
| NewsFetcher.CleanedTextShape | news_fetcher.py:135-166 | the cleaned text has at most 5000 characters, does not start with whitespace and has no whitespace run |
| NewsFetcher.ExtractionOutcomes | news_fetcher.py:103-192 | a response with a status in [400, 600) gives "HTTP Error: " followed by the error text, as `raise_for_status` makes it; any other response gives a `full_content` of at most 500 characters; each other exception gives its own prefix followed by the error text; text reaches the summariser only from a 200 response with a container, and then has at least 50 stripped characters and is previewed |
| NewsFetcher.SummaryGate | news_fetcher.py:195 | the gate opens exactly for text longer than 100 characters |
| NewsFetcher.BuildArticle | news_fetcher.py:94-200 | the record built for an entry is the specified record: title, link, published date or "N/A", teaser or "No summary available.", extraction outcome and gated summary |
| NewsFetcher.SummaryGating | news_fetcher.py:194-198 | the generated summary is `summarize_text(text, 3)` exactly when the text is longer than 100 characters, and the placeholder otherwise and after every failed or non-200 fetch; an error status such as 404 shows as "HTTP Error: ..." with the placeholder summary |
| NewsFetcher.FetchFeed | news_fetcher.py:75-204 | the fetch loop returns the specified records of `entries[:limit]`, or an empty list on a parse failure or an entry without title or link |
| NewsFetcher.FeedOrder | news_fetcher.py:85-101 | there is one record per entry of `entries[:limit]`, in feed order, each carrying its entry's title and link; none when there are no entries or one lacks a title or link; never more than the limit |
| App.ArticleCount | app.py:29-34 | the count is in [1, 50]; it is the stored value whenever that parses to an integer in range, and anything but 10 only then |
| App.StripAll | app.py:82 | every kept entry is non-empty and has no whitespace at its ends |
| App.StripAllFacts | app.py:82 | the kept entries are the non-blank stripped parts, in order, each as often as it occurs |
| App.NoSepAfterStrip | app.py:45 | stripping brings in no separator |
| App.ParseKeywords | app.py:45-46 | every keyword is non-empty, stripped, comma-free and has no upper-case letter |
| App.ParseFeeds | app.py:81-82 | every feed address is non-empty, stripped and a single line |
| App.Customize | app.py:81-92 | the form stores all four preferences, the texts stripped, and "10" as the count when none is submitted |
| App.KeywordsCanonical | app.py:45-46 | re-parsing the comma-joined keyword list gives the same list |
| App.CleanKeywordsReadBack | app.py:45-46 | non-blank, stripped, lower-case, comma-free keywords are read back from their comma-joined form |
| App.FeedsCanonicalForm | app.py:81-82 | re-parsing the newline-joined feed list gives the same list |
| App.FeedsCanonical | app.py:81-82 | a list of non-blank stripped single-line addresses is read back from its newline-joined form |
| App.FilterArticles | app.py:48-65 | the loop keeps exactly the articles passing the keyword tests, in order |
| App.UpperKeywordNeverMatches | app.py:50-62 | the fields are lower-cased before the test, so a keyword with an upper-case letter never matches an article |
| App.FilterFacts | app.py:55-65 | the keep test (`Keep`, over `Mentions` of the four lower-cased fields): a kept article mentions a wanted keyword when there is one and no unwanted keyword; every article passing both tests is kept as often as it occurs; the order is kept; with no keywords nothing is dropped |
| App.Aggregate | app.py:37-41 | the combined list is each feed's records (25 requested) concatenated in feed order |
| App.CombinedSize | app.py:37-41 | the combined list has at most 25 records per feed |
| App.Home | app.py:21-68 | the page displays the first count records of the filtered combined list for the stored preferences |
| App.DisplayFacts | app.py:23-68 | the displayed list is a prefix of the filtered list with min(count, filtered) records and at most 50; a saved empty feed list shows nothing; with no saved feeds the default feed is used |

## Left out

- Network, feed parsing and HTML parsing are not modelled. The feed parser, the page fetcher and the four container lookups are functions of the URL or page. The page fetcher gives its exceptions, or a status code with the message `raise_for_status` would raise for an error status; how `requests` words that message is not modelled. `find_all`, the pruning of unwanted tags (news_fetcher.py:119-120, 129-130) and `get_text(strip=True)` are represented by the already-extracted paragraph and text-block strings of a container.
- The regular-expression boilerplate chain (news_fetcher.py:143-159) is an arbitrary `string -> string` parameter. The properties proved about the cleaned text hold for any such function.
- news_fetcher.py:138 (newline-run consolidation) is not applied separately. It replaces whitespace with whitespace, and line 139 then folds every whitespace run into one space. That this gives the same text is argued, not proved.
- NLTK's `sent_tokenize`, `word_tokenize` and stopword list are parameters and are taken to be total. A tokenizer exception, which the source would let reach the outer handler of `fetch_rss_news`, is not modelled. The missing-stopwords fallback is the case of an empty stopword set.
- Weights and scores are exact reals, not floats. Rounding could reorder sentences whose scores are mathematically equal or almost equal.
- `lower()` is ASCII only. The source lower-cases all of Unicode.
- `int()` on the stored count is a parameter `parseInt`, with `None` standing for a raised `ValueError` or `TypeError`. Before any save, the stored default is the number 10, which the model treats as no stored value.
- Flask routing, the session store, the redirect, `render_template` and the debug `print` calls are left out. `Customize` returns the preferences the form stores; `Home` returns the articles the template receives.
- Concurrency is not modelled. None exists in the source.
- nltk_setup.py is not part of this model. It only downloads corpora.
- App.Customize: states only what is stored (all four keys present, texts stripped, the "10" default). The stored feed list's own properties are stated by `App.ParseFeeds`.
