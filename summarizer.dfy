/**
 * The extractive summariser `summarize_text`: count the non-stopword words, weigh each by its count
 * over the largest count, score each sentence by the weights of its words, keep the
 * `num_sentences` best sentences and join them in their original order.
 */
module Summarizer {
  import opened Optional
  import opened Text

  const NotEnoughContent := "Not enough content to summarize."
  const NoSummary := "Could not generate summary."
  /** Inputs whose stripped length is below this are returned stripped instead of summarised. */
  const MinSummarizable := 50

  /**
   * The NLTK resources the summariser consults: `sent_tokenize`, `word_tokenize`, and the English
   * stopword set (empty when the corpus is missing, which is the `LookupError` fallback).
   */
  datatype Nlp = Nlp(sentTokenize: string -> seq<string>, wordTokenize: string -> seq<string>, stopWords: set<string>)

  predicate IsAsciiLetter(c: char) {
    'a' <= c <= 'z' || 'A' <= c <= 'Z'
  }

  /** `re.sub('[^a-zA-Z]', ' ', text)`. */
  function LettersOnly(s: string): string {
    seq(|s|, i requires 0 <= i < |s| => if IsAsciiLetter(s[i]) then s[i] else ' ')
  }

  /** The text words are counted in: letters kept, everything else a space, runs folded, lower-cased. */
  function Formatted(text: string): string {
    Lower(Collapse(LettersOnly(text), 1))
  }

  /** The counted text consists of lower-case ASCII letters and single spaces. */
  lemma FormattedShape(text: string)
    ensures forall i :: 0 <= i < |Formatted(text)| ==> ('a' <= Formatted(text)[i] <= 'z' || Formatted(text)[i] == ' ')
    ensures NoSpaceRun(Formatted(text))
  {
    CollapseNoRun(LettersOnly(text), 1);
    CollapseStaysWithin(LettersOnly(text), 1, c => IsAsciiLetter(c) || c == ' ');
  }

  // ---------------------------------------------------------------------------------------------
  // Word frequencies (lines 38-50)

  /** The frequency table: every word that is not a stopword, mapped to how often it occurs. */
  ghost function Counts(words: seq<string>, stop: set<string>): map<string, nat> {
    map w | w in words && w !in stop :: multiset(words)[w]
  }

  lemma CountsSnoc(ws: seq<string>, w: string, stop: set<string>)
    ensures Counts(ws + [w], stop) ==
            if w in stop then Counts(ws, stop) else Counts(ws, stop)[w := multiset(ws)[w] + 1]
  {
    assert multiset(ws + [w]) == multiset(ws) + multiset{w};
    var after := Counts(ws + [w], stop);
    var before := Counts(ws, stop);
    if w in stop {
      assert after.Keys == before.Keys;
    } else {
      assert after.Keys == before.Keys + {w};
    }
  }

  /** The counting loop: a `defaultdict(int)` incremented once per non-stopword occurrence. */
  method CountWords(words: seq<string>, stop: set<string>) returns (freq: map<string, nat>)
    ensures freq == Counts(words, stop)
  {
    freq := map[];
    for i := 0 to |words|
      invariant freq == Counts(words[..i], stop)
    {
      var w := words[i];
      assert words[..i + 1] == words[..i] + [w];
      CountsSnoc(words[..i], w, stop);
      if w !in stop {
        freq := freq[w := if w in freq then freq[w] + 1 else 1];
      }
    }
    assert words[..|words|] == words;
  }

  /** The largest value among `keys`, or 0 when there are none. */
  ghost function MaxOver(freq: map<string, nat>, keys: set<string>): (m: nat)
    requires keys <= freq.Keys
    ensures forall w :: w in keys ==> freq[w] <= m
    ensures keys != {} ==> exists w :: w in keys && freq[w] == m
    decreases keys
  {
    if keys == {} then 0
    else
      var k :| k in keys;
      var rest := MaxOver(freq, keys - {k});
      if freq[k] > rest then freq[k] else rest
  }

  /** `max(word_frequencies.values())`. */
  ghost function MaxCount(freq: map<string, nat>): nat {
    MaxOver(freq, freq.Keys)
  }

  /** Line 48: the largest count in a non-empty table. */
  method MaxFrequency(freq: map<string, nat>) returns (m: nat)
    requires freq != map[]
    ensures exists w :: w in freq && freq[w] == m
    ensures forall w :: w in freq ==> freq[w] <= m
    ensures m == MaxCount(freq)
  {
    var todo := freq.Keys;
    var first :| first in todo;
    m := freq[first];
    todo := todo - {first};
    while todo != {}
      invariant todo <= freq.Keys
      invariant exists w :: w in freq && freq[w] == m
      invariant forall w :: w in freq && w !in todo ==> freq[w] <= m
      decreases |todo|
    {
      var w :| w in todo;
      if freq[w] > m {
        m := freq[w];
      }
      todo := todo - {w};
    }
    assert m == MaxCount(freq) by {
      var v :| v in freq && freq[v] == MaxCount(freq);
    }
  }

  /** The normalised table: each count divided by the largest count. */
  ghost function Weights(freq: map<string, nat>, maxCount: nat): map<string, real>
    requires maxCount > 0
  {
    map w | w in freq :: freq[w] as real / maxCount as real
  }

  /** Lines 49-50: the table rewritten in place, each count replaced by its weight. */
  method Normalise(freq: map<string, nat>, maxCount: nat) returns (weights: map<string, real>)
    requires maxCount > 0
    ensures weights == Weights(freq, maxCount)
  {
    weights := map[];
    var todo := freq.Keys;
    while todo != {}
      invariant todo <= freq.Keys
      invariant weights == map w | w in freq && w !in todo :: freq[w] as real / maxCount as real
      decreases |todo|
    {
      var w :| w in todo;
      weights := weights[w := freq[w] as real / maxCount as real];
      todo := todo - {w};
    }
  }

  lemma UnitWeight(c: nat, m: nat)
    requires 0 < c <= m
    ensures 0.0 < c as real / m as real <= 1.0
  {
    assert c as real <= m as real;
  }

  lemma SelfDivision(m: nat)
    requires m > 0
    ensures m as real / m as real == 1.0
  {
  }

  /** Every weight lies in (0, 1], and the most frequent word weighs exactly 1. */
  lemma WeightsInUnitInterval(freq: map<string, nat>)
    requires freq != map[]
    requires forall w :: w in freq ==> freq[w] > 0
    ensures MaxCount(freq) > 0
    ensures forall w :: w in freq ==> 0.0 < Weights(freq, MaxCount(freq))[w] <= 1.0
    ensures exists w :: w in freq && Weights(freq, MaxCount(freq))[w] == 1.0
  {
    var m := MaxCount(freq);
    var top :| top in freq && freq[top] == m;
    assert m > 0;
    var weights := Weights(freq, m);
    assert weights.Keys == freq.Keys;
    forall w | w in freq
      ensures 0.0 < weights[w] <= 1.0
    {
      assert weights[w] == freq[w] as real / m as real;
      UnitWeight(freq[w], m);
    }
    SelfDivision(m);
    assert weights[top] == m as real / m as real;
  }

  /** Every entry of a frequency table counts at least one occurrence. */
  lemma CountsPositive(words: seq<string>, stop: set<string>)
    ensures forall w :: w in Counts(words, stop) ==> Counts(words, stop)[w] > 0
  {
  }

  // ---------------------------------------------------------------------------------------------
  // Sentence scores (lines 53-57)

  /** The tokens line 55 scores a sentence by: `word_tokenize(sentence.lower())`. */
  function SentenceWords(nlp: Nlp, sentence: string): seq<string> {
    nlp.wordTokenize(Lower(sentence))
  }

  /** Some token of the sentence is in the table, so the sentence gets a score entry. */
  predicate HasTableWord<V>(tokens: seq<string>, table: map<string, V>) {
    exists t :: t in tokens && t in table
  }

  /** The sum of the weights of the tokens that have one, added left to right. */
  function WeightSum(tokens: seq<string>, weights: map<string, real>): real {
    if tokens == [] then 0.0
    else
      var last := tokens[|tokens| - 1];
      WeightSum(tokens[..|tokens| - 1], weights) + (if last in weights then weights[last] else 0.0)
  }

  /** The sum of the raw counts of the tokens that have one. */
  function CountSum(tokens: seq<string>, freq: map<string, nat>): nat {
    if tokens == [] then 0
    else
      var last := tokens[|tokens| - 1];
      CountSum(tokens[..|tokens| - 1], freq) + (if last in freq then freq[last] else 0)
  }

  /** The score table restricted to the first `upTo` sentences. */
  ghost function ScoresBelow(sentences: seq<string>, nlp: Nlp, weights: map<string, real>, upTo: nat): map<nat, real>
    requires upTo <= |sentences|
  {
    map i: nat | i < upTo && HasTableWord(SentenceWords(nlp, sentences[i]), weights) ::
      WeightSum(SentenceWords(nlp, sentences[i]), weights)
  }

  /** `sentence_scores`: an entry for each sentence with a word in the table, holding its weight sum. */
  ghost function Scores(sentences: seq<string>, nlp: Nlp, weights: map<string, real>): map<nat, real> {
    ScoresBelow(sentences, nlp, weights, |sentences|)
  }

  lemma WeightSumWithoutTableWord(tokens: seq<string>, weights: map<string, real>)
    requires !HasTableWord(tokens, weights)
    ensures WeightSum(tokens, weights) == 0.0
  {
    if tokens != [] {
      WeightSumWithoutTableWord(tokens[..|tokens| - 1], weights);
    }
  }

  lemma ScoresBelowStep(sentences: seq<string>, nlp: Nlp, weights: map<string, real>, i: nat)
    requires i < |sentences|
    ensures ScoresBelow(sentences, nlp, weights, i + 1) ==
            var tokens := SentenceWords(nlp, sentences[i]);
            if HasTableWord(tokens, weights)
            then ScoresBelow(sentences, nlp, weights, i)[i := WeightSum(tokens, weights)]
            else ScoresBelow(sentences, nlp, weights, i)
  {
  }

  /** The score table once the first tokens of sentence `i` have been added to `before`. */
  ghost function Running(before: map<nat, real>, i: nat, prefix: seq<string>, weights: map<string, real>): map<nat, real> {
    if HasTableWord(prefix, weights) then before[i := WeightSum(prefix, weights)] else before
  }

  /** One pass of the inner loop: a token with a weight adds it to the entry of sentence `i`, creating the entry at zero. */
  lemma RunningStep(before: map<nat, real>, i: nat, tokens: seq<string>, j: nat, weights: map<string, real>)
    requires j < |tokens| && i !in before
    ensures var current := Running(before, i, tokens[..j], weights);
            Running(before, i, tokens[..j + 1], weights) ==
              if tokens[j] in weights
              then current[i := (if i in current then current[i] else 0.0) + weights[tokens[j]]]
              else current
  {
    var prefix, word := tokens[..j], tokens[j];
    assert tokens[..j + 1] == prefix + [word];
    assert (prefix + [word])[..j] == prefix;
    if !HasTableWord(prefix, weights) {
      WeightSumWithoutTableWord(prefix, weights);
    }
  }

  /** The nested scoring loop of lines 54-57. */
  method ScoreSentences(sentences: seq<string>, nlp: Nlp, weights: map<string, real>) returns (scores: map<nat, real>)
    ensures scores == Scores(sentences, nlp, weights)
  {
    scores := map[];
    for i := 0 to |sentences|
      invariant scores == ScoresBelow(sentences, nlp, weights, i)
    {
      var tokens := nlp.wordTokenize(Lower(sentences[i]));
      ghost var before := scores;
      for j := 0 to |tokens|
        invariant scores == Running(before, i, tokens[..j], weights)
      {
        var word := tokens[j];
        RunningStep(before, i, tokens, j, weights);
        if word in weights {
          scores := scores[i := (if i in scores then scores[i] else 0.0) + weights[word]];
        }
      }
      assert tokens[..|tokens|] == tokens;
      ScoresBelowStep(sentences, nlp, weights, i);
    }
  }

  /** Every token's weight is its count over the same maximum, so a weight sum is a count sum over it. */
  lemma {:induction false} WeightSumIsScaledCountSum(tokens: seq<string>, freq: map<string, nat>, maxCount: nat)
    requires maxCount > 0
    ensures WeightSum(tokens, Weights(freq, maxCount)) == CountSum(tokens, freq) as real / maxCount as real
    decreases |tokens|
  {
    if tokens != [] {
      var init, last := tokens[..|tokens| - 1], tokens[|tokens| - 1];
      WeightSumIsScaledCountSum(init, freq, maxCount);
      var c := if last in freq then freq[last] else 0;
      var weights := Weights(freq, maxCount);
      assert (if last in weights then weights[last] else 0.0) == c as real / maxCount as real;
      AddQuotients(CountSum(init, freq) as real, c as real, maxCount as real);
    }
  }

  lemma AddQuotients(x: real, y: real, m: real)
    requires m > 0.0
    ensures x / m + y / m == (x + y) / m
  {
  }

  /** A sentence with a word in a table of positive weights scores above zero. */
  lemma {:induction false} WeightSumPositive(tokens: seq<string>, weights: map<string, real>)
    requires forall w :: w in weights ==> weights[w] > 0.0
    requires HasTableWord(tokens, weights)
    ensures WeightSum(tokens, weights) > 0.0
    decreases |tokens|
  {
    var init := tokens[..|tokens| - 1];
    var last := tokens[|tokens| - 1];
    if HasTableWord(init, weights) {
      WeightSumPositive(init, weights);
      assert WeightSum(init, weights) > 0.0;
    } else {
      WeightSumWithoutTableWord(init, weights);
      assert tokens == init + [last];
      assert last in weights;
    }
  }

  // ---------------------------------------------------------------------------------------------
  // Selection (lines 60-65)

  /**
   * Sentence `a` ranks ahead of sentence `b`: a higher score, or an equal score and an earlier
   * index. `heapq.nlargest` is a stable descending sort cut to length, and the score table is
   * iterated in index order, so this is the order it selects by.
   */
  predicate Beats(scores: map<nat, real>, a: nat, b: nat)
    requires a in scores && b in scores
  {
    scores[a] > scores[b] || (scores[a] == scores[b] && a < b)
  }

  /** How many entries `nlargest(n, ...)` returns from a table of `size` entries. */
  function TopCount(n: int, size: nat): nat {
    if n <= 0 then 0 else if n < size then n else size
  }

  /** `chosen` is the set of indices `nlargest(n, scores, key=scores.get)` returns. */
  ghost predicate IsTop(scores: map<nat, real>, n: int, chosen: set<nat>) {
    && chosen <= scores.Keys
    && |chosen| == TopCount(n, |scores|)
    && forall a, b :: a in chosen && b in scores && b !in chosen ==> Beats(scores, a, b)
  }

  /** One candidate ranks ahead of all the others. */
  lemma {:induction false} BestExists(scores: map<nat, real>, pool: set<nat>) returns (best: nat)
    requires pool != {} && pool <= scores.Keys
    ensures best in pool && forall b :: b in pool && b != best ==> Beats(scores, best, b)
    decreases pool
  {
    var x :| x in pool;
    if pool == {x} {
      best := x;
    } else {
      var y :| y in pool && y != x;
      var other := BestExists(scores, pool - {x});
      best := if Beats(scores, x, other) then x else other;
      forall b | b in pool && b != best
        ensures Beats(scores, best, b)
      {
        if b != x && b != other {
          assert Beats(scores, other, b);
        }
      }
    }
  }

  /** Some set of indices is the top `n`. */
  lemma {:induction false} TopExists(scores: map<nat, real>, n: int)
    ensures exists chosen :: IsTop(scores, n, chosen)
    decreases if n < 0 then 0 else n
  {
    var chosen: set<nat>;
    if n <= 0 {
      chosen := {};
    } else {
      TopExists(scores, n - 1);
      var fewer :| IsTop(scores, n - 1, fewer);
      var rest := scores.Keys - fewer;
      assert |scores.Keys| == |fewer| + |rest|;
      if rest == {} {
        chosen := fewer;
      } else {
        var best := BestExists(scores, rest);
        chosen := fewer + {best};
      }
    }
    assert IsTop(scores, n, chosen);
  }

  lemma SubsetOfSameSize(a: set<nat>, b: set<nat>)
    requires a <= b && |a| == |b|
    ensures a == b
  {
    assert b == a + (b - a);
    assert |b - a| == 0;
  }

  /** The top `n` is determined by the scores: two sets that both qualify are equal. */
  lemma TopUnique(scores: map<nat, real>, n: int, c1: set<nat>, c2: set<nat>)
    requires IsTop(scores, n, c1) && IsTop(scores, n, c2)
    ensures c1 == c2
  {
    forall x, y | x in c1 && x !in c2 && y in c2
      ensures y in c1
    {
      assert y !in c1 ==> Beats(scores, x, y);
    }
    if c1 <= c2 {
      SubsetOfSameSize(c1, c2);
    } else {
      var x :| x in c1 && x !in c2;
      assert c2 <= c1;
      SubsetOfSameSize(c2, c1);
    }
  }

  /** The indices the summary is built from. */
  ghost function TopOf(scores: map<nat, real>, n: int): (chosen: set<nat>)
    ensures IsTop(scores, n, chosen)
  {
    TopExists(scores, n);
    var chosen :| IsTop(scores, n, chosen);
    chosen
  }

  /** The candidate that ranks ahead of all the others in `pool`. */
  method Best(scores: map<nat, real>, pool: set<nat>) returns (best: nat)
    requires pool != {} && pool <= scores.Keys
    ensures best in pool
    ensures forall b :: b in pool && b != best ==> Beats(scores, best, b)
  {
    best :| best in pool;
    var todo := pool - {best};
    while todo != {}
      invariant todo <= pool && best in pool && best !in todo
      invariant forall b :: b in pool && b !in todo && b != best ==> Beats(scores, best, b)
      decreases |todo|
    {
      var x :| x in todo;
      if Beats(scores, x, best) {
        best := x;
      }
      todo := todo - {x};
    }
  }

  /** Line 60: `nlargest(n, sentence_scores, key=sentence_scores.get)`, as a set of indices. */
  method LargestN(n: int, scores: map<nat, real>) returns (chosen: set<nat>)
    ensures IsTop(scores, n, chosen)
    ensures chosen == TopOf(scores, n)
  {
    chosen := {};
    var rest := scores.Keys;
    while |chosen| < n && rest != {}
      invariant chosen !! rest && chosen + rest == scores.Keys
      invariant |chosen| + |rest| == |scores|
      invariant |chosen| <= TopCount(n, |scores|)
      invariant forall a, b :: a in chosen && b in rest ==> Beats(scores, a, b)
      decreases |rest|
    {
      var best := Best(scores, rest);
      chosen := chosen + {best};
      rest := rest - {best};
    }
    TopUnique(scores, n, chosen, TopOf(scores, n));
  }

  /** Line 63: `sorted(chosen)`, for the indices below `bound`. */
  function Ascending(chosen: set<nat>, bound: nat): (order: seq<nat>)
    ensures forall k :: 0 <= k < |order| ==> order[k] in chosen && order[k] < bound
    ensures forall i :: i in chosen && i < bound ==> i in order
    ensures forall j, k :: 0 <= j < k < |order| ==> order[j] < order[k]
  {
    if bound == 0 then []
    else Ascending(chosen, bound - 1) + (if bound - 1 in chosen then [bound - 1] else [])
  }

  /** Lines 63-65: the chosen sentences in their original order, joined by single spaces. */
  function JoinInOrder(sentences: seq<string>, chosen: set<nat>): string {
    var order := Ascending(chosen, |sentences|);
    Join(" ", seq(|order|, k requires 0 <= k < |order| => sentences[order[k]]))
  }

  // ---------------------------------------------------------------------------------------------
  // The whole summariser

  /** The frequency table of `text`. */
  ghost function Frequencies(text: string, nlp: Nlp): map<string, nat> {
    Counts(nlp.wordTokenize(Formatted(text)), nlp.stopWords)
  }

  /** The sentence scores of `text`, for a text with a non-empty frequency table. */
  ghost function SentenceScores(text: string, nlp: Nlp): map<nat, real>
    requires Frequencies(text, nlp) != map[]
  {
    var freq := Frequencies(text, nlp);
    Scores(nlp.sentTokenize(text), nlp, Weights(freq, MaxCount(freq)))
  }

  /** What `summarize_text(text, n)` returns. */
  ghost function SummaryOf(text: Option<string>, n: int, nlp: Nlp): string {
    if text.None? || text.value == "" then NotEnoughContent
    else if |Strip(text.value)| < MinSummarizable then Strip(text.value)
    else
      var sentences := nlp.sentTokenize(text.value);
      if Frequencies(text.value, nlp) == map[] then
        if |sentences| > 0 then sentences[0] else NoSummary
      else JoinInOrder(sentences, TopOf(SentenceScores(text.value, nlp), n))
  }

  /** Dividing by the same positive number keeps the order. */
  lemma DivisionKeepsOrder(a: nat, b: nat, m: nat)
    requires m > 0
    ensures a as real / m as real < b as real / m as real <==> a < b
  {
    var x, y, d := a as real, b as real, m as real;
    assert x / d * d == x && y / d * d == y;
    if x / d < y / d {
      assert x / d * d < y / d * d;
    }
    if a < b {
      assert (y - x) / d > 0.0;
      assert y / d - x / d == (y - x) / d;
    }
  }

  /**
   * Ranking by weight is ranking by raw count sum: a sentence's score is its count sum over the
   * largest count, the same positive divisor for every sentence.
   */
  lemma RankingByCounts(text: string, nlp: Nlp)
    requires Frequencies(text, nlp) != map[]
    ensures forall i :: i in SentenceScores(text, nlp) ==>
              SentenceScores(text, nlp)[i] ==
              CountSum(SentenceWords(nlp, nlp.sentTokenize(text)[i]), Frequencies(text, nlp)) as real
              / MaxCount(Frequencies(text, nlp)) as real
    ensures forall a, b :: a in SentenceScores(text, nlp) && b in SentenceScores(text, nlp) ==>
              (SentenceScores(text, nlp)[a] < SentenceScores(text, nlp)[b] <==>
               CountSum(SentenceWords(nlp, nlp.sentTokenize(text)[a]), Frequencies(text, nlp)) <
               CountSum(SentenceWords(nlp, nlp.sentTokenize(text)[b]), Frequencies(text, nlp)))
  {
    var freq := Frequencies(text, nlp);
    var sentences := nlp.sentTokenize(text);
    var m := MaxCount(freq);
    var scores := SentenceScores(text, nlp);
    assert m > 0 by {
      var w :| w in freq;
      CountsPositive(nlp.wordTokenize(Formatted(text)), nlp.stopWords);
    }
    forall i | i in scores
      ensures scores[i] == CountSum(SentenceWords(nlp, sentences[i]), freq) as real / m as real
    {
      WeightSumIsScaledCountSum(SentenceWords(nlp, sentences[i]), freq, m);
    }
    forall a, b | a in scores && b in scores
      ensures scores[a] < scores[b] <==>
              CountSum(SentenceWords(nlp, sentences[a]), freq) < CountSum(SentenceWords(nlp, sentences[b]), freq)
    {
      DivisionKeepsOrder(CountSum(SentenceWords(nlp, sentences[a]), freq),
                         CountSum(SentenceWords(nlp, sentences[b]), freq), m);
    }
  }

  /**
   * Lines 53-60: the sentences eligible for the summary are exactly those with a word in the
   * frequency table, each scores above zero, at most `n` are chosen, every chosen one scores at
   * least as high as every eligible one left out, and when no more than `n` are eligible all are chosen.
   */
  lemma SelectionFacts(text: string, n: int, nlp: Nlp)
    requires Frequencies(text, nlp) != map[]
    ensures forall i: nat :: i in SentenceScores(text, nlp) <==>
              i < |nlp.sentTokenize(text)| && HasTableWord(SentenceWords(nlp, nlp.sentTokenize(text)[i]), Frequencies(text, nlp))
    ensures forall i :: i in SentenceScores(text, nlp) ==> SentenceScores(text, nlp)[i] > 0.0
    ensures TopOf(SentenceScores(text, nlp), n) <= SentenceScores(text, nlp).Keys
    ensures |TopOf(SentenceScores(text, nlp), n)| <= if n < 0 then 0 else n
    ensures forall a, b ::
              (a in TopOf(SentenceScores(text, nlp), n) && b in SentenceScores(text, nlp) && b !in TopOf(SentenceScores(text, nlp), n))
              ==> SentenceScores(text, nlp)[a] >= SentenceScores(text, nlp)[b]
    ensures |SentenceScores(text, nlp)| <= n ==> TopOf(SentenceScores(text, nlp), n) == SentenceScores(text, nlp).Keys
  {
    EligibleSentences(text, nlp);
    var scores := SentenceScores(text, nlp);
    TopFacts(scores, n, TopOf(scores, n));
  }

  /** Sentence `i` has a score exactly when it has a word in the frequency table, and that score is positive. */
  lemma EligibleSentences(text: string, nlp: Nlp)
    requires Frequencies(text, nlp) != map[]
    ensures forall i: nat :: i in SentenceScores(text, nlp) <==>
              i < |nlp.sentTokenize(text)| && HasTableWord(SentenceWords(nlp, nlp.sentTokenize(text)[i]), Frequencies(text, nlp))
    ensures forall i :: i in SentenceScores(text, nlp) ==> SentenceScores(text, nlp)[i] > 0.0
  {
    var freq := Frequencies(text, nlp);
    var sentences := nlp.sentTokenize(text);
    var weights := Weights(freq, MaxCount(freq));
    var scores := SentenceScores(text, nlp);
    CountsPositive(nlp.wordTokenize(Formatted(text)), nlp.stopWords);
    WeightsInUnitInterval(freq);
    assert weights.Keys == freq.Keys;
    forall i: nat | i < |sentences|
      ensures HasTableWord(SentenceWords(nlp, sentences[i]), weights) == HasTableWord(SentenceWords(nlp, sentences[i]), freq)
    {
    }
    forall i | i in scores
      ensures scores[i] > 0.0
    {
      WeightSumPositive(SentenceWords(nlp, sentences[i]), weights);
    }
  }

  /**
   * What `nlargest` promises: at most `n` keys are chosen, each ranks at least as high as every
   * key left out, and when there are no more than `n` keys all are chosen.
   */
  lemma TopFacts(scores: map<nat, real>, n: int, chosen: set<nat>)
    requires IsTop(scores, n, chosen)
    ensures chosen <= scores.Keys
    ensures |chosen| <= if n < 0 then 0 else n
    ensures forall a, b :: a in chosen && b in scores && b !in chosen ==> scores[a] >= scores[b]
    ensures |scores| <= n ==> chosen == scores.Keys
  {
    forall a, b | a in chosen && b in scores && b !in chosen
      ensures scores[a] >= scores[b]
    {
      assert Beats(scores, a, b);
    }
    if |scores| <= n {
      SubsetOfSameSize(chosen, scores.Keys);
    }
  }

  /**
   * Lines 63-65: outside the two early returns, the summary is the chosen sentences, verbatim, in
   * strictly increasing index order, joined by single spaces.
   */
  lemma SummaryIsOrderedSelection(text: string, n: int, nlp: Nlp)
    requires |Strip(text)| >= MinSummarizable && Frequencies(text, nlp) != map[]
    ensures var sentences := nlp.sentTokenize(text);
            var order := Ascending(TopOf(SentenceScores(text, nlp), n), |sentences|);
            && (forall i :: i in order <==> i in TopOf(SentenceScores(text, nlp), n))
            && (forall j, k :: 0 <= j < k < |order| ==> order[j] < order[k])
            && (forall k :: 0 <= k < |order| ==> order[k] < |sentences|)
            && SummaryOf(Some(text), n, nlp) == Join(" ", seq(|order|, k requires 0 <= k < |order| => sentences[order[k]]))
  {
    var sentences := nlp.sentTokenize(text);
    var chosen := TopOf(SentenceScores(text, nlp), n);
    assert text != "";
    assert forall i :: i in chosen ==> i < |sentences|;
  }

  /**
   * Lines 59-65 with no sentence scored: the table has words but no sentence token is one of them
   * (the sentences are tokenised from the original text, the table from the letters-only text),
   * so nothing is selected and the summary is the empty string rather than a fallback.
   */
  lemma UnscoredSummaryIsEmpty(text: string, n: int, nlp: Nlp)
    requires |Strip(text)| >= MinSummarizable && Frequencies(text, nlp) != map[]
    requires NoSentenceMatches(text, nlp)
    ensures SummaryOf(Some(text), n, nlp) == ""
  {
    NoSentenceScored(text, nlp);
    var sentences := nlp.sentTokenize(text);
    NothingChosen(n, |sentences|);
    assert SummaryOf(Some(text), n, nlp) == JoinInOrder(sentences, TopOf(map[], n));
  }

  /** From an empty score table nothing is chosen, so nothing is listed. */
  lemma NothingChosen(n: int, bound: nat)
    ensures TopOf(map[], n) == {}
    ensures Ascending(TopOf(map[], n), bound) == []
  {
  }

  /** No sentence of `text` has a token in its frequency table. */
  ghost predicate NoSentenceMatches(text: string, nlp: Nlp) {
    forall i :: 0 <= i < |nlp.sentTokenize(text)| ==>
      !HasTableWord(SentenceWords(nlp, nlp.sentTokenize(text)[i]), Frequencies(text, nlp))
  }

  lemma NoSentenceScored(text: string, nlp: Nlp)
    requires Frequencies(text, nlp) != map[]
    requires NoSentenceMatches(text, nlp)
    ensures SentenceScores(text, nlp) == map[]
  {
    var freq := Frequencies(text, nlp);
    var weights := Weights(freq, MaxCount(freq));
    assert weights.Keys == freq.Keys;
    var sentences := nlp.sentTokenize(text);
    forall i: nat | i < |sentences|
      ensures !HasTableWord(SentenceWords(nlp, sentences[i]), weights)
    {
      assert !HasTableWord(SentenceWords(nlp, sentences[i]), freq);
    }
  }

  /** `summarize_text(text, num_sentences)`, step by step. */
  method Summarize(text: Option<string>, n: int, nlp: Nlp) returns (summary: string)
    ensures summary == SummaryOf(text, n, nlp)
    ensures text.None? || text.value == "" ==> summary == NotEnoughContent
    ensures text.Some? && text.value != "" && |Strip(text.value)| < MinSummarizable ==> summary == Strip(text.value)
    ensures text.Some? && |Strip(text.value)| >= MinSummarizable && Frequencies(text.value, nlp) == map[] ==>
              summary == if |nlp.sentTokenize(text.value)| > 0 then nlp.sentTokenize(text.value)[0] else NoSummary
  {
    if text.None? || text.value == "" {
      return NotEnoughContent;
    }
    var stripped := Strip(text.value);
    if |stripped| < MinSummarizable {
      return stripped;
    }
    var formatted := Formatted(text.value);
    var sentences := nlp.sentTokenize(text.value);
    var words := nlp.wordTokenize(formatted);
    var freq := CountWords(words, nlp.stopWords);
    if freq == map[] {
      return if |sentences| > 0 then sentences[0] else NoSummary;
    }
    var maxCount := MaxFrequency(freq);
    assert maxCount > 0 by {
      var w :| w in freq;
      assert w in words;
    }
    var weights := Normalise(freq, maxCount);
    var scores := ScoreSentences(sentences, nlp, weights);
    var chosen := LargestN(n, scores);
    summary := JoinInOrder(sentences, chosen);
  }
}
