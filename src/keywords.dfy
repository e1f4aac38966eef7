/**
 * The rule-based keyword extractor of the analysis service
 * (`extractKeywords` and `extractAndCountKeywords`): lower-case and trim the
 * message, split it on runs of white space and punctuation, trim each word,
 * drop words shorter than two characters, stop words and all-digit words,
 * count the rest and keep the ten most frequent.
 *
 * The local `HashMap` hands its entries to the stable sort in hash-bucket
 * order, which the model does not reproduce: it takes the order in which
 * words were first counted, so that equal counts are broken by first
 * occurrence.
 */
module KeywordExtraction {
  import opened Wrappers
  import opened Text
  import opened Ranking
  import opened Tally

  /** The Korean stop word list. */
  const StopWords: set<string> := {
    "이", "가", "을", "를", "에", "의", "는", "은", "와", "과", "로", "으로", "에서", "부터", "까지", "한테", "께",
    "그", "그것", "저", "저것", "이것", "것", "수", "때", "곳", "데", "점", "등",
    "하다", "되다", "있다", "없다", "같다", "다르다", "크다", "작다", "좋다", "나쁘다",
    "네", "예", "아니", "말", "정말", "진짜", "아", "어", "음", "흠", "오", "우",
    "그런데", "그러나", "하지만", "그리고", "또", "또한", "그래서", "따라서", "즉", "즉시", "바로"
  }

  const MaxKeywords: nat := 10

  /** A trimmed word that survives the length, stop word and digit filters. */
  predicate IsKeyword(t: string)
  {
    |t| >= 2 && t !in StopWords && !AllDigits(t)
  }

  /** What one split word contributes: its trimmed form if that is a keyword. */
  function Accepted(word: string): seq<string>
  {
    var t := Trim(word);
    if IsKeyword(t) then [t] else []
  }

  /** The accepted tokens of a word list, in order: at most one per word, each passing the filters. */
  function Accept(words: seq<string>): (tokens: seq<string>)
    ensures |tokens| <= |words|
    ensures forall t :: t in tokens ==> IsKeyword(t)
  {
    if words == [] then [] else Accept(words[..|words| - 1]) + Accepted(words[|words| - 1])
  }

  /** Every token occurrence the extractor counts; none for a null or blank message. */
  function Candidates(content: Option<string>): (tokens: seq<string>)
    ensures content.None? || IsBlank(content.value) ==> tokens == []
    ensures forall t :: t in tokens ==> IsKeyword(t)
  {
    if content.None? || IsBlank(content.value) then [] else Accept(MessageWords(content.value))
  }

  /** The elements of `s` in order of first occurrence, each once. */
  function Distinct<T(==, !new)>(s: seq<T>): (r: seq<T>)
    ensures forall x :: x in r <==> x in s
    ensures forall i, j :: 0 <= i < j < |r| ==> r[i] != r[j]
  {
    if s == [] then []
    else
      var init := s[..|s| - 1];
      assert s == init + [s[|s| - 1]];
      var d := Distinct(init);
      if s[|s| - 1] in d then d else d + [s[|s| - 1]]
  }

  /** The entries of a count map listed in the order `order`. */
  function Table(order: seq<string>, counts: map<string, nat>): (t: seq<Entry<string>>)
    ensures |t| == |order|
    ensures forall i :: 0 <= i < |order| ==> t[i] == Entry(order[i], Get(counts, order[i]))
  {
    seq(|order|, i requires 0 <= i < |order| => Entry(order[i], Get(counts, order[i])))
  }

  /**
   * The frequency table of the extractor, in first-counted order: one
   * entry per distinct counted token, holding its number of occurrences.
   */
  function Frequencies(content: Option<string>): (table: seq<Entry<string>>)
    ensures |table| == |Distinct(Candidates(content))|
    ensures DistinctKeys(table)
    ensures forall x :: x in table <==> x.key in Candidates(content) && x.count == multiset(Candidates(content))[x.key]
  {
    var c := Candidates(content);
    TableFacts(c);
    Table(Distinct(c), BumpAll(map[], c))
  }

  /**
   * The result of `extractKeywords`: ten counted tokens, or all of them
   * when there are fewer distinct ones.
   */
  function Keywords(content: Option<string>): (keywords: seq<string>)
    ensures |keywords| == Min(MaxKeywords, |Distinct(Candidates(content))|)
    ensures forall w :: w in keywords ==> w in Candidates(content)
  {
    var top := SelectTop(Frequencies(content), MaxKeywords);
    assert forall i :: 0 <= i < |top| ==> top[i] in top;
    Keys(top)
  }

  /** `extractKeywords`: count the accepted words, then keep the ten most frequent. */
  method ExtractKeywords(content: Option<string>) returns (keywords: seq<string>)
    ensures keywords == Keywords(content)
  {
    if content.None? || IsBlank(content.value) {
      return [];
    }
    var wordCount, order := CountWords(MessageWords(content.value));
    var entries := Table(order, wordCount);
    keywords := Keys(SelectTop(entries, MaxKeywords));
  }

  /**
   * The word loop of `extractKeywords`: `wordCount` counts every accepted
   * token, and `order` lists its keys in the order they were first counted.
   */
  method CountWords(words: seq<string>) returns (wordCount: map<string, nat>, order: seq<string>)
    ensures wordCount == BumpAll(map[], Accept(words))
    ensures order == Distinct(Accept(words))
  {
    wordCount := map[];
    order := [];
    ghost var accepted: seq<string> := [];
    for i := 0 to |words|
      invariant CountedUpTo(words, i, accepted, wordCount, order)
    {
      accepted, wordCount, order := CountWord(words, i, accepted, wordCount, order);
    }
    assert words[..|words|] == words;
  }

  /** The state of the word loop after the first `i` words. */
  ghost predicate CountedUpTo(words: seq<string>, i: nat, accepted: seq<string>, wordCount: map<string, nat>, order: seq<string>)
    requires i <= |words|
  {
    && accepted == Accept(words[..i])
    && order == Distinct(accepted)
    && wordCount == BumpAll(map[], accepted)
    && wordCount.Keys == set w | w in order
  }

  /** One pass of the word loop: an accepted token is counted, and listed the first time it is seen. */
  method CountWord(words: seq<string>, i: nat, ghost accepted: seq<string>, wordCount: map<string, nat>, order: seq<string>)
    returns (ghost accepted': seq<string>, wordCount': map<string, nat>, order': seq<string>)
    requires i < |words| && CountedUpTo(words, i, accepted, wordCount, order)
    ensures accepted' == Accept(words[..i + 1])
    ensures order' == Distinct(accepted')
    ensures wordCount' == BumpAll(map[], accepted')
    ensures wordCount'.Keys == set w | w in order'
  {
    AcceptStep(words, i);
    var word := Trim(words[i]);
    if IsKeyword(word) {
      assert word in wordCount <==> word in accepted by {
        assert word in wordCount.Keys <==> word in order;
      }
      accepted' := accepted + [word];
      order' := if word in wordCount then order else order + [word];
      wordCount' := Bump(wordCount, word);
      BumpAllSnoc(map[], accepted, word);
      DistinctSnoc(accepted, word);
      KeysStep(wordCount, order, word, order');
    } else {
      accepted', wordCount', order' := accepted, wordCount, order;
    }
  }

  /** Counting a word keeps the counted keys equal to the listed ones. */
  lemma KeysStep(wordCount: map<string, nat>, order: seq<string>, word: string, order': seq<string>)
    requires wordCount.Keys == set w | w in order
    requires order' == if word in wordCount then order else order + [word]
    ensures Bump(wordCount, word).Keys == set w | w in order'
  {
    assert Bump(wordCount, word).Keys == wordCount.Keys + {word};
  }

  /**
   * `extractAndCountKeywords`: the same filters, adding every accepted
   * token occurrence to the caller's count map.
   */
  method ExtractAndCountKeywords(content: Option<string>, keywordStats: map<string, nat>)
    returns (stats: map<string, nat>)
    ensures stats == BumpAll(keywordStats, Candidates(content))
    ensures forall w :: Get(stats, w) == Get(keywordStats, w) + multiset(Candidates(content))[w]
  {
    stats := keywordStats;
    if content.None? || IsBlank(content.value) {
      return;
    }
    stats := CountInto(MessageWords(content.value), keywordStats);
    forall w ensures Get(stats, w) == Get(keywordStats, w) + multiset(Candidates(content))[w] {
      BumpAllCounts(keywordStats, Candidates(content), w);
    }
  }

  /** The word loop of `extractAndCountKeywords`. */
  method CountInto(words: seq<string>, keywordStats: map<string, nat>) returns (stats: map<string, nat>)
    ensures stats == BumpAll(keywordStats, Accept(words))
  {
    stats := keywordStats;
    for i := 0 to |words|
      invariant stats == BumpAll(keywordStats, Accept(words[..i]))
    {
      CountStep(keywordStats, words, i);
      var word := Trim(words[i]);
      if IsKeyword(word) {
        stats := Bump(stats, word);
      }
    }
    assert words[..|words|] == words;
  }

  /** One more word adds its trimmed form to the accepted tokens exactly when it is a keyword. */
  lemma AcceptStep(words: seq<string>, i: nat)
    requires i < |words|
    ensures IsKeyword(Trim(words[i])) ==> Accept(words[..i + 1]) == Accept(words[..i]) + [Trim(words[i])]
    ensures !IsKeyword(Trim(words[i])) ==> Accept(words[..i + 1]) == Accept(words[..i])
  {
    assert words[..i + 1][..i] == words[..i];
  }

  /** One turn of the word loop adds one to the count of an accepted word and nothing otherwise. */
  lemma CountStep(keywordStats: map<string, nat>, words: seq<string>, i: nat)
    requires i < |words|
    ensures IsKeyword(Trim(words[i])) ==>
      BumpAll(keywordStats, Accept(words[..i + 1])) == Bump(BumpAll(keywordStats, Accept(words[..i])), Trim(words[i]))
    ensures !IsKeyword(Trim(words[i])) ==>
      BumpAll(keywordStats, Accept(words[..i + 1])) == BumpAll(keywordStats, Accept(words[..i]))
  {
    AcceptStep(words, i);
    if IsKeyword(Trim(words[i])) {
      BumpAllSnoc(keywordStats, Accept(words[..i]), Trim(words[i]));
    }
  }

  lemma DistinctSnoc(s: seq<string>, x: string)
    ensures Distinct(s + [x]) == if x in s then Distinct(s) else Distinct(s) + [x]
  {
    assert (s + [x])[..|s|] == s;
  }

  lemma {:induction false} AcceptIsFiltered(words: seq<string>, t: string)
    requires t in Accept(words)
    ensures IsKeyword(t)
    ensures exists i :: 0 <= i < |words| && t == Trim(words[i])
  {
    var init := words[..|words| - 1];
    if t in Accept(init) {
      AcceptIsFiltered(init, t);
      var i :| 0 <= i < |init| && t == Trim(init[i]);
      assert words[i] == init[i];
    } else {
      assert t in Accepted(words[|words| - 1]);
    }
  }

  /**
   * Every counted token is lower-case, at least two characters, not a stop
   * word, not all digits, and free of separators, in particular of the
   * characters `"`, `,` and `]` that the stored JSON uses as delimiters.
   */
  lemma CandidateIsWellFormed(content: Option<string>, t: string)
    requires t in Candidates(content)
    ensures IsKeyword(t) && IsLowerCase(t)
    ensures forall c :: c in t ==> !IsWordSeparator(c)
    ensures '"' !in t && ',' !in t && ']' !in t
  {
    var s := content.value;
    var words := MessageWords(s);
    AcceptIsFiltered(words, t);
    var i :| 0 <= i < |words| && t == Trim(words[i]);
    var lowered := Trim(ToLower(s));
    ToLowerIsLower(s);
    TrimKeeps(ToLower(s));
    assert IsLowerCase(lowered);
    WordsOfLowerAreLower(lowered);
    WordsHaveNoSeparator(lowered);
    assert words[i] in words;
    TrimKeeps(words[i]);
    assert IsWordSeparator('"') && IsWordSeparator(',') && IsWordSeparator(']');
  }

  /** The frequency table of a token list lists each distinct token once, with its number of occurrences. */
  lemma TableFacts(c: seq<string>)
    ensures DistinctKeys(Table(Distinct(c), BumpAll(map[], c)))
    ensures forall x :: x in Table(Distinct(c), BumpAll(map[], c)) <==> x.key in c && x.count == multiset(c)[x.key]
  {
    var d := Distinct(c);
    var t := Table(d, BumpAll(map[], c));
    forall x ensures x in t <==> x.key in c && x.count == multiset(c)[x.key] {
      if x in t {
        var i :| 0 <= i < |t| && t[i] == x;
        BumpAllCounts(map[], c, d[i]);
      }
      if x.key in c && x.count == multiset(c)[x.key] {
        var i :| 0 <= i < |d| && d[i] == x.key;
        BumpAllCounts(map[], c, d[i]);
        assert t[i] == x;
      }
    }
  }

  /**
   * A null or blank message has no keywords; otherwise every keyword is a
   * well-formed counted token.
   */
  lemma KeywordsAreTokens(content: Option<string>, w: string)
    ensures content.None? || IsBlank(content.value) ==> Keywords(content) == []
    ensures w in Keywords(content) ==> w in Candidates(content) && IsKeyword(w) && IsLowerCase(w)
    ensures w in Keywords(content) ==> '"' !in w && ',' !in w && ']' !in w
  {
    if w in Keywords(content) {
      var top := SelectTop(Frequencies(content), MaxKeywords);
      var i :| 0 <= i < |top| && Keys(top)[i] == w;
      assert top[i] in top;
        CandidateIsWellFormed(content, w);
    }
  }

  /** The keywords are all different, in non-increasing order of their number of occurrences. */
  lemma KeywordsRanked(content: Option<string>)
    ensures forall i, j :: 0 <= i < j < |Keywords(content)| ==> Keywords(content)[i] != Keywords(content)[j]
    ensures forall i, j :: 0 <= i < j < |Keywords(content)| ==>
      multiset(Candidates(content))[Keywords(content)[i]] >= multiset(Candidates(content))[Keywords(content)[j]]
  {
    var f := Frequencies(content);
    var top := SelectTop(f, MaxKeywords);
    SelectTopSorted(f, MaxKeywords);
    SelectTopDistinct(f, MaxKeywords);
    forall i | 0 <= i < |top| ensures top[i].count == multiset(Candidates(content))[top[i].key] {
      assert top[i] in top;
    }
  }

  /** A token left out of the keywords occurs no more often than any keyword. */
  lemma KeywordsAreMostFrequent(content: Option<string>, t: string, w: string)
    requires t in Candidates(content) && t !in Keywords(content) && w in Keywords(content)
    ensures multiset(Candidates(content))[t] <= multiset(Candidates(content))[w]
  {
    var c := Candidates(content);
    var f := Frequencies(content);
    var top := SelectTop(f, MaxKeywords);
    var x := Entry(t, multiset(c)[t]);
    var i :| 0 <= i < |top| && Keys(top)[i] == w;
    assert top[i] in top;
    assert x !in top;
    SelectTopDominates(f, MaxKeywords, x, top[i]);
  }

  /** With at most ten distinct tokens, every token is a keyword. */
  lemma KeywordsCompleteWhenFew(content: Option<string>, t: string)
    requires |Distinct(Candidates(content))| <= MaxKeywords
    requires t in Candidates(content)
    ensures t in Keywords(content)
  {
    var c := Candidates(content);
    var f := Frequencies(content);
    SelectTopAll(f, MaxKeywords);
    assert Entry(t, multiset(c)[t]) in f;
  }
}
