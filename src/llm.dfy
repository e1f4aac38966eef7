/**
 * The parts of the LLM analyser that do not talk to the network: the
 * whitelist applied to a topic answer, the two ways a keyword answer is
 * read, and the fallback analysis returned whenever the call or its parsing
 * fails.  The model call itself is an input: `LlmCall` says whether it
 * answered and, if so, what the answer parsed to.
 */
module LlmAnalysis {
  import opened Wrappers
  import opened Text

  const OtherTopic: string := "기타"
  const NeutralEmotion: string := "중립"

  /** The six answers `parseTopicFromResponse` accepts. */
  const ValidTopics: set<string> := {"업무", "일상", "문제", "기술", "팀워크", "기타"}

  /** Most keywords kept from a keyword answer. */
  const MaxParsedKeywords: nat := 10

  /** Most keywords the naive fallback extractor returns. */
  const MaxFallbackKeywords: nat := 5

  /**
   * One entry of the answer map as the chat analyser reads it: absent, of
   * the type it is cast to, or of another type (the cast then throws).
   */
  datatype Field<T> = Missing | Value(v: T) | WrongType

  /** The entries of the answer map the chat analyser reads. */
  datatype Analysis = Analysis(keywords: Field<seq<string>>, topic: Field<string>, emotion: Field<string>)

  /** What the model call produced: no answer (an exception), or an answer that parsed to a map or did not. */
  datatype LlmCall = CallFailed | Answered(parsed: Option<Analysis>)

  /** `parseTopicFromResponse`: the trimmed answer when it is one of the six topics, otherwise 기타. */
  function ParseTopicFromResponse(response: string): (topic: string)
    ensures topic in ValidTopics
    ensures topic == Trim(response) <==> Trim(response) in ValidTopics
    ensures Trim(response) !in ValidTopics ==> topic == OtherTopic
  {
    var t := Trim(response);
    if t in ValidTopics then t else OtherTopic
  }

  /** `replaceAll("[\\[\\]\"]", "")`: every bracket and double quote removed. */
  function Clean(response: string): (cleaned: string)
    ensures '[' !in cleaned && ']' !in cleaned && '"' !in cleaned
  {
    Remove(Remove(Remove(response, '['), ']'), '"')
  }

  /** Each trimmed comma-separated field of a cleaned answer is trimmed and free of brackets, quotes and commas. */
  lemma CleanFields(cleaned: string)
    requires '[' !in cleaned && ']' !in cleaned && '"' !in cleaned
    ensures forall k :: k in TrimAll(Split(cleaned, Char(','))) ==>
      Trim(k) == k && '[' !in k && ']' !in k && '"' !in k && ',' !in k
  {
    var fields := Split(cleaned, Char(','));
    var trimmed := TrimAll(fields);
    SplitFieldsHaveNoSeparator(cleaned, Char(','));
    forall k | k in trimmed ensures Trim(k) == k && '[' !in k && ']' !in k && '"' !in k && ',' !in k {
      var i :| 0 <= i < |fields| && trimmed[i] == k;
      TrimEnds(fields[i]);
      TrimUntouched(k);
      TrimKeeps(fields[i]);
      WordInSplitIsSlice(cleaned, Char(','), fields[i]);
    }
  }

  /** The comma-separated reading of a keyword answer. */
  function TextKeywords(response: string): (keywords: seq<string>)
    ensures |keywords| <= MaxParsedKeywords
    ensures forall k :: k in keywords ==> k != [] && Trim(k) == k
    ensures forall k :: k in keywords ==> '[' !in k && ']' !in k && '"' !in k && ',' !in k
  {
    var cleaned := Clean(response);
    CleanFields(cleaned);
    var kept := NonEmpty(TrimAll(Split(cleaned, Char(','))));
    var keywords := Take(kept, MaxParsedKeywords);
    assert forall k :: k in keywords ==> k in kept;
    keywords
  }

  /**
   * `parseKeywordsFromResponse`: the first ten elements when the answer
   * parses as a JSON list, otherwise the comma-separated reading.
   */
  function ParseKeywordsFromResponse(asJsonList: Option<seq<string>>, response: string): (keywords: seq<string>)
    ensures |keywords| <= MaxParsedKeywords
    ensures asJsonList.Some? ==> |keywords| <= |asJsonList.value| && keywords == asJsonList.value[..|keywords|]
    ensures asJsonList.Some? && |asJsonList.value| <= MaxParsedKeywords ==> keywords == asJsonList.value
    ensures asJsonList.None? ==> keywords == TextKeywords(response)
  {
    match asJsonList
    case Some(list) => Take(list, MaxParsedKeywords)
    case None => TextKeywords(response)
  }

  /** `extractKeywordsFallback`: the first five split tokens of two characters or more, as written. */
  function ExtractKeywordsFallback(content: Option<string>): (keywords: seq<string>)
    ensures content.None? || IsBlank(content.value) ==> keywords == []
    ensures |keywords| <= MaxFallbackKeywords
    ensures forall k :: k in keywords ==> |k| >= 2 && forall c :: c in k ==> !IsWordSeparator(c)
    ensures content.Some? && !IsBlank(content.value) ==>
      var long := AtLeast(Split(content.value, WordBoundary), 2);
      |keywords| <= |long| && keywords == long[..|keywords|] && (|long| <= MaxFallbackKeywords ==> keywords == long)
  {
    if content.None? || IsBlank(content.value) then []
    else
      SplitFieldsHaveNoSeparator(content.value, WordBoundary);
      Take(AtLeast(Split(content.value, WordBoundary), 2), MaxFallbackKeywords)
  }

  /** `createFallbackAnalysis`: topic 기타, emotion 중립 and the naive keywords. */
  function CreateFallbackAnalysis(content: Option<string>): (a: Analysis)
    ensures a.topic == Value(OtherTopic) && a.emotion == Value(NeutralEmotion)
    ensures a.keywords == Value(ExtractKeywordsFallback(content))
  {
    Analysis(Value(ExtractKeywordsFallback(content)), Value(OtherTopic), Value(NeutralEmotion))
  }

  /** `classifyTopicFallback`: the fallback topic does not look at the content. */
  function ClassifyTopicFallback(content: Option<string>): (topic: string)
    ensures topic == OtherTopic
  {
    OtherTopic
  }

  /**
   * `analyzeMessage`: the parsed answer; an answer that does not parse gives
   * the fallback for the empty content, and a failed call the fallback for
   * the message itself.  No failure escapes.
   */
  function AnalyzeMessage(content: Option<string>, call: LlmCall): (a: Analysis)
    ensures call.CallFailed? ==> a == CreateFallbackAnalysis(content)
    ensures call == Answered(None) ==> a == Analysis(Value([]), Value(OtherTopic), Value(NeutralEmotion))
    ensures call.Answered? && call.parsed.Some? ==> a == call.parsed.value
  {
    match call
    case CallFailed => CreateFallbackAnalysis(content)
    case Answered(None) => CreateFallbackAnalysis(Some(""))
    case Answered(Some(parsed)) => parsed
  }

  /** The whitelist is idempotent: a topic it returns is accepted unchanged. */
  lemma ParseTopicIdempotent(response: string)
    ensures ParseTopicFromResponse(ParseTopicFromResponse(response)) == ParseTopicFromResponse(response)
  {
    var t := ParseTopicFromResponse(response);
    TrimUntouched(t);
  }

  /**
   * Round trip: a keyword list written comma-separated is read back by the
   * text path, cut to ten, whenever every keyword is non-empty, already
   * trimmed and free of brackets, quotes and commas.
   */
  lemma TextKeywordsJoin(keywords: seq<string>)
    requires forall k :: k in keywords ==> k != [] && Trim(k) == k
    requires forall k :: k in keywords ==> '[' !in k && ']' !in k && '"' !in k && ',' !in k
    ensures TextKeywords(Join(keywords, ",")) == Take(keywords, MaxParsedKeywords)
  {
    var joined := Join(keywords, ",");
    assert Clean(joined) == joined by {
      JoinAvoids(keywords, ",", '[');
      JoinAvoids(keywords, ",", ']');
      JoinAvoids(keywords, ",", '"');
      RemoveAbsent(joined, '[');
      RemoveAbsent(joined, ']');
      RemoveAbsent(joined, '"');
    }
    if keywords == [] {
      assert Split(joined, Char(',')) == [[]];
    } else {
      SplitJoin(keywords, ',');
      assert TrimAll(keywords) == keywords;
      NonEmptyKeepsAll(keywords);
    }
  }

  /** The fallback analysis of blank content names no keywords. */
  lemma FallbackOfBlankIsEmpty(content: Option<string>)
    requires content.None? || IsBlank(content.value)
    ensures CreateFallbackAnalysis(content).keywords == Value([])
  {
  }
}
