/**
 * The dictionary-based topic and emotion classifier.
 *
 * A message is lower-cased, trimmed and split like the keyword extractor's;
 * every trimmed word of at least two characters is scored against each
 * label's keyword set: 3 when the set contains the word, otherwise 1 when
 * some keyword contains the word or is contained in it, otherwise nothing.
 * The label of highest total wins; a message that scores nothing gets the
 * default label.
 */
module TopicClassification {
  import opened Wrappers
  import opened Text
  import opened Tally
  import opened Ranking

  const OtherTopic: string := "기타"
  const NeutralEmotion: string := "중립"

  /** Every label `classifyTopic` can return. */
  const TopicLabels: set<string> := {"업무", "일상", "문제", "기술", "팀워크", "기타"}
  /** Every label `analyzeEmotion` can return. */
  const EmotionLabels: set<string> := {"긍정", "부정", "중립"}

  const TopicKeywords: map<string, set<string>> := map[
    "업무" := {
      "회의", "프로젝트", "업무", "일정", "작업", "개발", "구현", "설계", "테스트", "배포",
      "문서", "요구사항", "기능", "버그", "수정", "완료", "진행", "검토", "승인", "기획",
      "마감", "스케줄", "업데이트", "리뷰", "피드백", "개선", "최적화", "성능"
    },
    "일상" := {
      "안녕", "좋아", "나쁘다", "재미있다", "심심하다", "피곤하다", "배고프다", "맛있다",
      "날씨", "오늘", "내일", "주말", "휴가", "여행", "영화", "게임", "음악", "책",
      "커피", "점심", "저녁", "아침", "취미", "운동", "쇼핑", "친구", "가족"
    },
    "문제" := {
      "문제", "오류", "에러", "실패", "안됨", "도움", "질문", "모르겠다", "어렵다", "복잡하다",
      "해결", "수정", "고치다", "버그", "이슈", "장애", "복구", "점검", "확인", "체크",
      "급해", "빨리", "긴급", "중요", "심각", "위험", "주의", "경고"
    },
    "기술" := {
      "코드", "프로그래밍", "개발", "API", "데이터베이스", "서버", "클라이언트", "백엔드", "프론트엔드",
      "자바", "스프링", "리액트", "자바스크립트", "파이썬", "SQL", "노드", "웹소켓", "REST",
      "JSON", "HTML", "CSS", "Git", "도커", "쿠버네티스", "AWS", "클라우드", "배포", "CI/CD"
    },
    "팀워크" := {
      "팀", "협업", "소통", "공유", "의견", "토론", "논의", "브레인스토밍", "아이디어",
      "제안", "동의", "반대", "찬성", "결정", "합의", "조율", "역할", "책임", "지원",
      "도움", "멘토링", "코칭", "가이드", "안내", "설명", "공지", "알림"
    }
  ]

  const EmotionKeywords: map<string, set<string>> := map[
    "긍정" := {
      "좋다", "훌륭하다", "완벽하다", "만족", "기쁘다", "행복하다", "즐겁다", "재미있다",
      "성공", "완료", "달성", "해결", "최고", "멋지다", "대단하다", "감사", "고마워",
      "사랑", "좋아한다", "추천", "괜찮다", "잘됐다", "축하", "화이팅", "파이팅"
    },
    "부정" := {
      "나쁘다", "최악", "싫다", "화나다", "짜증", "스트레스", "실망", "속상하다", "우울하다",
      "문제", "실패", "안됨", "어렵다", "복잡하다", "힘들다", "피곤하다", "지쳤다",
      "걱정", "불안", "두렵다", "무섭다", "답답하다", "귀찮다"
    },
    "중립" := {
      "보통", "그냥", "일반", "평범", "괜찮다", "그럭저럭", "보통이다", "무난하다",
      "알겠다", "이해", "확인", "체크", "검토", "점검", "분석", "정리", "요약"
    }
  ]

  /** `word.contains(keyword) || keyword.contains(word)`. */
  predicate Related(word: string, keyword: string)
  {
    Contains(word, keyword) || Contains(keyword, word)
  }

  /** Some keyword of the set is related to the word, one keyword at a time. */
  ghost predicate AnyRelated(word: string, keywords: set<string>)
    decreases |keywords|
  {
    if keywords == {} then false
    else
      var k :| k in keywords;
      Related(word, k) || AnyRelated(word, keywords - {k})
  }

  lemma {:induction false} AnyRelatedExists(word: string, keywords: set<string>)
    ensures AnyRelated(word, keywords) <==> exists k :: k in keywords && Related(word, k)
    decreases |keywords|
  {
    if keywords != {} {
      var k :| k in keywords && AnyRelated(word, keywords) == (Related(word, k) || AnyRelated(word, keywords - {k}));
      AnyRelatedExists(word, keywords - {k});
      if !Related(word, k) {
        forall j | j in keywords && Related(word, j) ensures j in keywords - {k} { }
      }
    }
  }

  /** What one word adds to one label's score. */
  ghost function WordScore(word: string, keywords: set<string>): nat
  {
    if word in keywords then 3
    else if AnyRelated(word, keywords) then 1
    else 0
  }

  /** What one split word adds: nothing unless its trimmed form has two characters or more. */
  ghost function TokenScore(word: string, keywords: set<string>): nat
  {
    var w := Trim(word);
    if |w| < 2 then 0 else WordScore(w, keywords)
  }

  /** A label's total over a word list. */
  ghost function LabelScore(words: seq<string>, keywords: set<string>): nat
  {
    if words == [] then 0
    else LabelScore(words[..|words| - 1], keywords) + TokenScore(words[|words| - 1], keywords)
  }

  /** The score map the loops build: one entry per label that scored. */
  ghost function Scores(words: seq<string>, dict: map<string, set<string>>): map<string, nat>
  {
    map l | l in dict.Keys && LabelScore(words, dict[l]) > 0 :: LabelScore(words, dict[l])
  }

  lemma LabelScoreStep(words: seq<string>, i: nat, keywords: set<string>)
    requires i < |words|
    ensures LabelScore(words[..i + 1], keywords) == LabelScore(words[..i], keywords) + TokenScore(words[i], keywords)
  {
    assert words[..i + 1][..i] == words[..i];
  }

  /** The inner keyword loop: does some keyword contain the word or lie inside it? */
  method PartialMatch(word: string, keywords: set<string>) returns (found: bool)
    ensures found <==> exists k :: k in keywords && Related(word, k)
  {
    found := false;
    var rest := keywords;
    while rest != {} && !found
      invariant rest <= keywords
      invariant found ==> exists k :: k in keywords && Related(word, k)
      invariant !found ==> forall k :: k in keywords && k !in rest ==> !Related(word, k)
      decreases |rest|
    {
      var k :| k in rest;
      if Related(word, k) {
        found := true;
      }
      rest := rest - {k};
    }
  }

  /** What one word adds to each label of a dictionary. */
  ghost function Gains<L>(word: string, dict: map<L, set<string>>): (g: map<L, nat>)
    ensures g.Keys == dict.Keys
    ensures forall l :: l in dict ==> g[l] == WordScore(word, dict[l])
  {
    map l | l in dict :: WordScore(word, dict[l])
  }

  /** The part of `gain` that belongs to the labels in `done`. */
  ghost function Added<L>(gain: map<L, nat>, done: set<L>, l: L): nat
  {
    if l in gain && l in done then gain[l] else 0
  }

  /** One label's keyword scan: 3 on an exact hit, else 1 on the first related keyword. */
  method ScoreLabel(word: string, keywords: set<string>) returns (n: nat)
    ensures n == WordScore(word, keywords)
  {
    if word in keywords {
      n := 3;
    } else {
      var partial := PartialMatch(word, keywords);
      AnyRelatedExists(word, keywords);
      n := if partial then 1 else 0;
    }
  }

  /** What the label loop knows after scoring the labels in `done`. */
  ghost predicate ScoredSoFar<L(!new)>(scores: map<L, nat>, updated: map<L, nat>, gain: map<L, nat>, done: set<L>)
  {
    (forall l :: Get(updated, l) == Get(scores, l) + Added(gain, done, l)) &&
    (forall l :: l in updated <==> l in scores || Added(gain, done, l) > 0)
  }

  lemma ScoredStep<L(!new)>(scores: map<L, nat>, updated: map<L, nat>, gain: map<L, nat>, done: set<L>, name: L)
    requires ScoredSoFar(scores, updated, gain, done)
    requires name in gain && name !in done
    ensures ScoredSoFar(scores, if gain[name] > 0 then Merge(updated, name, gain[name]) else updated, gain, done + {name})
  {
  }

  /** The loop over a dictionary's labels for one word of two characters or more. */
  method ScoreWord<L(!new)>(word: string, dict: map<L, set<string>>, scores: map<L, nat>)
    returns (updated: map<L, nat>)
    ensures forall l :: Get(updated, l) == Get(scores, l) + Get(Gains(word, dict), l)
    ensures forall l :: l in updated <==> l in scores || Get(Gains(word, dict), l) > 0
  {
    ghost var gain := Gains(word, dict);
    updated := scores;
    var rest := dict.Keys;
    ghost var done: set<L> := {};
    while rest != {}
      invariant rest <= dict.Keys && done == dict.Keys - rest
      invariant ScoredSoFar(scores, updated, gain, done)
      decreases |rest|
    {
      var name :| name in rest;
      var n := ScoreLabel(word, dict[name]);
      ScoredStep(scores, updated, gain, done, name);
      if n > 0 {
        updated := Merge(updated, name, n);
      }
      rest := rest - {name};
      done := done + {name};
    }
  }

  /** The outer word loop: the score map of a word list. */
  method ScoreWords(words: seq<string>, dict: map<string, set<string>>) returns (scores: map<string, nat>)
    ensures scores == Scores(words, dict)
  {
    scores := map[];
    for i := 0 to |words|
      invariant forall l :: Get(scores, l) == (if l in dict then LabelScore(words[..i], dict[l]) else 0)
      invariant forall l :: l in scores <==> l in dict && LabelScore(words[..i], dict[l]) > 0
    {
      forall l | l in dict {
        LabelScoreStep(words, i, dict[l]);
      }
      var word := Trim(words[i]);
      if |word| >= 2 {
        scores := ScoreWord(word, dict, scores);
      }
    }
    assert words[..|words|] == words;
  }

  /**
   * `entrySet().stream().max(comparingByValue())`: the first entry of
   * maximal score in the map's iteration order, or the default when the map
   * is empty.
   */
  method Best(scores: map<string, nat>, default: string) returns (name: string)
    ensures scores == map[] ==> name == default
    ensures scores != map[] ==> name in scores && forall l :: l in scores ==> scores[l] <= scores[name]
  {
    if scores == map[] {
      return default;
    }
    var entries := EntriesOf(scores);
    var i := FirstMax(entries);
    name := entries[i].key;
    forall l | l in scores ensures scores[l] <= scores[name] {
      assert Entry(l, scores[l] as int) in entries;
    }
  }

  /**
   * `name` is a label the classifier may return for `content`: the default
   * for a null or blank message or when nothing scored, otherwise a label of
   * maximal score.
   */
  ghost predicate Classified(content: Option<string>, dict: map<string, set<string>>, default: string, name: string)
  {
    && (content.None? || IsBlank(content.value) ==> name == default)
    && (content.Some? && !IsBlank(content.value) ==>
         var s := Scores(MessageWords(content.value), dict);
         (s == map[] ==> name == default) &&
         (s != map[] ==> name in s && forall l :: l in s ==> s[l] <= s[name]))
  }

  /** The shared shape of `classifyTopic` and `analyzeEmotion`. */
  method Classify(content: Option<string>, dict: map<string, set<string>>, default: string) returns (name: string)
    ensures Classified(content, dict, default, name)
    ensures name == default || name in dict
  {
    if content.None? || IsBlank(content.value) {
      return default;
    }
    var scores := ScoreWords(MessageWords(content.value), dict);
    name := Best(scores, default);
  }

  /** `classifyTopic`: one of the five topics, or 기타. */
  method ClassifyTopic(content: Option<string>) returns (topic: string)
    ensures Classified(content, TopicKeywords, OtherTopic, topic)
    ensures topic in TopicLabels
  {
    topic := Classify(content, TopicKeywords, OtherTopic);
  }

  /** `analyzeEmotion`: 긍정, 부정 or 중립; 중립 when nothing scored. */
  method AnalyzeEmotion(content: Option<string>) returns (emotion: string)
    ensures Classified(content, EmotionKeywords, NeutralEmotion, emotion)
    ensures emotion in EmotionLabels
  {
    emotion := Classify(content, EmotionKeywords, NeutralEmotion);
  }

  /** `analyzeMessage`: the topic and the emotion of one message. */
  method AnalyzeMessage(content: Option<string>) returns (topic: string, emotion: string)
    ensures Classified(content, TopicKeywords, OtherTopic, topic) && topic in TopicLabels
    ensures Classified(content, EmotionKeywords, NeutralEmotion, emotion) && emotion in EmotionLabels
    ensures content.None? || IsBlank(content.value) ==> topic == OtherTopic && emotion == NeutralEmotion
  {
    topic := ClassifyTopic(content);
    emotion := AnalyzeEmotion(content);
  }

  /**
   * `getTopicStatistics`: one topic and one emotion per message, tallied;
   * both distributions sum to the number of messages.
   */
  method GetTopicStatistics(messages: seq<Option<string>>)
    returns (topicCounts: map<string, nat>, emotionCounts: map<string, nat>, totalMessages: nat)
    ensures totalMessages == |messages|
    ensures Total(topicCounts) == |messages| && Total(emotionCounts) == |messages|
    ensures forall t :: t in topicCounts ==> t in TopicLabels
    ensures forall e :: e in emotionCounts ==> e in EmotionLabels
  {
    topicCounts := map[];
    emotionCounts := map[];
    for i := 0 to |messages|
      invariant Total(topicCounts) == i && Total(emotionCounts) == i
      invariant forall t :: t in topicCounts ==> t in TopicLabels
      invariant forall e :: e in emotionCounts ==> e in EmotionLabels
    {
      var topic := ClassifyTopic(messages[i]);
      var emotion := AnalyzeEmotion(messages[i]);
      TotalMerge(topicCounts, topic, 1);
      TotalMerge(emotionCounts, emotion, 1);
      topicCounts := Merge(topicCounts, topic, 1);
      emotionCounts := Merge(emotionCounts, emotion, 1);
    }
    totalMessages := |messages|;
  }

  /** Scores per word and label are 0, 1 or 3, and 3 exactly on a dictionary hit. */
  lemma WordScoreValues(word: string, keywords: set<string>)
    ensures WordScore(word, keywords) in {0, 1, 3}
    ensures WordScore(word, keywords) == 3 <==> word in keywords
    ensures WordScore(word, keywords) == 1 <==> word !in keywords && exists k :: k in keywords && Related(word, k)
    ensures WordScore(word, keywords) == 0 <==> word !in keywords && forall k :: k in keywords ==> !Related(word, k)
  {
    AnyRelatedExists(word, keywords);
  }

  /** A word whose trimmed form is shorter than two characters changes no score. */
  lemma ShortWordsScoreNothing(words: seq<string>, word: string, keywords: set<string>)
    requires |Trim(word)| < 2
    ensures LabelScore(words + [word], keywords) == LabelScore(words, keywords)
  {
    assert (words + [word])[..|words|] == words;
  }

  /** Scores only grow as words are added. */
  lemma {:induction false} LabelScoreMonotone(words: seq<string>, more: seq<string>, keywords: set<string>)
    ensures LabelScore(words, keywords) <= LabelScore(words + more, keywords)
    decreases |more|
  {
    if more != [] {
      var init := more[..|more| - 1];
      LabelScoreMonotone(words, init, keywords);
      assert (words + more)[..|words + more| - 1] == words + init;
    } else {
      assert words + more == words;
    }
  }
}
