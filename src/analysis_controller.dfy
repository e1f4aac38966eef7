/**
 * Two views of the analysis REST controller over what the analysis service
 * has stored and counted: the stats summary (stored results per type and
 * whether the room has live participation counts), and the topic and
 * emotion distribution over the room's latest topic classifications.
 */
module AnalysisController {
  import opened Wrappers
  import opened Text
  import opened Tally
  import opened AnalysisResults
  import opened AnalysisJson
  import opened ChatAnalysis

  /** Stored results of one room, counted by a repository `countBy...` query. */
  function CountInRoom(saved: seq<AnalysisRow>, roomId: int): (n: nat)
    ensures n <= |saved|
  {
    if saved == [] then 0
    else CountInRoom(saved[..|saved| - 1], roomId) + (if saved[|saved| - 1].roomId == roomId then 1 else 0)
  }

  function CountOfType(saved: seq<AnalysisRow>, roomId: int, t: AnalysisType): (n: nat)
    ensures n <= |saved|
  {
    if saved == [] then 0
    else
      var last := saved[|saved| - 1];
      CountOfType(saved[..|saved| - 1], roomId, t) + (if last.roomId == roomId && last.analysisType == t then 1 else 0)
  }

  /** The three realtime types together never outnumber the room's results. */
  lemma {:induction false} RealtimeCountsBounded(saved: seq<AnalysisRow>, roomId: int)
    ensures CountOfType(saved, roomId, KEYWORD_FREQUENCY) + CountOfType(saved, roomId, TIME_PATTERN)
      + CountOfType(saved, roomId, USER_PARTICIPATION) <= CountInRoom(saved, roomId)
  {
    if saved != [] {
      RealtimeCountsBounded(saved[..|saved| - 1], roomId);
    }
  }

  datatype AnalysisStats = AnalysisStats(
    roomId: int,
    totalAnalysisCount: nat,
    keywordAnalysisCount: nat,
    timePatternCount: nat,
    participationCount: nat,
    hasRealtimeData: bool)

  /**
   * `getAnalysisStats`: the stored results of the room, per realtime type,
   * and whether the live participation table has a user for the room.
   */
  method GetAnalysisStats(service: ChatAnalysisService, roomId: int) returns (s: AnalysisStats)
    ensures s.roomId == roomId
    ensures s.totalAnalysisCount == CountInRoom(service.savedResults, roomId)
    ensures s.keywordAnalysisCount == CountOfType(service.savedResults, roomId, KEYWORD_FREQUENCY)
    ensures s.timePatternCount == CountOfType(service.savedResults, roomId, TIME_PATTERN)
    ensures s.participationCount == CountOfType(service.savedResults, roomId, USER_PARTICIPATION)
    ensures s.hasRealtimeData <==> RoomStats(service.roomUserMessageCount, roomId) != map[]
    ensures s.keywordAnalysisCount + s.timePatternCount + s.participationCount <= s.totalAnalysisCount
  {
    var participation := service.GetRoomUserParticipation(roomId);
    RealtimeCountsBounded(service.savedResults, roomId);
    s := AnalysisStats(roomId,
      CountInRoom(service.savedResults, roomId),
      CountOfType(service.savedResults, roomId, KEYWORD_FREQUENCY),
      CountOfType(service.savedResults, roomId, TIME_PATTERN),
      CountOfType(service.savedResults, roomId, USER_PARTICIPATION),
      participation.totalUsers > 0);
  }

  // ------------------------------------------------------------ topics

  /** How many of the newest topic classifications the view inspects. */
  const TopicResultLimit: nat := 50

  /** The marker a result's data must contain to be counted. */
  const TopicMarker: string := "\"topic\":"

  /** A stored result the topic view's query selects for the room. */
  predicate IsTopicOf(x: AnalysisRow, roomId: int)
  {
    x.roomId == roomId && x.analysisType == TOPIC_CLASSIFICATION
  }

  /**
   * `findByRoomIdAndAnalysisTypeOrderByCreatedAtDesc` for topic
   * classifications: every one of the room's, and nothing else, newest
   * first (the results are stored oldest first).
   */
  function TopicResultsNewestFirst(saved: seq<AnalysisRow>, roomId: int): (r: seq<AnalysisRow>)
    ensures |r| == CountOfType(saved, roomId, TOPIC_CLASSIFICATION)
    ensures forall x :: x in r <==> x in saved && IsTopicOf(x, roomId)
  {
    if saved == [] then []
    else
      var last := saved[|saved| - 1];
      assert saved == saved[..|saved| - 1] + [last];
      (if IsTopicOf(last, roomId) then [last] else [])
        + TopicResultsNewestFirst(saved[..|saved| - 1], roomId)
  }

  /** Stored row `p` is `x`, a topic classification of the room, and `i` more of them are stored after it. */
  predicate StoredWithNewer(saved: seq<AnalysisRow>, roomId: int, x: AnalysisRow, i: nat, p: int)
  {
    && 0 <= p < |saved|
    && saved[p] == x
    && IsTopicOf(x, roomId)
    && CountOfType(saved, roomId, TOPIC_CLASSIFICATION) == CountOfType(saved[..p + 1], roomId, TOPIC_CLASSIFICATION) + i
  }

  /** The order of the query: the i-th result is stored with exactly i of the room's topic classifications after it. */
  lemma {:induction false} TopicResultsOrder(saved: seq<AnalysisRow>, roomId: int, i: nat)
    requires i < |TopicResultsNewestFirst(saved, roomId)|
    ensures exists p :: StoredWithNewer(saved, roomId, TopicResultsNewestFirst(saved, roomId)[i], i, p)
  {
    var n := |saved|;
    var front, last := saved[..n - 1], saved[n - 1];
    var head: seq<AnalysisRow> := if IsTopicOf(last, roomId) then [last] else [];
    var rest := TopicResultsNewestFirst(front, roomId);
    var r := TopicResultsNewestFirst(saved, roomId);
    assert r == head + rest;
    if i < |head| {
      assert saved[..n] == saved;
      assert StoredWithNewer(saved, roomId, r[i], i, n - 1);
    } else {
      var j := i - |head|;
      assert r[i] == rest[j];
      TopicResultsOrder(front, roomId, j);
      var p :| StoredWithNewer(front, roomId, rest[j], j, p);
      assert saved[..p + 1] == front[..p + 1];
      assert StoredWithNewer(saved, roomId, r[i], i, p);
    }
  }

  /** The data strings that carry a topic, in order. */
  function Counted(datas: seq<string>): (r: seq<string>)
    ensures |r| <= |datas|
    ensures forall d :: d in r <==> d in datas && Contains(d, TopicMarker)
  {
    if datas == [] then []
    else
      var last := datas[|datas| - 1];
      Counted(datas[..|datas| - 1]) + (if Contains(last, TopicMarker) then [last] else [])
  }

  function Values(datas: seq<string>, key: string): (r: seq<string>)
    ensures |r| == |datas|
    ensures forall i :: 0 <= i < |datas| ==> r[i] == ExtractJsonValue(datas[i], key)
  {
    if datas == [] then [] else Values(datas[..|datas| - 1], key) + [ExtractJsonValue(datas[|datas| - 1], key)]
  }

  function DataOf(rs: seq<AnalysisRow>): (r: seq<string>)
    ensures |r| == |rs|
    ensures forall i :: 0 <= i < |rs| ==> r[i] == rs[i].analysisData
  {
    if rs == [] then [] else DataOf(rs[..|rs| - 1]) + [rs[|rs| - 1].analysisData]
  }

  /** The topic (or emotion) distribution the loop builds: one count per counted result. */
  function Distribution(datas: seq<string>, key: string): map<string, nat>
  {
    BumpAll(map[], Values(Counted(datas), key))
  }

  datatype TopicView = TopicView(
    roomId: int,
    topicDistribution: map<string, nat>,
    emotionDistribution: map<string, nat>,
    totalAnalyzedMessages: nat)

  /** The loop's state after the first `i` data strings. */
  ghost predicate TalliedUpTo(datas: seq<string>, i: nat, topics: map<string, nat>, emotions: map<string, nat>)
    requires i <= |datas|
  {
    topics == Distribution(datas[..i], "topic") && emotions == Distribution(datas[..i], "emotion")
  }

  /** One pass of the loop: a result that carries a topic adds one to its topic and one to its emotion. */
  lemma TallyStep(datas: seq<string>, i: nat, key: string)
    requires i < |datas|
    ensures Distribution(datas[..i + 1], key)
      == if Contains(datas[i], TopicMarker) then Bump(Distribution(datas[..i], key), ExtractJsonValue(datas[i], key))
         else Distribution(datas[..i], key)
  {
    assert datas[..i + 1] == datas[..i] + [datas[i]];
    DistributionSnoc(datas[..i], datas[i], key);
  }

  lemma DistributionSnoc(datas: seq<string>, d: string, key: string)
    ensures Distribution(datas + [d], key)
      == if Contains(d, TopicMarker) then Bump(Distribution(datas, key), ExtractJsonValue(d, key))
         else Distribution(datas, key)
  {
    assert (datas + [d])[..|datas|] == datas;
    var c := Counted(datas);
    if Contains(d, TopicMarker) {
      assert Counted(datas + [d]) == c + [d];
      var vs := Values(c, key);
      assert (c + [d])[..|c|] == c;
      assert Values(c + [d], key) == vs + [ExtractJsonValue(d, key)];
      BumpAllSnoc(map[], vs, ExtractJsonValue(d, key));
    } else {
      assert Counted(datas + [d]) == c + [] == c;
    }
  }

  /** The merge loop of `getTopicAnalysis` over the inspected data strings. */
  method TallyTopics(datas: seq<string>) returns (topics: map<string, nat>, emotions: map<string, nat>)
    ensures topics == Distribution(datas, "topic") && emotions == Distribution(datas, "emotion")
  {
    topics := map[];
    emotions := map[];
    var i := 0;
    while i < |datas|
      invariant i <= |datas|
      invariant TalliedUpTo(datas, i, topics, emotions)
    {
      TallyStep(datas, i, "topic");
      TallyStep(datas, i, "emotion");
      if Contains(datas[i], TopicMarker) {
        topics := Bump(topics, ExtractJsonValue(datas[i], "topic"));
        emotions := Bump(emotions, ExtractJsonValue(datas[i], "emotion"));
      }
      i := i + 1;
    }
    assert datas[..|datas|] == datas;
  }

  /**
   * `getTopicAnalysis`: the newest fifty topic classifications of the room;
   * each whose data names a topic adds one to its topic and one to its
   * emotion (a missing value counts as 기타).
   */
  method GetTopicAnalysis(service: ChatAnalysisService, roomId: int) returns (v: TopicView)
    ensures var inspected := Take(TopicResultsNewestFirst(service.savedResults, roomId), TopicResultLimit);
      && v.roomId == roomId
      && v.totalAnalyzedMessages == |inspected| <= TopicResultLimit
      && v.topicDistribution == Distribution(DataOf(inspected), "topic")
      && v.emotionDistribution == Distribution(DataOf(inspected), "emotion")
  {
    var inspected := Take(TopicResultsNewestFirst(service.savedResults, roomId), TopicResultLimit);
    var topics, emotions := TallyTopics(DataOf(inspected));
    v := TopicView(roomId, topics, emotions, |inspected|);
  }

  /**
   * Both distributions count the same results, exactly those whose data
   * holds the topic marker, so each sums to at most the number inspected.
   */
  lemma DistributionTotal(datas: seq<string>, key: string)
    ensures Total(Distribution(datas, key)) == |Counted(datas)| <= |datas|
  {
    TotalBumpAll(Values(Counted(datas), key));
  }

  /** The distribution's keys are the values read from the counted results. */
  lemma DistributionKeys(datas: seq<string>, key: string)
    ensures Distribution(datas, key).Keys == set d | d in Counted(datas) :: ExtractJsonValue(d, key)
  {
    var c := Counted(datas);
    var vs := Values(c, key);
    BumpAllKeys(map[], vs);
    ValuesAreRead(c, vs, key);
  }

  lemma ValuesAreRead(c: seq<string>, vs: seq<string>, key: string)
    requires |vs| == |c| && forall i :: 0 <= i < |c| ==> vs[i] == ExtractJsonValue(c[i], key)
    ensures (set x | x in vs) == set d | d in c :: ExtractJsonValue(d, key)
  {
    forall x | x in vs ensures exists d :: d in c && x == ExtractJsonValue(d, key) {
      var i :| 0 <= i < |vs| && vs[i] == x;
      assert c[i] in c;
    }
    forall d | d in c ensures ExtractJsonValue(d, key) in vs {
      var i :| 0 <= i < |c| && c[i] == d;
      assert vs[i] == ExtractJsonValue(d, key);
    }
  }
}
