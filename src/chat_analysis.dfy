/**
 * `ChatAnalysisService`: the per-room statistics of the live analysis.
 * Three maps per room count keywords, messages per display name and
 * messages per hour of day; every update only adds.  Messages arrive
 * through `AnalyzeMessage`, which applies the analyser's answer or, when
 * reading the answer throws, the dictionary fallback.  `RebuildRoomAnalysis`
 * throws a room's maps away and replays its stored TEXT messages.
 */
module ChatAnalysis {
  import opened Wrappers
  import opened Text
  import opened Tally
  import opened Ranking
  import opened Messages
  import opened AnalysisResults
  import opened AnalysisJson
  import KeywordExtraction
  import TopicClassification
  import LlmAnalysis
  import ConversationFlow

  const TopKeywordLimit: nat := 10
  const NeutralEmotion: string := "중립"

  /** A room's map, or the empty map for a room never seen (`getOrDefault`). */
  function RoomStats<K>(m: map<int, map<K, nat>>, roomId: int): map<K, nat>
  {
    if roomId in m then m[roomId] else map[]
  }

  /** `computeIfAbsent(roomId, ...)` followed by one increment per element of `ks`. */
  function Updated<K>(m: map<int, map<K, nat>>, roomId: int, ks: seq<K>): (r: map<int, map<K, nat>>)
    ensures r.Keys == m.Keys + {roomId}
  {
    m[roomId := BumpAll(RoomStats(m, roomId), ks)]
  }

  /** Two updates of one room are one update with both lists. */
  lemma UpdatedTwice<K>(m: map<int, map<K, nat>>, roomId: int, a: seq<K>, b: seq<K>)
    ensures Updated(Updated(m, roomId, a), roomId, b) == Updated(m, roomId, a + b)
  {
    BumpAllAppend(RoomStats(m, roomId), a, b);
  }

  /**
   * Updates only add: every count of every room is at least what it was,
   * the updated room gains exactly the occurrences in `ks`, and every other
   * room keeps its map.
   */
  lemma UpdatedOnlyGrows<K>(m: map<int, map<K, nat>>, roomId: int, ks: seq<K>, r: int, k: K)
    ensures r != roomId ==> RoomStats(Updated(m, roomId, ks), r) == RoomStats(m, r)
    ensures r == roomId ==> Get(RoomStats(Updated(m, roomId, ks), r), k) == Get(RoomStats(m, r), k) + multiset(ks)[k]
    ensures Get(RoomStats(m, r), k) <= Get(RoomStats(Updated(m, roomId, ks), r), k)
  {
    BumpAllCounts(RoomStats(m, roomId), ks, k);
  }

  /** `n` copies of `x`. */
  function Repeat<T>(x: T, n: nat): (r: seq<T>)
    ensures |r| == n && forall i :: 0 <= i < n ==> r[i] == x
  {
    seq(n, _ => x)
  }

  lemma RepeatOnce<T>(x: T)
    ensures Repeat(x, 1) == [x]
  {
  }

  lemma RepeatTwice<T>(x: T)
    ensures Repeat(x, 2) == [x] + [x]
  {
  }

  /** The message an analysis event carries, with the sender's login name. */
  datatype MessageReceived = MessageReceived(message: MessageRow, roomId: int, username: string)

  /** The name a live message is counted under: the message's nickname, else the event's login name. */
  function Counted(e: MessageReceived): string
  {
    e.message.name.GetOr(e.username)
  }

  /** The keywords the handler reads from the answer once the cast succeeds. */
  function AnswerKeywords(a: LlmAnalysis.Analysis): seq<string>
  {
    if a.keywords.Value? then a.keywords.v else []
  }

  function AnswerTopic(a: LlmAnalysis.Analysis): string
  {
    if a.topic.Value? then a.topic.v else OtherTopic
  }

  function AnswerEmotion(a: LlmAnalysis.Analysis): string
  {
    if a.emotion.Value? then a.emotion.v else NeutralEmotion
  }

  /** Reading the answer throws before any update: the keyword entry has the wrong type. */
  predicate FailsBeforeUpdates(a: LlmAnalysis.Analysis)
  {
    a.keywords.WrongType?
  }

  /** Reading the answer throws after the three updates: the topic or emotion entry has the wrong type. */
  predicate FailsAfterUpdates(a: LlmAnalysis.Analysis)
  {
    !a.keywords.WrongType? && (a.topic.WrongType? || a.emotion.WrongType?)
  }

  /** How often the participation and hour maps count one live message (twice when the fallback follows the updates). */
  function Passes(a: LlmAnalysis.Analysis): (n: nat)
    ensures n == 1 || n == 2
  {
    if FailsAfterUpdates(a) then 2 else 1
  }

  /** The keyword occurrences one live message adds. */
  function HandledKeywords(a: LlmAnalysis.Analysis, content: string): seq<string>
  {
    if FailsBeforeUpdates(a) then KeywordExtraction.Keywords(Some(content))
    else if FailsAfterUpdates(a) then AnswerKeywords(a) + KeywordExtraction.Keywords(Some(content))
    else AnswerKeywords(a)
  }

  /**
   * What `saveAdvancedAnalysisResult` appends for a fallback analysis: one
   * topic result when the message had keywords, for some topic and emotion
   * the dictionary classifier may return.
   */
  ghost predicate FallbackSaved(before: seq<AnalysisRow>, after: seq<AnalysisRow>, roomId: int, message: MessageRow, now: int)
  {
    var keywords := KeywordExtraction.Keywords(Some(message.content));
    var content := Some(message.content);
    if keywords == [] then after == before
    else exists topic, emotion ::
      && TopicClassification.Classified(content, TopicClassification.TopicKeywords, TopicClassification.OtherTopic, topic)
      && TopicClassification.Classified(content, TopicClassification.EmotionKeywords, TopicClassification.NeutralEmotion, emotion)
      && after == before + [CreateTopicAnalysis(roomId, AdvancedJson(keywords, topic, emotion, message.id), now - 60, now)]
  }

  /** The ordering of a repository query over the stored messages. */
  datatype Query = Query(roomId: int, textOnly: bool, after: Option<int>)

  /** A stored message the query returns: of the room, not deleted, and of type TEXT or after the cutoff when asked. */
  predicate Matches(q: Query, m: MessageRow)
  {
    && m.roomId == q.roomId
    && !m.isDeleted
    && (q.textOnly ==> m.messageType == TEXT)
    && (q.after.Some? ==> m.timestamp > q.after.value)
  }

  /** The messages a query returns, in stored order. */
  function Fetch(history: seq<MessageRow>, q: Query): (r: seq<MessageRow>)
    ensures |r| <= |history|
    ensures forall m :: m in r <==> m in history && Matches(q, m)
  {
    if history == [] then []
    else
      var init := history[..|history| - 1];
      var last := history[|history| - 1];
      assert history == init + [last];
      Fetch(init, q) + (if Matches(q, last) then [last] else [])
  }

  /** `days != null ? now.minusDays(days) : null` for the period views. */
  function Cutoff(days: Option<int>, now: int): Option<int>
  {
    if days.Some? then Some(now - days.value * SecondsPerDay) else None
  }

  /** The rebuild only windows the replay when `days` is positive. */
  function ReplayStart(days: Option<int>, now: int): Option<int>
  {
    if days.Some? && days.value > 0 then Some(now - days.value * SecondsPerDay) else None
  }

  /** The `period` entry of the period views. */
  function PeriodLabel(days: Option<int>): string
  {
    if days.Some? then IntToString(days.value) + "일" else "전체 기간"
  }

  /** Every keyword occurrence of the TEXT messages (the period keyword view). */
  function PeriodCandidates(ms: seq<MessageRow>): seq<string>
  {
    if ms == [] then []
    else
      var last := ms[|ms| - 1];
      PeriodCandidates(ms[..|ms| - 1])
        + (if last.messageType == TEXT then KeywordExtraction.Candidates(Some(last.content)) else [])
  }

  /** The display names of the non-system messages that have one (the period participation view). */
  function PeriodNames(ms: seq<MessageRow>): seq<string>
  {
    if ms == [] then []
    else
      var last := ms[|ms| - 1];
      PeriodNames(ms[..|ms| - 1])
        + (if last.messageType != SYSTEM && last.DisplayName().Some? then [last.DisplayName().value] else [])
  }

  /** The hours of the non-system messages (the period hourly view). */
  function PeriodHours(ms: seq<MessageRow>): seq<int>
  {
    if ms == [] then []
    else
      var last := ms[|ms| - 1];
      PeriodHours(ms[..|ms| - 1]) + (if last.messageType != SYSTEM then [HourOf(last.timestamp)] else [])
  }

  /** The keywords the rebuild adds: each message's ten best keywords. */
  function ReplayKeywords(ms: seq<MessageRow>): seq<string>
  {
    if ms == [] then []
    else ReplayKeywords(ms[..|ms| - 1]) + KeywordExtraction.Keywords(Some(ms[|ms| - 1].content))
  }

  /** The display names the rebuild counts: only messages that have one. */
  function ReplayNames(ms: seq<MessageRow>): seq<string>
  {
    if ms == [] then []
    else
      var last := ms[|ms| - 1];
      ReplayNames(ms[..|ms| - 1]) + (if last.DisplayName().Some? then [last.DisplayName().value] else [])
  }

  /** The hours the rebuild counts: again only for messages with a display name. */
  function ReplayHours(ms: seq<MessageRow>): seq<int>
  {
    if ms == [] then []
    else
      var last := ms[|ms| - 1];
      ReplayHours(ms[..|ms| - 1]) + (if last.DisplayName().Some? then [HourOf(last.timestamp)] else [])
  }

  lemma {:induction false} ReplayHoursFollowNames(ms: seq<MessageRow>)
    ensures |ReplayHours(ms)| == |ReplayNames(ms)|
  {
    if ms != [] {
      ReplayHoursFollowNames(ms[..|ms| - 1]);
    }
  }

  /**
   * A room's map after it was removed and rebuilt: present exactly when
   * some update created it, and then holding the counts of `ks`.
   */
  function Reset<K>(m: map<int, map<K, nat>>, roomId: int, present: bool, ks: seq<K>): map<int, map<K, nat>>
  {
    if present then m[roomId := BumpAll(map[], ks)] else m - {roomId}
  }

  /** One more update after a partial rebuild. */
  lemma ResetStep<K>(m: map<int, map<K, nat>>, roomId: int, present: bool, ks: seq<K>, more: seq<K>)
    requires present || ks == []
    ensures Updated(Reset(m, roomId, present, ks), roomId, more) == Reset(m, roomId, true, ks + more)
  {
    BumpAllAppend(map[], ks, more);
    if !present {
      assert ks + more == more;
    }
  }

  /** What a reset room and every other room hold. */
  lemma ResetLookup<K>(m: map<int, map<K, nat>>, roomId: int, present: bool, ks: seq<K>, r: int)
    requires present || ks == []
    ensures r == roomId ==> (r in Reset(m, roomId, present, ks) <==> present) && RoomStats(Reset(m, roomId, present, ks), r) == BumpAll(map[], ks)
    ensures r != roomId ==> (r in Reset(m, roomId, present, ks) <==> r in m) && RoomStats(Reset(m, roomId, present, ks), r) == RoomStats(m, r)
  {
  }

  /** Rebuilding twice from the same history gives the maps of rebuilding once. */
  lemma ResetIdempotent<K>(m: map<int, map<K, nat>>, roomId: int, present: bool, ks: seq<K>)
    ensures Reset(Reset(m, roomId, present, ks), roomId, present, ks) == Reset(m, roomId, present, ks)
  {
  }

  /** Two successive rebuilds over the same messages leave the maps of the first. */
  lemma RebuildTwiceSame(
    k0: map<int, map<string, nat>>, n0: map<int, map<string, nat>>, h0: map<int, map<int, nat>>,
    k1: map<int, map<string, nat>>, n1: map<int, map<string, nat>>, h1: map<int, map<int, nat>>,
    k2: map<int, map<string, nat>>, n2: map<int, map<string, nat>>, h2: map<int, map<int, nat>>,
    roomId: int, ms: seq<MessageRow>)
    requires RebuiltUpTo(k1, n1, h1, k0, n0, h0, roomId, ms)
    requires RebuiltUpTo(k2, n2, h2, k1, n1, h1, roomId, ms)
    ensures k2 == k1 && n2 == n1 && h2 == h1
  {
    ResetIdempotent(k0, roomId, ms != [], ReplayKeywords(ms));
    ResetIdempotent(n0, roomId, ReplayNames(ms) != [], ReplayNames(ms));
    ResetIdempotent(h0, roomId, ReplayNames(ms) != [], ReplayHours(ms));
  }

  /** The rebuilt room does not depend on what the room held before, and other rooms keep theirs. */
  lemma ResetForgets<K>(m1: map<int, map<K, nat>>, m2: map<int, map<K, nat>>, roomId: int, present: bool, ks: seq<K>, r: int)
    ensures RoomStats(Reset(m1, roomId, present, ks), roomId) == RoomStats(Reset(m2, roomId, present, ks), roomId)
    ensures r != roomId ==> RoomStats(Reset(m1, roomId, present, ks), r) == RoomStats(m1, r)
  {
  }

  /** The replay of one more message: its keywords always, its name and hour only when it has a display name. */
  lemma ReplaySnoc(ms: seq<MessageRow>, m: MessageRow)
    ensures ReplayKeywords(ms + [m]) == ReplayKeywords(ms) + KeywordExtraction.Keywords(Some(m.content))
    ensures m.DisplayName().Some? ==> ReplayNames(ms + [m]) == ReplayNames(ms) + [m.DisplayName().value]
    ensures m.DisplayName().Some? ==> ReplayHours(ms + [m]) == ReplayHours(ms) + [HourOf(m.timestamp)]
    ensures m.DisplayName().None? ==> ReplayNames(ms + [m]) == ReplayNames(ms) && ReplayHours(ms + [m]) == ReplayHours(ms)
  {
    assert (ms + [m])[..|ms|] == ms;
  }

  /** The period lists of the first `i + 1` messages extend those of the first `i`. */
  lemma PeriodStep(ms: seq<MessageRow>, i: nat)
    requires i < |ms|
    ensures PeriodCandidates(ms[..i + 1]) == PeriodCandidates(ms[..i])
      + (if ms[i].messageType == TEXT then KeywordExtraction.Candidates(Some(ms[i].content)) else [])
    ensures PeriodNames(ms[..i + 1]) == PeriodNames(ms[..i])
      + (if ms[i].messageType != SYSTEM && ms[i].DisplayName().Some? then [ms[i].DisplayName().value] else [])
    ensures PeriodHours(ms[..i + 1]) == PeriodHours(ms[..i]) + (if ms[i].messageType != SYSTEM then [HourOf(ms[i].timestamp)] else [])
  {
    assert ms[..i + 1][..i] == ms[..i];
  }

  /** A prefix one longer is the prefix and the next element. */
  lemma SliceSnoc<T>(ms: seq<T>, i: nat)
    requires i < |ms|
    ensures ms[..i + 1] == ms[..i] + [ms[i]]
  {
  }

  /** The prefix of full length is the whole sequence. */
  lemma SliceWhole<T>(ms: seq<T>)
    ensures ms[..|ms|] == ms
  {
  }

  /** The rebuild's loop state after the first `i` fetched messages. */
  predicate RebuiltUpTo(
    keywords: map<int, map<string, nat>>, names: map<int, map<string, nat>>, hours: map<int, map<int, nat>>,
    k0: map<int, map<string, nat>>, n0: map<int, map<string, nat>>, h0: map<int, map<int, nat>>,
    roomId: int, ms: seq<MessageRow>)
  {
    && keywords == Reset(k0, roomId, ms != [], ReplayKeywords(ms))
    && names == Reset(n0, roomId, ReplayNames(ms) != [], ReplayNames(ms))
    && hours == Reset(h0, roomId, ReplayNames(ms) != [], ReplayHours(ms))
  }

  /** Before the first message: the room is gone from all three maps. */
  lemma RebuildStart(k0: map<int, map<string, nat>>, n0: map<int, map<string, nat>>, h0: map<int, map<int, nat>>, roomId: int)
    ensures RebuiltUpTo(k0 - {roomId}, n0 - {roomId}, h0 - {roomId}, k0, n0, h0, roomId, [])
  {
    assert ReplayNames([]) == [];
  }

  /** `for (ChatMessage message : messages)`: one more message keeps the loop state. */
  lemma RebuildStep(
    keywords: map<int, map<string, nat>>, names: map<int, map<string, nat>>, hours: map<int, map<int, nat>>,
    k0: map<int, map<string, nat>>, n0: map<int, map<string, nat>>, h0: map<int, map<int, nat>>,
    roomId: int, ms: seq<MessageRow>, m: MessageRow)
    requires RebuiltUpTo(keywords, names, hours, k0, n0, h0, roomId, ms)
    ensures m.DisplayName().Some? ==>
      RebuiltUpTo(Updated(keywords, roomId, KeywordExtraction.Keywords(Some(m.content))),
                  Updated(names, roomId, [m.DisplayName().value]), Updated(hours, roomId, [HourOf(m.timestamp)]), k0, n0, h0, roomId, ms + [m])
    ensures m.DisplayName().None? ==>
      RebuiltUpTo(Updated(keywords, roomId, KeywordExtraction.Keywords(Some(m.content))), names, hours, k0, n0, h0, roomId, ms + [m])
  {
    ReplaySnoc(ms, m);
    ResetStep(k0, roomId, ms != [], ReplayKeywords(ms), KeywordExtraction.Keywords(Some(m.content)));
    if m.DisplayName().Some? {
      ReplayHoursFollowNames(ms);
      ResetStep(n0, roomId, ReplayNames(ms) != [], ReplayNames(ms), [m.DisplayName().value]);
      ResetStep(h0, roomId, ReplayNames(ms) != [], ReplayHours(ms), [HourOf(m.timestamp)]);
    }
  }

  /** A message without a display name adds its keywords to the rebuilt room but no participation and no hour. */
  lemma NamelessAddsOnlyKeywords(k0: map<int, map<string, nat>>, n0: map<int, map<string, nat>>, h0: map<int, map<int, nat>>,
    roomId: int, ms: seq<MessageRow>, m: MessageRow)
    requires m.DisplayName().None?
    ensures Reset(n0, roomId, ReplayNames(ms + [m]) != [], ReplayNames(ms + [m])) == Reset(n0, roomId, ReplayNames(ms) != [], ReplayNames(ms))
    ensures Reset(h0, roomId, ReplayNames(ms + [m]) != [], ReplayHours(ms + [m])) == Reset(h0, roomId, ReplayNames(ms) != [], ReplayHours(ms))
    ensures RoomStats(Reset(k0, roomId, true, ReplayKeywords(ms + [m])), roomId)
         == BumpAll(BumpAll(map[], ReplayKeywords(ms)), KeywordExtraction.Keywords(Some(m.content)))
  {
    ReplaySnoc(ms, m);
    BumpAllAppend(map[], ReplayKeywords(ms), KeywordExtraction.Keywords(Some(m.content)));
  }

  /** The messages `rebuildRoomAnalysis(roomId, days)` replays: the room's stored TEXT messages, windowed when `days > 0`. */
  function Replayed(history: seq<MessageRow>, roomId: int, days: Option<int>, now: int): seq<MessageRow>
  {
    Fetch(history, Query(roomId, true, ReplayStart(days, now)))
  }

  /** The rooms `rebuildAllRoomAnalysis` visits: distinct room ids of the stored non-deleted messages, first occurrence first. */
  function RoomIds(history: seq<MessageRow>): (ids: seq<int>)
    ensures forall r :: r in ids <==> exists m :: m in history && !m.isDeleted && m.roomId == r
    ensures forall i, j :: 0 <= i < j < |ids| ==> ids[i] != ids[j]
  {
    if history == [] then []
    else
      var init := history[..|history| - 1];
      var last := history[|history| - 1];
      assert history == init + [last];
      var ids := RoomIds(init);
      if !last.isDeleted && last.roomId !in ids then ids + [last.roomId] else ids
  }

  /** The keyword maps after rebuilding each room of `rooms` in turn over the whole history. */
  function RebuiltKeywords(m: map<int, map<string, nat>>, rooms: seq<int>, history: seq<MessageRow>, now: int): map<int, map<string, nat>>
  {
    if rooms == [] then m
    else
      var r := rooms[|rooms| - 1];
      var ms := Replayed(history, r, None, now);
      Reset(RebuiltKeywords(m, rooms[..|rooms| - 1], history, now), r, ms != [], ReplayKeywords(ms))
  }

  function RebuiltNames(m: map<int, map<string, nat>>, rooms: seq<int>, history: seq<MessageRow>, now: int): map<int, map<string, nat>>
  {
    if rooms == [] then m
    else
      var r := rooms[|rooms| - 1];
      var ms := Replayed(history, r, None, now);
      Reset(RebuiltNames(m, rooms[..|rooms| - 1], history, now), r, ReplayNames(ms) != [], ReplayNames(ms))
  }

  function RebuiltHours(m: map<int, map<int, nat>>, rooms: seq<int>, history: seq<MessageRow>, now: int): map<int, map<int, nat>>
  {
    if rooms == [] then m
    else
      var r := rooms[|rooms| - 1];
      var ms := Replayed(history, r, None, now);
      Reset(RebuiltHours(m, rooms[..|rooms| - 1], history, now), r, ReplayNames(ms) != [], ReplayHours(ms))
  }

  /** Rebuilding one more room resets just that room. */
  lemma RebuiltKeywordsStep(k: map<int, map<string, nat>>, rooms: seq<int>, i: nat, history: seq<MessageRow>, now: int)
    requires i < |rooms|
    ensures var ms := Replayed(history, rooms[i], None, now);
      RebuiltKeywords(k, rooms[..i + 1], history, now) == Reset(RebuiltKeywords(k, rooms[..i], history, now), rooms[i], ms != [], ReplayKeywords(ms))
  {
    var p := rooms[..i + 1];
    assert p[..|p| - 1] == rooms[..i];
  }

  lemma RebuiltNamesStep(n: map<int, map<string, nat>>, rooms: seq<int>, i: nat, history: seq<MessageRow>, now: int)
    requires i < |rooms|
    ensures var ms := Replayed(history, rooms[i], None, now);
      RebuiltNames(n, rooms[..i + 1], history, now) == Reset(RebuiltNames(n, rooms[..i], history, now), rooms[i], ReplayNames(ms) != [], ReplayNames(ms))
  {
    var p := rooms[..i + 1];
    assert p[..|p| - 1] == rooms[..i];
  }

  lemma RebuiltHoursStep(h: map<int, map<int, nat>>, rooms: seq<int>, i: nat, history: seq<MessageRow>, now: int)
    requires i < |rooms|
    ensures var ms := Replayed(history, rooms[i], None, now);
      RebuiltHours(h, rooms[..i + 1], history, now) == Reset(RebuiltHours(h, rooms[..i], history, now), rooms[i], ReplayNames(ms) != [], ReplayHours(ms))
  {
    var p := rooms[..i + 1];
    assert p[..|p| - 1] == rooms[..i];
  }

  /**
   * After rebuilding every room, a visited room holds exactly the counts of
   * its own replay, whatever it held before, and an unvisited room keeps its map.
   */
  lemma {:induction false} RebuiltKeywordsPerRoom(m: map<int, map<string, nat>>, rooms: seq<int>, history: seq<MessageRow>, now: int, r: int)
    ensures r in rooms ==>
      var ms := Replayed(history, r, None, now);
      (r in RebuiltKeywords(m, rooms, history, now) <==> ms != [])
      && RoomStats(RebuiltKeywords(m, rooms, history, now), r) == BumpAll(map[], ReplayKeywords(ms))
    ensures r !in rooms ==>
      (r in RebuiltKeywords(m, rooms, history, now) <==> r in m) && RoomStats(RebuiltKeywords(m, rooms, history, now), r) == RoomStats(m, r)
  {
    if rooms != [] {
      var init, last := rooms[..|rooms| - 1], rooms[|rooms| - 1];
      var ms := Replayed(history, last, None, now);
      assert rooms == init + [last];
      RebuiltKeywordsPerRoom(m, init, history, now, r);
      ResetLookup(RebuiltKeywords(m, init, history, now), last, ms != [], ReplayKeywords(ms), r);
    }
  }

  lemma {:induction false} RebuiltNamesPerRoom(m: map<int, map<string, nat>>, rooms: seq<int>, history: seq<MessageRow>, now: int, r: int)
    ensures r in rooms ==>
      var ms := Replayed(history, r, None, now);
      (r in RebuiltNames(m, rooms, history, now) <==> ReplayNames(ms) != [])
      && RoomStats(RebuiltNames(m, rooms, history, now), r) == BumpAll(map[], ReplayNames(ms))
    ensures r !in rooms ==>
      (r in RebuiltNames(m, rooms, history, now) <==> r in m) && RoomStats(RebuiltNames(m, rooms, history, now), r) == RoomStats(m, r)
  {
    if rooms != [] {
      var init, last := rooms[..|rooms| - 1], rooms[|rooms| - 1];
      var ms := Replayed(history, last, None, now);
      assert rooms == init + [last];
      RebuiltNamesPerRoom(m, init, history, now, r);
      ResetLookup(RebuiltNames(m, init, history, now), last, ReplayNames(ms) != [], ReplayNames(ms), r);
    }
  }

  lemma {:induction false} RebuiltHoursPerRoom(m: map<int, map<int, nat>>, rooms: seq<int>, history: seq<MessageRow>, now: int, r: int)
    ensures r in rooms ==>
      var ms := Replayed(history, r, None, now);
      (r in RebuiltHours(m, rooms, history, now) <==> ReplayNames(ms) != [])
      && RoomStats(RebuiltHours(m, rooms, history, now), r) == BumpAll(map[], ReplayHours(ms))
    ensures r !in rooms ==>
      (r in RebuiltHours(m, rooms, history, now) <==> r in m) && RoomStats(RebuiltHours(m, rooms, history, now), r) == RoomStats(m, r)
  {
    if rooms != [] {
      var init, last := rooms[..|rooms| - 1], rooms[|rooms| - 1];
      var ms := Replayed(history, last, None, now);
      assert rooms == init + [last];
      ReplayHoursFollowNames(ms);
      RebuiltHoursPerRoom(m, init, history, now, r);
      ResetLookup(RebuiltHours(m, init, history, now), last, ReplayNames(ms) != [], ReplayHours(ms), r);
    }
  }

  /** The period keyword count: `extractAndCountKeywords` over the TEXT messages into one fresh map. */
  method CountPeriodKeywords(ms: seq<MessageRow>) returns (stats: map<string, nat>)
    ensures stats == BumpAll(map[], PeriodCandidates(ms))
  {
    stats := map[];
    var i := 0;
    while i < |ms|
      invariant 0 <= i <= |ms|
      invariant stats == BumpAll(map[], PeriodCandidates(ms[..i]))
    {
      PeriodStep(ms, i);
      ghost var before := PeriodCandidates(ms[..i]);
      if ms[i].messageType == TEXT {
        ghost var more := KeywordExtraction.Candidates(Some(ms[i].content));
        stats := KeywordExtraction.ExtractAndCountKeywords(Some(ms[i].content), stats);
        BumpAllAppend(map[], before, more);
        assert PeriodCandidates(ms[..i + 1]) == before + more;
      } else {
        assert PeriodCandidates(ms[..i + 1]) == before;
      }
      i := i + 1;
    }
    assert ms[..|ms|] == ms;
  }

  /** The period participation count: one per non-system message with a display name. */
  method CountPeriodNames(ms: seq<MessageRow>) returns (stats: map<string, nat>)
    ensures stats == BumpAll(map[], PeriodNames(ms))
  {
    stats := map[];
    var i := 0;
    while i < |ms|
      invariant 0 <= i <= |ms|
      invariant stats == BumpAll(map[], PeriodNames(ms[..i]))
    {
      PeriodStep(ms, i);
      ghost var before := PeriodNames(ms[..i]);
      var displayName := ms[i].DisplayName();
      if ms[i].messageType != SYSTEM && displayName.Some? {
        BumpAllSnoc(map[], before, displayName.value);
        stats := Bump(stats, displayName.value);
        assert PeriodNames(ms[..i + 1]) == before + [displayName.value];
      } else {
        assert PeriodNames(ms[..i + 1]) == before;
      }
      i := i + 1;
    }
    assert ms[..|ms|] == ms;
  }

  /** The period hour count: one per non-system message. */
  method CountPeriodHours(ms: seq<MessageRow>) returns (stats: map<int, nat>)
    ensures stats == BumpAll(map[], PeriodHours(ms))
  {
    stats := map[];
    var i := 0;
    while i < |ms|
      invariant 0 <= i <= |ms|
      invariant stats == BumpAll(map[], PeriodHours(ms[..i]))
    {
      PeriodStep(ms, i);
      ghost var before := PeriodHours(ms[..i]);
      if ms[i].messageType != SYSTEM {
        BumpAllSnoc(map[], before, HourOf(ms[i].timestamp));
        stats := Bump(stats, HourOf(ms[i].timestamp));
        assert PeriodHours(ms[..i + 1]) == before + [HourOf(ms[i].timestamp)];
      } else {
        assert PeriodHours(ms[..i + 1]) == before;
      }
      i := i + 1;
    }
    assert ms[..|ms|] == ms;
  }

  /** The messages of the period views: the room's non-deleted messages, after the cutoff when `days` is given. */
  function PeriodMessages(history: seq<MessageRow>, roomId: int, days: Option<int>, now: int): seq<MessageRow>
  {
    Fetch(history, Query(roomId, false, Cutoff(days, now)))
  }

  /** Every period hour is counted once: the hourly period view sums to the number of non-system messages. */
  lemma {:induction false} PeriodHoursCountsUserMessages(ms: seq<MessageRow>)
    ensures Total(BumpAll(map[], PeriodHours(ms))) == |PeriodHours(ms)|
    ensures |PeriodHours(ms)| == |PeriodNames(ms)| + NamelessCount(ms)
  {
    TotalBumpAll(PeriodHours(ms));
    if ms != [] {
      PeriodHoursCountsUserMessages(ms[..|ms| - 1]);
    }
  }

  /** The non-system messages without a display name: counted by the hourly view but not by participation. */
  function NamelessCount(ms: seq<MessageRow>): nat
  {
    if ms == [] then 0
    else
      var last := ms[|ms| - 1];
      NamelessCount(ms[..|ms| - 1]) + (if last.messageType != SYSTEM && last.DisplayName().None? then 1 else 0)
  }

  datatype KeywordView = KeywordView(roomId: int, topKeywords: seq<Entry<string>>, totalKeywords: nat)
  datatype ParticipationView = ParticipationView(roomId: int, userParticipation: seq<Entry<string>>, totalUsers: nat)
  datatype HourlyView = HourlyView(roomId: int, hourlyActivity: seq<Entry<int>>)
  /** A period view adds the period's label and the number of messages the query returned. */
  datatype Period = Period(period: string, messageCount: nat)

  /** The histogram of a map keyed by hour: 24 entries, hour `h` at index `h`, zero for absent hours. */
  predicate IsHistogram(counts: map<int, nat>, distribution: seq<Entry<int>>)
  {
    |distribution| == 24 && forall h :: 0 <= h < 24 ==> distribution[h] == Entry(h, Get(counts, h))
  }

  /** `createHourlyDistribution`, and the loop of both hourly views. */
  method HourlyDistribution(counts: map<int, nat>) returns (distribution: seq<Entry<int>>)
    ensures IsHistogram(counts, distribution)
  {
    distribution := [];
    var hour := 0;
    while hour < 24
      invariant 0 <= hour <= 24
      invariant |distribution| == hour
      invariant forall h :: 0 <= h < hour ==> distribution[h] == Entry(h, Get(counts, h))
    {
      distribution := distribution + [Entry(hour, Get(counts, hour))];
      hour := hour + 1;
    }
  }

  class ChatAnalysisService {
    var roomKeywordStats: map<int, map<string, nat>>
    var roomUserMessageCount: map<int, map<string, nat>>
    var roomHourlyStats: map<int, map<int, nat>>
    /** Every result handed to the analysis-result repository, oldest first. */
    var savedResults: seq<AnalysisRow>
    const flow: ConversationFlow.FlowService

    ghost predicate Valid()
      reads this, flow
    {
      flow.Valid()
    }

    constructor(flow: ConversationFlow.FlowService)
      requires flow.Valid()
      ensures Valid() && this.flow == flow
      ensures roomKeywordStats == map[] && roomUserMessageCount == map[] && roomHourlyStats == map[]
      ensures savedResults == []
    {
      this.flow := flow;
      roomKeywordStats := map[];
      roomUserMessageCount := map[];
      roomHourlyStats := map[];
      savedResults := [];
    }

    /** `updateKeywordStats`: one increment per keyword occurrence. */
    method UpdateKeywordStats(roomId: int, keywords: seq<string>)
      modifies this
      ensures roomKeywordStats == Updated(old(roomKeywordStats), roomId, keywords)
      ensures roomUserMessageCount == old(roomUserMessageCount) && roomHourlyStats == old(roomHourlyStats)
      ensures savedResults == old(savedResults)
    {
      var stats := BumpEach(RoomStats(roomKeywordStats, roomId), keywords);
      roomKeywordStats := roomKeywordStats[roomId := stats];
    }

    /** `updateUserParticipation`. */
    method UpdateUserParticipation(roomId: int, name: string)
      modifies this
      ensures roomUserMessageCount == Updated(old(roomUserMessageCount), roomId, [name])
      ensures roomKeywordStats == old(roomKeywordStats) && roomHourlyStats == old(roomHourlyStats)
      ensures savedResults == old(savedResults)
    {
      var stats := RoomStats(roomUserMessageCount, roomId);
      assert BumpAll(stats, [name]) == Bump(stats, name) by {
        assert [name][..0] == [];
      }
      roomUserMessageCount := roomUserMessageCount[roomId := Bump(stats, name)];
    }

    /** `updateHourlyStats`: the hour of the message's timestamp. */
    method UpdateHourlyStats(roomId: int, timestamp: int)
      modifies this
      ensures roomHourlyStats == Updated(old(roomHourlyStats), roomId, [HourOf(timestamp)])
      ensures roomKeywordStats == old(roomKeywordStats) && roomUserMessageCount == old(roomUserMessageCount)
      ensures savedResults == old(savedResults)
    {
      var stats := RoomStats(roomHourlyStats, roomId);
      var hour := HourOf(timestamp);
      assert BumpAll(stats, [hour]) == Bump(stats, hour) by {
        assert [hour][..0] == [];
      }
      roomHourlyStats := roomHourlyStats[roomId := Bump(stats, hour)];
    }

    /** The three updates every analysed message makes, in the handler's order. */
    method ApplyUpdates(roomId: int, keywords: seq<string>, name: string, timestamp: int)
      modifies this
      ensures roomKeywordStats == Updated(old(roomKeywordStats), roomId, keywords)
      ensures roomUserMessageCount == Updated(old(roomUserMessageCount), roomId, [name])
      ensures roomHourlyStats == Updated(old(roomHourlyStats), roomId, [HourOf(timestamp)])
      ensures savedResults == old(savedResults)
    {
      UpdateKeywordStats(roomId, keywords);
      UpdateUserParticipation(roomId, name);
      UpdateHourlyStats(roomId, timestamp);
    }

    /** `saveAdvancedAnalysisResult`: a topic result for the last minute, only when there were keywords. */
    method SaveAdvanced(roomId: int, keywords: seq<string>, topic: string, emotion: string, messageId: int, now: int)
      modifies this
      ensures savedResults == old(savedResults) +
        (if keywords == [] then [] else [CreateTopicAnalysis(roomId, AdvancedJson(keywords, topic, emotion, messageId), now - 60, now)])
      ensures roomKeywordStats == old(roomKeywordStats) && roomUserMessageCount == old(roomUserMessageCount)
      ensures roomHourlyStats == old(roomHourlyStats)
    {
      if keywords != [] {
        savedResults := savedResults + [CreateTopicAnalysis(roomId, AdvancedJson(keywords, topic, emotion, messageId), now - 60, now)];
      }
    }

    /**
     * `performFallbackAnalysis`: the rule-based keywords, the three updates,
     * the dictionary topic and emotion, the conversation flow, and a stored
     * result when there were keywords.  Returns the topic and emotion it chose.
     */
    method PerformFallbackAnalysis(roomId: int, message: MessageRow, username: string, now: int)
      returns (topic: string, emotion: string)
      requires Valid()
      modifies this, flow
      ensures Valid()
      ensures roomKeywordStats == Updated(old(roomKeywordStats), roomId, KeywordExtraction.Keywords(Some(message.content)))
      ensures roomUserMessageCount == Updated(old(roomUserMessageCount), roomId, [message.name.GetOr(username)])
      ensures roomHourlyStats == Updated(old(roomHourlyStats), roomId, [HourOf(message.timestamp)])
      ensures flow.roomConversations == old(flow.roomConversations)[roomId :=
                ConversationFlow.Place(old(flow.SessionsOf(roomId)), ConversationFlow.Posted(message.timestamp, username))]
      ensures TopicClassification.Classified(Some(message.content), TopicClassification.TopicKeywords, TopicClassification.OtherTopic, topic)
      ensures TopicClassification.Classified(Some(message.content), TopicClassification.EmotionKeywords, TopicClassification.NeutralEmotion, emotion)
      ensures var keywords := KeywordExtraction.Keywords(Some(message.content));
        savedResults == old(savedResults) +
          (if keywords == [] then [] else [CreateTopicAnalysis(roomId, AdvancedJson(keywords, topic, emotion, message.id), now - 60, now)])
    {
      var keywords := KeywordExtraction.ExtractKeywords(Some(message.content));
      ApplyUpdates(roomId, keywords, message.name.GetOr(username), message.timestamp);
      ghost var k1, u1, h1 := roomKeywordStats, roomUserMessageCount, roomHourlyStats;
      topic, emotion := TopicClassification.AnalyzeMessage(Some(message.content));
      flow.AnalyzeConversationFlow(roomId, message.timestamp, username);
      assert roomKeywordStats == k1 && roomUserMessageCount == u1 && roomHourlyStats == h1;
      SaveAdvanced(roomId, keywords, topic, emotion, message.id, now);
    }

    /** `saveLlmAnalysisResult`, called only for a non-empty keyword list. */
    method SaveLlm(roomId: int, keywords: seq<string>, topic: string, emotion: string, messageId: int, answerJson: string, now: int)
      modifies this
      ensures savedResults == old(savedResults) +
        (if keywords == [] then [] else [CreateTopicAnalysis(roomId, LlmJson(keywords, topic, emotion, messageId, answerJson), now - 60, now)])
      ensures roomKeywordStats == old(roomKeywordStats) && roomUserMessageCount == old(roomUserMessageCount)
      ensures roomHourlyStats == old(roomHourlyStats)
    {
      if keywords != [] {
        savedResults := savedResults + [CreateTopicAnalysis(roomId, LlmJson(keywords, topic, emotion, messageId, answerJson), now - 60, now)];
      }
    }

    /**
     * `analyzeMessage` once the analyser's answer `call` is in: system
     * messages are ignored; otherwise the answer's keywords, the name and
     * the hour are counted, the flow records the message and a result is
     * stored.  When reading the answer throws, the fallback runs, after the
     * updates already made.  `notify` says the notifier is told (both paths
     * end with `onMessageReceived`); `answerJson` is the answer map as Jackson writes it.
     */
    method AnalyzeMessage(e: MessageReceived, call: LlmAnalysis.LlmCall, answerJson: string, now: int) returns (notify: bool)
      requires Valid()
      modifies this, flow
      ensures Valid()
      ensures notify <==> e.message.messageType != SYSTEM
      ensures !notify ==> unchanged(this) && unchanged(flow)
      ensures notify ==>
        var a := LlmAnalysis.AnalyzeMessage(Some(e.message.content), call);
        && roomKeywordStats == Updated(old(roomKeywordStats), e.roomId, HandledKeywords(a, e.message.content))
        && roomUserMessageCount == Updated(old(roomUserMessageCount), e.roomId, Repeat(Counted(e), Passes(a)))
        && roomHourlyStats == Updated(old(roomHourlyStats), e.roomId, Repeat(HourOf(e.message.timestamp), Passes(a)))
        && flow.roomConversations == old(flow.roomConversations)[e.roomId :=
             ConversationFlow.Place(old(flow.SessionsOf(e.roomId)), ConversationFlow.Posted(e.message.timestamp, e.username))]
        && (FailsBeforeUpdates(a) || FailsAfterUpdates(a) ==> FallbackSaved(old(savedResults), savedResults, e.roomId, e.message, now))
        && (!FailsBeforeUpdates(a) && !FailsAfterUpdates(a) ==>
              savedResults == old(savedResults) +
                (if AnswerKeywords(a) == [] then []
                 else [CreateTopicAnalysis(e.roomId, LlmJson(AnswerKeywords(a), AnswerTopic(a), AnswerEmotion(a), e.message.id, answerJson), now - 60, now)]))
    {
      if e.message.messageType == SYSTEM {
        return false;
      }
      notify := true;
      var a := LlmAnalysis.AnalyzeMessage(Some(e.message.content), call);
      if FailsBeforeUpdates(a) {
        HandleFallback(e, now);
        RepeatOnce(Counted(e));
        RepeatOnce(HourOf(e.message.timestamp));
      } else if FailsAfterUpdates(a) {
        HandleLateFailure(e, a, now);
      } else {
        HandleAnswer(e, a, answerJson, now);
      }
    }

    /** The answer is read without failure: its keywords, one count each for the name and hour, the flow and the stored result. */
    method HandleAnswer(e: MessageReceived, a: LlmAnalysis.Analysis, answerJson: string, now: int)
      requires Valid()
      modifies this, flow
      ensures Valid()
      ensures roomKeywordStats == Updated(old(roomKeywordStats), e.roomId, AnswerKeywords(a))
      ensures roomUserMessageCount == Updated(old(roomUserMessageCount), e.roomId, Repeat(Counted(e), 1))
      ensures roomHourlyStats == Updated(old(roomHourlyStats), e.roomId, Repeat(HourOf(e.message.timestamp), 1))
      ensures flow.roomConversations == old(flow.roomConversations)[e.roomId :=
                ConversationFlow.Place(old(flow.SessionsOf(e.roomId)), ConversationFlow.Posted(e.message.timestamp, e.username))]
      ensures savedResults == old(savedResults) +
                (if AnswerKeywords(a) == [] then []
                 else [CreateTopicAnalysis(e.roomId, LlmJson(AnswerKeywords(a), AnswerTopic(a), AnswerEmotion(a), e.message.id, answerJson), now - 60, now)])
    {
      ApplyUpdates(e.roomId, AnswerKeywords(a), Counted(e), e.message.timestamp);
      ghost var k1, u1, h1 := roomKeywordStats, roomUserMessageCount, roomHourlyStats;
      flow.AnalyzeConversationFlow(e.roomId, e.message.timestamp, e.username);
      assert roomKeywordStats == k1 && roomUserMessageCount == u1 && roomHourlyStats == h1;
      SaveLlm(e.roomId, AnswerKeywords(a), AnswerTopic(a), AnswerEmotion(a), e.message.id, answerJson, now);
      RepeatOnce(Counted(e));
      RepeatOnce(HourOf(e.message.timestamp));
    }

    /** The topic or emotion cast throws after the updates: the fallback then counts the name and hour a second time. */
    method HandleLateFailure(e: MessageReceived, a: LlmAnalysis.Analysis, now: int)
      requires Valid()
      modifies this, flow
      ensures Valid()
      ensures roomKeywordStats == Updated(old(roomKeywordStats), e.roomId, AnswerKeywords(a) + KeywordExtraction.Keywords(Some(e.message.content)))
      ensures roomUserMessageCount == Updated(old(roomUserMessageCount), e.roomId, Repeat(Counted(e), 2))
      ensures roomHourlyStats == Updated(old(roomHourlyStats), e.roomId, Repeat(HourOf(e.message.timestamp), 2))
      ensures flow.roomConversations == old(flow.roomConversations)[e.roomId :=
                ConversationFlow.Place(old(flow.SessionsOf(e.roomId)), ConversationFlow.Posted(e.message.timestamp, e.username))]
      ensures FallbackSaved(old(savedResults), savedResults, e.roomId, e.message, now)
    {
      ghost var k0, u0, h0 := roomKeywordStats, roomUserMessageCount, roomHourlyStats;
      var name, hour := Counted(e), HourOf(e.message.timestamp);
      ApplyUpdates(e.roomId, AnswerKeywords(a), name, e.message.timestamp);
      HandleFallback(e, now);
      UpdatedTwice(k0, e.roomId, AnswerKeywords(a), KeywordExtraction.Keywords(Some(e.message.content)));
      UpdatedTwice(u0, e.roomId, [name], [name]);
      UpdatedTwice(h0, e.roomId, [hour], [hour]);
      RepeatTwice(name);
      RepeatTwice(hour);
    }

    /** The fallback as the handler runs it: only the stored result's topic and emotion are left open. */
    method HandleFallback(e: MessageReceived, now: int)
      requires Valid()
      modifies this, flow
      ensures Valid()
      ensures roomKeywordStats == Updated(old(roomKeywordStats), e.roomId, KeywordExtraction.Keywords(Some(e.message.content)))
      ensures roomUserMessageCount == Updated(old(roomUserMessageCount), e.roomId, [Counted(e)])
      ensures roomHourlyStats == Updated(old(roomHourlyStats), e.roomId, [HourOf(e.message.timestamp)])
      ensures flow.roomConversations == old(flow.roomConversations)[e.roomId :=
                ConversationFlow.Place(old(flow.SessionsOf(e.roomId)), ConversationFlow.Posted(e.message.timestamp, e.username))]
      ensures FallbackSaved(old(savedResults), savedResults, e.roomId, e.message, now)
    {
      var topic, emotion := PerformFallbackAnalysis(e.roomId, e.message, e.username, now);
    }

    /** `getRoomKeywordStats`: the ten most frequent keywords of the room and the number of distinct keywords. */
    method GetRoomKeywordStats(roomId: int) returns (view: KeywordView)
      ensures view.roomId == roomId
      ensures IsTop(RoomStats(roomKeywordStats, roomId), TopKeywordLimit, view.topKeywords)
      ensures view.totalKeywords == |RoomStats(roomKeywordStats, roomId)|
      ensures roomId !in roomKeywordStats ==> view.topKeywords == [] && view.totalKeywords == 0
    {
      var stats := RoomStats(roomKeywordStats, roomId);
      var top := TopEntries(stats, TopKeywordLimit);
      view := KeywordView(roomId, top, |stats|);
    }

    /** `getRoomUserParticipation`: every counted name, most active first. */
    method GetRoomUserParticipation(roomId: int) returns (view: ParticipationView)
      ensures view.roomId == roomId
      ensures var stats := RoomStats(roomUserMessageCount, roomId);
        IsTop(stats, |stats|, view.userParticipation) && view.totalUsers == |stats|
    {
      var stats := RoomStats(roomUserMessageCount, roomId);
      var all := TopEntries(stats, |stats|);
      view := ParticipationView(roomId, all, |stats|);
    }

    /** `getRoomHourlyStats`: the zero-filled 24-hour histogram of the room. */
    method GetRoomHourlyStats(roomId: int) returns (view: HourlyView)
      ensures view.roomId == roomId
      ensures IsHistogram(RoomStats(roomHourlyStats, roomId), view.hourlyActivity)
    {
      var activity := HourlyDistribution(RoomStats(roomHourlyStats, roomId));
      view := HourlyView(roomId, activity);
    }

    /** `getRoomKeywordStatsByPeriod`: the keyword view over all candidates of the period's TEXT messages. */
    method GetRoomKeywordStatsByPeriod(roomId: int, days: Option<int>, history: seq<MessageRow>, now: int)
      returns (view: KeywordView, period: Period)
      ensures var ms := PeriodMessages(history, roomId, days, now);
        var stats := BumpAll(map[], PeriodCandidates(ms));
        && view.roomId == roomId
        && IsTop(stats, TopKeywordLimit, view.topKeywords)
        && view.totalKeywords == |stats|
        && period == Period(PeriodLabel(days), |ms|)
    {
      var ms := PeriodMessages(history, roomId, days, now);
      var stats := CountPeriodKeywords(ms);
      var top := TopEntries(stats, TopKeywordLimit);
      view := KeywordView(roomId, top, |stats|);
      period := Period(PeriodLabel(days), |ms|);
    }

    /** `getRoomUserParticipationByPeriod`. */
    method GetRoomUserParticipationByPeriod(roomId: int, days: Option<int>, history: seq<MessageRow>, now: int)
      returns (view: ParticipationView, period: Period)
      ensures var ms := PeriodMessages(history, roomId, days, now);
        var stats := BumpAll(map[], PeriodNames(ms));
        && view.roomId == roomId
        && IsTop(stats, |stats|, view.userParticipation)
        && view.totalUsers == |stats|
        && period == Period(PeriodLabel(days), |ms|)
    {
      var ms := PeriodMessages(history, roomId, days, now);
      var stats := CountPeriodNames(ms);
      var all := TopEntries(stats, |stats|);
      view := ParticipationView(roomId, all, |stats|);
      period := Period(PeriodLabel(days), |ms|);
    }

    /** `getRoomHourlyStatsByPeriod`. */
    method GetRoomHourlyStatsByPeriod(roomId: int, days: Option<int>, history: seq<MessageRow>, now: int)
      returns (view: HourlyView, period: Period)
      ensures var ms := PeriodMessages(history, roomId, days, now);
        && view.roomId == roomId
        && IsHistogram(BumpAll(map[], PeriodHours(ms)), view.hourlyActivity)
        && period == Period(PeriodLabel(days), |ms|)
    {
      var ms := PeriodMessages(history, roomId, days, now);
      var stats := CountPeriodHours(ms);
      var activity := HourlyDistribution(stats);
      view := HourlyView(roomId, activity);
      period := Period(PeriodLabel(days), |ms|);
    }

    /** `clearRoomAnalysis`: the room leaves the three maps and the conversation flow. */
    method ClearRoomAnalysis(roomId: int)
      requires Valid()
      modifies this, flow
      ensures Valid()
      ensures roomKeywordStats == old(roomKeywordStats) - {roomId}
      ensures roomUserMessageCount == old(roomUserMessageCount) - {roomId}
      ensures roomHourlyStats == old(roomHourlyStats) - {roomId}
      ensures flow.roomConversations == old(flow.roomConversations) - {roomId}
      ensures savedResults == old(savedResults)
    {
      roomKeywordStats := roomKeywordStats - {roomId};
      roomUserMessageCount := roomUserMessageCount - {roomId};
      roomHourlyStats := roomHourlyStats - {roomId};
      flow.ClearConversationData(roomId);
    }

    /**
     * `rebuildRoomAnalysis(roomId, days)`: the room's maps are removed and
     * the fetched TEXT messages replayed.  The keyword map comes back as
     * soon as one message was replayed; the name and hour maps only when a
     * replayed message had a display name.
     */
    method RebuildRoomAnalysis(roomId: int, days: Option<int>, history: seq<MessageRow>, now: int)
      modifies this
      ensures var ms := Replayed(history, roomId, days, now);
        RebuiltUpTo(roomKeywordStats, roomUserMessageCount, roomHourlyStats,
                    old(roomKeywordStats), old(roomUserMessageCount), old(roomHourlyStats), roomId, ms)
      ensures savedResults == old(savedResults)
    {
      ghost var k0, n0, h0 := roomKeywordStats, roomUserMessageCount, roomHourlyStats;
      var ms := Replayed(history, roomId, days, now);
      roomKeywordStats := roomKeywordStats - {roomId};
      roomUserMessageCount := roomUserMessageCount - {roomId};
      roomHourlyStats := roomHourlyStats - {roomId};
      RebuildStart(k0, n0, h0, roomId);
      ReplayAll(roomId, ms, k0, n0, h0);
    }

    /** The replay loop over the fetched messages, in order. */
    method ReplayAll(roomId: int, ms: seq<MessageRow>,
                     ghost k0: map<int, map<string, nat>>, ghost n0: map<int, map<string, nat>>, ghost h0: map<int, map<int, nat>>)
      requires RebuiltUpTo(roomKeywordStats, roomUserMessageCount, roomHourlyStats, k0, n0, h0, roomId, [])
      modifies this
      ensures RebuiltUpTo(roomKeywordStats, roomUserMessageCount, roomHourlyStats, k0, n0, h0, roomId, ms)
      ensures savedResults == old(savedResults)
    {
      var i := 0;
      while i < |ms|
        invariant 0 <= i <= |ms|
        invariant RebuiltUpTo(roomKeywordStats, roomUserMessageCount, roomHourlyStats, k0, n0, h0, roomId, ms[..i])
        invariant savedResults == old(savedResults)
      {
        SliceSnoc(ms, i);
        ReplayOne(roomId, ms[i], k0, n0, h0, ms[..i]);
        i := i + 1;
      }
      SliceWhole(ms);
    }

    /** One turn of the replay loop: the message's keywords, and its sender and hour when it has a display name. */
    method ReplayOne(roomId: int, message: MessageRow,
                     ghost k0: map<int, map<string, nat>>, ghost n0: map<int, map<string, nat>>, ghost h0: map<int, map<int, nat>>,
                     ghost done: seq<MessageRow>)
      requires RebuiltUpTo(roomKeywordStats, roomUserMessageCount, roomHourlyStats, k0, n0, h0, roomId, done)
      modifies this
      ensures RebuiltUpTo(roomKeywordStats, roomUserMessageCount, roomHourlyStats, k0, n0, h0, roomId, done + [message])
      ensures savedResults == old(savedResults)
    {
      RebuildStep(roomKeywordStats, roomUserMessageCount, roomHourlyStats, k0, n0, h0, roomId, done, message);
      var keywords := KeywordExtraction.ExtractKeywords(Some(message.content));
      UpdateKeywordStats(roomId, keywords);
      var displayName := message.DisplayName();
      if displayName.Some? {
        UpdateUserParticipation(roomId, displayName.value);
        UpdateHourlyStats(roomId, message.timestamp);
      }
    }

    /** `rebuildAllRoomAnalysis`: every room with a stored message is rebuilt over its whole history. */
    method RebuildAllRoomAnalysis(history: seq<MessageRow>, now: int)
      modifies this
      ensures roomKeywordStats == RebuiltKeywords(old(roomKeywordStats), RoomIds(history), history, now)
      ensures roomUserMessageCount == RebuiltNames(old(roomUserMessageCount), RoomIds(history), history, now)
      ensures roomHourlyStats == RebuiltHours(old(roomHourlyStats), RoomIds(history), history, now)
      ensures savedResults == old(savedResults)
    {
      var rooms := RoomIds(history);
      var i := 0;
      while i < |rooms|
        invariant 0 <= i <= |rooms|
        invariant roomKeywordStats == RebuiltKeywords(old(roomKeywordStats), rooms[..i], history, now)
        invariant roomUserMessageCount == RebuiltNames(old(roomUserMessageCount), rooms[..i], history, now)
        invariant roomHourlyStats == RebuiltHours(old(roomHourlyStats), rooms[..i], history, now)
        invariant savedResults == old(savedResults)
      {
        RebuiltKeywordsStep(old(roomKeywordStats), rooms, i, history, now);
        RebuiltNamesStep(old(roomUserMessageCount), rooms, i, history, now);
        RebuiltHoursStep(old(roomHourlyStats), rooms, i, history, now);
        RebuildRoomAnalysis(rooms[i], None, history, now);
        i := i + 1;
      }
      assert rooms[..|rooms|] == rooms;
    }
  }
}
