/**
 * `AnalysisNotificationService`: the push debouncer.  Each room keeps the
 * time of its last push and the number of analysed messages since; a
 * message triggers a push when the room was never pushed, when more than
 * ten seconds have passed, or when ten messages have piled up.  A push
 * rebuilds the room's statistics from the stored history and sends the
 * keyword, participation and hourly updates to the room's analysis topic,
 * which is modelled as an outbox the service appends to.
 */
module AnalysisNotification {
  import opened Wrappers
  import opened Text
  import opened Tally
  import opened Ranking
  import opened Messages
  import opened ChatAnalysis

  const MessageThreshold: nat := 10
  const TimeThresholdSeconds: int := 10

  /** The room's tracker: the time of the last push, if any, and the messages counted since. */
  datatype Tracker = Tracker(last: Option<int>, pending: nat)

  /** `shouldSendUpdate` on a room's tracker at time `now`. */
  predicate Due(t: Tracker, now: int)
  {
    t.last.None? || now - TimeThresholdSeconds > t.last.value || t.pending >= MessageThreshold
  }

  /** The tracker after one more message, and whether that message caused a push. */
  datatype Received = Received(tracker: Tracker, pushed: bool)

  /** `onMessageReceived` on one room's tracker: count the message, then push and reset when due. */
  function Receive(t: Tracker, now: int): Received
  {
    var counted := t.(pending := t.pending + 1);
    if Due(counted, now) then Received(Tracker(Some(now), 0), true) else Received(counted, false)
  }

  /** The tracker after messages at the times `times`, and which of them caused a push. */
  datatype Run = Run(tracker: Tracker, pushes: seq<bool>)

  function RunFrom(t: Tracker, times: seq<int>): (r: Run)
    ensures |r.pushes| == |times|
    decreases |times|
  {
    if times == [] then Run(t, [])
    else
      var step := Receive(t, times[0]);
      var rest := RunFrom(step.tracker, times[1..]);
      Run(rest.tracker, [step.pushed] + rest.pushes)
  }

  /** A tracker holding `k` pending messages pushes within the next `10 - k` messages, whatever their times. */
  lemma {:induction false} PushWithin(t: Tracker, times: seq<int>)
    requires t.pending < MessageThreshold
    requires MessageThreshold - t.pending <= |times|
    ensures exists j :: 0 <= j < MessageThreshold - t.pending && RunFrom(t, times).pushes[j]
    decreases |times|
  {
    var step := Receive(t, times[0]);
    var rest := RunFrom(step.tracker, times[1..]);
    assert RunFrom(t, times).pushes == [step.pushed] + rest.pushes;
    if step.pushed {
      assert RunFrom(t, times).pushes[0];
    } else {
      assert step.tracker.pending == t.pending + 1 < MessageThreshold;
      PushWithin(step.tracker, times[1..]);
      var j :| 0 <= j < MessageThreshold - step.tracker.pending && rest.pushes[j];
      assert RunFrom(t, times).pushes[j + 1];
    }
  }

  /**
   * However the messages are spaced in time, no ten messages in a row are
   * all quiet: starting from a tracker below the threshold, every window
   * of ten consecutive messages holds a push.
   */
  lemma {:induction false} NoTenQuietInARow(t: Tracker, times: seq<int>, i: nat)
    requires t.pending < MessageThreshold
    requires i + MessageThreshold <= |times|
    ensures exists j :: i <= j < i + MessageThreshold && RunFrom(t, times).pushes[j]
    decreases i
  {
    if i == 0 {
      PushWithin(t, times);
    } else {
      var step := Receive(t, times[0]);
      var rest := RunFrom(step.tracker, times[1..]);
      assert RunFrom(t, times).pushes == [step.pushed] + rest.pushes;
      assert step.tracker.pending < MessageThreshold;
      NoTenQuietInARow(step.tracker, times[1..], i - 1);
      var j :| i - 1 <= j < i - 1 + MessageThreshold && rest.pushes[j];
      assert RunFrom(t, times).pushes[j + 1];
    }
  }

  /**
   * Inside the window of a push at `t0`, a tracker that has counted `k`
   * messages pushes on exactly the message that brings it to ten: the
   * first `9 - k` messages stay quiet and the next one pushes.
   */
  lemma {:induction false} QuietUntilTenth(t0: int, k: nat, times: seq<int>)
    requires k < MessageThreshold && k + |times| == MessageThreshold
    requires forall i :: 0 <= i < |times| ==> times[i] <= t0 + TimeThresholdSeconds
    ensures RunFrom(Tracker(Some(t0), k), times).pushes == Repeat(false, |times| - 1) + [true]
    ensures RunFrom(Tracker(Some(t0), k), times).tracker == Tracker(Some(times[|times| - 1]), 0)
    decreases |times|
  {
    var t := Tracker(Some(t0), k);
    if |times| == 1 {
      assert RunFrom(t, times).pushes == [Receive(t, times[0]).pushed];
    } else {
      assert !Receive(t, times[0]).pushed;
      QuietUntilTenth(t0, k + 1, times[1..]);
      assert Repeat(false, |times| - 1) == [false] + Repeat(false, |times| - 2);
    }
  }

  /** From a reset inside the ten-second window, messages one to nine cause no push and the tenth causes one. */
  lemma TenthMessagePushes(t0: int, times: seq<int>)
    requires |times| == MessageThreshold
    requires forall i :: 0 <= i < |times| ==> times[i] <= t0 + TimeThresholdSeconds
    ensures forall i :: 0 <= i < 9 ==> !RunFrom(Tracker(Some(t0), 0), times).pushes[i]
    ensures RunFrom(Tracker(Some(t0), 0), times).pushes[9]
  {
    QuietUntilTenth(t0, 0, times);
  }

  /** A tracker between messages never holds ten: the tenth message always pushes. */
  lemma {:induction false} PendingStaysBelowThreshold(t: Tracker, times: seq<int>)
    requires t.pending < MessageThreshold
    ensures RunFrom(t, times).tracker.pending < MessageThreshold
    decreases |times|
  {
    if times != [] {
      PendingStaysBelowThreshold(Receive(t, times[0]).tracker, times[1..]);
    }
  }

  /** The updates a push sends, as `AnalysisData` carries them. */
  datatype AnalysisUpdate =
    | KeywordUpdate(roomId: int, labels: seq<string>, data: seq<int>, topKeywords: seq<Entry<string>>, totalKeywords: nat)
    | ParticipationUpdate(roomId: int, labels: seq<string>, data: seq<int>, userParticipation: seq<Entry<string>>, totalUsers: nat)
    | HourlyUpdate(roomId: int, labels: seq<string>, data: seq<int>, hourlyActivity: seq<Entry<int>>)

  /** One `convertAndSend` to a destination. */
  datatype Sent = Sent(destination: string, update: AnalysisUpdate)

  /** `"/topic/analysis/" + roomId`. */
  function Destination(roomId: int): string
  {
    "/topic/analysis/" + IntToString(roomId)
  }

  /** The chart labels of the hourly update: `hour + "시"`. */
  function HourLabels(activity: seq<Entry<int>>): (labels: seq<string>)
    ensures |labels| == |activity|
    ensures forall i :: 0 <= i < |activity| ==> labels[i] == IntToString(activity[i].key) + "시"
  {
    if activity == [] then [] else [IntToString(activity[0].key) + "시"] + HourLabels(activity[1..])
  }

  /** A keyword update for the room's keyword map `k`. */
  predicate KeywordSent(x: Sent, roomId: int, k: map<string, nat>)
  {
    && x.destination == Destination(roomId)
    && x.update.KeywordUpdate?
    && x.update.roomId == roomId
    && IsTop(k, TopKeywordLimit, x.update.topKeywords)
    && x.update.labels == Keys(x.update.topKeywords)
    && x.update.data == Counts(x.update.topKeywords)
    && x.update.totalKeywords == |k|
  }

  /** A participation update for the room's participation map `n`. */
  predicate ParticipationSent(x: Sent, roomId: int, n: map<string, nat>)
  {
    && x.destination == Destination(roomId)
    && x.update.ParticipationUpdate?
    && x.update.roomId == roomId
    && IsTop(n, |n|, x.update.userParticipation)
    && x.update.labels == Keys(x.update.userParticipation)
    && x.update.data == Counts(x.update.userParticipation)
    && x.update.totalUsers == |n|
  }

  /** An hourly update for the room's hour map `h`. */
  predicate HourlySent(x: Sent, roomId: int, h: map<int, nat>)
  {
    && x.destination == Destination(roomId)
    && x.update.HourlyUpdate?
    && x.update.roomId == roomId
    && IsHistogram(h, x.update.hourlyActivity)
    && x.update.labels == HourLabels(x.update.hourlyActivity)
    && x.update.data == Counts(x.update.hourlyActivity)
  }

  /**
   * What one full update sends, in order: the keyword update unless the
   * keyword map is empty, the participation update unless nobody was
   * counted, and always the hourly update.
   */
  predicate FullUpdateSent(sent: seq<Sent>, roomId: int, k: map<string, nat>, n: map<string, nat>, h: map<int, nat>)
  {
    var kn := if k == map[] then 0 else 1;
    var pn := if n == map[] then 0 else 1;
    && |sent| == kn + pn + 1
    && KeywordPart(sent[..kn], roomId, k)
    && ParticipationPart(sent[kn..kn + pn], roomId, n)
    && HourlySent(sent[kn + pn], roomId, h)
  }

  /** The keyword step of a full update: one keyword update, or nothing for an empty map. */
  predicate KeywordPart(part: seq<Sent>, roomId: int, k: map<string, nat>)
  {
    (k == map[] ==> part == []) && (k != map[] ==> |part| == 1 && KeywordSent(part[0], roomId, k))
  }

  /** The participation step of a full update: one participation update, or nothing for an empty map. */
  predicate ParticipationPart(part: seq<Sent>, roomId: int, n: map<string, nat>)
  {
    (n == map[] ==> part == []) && (n != map[] ==> |part| == 1 && ParticipationSent(part[0], roomId, n))
  }

  /** Three appends in a row add their concatenation. */
  lemma AppendThree<T>(o: seq<T>, a: seq<T>, b: seq<T>, c: seq<T>)
    ensures var r := o + a + b + c; |o| <= |r| && r[..|o|] == o && r[|o|..] == a + b + c
  {
    var r := o + a + b + c;
    assert r == o + (a + b + c);
  }

  /** A prefix of a prefix is a prefix. */
  lemma PrefixOfPrefix<T>(a: seq<T>, b: seq<T>, c: seq<T>)
    requires |a| <= |b| <= |c| && b[..|a|] == a && c[..|b|] == b
    ensures c[..|a|] == a
  {
    assert c[..|a|] == c[..|b|][..|a|];
  }

  /** What follows a prefix of a prefix is what followed it before, then what was added. */
  lemma SplitAfterPrefix<T>(a: seq<T>, b: seq<T>, c: seq<T>)
    requires |a| <= |b| <= |c| && b[..|a|] == a && c[..|b|] == b
    ensures c[|a|..] == b[|a|..] + c[|b|..]
  {
  }

  /** The three sends of a full update, taken one after the other, make a full update. */
  lemma FullUpdateParts(a: seq<Sent>, b: seq<Sent>, c: seq<Sent>, roomId: int, k: map<string, nat>, n: map<string, nat>, h: map<int, nat>)
    requires KeywordPart(a, roomId, k)
    requires ParticipationPart(b, roomId, n)
    requires |c| == 1 && HourlySent(c[0], roomId, h)
    ensures FullUpdateSent(a + b + c, roomId, k, n, h)
  {
    var s := a + b + c;
    assert s[..|a|] == a && s[|a|..|a| + |b|] == b && s[|a| + |b|] == c[0];
  }

  /**
   * Where the scheduled sweep stands: `pushed` lists, without repeats, the
   * rooms with pending messages already handled, `rest` those still to do,
   * and the handled rooms have a zero count and `now` as their last push.
   */
  ghost predicate Swept(counts0: map<int, nat>, times0: map<int, int>, counts: map<int, nat>, times: map<int, int>,
                        pushed: seq<int>, rest: set<int>, now: int)
  {
    && (forall r :: r in rest ==> r in counts0 && counts0[r] > 0)
    && (forall r :: r in pushed <==> r in counts0 && counts0[r] > 0 && r !in rest)
    && (forall i, j :: 0 <= i < j < |pushed| ==> pushed[i] != pushed[j])
    && counts.Keys == counts0.Keys
    && (forall r :: r in counts0 ==> counts[r] == (if r in pushed then 0 else counts0[r]))
    && (forall r :: r in times <==> r in times0 || r in pushed)
    && (forall r :: r in pushed ==> times[r] == now)
    && (forall r :: r in times0 && r !in pushed ==> times[r] == times0[r])
  }

  lemma SweptStep(counts0: map<int, nat>, times0: map<int, int>, counts: map<int, nat>, times: map<int, int>,
                  pushed: seq<int>, rest: set<int>, now: int, r: int)
    requires Swept(counts0, times0, counts, times, pushed, rest, now)
    requires r in rest
    ensures Swept(counts0, times0, counts[r := 0], times[r := now], pushed + [r], rest - {r}, now)
  {
    forall i, j | 0 <= i < j < |pushed + [r]|
      ensures (pushed + [r])[i] != (pushed + [r])[j]
    {
      if j == |pushed| {
        assert (pushed + [r])[i] == pushed[i];
      } else {
        assert (pushed + [r])[i] == pushed[i] && (pushed + [r])[j] == pushed[j];
      }
    }
  }

  /** One more pushed room extends the rebuild fold by that room's reset. */
  lemma RebuiltSnoc(k0: map<int, map<string, nat>>, n0: map<int, map<string, nat>>, h0: map<int, map<int, nat>>,
                    k1: map<int, map<string, nat>>, n1: map<int, map<string, nat>>, h1: map<int, map<int, nat>>,
                    k2: map<int, map<string, nat>>, n2: map<int, map<string, nat>>, h2: map<int, map<int, nat>>,
                    pushed: seq<int>, r: int, history: seq<MessageRow>, now: int)
    requires k1 == RebuiltKeywords(k0, pushed, history, now)
    requires n1 == RebuiltNames(n0, pushed, history, now)
    requires h1 == RebuiltHours(h0, pushed, history, now)
    requires var ms := Replayed(history, r, None, now);
      && k2 == Reset(k1, r, ms != [], ReplayKeywords(ms))
      && n2 == Reset(n1, r, ReplayNames(ms) != [], ReplayNames(ms))
      && h2 == Reset(h1, r, ReplayNames(ms) != [], ReplayHours(ms))
    ensures k2 == RebuiltKeywords(k0, pushed + [r], history, now)
    ensures n2 == RebuiltNames(n0, pushed + [r], history, now)
    ensures h2 == RebuiltHours(h0, pushed + [r], history, now)
  {
    var next := pushed + [r];
    RebuiltKeywordsStep(k0, next, |pushed|, history, now);
    RebuiltNamesStep(n0, next, |pushed|, history, now);
    RebuiltHoursStep(h0, next, |pushed|, history, now);
    assert next[..|pushed|] == pushed;
    assert next[..|pushed| + 1] == next;
  }

  lemma SweptDone(counts0: map<int, nat>, times0: map<int, int>, counts: map<int, nat>, times: map<int, int>,
                  pushed: seq<int>, now: int)
    requires Swept(counts0, times0, counts, times, pushed, {}, now)
    ensures counts == map r | r in counts0 :: 0
  {
    forall r | r in counts0
      ensures counts[r] == 0
    {
      if r !in pushed {
        assert counts0[r] == 0;
      }
    }
  }

  /** The keyword map a push leaves for room `r`: the counts of its replayed keywords. */
  function PushedKeywords(history: seq<MessageRow>, r: int, now: int): map<string, nat>
  {
    BumpAll(map[], ReplayKeywords(Replayed(history, r, None, now)))
  }

  /** The participation map a push leaves for room `r`. */
  function PushedNames(history: seq<MessageRow>, r: int, now: int): map<string, nat>
  {
    BumpAll(map[], ReplayNames(Replayed(history, r, None, now)))
  }

  /** The hourly map a push leaves for room `r`. */
  function PushedHours(history: seq<MessageRow>, r: int, now: int): map<int, nat>
  {
    BumpAll(map[], ReplayHours(Replayed(history, r, None, now)))
  }

  /** How many sends a full update for these keyword and participation maps takes. */
  function FullUpdateLength(k: map<string, nat>, n: map<string, nat>): nat
  {
    (if k == map[] then 0 else 1) + (if n == map[] then 0 else 1) + 1
  }

  /** The full update a push of room `r` sends: the three updates for the room's rebuilt statistics. */
  predicate PushSent(sent: seq<Sent>, history: seq<MessageRow>, r: int, now: int)
  {
    FullUpdateSent(sent, r, PushedKeywords(history, r, now), PushedNames(history, r, now), PushedHours(history, r, now))
  }

  /**
   * What a sweep that pushed the rooms `pushed`, in that order, sends: one
   * full update per room, one after the other.
   */
  predicate SweepSent(sent: seq<Sent>, pushed: seq<int>, history: seq<MessageRow>, now: int)
    decreases |pushed|
  {
    if pushed == [] then sent == []
    else
      var r := pushed[|pushed| - 1];
      var len := FullUpdateLength(PushedKeywords(history, r, now), PushedNames(history, r, now));
      && len <= |sent|
      && SweepSent(sent[..|sent| - len], pushed[..|pushed| - 1], history, now)
      && PushSent(sent[|sent| - len..], history, r, now)
  }

  /** A full update for room `r` takes `FullUpdateLength` sends. */
  lemma PushSentLength(seg: seq<Sent>, history: seq<MessageRow>, r: int, now: int)
    requires PushSent(seg, history, r, now)
    ensures |seg| == FullUpdateLength(PushedKeywords(history, r, now), PushedNames(history, r, now))
  {
  }

  /** One more push extends what the sweep has sent by that room's full update. */
  lemma SweepSentSnoc(sent: seq<Sent>, pushed: seq<int>, seg: seq<Sent>, r: int, history: seq<MessageRow>, now: int)
    requires SweepSent(sent, pushed, history, now)
    requires PushSent(seg, history, r, now)
    ensures SweepSent(sent + seg, pushed + [r], history, now)
  {
    PushSentLength(seg, history, r, now);
    var all, more := sent + seg, pushed + [r];
    assert all[..|all| - |seg|] == sent;
    assert all[|all| - |seg|..] == seg;
    assert more[..|more| - 1] == pushed && more[|more| - 1] == r;
  }

  /** The outbox after one more push of the sweep: the old sends stay in front and the room's full update follows. */
  lemma SweepOutboxStep(o0: seq<Sent>, before: seq<Sent>, after: seq<Sent>, pushed: seq<int>, r: int, history: seq<MessageRow>, now: int)
    requires |o0| <= |before| && before[..|o0|] == o0
    requires |before| <= |after| && after[..|before|] == before
    requires SweepSent(before[|o0|..], pushed, history, now)
    requires PushSent(after[|before|..], history, r, now)
    ensures |o0| <= |after| && after[..|o0|] == o0
    ensures SweepSent(after[|o0|..], pushed + [r], history, now)
  {
    PrefixOfPrefix(o0, before, after);
    SplitAfterPrefix(o0, before, after);
    SweepSentSnoc(before[|o0|..], pushed, after[|before|..], r, history, now);
  }

  /** After a rebuild of room `r`, the room's statistics are the ones a push leaves. */
  lemma RebuiltRoomStats(k: map<int, map<string, nat>>, n: map<int, map<string, nat>>, h: map<int, map<int, nat>>,
                         k0: map<int, map<string, nat>>, n0: map<int, map<string, nat>>, h0: map<int, map<int, nat>>,
                         r: int, history: seq<MessageRow>, now: int)
    requires RebuiltUpTo(k, n, h, k0, n0, h0, r, Replayed(history, r, None, now))
    ensures RoomStats(k, r) == PushedKeywords(history, r, now)
    ensures RoomStats(n, r) == PushedNames(history, r, now)
    ensures RoomStats(h, r) == PushedHours(history, r, now)
  {
    var ms := Replayed(history, r, None, now);
    if ms == [] {
      assert ReplayKeywords(ms) == [];
    }
    ReplayHoursFollowNames(ms);
    ResetLookup(k0, r, ms != [], ReplayKeywords(ms), r);
    ResetLookup(n0, r, ReplayNames(ms) != [], ReplayNames(ms), r);
    ResetLookup(h0, r, ReplayNames(ms) != [], ReplayHours(ms), r);
  }

  class AnalysisNotificationService {
    var lastUpdateTime: map<int, int>
    var messageCountSinceLastUpdate: map<int, nat>
    /** Every update sent so far, oldest first. */
    var outbox: seq<Sent>
    const analysis: ChatAnalysisService

    constructor(analysis: ChatAnalysisService)
      ensures this.analysis == analysis
      ensures lastUpdateTime == map[] && messageCountSinceLastUpdate == map[] && outbox == []
    {
      this.analysis := analysis;
      lastUpdateTime := map[];
      messageCountSinceLastUpdate := map[];
      outbox := [];
    }

    /** The room's tracker; an absent count reads as zero. */
    function TrackerOf(roomId: int): Tracker
      reads this
    {
      Tracker(if roomId in lastUpdateTime then Some(lastUpdateTime[roomId]) else None, Get(messageCountSinceLastUpdate, roomId))
    }

    /** `sendAnalysisUpdate`: one message to the room's analysis topic. */
    method SendAnalysisUpdate(roomId: int, update: AnalysisUpdate)
      modifies this
      ensures outbox == old(outbox) + [Sent(Destination(roomId), update)]
      ensures lastUpdateTime == old(lastUpdateTime) && messageCountSinceLastUpdate == old(messageCountSinceLastUpdate)
    {
      outbox := outbox + [Sent(Destination(roomId), update)];
    }

    /** `sendKeywordUpdate`: nothing is sent while the room has no keywords. */
    method SendKeywordUpdate(roomId: int) returns (ghost sent: seq<Sent>)
      modifies this
      ensures outbox == old(outbox) + sent
      ensures KeywordPart(sent, roomId, RoomStats(analysis.roomKeywordStats, roomId))
      ensures lastUpdateTime == old(lastUpdateTime) && messageCountSinceLastUpdate == old(messageCountSinceLastUpdate)
    {
      var stats := analysis.GetRoomKeywordStats(roomId);
      sent := [];
      if stats.topKeywords != [] {
        var top := stats.topKeywords;
        var update := KeywordUpdate(roomId, Keys(top), Counts(top), top, stats.totalKeywords);
        SendAnalysisUpdate(roomId, update);
        sent := [Sent(Destination(roomId), update)];
      }
    }

    /** `sendParticipationUpdate`: nothing is sent while nobody was counted. */
    method SendParticipationUpdate(roomId: int) returns (ghost sent: seq<Sent>)
      modifies this
      ensures outbox == old(outbox) + sent
      ensures ParticipationPart(sent, roomId, RoomStats(analysis.roomUserMessageCount, roomId))
      ensures lastUpdateTime == old(lastUpdateTime) && messageCountSinceLastUpdate == old(messageCountSinceLastUpdate)
    {
      var stats := analysis.GetRoomUserParticipation(roomId);
      sent := [];
      if stats.userParticipation != [] {
        var all := stats.userParticipation;
        var update := ParticipationUpdate(roomId, Keys(all), Counts(all), all, stats.totalUsers);
        SendAnalysisUpdate(roomId, update);
        sent := [Sent(Destination(roomId), update)];
      } else {
        assert |RoomStats(analysis.roomUserMessageCount, roomId)| == 0;
      }
    }

    /** `sendHourlyUpdate`: the histogram list is never null, so this always sends. */
    method SendHourlyUpdate(roomId: int) returns (ghost sent: seq<Sent>)
      modifies this
      ensures outbox == old(outbox) + sent
      ensures |sent| == 1 && HourlySent(sent[0], roomId, RoomStats(analysis.roomHourlyStats, roomId))
      ensures lastUpdateTime == old(lastUpdateTime) && messageCountSinceLastUpdate == old(messageCountSinceLastUpdate)
    {
      var stats := analysis.GetRoomHourlyStats(roomId);
      var activity := stats.hourlyActivity;
      var update := HourlyUpdate(roomId, HourLabels(activity), Counts(activity), activity);
      SendAnalysisUpdate(roomId, update);
      sent := [Sent(Destination(roomId), update)];
    }

    /**
     * `sendFullAnalysisUpdate(roomId, days)`: the room is rebuilt first and
     * the three updates then describe the rebuilt maps.
     */
    method SendFullAnalysisUpdate(roomId: int, days: Option<int>, history: seq<MessageRow>, now: int)
      modifies this, analysis
      ensures RebuiltUpTo(analysis.roomKeywordStats, analysis.roomUserMessageCount, analysis.roomHourlyStats,
                          old(analysis.roomKeywordStats), old(analysis.roomUserMessageCount), old(analysis.roomHourlyStats),
                          roomId, Replayed(history, roomId, days, now))
      ensures analysis.savedResults == old(analysis.savedResults)
      ensures |old(outbox)| <= |outbox| && outbox[..|old(outbox)|] == old(outbox)
      ensures FullUpdateSent(outbox[|old(outbox)|..], roomId, RoomStats(analysis.roomKeywordStats, roomId),
                             RoomStats(analysis.roomUserMessageCount, roomId), RoomStats(analysis.roomHourlyStats, roomId))
      ensures lastUpdateTime == old(lastUpdateTime) && messageCountSinceLastUpdate == old(messageCountSinceLastUpdate)
    {
      analysis.RebuildRoomAnalysis(roomId, days, history, now);
      ghost var o0 := outbox;
      ghost var a := SendKeywordUpdate(roomId);
      ghost var b := SendParticipationUpdate(roomId);
      ghost var c := SendHourlyUpdate(roomId);
      FullUpdateParts(a, b, c, roomId, RoomStats(analysis.roomKeywordStats, roomId),
        RoomStats(analysis.roomUserMessageCount, roomId), RoomStats(analysis.roomHourlyStats, roomId));
      AppendThree(o0, a, b, c);
    }

    /** `shouldSendUpdate` at time `now`. */
    method ShouldSendUpdate(roomId: int, now: int) returns (b: bool)
      ensures b == Due(TrackerOf(roomId), now)
      ensures roomId !in lastUpdateTime || now - TimeThresholdSeconds > lastUpdateTime[roomId] ==> b
      ensures roomId in lastUpdateTime && now - TimeThresholdSeconds <= lastUpdateTime[roomId] ==>
        (b <==> Get(messageCountSinceLastUpdate, roomId) >= MessageThreshold)
    {
      if roomId !in lastUpdateTime || now - TimeThresholdSeconds > lastUpdateTime[roomId] {
        return true;
      }
      b := roomId in messageCountSinceLastUpdate && messageCountSinceLastUpdate[roomId] >= MessageThreshold;
    }

    /** `resetUpdateTracking`: the room was pushed at `now` and counts from zero. */
    method ResetUpdateTracking(roomId: int, now: int)
      modifies this
      ensures lastUpdateTime == old(lastUpdateTime)[roomId := now]
      ensures messageCountSinceLastUpdate == old(messageCountSinceLastUpdate)[roomId := 0]
      ensures outbox == old(outbox)
    {
      lastUpdateTime := lastUpdateTime[roomId := now];
      messageCountSinceLastUpdate := messageCountSinceLastUpdate[roomId := 0];
    }

    /**
     * `onMessageReceived`: count the message, then push and reset when the
     * room is due.  The room's tracker moves as `Receive` says and no other
     * room's tracker changes.
     */
    method OnMessageReceived(roomId: int, history: seq<MessageRow>, now: int) returns (pushed: bool)
      modifies this, analysis
      ensures pushed == Receive(old(TrackerOf(roomId)), now).pushed
      ensures TrackerOf(roomId) == Receive(old(TrackerOf(roomId)), now).tracker
      ensures pushed ==> lastUpdateTime == old(lastUpdateTime)[roomId := now]
      ensures pushed ==> messageCountSinceLastUpdate == old(messageCountSinceLastUpdate)[roomId := 0]
      ensures !pushed ==> lastUpdateTime == old(lastUpdateTime)
      ensures !pushed ==> messageCountSinceLastUpdate == old(messageCountSinceLastUpdate)[roomId := Get(old(messageCountSinceLastUpdate), roomId) + 1]
      ensures pushed ==>
        && RebuiltUpTo(analysis.roomKeywordStats, analysis.roomUserMessageCount, analysis.roomHourlyStats,
                       old(analysis.roomKeywordStats), old(analysis.roomUserMessageCount), old(analysis.roomHourlyStats),
                       roomId, Replayed(history, roomId, None, now))
        && |old(outbox)| <= |outbox| && outbox[..|old(outbox)|] == old(outbox)
        && FullUpdateSent(outbox[|old(outbox)|..], roomId, RoomStats(analysis.roomKeywordStats, roomId),
                          RoomStats(analysis.roomUserMessageCount, roomId), RoomStats(analysis.roomHourlyStats, roomId))
      ensures !pushed ==> outbox == old(outbox) && unchanged(analysis)
      ensures analysis.savedResults == old(analysis.savedResults)
    {
      ghost var counts := messageCountSinceLastUpdate;
      var counted := Get(messageCountSinceLastUpdate, roomId) + 1;
      messageCountSinceLastUpdate := messageCountSinceLastUpdate[roomId := counted];
      pushed := ShouldSendUpdate(roomId, now);
      if pushed {
        SendFullAnalysisUpdate(roomId, None, history, now);
        ResetUpdateTracking(roomId, now);
        Overwrite(counts, roomId, counted, 0);
      }
    }

    /** One push of the sweep: a full update over the whole history, then a reset. */
    method PushRoom(roomId: int, history: seq<MessageRow>, now: int)
      modifies this, analysis
      ensures var ms := Replayed(history, roomId, None, now);
        && analysis.roomKeywordStats == Reset(old(analysis.roomKeywordStats), roomId, ms != [], ReplayKeywords(ms))
        && analysis.roomUserMessageCount == Reset(old(analysis.roomUserMessageCount), roomId, ReplayNames(ms) != [], ReplayNames(ms))
        && analysis.roomHourlyStats == Reset(old(analysis.roomHourlyStats), roomId, ReplayNames(ms) != [], ReplayHours(ms))
      ensures lastUpdateTime == old(lastUpdateTime)[roomId := now]
      ensures messageCountSinceLastUpdate == old(messageCountSinceLastUpdate)[roomId := 0]
      ensures |old(outbox)| <= |outbox| && outbox[..|old(outbox)|] == old(outbox)
      ensures PushSent(outbox[|old(outbox)|..], history, roomId, now)
    {
      ghost var k0, n0, h0 := analysis.roomKeywordStats, analysis.roomUserMessageCount, analysis.roomHourlyStats;
      SendFullAnalysisUpdate(roomId, None, history, now);
      RebuiltRoomStats(analysis.roomKeywordStats, analysis.roomUserMessageCount, analysis.roomHourlyStats,
                       k0, n0, h0, roomId, history, now);
      ResetUpdateTracking(roomId, now);
    }

    /**
     * `scheduledAnalysisUpdate`: every room that counted a message since its
     * last push is pushed and reset, in some order (`pushed`); rooms whose
     * count is zero are left alone.
     */
    method ScheduledAnalysisUpdate(history: seq<MessageRow>, now: int) returns (pushed: seq<int>)
      modifies this, analysis
      ensures forall r :: r in pushed <==> r in old(messageCountSinceLastUpdate) && old(messageCountSinceLastUpdate)[r] > 0
      ensures forall i, j :: 0 <= i < j < |pushed| ==> pushed[i] != pushed[j]
      ensures messageCountSinceLastUpdate == map r | r in old(messageCountSinceLastUpdate) :: 0
      ensures forall r :: r in lastUpdateTime <==> r in old(lastUpdateTime) || r in pushed
      ensures forall r :: r in pushed ==> lastUpdateTime[r] == now
      ensures forall r :: r in old(lastUpdateTime) && r !in pushed ==> lastUpdateTime[r] == old(lastUpdateTime)[r]
      ensures analysis.roomKeywordStats == RebuiltKeywords(old(analysis.roomKeywordStats), pushed, history, now)
      ensures analysis.roomUserMessageCount == RebuiltNames(old(analysis.roomUserMessageCount), pushed, history, now)
      ensures analysis.roomHourlyStats == RebuiltHours(old(analysis.roomHourlyStats), pushed, history, now)
      ensures |old(outbox)| <= |outbox| && outbox[..|old(outbox)|] == old(outbox)
      ensures SweepSent(outbox[|old(outbox)|..], pushed, history, now)
    {
      var counts := messageCountSinceLastUpdate;
      var rest := set r | r in counts && counts[r] > 0;
      pushed := SweepRooms(rest, history, now, counts, lastUpdateTime,
                           analysis.roomKeywordStats, analysis.roomUserMessageCount, analysis.roomHourlyStats, outbox);
      SweptDone(counts, old(lastUpdateTime), messageCountSinceLastUpdate, lastUpdateTime, pushed, now);
    }

    /** The sweep's loop over the rooms with pending messages, taken in some order. */
    method SweepRooms(rooms: set<int>, history: seq<MessageRow>, now: int,
                      ghost counts: map<int, nat>, ghost times: map<int, int>,
                      ghost k0: map<int, map<string, nat>>, ghost n0: map<int, map<string, nat>>, ghost h0: map<int, map<int, nat>>,
                      ghost o0: seq<Sent>) returns (pushed: seq<int>)
      requires Swept(counts, times, messageCountSinceLastUpdate, lastUpdateTime, [], rooms, now)
      requires analysis.roomKeywordStats == k0 && analysis.roomUserMessageCount == n0 && analysis.roomHourlyStats == h0
      requires outbox == o0
      modifies this, analysis
      ensures Swept(counts, times, messageCountSinceLastUpdate, lastUpdateTime, pushed, {}, now)
      ensures analysis.roomKeywordStats == RebuiltKeywords(k0, pushed, history, now)
      ensures analysis.roomUserMessageCount == RebuiltNames(n0, pushed, history, now)
      ensures analysis.roomHourlyStats == RebuiltHours(h0, pushed, history, now)
      ensures |o0| <= |outbox| && outbox[..|o0|] == o0
      ensures SweepSent(outbox[|o0|..], pushed, history, now)
    {
      var rest := rooms;
      pushed := [];
      assert outbox[|o0|..] == [];
      while rest != {}
        invariant Swept(counts, times, messageCountSinceLastUpdate, lastUpdateTime, pushed, rest, now)
        invariant analysis.roomKeywordStats == RebuiltKeywords(k0, pushed, history, now)
        invariant analysis.roomUserMessageCount == RebuiltNames(n0, pushed, history, now)
        invariant analysis.roomHourlyStats == RebuiltHours(h0, pushed, history, now)
        invariant |o0| <= |outbox| && outbox[..|o0|] == o0
        invariant SweepSent(outbox[|o0|..], pushed, history, now)
        decreases |rest|
      {
        var r := AnyOf(rest);
        SweepOne(r, history, now, counts, times, k0, n0, h0, o0, pushed, rest);
        pushed := pushed + [r];
        rest := rest - {r};
      }
    }

    /** One turn of the sweep: room `r` is pushed and reset, and moves from `rest` to `pushed`. */
    method SweepOne(r: int, history: seq<MessageRow>, now: int,
                    ghost counts: map<int, nat>, ghost times: map<int, int>,
                    ghost k0: map<int, map<string, nat>>, ghost n0: map<int, map<string, nat>>, ghost h0: map<int, map<int, nat>>,
                    ghost o0: seq<Sent>, ghost pushed: seq<int>, ghost rest: set<int>)
      requires r in rest
      requires Swept(counts, times, messageCountSinceLastUpdate, lastUpdateTime, pushed, rest, now)
      requires analysis.roomKeywordStats == RebuiltKeywords(k0, pushed, history, now)
      requires analysis.roomUserMessageCount == RebuiltNames(n0, pushed, history, now)
      requires analysis.roomHourlyStats == RebuiltHours(h0, pushed, history, now)
      requires |o0| <= |outbox| && outbox[..|o0|] == o0
      requires SweepSent(outbox[|o0|..], pushed, history, now)
      modifies this, analysis
      ensures Swept(counts, times, messageCountSinceLastUpdate, lastUpdateTime, pushed + [r], rest - {r}, now)
      ensures analysis.roomKeywordStats == RebuiltKeywords(k0, pushed + [r], history, now)
      ensures analysis.roomUserMessageCount == RebuiltNames(n0, pushed + [r], history, now)
      ensures analysis.roomHourlyStats == RebuiltHours(h0, pushed + [r], history, now)
      ensures |o0| <= |outbox| && outbox[..|o0|] == o0
      ensures SweepSent(outbox[|o0|..], pushed + [r], history, now)
    {
      ghost var before := outbox;
      ghost var c1, l1 := messageCountSinceLastUpdate, lastUpdateTime;
      ghost var k1, n1, h1 := analysis.roomKeywordStats, analysis.roomUserMessageCount, analysis.roomHourlyStats;
      PushRoom(r, history, now);
      SweptStep(counts, times, c1, l1, pushed, rest, now, r);
      RebuiltSnoc(k0, n0, h0, k1, n1, h1, analysis.roomKeywordStats, analysis.roomUserMessageCount,
                  analysis.roomHourlyStats, pushed, r, history, now);
      SweepOutboxStep(o0, before, outbox, pushed, r, history, now);
    }

    /** `startAnalysisSubscription`: an immediate full update, then a reset. */
    method StartAnalysisSubscription(roomId: int, history: seq<MessageRow>, now: int)
      modifies this, analysis
      ensures RebuiltUpTo(analysis.roomKeywordStats, analysis.roomUserMessageCount, analysis.roomHourlyStats,
                          old(analysis.roomKeywordStats), old(analysis.roomUserMessageCount), old(analysis.roomHourlyStats),
                          roomId, Replayed(history, roomId, None, now))
      ensures |old(outbox)| <= |outbox| && outbox[..|old(outbox)|] == old(outbox)
      ensures FullUpdateSent(outbox[|old(outbox)|..], roomId, RoomStats(analysis.roomKeywordStats, roomId),
                             RoomStats(analysis.roomUserMessageCount, roomId), RoomStats(analysis.roomHourlyStats, roomId))
      ensures lastUpdateTime == old(lastUpdateTime)[roomId := now]
      ensures messageCountSinceLastUpdate == old(messageCountSinceLastUpdate)[roomId := 0]
    {
      SendFullAnalysisUpdate(roomId, None, history, now);
      ResetUpdateTracking(roomId, now);
    }

    /** `stopAnalysisSubscription`: the room's tracker is forgotten. */
    method StopAnalysisSubscription(roomId: int)
      modifies this
      ensures lastUpdateTime == old(lastUpdateTime) - {roomId}
      ensures messageCountSinceLastUpdate == old(messageCountSinceLastUpdate) - {roomId}
      ensures outbox == old(outbox)
      ensures TrackerOf(roomId) == Tracker(None, 0)
    {
      lastUpdateTime := lastUpdateTime - {roomId};
      messageCountSinceLastUpdate := messageCountSinceLastUpdate - {roomId};
    }
  }

  /** A second update of the same key overrides the first. */
  lemma Overwrite<K, V>(m: map<K, V>, k: K, a: V, b: V)
    ensures m[k := a][k := b] == m[k := b]
  {
  }
}
