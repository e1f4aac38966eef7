/**
 * The message-history endpoints: the latest messages of a room in
 * chronological order, per-room statistics with the ten most active users,
 * and keyword search with in-memory paging.  The repository's queries are
 * inputs here: the room's undeleted messages newest first, and the search
 * hits newest first.
 */
module MessageHistory {
  import opened Wrappers
  import opened Text
  import opened Tally
  import opened Ranking
  import opened Messages
  import opened MessageService
  import Report

  /** What an endpoint answers: the body, or the internal-server-error body. */
  datatype Reply<T> = Answer(body: T) | ServerError(error: string)

  const RecentFailed: string := "최근 메시지 조회 실패"
  const StatsFailed: string := "메시지 통계 조회 실패"
  const SearchFailed: string := "메시지 검색 실패"

  /** `convertToResponse`: a missing login name shows as "unknown", a missing nickname as "Unknown". */
  function Converted(m: MessageRow): (r: MessageResponse)
    ensures r.id == m.id && r.content == m.content && r.timestamp == m.timestamp
    ensures m.username.Some? ==> r.username == m.username.value
    ensures m.username.None? ==> r.username == "unknown"
    ensures m.name.Some? ==> r.name == m.name.value
    ensures m.name.None? ==> r.name == "Unknown"
  {
    ResponseOf(m, m.username.GetOr("unknown"), m.name.GetOr("Unknown"))
  }

  function ConvertAll(ms: seq<MessageRow>): (r: seq<MessageResponse>)
    ensures |r| == |ms|
    ensures forall i :: 0 <= i < |ms| ==> r[i] == Converted(ms[i])
  {
    if ms == [] then [] else ConvertAll(ms[..|ms| - 1]) + [Converted(ms[|ms| - 1])]
  }

  // ------------------------------------------------------------ recent

  predicate Chronological(s: seq<MessageResponse>)
  {
    forall i, j :: 0 <= i < j < |s| ==> s[i].timestamp <= s[j].timestamp
  }

  /** Places `x` after every element that is not later than it, as a stable sort does. */
  function InsertByTime(x: MessageResponse, s: seq<MessageResponse>): (r: seq<MessageResponse>)
    ensures multiset(r) == multiset(s) + multiset{x}
    ensures |r| == |s| + 1
  {
    if s == [] then [x]
    else if s[|s| - 1].timestamp <= x.timestamp then s + [x]
    else
      var init := s[..|s| - 1];
      assert s == init + [s[|s| - 1]];
      InsertByTime(x, init) + [s[|s| - 1]]
  }

  /** Inserting into a chronological list keeps it chronological. */
  lemma {:induction false} InsertKeepsChronological(x: MessageResponse, s: seq<MessageResponse>)
    requires Chronological(s)
    ensures Chronological(InsertByTime(x, s))
  {
    if s == [] {
    } else if s[|s| - 1].timestamp <= x.timestamp {
      forall y | y in s ensures y.timestamp <= x.timestamp {
        var k :| 0 <= k < |s| && s[k] == y;
      }
      AppendLatest(s, x);
    } else {
      var last := s[|s| - 1];
      var init := s[..|s| - 1];
      assert s == init + [last];
      InsertKeepsChronological(x, init);
      var head := InsertByTime(x, init);
      forall y | y in head ensures y.timestamp <= last.timestamp {
        assert y in multiset(head);
        if y != x {
          assert y in multiset(init);
          var k :| 0 <= k < |init| && init[k] == y;
          assert s[k] == y;
        }
      }
      AppendLatest(head, last);
    }
  }

  /** A message not earlier than every message of a chronological list may follow it. */
  lemma AppendLatest(s: seq<MessageResponse>, x: MessageResponse)
    requires Chronological(s)
    requires forall y :: y in s ==> y.timestamp <= x.timestamp
    ensures Chronological(s + [x])
  {
    var r := s + [x];
    forall i, j | 0 <= i < j < |r| ensures r[i].timestamp <= r[j].timestamp {
      assert r[i] == s[i];
      if j < |s| {
        assert r[j] == s[j];
      } else {
        assert s[i] in s;
      }
    }
  }

  /** `sorted(comparing timestamp)`: the same messages, each inserted after those not later than it. */
  function SortByTime(s: seq<MessageResponse>): (r: seq<MessageResponse>)
    ensures multiset(r) == multiset(s)
    ensures |r| == |s|
  {
    if s == [] then []
    else
      var init := s[..|s| - 1];
      assert s == init + [s[|s| - 1]];
      InsertByTime(s[|s| - 1], SortByTime(init))
  }

  /** The sort's result is in chronological order. */
  lemma {:induction false} SortedIsChronological(s: seq<MessageResponse>)
    ensures Chronological(SortByTime(s))
  {
    if s != [] {
      SortedIsChronological(s[..|s| - 1]);
      InsertKeepsChronological(s[|s| - 1], SortByTime(s[..|s| - 1]));
    }
  }

  datatype Recent = Recent(
    messages: seq<MessageResponse>,
    messageCount: nat,
    totalMessages: nat,
    roomId: int,
    hasMore: bool)

  /**
   * `getRecentMessages`: the first `limit` of the room's non-deleted
   * messages newest first, re-sorted oldest first.  `roomCount` is
   * `countByRoomId`, which counts deleted messages too.  A page size below
   * one is refused by the page request, which the endpoint reports as its
   * error body.
   */
  function GetRecentMessages(roomId: int, newestFirst: seq<MessageRow>, roomCount: nat, limit: int): (r: Reply<Recent>)
    ensures r.ServerError? <==> limit < 1
    ensures r.ServerError? ==> r.error == RecentFailed
    ensures r.Answer? ==> r.body.roomId == roomId && r.body.totalMessages == roomCount
    ensures r.Answer? ==> r.body.messageCount == |r.body.messages| == Min(limit, |newestFirst|)
    ensures r.Answer? ==> Chronological(r.body.messages)
    ensures r.Answer? ==> multiset(r.body.messages) == multiset(ConvertAll(newestFirst[..r.body.messageCount]))
    ensures r.Answer? ==> (r.body.hasMore <==> roomCount > limit)
  {
    if limit < 1 then ServerError(RecentFailed)
    else
      var page := Take(newestFirst, limit);
      var messages := SortByTime(ConvertAll(page));
      SortedIsChronological(ConvertAll(page));
      Answer(Recent(messages, |messages|, roomCount, roomId, roomCount > limit))
  }

  /** When no message of the room is deleted, `hasMore` says exactly that the page left messages out. */
  lemma HasMoreIffLeftOut(roomId: int, newestFirst: seq<MessageRow>, limit: int)
    requires limit >= 1
    ensures var r := GetRecentMessages(roomId, newestFirst, |newestFirst|, limit);
      r.Answer? && (r.body.hasMore <==> r.body.messageCount < r.body.totalMessages)
  {
  }

  // ------------------------------------------------------------ stats

  /** The login names of the messages that carry one, in order. */
  function NamedSenders(ms: seq<MessageRow>): (r: seq<string>)
    ensures |r| <= |ms|
    ensures forall u :: u in r <==> exists i :: 0 <= i < |ms| && ms[i].username == Some(u)
  {
    if ms == [] then []
    else
      var last := ms[|ms| - 1];
      var init := NamedSenders(ms[..|ms| - 1]);
      assert forall i :: 0 <= i < |ms| - 1 ==> ms[..|ms| - 1][i] == ms[i];
      init + (if last.username.Some? then [last.username.value] else [])
  }

  /** Messages per login name, as signed counts for ranking. */
  function UserCounts(ms: seq<MessageRow>): (m: map<string, int>)
    ensures forall u :: u in m <==> u in NamedSenders(ms)
    ensures forall u :: u in m ==> m[u] == multiset(NamedSenders(ms))[u]
  {
    var g := Report.GroupCount(NamedSenders(ms));
    assert forall u :: u in g ==> g[u] == multiset(NamedSenders(ms))[u] by {
      forall u | u in g ensures g[u] == multiset(NamedSenders(ms))[u] {
        Report.GroupCountGet(NamedSenders(ms), u);
      }
    }
    map u | u in g :: g[u] as int
  }

  datatype RoomStats = RoomStats(
    roomId: int,
    totalMessages: nat,
    messageTypeCounts: map<string, nat>,
    topUsers: seq<Entry<string>>,
    activeUsers: nat)

  const TopUserLimit: nat := 10

  /**
   * `getRoomMessageStats`: message counts by type over the non-deleted
   * messages, `roomCount` (`countByRoomId`) as the total, and the ten users with
   * the most messages in descending order; `activeUsers` is the size of that
   * top list, not the number of distinct senders.
   */
  method GetRoomMessageStats(roomId: int, all: seq<MessageRow>, roomCount: nat) returns (r: RoomStats)
    ensures r.roomId == roomId && r.totalMessages == roomCount
    ensures r.messageTypeCounts == Report.GroupCount(Report.TypeKeys(all))
    ensures IsTop(UserCounts(all), TopUserLimit, r.topUsers)
    ensures r.activeUsers == |r.topUsers| == Min(TopUserLimit, |UserCounts(all)|)
    ensures forall x :: x in r.topUsers ==> x.count == multiset(NamedSenders(all))[x.key]
  {
    var top := TopEntries(UserCounts(all), TopUserLimit);
    r := RoomStats(roomId, roomCount, Report.GroupCount(Report.TypeKeys(all)), top, |top|);
  }

  /** The type counts add up to the number of non-deleted messages. */
  lemma StatsAccount(all: seq<MessageRow>, r: RoomStats)
    requires r.messageTypeCounts == Report.GroupCount(Report.TypeKeys(all))
    ensures Total(r.messageTypeCounts) == |all|
  {
  }

  /** Some message of `all` carries the login name `u`. */
  predicate SentBy(all: seq<MessageRow>, u: string)
  {
    exists i :: 0 <= i < |all| && all[i].username == Some(u)
  }

  /** Every listed user is the login name of some message. */
  lemma TopUsersSent(all: seq<MessageRow>, top: seq<Entry<string>>)
    requires IsTop(UserCounts(all), TopUserLimit, top)
    ensures forall x :: x in top ==> SentBy(all, x.key)
  {
    forall x | x in top
      ensures SentBy(all, x.key)
    {
      assert x.key in NamedSenders(all);
    }
  }

  // ------------------------------------------------------------ search

  /** Java `int` arithmetic: the exact value wrapped into 32 bits. */
  function Wrap32(x: int): (r: int)
    ensures -0x8000_0000 <= r < 0x8000_0000
    ensures -0x8000_0000 <= x < 0x8000_0000 ==> r == x
  {
    (x + 0x8000_0000) % 0x1_0000_0000 - 0x8000_0000
  }

  predicate IsInt(x: int)
  {
    -0x8000_0000 <= x < 0x8000_0000
  }

  /**
   * The `subList(start, end)` bounds exactly as written, in 32-bit `int`:
   * `start = page * size`, `end = min(start + size, n)`; `None` where
   * `subList` throws.
   */
  function SearchBoundsAsWritten(n: nat, page: int, size: int): (r: Option<(int, int)>)
    ensures r.Some? ==> 0 <= r.value.0 <= r.value.1 <= n
  {
    var start := Wrap32(page * size);
    var end := Min(Wrap32(start + size), n);
    if 0 <= start <= end then Some((start, end)) else None
  }

  /** A page number and size whose product wraps to zero: the as-written bounds hand out the first page. */
  lemma SearchPageOverflow()
    ensures SearchBoundsAsWritten(100, 65536, 65536) == Some((0, 100))
    ensures SearchBounds(100, 65536, 65536) == None
  {
  }

  /**
   * The bounds with the arithmetic done exactly: the page starts at
   * `page * size`, holds at most `size` hits, and a page that starts past
   * the end (or a negative offset or size) is an error, as `subList` makes it.
   */
  function SearchBounds(n: nat, page: int, size: int): (r: Option<(int, int)>)
    ensures r.Some? <==> 0 <= page * size <= n && 0 <= size
    ensures r.Some? ==> r.value.0 == page * size && r.value.1 == Min(page * size + size, n)
    ensures r.Some? ==> 0 <= r.value.0 <= r.value.1 <= n && r.value.1 - r.value.0 <= size
  {
    var start := page * size;
    var end := Min(start + size, n);
    if 0 <= start <= end then Some((start, end)) else None
  }

  /** Wherever no intermediate value leaves the `int` range, the two agree. */
  lemma SearchBoundsAgree(n: nat, page: int, size: int)
    requires n < 0x8000_0000 && IsInt(page * size) && IsInt(page * size + size)
    ensures SearchBoundsAsWritten(n, page, size) == SearchBounds(n, page, size)
  {
  }

  datatype SearchPage = SearchPage(
    messages: seq<MessageResponse>,
    totalResults: nat,
    currentPage: int,
    pageSize: int,
    keyword: string,
    roomId: int)

  /** `searchMessages`: one page of the hits, or the error body when the page cannot be cut. */
  function SearchMessages(roomId: int, keyword: string, hits: seq<MessageRow>, page: int, size: int): (r: Reply<SearchPage>)
    ensures r.ServerError? <==> page * size > |hits| || page * size < 0 || size < 0
    ensures r.ServerError? ==> r.error == SearchFailed
    ensures r.Answer? ==> r.body.totalResults == |hits| && r.body.currentPage == page && r.body.pageSize == size
    ensures r.Answer? ==> r.body.keyword == keyword && r.body.roomId == roomId
    ensures r.Answer? ==> |r.body.messages| <= size
    ensures r.Answer? ==> r.body.messages == ConvertAll(hits[page * size .. Min(page * size + size, |hits|)])
  {
    match SearchBounds(|hits|, page, size)
    case None => ServerError(SearchFailed)
    case Some((start, end)) => Answer(SearchPage(ConvertAll(hits[start..end]), |hits|, page, size, keyword, roomId))
  }
}
