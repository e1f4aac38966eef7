/**
 * The web client's analysis store: the three realtime panels built from the
 * chart-shaped updates the server pushes (parallel `labels` and `data`
 * lists), the paged analysis history, and the reset.
 */
module AnalysisStore {
  import opened Wrappers
  import opened Text
  import opened Ranking
  import AnalysisNotification

  /** A pushed chart: `labels` and `datasets[0].data`, with the push's timestamp. */
  datatype ChartUpdate = ChartUpdate(roomId: int, labels: seq<string>, data: seq<int>, timestamp: string)

  /**
   * A label paired with `data[index]`; `None` stands for JavaScript's
   * `undefined` when the data list is shorter than the labels.
   */
  datatype KeywordCount = KeywordCount(keyword: string, count: Option<int>)
  datatype UserCount = UserCount(username: string, messageCount: Option<int>)
  /** `hour` is `None` where `parseInt` gives `NaN`. */
  datatype HourCount = HourCount(hour: Option<int>, messageCount: Option<int>)

  datatype KeywordPanel = KeywordPanel(roomId: int, topKeywords: seq<KeywordCount>, totalKeywords: int, lastUpdated: string)
  datatype ParticipationPanel = ParticipationPanel(roomId: int, userParticipation: seq<UserCount>, totalUsers: nat, lastUpdated: string)
  datatype HourlyPanel = HourlyPanel(roomId: int, hourlyActivity: seq<HourCount>, lastUpdated: string)

  /** One stored analysis as the history endpoint lists it. */
  datatype HistoryItem = HistoryItem(id: int, analysisType: string, analysisData: string)

  /** What the stats endpoint answered, as far as the store looks at it. */
  datatype StatsSummary = StatsSummary(hasRealtimeData: bool)

  datatype AnalysisState = AnalysisState(
    keywordData: Option<KeywordPanel>,
    participationData: Option<ParticipationPanel>,
    hourlyActivityData: Option<HourlyPanel>,
    analysisStats: Option<StatsSummary>,
    analysisHistory: seq<HistoryItem>,
    loading: bool,
    error: Option<string>,
    lastUpdated: Option<string>,
    hasRealtimeData: bool)

  /** The initial value, which `clearAnalysisData` restores. */
  function Initial(): (s: AnalysisState)
    ensures s.keywordData == None && s.participationData == None && s.hourlyActivityData == None
    ensures s.analysisStats == None && s.analysisHistory == []
    ensures !s.loading && s.error == None && s.lastUpdated == None && !s.hasRealtimeData
  {
    AnalysisState(None, None, None, None, [], false, None, None, false)
  }

  /** `data[index]`. */
  function At(data: seq<int>, i: nat): (r: Option<int>)
    ensures i < |data| ==> r == Some(data[i])
    ensures i >= |data| ==> r == None
  {
    if i < |data| then Some(data[i]) else None
  }

  /** `labels.map((label, index) => { keyword: label, count: data[index] })`. */
  function KeywordPairs(labels: seq<string>, data: seq<int>): (r: seq<KeywordCount>)
    ensures |r| == |labels|
    ensures forall i :: 0 <= i < |labels| ==> r[i] == KeywordCount(labels[i], At(data, i))
  {
    if labels == [] then [] else KeywordPairs(labels[..|labels| - 1], data) + [KeywordCount(labels[|labels| - 1], At(data, |labels| - 1))]
  }

  function UserPairs(labels: seq<string>, data: seq<int>): (r: seq<UserCount>)
    ensures |r| == |labels|
    ensures forall i :: 0 <= i < |labels| ==> r[i] == UserCount(labels[i], At(data, i))
  {
    if labels == [] then [] else UserPairs(labels[..|labels| - 1], data) + [UserCount(labels[|labels| - 1], At(data, |labels| - 1))]
  }

  /** `data.reduce((sum, count) => sum + count, 0)`. */
  function Sum(data: seq<int>): int
  {
    if data == [] then 0 else Sum(data[..|data| - 1]) + data[|data| - 1]
  }

  /** The number of leading ASCII digits. */
  function LeadingDigits(s: string): (n: nat)
    ensures n <= |s|
    ensures forall i :: 0 <= i < n ==> IsDigit(s[i])
    ensures n < |s| ==> !IsDigit(s[n])
  {
    if s == [] || !IsDigit(s[0]) then 0 else 1 + LeadingDigits(s[1..])
  }

  /**
   * `parseInt(label)`: an optional sign and the longest run of digits after
   * it; `None` (`NaN`) when there is no digit.
   */
  function ParseIntPrefix(s: string): (r: Option<int>)
  {
    if |s| > 0 && s[0] == '-' then SignedDigits(true, s[1..])
    else if |s| > 0 && s[0] == '+' then SignedDigits(false, s[1..])
    else SignedDigits(false, s)
  }

  /** The leading run of digits of `body`, negated when a minus sign preceded it. */
  function SignedDigits(negative: bool, body: string): Option<int>
  {
    var n := LeadingDigits(body);
    if n == 0 then None
    else
      var v: int := DigitsValue(body[..n]);
      Some(if negative then 0 - v else v)
  }

  /** Reading back an integer written in decimal and followed by a non-digit gives the integer. */
  lemma ParseIntPrefixOfToString(n: int, suffix: string)
    requires suffix == [] || !IsDigit(suffix[0])
    ensures ParseIntPrefix(IntToString(n) + suffix) == Some(n)
  {
    var m: nat := if n < 0 then -n else n;
    var digits := NatToString(m);
    assert DigitsValue(digits) == m by {
      DigitsOfNat(m);
    }
    var s := IntToString(n) + suffix;
    if n < 0 {
      assert s[0] == '-' && s[1..] == digits + suffix by {
        assert IntToString(n) == "-" + digits;
      }
      SignedDigitsOf(true, digits, suffix);
    } else {
      assert s == digits + suffix && s[0] == digits[0];
      SignedDigitsOf(false, digits, suffix);
    }
  }

  lemma SignedDigitsOf(negative: bool, digits: string, suffix: string)
    requires |digits| > 0 && forall i :: 0 <= i < |digits| ==> IsDigit(digits[i])
    requires suffix == [] || !IsDigit(suffix[0])
    ensures SignedDigits(negative, digits + suffix) == Some(if negative then 0 - DigitsValue(digits) else DigitsValue(digits))
  {
    var body := digits + suffix;
    var n := LeadingDigits(body);
    assert n == |digits| by {
      LeadingDigitsOf(digits, suffix);
    }
    assert body[..n] == digits;
  }

  lemma {:induction false} LeadingDigitsOf(digits: string, suffix: string)
    requires forall i :: 0 <= i < |digits| ==> IsDigit(digits[i])
    requires suffix == [] || !IsDigit(suffix[0])
    ensures LeadingDigits(digits + suffix) == |digits|
  {
    if digits != [] {
      assert (digits + suffix)[1..] == digits[1..] + suffix;
      LeadingDigitsOf(digits[1..], suffix);
    } else {
      assert digits + suffix == suffix;
    }
  }

  function HourPairs(labels: seq<string>, data: seq<int>): (r: seq<HourCount>)
    ensures |r| == |labels|
    ensures forall i :: 0 <= i < |labels| ==> r[i] == HourCount(ParseIntPrefix(labels[i]), At(data, i))
  {
    if labels == [] then [] else HourPairs(labels[..|labels| - 1], data) + [HourCount(ParseIntPrefix(labels[|labels| - 1]), At(data, |labels| - 1))]
  }

  /** `updateKeywordData`: the panel pairs each label with its count and totals the data. */
  function UpdateKeywordData(s: AnalysisState, u: ChartUpdate): (r: AnalysisState)
    ensures r.keywordData.Some? && r.keywordData.value.roomId == u.roomId
    ensures r.keywordData.value.topKeywords == KeywordPairs(u.labels, u.data)
    ensures r.keywordData.value.totalKeywords == Sum(u.data)
    ensures r.keywordData.value.lastUpdated == u.timestamp && r.lastUpdated == Some(u.timestamp)
    ensures r.(keywordData := s.keywordData, lastUpdated := s.lastUpdated) == s
  {
    s.(keywordData := Some(KeywordPanel(u.roomId, KeywordPairs(u.labels, u.data), Sum(u.data), u.timestamp)),
       lastUpdated := Some(u.timestamp))
  }

  /** `updateParticipationData`: one entry per label, and as many users as labels. */
  function UpdateParticipationData(s: AnalysisState, u: ChartUpdate): (r: AnalysisState)
    ensures r.participationData.Some? && r.participationData.value.roomId == u.roomId
    ensures r.participationData.value.userParticipation == UserPairs(u.labels, u.data)
    ensures r.participationData.value.totalUsers == |u.labels|
    ensures r.participationData.value.lastUpdated == u.timestamp && r.lastUpdated == Some(u.timestamp)
    ensures r.(participationData := s.participationData, lastUpdated := s.lastUpdated) == s
  {
    s.(participationData := Some(ParticipationPanel(u.roomId, UserPairs(u.labels, u.data), |u.labels|, u.timestamp)),
       lastUpdated := Some(u.timestamp))
  }

  /** `updateHourlyActivityData`: each label "N시" becomes hour N. */
  function UpdateHourlyActivityData(s: AnalysisState, u: ChartUpdate): (r: AnalysisState)
    ensures r.hourlyActivityData.Some? && r.hourlyActivityData.value.roomId == u.roomId
    ensures r.hourlyActivityData.value.hourlyActivity == HourPairs(u.labels, u.data)
    ensures r.hourlyActivityData.value.lastUpdated == u.timestamp && r.lastUpdated == Some(u.timestamp)
    ensures r.(hourlyActivityData := s.hourlyActivityData, lastUpdated := s.lastUpdated) == s
  {
    s.(hourlyActivityData := Some(HourlyPanel(u.roomId, HourPairs(u.labels, u.data), u.timestamp)),
       lastUpdated := Some(u.timestamp))
  }

  /**
   * The server's keyword push, read by the client: when the data list has
   * one count per label, the panel lists exactly the pushed keywords with
   * their counts, in order, and the total is their sum.
   */
  lemma KeywordPanelMatchesPush(s: AnalysisState, u: ChartUpdate, top: seq<Entry<string>>)
    requires u.labels == Keys(top) && u.data == Counts(top)
    ensures var p := UpdateKeywordData(s, u).keywordData.value;
      && |p.topKeywords| == |top|
      && (forall i :: 0 <= i < |top| ==> p.topKeywords[i] == KeywordCount(top[i].key, Some(top[i].count)))
      && p.totalKeywords == Sum(Counts(top))
  {
  }

  /** The hour labels the server writes decode back to the hours they were written from. */
  lemma HourLabelsRoundTrip(activity: seq<Entry<int>>, data: seq<int>)
    ensures var pairs := HourPairs(AnalysisNotification.HourLabels(activity), data);
      forall i :: 0 <= i < |activity| ==> pairs[i].hour == Some(activity[i].key)
  {
    var labels := AnalysisNotification.HourLabels(activity);
    forall i | 0 <= i < |activity| ensures ParseIntPrefix(labels[i]) == Some(activity[i].key) {
      ParseIntPrefixOfToString(activity[i].key, "시");
    }
  }

  // ------------------------------------------------------------ fetches

  /**
   * `fetchAnalysisHistory` once the server has answered: the first page
   * replaces the history, a later page is appended; a failure records its
   * message and keeps the history.  Loading is over either way.
   */
  function FetchAnalysisHistory(s: AnalysisState, page: int, reply: Fetched<seq<HistoryItem>>): (r: AnalysisState)
    ensures !r.loading
    ensures reply.Loaded? && page == 0 ==> r.analysisHistory == reply.value
    ensures reply.Loaded? && page != 0 ==> r.analysisHistory == s.analysisHistory + reply.value
    ensures reply.Loaded? ==> r.error == None
    ensures reply.Failed? ==> r.analysisHistory == s.analysisHistory && r.error == Some(reply.message)
    ensures r.(analysisHistory := s.analysisHistory, loading := s.loading, error := s.error) == s
  {
    match reply
    case Loaded(content) =>
      var history := if page == 0 then content else s.analysisHistory + content;
      s.(analysisHistory := history, loading := false, error := None)
    case Failed(message) =>
      s.(loading := false, error := Some(message))
  }

  /** Loading pages 0, 1, ..., k in order leaves their contents concatenated in order. */
  function LoadPages(s: AnalysisState, pages: seq<seq<HistoryItem>>): (r: AnalysisState)
    decreases |pages|
  {
    if pages == [] then s
    else FetchAnalysisHistory(LoadPages(s, pages[..|pages| - 1]), |pages| - 1, Loaded(pages[|pages| - 1]))
  }

  function Concat(pages: seq<seq<HistoryItem>>): seq<HistoryItem>
  {
    if pages == [] then [] else Concat(pages[..|pages| - 1]) + pages[|pages| - 1]
  }

  lemma {:induction false} LoadPagesConcat(s: AnalysisState, pages: seq<seq<HistoryItem>>)
    requires pages != []
    ensures LoadPages(s, pages).analysisHistory == Concat(pages)
  {
    if |pages| > 1 {
      LoadPagesConcat(s, pages[..|pages| - 1]);
    } else {
      assert pages[..0] == [];
    }
  }

  /** `fetchAnalysisStats` on success: the realtime flag follows the server's answer. */
  function FetchAnalysisStats(s: AnalysisState, reply: Fetched<StatsSummary>): (r: AnalysisState)
    ensures reply.Loaded? ==> r.analysisStats == Some(reply.value) && r.hasRealtimeData == reply.value.hasRealtimeData
    ensures reply.Loaded? ==> r.(analysisStats := s.analysisStats, hasRealtimeData := s.hasRealtimeData) == s
    ensures reply.Failed? ==> r == s.(error := Some(reply.message))
  {
    match reply
    case Loaded(data) => s.(analysisStats := Some(data), hasRealtimeData := data.hasRealtimeData)
    case Failed(message) => s.(error := Some(message))
  }

  /** `clearAnalysisData`: every field back to its initial value, from any state. */
  function ClearAnalysisData(s: AnalysisState): (r: AnalysisState)
    ensures r == Initial()
  {
    AnalysisState(None, None, None, None, [], false, None, None, false)
  }
}
