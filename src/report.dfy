/**
 * `ReportService`: daily, weekly and monthly reports over the messages
 * stored in a period, and a user's own report.  Dates are day numbers
 * counted from 1970-01-01 and times are seconds from its midnight; the end
 * of a day is its last second (`LocalTime.MAX` without the nanoseconds).
 */
module Report {
  import opened Wrappers
  import opened Text
  import opened Tally
  import opened Ranking
  import opened Messages

  const Unknown: string := "UNKNOWN"
  const NoMessagesSummary: string := "해당 기간에는 메시지가 없습니다."

  // ---------------------------------------------------------------- calendar

  predicate IsLeapYear(year: int)
  {
    year % 4 == 0 && (year % 100 != 0 || year % 400 == 0)
  }

  function DaysInMonth(year: int, month: int): (n: int)
    requires 1 <= month <= 12
    ensures 28 <= n <= 31
  {
    if month == 2 then (if IsLeapYear(year) then 29 else 28)
    else if month == 4 || month == 6 || month == 9 || month == 11 then 30
    else 31
  }

  /** Leap years among the years before `year`, counted from year 1 (negative before it). */
  function LeapYearsBefore(year: int): int
  {
    (year - 1) / 4 - (year - 1) / 100 + (year - 1) / 400
  }

  /** The day number of January 1st of `year`. */
  function YearStart(year: int): int
  {
    365 * (year - 1970) + LeapYearsBefore(year) - LeapYearsBefore(1970)
  }

  /** Days of the year before the first of `month`. */
  function DaysBeforeMonth(year: int, month: int): int
    requires 1 <= month <= 12
  {
    [0, 31, 59, 90, 120, 151, 181, 212, 243, 273, 304, 334][month - 1] + (if month > 2 && IsLeapYear(year) then 1 else 0)
  }

  /** `LocalDate.of(year, month, day)` as a day number. */
  function EpochDay(year: int, month: int, day: int): int
    requires 1 <= month <= 12
  {
    YearStart(year) + DaysBeforeMonth(year, month) + day - 1
  }

  /** A year has 366 days exactly when it is a leap year. */
  lemma YearLength(year: int)
    ensures YearStart(year + 1) - YearStart(year) == if IsLeapYear(year) then 366 else 365
  {
    var y := year;
    var b4, b100, b400 := y % 4 == 0, y % 100 == 0, y % 400 == 0;
    assert LeapYearsBefore(y + 1) - LeapYearsBefore(y)
      == (if b4 then 1 else 0) - (if b100 then 1 else 0) + (if b400 then 1 else 0) by {
      DivStep(y, 4);
      DivStep(y, 100);
      DivStep(y, 400);
    }
    assert (b400 ==> b100) && (b100 ==> b4) by {
      DividesChain(y);
    }
  }

  lemma DividesChain(y: int)
    ensures y % 400 == 0 ==> y % 100 == 0
    ensures y % 100 == 0 ==> y % 4 == 0
  {
    if y % 400 == 0 {
      var k := y / 400;
      assert y == 100 * (4 * k) by { assert y == 400 * k + y % 400; }
      MultipleMod(y, 4 * k, 100);
    }
    if y % 100 == 0 {
      var k := y / 100;
      assert y == 4 * (25 * k) by { assert y == 100 * k + y % 100; }
      MultipleMod(y, 25 * k, 4);
    }
  }

  lemma MultipleMod(y: int, k: int, d: int)
    requires d == 4 || d == 100
    requires y == d * k
    ensures y % d == 0
  {
    if d == 4 {
      assert y == 4 * (y / 4) + y % 4;
    } else {
      assert y == 100 * (y / 100) + y % 100;
    }
  }

  /** Going back one from `y` lowers the quotient by `d` exactly when `d` divides `y`. */
  lemma DivStep(y: int, d: int)
    requires d == 4 || d == 100 || d == 400
    ensures y / d - (y - 1) / d == if y % d == 0 then 1 else 0
  {
    if d == 4 {
      assert y == 4 * (y / 4) + y % 4;
    } else if d == 100 {
      assert y == 100 * (y / 100) + y % 100;
    } else {
      assert y == 400 * (y / 400) + y % 400;
    }
  }

  /** The first of the next month is `DaysInMonth` days after the first of this one. */
  lemma MonthLength(year: int, month: int)
    requires 1 <= month <= 12
    ensures month < 12 ==> EpochDay(year, month + 1, 1) - EpochDay(year, month, 1) == DaysInMonth(year, month)
    ensures month == 12 ==> EpochDay(year + 1, 1, 1) - EpochDay(year, 12, 1) == 31
  {
    if month == 12 {
      YearLength(year);
    }
  }

  // ----------------------------------------------------------------- periods

  /** A report's time range, both ends included (`findByTimestampBetween`). */
  datatype Period = Period(start: int, end: int)

  function StartOfDay(day: int): int
  {
    day * SecondsPerDay
  }

  function EndOfDay(day: int): int
  {
    day * SecondsPerDay + SecondsPerDay - 1
  }

  /** `generateDailyReport`'s range: midnight to the day's last second. */
  function DailyPeriod(day: int): (p: Period)
    ensures p.end - p.start + 1 == SecondsPerDay
    ensures p.start / SecondsPerDay == day && p.end / SecondsPerDay == day
  {
    Period(StartOfDay(day), EndOfDay(day))
  }

  /** `generateWeeklyReport`'s range: `weekStart` at midnight through `weekStart + 6` at its end. */
  function WeeklyPeriod(weekStart: int): (p: Period)
    ensures p.end - p.start + 1 == 7 * SecondsPerDay
    ensures p.start == DailyPeriod(weekStart).start && p.end == DailyPeriod(weekStart + 6).end
  {
    Period(StartOfDay(weekStart), EndOfDay(weekStart + 6))
  }

  /** The month after `month` of `year`, as `plusMonths(1)` on the first of the month. */
  function NextMonth(year: int, month: int): (r: (int, int))
    requires 1 <= month <= 12
    ensures 1 <= r.1 <= 12
  {
    if month == 12 then (year + 1, 1) else (year, month + 1)
  }

  /**
   * `generateMonthlyReport`'s range: the 1st at midnight through the day
   * before the next month's 1st; an invalid month is `LocalDate.of`'s
   * exception.
   */
  function MonthlyPeriod(year: int, month: int): (r: Result<Period>)
    ensures r.Err? <==> !(1 <= month <= 12)
    ensures r.Ok? ==> r.value.start == StartOfDay(EpochDay(year, month, 1))
  {
    if !(1 <= month <= 12) then Err(IllegalArgument("Invalid value for MonthOfYear (valid values 1 - 12): " + IntToString(month)))
    else
      var first := EpochDay(year, month, 1);
      var next := NextMonth(year, month);
      var last := EpochDay(next.0, next.1, 1) - 1;
      Ok(Period(StartOfDay(first), EndOfDay(last)))
  }

  /** A month's range covers exactly its days, and the next month's range starts the second after it ends. */
  lemma MonthlyPeriodSpan(year: int, month: int)
    requires 1 <= month <= 12
    ensures var p := MonthlyPeriod(year, month).value;
      p.end - p.start + 1 == DaysInMonth(year, month) * SecondsPerDay
    ensures var next := NextMonth(year, month);
      MonthlyPeriod(next.0, next.1).value.start == MonthlyPeriod(year, month).value.end + 1
  {
    MonthLength(year, month);
  }

  // ---------------------------------------------------------------- groupings

  function TypeName(t: MessageType): string
  {
    match t
    case TEXT => "TEXT"
    case IMAGE => "IMAGE"
    case FILE => "FILE"
    case SYSTEM => "SYSTEM"
    case ANNOUNCEMENT => "ANNOUNCEMENT"
  }

  /** The grouping key of each message for `userActivity`: its username, or "UNKNOWN" when it has none. */
  function UserKeys(ms: seq<MessageRow>): (r: seq<string>)
    ensures |r| == |ms|
    ensures forall i :: 0 <= i < |ms| ==> r[i] == ms[i].username.GetOr(Unknown)
  {
    if ms == [] then [] else UserKeys(ms[..|ms| - 1]) + [ms[|ms| - 1].username.GetOr(Unknown)]
  }

  function TypeKeys(ms: seq<MessageRow>): (r: seq<string>)
    ensures |r| == |ms|
    ensures forall i :: 0 <= i < |ms| ==> r[i] == TypeName(ms[i].messageType)
  {
    if ms == [] then [] else TypeKeys(ms[..|ms| - 1]) + [TypeName(ms[|ms| - 1].messageType)]
  }

  function HourKeys(ms: seq<MessageRow>): (r: seq<int>)
    ensures |r| == |ms|
    ensures forall i :: 0 <= i < |ms| ==> r[i] == HourOf(ms[i].timestamp)
  {
    if ms == [] then [] else HourKeys(ms[..|ms| - 1]) + [HourOf(ms[|ms| - 1].timestamp)]
  }

  function RoomKeys(ms: seq<MessageRow>): (r: seq<int>)
    ensures |r| == |ms|
    ensures forall i :: 0 <= i < |ms| ==> r[i] == ms[i].roomId
  {
    if ms == [] then [] else RoomKeys(ms[..|ms| - 1]) + [ms[|ms| - 1].roomId]
  }

  /**
   * `groupingBy(key, counting())`: one group per key that occurs, counting
   * its occurrences, so the counts sum to the number of keys.
   */
  function GroupCount<K>(keys: seq<K>): (groups: map<K, nat>)
    ensures groups.Keys == set k | k in keys
    ensures Total(groups) == |keys|
  {
    BumpAllKeys(map[], keys);
    TotalBumpAll(keys);
    BumpAll(map[], keys)
  }

  /** Each group counts the occurrences of its key. */
  lemma GroupCountGet<K>(keys: seq<K>, k: K)
    ensures Get(GroupCount(keys), k) == multiset(keys)[k]
  {
    BumpAllCounts(map[], keys, k);
  }

  /**
   * The contents handed to the topic statistics.  The filter compares the
   * string "SYSTEM" with the message's enum type, which is never equal, so
   * it removes nothing; contents are never null here.
   */
  function TopicInputsAsWritten(ms: seq<MessageRow>): (r: seq<string>)
    ensures |r| == |ms|
    ensures forall i :: 0 <= i < |ms| ==> r[i] == ms[i].content
  {
    if ms == [] then [] else TopicInputsAsWritten(ms[..|ms| - 1]) + [ms[|ms| - 1].content]
  }

  /** The contents of the non-SYSTEM messages, as the filter's comment intends. */
  function TopicInputs(ms: seq<MessageRow>): (r: seq<string>)
    ensures |r| <= |ms|
  {
    if ms == [] then []
    else
      var last := ms[|ms| - 1];
      TopicInputs(ms[..|ms| - 1]) + (if last.messageType == SYSTEM then [] else [last.content])
  }

  /** The intended filter keeps exactly the contents of the messages that are not SYSTEM, in order. */
  lemma {:induction false} TopicInputsExcludeSystem(ms: seq<MessageRow>)
    ensures forall c :: c in TopicInputs(ms) ==> exists i :: 0 <= i < |ms| && ms[i].messageType != SYSTEM && ms[i].content == c
    ensures forall i :: 0 <= i < |ms| && ms[i].messageType != SYSTEM ==> ms[i].content in TopicInputs(ms)
    ensures (forall i :: 0 <= i < |ms| ==> ms[i].messageType != SYSTEM) ==> TopicInputs(ms) == TopicInputsAsWritten(ms)
  {
    if ms != [] {
      var init := ms[..|ms| - 1];
      TopicInputsExcludeSystem(init);
      forall c | c in TopicInputs(ms)
        ensures exists i :: 0 <= i < |ms| && ms[i].messageType != SYSTEM && ms[i].content == c
      {
        if c in TopicInputs(init) {
          var i :| 0 <= i < |init| && init[i].messageType != SYSTEM && init[i].content == c;
          assert ms[i] == init[i];
        } else {
          assert ms[|ms| - 1].messageType != SYSTEM && ms[|ms| - 1].content == c;
        }
      }
      forall i | 0 <= i < |ms| && ms[i].messageType != SYSTEM
        ensures ms[i].content in TopicInputs(ms)
      {
        if i < |init| {
          assert init[i] == ms[i];
        }
      }
    }
  }

  /** A period with one SYSTEM notice: the filter as written hands it to the topic statistics. */
  lemma SystemNoticeReachesTopics()
    ensures var notice := MessageRow(1, 1, None, Some("SYSTEM"), Some("시스템"), "alice님이 입장했습니다", 0, SYSTEM, false, None);
      TopicInputsAsWritten([notice]) == ["alice님이 입장했습니다"] && TopicInputs([notice]) == []
  {
    var notice := MessageRow(1, 1, None, Some("SYSTEM"), Some("시스템"), "alice님이 입장했습니다", 0, SYSTEM, false, None);
    assert [notice][..0] == [];
  }

  // ------------------------------------------------------------ most active

  /**
   * `entrySet().stream().max(comparingByValue())` over a `HashMap`, as the
   * report does for the hour map and the summary for the user map: an entry
   * of the map whose count no other key beats. Among equal counts `max`
   * keeps the one the map's iteration order meets first; that order
   * depends on the keys' hash buckets, and the model leaves it open.
   */
  method MostActive<K>(activity: map<K, nat>) returns (r: Option<Entry<K>>)
    ensures r.None? <==> activity == map[]
    ensures r.Some? ==> r.value.key in activity && r.value.count == activity[r.value.key]
    ensures r.Some? ==> forall k :: k in activity ==> activity[k] <= r.value.count
  {
    var s := EntriesOf(activity);
    if s == [] {
      return None;
    }
    r := Some(s[FirstMax(s)]);
    forall k | k in activity ensures activity[k] <= r.value.count {
      assert Entry(k, activity[k] as int) in s;
    }
  }

  // ------------------------------------------------------------------ reports

  /** The groupings a report holds when its period has messages. */
  datatype Details = Details(
    userActivity: map<string, nat>,
    messageTypeStats: map<string, nat>,
    hourlyActivity: map<int, nat>,
    topicInputs: seq<string>,
    roomActivity: map<int, nat>)

  datatype PeriodReport = PeriodReport(
    reportType: string,
    period: Period,
    totalMessages: nat,
    details: Option<Details>,
    mostActiveHour: Option<Entry<int>>,
    summary: string)

  /** `findByTimestampBetween(start, end)`: the stored messages inside the range, ends included. */
  function InPeriod(history: seq<MessageRow>, p: Period): (r: seq<MessageRow>)
    ensures |r| <= |history|
    ensures forall m :: m in r <==> m in history && p.start <= m.timestamp <= p.end
  {
    if history == [] then []
    else
      var last := history[|history| - 1];
      InPeriod(history[..|history| - 1], p) + (if p.start <= last.timestamp <= p.end then [last] else [])
  }

  function ReportTypeName(reportType: string): string
  {
    if reportType == "DAILY" then "일일"
    else if reportType == "WEEKLY" then "주간"
    else if reportType == "MONTHLY" then "월간"
    else reportType
  }

  /** The first three lines of every summary: the report type, the message total and the number of users. */
  function SummaryHeading(reportType: string, totalMessages: nat, users: nat): string
  {
    "\U{1F4CA} " + ReportTypeName(reportType) + " 보고서\n"
    + "• 총 메시지 수: " + NatToString(totalMessages) + "개\n"
    + "• 참여 사용자: " + NatToString(users) + "명\n"
  }

  /** The summary line for the most active hour. */
  function HourLine(hour: Entry<int>): string
  {
    "• 가장 활발한 시간: " + IntToString(hour.key) + "시 (" + IntToString(hour.count) + "개 메시지)\n"
  }

  /** The summary line for the most active user. */
  function UserLine(user: Entry<string>): string
  {
    "• 가장 활발한 사용자: " + user.key + " (" + IntToString(user.count) + "개 메시지)\n"
  }

  /** Text placed between two others occurs in the whole. */
  lemma ContainsMiddle(a: string, b: string, c: string)
    ensures Contains(a + b + c, b)
  {
    assert OccursAt(a + b + c, b, |a|) by {
      assert (a + b + c)[|a|..|a| + |b|] == b;
    }
  }

  /**
   * `generateSummary`'s text: the heading, then a line for the most active
   * hour and one for the most active user, each only when there is one.
   */
  function SummaryText(reportType: string, totalMessages: nat, users: nat, hour: Option<Entry<int>>, user: Option<Entry<string>>): (text: string)
    ensures SummaryHeading(reportType, totalMessages, users) <= text
    ensures hour.None? && user.None? ==> text == SummaryHeading(reportType, totalMessages, users)
    ensures hour.Some? ==> Contains(text, "• 가장 활발한 시간: " + IntToString(hour.value.key) + "시 (" + IntToString(hour.value.count) + "개 메시지)\n")
    ensures user.Some? ==> Contains(text, "• 가장 활발한 사용자: " + user.value.key + " (" + IntToString(user.value.count) + "개 메시지)\n")
    ensures |text| == |SummaryHeading(reportType, totalMessages, users)|
      + (if hour.Some? then |HourLine(hour.value)| else 0) + (if user.Some? then |UserLine(user.value)| else 0)
  {
    var heading := SummaryHeading(reportType, totalMessages, users);
    var h := if hour.Some? then HourLine(hour.value) else "";
    var u := if user.Some? then UserLine(user.value) else "";
    ContainsMiddle(heading, h, u);
    ContainsMiddle(heading + h, u, "");
    assert heading + h + u + "" == heading + h + u;
    heading + h + u
  }

  /**
   * The groupings of a non-empty period: each counts every message of the
   * period once, so its counts sum to the number of messages, and the
   * hourly grouping's keys are hours of the day.
   */
  function DetailsOf(ms: seq<MessageRow>): (d: Details)
    ensures Total(d.userActivity) == |ms| && Total(d.messageTypeStats) == |ms|
    ensures Total(d.hourlyActivity) == |ms| && Total(d.roomActivity) == |ms|
    ensures forall h :: h in d.hourlyActivity ==> 0 <= h < 24
  {
    var hours := HourKeys(ms);
    assert forall h :: h in hours ==> 0 <= h < 24;
    Details(GroupCount(UserKeys(ms)), GroupCount(TypeKeys(ms)), GroupCount(hours), TopicInputs(ms), GroupCount(RoomKeys(ms)))
  }

  /** A user's count is the number of their messages, and messages without a username count under "UNKNOWN". */
  lemma DetailsUsers(ms: seq<MessageRow>, u: string)
    ensures Get(DetailsOf(ms).userActivity, u) == multiset(UserKeys(ms))[u]
    ensures (exists i :: 0 <= i < |ms| && ms[i].username.None?) ==> Unknown in DetailsOf(ms).userActivity
  {
    var users := UserKeys(ms);
    GroupCountGet(users, u);
    if exists i :: 0 <= i < |ms| && ms[i].username.None? {
      var i :| 0 <= i < |ms| && ms[i].username.None?;
      assert users[i] == Unknown;
    }
  }

  /** A period with messages has an hour and a user to name. */
  lemma PeriodGroupsNonEmpty(ms: seq<MessageRow>)
    requires ms != []
    ensures DetailsOf(ms).hourlyActivity != map[] && DetailsOf(ms).userActivity != map[]
  {
    assert HourKeys(ms)[0] in DetailsOf(ms).hourlyActivity;
    assert UserKeys(ms)[0] in DetailsOf(ms).userActivity;
  }

  /**
   * `generateReportForPeriod`: an empty period gets the fixed summary and
   * no groupings; otherwise the groupings of the period's messages, a most
   * active hour, and the summary naming that hour and a most active user.
   */
  method GenerateReportForPeriod(history: seq<MessageRow>, p: Period, reportType: string) returns (r: PeriodReport)
    ensures var ms := InPeriod(history, p);
      && r.reportType == reportType && r.period == p && r.totalMessages == |ms|
      && (ms == [] ==> r.details == None && r.mostActiveHour == None && r.summary == NoMessagesSummary)
      && (ms != [] ==> r.details == Some(DetailsOf(ms)) && r.mostActiveHour.Some?)
    ensures r.details.Some? && r.mostActiveHour.Some? ==> var hourly := r.details.value.hourlyActivity; var e := r.mostActiveHour.value;
      && e.key in hourly && e.count == hourly[e.key] && 0 <= e.key < 24
      && (forall h :: h in hourly ==> hourly[h] <= e.count)
    ensures r.details.Some? ==> var d := r.details.value;
      exists u :: u in d.userActivity && (forall v :: v in d.userActivity ==> d.userActivity[v] <= d.userActivity[u])
        && r.summary == SummaryText(reportType, r.totalMessages, |d.userActivity|, r.mostActiveHour, Some(Entry(u, d.userActivity[u] as int)))
  {
    var ms := InPeriod(history, p);
    if ms == [] {
      return PeriodReport(reportType, p, 0, None, None, NoMessagesSummary);
    }
    var d := DetailsOf(ms);
    PeriodGroupsNonEmpty(ms);
    var hour := MostActive(d.hourlyActivity);
    var user := MostActive(d.userActivity);
    r := PeriodReport(reportType, p, |ms|, Some(d), hour, SummaryText(reportType, |ms|, |d.userActivity|, hour, user));
    assert user.value.key in d.userActivity;
  }

  method GenerateDailyReport(history: seq<MessageRow>, day: int) returns (r: PeriodReport)
    ensures r.period == DailyPeriod(day) && r.reportType == "DAILY"
    ensures r.totalMessages == |InPeriod(history, DailyPeriod(day))|
  {
    r := GenerateReportForPeriod(history, DailyPeriod(day), "DAILY");
  }

  method GenerateWeeklyReport(history: seq<MessageRow>, weekStart: int) returns (r: PeriodReport)
    ensures r.period == WeeklyPeriod(weekStart) && r.reportType == "WEEKLY"
    ensures r.totalMessages == |InPeriod(history, WeeklyPeriod(weekStart))|
  {
    r := GenerateReportForPeriod(history, WeeklyPeriod(weekStart), "WEEKLY");
  }

  method GenerateMonthlyReport(history: seq<MessageRow>, year: int, month: int) returns (r: Result<PeriodReport>)
    ensures r.Err? <==> MonthlyPeriod(year, month).Err?
    ensures r.Ok? ==> r.value.period == MonthlyPeriod(year, month).value && r.value.reportType == "MONTHLY"
    ensures r.Ok? ==> r.value.totalMessages == |InPeriod(history, MonthlyPeriod(year, month).value)|
  {
    var p := MonthlyPeriod(year, month);
    if p.Err? {
      return Err(p.error);
    }
    var report := GenerateReportForPeriod(history, p.value, "MONTHLY");
    r := Ok(report);
  }

  /** A user's own report: their messages of the range, by hour and by room when there are any. */
  datatype UserReport = UserReport(
    username: string,
    period: Period,
    totalMessages: nat,
    groupings: Option<(map<int, nat>, map<int, nat>)>)

  /** `findByUsernameAndTimestampBetween`. */
  function SentBy(ms: seq<MessageRow>, username: string): (r: seq<MessageRow>)
    ensures |r| <= |ms|
    ensures forall m :: m in r <==> m in ms && m.username == Some(username)
  {
    if ms == [] then []
    else
      var last := ms[|ms| - 1];
      SentBy(ms[..|ms| - 1], username) + (if last.username == Some(username) then [last] else [])
  }

  /** `generateUserReport`: both groupings count each of the user's messages once. */
  function GenerateUserReport(history: seq<MessageRow>, username: string, p: Period): (r: UserReport)
    ensures var ms := SentBy(InPeriod(history, p), username);
      && r.totalMessages == |ms| && (r.groupings.None? <==> ms == [])
      && (r.groupings.Some? ==> Total(r.groupings.value.0) == |ms| && Total(r.groupings.value.1) == |ms|)
  {
    var ms := SentBy(InPeriod(history, p), username);
    if ms == [] then UserReport(username, p, 0, None)
    else
      UserReport(username, p, |ms|, Some((GroupCount(HourKeys(ms)), GroupCount(RoomKeys(ms)))))
  }
}
