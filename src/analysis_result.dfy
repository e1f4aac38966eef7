/**
 * The `AnalysisResult` entity: one stored analysis of a room over a period,
 * its type, and the factories the services create results with.
 */
module AnalysisResults {
  import opened Wrappers

  datatype AnalysisType =
    | KEYWORD_FREQUENCY
    | TIME_PATTERN
    | USER_PARTICIPATION
    | EMOTION_ANALYSIS
    | TOPIC_CLASSIFICATION
    | DAILY_SUMMARY
    | WEEKLY_SUMMARY
    | MONTHLY_SUMMARY
  {
    /** `isRealtimeAnalysis`. */
    predicate IsRealtime()
    {
      this == KEYWORD_FREQUENCY || this == TIME_PATTERN || this == USER_PARTICIPATION
    }

    /** `isSummaryAnalysis`: never a realtime type. */
    predicate IsSummary(): (b: bool)
      ensures b ==> !IsRealtime()
    {
      this == DAILY_SUMMARY || this == WEEKLY_SUMMARY || this == MONTHLY_SUMMARY
    }

    /** `isAdvancedAnalysis`: exactly the types that are neither realtime nor summaries. */
    predicate IsAdvanced(): (b: bool)
      ensures b <==> !IsRealtime() && !IsSummary()
    {
      this == EMOTION_ANALYSIS || this == TOPIC_CLASSIFICATION
    }
  }

  /**
   * A result as its constructor builds it; `id` stays absent until the
   * repository assigns one.
   */
  datatype AnalysisRow = AnalysisRow(
    id: Option<int>,
    roomId: int,
    analysisType: AnalysisType,
    analysisData: string,
    messageCount: int,
    participantCount: int,
    periodStart: int,
    periodEnd: int)

  /** The five-argument constructor: both counts start at zero. */
  function NewResult(roomId: int, analysisType: AnalysisType, analysisData: string, periodStart: int, periodEnd: int): (r: AnalysisRow)
    ensures r.id == None && r.roomId == roomId && r.analysisType == analysisType
    ensures r.analysisData == analysisData && r.periodStart == periodStart && r.periodEnd == periodEnd
    ensures r.messageCount == 0 && r.participantCount == 0
  {
    AnalysisRow(None, roomId, analysisType, analysisData, 0, 0, periodStart, periodEnd)
  }

  /** `createKeywordAnalysis`: the only factory that takes both counts. */
  function CreateKeywordAnalysis(roomId: int, analysisData: string, messageCount: int, participantCount: int,
                                 periodStart: int, periodEnd: int): (r: AnalysisRow)
    ensures r.id == None && r.analysisType == KEYWORD_FREQUENCY && r.roomId == roomId
    ensures r.messageCount == messageCount && r.participantCount == participantCount
    ensures r.analysisData == analysisData && r.periodStart == periodStart && r.periodEnd == periodEnd
  {
    AnalysisRow(None, roomId, KEYWORD_FREQUENCY, analysisData, messageCount, participantCount, periodStart, periodEnd)
  }

  function CreateTimePatternAnalysis(roomId: int, analysisData: string, periodStart: int, periodEnd: int): (r: AnalysisRow)
    ensures r == NewResult(roomId, TIME_PATTERN, analysisData, periodStart, periodEnd)
    ensures r.messageCount == 0 && r.participantCount == 0
  {
    NewResult(roomId, TIME_PATTERN, analysisData, periodStart, periodEnd)
  }

  /** `createParticipationAnalysis`: the participant count is set after construction. */
  function CreateParticipationAnalysis(roomId: int, analysisData: string, participantCount: int,
                                       periodStart: int, periodEnd: int): (r: AnalysisRow)
    ensures r.analysisType == USER_PARTICIPATION && r.participantCount == participantCount && r.messageCount == 0
    ensures r.id == None && r.roomId == roomId && r.analysisData == analysisData
    ensures r.periodStart == periodStart && r.periodEnd == periodEnd
  {
    NewResult(roomId, USER_PARTICIPATION, analysisData, periodStart, periodEnd).(participantCount := participantCount)
  }

  function CreateTopicAnalysis(roomId: int, analysisData: string, periodStart: int, periodEnd: int): (r: AnalysisRow)
    ensures r == NewResult(roomId, TOPIC_CLASSIFICATION, analysisData, periodStart, periodEnd)
    ensures r.messageCount == 0 && r.participantCount == 0
  {
    NewResult(roomId, TOPIC_CLASSIFICATION, analysisData, periodStart, periodEnd)
  }

  function CreateEmotionAnalysis(roomId: int, analysisData: string, periodStart: int, periodEnd: int): (r: AnalysisRow)
    ensures r == NewResult(roomId, EMOTION_ANALYSIS, analysisData, periodStart, periodEnd)
    ensures r.messageCount == 0 && r.participantCount == 0
  {
    NewResult(roomId, EMOTION_ANALYSIS, analysisData, periodStart, periodEnd)
  }

  /** `equals`: results are compared by id alone, so two unsaved results are equal. */
  predicate SameResult(a: AnalysisRow, b: AnalysisRow): (eq: bool)
    ensures eq <==> a.id == b.id
  {
    a.id == b.id
  }

  /** A loaded result whose counts and data the services may overwrite. */
  class AnalysisResult {
    var row: AnalysisRow

    constructor(row: AnalysisRow)
      ensures this.row == row
    {
      this.row := row;
    }

    /** `updateCounts`: exactly the two counts change. */
    method UpdateCounts(messageCount: int, participantCount: int)
      modifies this
      ensures row == old(row).(messageCount := messageCount, participantCount := participantCount)
    {
      row := row.(messageCount := messageCount, participantCount := participantCount);
    }

    /** `updateAnalysisData`: only the data changes. */
    method UpdateAnalysisData(analysisData: string)
      modifies this
      ensures row == old(row).(analysisData := analysisData)
    {
      row := row.(analysisData := analysisData);
    }
  }

  /** Updating the counts leaves a result equal to what it was. */
  lemma UpdateKeepsIdentity(r: AnalysisRow, messageCount: int, participantCount: int, analysisData: string)
    ensures SameResult(r, r.(messageCount := messageCount, participantCount := participantCount))
    ensures SameResult(r, r.(analysisData := analysisData))
  {
  }
}
