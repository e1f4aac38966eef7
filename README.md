# FlowChat core, modelled in Dafny

FlowChat is a multi-room chat application. It has a Spring backend and a React client. This project models the bookkeeping at the heart of it and proves properties of that model:

- **Per-room statistics** (`ChatAnalysisService`): the keyword extractor, the keyword, participation and hourly tables that every chat message updates, their read views and period views, clearing, and the rebuild that replays a room's history.
- **Analysers**: the dictionary topic and emotion classifier (`TopicClassificationService`), the LLM service's local helpers and fallback (`LlmAnalysisService`), and the small readers for the stored analysis JSON (`extractKeywordsFromJson`, `extractJsonValue`).
- **Push debouncing** (`AnalysisNotificationService`): the per-room pending count and last-push time, the 10-message / 10-second rule, the periodic sweep, and the order of a full update.
- **Presence** (`WebSocketEventHandler` and `MessageService.roomUsers`): session, room and user maps on connect, room entry, room exit and disconnect, and the online and offline events, which only members produce.
- **Membership and rooms**: `ChatRoomMember` and `ChatRoom` entities, the member repository's queries, `ChatRoomMemberService`, and `ChatRoomService`'s guard chains, listings and start-up recount.
- **Messages, results and users**: `ChatMessage` edit and delete, the `AnalysisResult` type partition and factories, and `UserService`'s registration, login, refresh, profile and activation rules.
- **Conversation sessions** (`ConversationFlowService`), **reports** (`ReportService`) and **history paging** (`MessageHistoryController`).
- **Client state**: `chatStore`, `notificationStore`, `analysisStore`, `themeStore`, and the `MessageList` grouping and typing text.

## How the model is built

- **Objects become classes.** Code that updates an object in place is a Dafny `class`: entities, repositories, services and the presence handler. Each method has a `modifies` clause and states its whole new state. Java maps become `map` fields, and lists become `seq` fields.
- **Entities have two forms.** A JPA entity is a class with the source's mutators, plus a row datatype for what the repository stores. A service loads a row into an entity, calls the mutator, and saves the row back, as the source does.
- **Guard chains are functions.** Each refusal function (`JoinRefusal`, `LoginRefusal`, …) returns the error the chain throws, in the source's order. The method's contract ties its `Err` result and its unchanged state to that function.
- **Pure code stays pure.** Stream pipelines, the client stores and the report groupings are functions over datatypes. Loops in the source are methods with loop invariants, proved against a specification function.
- **Outside inputs are parameters.** The clock (`now`, in seconds), the LLM's answer, the user table (a map from id to display name), token validity and the password encoder are all passed in. A broadcast is an entry appended to an outbox sequence.
- **Unspecified order is left open.** A Java `HashMap` iterates in no order the code relies on. Views that pick or sort entries leave ties open instead of fixing one order. The one exception is the keyword extractor (see `KeywordExtraction.ExtractKeywords` under "Left out").
- **Where one might expect more, the model follows the code:**
  - Presence keeps one session per room and user, and the last writer wins. There is no set of sessions per user.
  - Disconnecting one session removes the user from every room recorded for them, even while another session of theirs is still connected.
  - `sendMessage` never sets the sender's username or display name. A replayed message without a name therefore adds keywords but no participation or hour.
  - The analysis cache is never evicted through Spring's proxy, so the model claims nothing about cache coherence.

## Model

| member | source | states |
|---|---|---|
| AnalysisController.CountInRoom | backend/src/main/java/com/flowchat/controller/ChatAnalysisController.java:296 | the room's stored result count never exceeds the number of stored results |
| AnalysisController.CountOfType | backend/src/main/java/com/flowchat/controller/ChatAnalysisController.java:297-302 | a per-type count never exceeds the number of stored results |
| AnalysisController.RealtimeCountsBounded | backend/src/main/java/com/flowchat/controller/ChatAnalysisController.java:297-302 | the keyword, time-pattern and participation counts together are at most the room's total count, since the three types are distinct |
| AnalysisController.GetAnalysisStats | backend/src/main/java/com/flowchat/controller/ChatAnalysisController.java:289-321 | the total and the three per-type counts are the room's stored results overall and of each type; `hasRealtimeData` holds iff the live participation table has at least one user for the room; the three per-type counts sum to at most the total |
| AnalysisController.TopicResultsNewestFirst | backend/src/main/java/com/flowchat/controller/ChatAnalysisController.java:337-339 | exactly the stored topic classifications of the given room, as many as are stored |
| AnalysisController.TopicResultsOrder | backend/src/main/java/com/flowchat/controller/ChatAnalysisController.java:337-339 | newest first: the i-th result is a stored topic classification of the room with exactly i of them stored after it |
| AnalysisController.Counted | backend/src/main/java/com/flowchat/controller/ChatAnalysisController.java:352 | a data string is counted iff it contains the `"topic":` marker |
| AnalysisController.Values | backend/src/main/java/com/flowchat/controller/ChatAnalysisController.java:353-354 | each counted data string yields the value read by `extractJsonValue` for the key |
| AnalysisController.DataOf | backend/src/main/java/com/flowchat/controller/ChatAnalysisController.java:350 | the data strings are the inspected results' analysis data, in order |
| AnalysisController.TallyStep | backend/src/main/java/com/flowchat/controller/ChatAnalysisController.java:348-360 | one pass of the loop: a data string with the marker adds one to the count of its value, any other leaves the distribution unchanged |
| AnalysisController.TallyTopics | backend/src/main/java/com/flowchat/controller/ChatAnalysisController.java:343-362 | the loop leaves the topic map and the emotion map equal to the topic and emotion distributions of the inspected data |
| AnalysisController.GetTopicAnalysis | backend/src/main/java/com/flowchat/controller/ChatAnalysisController.java:330-376 | at most the newest fifty topic classifications of the room are inspected; `totalAnalyzedMessages` is their number; the two maps are the distributions of their data |
| AnalysisController.DistributionTotal | backend/src/main/java/com/flowchat/controller/ChatAnalysisController.java:348-368 | each distribution sums to the number of counted results, which is at most `totalAnalyzedMessages` |
| AnalysisController.DistributionKeys | backend/src/main/java/com/flowchat/controller/ChatAnalysisController.java:352-357 | a distribution's keys are exactly the values read from the counted results |
| AnalysisResults.AnalysisType.IsSummary | backend/src/main/java/com/flowchat/entity/AnalysisResult.java:181-185 | a summary type is never a realtime type |
| AnalysisResults.AnalysisType.IsAdvanced | backend/src/main/java/com/flowchat/entity/AnalysisResult.java:175-190 | the advanced types are exactly those that are neither realtime nor summaries, so the three predicates partition the types |
| AnalysisResults.NewResult | backend/src/main/java/com/flowchat/entity/AnalysisResult.java:73-82 | the five-argument constructor keeps room, type, data and period, leaves the id unset and starts both counts at zero |
| AnalysisResults.CreateKeywordAnalysis | backend/src/main/java/com/flowchat/entity/AnalysisResult.java:193-198 | a keyword-frequency result that carries both given counts |
| AnalysisResults.CreateTimePatternAnalysis | backend/src/main/java/com/flowchat/entity/AnalysisResult.java:200-203 | a time-pattern result with both counts zero |
| AnalysisResults.CreateParticipationAnalysis | backend/src/main/java/com/flowchat/entity/AnalysisResult.java:205-211 | a participation result whose participant count is the given one and whose message count is zero |
| AnalysisResults.CreateTopicAnalysis | backend/src/main/java/com/flowchat/entity/AnalysisResult.java:213-216 | a topic-classification result with both counts zero |
| AnalysisResults.CreateEmotionAnalysis | backend/src/main/java/com/flowchat/entity/AnalysisResult.java:218-221 | an emotion-analysis result with both counts zero |
| AnalysisResults.SameResult | backend/src/main/java/com/flowchat/entity/AnalysisResult.java:224-229 | two results are equal iff their ids are equal, so two unsaved results are equal |
| AnalysisResults.AnalysisResult.constructor | backend/src/main/java/com/flowchat/entity/AnalysisResult.java:84-95 | the object holds the given row |
| AnalysisResults.AnalysisResult.UpdateCounts | backend/src/main/java/com/flowchat/entity/AnalysisResult.java:170-173 | exactly the two counts change |
| AnalysisResults.AnalysisResult.UpdateAnalysisData | backend/src/main/java/com/flowchat/entity/AnalysisResult.java:166-168 | only the data changes |
| AnalysisResults.UpdateKeepsIdentity | backend/src/main/java/com/flowchat/entity/AnalysisResult.java:166-173 | updating the counts or the data leaves a result equal to what it was |
| AnalysisStore.Initial | frontend/src/store/analysisStore.js:5-18 | the store starts with no panels, no stats, an empty history, no error, not loading and no realtime data |
| AnalysisStore.KeywordPairs | frontend/src/store/analysisStore.js:152-155 | one entry per label, pairing the label with the count at the same index, or none when the data list is shorter |
| AnalysisStore.UserPairs | frontend/src/store/analysisStore.js:168-171 | one entry per label, pairing the user label with the count at the same index |
| AnalysisStore.LeadingDigits | frontend/src/store/analysisStore.js:185 | the number of leading decimal digits, the prefix `parseInt` reads |
| AnalysisStore.HourPairs | frontend/src/store/analysisStore.js:184-187 | one entry per label, pairing the hour read from the label's leading digits with the count at the same index |
| AnalysisStore.ParseIntPrefixOfToString | frontend/src/store/analysisStore.js:185 | an integer written in decimal and followed by a non-digit reads back as that integer |
| AnalysisStore.SignedDigitsOf | frontend/src/store/analysisStore.js:185 | a sign and a digit run followed by a non-digit read back as the run's value with that sign |
| AnalysisStore.LeadingDigitsOf | frontend/src/store/analysisStore.js:185 | the digit prefix of a digit run followed by a non-digit is the whole run |
| AnalysisStore.UpdateKeywordData | frontend/src/store/analysisStore.js:148-161 | the keyword panel is replaced by the room, the label/count pairs and the sum of the counts, stamped with the update's time; nothing else changes |
| AnalysisStore.UpdateParticipationData | frontend/src/store/analysisStore.js:164-177 | the participation panel is replaced by one entry per label and as many users as labels, stamped with the update's time; nothing else changes |
| AnalysisStore.UpdateHourlyActivityData | frontend/src/store/analysisStore.js:180-192 | the hourly panel is replaced by the parsed hour and count of each label, stamped with the update's time; nothing else changes |
| AnalysisStore.KeywordPanelMatchesPush | frontend/src/store/analysisStore.js:148-161 | a keyword push built from a top-keyword list shows exactly those keywords with their counts, in order, and totals their counts |
| AnalysisStore.HourLabelsRoundTrip | frontend/src/store/analysisStore.js:184-187 | every hour label the server writes (the hour followed by `시`) reads back as the hour it was written from |
| AnalysisStore.FetchAnalysisHistory | frontend/src/store/analysisStore.js:109-129 | loading ends; a first page replaces the history and a later page is appended to it; a failure keeps the history and records its message; nothing else changes |
| AnalysisStore.LoadPagesConcat | frontend/src/store/analysisStore.js:114-121 | loading pages 0, 1, ..., k in order leaves the history equal to their contents concatenated in order |
| AnalysisStore.FetchAnalysisStats | frontend/src/store/analysisStore.js:94-106 | on success the stats and the realtime flag come from the reply and nothing else changes; on failure only the error is set |
| AnalysisStore.ClearAnalysisData | frontend/src/store/analysisStore.js:198-208 | every field is back to its initial value, from any state |
| Messages.HourOf | backend/src/main/java/com/flowchat/service/ChatAnalysisService.java:270-273 | the hour a message's timestamp falls in is always in 0..23; the analysis service and the report both group by it |
| ChatAnalysis.Updated | backend/src/main/java/com/flowchat/service/ChatAnalysisService.java:251-257 | updating a room's map adds that room to the rooms present and touches no other |
| ChatAnalysis.UpdatedTwice | backend/src/main/java/com/flowchat/service/ChatAnalysisService.java:251-257 | two updates of one room are one update with both lists, in order |
| ChatAnalysis.UpdatedOnlyGrows | backend/src/main/java/com/flowchat/service/ChatAnalysisService.java:251-274 | an update changes no other room, adds to the updated room exactly the occurrences of each key in the list, and never lowers any count |
| ChatAnalysis.Passes | backend/src/main/java/com/flowchat/service/ChatAnalysisService.java:95-129 | one live message is counted for name and hour once, or twice when the fallback runs after the updates already made |
| ChatAnalysis.Fetch | backend/src/main/java/com/flowchat/service/ChatAnalysisService.java:789-797 | a repository query returns exactly the stored messages that match it, in stored order |
| ChatAnalysis.ReplayHoursFollowNames | backend/src/main/java/com/flowchat/service/ChatAnalysisService.java:807-816 | the replay counts an hour exactly when it counts a display name |
| ChatAnalysis.ResetStep | backend/src/main/java/com/flowchat/service/ChatAnalysisService.java:801-817 | one more replayed message extends the rebuilt room's counts by that message's list |
| ChatAnalysis.ResetLookup | backend/src/main/java/com/flowchat/service/ChatAnalysisService.java:782-817 | after a rebuild the room holds exactly the counts of its replay (present iff something was replayed), and every other room keeps what it held |
| ChatAnalysis.ResetIdempotent | backend/src/main/java/com/flowchat/service/ChatAnalysisService.java:779-820 | rebuilding a room twice from the same messages gives the maps of rebuilding once |
| ChatAnalysis.RebuildTwiceSame | backend/src/main/java/com/flowchat/service/ChatAnalysisService.java:779-820 | two successive rebuilds over the same messages leave identical maps |
| ChatAnalysis.ResetForgets | backend/src/main/java/com/flowchat/service/ChatAnalysisService.java:782-785 | the rebuilt room does not depend on what the room held before, and other rooms keep theirs |
| ChatAnalysis.ReplaySnoc | backend/src/main/java/com/flowchat/service/ChatAnalysisService.java:801-817 | one more replayed message adds its keywords always, and its display name and hour only when it has a display name |
| ChatAnalysis.PeriodStep | backend/src/main/java/com/flowchat/service/ChatAnalysisService.java:529-533 | the period lists of one more message are extended by its TEXT keyword candidates, its non-system display name and its non-system hour |
| ChatAnalysis.RebuildStart | backend/src/main/java/com/flowchat/service/ChatAnalysisService.java:782-785 | before the first replayed message the room is gone from all three maps |
| ChatAnalysis.RebuildStep | backend/src/main/java/com/flowchat/service/ChatAnalysisService.java:801-817 | one turn of the replay loop keeps the loop invariant: keywords always, name and hour only with a display name |
| ChatAnalysis.NamelessAddsOnlyKeywords | backend/src/main/java/com/flowchat/service/ChatAnalysisService.java:807-816 | a replayed message without a display name adds its keywords to the room but no participation and no hour |
| ChatAnalysis.RoomIds | backend/src/main/java/com/flowchat/service/ChatAnalysisService.java:825-832 | the rooms visited are exactly the rooms of non-deleted stored messages, each once |
| ChatAnalysis.RebuiltKeywordsStep | backend/src/main/java/com/flowchat/service/ChatAnalysisService.java:836-838 | rebuilding one more room resets just that room's keyword map |
| ChatAnalysis.RebuiltNamesStep | backend/src/main/java/com/flowchat/service/ChatAnalysisService.java:836-838 | rebuilding one more room resets just that room's participation map |
| ChatAnalysis.RebuiltHoursStep | backend/src/main/java/com/flowchat/service/ChatAnalysisService.java:836-838 | rebuilding one more room resets just that room's hourly map |
| ChatAnalysis.RebuiltKeywordsPerRoom | backend/src/main/java/com/flowchat/service/ChatAnalysisService.java:825-841 | after rebuilding every room a visited room holds exactly its own replay's keyword counts, and any other room keeps its map |
| ChatAnalysis.RebuiltNamesPerRoom | backend/src/main/java/com/flowchat/service/ChatAnalysisService.java:825-841 | after rebuilding every room a visited room holds exactly its own replay's participation counts, and any other room keeps its map |
| ChatAnalysis.RebuiltHoursPerRoom | backend/src/main/java/com/flowchat/service/ChatAnalysisService.java:825-841 | after rebuilding every room a visited room holds exactly its own replay's hour counts, and any other room keeps its map |
| ChatAnalysis.CountPeriodKeywords | backend/src/main/java/com/flowchat/service/ChatAnalysisService.java:528-533 | the loop counts every keyword candidate of the period's TEXT messages once per occurrence |
| ChatAnalysis.CountPeriodNames | backend/src/main/java/com/flowchat/service/ChatAnalysisService.java:575-583 | the loop counts one per non-system message with a display name, under that name |
| ChatAnalysis.CountPeriodHours | backend/src/main/java/com/flowchat/service/ChatAnalysisService.java:624-630 | the loop counts one per non-system message, under its hour |
| ChatAnalysis.PeriodHoursCountsUserMessages | backend/src/main/java/com/flowchat/service/ChatAnalysisService.java:575-630 | the hourly period counts sum to the number of non-system messages, which is the participation count plus the messages without a display name |
| ChatAnalysis.HourlyDistribution | backend/src/main/java/com/flowchat/service/ChatAnalysisService.java:1120-1131 | exactly 24 entries for hours 0..23 in order, each with the map's count for that hour or zero when absent |
| ChatAnalysis.ChatAnalysisService.constructor | backend/src/main/java/com/flowchat/service/ChatAnalysisService.java:57-59 | all three statistics maps and the stored results start empty |
| ChatAnalysis.ChatAnalysisService.UpdateKeywordStats | backend/src/main/java/com/flowchat/service/ChatAnalysisService.java:251-257 | the room's keyword map gains one per listed keyword occurrence; the other maps and the stored results are unchanged |
| ChatAnalysis.ChatAnalysisService.UpdateUserParticipation | backend/src/main/java/com/flowchat/service/ChatAnalysisService.java:262-265 | the room's count for the name goes up by one; the other maps and the stored results are unchanged |
| ChatAnalysis.ChatAnalysisService.UpdateHourlyStats | backend/src/main/java/com/flowchat/service/ChatAnalysisService.java:270-274 | the room's count for the timestamp's hour goes up by one; the other maps and the stored results are unchanged |
| ChatAnalysis.ChatAnalysisService.ApplyUpdates | backend/src/main/java/com/flowchat/service/ChatAnalysisService.java:97-105 | the three updates every analysed message makes, in the handler's order |
| ChatAnalysis.ChatAnalysisService.SaveAdvanced | backend/src/main/java/com/flowchat/service/ChatAnalysisService.java:392-424 | a topic result with the written JSON over the last minute is stored exactly when the keyword list is non-empty; nothing else changes |
| ChatAnalysis.ChatAnalysisService.PerformFallbackAnalysis | backend/src/main/java/com/flowchat/service/ChatAnalysisService.java:279-305 | the rule-based keywords, the nickname-else-username and the hour are counted, the flow places the message, the topic and emotion are the dictionary classifier's, and a result is stored only for non-empty keywords |
| ChatAnalysis.ChatAnalysisService.SaveLlm | backend/src/main/java/com/flowchat/service/ChatAnalysisService.java:310-344 | a topic result with the answer's JSON is stored exactly when the keyword list is non-empty; nothing else changes |
| ChatAnalysis.ChatAnalysisService.AnalyzeMessage | backend/src/main/java/com/flowchat/service/ChatAnalysisService.java:75-142 | a SYSTEM message changes nothing and notifies no one; any other is counted (keywords, name, hour, flow) once on success and its result stored, and the fallback's counts and result follow when reading the answer throws |
| ChatAnalysis.ChatAnalysisService.HandleAnswer | backend/src/main/java/com/flowchat/service/ChatAnalysisService.java:92-121 | an answer read without failure: its keywords, one count each for the name and the hour, the flow and the stored result |
| ChatAnalysis.ChatAnalysisService.HandleLateFailure | backend/src/main/java/com/flowchat/service/ChatAnalysisService.java:94-129 | a cast failure after the updates: the fallback counts name and hour a second time and adds the rule-based keywords after the answer's |
| ChatAnalysis.ChatAnalysisService.HandleFallback | backend/src/main/java/com/flowchat/service/ChatAnalysisService.java:125-137 | a failure before any update: only the fallback's counts, flow and stored result |
| ChatAnalysis.ChatAnalysisService.GetRoomKeywordStats | backend/src/main/java/com/flowchat/service/ChatAnalysisService.java:431-453 | at most ten of the room's keywords, a non-increasing top list of its counts; totalKeywords is the number of distinct keywords; an unknown room gives an empty list and 0 |
| ChatAnalysis.ChatAnalysisService.GetRoomUserParticipation | backend/src/main/java/com/flowchat/service/ChatAnalysisService.java:460-481 | every participant of the room with its count, sorted by non-increasing count; totalUsers is their number |
| ChatAnalysis.ChatAnalysisService.GetRoomHourlyStats | backend/src/main/java/com/flowchat/service/ChatAnalysisService.java:488-505 | the room's zero-filled 24-hour histogram, in hour order |
| ChatAnalysis.ChatAnalysisService.GetRoomKeywordStatsByPeriod | backend/src/main/java/com/flowchat/service/ChatAnalysisService.java:511-553 | the top ten of the keyword candidates counted over the period's TEXT messages, the number of distinct ones, and the period label and message count |
| ChatAnalysis.ChatAnalysisService.GetRoomUserParticipationByPeriod | backend/src/main/java/com/flowchat/service/ChatAnalysisService.java:559-602 | every display name of the period's non-system messages with its count, sorted by non-increasing count, and the period label and message count |
| ChatAnalysis.ChatAnalysisService.GetRoomHourlyStatsByPeriod | backend/src/main/java/com/flowchat/service/ChatAnalysisService.java:608-646 | the zero-filled 24-hour histogram of the period's non-system messages, and the period label and message count |
| ChatAnalysis.ChatAnalysisService.ClearRoomAnalysis | backend/src/main/java/com/flowchat/service/ChatAnalysisService.java:652-661 | the room leaves the three maps and the conversation flow; every other room and the stored results are untouched |
| ChatAnalysis.ChatAnalysisService.RebuildRoomAnalysis | backend/src/main/java/com/flowchat/service/ChatAnalysisService.java:779-820 | the room's maps are exactly the replay of its fetched TEXT, non-deleted messages (windowed only when days > 0); other rooms and the stored results are untouched |
| ChatAnalysis.ChatAnalysisService.ReplayAll | backend/src/main/java/com/flowchat/service/ChatAnalysisService.java:801-817 | the replay loop over the fetched messages leaves the maps of replaying all of them in order |
| ChatAnalysis.ChatAnalysisService.ReplayOne | backend/src/main/java/com/flowchat/service/ChatAnalysisService.java:801-817 | one turn of the replay loop: the message's keywords, and its display name and hour when it has one |
| ChatAnalysis.ChatAnalysisService.RebuildAllRoomAnalysis | backend/src/main/java/com/flowchat/service/ChatAnalysisService.java:825-841 | every room with a non-deleted message is rebuilt from its own history, one after another |
| Messages.MessageType.IsUser | backend/src/main/java/com/flowchat/entity/ChatMessage.java:180-186 | the user types are exactly the non-system types, so every message is one or the other |
| Messages.MessageRow.DisplayName | backend/src/main/java/com/flowchat/service/ChatAnalysisService.java:806-810 | the name statistics are kept under: the nickname when present, else the login name |
| Messages.ChatMessage.constructor | backend/src/main/java/com/flowchat/entity/ChatMessage.java:73-79 | a new message is TEXT, not deleted, not edited, with no id, time or sender names yet |
| Messages.ChatMessage.OfType | backend/src/main/java/com/flowchat/entity/ChatMessage.java:81-87 | a new message of the given type, not deleted, not edited, with no id, time or sender names yet |
| Messages.ChatMessage.Edit | backend/src/main/java/com/flowchat/entity/ChatMessage.java:163-169 | a deleted message refuses with IllegalState and is unchanged; otherwise the content is replaced and the edit time set, so the message reads as edited; no other field changes |
| Messages.ChatMessage.Delete | backend/src/main/java/com/flowchat/entity/ChatMessage.java:171-174 | the message is marked deleted and its content becomes the placeholder; no other field changes |
| Messages.ChatMessage.SetMessageType | backend/src/main/java/com/flowchat/entity/ChatMessage.java:142-144 | only the type changes |
| Messages.ChatMessage.IsUserMessage | backend/src/main/java/com/flowchat/entity/ChatMessage.java:180-186 | a message is a user message iff it is not a system message |
| Messages.ChatMessage.Persist | backend/src/main/java/com/flowchat/entity/ChatMessage.java:23-48 | saving assigns the generated id and, if absent, the creation time; no other field changes |
| Messages.ChatMessage.Row | backend/src/main/java/com/flowchat/entity/ChatMessage.java:21-60 | the stored form carries every field of the saved message |
| Messages.CreateSystemMessage | backend/src/main/java/com/flowchat/entity/ChatMessage.java:189-191 | a SYSTEM message of the room with no sender |
| Messages.CreateAnnouncementMessage | backend/src/main/java/com/flowchat/entity/ChatMessage.java:193-195 | an ANNOUNCEMENT of the room by the given user |
| Messages.DeleteThenEdit | backend/src/main/java/com/flowchat/entity/ChatMessage.java:163-174 | once deleted, a message refuses every later edit and keeps the placeholder and its edit time |
| ChatStore.Initial | frontend/src/store/chatStore.js:6-12 | the store starts with no rooms, no current room, no messages, participants or typing users, not loading and no error |
| ChatStore.AddMessage | frontend/src/store/chatStore.js:18-23 | the message goes to the end of its room's list (an absent room starts empty); every other room and every other field is unchanged |
| ChatStore.SetMessages | frontend/src/store/chatStore.js:25-30 | the room's list is replaced; every other room and every other field is unchanged |
| ChatStore.Ids | frontend/src/store/chatStore.js:36 | the set of ids of a message list |
| ChatStore.Unseen | frontend/src/store/chatStore.js:39 | the incoming messages whose id is not among the known ids, in their order |
| ChatStore.PrependUnseen | frontend/src/store/chatStore.js:33-63 | history and older pages alike put the incoming messages with unknown ids before the room's list; every other room and field is unchanged |
| ChatStore.PrependUnseenKeeps | frontend/src/store/chatStore.js:33-63 | after a merge the old list is the suffix of the new one, every message was already there or came in, and every incoming id is present |
| ChatStore.MergeKeeps | frontend/src/store/chatStore.js:39-44 | prepending the unseen messages keeps the old list as suffix and makes every incoming id present |
| ChatStore.PrependUnseenIdempotent | frontend/src/store/chatStore.js:33-63 | loading the same page twice leaves the room as one load did |
| ChatStore.UnseenOfSeen | frontend/src/store/chatStore.js:39 | nothing is unseen when every incoming id is already known |
| ChatStore.PrependUnseenDistinct | frontend/src/store/chatStore.js:33-63 | merging distinct-id incoming messages into a distinct-id room keeps the ids distinct |
| ChatStore.UnseenDistinct | frontend/src/store/chatStore.js:39 | filtering keeps distinct ids distinct |
| ChatStore.SetParticipants | frontend/src/store/chatStore.js:65-70 | the room's participants are replaced; other rooms and fields are unchanged |
| ChatStore.SetTypingUsers | frontend/src/store/chatStore.js:93-98 | the room's typing list is replaced; other rooms and fields are unchanged |
| ChatStore.AddTypingUser | frontend/src/store/chatStore.js:100-111 | a name already listed leaves the state as it was; otherwise it is appended to the room's list; other rooms and fields are unchanged |
| ChatStore.AddTypingUserIdempotent | frontend/src/store/chatStore.js:100-111 | adding a typing user twice is adding it once, the user is then listed, and no duplicate is ever created |
| ChatStore.Without | frontend/src/store/chatStore.js:118 | the names that stay are exactly those different from the removed one |
| ChatStore.RemoveTypingUser | frontend/src/store/chatStore.js:113-121 | every occurrence of the name leaves the room's list and the others stay in order; other rooms and fields are unchanged |
| ChatStore.WithoutAbsent | frontend/src/store/chatStore.js:118 | removing a name that is not listed keeps the list |
| ChatStore.AddThenRemove | frontend/src/store/chatStore.js:100-121 | a user not listed who starts and stops typing leaves the room's list as it was |
| ChatStore.Replaced | frontend/src/store/chatStore.js:219-221 | the room with that id is replaced and every other room kept, position by position |
| ChatStore.UpdateRoom | frontend/src/store/chatStore.js:214-230 | loading ends; on success the room is replaced in the list and as current room if it is the current one; on failure only the error is set; messages, participants and typing users are unchanged |
| ChatStore.UpdateRoomIdempotent | frontend/src/store/chatStore.js:214-230 | updating a room twice with the same answer is updating it once |
| ChatStore.WithoutRoom | frontend/src/store/chatStore.js:237 | the rooms kept are exactly those with a different id |
| ChatStore.DeleteRoom | frontend/src/store/chatStore.js:232-246 | loading ends; on success the room leaves the list and stops being current; on failure only the error is set; messages, participants and typing users are unchanged |
| ChatStore.DeleteRoomRemoves | frontend/src/store/chatStore.js:232-246 | after a successful delete no listed or current room has that id, and deleting again changes nothing |
| ChatStore.WithoutRoomAbsent | frontend/src/store/chatStore.js:237 | filtering out an absent id keeps the list |
| ChatStore.Reset | frontend/src/store/chatStore.js:309-317 | whatever the state, the store returns to its initial value |
| ConversationFlow.WholeMinutesBreak | backend/src/main/java/com/flowchat/service/ConversationFlowService.java:93-95 | more than ten truncated whole minutes is the same as a gap of at least 660 seconds |
| ConversationFlow.NewSession | backend/src/main/java/com/flowchat/service/ConversationFlowService.java:39-43 | a new session starts at the given time with no messages, no participants, no end and no duration |
| ConversationFlow.AddMessage | backend/src/main/java/com/flowchat/service/ConversationFlowService.java:58-61 | the message is appended and its sender joins the participants; the times and duration are unchanged |
| ConversationFlow.UpdateSessionStatistics | backend/src/main/java/com/flowchat/service/ConversationFlowService.java:113-120 | a session with fewer than two messages is unchanged; otherwise its duration becomes the last timestamp minus the first |
| ConversationFlow.Senders | backend/src/main/java/com/flowchat/service/ConversationFlowService.java:58-61 | the senders of a message list are exactly the senders of its elements |
| ConversationFlow.Place | backend/src/main/java/com/flowchat/service/ConversationFlowService.java:67-108 | analysing a message always leaves the room with at least one session |
| ConversationFlow.GetCurrentOrCreateSession | backend/src/main/java/com/flowchat/service/ConversationFlowService.java:83-108 | the current session is the last; a first message opens one at its time; a gap of more than ten whole minutes (or an empty last session) closes the last session at its last message and opens one; otherwise the sessions are unchanged |
| ConversationFlow.JoinCurrentIsPlace | backend/src/main/java/com/flowchat/service/ConversationFlowService.java:67-75 | adding the message to the session chosen and updating its statistics is what the room's session list becomes |
| ConversationFlow.FlowService.constructor | backend/src/main/java/com/flowchat/service/ConversationFlowService.java:20 | no room has conversation data |
| ConversationFlow.FlowService.AnalyzeConversationFlow | backend/src/main/java/com/flowchat/service/ConversationFlowService.java:67-78 | only the given room's sessions change, to those with the message placed; every session stays well formed |
| ConversationFlow.FlowService.ClearConversationData | backend/src/main/java/com/flowchat/service/ConversationFlowService.java:315-318 | only the given room is removed |
| ConversationFlow.FlowService.GetConversationActivity | backend/src/main/java/com/flowchat/service/ConversationFlowService.java:220-247 | one of the four labels; inactive for no sessions or an empty last session, otherwise the label for the seconds since the last message |
| ConversationFlow.ActivityAfter | backend/src/main/java/com/flowchat/service/ConversationFlowService.java:238-246 | always one of the four activity labels |
| ConversationFlow.ActivityThresholds | backend/src/main/java/com/flowchat/service/ConversationFlowService.java:238-246 | very active up to 30 s, active above 30 up to 90 s, moderate above 90 up to 600 s, inactive beyond, each an if-and-only-if |
| ConversationFlow.ActivityFades | backend/src/main/java/com/flowchat/service/ConversationFlowService.java:238-246 | a longer silence never gives a livelier label |
| ConversationFlow.PlaceFirst | backend/src/main/java/com/flowchat/service/ConversationFlowService.java:83-88 | the first message of a room opens a session starting at that message's time that holds just it |
| ConversationFlow.PlaceOpensOrJoins | backend/src/main/java/com/flowchat/service/ConversationFlowService.java:90-107 | a session opens iff the last is empty or more than ten whole minutes old, the previous non-empty session then ends at its last message, otherwise the message joins the last session; earlier sessions never change |
| ConversationFlow.MessageCountSnoc | backend/src/main/java/com/flowchat/service/ConversationFlowService.java:58-61 | the messages of sessions plus one are those of the sessions plus its own |
| ConversationFlow.PlaceCountsOnce | backend/src/main/java/com/flowchat/service/ConversationFlowService.java:67-108 | every analysed message lands in exactly one session: the room's total grows by one |
| ConversationFlow.SendersSnoc | backend/src/main/java/com/flowchat/service/ConversationFlowService.java:58-61 | appending a message adds exactly its sender to the senders |
| ConversationFlow.AddKeepsWellFormed | backend/src/main/java/com/flowchat/service/ConversationFlowService.java:58-61 | adding a message to a well-formed or new session keeps its participants equal to its messages' senders and its duration correct |
| ConversationFlow.PlaceKeepsWellFormed | backend/src/main/java/com/flowchat/service/ConversationFlowService.java:67-108 | placing a message keeps every session of the room well formed |
| ConversationFlow.WellFormedSnoc | backend/src/main/java/com/flowchat/service/ConversationFlowService.java:102-103 | appending a well-formed session to well-formed sessions keeps them all well formed |
| MessageHistory.Converted | backend/src/main/java/com/flowchat/controller/MessageHistoryController.java:259-265 | the response keeps id, content and time; a missing login name shows as "unknown" and a missing nickname as "Unknown" |
| MessageHistory.ConvertAll | backend/src/main/java/com/flowchat/controller/MessageHistoryController.java:114-115 | each stored message converted, in order |
| MessageHistory.InsertByTime | backend/src/main/java/com/flowchat/controller/MessageHistoryController.java:116 | inserting adds exactly the one message to the list's multiset |
| MessageHistory.InsertKeepsChronological | backend/src/main/java/com/flowchat/controller/MessageHistoryController.java:116 | inserting into a chronological list keeps it chronological |
| MessageHistory.AppendLatest | backend/src/main/java/com/flowchat/controller/MessageHistoryController.java:116 | a message not earlier than every message of a chronological list may follow it |
| MessageHistory.SortByTime | backend/src/main/java/com/flowchat/controller/MessageHistoryController.java:116 | the sort returns the same messages |
| MessageHistory.SortedIsChronological | backend/src/main/java/com/flowchat/controller/MessageHistoryController.java:116 | the sort's result is in ascending timestamp order |
| MessageHistory.GetRecentMessages | backend/src/main/java/com/flowchat/controller/MessageHistoryController.java:99-144 | a limit below one gives the error body; otherwise at most `limit` of the newest non-deleted messages, exactly those, in ascending time order, with messageCount their number, totalMessages the room count, and hasMore iff the room count exceeds the limit |
| MessageHistory.HasMoreIffLeftOut | backend/src/main/java/com/flowchat/controller/MessageHistoryController.java:120-127 | when no message is deleted, hasMore holds iff the page left messages out |
| MessageHistory.NamedSenders | backend/src/main/java/com/flowchat/controller/MessageHistoryController.java:171-172 | the login names of the messages that carry one, in order: a name is listed iff some message carries it |
| MessageHistory.UserCounts | backend/src/main/java/com/flowchat/controller/MessageHistoryController.java:171-176 | the users counted are exactly the login names present, each with its number of messages |
| MessageHistory.GetRoomMessageStats | backend/src/main/java/com/flowchat/controller/MessageHistoryController.java:150-206 | totalMessages is the room count; the type counts group the non-deleted messages by type; the top users are the at most ten users with the most messages in non-increasing order, each with its true count; activeUsers is the length of that list |
| MessageHistory.StatsAccount | backend/src/main/java/com/flowchat/controller/MessageHistoryController.java:164-168 | the type counts add up to the number of non-deleted messages |
| MessageHistory.TopUsersSent | backend/src/main/java/com/flowchat/controller/MessageHistoryController.java:171-185 | every listed top user is the login name of some message of the room |
| MessageHistory.Wrap32 | backend/src/main/java/com/flowchat/controller/MessageHistoryController.java:226-227 | Java `int` arithmetic: always in the 32-bit range, and the exact value whenever that is in range |
| MessageHistory.SearchBoundsAsWritten | backend/src/main/java/com/flowchat/controller/MessageHistoryController.java:226-228 | the bounds computed in 32-bit `int` arithmetic, which `subList` accepts only when they lie within the hits |
| MessageHistory.SearchPageOverflow | backend/src/main/java/com/flowchat/controller/MessageHistoryController.java:226-228 | page 65536 of size 65536 over 100 hits wraps to start 0 and returns the first page, where the exact arithmetic is out of range |
| MessageHistory.SearchBounds | backend/src/main/java/com/flowchat/controller/MessageHistoryController.java:226-228 | the page exists iff `page*size` lies within the hits and size is not negative; it then starts at `page*size` and ends at `min(page*size+size, n)`, holding at most `size` hits |
| MessageHistory.SearchBoundsAgree | backend/src/main/java/com/flowchat/controller/MessageHistoryController.java:226-228 | wherever no intermediate value leaves the `int` range, the 32-bit and the exact bounds agree |
| MessageHistory.SearchMessages | backend/src/main/java/com/flowchat/controller/MessageHistoryController.java:212-254 | an out-of-range page gives the error body; otherwise the hits `[page*size, min(page*size+size, n))` converted, at most `size` of them, with totalResults the number of hits and the page, size, keyword and room echoed |
| KeywordExtraction.IsKeyword | backend/src/main/java/com/flowchat/service/ChatAnalysisService.java:159-169 | a trimmed word is kept exactly when it has at least two characters, is not a stop word and is not all digits |
| KeywordExtraction.Accept | backend/src/main/java/com/flowchat/service/ChatAnalysisService.java:158-171 | the tokens kept from a word list: at most one per word, each passing the filters |
| KeywordExtraction.Candidates | backend/src/main/java/com/flowchat/service/ChatAnalysisService.java:147-171 | every token occurrence the extractor counts: none for null or blank content, each one passing the filters |
| KeywordExtraction.Frequencies | backend/src/main/java/com/flowchat/service/ChatAnalysisService.java:156-172 | the frequency table lists every distinct counted token once, with its exact number of occurrences |
| KeywordExtraction.Keywords | backend/src/main/java/com/flowchat/service/ChatAnalysisService.java:174-179 | ten counted tokens, or every distinct one when there are fewer than ten |
| KeywordExtraction.Distinct | backend/src/main/java/com/flowchat/service/ChatAnalysisService.java:171 | the tokens in order of first occurrence: the same elements, each once |
| KeywordExtraction.Table | backend/src/main/java/com/flowchat/service/ChatAnalysisService.java:175 | the counted tokens listed with their counts, one entry per listed token |
| KeywordExtraction.ExtractKeywords | backend/src/main/java/com/flowchat/service/ChatAnalysisService.java:147-180 | the method computes the keyword list: blank or null content gives none, otherwise the at most ten most frequent accepted tokens |
| KeywordExtraction.CountWords | backend/src/main/java/com/flowchat/service/ChatAnalysisService.java:156-172 | the loop counts every accepted token (trimmed, at least two characters, not a stop word, not all digits) once per occurrence, and lists each counted token once, in order of first occurrence |
| KeywordExtraction.CountWord | backend/src/main/java/com/flowchat/service/ChatAnalysisService.java:158-172 | one turn of the word loop: an accepted token is counted, and listed the first time it is seen |
| KeywordExtraction.KeysStep | backend/src/main/java/com/flowchat/service/ChatAnalysisService.java:171 | counting a word keeps the counted keys equal to the listed tokens |
| KeywordExtraction.ExtractAndCountKeywords | backend/src/main/java/com/flowchat/service/ChatAnalysisService.java:196-219 | every accepted token of the content adds exactly one to its count in the given map, and nothing else changes; blank content adds nothing |
| KeywordExtraction.CountInto | backend/src/main/java/com/flowchat/service/ChatAnalysisService.java:204-218 | the loop adds every accepted token to the map once per occurrence |
| KeywordExtraction.AcceptStep | backend/src/main/java/com/flowchat/service/ChatAnalysisService.java:158-171 | one more word adds its trimmed form to the accepted tokens exactly when it passes the filters |
| KeywordExtraction.CountStep | backend/src/main/java/com/flowchat/service/ChatAnalysisService.java:204-217 | one turn of the word loop adds one to the count of an accepted word and nothing otherwise |
| KeywordExtraction.DistinctSnoc | backend/src/main/java/com/flowchat/service/ChatAnalysisService.java:171 | one more token is listed at the end iff it was not listed before |
| KeywordExtraction.AcceptIsFiltered | backend/src/main/java/com/flowchat/service/ChatAnalysisService.java:158-171 | every accepted token passes the filters and is the trimmed form of one of the words |
| KeywordExtraction.CandidateIsWellFormed | backend/src/main/java/com/flowchat/service/ChatAnalysisService.java:153-171 | every counted token is lower-case, at least two characters long, not a stop word, not all digits, holds no separator, and so contains no `"`, `,` or `]` |
| KeywordExtraction.KeywordsAreTokens | backend/src/main/java/com/flowchat/service/ChatAnalysisService.java:147-180 | a null or blank message has no keywords; every keyword is a counted token, lower-case, passing the filters, and free of `"`, `,` and `]` |
| KeywordExtraction.KeywordsRanked | backend/src/main/java/com/flowchat/service/ChatAnalysisService.java:174-179 | the keywords are all different and in non-increasing order of occurrences |
| KeywordExtraction.KeywordsAreMostFrequent | backend/src/main/java/com/flowchat/service/ChatAnalysisService.java:174-179 | a token left out of the keywords occurs no more often than any keyword |
| KeywordExtraction.KeywordsCompleteWhenFew | backend/src/main/java/com/flowchat/service/ChatAnalysisService.java:174-179 | with at most ten distinct tokens every token is a keyword |
| LlmAnalysis.ParseTopicFromResponse | backend/src/main/java/com/flowchat/service/LlmAnalysisService.java:352-356 | always one of the six valid topics: the trimmed answer exactly when it is one of them, else 기타 |
| LlmAnalysis.Clean | backend/src/main/java/com/flowchat/service/LlmAnalysisService.java:340 | every `[`, `]` and `"` is removed |
| LlmAnalysis.CleanFields | backend/src/main/java/com/flowchat/service/LlmAnalysisService.java:340-342 | each trimmed comma-separated field of a cleaned answer is trimmed and holds no bracket, quote or comma |
| LlmAnalysis.TextKeywords | backend/src/main/java/com/flowchat/service/LlmAnalysisService.java:340-345 | the text reading yields at most ten non-empty trimmed keywords free of brackets, quotes and commas |
| LlmAnalysis.ParseKeywordsFromResponse | backend/src/main/java/com/flowchat/service/LlmAnalysisService.java:333-347 | a JSON list is cut to its first ten entries (kept whole when it has at most ten); any other answer is read as text; never more than ten keywords |
| LlmAnalysis.ExtractKeywordsFallback | backend/src/main/java/com/flowchat/service/LlmAnalysisService.java:398-408 | blank or null content gives none; otherwise the first five split words of at least two characters, in original order and unchanged |
| LlmAnalysis.CreateFallbackAnalysis | backend/src/main/java/com/flowchat/service/LlmAnalysisService.java:383-393 | topic 기타, emotion 중립, and the fallback keywords of the content |
| LlmAnalysis.ClassifyTopicFallback | backend/src/main/java/com/flowchat/service/LlmAnalysisService.java:413-415 | the fallback topic is always 기타 |
| LlmAnalysis.AnalyzeMessage | backend/src/main/java/com/flowchat/service/LlmAnalysisService.java:49-60 | a failed call gives the fallback analysis of the content instead of an error; an unparsable answer gives no keywords, 기타 and 중립; a parsed answer is returned as parsed |
| LlmAnalysis.ParseTopicIdempotent | backend/src/main/java/com/flowchat/service/LlmAnalysisService.java:352-356 | a topic the whitelist returns is accepted unchanged |
| LlmAnalysis.TextKeywordsJoin | backend/src/main/java/com/flowchat/service/LlmAnalysisService.java:340-345 | a keyword list written comma-separated is read back by the text path, cut to ten, when every keyword is non-empty, trimmed and free of brackets, quotes and commas |
| LlmAnalysis.FallbackOfBlankIsEmpty | backend/src/main/java/com/flowchat/service/LlmAnalysisService.java:398-401 | the fallback analysis of blank content names no keywords |
| Members.ChatRoomMember.constructor | backend/src/main/java/com/flowchat/entity/ChatRoomMember.java:49-54 | a new membership belongs to its room and user, is active and not online, and has no id, join time or last-seen time yet |
| Members.ChatRoomMember.Load | backend/src/main/java/com/flowchat/entity/ChatRoomMember.java:22-43 | the entity of a stored record carries every field of that record |
| Members.ChatRoomMember.SetIsOnline | backend/src/main/java/com/flowchat/entity/ChatRoomMember.java:93-98 | the online flag takes the new value; the last-seen time moves to now only when going online; nothing else changes |
| Members.ChatRoomMember.GoOnline | backend/src/main/java/com/flowchat/entity/ChatRoomMember.java:109-112 | online, last seen now, nothing else changes |
| Members.ChatRoomMember.GoOffline | backend/src/main/java/com/flowchat/entity/ChatRoomMember.java:114-117 | offline, last seen now, nothing else changes |
| Members.ChatRoomMember.Deactivate | backend/src/main/java/com/flowchat/entity/ChatRoomMember.java:119-123 | inactive and offline, last seen now; identity and join time unchanged |
| Members.ChatRoomMember.Activate | backend/src/main/java/com/flowchat/entity/ChatRoomMember.java:125-127 | active again; online flag, last-seen time and identity unchanged |
| Members.ChatRoomMember.Row | backend/src/main/java/com/flowchat/entity/ChatRoomMember.java:22-43 | the stored record carries exactly the entity's fields |
| Members.InsertListed | backend/src/main/java/com/flowchat/repository/ChatRoomMemberRepository.java:87-88 | inserting into a listing ordered online-first then by join time keeps it ordered and adds exactly that record |
| Members.PrecedesAllRearranged | backend/src/main/java/com/flowchat/repository/ChatRoomMemberRepository.java:88 | a record listed before `r` and before all of a list is listed before every rearrangement of them |
| Members.ListedTransitive | backend/src/main/java/com/flowchat/repository/ChatRoomMemberRepository.java:88 | the listing order is transitive |
| Members.MemberRepository.constructor | backend/src/main/java/com/flowchat/repository/ChatRoomMemberRepository.java:16 | an empty repository |
| Members.MemberRepository.FindByRoomIdAndUserId | backend/src/main/java/com/flowchat/repository/ChatRoomMemberRepository.java:39-40 | finds a record exactly when one exists for the pair, active or not, and returns that stored record |
| Members.MemberRepository.FindActiveByRoomIdAndUserId | backend/src/main/java/com/flowchat/repository/ChatRoomMemberRepository.java:45-46 | finds a record exactly when an active one exists for the pair, and returns that stored record |
| Members.MemberRepository.Save | backend/src/main/java/com/flowchat/repository/ChatRoomMemberRepository.java:16 | a loaded entity overwrites its own record; a new one gets the next id and the join time, and a pair keeps at most one record |
| Members.MemberRepository.UpdateUserOnlineStatus | backend/src/main/java/com/flowchat/repository/ChatRoomMemberRepository.java:63-66 | exactly the user's active records take the new flag and time; returns how many there were; one record per pair is kept |
| Members.MemberRepository.UpdateUserOnlineStatusInRoom | backend/src/main/java/com/flowchat/repository/ChatRoomMemberRepository.java:71-74 | exactly the pair's active records take the new flag and time; returns how many there were |
| Members.MemberRepository.SetAllUsersOffline | backend/src/main/java/com/flowchat/repository/ChatRoomMemberRepository.java:79-82 | every record, active or not, goes offline with the new time; returns the number of records |
| Members.MemberRepository.CleanupInactiveMembers | backend/src/main/java/com/flowchat/repository/ChatRoomMemberRepository.java:94-97 | deletes exactly the inactive records last seen before the cutoff, keeps all others unchanged, and returns how many went |
| Members.MemberRepository.FindMemberDetailsByRoomId | backend/src/main/java/com/flowchat/repository/ChatRoomMemberRepository.java:87-89 | the room's active records whose user exists, each once, ordered online first and then by join time |
| Members.MemberRepository.DeleteAll | backend/src/main/java/com/flowchat/repository/ChatRoomMemberRepository.java:16 | no record is left |
| Members.ActivatedCount | backend/src/main/java/com/flowchat/service/ChatRoomMemberService.java:39-46 | activating an absent or inactive record raises its room's member count by exactly one |
| Members.DeactivatedCount | backend/src/main/java/com/flowchat/service/ChatRoomMemberService.java:85-97 | deactivating the one active record of a pair lowers its room's member count by exactly one |
| Members.SetOnline | backend/src/main/java/com/flowchat/repository/ChatRoomMemberRepository.java:65 | the selected records take the new flag and time; all other records and the key set are unchanged |
| Members.StatusKeepsMembership | backend/src/main/java/com/flowchat/repository/ChatRoomMemberRepository.java:65-81 | a status update never changes which pairs are active members |
| Members.UserStatusKeepsMembership | backend/src/main/java/com/flowchat/repository/ChatRoomMemberRepository.java:65 | a user's status update never changes membership in any room |
| Members.UserStatusIdempotent | backend/src/main/java/com/flowchat/repository/ChatRoomMemberRepository.java:65 | setting a user offline twice at the same time is setting it once |
| Members.OfflineAbsorbs | backend/src/main/java/com/flowchat/repository/ChatRoomMemberRepository.java:65-73 | after a user goes offline everywhere, going offline in one room at the same time changes nothing |
| Members.ToInfo | backend/src/main/java/com/flowchat/service/ChatRoomMemberService.java:128-140 | the listing entry takes the member's user id, online flag, join and last-seen times, and the user's login and display names |
| Members.ChatRoomMemberService.constructor | backend/src/main/java/com/flowchat/service/ChatRoomMemberService.java:24-28 | the service over its repository |
| Members.ChatRoomMemberService.AddMemberToRoom | backend/src/main/java/com/flowchat/service/ChatRoomMemberService.java:33-58 | afterwards the pair is an active member; an existing record is reactivated and keeps its id and fields; an absent pair gets a new active, offline record joined now; no other record changes |
| Members.ChatRoomMemberService.RemoveMemberFromRoom | backend/src/main/java/com/flowchat/service/ChatRoomMemberService.java:85-97 | afterwards the pair is not an active member; its record is deactivated with the last-seen time now; no other record changes, and an absent pair changes nothing |
| Members.ChatRoomMemberService.UpdateUserOnlineStatus | backend/src/main/java/com/flowchat/service/ChatRoomMemberService.java:102-107 | the user's active records take the new flag and time |
| Members.ChatRoomMemberService.UpdateUserOnlineStatusInRoom | backend/src/main/java/com/flowchat/service/ChatRoomMemberService.java:112-117 | the pair's active record takes the new flag and time |
| Members.ChatRoomMemberService.GetRoomMembers | backend/src/main/java/com/flowchat/service/ChatRoomMemberService.java:123-142 | one entry per active member whose user exists, in listing order, each built from its record and user |
| Members.ChatRoomMemberService.IsMemberOfRoom | backend/src/main/java/com/flowchat/service/ChatRoomMemberService.java:164-166 | true exactly when the pair has an active record |
| Members.ChatRoomMemberService.SetAllUsersOffline | backend/src/main/java/com/flowchat/service/ChatRoomMemberService.java:171-176 | every record goes offline now, so no room counts anyone online |
| Members.ChatRoomMemberService.ResetAllMembers | backend/src/main/java/com/flowchat/service/ChatRoomMemberService.java:181-187 | no membership is left |
| Members.OnlineWithinMembers | backend/src/main/java/com/flowchat/repository/ChatRoomMemberRepository.java:51-58 | a room never counts more members online than members |
| Members.NobodyOnline | backend/src/main/java/com/flowchat/repository/ChatRoomMemberRepository.java:57-58 | with nobody online, every room's online count is zero |
| Members.RejoinKeepsRecord | backend/src/main/java/com/flowchat/service/ChatRoomMemberService.java:39-46 | leaving and joining again restores the same record, offline |
| MessageService.ResponseOf | backend/src/main/java/com/flowchat/dto/ChatMessageResponse.java:37-49 | the response carries the stored message's id, room, sender, content, type, time and deletion flag with the given login and display names |
| MessageService.RequestedType | backend/src/main/java/com/flowchat/service/MessageService.java:77-80 | the stored type is SYSTEM exactly when the request says "SYSTEM", and TEXT otherwise |
| MessageService.RoomRefusal | backend/src/main/java/com/flowchat/service/MessageService.java:64-69 | a room accepts exactly when it exists and is active; a refusal is an illegal-argument error |
| MessageService.SendRefusalKinds | backend/src/main/java/com/flowchat/service/MessageService.java:58-74 | a message goes through exactly when the sender exists, the room exists and is active, and the sender is an active member; only the membership refusal is an illegal-state error, and the guards apply in the source's order |
| MessageService.EnterLeaveKeepClean | backend/src/main/java/com/flowchat/service/MessageService.java:142-176 | entering and leaving never leave a room with nobody in the table |
| MessageService.LeaveUndoesEnter | backend/src/main/java/com/flowchat/service/MessageService.java:142-176 | a user who was not in a room and enters and then leaves it restores the table |
| MessageService.EnterCount | backend/src/main/java/com/flowchat/service/MessageService.java:142-146 | entering counts the user once however often they enter, and entering twice with the same session is entering once |
| MessageService.LeaveCount | backend/src/main/java/com/flowchat/service/MessageService.java:169-180 | leaving lowers the room's count by one exactly when the user was there |
| MessageService.MessageRepository.constructor | backend/src/main/java/com/flowchat/repository/ChatMessageRepository.java:15 | an empty message table |
| MessageService.MessageRepository.SaveNew | backend/src/main/java/com/flowchat/service/MessageService.java:82 | a new message gets the next unused id and the creation time; every other row is unchanged |
| MessageService.MessageService.constructor | backend/src/main/java/com/flowchat/service/MessageService.java:53 | nobody has entered any room and nothing was sent |
| MessageService.MessageService.GetRoomUserCount | backend/src/main/java/com/flowchat/service/MessageService.java:231-234 | the number of users entered in the room, zero for a room nobody entered |
| MessageService.MessageService.GetRoomActiveUsers | backend/src/main/java/com/flowchat/service/MessageService.java:262-271 | the entered user names and their number, which agree |
| MessageService.MessageService.SendMessage | backend/src/main/java/com/flowchat/service/MessageService.java:58-97 | a refused message is the first failing guard's error and changes nothing; an accepted one is stored under a new id with the sender, content, time and requested type, then broadcast to the room and published for analysis, in that order |
| MessageService.MessageService.SendSystemMessage | backend/src/main/java/com/flowchat/service/MessageService.java:102-127 | to an absent or inactive room, an error and no change; otherwise a SYSTEM message from user 0 shown as "SYSTEM"/"시스템" is stored and broadcast, and no analysis event is published |
| MessageService.MessageService.StoreCount | backend/src/main/java/com/flowchat/service/MessageService.java:146-148 | the room's stored participant count becomes the given value and nothing else in the room table changes |
| MessageService.MessageService.JoinRoom | backend/src/main/java/com/flowchat/service/MessageService.java:132-162 | an absent or inactive room refuses and nothing changes; otherwise the session is recorded, the stored count becomes the number of entered users, the entry notice is stored and broadcast, and the new count is broadcast |
| MessageService.MessageService.LeaveRoom | backend/src/main/java/com/flowchat/service/MessageService.java:167-196 | the user's entry goes whatever the room; an active room then stores the new count, stores and broadcasts the exit notice and broadcasts the count; an absent or inactive room refuses and only the table changes |
| MessageList.Neighbour | frontend/src/components/chat/MessageList.jsx:161 | the message at an index inside the list, and nothing off either end |
| MessageList.GroupedAt | frontend/src/components/chat/MessageList.jsx:171-175 | the grouped entry carries the message itself, unchanged |
| MessageList.GroupMessages | frontend/src/components/chat/MessageList.jsx:160-178 | one grouped entry per message, in place, each flagged from its own neighbours |
| MessageList.GroupingFlags | frontend/src/components/chat/MessageList.jsx:161-169 | a message shows an avatar exactly when it is the first, its sender differs from the previous one, or either is a system message; it shows a time exactly when it is the last, the next sender differs, or the next message comes more than a minute later |
| MessageList.Shown | frontend/src/components/chat/MessageList.jsx:171-175 | the messages the grouped entries show, in order |
| MessageList.GroupingKeepsMessages | frontend/src/components/chat/MessageList.jsx:160-178 | grouping neither drops, adds nor reorders a message |
| MessageList.SenderChangeSplits | frontend/src/components/chat/MessageList.jsx:162-168 | a change of sender between neighbours closes one group with a time and opens the next with an avatar |
| MessageList.AvatarCount | frontend/src/components/chat/MessageList.jsx:162-165 | at most one avatar per grouped entry |
| MessageList.TimeCount | frontend/src/components/chat/MessageList.jsx:167-169 | at most one time per grouped entry |
| MessageList.RunShowsOneAvatar | frontend/src/components/chat/MessageList.jsx:162-165 | a run of one sender's user messages shows at most one avatar, on its first message |
| MessageList.RunShowsOneTime | frontend/src/components/chat/MessageList.jsx:167-169 | a run of one sender with no gap over a minute shows at most one time, on its last message |
| MessageList.TypingText | frontend/src/components/chat/MessageList.jsx:114-129 | nothing when nobody types; one name with "님이 입력 중..."; otherwise the first two names joined by ", ", " 외 N명" for the N others when there are more than two, and "이 입력 중..." |
| MessageList.TypingTextDependsOnHead | frontend/src/components/chat/MessageList.jsx:123-125 | the text depends only on the first two names and on how many users type |
| NotificationStore.AddNotification | frontend/src/store/notificationStore.js:9-20 | the new notice goes first, unread, with the given id and time; then the first forty-nine old ones, so the list never exceeds fifty |
| NotificationStore.RemoveNotification | frontend/src/store/notificationStore.js:60-64 | exactly the notices with another id stay |
| NotificationStore.RemoveDistributes | frontend/src/store/notificationStore.js:62 | removal keeps order: removing from a concatenation removes from each part |
| NotificationStore.MarkAsRead | frontend/src/store/notificationStore.js:67-73 | the notices with that id become read and every other notice stays as it was, in place |
| NotificationStore.MarkAllAsRead | frontend/src/store/notificationStore.js:76-80 | every notice becomes read, in place |
| NotificationStore.UnreadCount | frontend/src/store/notificationStore.js:14 | the unread notices never outnumber the list |
| NotificationStore.UnreadCountZero | frontend/src/store/notificationStore.js:76-80 | a list with every notice read counts none unread |
| NotificationStore.MarkReadCounts | frontend/src/store/notificationStore.js:67-80 | after marking all read nothing is unread, and marking one id never raises the unread count |
| NotificationStore.MarkOneCount | frontend/src/store/notificationStore.js:67-73 | marking one id never raises the unread count |
| NotificationStore.AddIsUnread | frontend/src/store/notificationStore.js:11-19 | a new notice adds one to the unread count of what the list keeps |
| NotificationStore.UnreadPrepend | frontend/src/store/notificationStore.js:19 | a notice put in front adds one to the unread count exactly when it is unread |
| NotificationStore.ClearAll | frontend/src/store/notificationStore.js:83-85 | nothing is left and nothing is unread |
| NotificationStore.Success | frontend/src/store/notificationStore.js:102-109 | a "success" request with the given title and message shown for four seconds |
| NotificationStore.Error | frontend/src/store/notificationStore.js:111-118 | an "error" request shown for six seconds |
| NotificationStore.Warning | frontend/src/store/notificationStore.js:120-127 | a "warning" request shown for five seconds |
| NotificationStore.Info | frontend/src/store/notificationStore.js:129-136 | an "info" request shown for three seconds |
| NotificationStore.DurationsOrdered | frontend/src/store/notificationStore.js:102-136 | an error stays up longest, then a warning, a success, and an info notice shortest |
| NotificationStore.Preview | frontend/src/store/notificationStore.js:143 | content of at most fifty characters is quoted whole; longer content is cut to its first fifty and "..." is added |
| NotificationStore.NewMessage | frontend/src/store/notificationStore.js:139-146 | a "message" request titled with the room name whose text is the sender's name and the preview, shown for four seconds |
| NotificationStore.PreviewIsPrefix | frontend/src/store/notificationStore.js:143 | the preview begins with the content's first fifty characters, or all of it when shorter |
| NotificationStore.AnalysisComplete | frontend/src/store/notificationStore.js:149-156 | an "analysis" request titled 분석 완료 naming the room, shown for four seconds |
| AnalysisNotification.RunFrom | backend/src/main/java/com/flowchat/service/AnalysisNotificationService.java:186-195 | one push decision per message received |
| AnalysisNotification.PushWithin | backend/src/main/java/com/flowchat/service/AnalysisNotificationService.java:186-212 | a room holding k pending messages pushes within its next 10-k messages, however they are spaced in time |
| AnalysisNotification.NoTenQuietInARow | backend/src/main/java/com/flowchat/service/AnalysisNotificationService.java:186-212 | from a tracker below the threshold, every ten consecutive messages include at least one push |
| AnalysisNotification.QuietUntilTenth | backend/src/main/java/com/flowchat/service/AnalysisNotificationService.java:200-212 | inside ten seconds of a push, a room that has counted k messages stays quiet for the next 9-k and pushes on the one that brings it to ten |
| AnalysisNotification.TenthMessagePushes | backend/src/main/java/com/flowchat/service/AnalysisNotificationService.java:35-36 | after a push, within ten seconds, messages one to nine cause no push and the tenth causes one |
| AnalysisNotification.PendingStaysBelowThreshold | backend/src/main/java/com/flowchat/service/AnalysisNotificationService.java:186-212 | between messages a room never holds ten pending messages |
| AnalysisNotification.HourLabels | backend/src/main/java/com/flowchat/service/AnalysisNotificationService.java:139-141 | one chart label per hour entry, the hour followed by "시" |
| AnalysisNotification.FullUpdateParts | backend/src/main/java/com/flowchat/service/AnalysisNotificationService.java:177-179 | the keyword, participation and hourly sends, in that order, make a full update |
| AnalysisNotification.SweptStep | backend/src/main/java/com/flowchat/service/AnalysisNotificationService.java:229-236 | handling one more room with pending messages zeroes its count, stamps it with the current time and lists it once |
| AnalysisNotification.RebuiltSnoc | backend/src/main/java/com/flowchat/service/AnalysisNotificationService.java:234 | one more pushed room extends the rebuilt statistics by that room's rebuild |
| AnalysisNotification.SweptDone | backend/src/main/java/com/flowchat/service/AnalysisNotificationService.java:229-237 | after the sweep every tracked room's count is zero |
| AnalysisNotification.RebuiltRoomStats | backend/src/main/java/com/flowchat/service/AnalysisNotificationService.java:171-180 | after a rebuild over the whole history, the room holds exactly the keyword, participation and hourly counts of its replayed messages, which the pushed update describes |
| AnalysisNotification.SweepSentSnoc | backend/src/main/java/com/flowchat/service/AnalysisNotificationService.java:229-237 | one more push extends what the sweep has sent by exactly that room's full update |
| AnalysisNotification.AnalysisNotificationService.constructor | backend/src/main/java/com/flowchat/service/AnalysisNotificationService.java:31-32 | no room is tracked and nothing was sent |
| AnalysisNotification.AnalysisNotificationService.SendAnalysisUpdate | backend/src/main/java/com/flowchat/service/AnalysisNotificationService.java:42-54 | the update goes to "/topic/analysis/" plus the room id; the trackers are unchanged |
| AnalysisNotification.AnalysisNotificationService.SendKeywordUpdate | backend/src/main/java/com/flowchat/service/AnalysisNotificationService.java:60-89 | nothing for a room without keywords; otherwise one keyword update with the top keywords, their labels and counts, and the number of distinct keywords |
| AnalysisNotification.AnalysisNotificationService.SendParticipationUpdate | backend/src/main/java/com/flowchat/service/AnalysisNotificationService.java:95-124 | nothing for a room nobody was counted in; otherwise one participation update with every user ranked, their labels and counts, and the number of users |
| AnalysisNotification.AnalysisNotificationService.SendHourlyUpdate | backend/src/main/java/com/flowchat/service/AnalysisNotificationService.java:130-157 | always one hourly update with the room's histogram, its "시" labels and counts |
| AnalysisNotification.AnalysisNotificationService.SendFullAnalysisUpdate | backend/src/main/java/com/flowchat/service/AnalysisNotificationService.java:171-180 | the room's statistics are rebuilt from the history over the period, then the keyword, participation and hourly updates follow, in order, for the rebuilt statistics; saved results and trackers are unchanged |
| AnalysisNotification.AnalysisNotificationService.ShouldSendUpdate | backend/src/main/java/com/flowchat/service/AnalysisNotificationService.java:200-212 | due when the room was never pushed or more than ten seconds passed; otherwise due exactly when ten messages are pending |
| AnalysisNotification.AnalysisNotificationService.ResetUpdateTracking | backend/src/main/java/com/flowchat/service/AnalysisNotificationService.java:217-220 | the room's last push becomes now and its count zero; other rooms are unchanged |
| AnalysisNotification.AnalysisNotificationService.OnMessageReceived | backend/src/main/java/com/flowchat/service/AnalysisNotificationService.java:186-195 | the room's tracker follows the one-message debounce step; on a push the statistics are rebuilt and a full update is sent, otherwise only the count rises and nothing is sent |
| AnalysisNotification.AnalysisNotificationService.PushRoom | backend/src/main/java/com/flowchat/service/AnalysisNotificationService.java:234-235 | one push of the sweep: the room's statistics are rebuilt over its whole history, the full update for the rebuilt statistics (keyword, participation and hourly updates, in order) is appended to the outbox, and its tracker is reset |
| AnalysisNotification.AnalysisNotificationService.ScheduledAnalysisUpdate | backend/src/main/java/com/flowchat/service/AnalysisNotificationService.java:226-241 | exactly the rooms with pending messages are pushed, each once; the outbox gains, after what it held, one full update per pushed room in push order, each for that room's rebuilt statistics; afterwards every tracked count is zero, the pushed rooms carry the current time, other rooms keep theirs, and the statistics are those rebuilt for the pushed rooms |
| AnalysisNotification.AnalysisNotificationService.SweepRooms | backend/src/main/java/com/flowchat/service/AnalysisNotificationService.java:229-237 | the loop over the rooms still to do ends with all of them pushed, the statistics rebuilt for the pushed rooms, and one full update sent per pushed room, in order |
| AnalysisNotification.AnalysisNotificationService.SweepOne | backend/src/main/java/com/flowchat/service/AnalysisNotificationService.java:232-236 | one room is rebuilt, its full update follows what the sweep sent before, its tracker is reset, and it moves from the rooms to do to the pushed ones |
| AnalysisNotification.AnalysisNotificationService.StartAnalysisSubscription | backend/src/main/java/com/flowchat/service/AnalysisNotificationService.java:246-252 | a full update over the whole history is sent, then the room's tracker is reset to now |
| AnalysisNotification.AnalysisNotificationService.StopAnalysisSubscription | backend/src/main/java/com/flowchat/service/AnalysisNotificationService.java:257-262 | the room is no longer tracked, so its next message pushes |
| Presence.TokenFromHeaders | backend/src/main/java/com/flowchat/handler/WebSocketEventHandler.java:270-280 | a token only ever comes from one of the two headers |
| Presence.BearerRoundTrip | backend/src/main/java/com/flowchat/handler/WebSocketEventHandler.java:272-275 | a token sent as "Bearer " plus the token is recovered exactly, whatever the other header says |
| Presence.FallbackToTokenHeader | backend/src/main/java/com/flowchat/handler/WebSocketEventHandler.java:277-279 | without a bearer Authorization header the token header is used as it is, absent or not |
| Presence.Authenticate | backend/src/main/java/com/flowchat/handler/WebSocketEventHandler.java:66-91 | a user name exactly when a token came, decodes, validates and names a known enabled account, and then it is the name the token decodes to |
| Presence.SweepStep | backend/src/main/java/com/flowchat/handler/WebSocketEventHandler.java:139-141 | dropping the session from one more room extends the partial sweep by that room |
| Presence.AddKeepsConsistent | backend/src/main/java/com/flowchat/handler/WebSocketEventHandler.java:150-157 | adding a session keeps the room-to-sessions and user-to-rooms maps in step and records the user's session in the room |
| Presence.RemoveKeepsConsistent | backend/src/main/java/com/flowchat/handler/WebSocketEventHandler.java:187-225 | removing a user from a room keeps the two maps in step and drops the pair from both |
| Presence.RemovedSessionsRecorded | backend/src/main/java/com/flowchat/handler/WebSocketEventHandler.java:187-225 | after a removal every room entry is still listed among its user's rooms |
| Presence.RemovedRoomsSessioned | backend/src/main/java/com/flowchat/handler/WebSocketEventHandler.java:187-225 | after a removal every listed room still holds its user's entry |
| Presence.MemberRoomsStep | backend/src/main/java/com/flowchat/handler/WebSocketEventHandler.java:130-131 | one more room left adds it to the announced rooms exactly when the user is a member there |
| Presence.VacatedKeepsConsistent | backend/src/main/java/com/flowchat/handler/WebSocketEventHandler.java:128-133 | removing a user from all of their rooms keeps the maps in step and leaves the user in no room |
| Presence.SweepUnneeded | backend/src/main/java/com/flowchat/handler/WebSocketEventHandler.java:139-141 | the final sweep changes nothing once no entry names the session |
| Presence.DisconnectKeepsConsistent | backend/src/main/java/com/flowchat/handler/WebSocketEventHandler.java:110-145 | a disconnect keeps the maps in step and leaves the user in no room, provided the session's entries all belong to that user |
| Presence.VacatedStep | backend/src/main/java/com/flowchat/handler/WebSocketEventHandler.java:130-131 | leaving one more room extends the vacated map by that room |
| Presence.RemainingStep | backend/src/main/java/com/flowchat/handler/WebSocketEventHandler.java:130-131 | dropping one more room from the user's list extends the remaining map by that room |
| Presence.AnnouncesStep | backend/src/main/java/com/flowchat/handler/WebSocketEventHandler.java:211-212 | one more offline event extends the announcements by that room |
| Presence.WebSocketEventHandler.constructor | backend/src/main/java/com/flowchat/handler/WebSocketEventHandler.java:47-53 | no session, no room entries and nothing sent; the maps are consistent |
| Presence.WebSocketEventHandler.HandleConnect | backend/src/main/java/com/flowchat/handler/WebSocketEventHandler.java:59-92 | the session is mapped to the user exactly when authentication succeeds; nothing else changes |
| Presence.WebSocketEventHandler.GetUsernameBySessionId | backend/src/main/java/com/flowchat/handler/WebSocketEventHandler.java:263-265 | the session's user when it is known, nothing otherwise |
| Presence.WebSocketEventHandler.GetRoomSessionCount | backend/src/main/java/com/flowchat/handler/WebSocketEventHandler.java:231-234 | the number of users with a session in the room, zero exactly when it has none |
| Presence.WebSocketEventHandler.GetRoomOnlineUserCount | backend/src/main/java/com/flowchat/handler/WebSocketEventHandler.java:239-246 | the room's online member count, or zero when the room id is not a number |
| Presence.WebSocketEventHandler.GetRoomMemberCount | backend/src/main/java/com/flowchat/handler/WebSocketEventHandler.java:251-258 | the room's active member count, or zero when the room id is not a number |
| Presence.WebSocketEventHandler.CheckMember | backend/src/main/java/com/flowchat/handler/WebSocketEventHandler.java:161-165 | the numeric room id and user id exactly when the user is known, the id parses and the user is an active member; any failure reads as "no" |
| Presence.WebSocketEventHandler.AddUserToRoom | backend/src/main/java/com/flowchat/handler/WebSocketEventHandler.java:150-182 | the session is recorded in the room and the room in the user's list; the first connection is one to a room the user had not listed; a member goes online in that room and the room is told; a non-member changes no record and nothing is sent |
| Presence.WebSocketEventHandler.RemoveUserFromRoom | backend/src/main/java/com/flowchat/handler/WebSocketEventHandler.java:187-226 | the user's entry and list item go, with empty maps removed; only when the room was listed and the user is a member does the record go offline and the room get told |
| Presence.WebSocketEventHandler.LeaveOne | backend/src/main/java/com/flowchat/handler/WebSocketEventHandler.java:130-131 | one turn of the disconnect loop: one room is left and, when the user is a member there, announced |
| Presence.WebSocketEventHandler.LeaveAllRooms | backend/src/main/java/com/flowchat/handler/WebSocketEventHandler.java:128-133 | the user leaves every listed room, each room where they are a member is told they went offline, and the member records are unchanged because the user is already offline everywhere |
| Presence.WebSocketEventHandler.DropSession | backend/src/main/java/com/flowchat/handler/WebSocketEventHandler.java:139-141 | every room entry naming the session is dropped; nothing else changes |
| Presence.WebSocketEventHandler.HandleDisconnect | backend/src/main/java/com/flowchat/handler/WebSocketEventHandler.java:110-145 | an unknown session changes nothing; otherwise a known user goes offline in every room, leaves every listed room with the member rooms told, the session is forgotten and every entry naming it is dropped |
| Ranking.Keys | backend/src/main/java/com/flowchat/service/AnalysisNotificationService.java:69-71 | the chart labels: each entry's key, in order |
| Ranking.Counts | backend/src/main/java/com/flowchat/service/AnalysisNotificationService.java:73-75 | the chart data: each entry's count, in order |
| Ranking.FirstMax | backend/src/main/java/com/flowchat/service/ChatAnalysisService.java:436 | the first entry of largest count: none is larger and every earlier one is smaller |
| Ranking.RemoveAt | backend/src/main/java/com/flowchat/service/ChatAnalysisService.java:436 | dropping one entry keeps all the others and adds none |
| Ranking.RemoveAtKeepsOthersKeys | backend/src/main/java/com/flowchat/service/ChatAnalysisService.java:436 | with distinct keys, dropping an entry keeps the keys distinct and removes its key |
| Ranking.SelectTop | backend/src/main/java/com/flowchat/service/ChatAnalysisService.java:435-437 | the top-n selection has min(n, size) entries, all taken from the input |
| Ranking.SelectTopSorted | backend/src/main/java/com/flowchat/service/ChatAnalysisService.java:436 | the selection comes out in descending order of count |
| Ranking.SelectTopAll | backend/src/main/java/com/flowchat/service/ChatAnalysisService.java:437 | a limit at least the size keeps every entry |
| Ranking.SelectTopDominates | backend/src/main/java/com/flowchat/service/ChatAnalysisService.java:435-437 | no entry left out has a larger count than one kept |
| Ranking.SelectTopDistinct | backend/src/main/java/com/flowchat/service/ChatAnalysisService.java:435-437 | the selection keeps keys distinct |
| Ranking.ConsNonIncreasing | backend/src/main/java/com/flowchat/service/ChatAnalysisService.java:436 | an entry at least as large as every later one keeps a descending list descending |
| Ranking.KeyDeterminesEntry | backend/src/main/java/com/flowchat/service/ChatAnalysisService.java:435 | in a list with distinct keys a key determines the entry |
| Ranking.EntriesOf | backend/src/main/java/com/flowchat/service/ChatAnalysisService.java:435 | the entries of a count map, one per key with its count, in an unspecified order |
| Ranking.TopEntries | backend/src/main/java/com/flowchat/service/ChatAnalysisService.java:435-437 | the n entries of largest count of a map (all of them when it has fewer), in descending order, each with its key's count, none left out larger than one kept |
| Report.DaysInMonth | backend/src/main/java/com/flowchat/service/ReportService.java:59 | every month has between 28 and 31 days |
| Report.YearLength | backend/src/main/java/com/flowchat/service/ReportService.java:58-59 | a year has 366 days exactly when it is a Gregorian leap year, and 365 otherwise |
| Report.DivStep | backend/src/main/java/com/flowchat/service/ReportService.java:58 | going back one year lowers the count of multiples of 4, 100 or 400 exactly when the year is one |
| Report.MonthLength | backend/src/main/java/com/flowchat/service/ReportService.java:58-59 | the first of the next month comes DaysInMonth days after the first of this one, and December has 31 |
| Report.DailyPeriod | backend/src/main/java/com/flowchat/service/ReportService.java:36-41 | a day's range runs from its midnight to its last second and covers exactly one day |
| Report.WeeklyPeriod | backend/src/main/java/com/flowchat/service/ReportService.java:46-52 | a week's range runs from the first day's midnight to the seventh day's last second and covers exactly seven days |
| Report.NextMonth | backend/src/main/java/com/flowchat/service/ReportService.java:59 | the month after is a valid month: January of the next year after December |
| Report.MonthlyPeriod | backend/src/main/java/com/flowchat/service/ReportService.java:57-65 | an invalid month is an error, as LocalDate.of throws; otherwise the range starts at midnight of the first |
| Report.MonthlyPeriodSpan | backend/src/main/java/com/flowchat/service/ReportService.java:57-62 | a month's range covers exactly its days, and the next month's range starts the second after it ends |
| Report.UserKeys | backend/src/main/java/com/flowchat/service/ReportService.java:91 | each message's grouping key is its username, or "UNKNOWN" when it has none |
| Report.TypeKeys | backend/src/main/java/com/flowchat/service/ReportService.java:99 | each message's grouping key is its type's name |
| Report.HourKeys | backend/src/main/java/com/flowchat/service/ReportService.java:107 | each message's grouping key is its hour |
| Report.RoomKeys | backend/src/main/java/com/flowchat/service/ReportService.java:127 | each message's grouping key is its room |
| Report.GroupCount | backend/src/main/java/com/flowchat/service/ReportService.java:89-93 | one group per key that occurs and no other, with counts summing to the number of keys |
| Report.GroupCountGet | backend/src/main/java/com/flowchat/service/ReportService.java:89-93 | each group counts the occurrences of its key |
| Report.TopicInputsAsWritten | backend/src/main/java/com/flowchat/service/ReportService.java:113-117 | the filter as written keeps the content of every message, system ones included |
| Report.TopicInputs | backend/src/main/java/com/flowchat/service/ReportService.java:112-117 | the intended filter keeps at most the period's contents |
| Report.TopicInputsExcludeSystem | backend/src/main/java/com/flowchat/service/ReportService.java:112-117 | the intended filter keeps exactly the contents of the messages that are not SYSTEM, and agrees with the written one when there are none |
| Report.SystemNoticeReachesTopics | backend/src/main/java/com/flowchat/service/ReportService.java:114 | a period holding one system notice hands it to the topic statistics, though the filter means to drop it |
| Report.MostActive | backend/src/main/java/com/flowchat/service/ReportService.java:133-134 | no entry when the map is empty; otherwise a present key with its count that no other key beats, the tie among equal counts left open (used for the most active hour and, in the summary, the most active user) |
| Report.SummaryText | backend/src/main/java/com/flowchat/service/ReportService.java:154-181 | every summary opens with the type heading, the message total and the user count; with neither a most active hour nor a user it is exactly those lines; a present hour adds the line with the hour and its message count, a present user the line with the name and its count, and nothing else is added |
| Report.DetailsOf | backend/src/main/java/com/flowchat/service/ReportService.java:89-130 | each grouping of the period (users, types, hours, rooms) counts every message once, so its counts sum to the number of messages, and the hourly keys are hours of the day |
| Report.InPeriod | backend/src/main/java/com/flowchat/service/ReportService.java:76 | exactly the stored messages inside the range, ends included |
| Report.DetailsUsers | backend/src/main/java/com/flowchat/service/ReportService.java:89-93 | a user's count is the number of their messages, and messages without a username count under "UNKNOWN" |
| Report.GenerateReportForPeriod | backend/src/main/java/com/flowchat/service/ReportService.java:70-149 | the report names its type and range and counts the messages in it; an empty period gets the fixed summary, no groupings and no most active hour; otherwise the groupings of its messages, a most active hour in 0..23 that no hour beats, and the summary naming that hour and a user no one beats |
| Report.GenerateDailyReport | backend/src/main/java/com/flowchat/service/ReportService.java:36-41 | a DAILY report over the day's range |
| Report.GenerateWeeklyReport | backend/src/main/java/com/flowchat/service/ReportService.java:46-52 | a WEEKLY report over the seven days' range |
| Report.GenerateMonthlyReport | backend/src/main/java/com/flowchat/service/ReportService.java:57-65 | an invalid month is an error; otherwise a MONTHLY report over the month's range |
| Report.SentBy | backend/src/main/java/com/flowchat/service/ReportService.java:196 | exactly the messages carrying that username |
| Report.GenerateUserReport | backend/src/main/java/com/flowchat/service/ReportService.java:195-223 | counts the user's messages in the range; groupings exactly when there are any, and each counts every message once |
| Rooms.JoinableIffNotFull | backend/src/main/java/com/flowchat/entity/ChatRoom.java:136-138 | an active room can be joined exactly when it is not full, and an inactive one never |
| Rooms.ChatRoom.constructor | backend/src/main/java/com/flowchat/entity/ChatRoom.java:60-68 | a new room has the given name, description and creator, capacity 50 unless one is given, no participants, and is active and public |
| Rooms.ChatRoom.Load | backend/src/main/java/com/flowchat/entity/ChatRoom.java:22-54 | the entity of a stored room carries every field of its row |
| Rooms.ChatRoom.IncrementParticipants | backend/src/main/java/com/flowchat/entity/ChatRoom.java:140-146 | a joinable room gains one participant; otherwise an illegal-state error and no change; the count never passes capacity by this call |
| Rooms.ChatRoom.DecrementParticipants | backend/src/main/java/com/flowchat/entity/ChatRoom.java:148-152 | a positive count drops by one; otherwise nothing changes, so the count never goes negative |
| Rooms.ChatRoom.Deactivate | backend/src/main/java/com/flowchat/entity/ChatRoom.java:154-156 | only the active flag changes, to false |
| Rooms.ChatRoom.Activate | backend/src/main/java/com/flowchat/entity/ChatRoom.java:158-160 | only the active flag changes, to true |
| Rooms.ChatRoom.MakePrivate | backend/src/main/java/com/flowchat/entity/ChatRoom.java:162-164 | only the public flag changes, to false |
| Rooms.ChatRoom.MakePublic | backend/src/main/java/com/flowchat/entity/ChatRoom.java:166-168 | only the public flag changes, to true |
| Rooms.ChatRoom.SetName | backend/src/main/java/com/flowchat/entity/ChatRoom.java:79-81 | only the name changes |
| Rooms.ChatRoom.SetDescription | backend/src/main/java/com/flowchat/entity/ChatRoom.java:87-89 | only the description changes |
| Rooms.ChatRoom.SetMaxParticipants | backend/src/main/java/com/flowchat/entity/ChatRoom.java:95-97 | only the capacity changes |
| Rooms.ChatRoom.SetCurrentParticipants | backend/src/main/java/com/flowchat/entity/ChatRoom.java:103-105 | only the stored count changes |
| Rooms.ChatRoom.SetIsPublic | backend/src/main/java/com/flowchat/entity/ChatRoom.java:131-133 | only the public flag changes |
| Rooms.ChatRoom.Persist | backend/src/main/java/com/flowchat/entity/ChatRoom.java:22-48 | saving assigns the generated id and, on the first save only, the creation time |
| Rooms.ChatRoom.Row | backend/src/main/java/com/flowchat/entity/ChatRoom.java:22-54 | the stored row carries exactly the entity's fields |
| RoomService.From | backend/src/main/java/com/flowchat/dto/ChatRoomResponse.java:32-56 | the response copies the stored room with the creator's name; joinable exactly when active and not full, full exactly when the stored count reaches capacity |
| RoomService.CreatorName | backend/src/main/java/com/flowchat/service/ChatRoomService.java:120-122 | the creator's display name when the user exists, else 알 수 없음 |
| RoomService.NoneNewer | backend/src/main/java/com/flowchat/repository/ChatRoomRepository.java:19 | rearranging rooms none of which is newer than a time keeps them all no newer |
| RoomService.InsertNewest | backend/src/main/java/com/flowchat/repository/ChatRoomRepository.java:19-29 | inserting into a newest-first listing keeps it newest first and adds exactly that room |
| RoomService.GatherStep | backend/src/main/java/com/flowchat/service/ChatRoomService.java:204-214 | handling one more member room adds its response exactly when it is one of the user's active rooms |
| RoomService.Recounted | backend/src/main/java/com/flowchat/service/ChatRoomService.java:71-75 | recounting some rooms keeps the set of rooms |
| RoomService.RecountStep | backend/src/main/java/com/flowchat/service/ChatRoomService.java:71-75 | recounting one more room extends the partial recount by that room |
| RoomService.JoinRefusal | backend/src/main/java/com/flowchat/service/ChatRoomService.java:223-249 | a join goes through only for a known user, an existing active room, a non-member and a room with space; an unknown user gives the user-missing error, then a missing room the room-missing error, and an inactive room, a member or a full room an illegal-state error |
| RoomService.LeaveRefusal | backend/src/main/java/com/flowchat/service/ChatRoomService.java:268-279 | a leave goes through exactly when the room exists and the user is a member; otherwise the room-missing or not-joined error |
| RoomService.CreatorRefusal | backend/src/main/java/com/flowchat/service/ChatRoomService.java:357-366 | a creator-only edit goes through exactly when the room exists and the caller created it; otherwise the room-missing error or the illegal-state denial |
| RoomService.RoomRepository.constructor | backend/src/main/java/com/flowchat/repository/ChatRoomRepository.java:13 | an empty room table |
| RoomService.RoomRepository.Save | backend/src/main/java/com/flowchat/repository/ChatRoomRepository.java:13 | a loaded room overwrites its own row; a new one gets the next unused id and its creation time; no other row changes |
| RoomService.RoomRepository.ListNewestFirst | backend/src/main/java/com/flowchat/repository/ChatRoomRepository.java:19-29 | exactly the named rooms, each once, newest first |
| RoomService.ChatRoomService.constructor | backend/src/main/java/com/flowchat/service/ChatRoomService.java:45-58 | the service over the given room repository and member service |
| RoomService.ChatRoomService.Respond | backend/src/main/java/com/flowchat/service/ChatRoomService.java:38-43 | the listing entry of a room, showing the live member count instead of the stored one when the listing counts members |
| RoomService.ChatRoomService.ListRooms | backend/src/main/java/com/flowchat/service/ChatRoomService.java:118-125 | the named rooms, newest first, each as Respond builds it |
| RoomService.ChatRoomService.GetPublicChatRooms | backend/src/main/java/com/flowchat/service/ChatRoomService.java:113-126 | the active public rooms, newest first, with live member counts |
| RoomService.ChatRoomService.GetPrivateChatRooms | backend/src/main/java/com/flowchat/service/ChatRoomService.java:132-145 | the active private rooms, newest first, with the stored counts |
| RoomService.ChatRoomService.GetAllChatRooms | backend/src/main/java/com/flowchat/service/ChatRoomService.java:151-164 | every active room, newest first, with live member counts |
| RoomService.ChatRoomService.SearchChatRooms | backend/src/main/java/com/flowchat/service/ChatRoomService.java:297-314 | a null or blank keyword gives the same list as GetAllChatRooms; otherwise the active rooms matching the trimmed keyword, newest first, with the stored counts |
| RoomService.ChatRoomService.GetChatRoom | backend/src/main/java/com/flowchat/service/ChatRoomService.java:170-181 | the room's response with its creator's name, or the room-missing error |
| RoomService.ChatRoomService.GetMyChatRooms | backend/src/main/java/com/flowchat/service/ChatRoomService.java:187-218 | exactly the active rooms among the user's active memberships, each once, as responses with the creator's name |
| RoomService.ChatRoomService.CreateChatRoom | backend/src/main/java/com/flowchat/service/ChatRoomService.java:85-107 | an unknown user is an error and nothing changes; otherwise a new active room with the request's fields, no participants and the caller as creator is stored under a new id and returned with the user's name |
| RoomService.ChatRoomService.JoinChatRoom | backend/src/main/java/com/flowchat/service/ChatRoomService.java:223-263 | refused exactly when a guard fails, with that guard's error and no change; otherwise the user becomes an active member, the member count rises by one within capacity, and the stored count becomes the member count |
| RoomService.ChatRoomService.LeaveChatRoom | backend/src/main/java/com/flowchat/service/ChatRoomService.java:268-291 | refused exactly when the room is missing or the user is not a member, with no change; otherwise the user is no longer a member, the count drops by one, and the stored count follows it |
| RoomService.ChatRoomService.DeleteChatRoom | backend/src/main/java/com/flowchat/service/ChatRoomService.java:357-373 | only the creator may delete; deleting only deactivates the room, and a refusal changes nothing |
| RoomService.ChatRoomService.UpdateChatRoom | backend/src/main/java/com/flowchat/service/ChatRoomService.java:378-404 | only the creator may edit; name, description, capacity and public flag take the request's values and nothing else changes; a refusal changes nothing |
| RoomService.ChatRoomService.RecountRoom | backend/src/main/java/com/flowchat/service/ChatRoomService.java:72-74 | the room's stored count becomes its active member count; no other room changes |
| RoomService.ChatRoomService.InitializeParticipantCounts | backend/src/main/java/com/flowchat/service/ChatRoomService.java:63-80 | every member record goes offline, so no room counts anyone online, and every room's stored count becomes its active member count |
| AnalysisJson.Quote | backend/src/main/java/com/flowchat/service/ChatAnalysisService.java:397-399 | a keyword is written between two double quotes, two characters longer |
| AnalysisJson.QuoteAll | backend/src/main/java/com/flowchat/service/ChatAnalysisService.java:396-399 | every keyword of the list quoted, in order |
| AnalysisJson.UnquoteAll | backend/src/main/java/com/flowchat/service/ChatAnalysisService.java:949-950 | every part of the keyword section trimmed and stripped of its quotes, in order |
| AnalysisJson.MarkerHasNoBracket | backend/src/main/java/com/flowchat/service/ChatAnalysisService.java:942-945 | the first closing bracket at or after the keyword marker lies past the whole marker, so the section between them is well defined |
| AnalysisJson.ExtractKeywordsFromJson | backend/src/main/java/com/flowchat/service/ChatAnalysisService.java:937-959 | the loop over the split parts yields exactly the keywords the reader definition gives: the non-empty unquoted parts between the marker and the next bracket, or none when either is missing |
| AnalysisJson.CollectKeywords | backend/src/main/java/com/flowchat/service/ChatAnalysisService.java:947-954 | the loop keeps exactly the non-empty unquoted parts, in order |
| AnalysisJson.JsonKeywordsAreClean | backend/src/main/java/com/flowchat/service/ChatAnalysisService.java:949-952 | no keyword read back is empty or contains a double quote |
| AnalysisJson.NonEmptySnoc | backend/src/main/java/com/flowchat/service/ChatAnalysisService.java:951-953 | dropping empty parts from a list extended by one part extends the filtered list by that part exactly when it is non-empty |
| AnalysisJson.UnquoteQuote | backend/src/main/java/com/flowchat/service/ChatAnalysisService.java:397-399 | reading back a quoted keyword without quotes gives the keyword |
| AnalysisJson.IndexOfChar | backend/src/main/java/com/flowchat/service/ChatAnalysisService.java:942 | the search for a character finds its first occurrence at or after the starting point |
| AnalysisJson.BodyHasNoBracket | backend/src/main/java/com/flowchat/service/ChatAnalysisService.java:396-399 | the written keyword list contains no closing bracket when no keyword does |
| AnalysisJson.BodyRoundTrip | backend/src/main/java/com/flowchat/service/ChatAnalysisService.java:396-399 | splitting the written keyword list at commas and unquoting gives back the keywords, for keywords that are non-empty and free of quotes, commas and brackets |
| AnalysisJson.HeadPositions | backend/src/main/java/com/flowchat/service/ChatAnalysisService.java:940-945 | in text that starts with the written keyword list, the marker is found right after the opening brace and the first closing bracket right after the list |
| AnalysisJson.KeywordsHeadRoundTrip | backend/src/main/java/com/flowchat/service/ChatAnalysisService.java:937-959 | the reader gives back exactly the keywords of any text starting with the written keyword list, whatever follows |
| AnalysisJson.AdvancedJsonKeywords | backend/src/main/java/com/flowchat/service/ChatAnalysisService.java:937-959 | the keywords read back from the stored advanced-analysis JSON (written at CAS:395-403) are the keywords written, for keywords free of quotes, commas and brackets |
| AnalysisJson.LlmJsonKeywords | backend/src/main/java/com/flowchat/service/ChatAnalysisService.java:314-323 | the keywords read back from the stored LLM-analysis JSON are the keywords written, whatever the embedded answer holds |
| AnalysisJson.ExtractJsonValue | backend/src/main/java/com/flowchat/controller/ChatAnalysisController.java:658-668 | a missing key gives 기타; a value found never contains a double quote |
| AnalysisJson.ExtractJsonValueRoundTrip | backend/src/main/java/com/flowchat/controller/ChatAnalysisController.java:658-668 | a string value written after its key is read back unchanged when that is the first occurrence of the key pattern |
| AnalysisJson.ExtractJsonValueUnclosed | backend/src/main/java/com/flowchat/controller/ChatAnalysisController.java:663-665 | an unterminated value gives 기타 |
| AnalysisJson.NoCharNoIndex | backend/src/main/java/com/flowchat/controller/ChatAnalysisController.java:664 | searching for a character absent from the rest of the text finds nothing |
| ThemeStore.SystemTheme | frontend/src/store/themeStore.js:18-20 | the system theme is dark exactly when the browser prefers dark, otherwise light, never "system" |
| ThemeStore.Toggled | frontend/src/store/themeStore.js:34-38 | the toggled mode is dark exactly when the mode was light, and never "system" |
| ThemeStore.ToggleTwice | frontend/src/store/themeStore.js:34-38 | toggling twice restores the mode exactly when it was not "system" |
| ThemeStore.Theme.constructor | frontend/src/store/themeStore.js:8 | the initial mode is light |
| ThemeStore.Theme.SetMode | frontend/src/store/themeStore.js:11-15 | the given mode is stored unchanged |
| ThemeStore.Theme.EffectiveMode | frontend/src/store/themeStore.js:23-26 | never "system": the stored mode when it is light or dark, else dark exactly when the system prefers dark |
| ThemeStore.Theme.IsDarkMode | frontend/src/store/themeStore.js:29-31 | dark exactly when dark is stored, or "system" is stored and the system prefers dark |
| ThemeStore.Theme.ToggleMode | frontend/src/store/themeStore.js:34-38 | the stored mode becomes the toggled one, so the theme is dark afterwards exactly when it was light before, whatever the system prefers |
| TopicClassification.AnyRelatedExists | backend/src/main/java/com/flowchat/service/TopicClassificationService.java:92-97 | the one-keyword-at-a-time scan finds a related keyword exactly when some keyword contains the word or lies inside it |
| TopicClassification.LabelScoreStep | backend/src/main/java/com/flowchat/service/TopicClassificationService.java:77-99 | a label's score over one more word is the earlier score plus that word's score |
| TopicClassification.PartialMatch | backend/src/main/java/com/flowchat/service/TopicClassificationService.java:92-97 | the keyword loop reports a match exactly when some keyword contains the word or is contained in it |
| TopicClassification.Gains | backend/src/main/java/com/flowchat/service/TopicClassificationService.java:81-98 | what one word adds is defined for every label of the dictionary and is that label's word score |
| TopicClassification.ScoreLabel | backend/src/main/java/com/flowchat/service/TopicClassificationService.java:85-97 | one label's scan yields the word score: 3 on an exact hit, else 1 on a related keyword, else 0 |
| TopicClassification.ScoredStep | backend/src/main/java/com/flowchat/service/TopicClassificationService.java:81-98 | merging one more label's gain into the partial score map keeps every label's score equal to its old score plus its gain |
| TopicClassification.ScoreWord | backend/src/main/java/com/flowchat/service/TopicClassificationService.java:81-98 | after one word, every label's score is its old score plus that word's gain, and a label is present exactly when it was or it gained |
| TopicClassification.ScoreWords | backend/src/main/java/com/flowchat/service/TopicClassificationService.java:73-99 | the score map over the words holds exactly the labels that scored, each with its total over all words |
| TopicClassification.Best | backend/src/main/java/com/flowchat/service/TopicClassificationService.java:102-105 | an empty score map gives the default; otherwise a label of the map whose score no other label exceeds |
| TopicClassification.Classify | backend/src/main/java/com/flowchat/service/TopicClassificationService.java:68-106 | a null or blank message, or one that scores nothing, gets the default; otherwise a label of maximal score |
| TopicClassification.ClassifyTopic | backend/src/main/java/com/flowchat/service/TopicClassificationService.java:68-106 | the topic is one of the five topics or 기타, and of maximal score when any scored |
| TopicClassification.AnalyzeEmotion | backend/src/main/java/com/flowchat/service/TopicClassificationService.java:111-154 | the emotion is 긍정, 부정 or 중립, of maximal score when any scored, else 중립 |
| TopicClassification.AnalyzeMessage | backend/src/main/java/com/flowchat/service/TopicClassificationService.java:186-191 | the topic and the emotion of the message, and 기타 and 중립 for a null or blank message |
| TopicClassification.GetTopicStatistics | backend/src/main/java/com/flowchat/service/TopicClassificationService.java:159-181 | the total is the number of messages; each distribution holds only known labels and its counts sum to the number of messages |
| TopicClassification.WordScoreValues | backend/src/main/java/com/flowchat/service/TopicClassificationService.java:85-97 | a word scores 3 exactly when it is a keyword, 1 exactly when it is not but a keyword is related to it, and 0 otherwise |
| TopicClassification.ShortWordsScoreNothing | backend/src/main/java/com/flowchat/service/TopicClassificationService.java:78-79 | a word shorter than two characters after trimming changes no label's score |
| TopicClassification.LabelScoreMonotone | backend/src/main/java/com/flowchat/service/TopicClassificationService.java:77-99 | more words never lower a label's score |
| UserEntity.User.constructor | backend/src/main/java/com/flowchat/entity/User.java:51-56 | a new active user with the given username, password and name, never logged in, not yet stored |
| UserEntity.User.Load | backend/src/main/java/com/flowchat/entity/User.java:17-45 | the entity of a stored user carries every column of its row |
| UserEntity.User.UpdateLastLogin | backend/src/main/java/com/flowchat/entity/User.java:108-110 | the last login becomes the current time; nothing else changes |
| UserEntity.User.Deactivate | backend/src/main/java/com/flowchat/entity/User.java:112-114 | only the active flag changes, to false |
| UserEntity.User.Activate | backend/src/main/java/com/flowchat/entity/User.java:116-118 | only the active flag changes, to true |
| UserEntity.User.SetName | backend/src/main/java/com/flowchat/entity/User.java:83-85 | only the display name changes |
| UserEntity.User.SetPassword | backend/src/main/java/com/flowchat/entity/User.java:75-77 | only the password changes |
| UserEntity.User.Persist | backend/src/main/java/com/flowchat/entity/User.java:19-40 | saving assigns the generated id and, only the first time, the creation time; nothing else changes |
| UserEntity.User.Row | backend/src/main/java/com/flowchat/entity/User.java:17-45 | the stored row of a saved user has every field of the entity |
| UserService.FindByUsername | backend/src/main/java/com/flowchat/repository/UserRepository.java:19-24 | finds a user exactly when the username is taken, and the one found has that username |
| UserService.FindByName | backend/src/main/java/com/flowchat/repository/UserRepository.java:29-34 | finds a user exactly when the display name is taken, and the one found has that name |
| UserService.UserById | backend/src/main/java/com/flowchat/service/UserService.java:109-112 | the stored user exactly when the id is known, else the unknown-user error with the id |
| UserService.RegisterRefusal | backend/src/main/java/com/flowchat/service/UserService.java:34-43 | registration is refused exactly when the username or the name is taken; a taken username is reported first |
| UserService.LoginRefusal | backend/src/main/java/com/flowchat/service/UserService.java:56-69 | login goes through exactly when the user exists, is active and the password matches; otherwise the unknown-user, inactive-user or wrong-password error, in that order |
| UserService.RefreshRefusal | backend/src/main/java/com/flowchat/service/UserService.java:85-99 | refresh goes through exactly when the token is a valid refresh token whose subject exists and is active; an invalid or non-refresh token and an unknown subject each get their error |
| UserService.ProfileRefusal | backend/src/main/java/com/flowchat/service/UserService.java:126-133 | the update goes through exactly when the user exists and no other user has the name; otherwise the unknown-user or the duplicate-name error |
| UserService.OwnNameAccepted | backend/src/main/java/com/flowchat/service/UserService.java:129-133 | a user may keep their own display name |
| UserService.RegisteredUsernameRefused | backend/src/main/java/com/flowchat/service/UserService.java:36-38 | once a user is stored, registering its username again is refused with the duplicate-username error, whatever name comes with it |
| UserService.DeactivatedLocksOut | backend/src/main/java/com/flowchat/service/UserService.java:158-162 | a deactivated user is still found by username, and login is then refused as inactive whatever the password |
| UserService.LoginTokenRefreshes | backend/src/main/java/com/flowchat/service/UserService.java:76-102 | the refresh token a login issues refreshes while the account stays as the login left it, and names that same user |
| UserService.UserRepository.constructor | backend/src/main/java/com/flowchat/repository/UserRepository.java:14 | an empty user table |
| UserService.UserRepository.Save | backend/src/main/java/com/flowchat/repository/UserRepository.java:14 | a loaded user overwrites its own row; a new one gets the next unused id and its creation time; no other row changes and usernames stay unique |
| UserService.UserService.constructor | backend/src/main/java/com/flowchat/service/UserService.java:22-29 | the service over a well-formed user table |
| UserService.UserService.RegisterUser | backend/src/main/java/com/flowchat/service/UserService.java:34-51 | refused exactly when RegisterRefusal says, with its error and no change; otherwise a new active user with the encoded password, stored under a new id and nothing else changed |
| UserService.UserService.AuthenticateUser | backend/src/main/java/com/flowchat/service/UserService.java:56-80 | refused exactly when LoginRefusal says, with its error and no change; otherwise the user's last login is now, only that row changes, and the two tokens name the user |
| UserService.UserService.RefreshAccessToken | backend/src/main/java/com/flowchat/service/UserService.java:85-103 | refused exactly when RefreshRefusal says, with its error; otherwise an access token for the refresh token's own subject and user id |
| UserService.UserService.GetUserByUsername | backend/src/main/java/com/flowchat/service/UserService.java:118-121 | the stored user with that username exactly when it is taken, else the unknown-user error with the username |
| UserService.UserService.UpdateUserProfile | backend/src/main/java/com/flowchat/service/UserService.java:126-137 | refused exactly when ProfileRefusal says, with no change; otherwise only the user's display name changes |
| UserService.UserService.ChangePassword | backend/src/main/java/com/flowchat/service/UserService.java:142-153 | an unknown user and a wrong current password are refused with their errors and no change; otherwise only the user's password changes, to the encoded new one |
| UserService.UserService.DeactivateUser | backend/src/main/java/com/flowchat/service/UserService.java:158-162 | refused exactly when the user is unknown, with no change; otherwise only the active flag changes, to false |
| UserService.UserService.ActivateUser | backend/src/main/java/com/flowchat/service/UserService.java:167-171 | refused exactly when the user is unknown, with no change; otherwise only the active flag changes, to true |
| UserService.UserService.LoadUserByUsername | backend/src/main/java/com/flowchat/service/UserService.java:178-195 | an unknown user and an inactive one are not found, with their messages; a user found is active, keeps its username and password, and is never disabled |

## Left out

- **Threads and timers.** Asynchronous and concurrent execution (`@Async`, `CompletableFuture`, `ConcurrentHashMap` atomicity, `@Scheduled` timers) is out: every operation runs to completion, one at a time.
- **The LLM call.** The HTTP request, prompts and JSON parsing are out. The model takes the answer as an input: either the parsed topic, emotion and keywords, or a failure. Answer fields other than those three are not modelled.
- **Transport and security.** STOMP delivery, JWT signing and parsing, and BCrypt are out. Token claims, password matching and encoded passwords are inputs.
- **Caching.** `@Cacheable` and `@CacheEvict` are out.
- **Floating point.** Averages, scores and confidences are out.
- **UI.** Rendering, locale date formats, sounds, desktop notifications, `updateSettings`, `requestDesktopPermission` and zustand persistence are out.
- **Time.** Timestamps are whole seconds, and nanoseconds are dropped. `LocalTime.MAX` is 86399. The client's `MessageList` compares milliseconds, as the client does.
- **Strings.**
  - Lower-casing covers ASCII letters only.
  - A string's length counts characters. JavaScript's UTF-16 code-unit length differs for characters outside the Basic Multilingual Plane.
  - The `parseInt` model reads an optional sign and leading digits. It ignores leading whitespace and `0x` prefixes.
- **Repository queries.** Queries other than the member repository's are inputs or simple filters over the stored rows: the message `LIKE` search, the database's listing orders and `countByRoomId`.
- **Time-stamped extras.** `getRoomMessageHistory`'s paging, `latestAnalysisDate`, `generatedAt` and `lastUpdated` are not modelled.
- **Other controller and service operations.**
  - `kickUserFromRoom`, `sendTypingStatus` and `sendMessageHistoryToUser` are out. So is the timestamp in `broadcastRoomInfo`.
  - `getAvailableChatRooms`, `getPopularChatRooms` and `ChatRoomService.getRoomMembers` are out.
  - `handleWebSocketConnectedListener` only logs, so it is not modelled.
- **Other client actions.** The client's fetch actions other than `fetchAnalysisHistory`'s merge are out.
- **Inputs the client never meets.**
  - A notification's random id and creation time are parameters.
  - `themeStore.setMode` accepts only the three modes: light, dark and system.
  - The typing indicator's `!typingUsers` case for a missing list is not modelled; an empty list stands for it.
- **Null contents.** Message contents are never null in the model. The report's `Objects::nonNull` filter therefore drops nothing.
- **Weaker statements.**
  - `TopicClassification.GetTopicStatistics`: states that each distribution sums to the number of messages and holds only known labels. It does not state each label's count, because the classifier's label among tied scores is left open.
  - `TopicClassification.Best`: states that the chosen label has maximal score. It does not say which label wins a tie, because that depends on the hash map's iteration order.
  - `MessageHistory.SortByTime`: states that the result is ordered by timestamp and is a permutation of the input. It does not state stability.
  - `Report.GenerateReportForPeriod`: keeps the list of contents handed to topic statistics rather than the statistics themselves. That list is the corrected one (`Report.TopicInputs`, without SYSTEM messages), not the one the code builds; see "Findings".
  - `Report.DetailsOf`: holds the corrected topic inputs, without SYSTEM messages, where the code hands over every content; see "Findings".
  - `MessageHistory.SearchMessages`: uses the exact page bounds. Where `page * size` wraps around in 32-bit arithmetic, the endpoint returns a page instead of the error body; see "Findings".
  - `KeywordExtraction.ExtractKeywords`: among tokens with equal counts, keeps the order of first occurrence. The code's stable sort keeps the `HashMap`'s bucket order instead, so the order of tied keywords can differ ("ba ab" gives `ba, ab` here and `ab, ba` in the code). When more than ten tokens tie at the cut, the kept set can differ too. The hash order is not modelled. A fixed order keeps the rebuild deterministic, as the code's is.
  - `KeywordExtraction.Keywords`: the same tie order as `ExtractKeywords`, which it specifies.
  - `Text.ParseLong`: reads ASCII digits only. `Long.parseLong` also accepts other Unicode decimal digits.
- **Integer width.** Counters and counts are unbounded. The code's `int`, `Integer` and `AtomicInteger` counters would wrap around past 2^31 - 1; the model does not.

## Findings

| source | as written | input that shows it | evidently intended | confidence | as-written member | corrected member |
|---|---|---|---|---|---|---|
| backend/src/main/java/com/flowchat/service/ReportService.java:113-117 | The topic filter compares the string `"SYSTEM"` with the message's enum type using `String.equals`. The comparison is always false, so no message is excluded. | A period holding a single SYSTEM entry notice: its text is passed to topic statistics. | System messages are excluded from topic analysis, as the comment at line 112 says. | high, not executed | Report.TopicInputsAsWritten, with Report.SystemNoticeReachesTopics | Report.TopicInputs, with Report.TopicInputsExcludeSystem |
| backend/src/main/java/com/flowchat/controller/MessageHistoryController.java:226-228 | `page * size` is computed in 32-bit `int` and wraps around. | 100 hits with page 65536 and size 65536: the product wraps to 0, so the first page is returned instead of an error. | A page past the end is refused. | medium, not executed | MessageHistory.SearchBoundsAsWritten, with MessageHistory.SearchPageOverflow | MessageHistory.SearchBounds, with MessageHistory.SearchMessages and MessageHistory.SearchBoundsAgree |
