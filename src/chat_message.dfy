/**
 * The `ChatMessage` entity: one message of a chat room, its type and its
 * edit/delete life cycle. The repository's stored form is `MessageRow`.
 */
module Messages {
  import opened Wrappers

  datatype MessageType = TEXT | IMAGE | FILE | SYSTEM | ANNOUNCEMENT
  {
    /** `isSystemMessage`: entry/exit notices and announcements. */
    predicate IsSystem()
    {
      this == SYSTEM || this == ANNOUNCEMENT
    }

    /** `isUserMessage`: what a member typed or uploaded; exactly the non-system types. */
    predicate IsUser(): (b: bool)
      ensures b <==> !IsSystem()
    {
      this == TEXT || this == IMAGE || this == FILE
    }
  }

  /** The text a deleted message shows instead of its content. */
  const DeletedPlaceholder: string := "삭제된 메시지입니다"

  const SecondsPerDay: int := 86400

  /** `LocalDateTime.getHour()` of a timestamp in seconds. */
  function HourOf(timestamp: int): (hour: int)
    ensures 0 <= hour < 24
  {
    (timestamp % SecondsPerDay) / 3600
  }

  /**
   * A message as stored: `id` and `timestamp` are assigned on save, so they
   * are always present here.
   */
  datatype MessageRow = MessageRow(
    id: int,
    roomId: int,
    userId: Option<int>,
    username: Option<string>,
    name: Option<string>,
    content: string,
    timestamp: int,
    messageType: MessageType,
    isDeleted: bool,
    editedAt: Option<int>)
  {
    /** The name statistics are kept under: the nickname, else the login name. */
    function DisplayName(): (r: Option<string>)
      ensures name.Some? ==> r == name
      ensures name.None? ==> r == username
    {
      if name.Some? then name else username
    }
  }

  class ChatMessage {
    var id: Option<int>
    var roomId: int
    var userId: Option<int>
    var username: Option<string>
    var name: Option<string>
    var content: string
    var timestamp: Option<int>
    var messageType: MessageType
    var isDeleted: bool
    var editedAt: Option<int>

    /** `new ChatMessage(roomId, userId, content)`: a fresh TEXT message. */
    constructor(roomId: int, userId: Option<int>, content: string)
      ensures this.roomId == roomId && this.userId == userId && this.content == content
      ensures messageType == TEXT && !isDeleted && editedAt == None
      ensures id == None && timestamp == None && username == None && name == None
    {
      this.id := None;
      this.roomId := roomId;
      this.userId := userId;
      this.username := None;
      this.name := None;
      this.content := content;
      this.timestamp := None;
      this.messageType := TEXT;
      this.isDeleted := false;
      this.editedAt := None;
    }

    /** `new ChatMessage(roomId, userId, content, messageType)`. */
    constructor OfType(roomId: int, userId: Option<int>, content: string, messageType: MessageType)
      ensures this.roomId == roomId && this.userId == userId && this.content == content
      ensures this.messageType == messageType && !isDeleted && editedAt == None
      ensures id == None && timestamp == None && username == None && name == None
    {
      this.id := None;
      this.roomId := roomId;
      this.userId := userId;
      this.username := None;
      this.name := None;
      this.content := content;
      this.timestamp := None;
      this.messageType := messageType;
      this.isDeleted := false;
      this.editedAt := None;
    }

    /** `edit` at time `now`: refused once the message is deleted. */
    method Edit(newContent: string, now: int) returns (outcome: Outcome)
      modifies this
      ensures old(isDeleted) ==> outcome.Fail? && outcome.error.IllegalState? && unchanged(this)
      ensures !old(isDeleted) ==> outcome == Done && content == newContent && editedAt == Some(now)
      ensures !old(isDeleted) ==> IsEdited()
      ensures id == old(id) && roomId == old(roomId) && userId == old(userId)
      ensures username == old(username) && name == old(name) && timestamp == old(timestamp)
      ensures messageType == old(messageType) && isDeleted == old(isDeleted)
    {
      if isDeleted {
        return Fail(IllegalState("삭제된 메시지는 수정할 수 없습니다"));
      }
      content := newContent;
      editedAt := Some(now);
      outcome := Done;
    }

    /** `delete`: a soft delete that replaces the content by the placeholder. */
    method Delete()
      modifies this
      ensures isDeleted && content == DeletedPlaceholder
      ensures id == old(id) && roomId == old(roomId) && userId == old(userId)
      ensures username == old(username) && name == old(name) && timestamp == old(timestamp)
      ensures messageType == old(messageType) && editedAt == old(editedAt)
    {
      isDeleted := true;
      content := DeletedPlaceholder;
    }

    method SetMessageType(messageType: MessageType)
      modifies this
      ensures this.messageType == messageType
      ensures id == old(id) && roomId == old(roomId) && userId == old(userId)
      ensures username == old(username) && name == old(name) && content == old(content)
      ensures timestamp == old(timestamp) && isDeleted == old(isDeleted) && editedAt == old(editedAt)
    {
      this.messageType := messageType;
    }

    predicate IsEdited()
      reads this
    {
      editedAt.Some?
    }

    predicate IsSystemMessage()
      reads this
    {
      messageType.IsSystem()
    }

    predicate IsUserMessage(): (b: bool)
      reads this
      ensures b <==> !IsSystemMessage()
    {
      messageType.IsUser()
    }

    /** Saving assigns the generated id and the creation time. */
    method Persist(newId: int, now: int)
      modifies this
      ensures id == Some(newId)
      ensures timestamp == (if old(timestamp).Some? then old(timestamp) else Some(now))
      ensures roomId == old(roomId) && userId == old(userId) && username == old(username)
      ensures name == old(name) && content == old(content) && messageType == old(messageType)
      ensures isDeleted == old(isDeleted) && editedAt == old(editedAt)
    {
      id := Some(newId);
      if timestamp.None? {
        timestamp := Some(now);
      }
    }

    /** The stored form of a saved message. */
    function Row(): (r: MessageRow)
      requires id.Some? && timestamp.Some?
      reads this
      ensures r.id == id.value && r.timestamp == timestamp.value
      ensures r.roomId == roomId && r.userId == userId && r.content == content
      ensures r.messageType == messageType && r.isDeleted == isDeleted && r.editedAt == editedAt
      ensures r.username == username && r.name == name
    {
      MessageRow(id.value, roomId, userId, username, name, content, timestamp.value,
                 messageType, isDeleted, editedAt)
    }
  }

  /** `createSystemMessage`: no sender. */
  method CreateSystemMessage(roomId: int, content: string) returns (m: ChatMessage)
    ensures fresh(m)
    ensures m.messageType == SYSTEM && m.userId == None && m.roomId == roomId && m.content == content
    ensures !m.isDeleted && m.editedAt == None
  {
    m := new ChatMessage.OfType(roomId, None, content, SYSTEM);
  }

  /** `createAnnouncementMessage`. */
  method CreateAnnouncementMessage(roomId: int, userId: int, content: string) returns (m: ChatMessage)
    ensures fresh(m)
    ensures m.messageType == ANNOUNCEMENT && m.userId == Some(userId) && m.roomId == roomId
    ensures m.content == content && !m.isDeleted && m.editedAt == None
  {
    m := new ChatMessage.OfType(roomId, Some(userId), content, ANNOUNCEMENT);
  }

  /** Once deleted, a message refuses every later edit and keeps the placeholder. */
  method DeleteThenEdit(m: ChatMessage, newContent: string, now: int) returns (outcome: Outcome)
    modifies m
    ensures outcome.Fail? && outcome.error.IllegalState?
    ensures m.isDeleted && m.content == DeletedPlaceholder && m.editedAt == old(m.editedAt)
  {
    m.Delete();
    outcome := m.Edit(newContent, now);
  }
}
