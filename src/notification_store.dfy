/**
 * The web client's notification list: newest first, at most fifty, each
 * with a read flag; and the convenience constructors that fix a
 * notification's type and display time.
 */
module NotificationStore {
  import opened Text

  /** What a caller asks `addNotification` to show. */
  datatype Request = Request(kind: string, title: string, message: string, duration: int)

  /** A shown notification: the id and the time are assigned when it is added. */
  datatype Notice = Notice(id: int, timestamp: int, read: bool, kind: string, title: string, message: string, duration: int)

  /** How many notifications the list keeps. */
  const Capacity: nat := 50

  /**
   * `addNotification`: the new notice, unread, goes first; only the first
   * forty-nine of the old ones stay.  `id` and `now` stand for the
   * clock-and-random id and the creation time.
   */
  function AddNotification(list: seq<Notice>, req: Request, id: int, now: int): (r: seq<Notice>)
    ensures |r| <= Capacity && |r| == Min(|list| + 1, Capacity)
    ensures r[0] == Notice(id, now, false, req.kind, req.title, req.message, req.duration)
    ensures r[1..] == list[..|r| - 1]
  {
    [Notice(id, now, false, req.kind, req.title, req.message, req.duration)] + Take(list, Capacity - 1)
  }

  function Min(a: int, b: int): int
  {
    if a < b then a else b
  }

  /** `filter(n => n.id !== id)`. */
  function RemoveNotification(list: seq<Notice>, id: int): (r: seq<Notice>)
    ensures |r| <= |list|
    ensures forall n :: n in r <==> n in list && n.id != id
  {
    if list == [] then []
    else
      var last := list[|list| - 1];
      RemoveNotification(list[..|list| - 1], id) + (if last.id == id then [] else [last])
  }

  /** Removal keeps the order of what stays: removing from a concatenation removes from each part. */
  lemma {:induction false} RemoveDistributes(a: seq<Notice>, b: seq<Notice>, id: int)
    ensures RemoveNotification(a + b, id) == RemoveNotification(a, id) + RemoveNotification(b, id)
    decreases |b|
  {
    if b == [] {
      assert a + b == a;
    } else {
      var init, last := b[..|b| - 1], b[|b| - 1];
      var tail := if last.id == id then [] else [last];
      calc {
        RemoveNotification(a + b, id);
        { assert (a + b)[..|a + b| - 1] == a + init; assert (a + b)[|a + b| - 1] == last; }
        RemoveNotification(a + init, id) + tail;
        { RemoveDistributes(a, init, id); }
        RemoveNotification(a, id) + RemoveNotification(init, id) + tail;
        RemoveNotification(a, id) + (RemoveNotification(init, id) + tail);
        RemoveNotification(a, id) + RemoveNotification(b, id);
      }
    }
  }

  /** `markAsRead`: the notices with that id become read; everything else stays. */
  function MarkAsRead(list: seq<Notice>, id: int): (r: seq<Notice>)
    ensures |r| == |list|
    ensures forall i :: 0 <= i < |list| ==> r[i] == if list[i].id == id then list[i].(read := true) else list[i]
  {
    if list == [] then []
    else
      var last := list[|list| - 1];
      MarkAsRead(list[..|list| - 1], id) + [if last.id == id then last.(read := true) else last]
  }

  /** `markAllAsRead`. */
  function MarkAllAsRead(list: seq<Notice>): (r: seq<Notice>)
    ensures |r| == |list|
    ensures forall i :: 0 <= i < |list| ==> r[i] == list[i].(read := true)
  {
    if list == [] then [] else MarkAllAsRead(list[..|list| - 1]) + [list[|list| - 1].(read := true)]
  }

  /** The number of unread notices, as the client's badge shows. */
  function UnreadCount(list: seq<Notice>): (n: nat)
    ensures n <= |list|
  {
    if list == [] then 0 else UnreadCount(list[..|list| - 1]) + (if list[|list| - 1].read then 0 else 1)
  }

  lemma {:induction false} UnreadCountZero(list: seq<Notice>)
    requires forall i :: 0 <= i < |list| ==> list[i].read
    ensures UnreadCount(list) == 0
  {
    if list != [] {
      UnreadCountZero(list[..|list| - 1]);
    }
  }

  /** After `markAllAsRead` nothing is unread; marking one id never raises the count. */
  lemma MarkReadCounts(list: seq<Notice>, id: int)
    ensures UnreadCount(MarkAllAsRead(list)) == 0
    ensures UnreadCount(MarkAsRead(list, id)) <= UnreadCount(list)
  {
    UnreadCountZero(MarkAllAsRead(list));
    MarkOneCount(list, id);
  }

  lemma {:induction false} MarkOneCount(list: seq<Notice>, id: int)
    ensures UnreadCount(MarkAsRead(list, id)) <= UnreadCount(list)
  {
    if list != [] {
      var init := list[..|list| - 1];
      MarkOneCount(init, id);
      var r := MarkAsRead(list, id);
      assert r[..|r| - 1] == MarkAsRead(init, id);
    }
  }

  /** A new notice is unread: it adds one to the count of what it keeps. */
  lemma AddIsUnread(list: seq<Notice>, req: Request, id: int, now: int)
    ensures UnreadCount(AddNotification(list, req, id, now)) == UnreadCount(AddNotification(list, req, id, now)[1..]) + 1
  {
    var r := AddNotification(list, req, id, now);
    UnreadPrepend(r[0], r[1..]);
    assert [r[0]] + r[1..] == r;
  }

  lemma {:induction false} UnreadPrepend(n: Notice, list: seq<Notice>)
    ensures UnreadCount([n] + list) == UnreadCount(list) + (if n.read then 0 else 1)
    decreases |list|
  {
    if list != [] {
      var init := list[..|list| - 1];
      assert ([n] + list)[..|list|] == [n] + init;
      UnreadPrepend(n, init);
    }
  }

  /** `clearAllNotifications`. */
  function ClearAll(list: seq<Notice>): (r: seq<Notice>)
    ensures r == [] && UnreadCount(r) == 0
  {
    []
  }

  // ------------------------------------------------------------ constructors

  const SuccessDuration: int := 4000
  const ErrorDuration: int := 6000
  const WarningDuration: int := 5000
  const InfoDuration: int := 3000
  const MessageDuration: int := 4000
  const AnalysisDuration: int := 4000

  /** `success` / `error` / `warning` / `info`: the type names the severity and fixes how long it shows. */
  function Success(title: string, message: string): (r: Request)
    ensures r.kind == "success" && r.duration == SuccessDuration && r.title == title && r.message == message
  {
    Request("success", title, message, SuccessDuration)
  }

  function Error(title: string, message: string): (r: Request)
    ensures r.kind == "error" && r.duration == ErrorDuration && r.title == title && r.message == message
  {
    Request("error", title, message, ErrorDuration)
  }

  function Warning(title: string, message: string): (r: Request)
    ensures r.kind == "warning" && r.duration == WarningDuration && r.title == title && r.message == message
  {
    Request("warning", title, message, WarningDuration)
  }

  function Info(title: string, message: string): (r: Request)
    ensures r.kind == "info" && r.duration == InfoDuration && r.title == title && r.message == message
  {
    Request("info", title, message, InfoDuration)
  }

  /** An error stays up longest, an info notice shortest. */
  lemma DurationsOrdered(title: string, message: string)
    ensures Info(title, message).duration < Success(title, message).duration < Warning(title, message).duration < Error(title, message).duration
  {
  }

  /** How much of a message a new-message notice quotes. */
  const PreviewLength: nat := 50

  /** `content.length > 50 ? content.substring(0, 50) + '...' : content`. */
  function Preview(content: string): (r: string)
    ensures |content| <= PreviewLength ==> r == content
    ensures |content| > PreviewLength ==> r == content[..PreviewLength] + "..." && |r| == PreviewLength + 3
    ensures |r| <= PreviewLength + 3
  {
    if |content| > PreviewLength then content[..PreviewLength] + "..." else content
  }

  /** `newMessage`: the room names the title, the sender and a preview of the content make the text. */
  function NewMessage(roomName: string, senderName: string, content: string): (r: Request)
    ensures r.kind == "message" && r.duration == MessageDuration
    ensures r.title == "새 메시지 - " + roomName
    ensures r.message == senderName + ": " + Preview(content)
  {
    Request("message", "새 메시지 - " + roomName, senderName + ": " + Preview(content), MessageDuration)
  }

  /** The preview begins with the content's first fifty characters, whatever its length. */
  lemma PreviewIsPrefix(content: string)
    ensures var p := Preview(content);
      var n := if |content| < PreviewLength then |content| else PreviewLength;
      p[..n] == content[..n]
  {
  }

  /** `analysisComplete`. */
  function AnalysisComplete(roomName: string): (r: Request)
    ensures r.kind == "analysis" && r.duration == AnalysisDuration && r.title == "분석 완료"
    ensures r.message == roomName + "의 채팅 분석이 완료되었습니다."
  {
    Request("analysis", "분석 완료", roomName + "의 채팅 분석이 완료되었습니다.", AnalysisDuration)
  }
}
