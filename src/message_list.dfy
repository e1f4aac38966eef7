/**
 * The message list view's two pieces of logic: how consecutive messages
 * are grouped (an avatar at the start of a sender's run, a time under its
 * last message), and the text of the typing indicator.
 */
module MessageList {
  import opened Wrappers
  import opened Text
  import opened ChatStore

  /** Two messages of one sender at most this many milliseconds apart share one time label. */
  const GroupGap: int := 60000

  /** A message with the two display flags the list computes for it. */
  datatype Grouped = Grouped(message: ClientMessage, showAvatar: bool, showTime: bool)

  /** `messages[j]`, or `undefined` off either end. */
  function Neighbour(messages: seq<ClientMessage>, j: int): (r: Option<ClientMessage>)
    ensures r.Some? <==> 0 <= j < |messages|
    ensures r.Some? ==> r.value == messages[j]
  {
    if 0 <= j < |messages| then Some(messages[j]) else None
  }

  /** The avatar rule for a message given the one before it. */
  predicate AvatarShown(prev: Option<ClientMessage>, m: ClientMessage)
  {
    prev.None? || prev.value.userId != m.userId || prev.value.messageType == "SYSTEM" || m.messageType == "SYSTEM"
  }

  /** The time rule for a message given the one after it. */
  predicate TimeShown(m: ClientMessage, next: Option<ClientMessage>)
  {
    next.None? || next.value.userId != m.userId || next.value.timestamp - m.timestamp > GroupGap
  }

  /** What the `reduce` callback pushes for the message at `i`. */
  function GroupedAt(messages: seq<ClientMessage>, i: nat): (g: Grouped)
    requires i < |messages|
    ensures g.message == messages[i]
  {
    Grouped(messages[i], AvatarShown(Neighbour(messages, i - 1), messages[i]), TimeShown(messages[i], Neighbour(messages, i + 1)))
  }

  /** `groupedMessages`: every message in its place, each flag decided by its neighbours. */
  function GroupMessages(messages: seq<ClientMessage>): (r: seq<Grouped>)
    ensures |r| == |messages|
    ensures forall i :: 0 <= i < |r| ==> r[i] == GroupedAt(messages, i)
  {
    seq(|messages|, i requires 0 <= i < |messages| => GroupedAt(messages, i))
  }

  /**
   * A message shows an avatar when it opens a run (it is the first, its
   * sender differs from the previous one, or either is a system message),
   * and a time when it closes one (it is the last, the next sender differs,
   * or the next message comes more than a minute later).
   */
  lemma GroupingFlags(messages: seq<ClientMessage>, i: nat)
    requires i < |messages|
    ensures var g := GroupMessages(messages)[i];
      && (g.showAvatar <==> (i == 0 || messages[i - 1].userId != messages[i].userId
           || messages[i - 1].messageType == "SYSTEM" || messages[i].messageType == "SYSTEM"))
      && (g.showTime <==> (i == |messages| - 1 || messages[i + 1].userId != messages[i].userId
           || Gap(messages, i + 1) > GroupGap))
  {
  }

  /** The messages the grouped list shows, in order. */
  function Shown(gs: seq<Grouped>): (r: seq<ClientMessage>)
    ensures |r| == |gs|
    ensures forall i :: 0 <= i < |gs| ==> r[i] == gs[i].message
  {
    if gs == [] then [] else Shown(gs[..|gs| - 1]) + [gs[|gs| - 1].message]
  }

  /** Grouping neither drops, adds nor reorders a message. */
  lemma GroupingKeepsMessages(messages: seq<ClientMessage>)
    ensures Shown(GroupMessages(messages)) == messages
  {
    var r := Shown(GroupMessages(messages));
    assert |r| == |messages|;
    assert forall i :: 0 <= i < |r| ==> r[i] == messages[i];
  }

  /** A sender change between two neighbours closes one group and opens the next. */
  lemma SenderChangeSplits(messages: seq<ClientMessage>, i: nat)
    requires i + 1 < |messages| && messages[i].userId != messages[i + 1].userId
    ensures GroupMessages(messages)[i].showTime && GroupMessages(messages)[i + 1].showAvatar
  {
    GroupingFlags(messages, i);
    GroupingFlags(messages, i + 1);
  }

  /** How many of the grouped messages show an avatar, and how many a time. */
  function AvatarCount(gs: seq<Grouped>): (n: nat)
    ensures n <= |gs|
  {
    if gs == [] then 0 else AvatarCount(gs[..|gs| - 1]) + (if gs[|gs| - 1].showAvatar then 1 else 0)
  }

  function TimeCount(gs: seq<Grouped>): (n: nat)
    ensures n <= |gs|
  {
    if gs == [] then 0 else TimeCount(gs[..|gs| - 1]) + (if gs[|gs| - 1].showTime then 1 else 0)
  }

  /** `messages[a..b]` come from one sender and none is a system message. */
  predicate OneSenderRun(messages: seq<ClientMessage>, a: nat, b: nat)
    requires a < b <= |messages|
  {
    forall i :: a <= i < b ==> messages[i].userId == messages[a].userId && messages[i].messageType != "SYSTEM"
  }

  /** Each message of `messages[a..b]` follows the one before within the gap. */
  predicate CloseInTime(messages: seq<ClientMessage>, a: nat, b: nat)
    requires a < b <= |messages|
  {
    forall i :: a < i < b ==> Gap(messages, i) <= GroupGap
  }

  /** How long after the previous message the one at `i` was sent, in milliseconds. */
  function Gap(messages: seq<ClientMessage>, i: nat): int
    requires 0 < i < |messages|
  {
    messages[i].timestamp - messages[i - 1].timestamp
  }

  /** A run of one sender shows at most one avatar, and only on its first message. */
  lemma {:induction false} RunShowsOneAvatar(messages: seq<ClientMessage>, a: nat, b: nat)
    requires a < b <= |messages| && OneSenderRun(messages, a, b)
    ensures var r := GroupMessages(messages);
      AvatarCount(r[a..b]) == (if r[a].showAvatar then 1 else 0)
    decreases b
  {
    var r := GroupMessages(messages);
    var run := r[a..b];
    assert run[..|run| - 1] == r[a..b - 1];
    if b == a + 1 {
      assert r[a..b - 1] == [];
    } else {
      RunShowsOneAvatar(messages, a, b - 1);
      GroupingFlags(messages, b - 1);
    }
  }

  /** A run of one sender with no gap over a minute shows at most one time, and only on its last message. */
  lemma {:induction false} RunShowsOneTime(messages: seq<ClientMessage>, a: nat, b: nat)
    requires a < b <= |messages| && OneSenderRun(messages, a, b) && CloseInTime(messages, a, b)
    ensures var r := GroupMessages(messages);
      TimeCount(r[a..b]) == (if r[b - 1].showTime then 1 else 0)
    decreases b
  {
    var r := GroupMessages(messages);
    var run := r[a..b];
    assert run[..|run| - 1] == r[a..b - 1];
    if b == a + 1 {
      assert r[a..b - 1] == [];
    } else {
      RunShowsOneTime(messages, a, b - 1);
      GroupingFlags(messages, b - 2);
    }
  }

  // ------------------------------------------------------------ typing indicator

  /**
   * `TypingIndicator`: nothing for nobody; "X님이 입력 중..." for one user;
   * otherwise the first two names, and how many more there are when there
   * are more than two.
   */
  function TypingText(users: seq<string>): (r: Option<string>)
    ensures r.None? <==> users == []
    ensures |users| == 1 ==> r == Some(users[0] + "님이 입력 중...")
    ensures |users| >= 2 ==> r == Some(users[0] + ", " + users[1]
      + (if |users| > 2 then " 외 " + NatToString(|users| - 2) + "명" else "") + "이 입력 중...")
  {
    if users == [] then None
    else if |users| == 1 then Some(users[0] + "님이 입력 중...")
    else
      var names := users[..2];
      assert Join(names, ", ") == names[0] + ", " + names[1] by {
        assert names[1..] == [names[1]];
      }
      Some(Join(names, ", ") + (if |users| > 2 then " 외 " + NatToString(|users| - 2) + "명" else "") + "이 입력 중...")
  }

  /** The text depends only on the first two names and on how many users there are. */
  lemma TypingTextDependsOnHead(u: seq<string>, v: seq<string>)
    requires |u| == |v| && (|u| <= 2 ==> u == v) && (|u| > 2 ==> u[..2] == v[..2])
    ensures TypingText(u) == TypingText(v)
  {
    if |u| > 2 {
      assert u[0] == u[..2][0] && u[1] == u[..2][1];
      assert v[0] == v[..2][0] && v[1] == v[..2][1];
    }
  }
}
