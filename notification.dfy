/**
 * Notification records, the collection that holds them, its read / unread
 * bookkeeping and per-recipient queries, and the factory statics that fix a
 * notification's type and priority.
 */
module NotificationModel {
  import opened Common
  import opened Text

  /** The `type` enumeration. */
  datatype NotificationType =
    | QuestionAnswered | AnswerAccepted | AnswerUpvoted | QuestionUpvoted | CommentAdded
    | Mention | AchievementEarned | LevelUp | ModerationAction | SystemAlert

  /** The `data` sub-document: each path is optional. */
  datatype Payload = Payload(
    questionId: Option<QuestionId>, answerId: Option<AnswerId>, commentId: Option<CommentId>,
    achievement: Option<string>, level: Option<string>, points: Option<int>)

  const NoPayload := Payload(None, None, None, None, None, None)

  /** The fields a caller hands to `Notification.create`; an absent priority
      takes the schema default. */
  datatype Draft = Draft(
    recipient: UserId, sender: Option<UserId>, kind: NotificationType, title: string,
    message: string, data: Payload, priority: Option<Priority>)

  /** A stored notification. */
  datatype Notification = Notification(
    recipient: UserId, sender: Option<UserId>, kind: NotificationType, title: string,
    message: string, data: Payload, isRead: bool, readAt: Option<Time>, priority: Priority,
    createdAt: Time)

  /** `Notification.create(draft)` at time `now`: the record starts unread, with
      no read time and priority 'medium' unless the draft names one. */
  function NewNotification(d: Draft, now: Time): (n: Notification)
    ensures !n.isRead && n.readAt == None && n.createdAt == now
    ensures n.priority == (if d.priority.Some? then d.priority.value else Medium)
    ensures n.recipient == d.recipient && n.sender == d.sender && n.kind == d.kind
    ensures n.title == d.title && n.message == d.message && n.data == d.data
  {
    Notification(d.recipient, d.sender, d.kind, d.title, d.message, d.data, false, None,
                 if d.priority.Some? then d.priority.value else Medium, now)
  }

  /** The fixed titles and messages of the factory statics. */
  const AchievementTitle := "Achievement Unlocked! \U{1F389}"
  const LevelUpTitle := "Level Up! \U{2B06}\U{FE0F}"
  const AcceptedTitle := "Answer Accepted! \U{2705}"
  const AcceptedMessage := "Your answer has been accepted as the best solution!"
  const AnsweredTitle := "New Answer Received! \U{1F4A1}"
  const AnsweredMessage := "Someone has answered your question!"

  /** `createAchievementNotification`. */
  function AchievementDraft(u: UserId, achievement: string): (d: Draft)
    ensures d.kind == AchievementEarned && d.priority == Some(High)
    ensures d.recipient == u && d.sender == None && d.data.achievement == Some(achievement)
  {
    Draft(u, None, AchievementEarned, AchievementTitle,
          "You've earned the \"" + achievement + "\" achievement!",
          NoPayload.(achievement := Some(achievement)), Some(High))
  }

  /** `createLevelUpNotification`. */
  function LevelUpDraft(u: UserId, newLevel: string, points: int): (d: Draft)
    ensures d.kind == LevelUp && d.priority == Some(High)
    ensures d.recipient == u && d.sender == None
    ensures d.data.level == Some(newLevel) && d.data.points == Some(points)
  {
    Draft(u, None, LevelUp, LevelUpTitle,
          "Congratulations! You've reached " + newLevel + " level with " + IntToDecimal(points) + " StackPoints!",
          NoPayload.(level := Some(newLevel), points := Some(points)), Some(High))
  }

  /** `createAnswerAcceptedNotification`: addressed to its third argument. */
  function AnswerAcceptedDraft(a: AnswerId, q: QuestionId, acceptedBy: UserId): (d: Draft)
    ensures d.kind == AnswerAccepted && d.priority == Some(High)
    ensures d.recipient == acceptedBy && d.sender == None
    ensures d.data.answerId == Some(a) && d.data.questionId == Some(q)
  {
    Draft(acceptedBy, None, AnswerAccepted, AcceptedTitle,
          AcceptedMessage,
          NoPayload.(answerId := Some(a), questionId := Some(q)), Some(High))
  }

  /** `createQuestionAnsweredNotification`: from the answer author to the
      question author. */
  function QuestionAnsweredDraft(q: QuestionId, a: AnswerId, questionAuthor: UserId, answerAuthor: UserId): (d: Draft)
    ensures d.kind == QuestionAnswered && d.priority == Some(Medium)
    ensures d.recipient == questionAuthor && d.sender == Some(answerAuthor)
    ensures d.data.answerId == Some(a) && d.data.questionId == Some(q)
  {
    Draft(questionAuthor, Some(answerAuthor), QuestionAnswered, AnsweredTitle,
          AnsweredMessage,
          NoPayload.(questionId := Some(q), answerId := Some(a)), Some(Medium))
  }

  /** A record counts as unread for `u`. */
  predicate UnreadFor(n: Notification, u: UserId)
  {
    n.recipient == u && !n.isRead
  }

  /** `getUnreadCount(u)`: the number of records addressed to `u` that are
      unread; zero exactly when there is none. */
  function CountUnread(rs: seq<Notification>, u: UserId): (c: nat)
    ensures c <= |rs|
    ensures c == 0 <==> forall i :: 0 <= i < |rs| ==> !UnreadFor(rs[i], u)
  {
    if rs == [] then 0
    else CountUnread(rs[..|rs| - 1], u) + (if UnreadFor(rs[|rs| - 1], u) then 1 else 0)
  }

  /** The `updateMany` of `markAllAsRead` applied to one record. */
  function MarkReadFor(n: Notification, u: UserId, now: Time): Notification
  {
    if UnreadFor(n, u) then n.(isRead := true, readAt := Some(now)) else n
  }

  /** `markAllAsRead(u)` at time `now`: each unread record of `u` becomes read
      at `now`; every other record, including `u`'s already-read ones, is kept. */
  function MarkAllRead(rs: seq<Notification>, u: UserId, now: Time): (r: seq<Notification>)
    ensures |r| == |rs|
    ensures forall i :: 0 <= i < |rs| ==> r[i] == MarkReadFor(rs[i], u, now)
  {
    if rs == [] then []
    else MarkAllRead(rs[..|rs| - 1], u, now) + [MarkReadFor(rs[|rs| - 1], u, now)]
  }

  /** Counting works piecewise. */
  lemma {:induction false} CountUnreadConcat(a: seq<Notification>, b: seq<Notification>, u: UserId)
    ensures CountUnread(a + b, u) == CountUnread(a, u) + CountUnread(b, u)
    decreases |b|
  {
    if b == [] {
      assert a + b == a;
    } else {
      assert (a + b)[..|a + b| - 1] == a + b[..|b| - 1];
      CountUnreadConcat(a, b[..|b| - 1], u);
    }
  }

  /** After `markAllAsRead(u)`, `u` has no unread record. */
  lemma MarkAllReadClears(rs: seq<Notification>, u: UserId, now: Time)
    ensures CountUnread(MarkAllRead(rs, u, now), u) == 0
  {
  }

  /** `markAllAsRead(u)` leaves every other recipient's unread count unchanged. */
  lemma {:induction false} MarkAllReadKeepsOthers(rs: seq<Notification>, u: UserId, v: UserId, now: Time)
    requires v != u
    ensures CountUnread(MarkAllRead(rs, u, now), v) == CountUnread(rs, v)
  {
    if rs != [] {
      var r := MarkAllRead(rs, u, now);
      MarkAllReadKeepsOthers(rs[..|rs| - 1], u, v, now);
      assert r[..|r| - 1] == MarkAllRead(rs[..|rs| - 1], u, now);
    }
  }

  /** Creating a notification raises its recipient's unread count by one and
      nobody else's. */
  lemma CreateCountsOnce(rs: seq<Notification>, d: Draft, now: Time, v: UserId)
    ensures CountUnread(rs + [NewNotification(d, now)], v)
      == CountUnread(rs, v) + (if d.recipient == v then 1 else 0)
  {
    assert (rs + [NewNotification(d, now)])[..|rs|] == rs;
  }

  /** Marking one record read lowers the unread count of `v` by one exactly when
      that record was unread for `v`. */
  lemma MarkOneReadCount(rs: seq<Notification>, i: nat, now: Time, v: UserId)
    requires i < |rs|
    ensures CountUnread(rs[i := rs[i].(isRead := true, readAt := Some(now))], v)
      == CountUnread(rs, v) - (if UnreadFor(rs[i], v) then 1 else 0)
  {
    var n := rs[i].(isRead := true, readAt := Some(now));
    assert rs == rs[..i] + [rs[i]] + rs[i + 1..];
    assert rs[i := n] == rs[..i] + [n] + rs[i + 1..];
    CountUnreadConcat(rs[..i] + [rs[i]], rs[i + 1..], v);
    CountUnreadConcat(rs[..i] + [n], rs[i + 1..], v);
    CountUnreadConcat(rs[..i], [rs[i]], v);
    CountUnreadConcat(rs[..i], [n], v);
    assert [rs[i]][..0] == [] && [n][..0] == [];
  }

  /** Records are stored in creation order. */
  predicate Chronological(rs: seq<Notification>)
  {
    forall i, j :: 0 <= i < j < |rs| ==> rs[i].createdAt <= rs[j].createdAt
  }

  /** The records addressed to `u`, in stored order. */
  function Mine(rs: seq<Notification>, u: UserId): (r: seq<Notification>)
    ensures |r| <= |rs|
    ensures forall n :: n in r <==> n in rs && n.recipient == u
    ensures Chronological(rs) ==> Chronological(r)
  {
    if rs == [] then []
    else
      var front := Mine(rs[..|rs| - 1], u);
      var last := rs[|rs| - 1];
      assert forall n :: n in front ==> n in rs[..|rs| - 1];
      if last.recipient == u then front + [last] else front
  }

  /** The sort key of `getForUser`. */
  function CreatedAt(n: Notification): Time
  {
    n.createdAt
  }

  /** `getForUser(u, limit, skip)`: `u`'s records sorted newest first, without
      the first `skip` of them, and at most `limit` of them (0 means no limit). */
  function ForUser(rs: seq<Notification>, u: UserId, limit: nat, skip: nat): (r: seq<Notification>)
    ensures limit > 0 ==> |r| <= limit
    ensures var total := |Mine(rs, u)|;
      |r| == if skip >= total then 0 else if limit == 0 || total - skip <= limit then total - skip else limit
    ensures forall k :: 0 <= k < |r| ==> r[k] == SortDescending(Mine(rs, u), CreatedAt)[skip + k]
  {
    var sorted := SortDescending(Mine(rs, u), CreatedAt);
    var rest := if skip < |sorted| then sorted[skip..] else [];
    if limit == 0 || |rest| <= limit then rest else rest[..limit]
  }

  /** A page of `getForUser` holds only `u`'s records, newest first. */
  lemma ForUserPage(rs: seq<Notification>, u: UserId, limit: nat, skip: nat)
    ensures var r := ForUser(rs, u, limit, skip);
      && (forall n :: n in r ==> n in rs && n.recipient == u)
      && Descending(r, CreatedAt)
  {
    var sorted := SortDescending(Mine(rs, u), CreatedAt);
    var r := ForUser(rs, u, limit, skip);
    SortIsDescending(Mine(rs, u), CreatedAt);
    forall n | n in r ensures n in rs && n.recipient == u {
      var k :| 0 <= k < |r| && r[k] == n;
      assert sorted[skip + k] in multiset(Mine(rs, u));
    }
    forall i, j | 0 <= i < j < |r| ensures CreatedAt(r[i]) >= CreatedAt(r[j]) {
      assert r[i] == sorted[skip + i] && r[j] == sorted[skip + j];
    }
  }

  /** Without skip or limit, `getForUser` returns every record of the user,
      each as often as it is stored, and nobody else's. */
  lemma ForUserAll(rs: seq<Notification>, u: UserId)
    ensures multiset(ForUser(rs, u, 0, 0)) == multiset(Mine(rs, u))
  {
    var sorted := SortDescending(Mine(rs, u), CreatedAt);
    assert ForUser(rs, u, 0, 0) == sorted[0..];
    assert sorted[0..] == sorted;
  }

  /** The notification collection. */
  class NotificationStore {
    var records: seq<Notification>

    /** Records are kept in creation order. */
    ghost predicate Valid()
      reads this
    {
      Chronological(records)
    }

    constructor ()
      ensures records == [] && Valid()
    {
      records := [];
    }

    /** `createNotification` / `Notification.create`: one new record at the
        end; the order is kept when the clock has not gone backwards. */
    method Create(d: Draft, now: Time)
      modifies this`records
      ensures records == old(records) + [NewNotification(d, now)]
      ensures old(Valid()) && (old(records) == [] || old(records)[|old(records)| - 1].createdAt <= now) ==> Valid()
    {
      records := records + [NewNotification(d, now)];
    }

    /** `markAsRead` on the record at position `i`. */
    method MarkAsRead(i: nat, now: Time)
      requires i < |records|
      modifies this`records
      ensures records == old(records)[i := old(records)[i].(isRead := true, readAt := Some(now))]
      ensures old(Valid()) ==> Valid()
    {
      records := records[i := records[i].(isRead := true, readAt := Some(now))];
    }

    /** `markAsUnread` on the record at position `i`. */
    method MarkAsUnread(i: nat)
      requires i < |records|
      modifies this`records
      ensures records == old(records)[i := old(records)[i].(isRead := false, readAt := None)]
      ensures old(Valid()) ==> Valid()
    {
      records := records[i := records[i].(isRead := false, readAt := None)];
    }

    /** `markAllAsRead(u)`: the bulk update, record by record. */
    method MarkAllAsRead(u: UserId, now: Time)
      modifies this`records
      ensures records == MarkAllRead(old(records), u, now)
      ensures old(Valid()) ==> Valid()
    {
      ghost var before := records;
      var i := 0;
      while i < |records|
        invariant 0 <= i <= |records| == |before|
        invariant forall k :: 0 <= k < i ==> records[k] == MarkReadFor(before[k], u, now)
        invariant forall k :: i <= k < |records| ==> records[k] == before[k]
      {
        if UnreadFor(records[i], u) {
          records := records[i := records[i].(isRead := true, readAt := Some(now))];
        }
        i := i + 1;
      }
      assert forall k :: 0 <= k < |records| ==> records[k].createdAt == before[k].createdAt;
    }
  }
}
