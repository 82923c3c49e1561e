/**
 * The notification service: the `create*Notification` helpers, each a guard
 * followed by one `Notification.create`, and `extractMentions`.
 *
 * A helper looks the acting user up by id to put the user's name in the
 * message; the lookup is the map `names`, and a missing user makes the
 * helper fail inside its `try`, so nothing is created.
 */
module NotificationService {
  import opened Common
  import opened Text
  import opened NotificationModel

  /** `createAnswerNotification`: nobody is told about answering their own question. */
  function AnswerNotice(q: QuestionId, a: AnswerId, answerAuthor: UserId, questionAuthor: UserId,
                        names: map<UserId, string>): (r: Option<Draft>)
    ensures r.Some? <==> answerAuthor != questionAuthor && answerAuthor in names
    ensures r.Some? ==>
      && r.value.recipient == questionAuthor
      && r.value.sender == Some(answerAuthor)
      && r.value.kind == QuestionAnswered && r.value.priority == None
      && r.value.data == NoPayload.(questionId := Some(q), answerId := Some(a))
  {
    if answerAuthor == questionAuthor || answerAuthor !in names then None
    else Some(Draft(questionAuthor, Some(answerAuthor), QuestionAnswered, "New Answer",
                    names[answerAuthor] + " answered your question",
                    NoPayload.(questionId := Some(q), answerId := Some(a)), None))
  }

  /** `createQuestionCommentNotification`: no notice for commenting on one's own question. */
  function QuestionCommentNotice(q: QuestionId, c: CommentId, commentAuthor: UserId, questionAuthor: UserId,
                                 names: map<UserId, string>): (r: Option<Draft>)
    ensures r.Some? <==> commentAuthor != questionAuthor && commentAuthor in names
    ensures r.Some? ==>
      && r.value.recipient == questionAuthor
      && r.value.sender == Some(commentAuthor)
      && r.value.kind == CommentAdded && r.value.priority == None
      && r.value.data == NoPayload.(questionId := Some(q), commentId := Some(c))
  {
    if commentAuthor == questionAuthor || commentAuthor !in names then None
    else Some(Draft(questionAuthor, Some(commentAuthor), CommentAdded, "New Comment",
                    names[commentAuthor] + " commented on your question",
                    NoPayload.(questionId := Some(q), commentId := Some(c)), None))
  }

  /** `createAnswerCommentNotification`: no notice for commenting on one's own answer. */
  function AnswerCommentNotice(q: QuestionId, a: AnswerId, c: CommentId, commentAuthor: UserId,
                               answerAuthor: UserId, names: map<UserId, string>): (r: Option<Draft>)
    ensures r.Some? <==> commentAuthor != answerAuthor && commentAuthor in names
    ensures r.Some? ==>
      && r.value.recipient == answerAuthor
      && r.value.sender == Some(commentAuthor)
      && r.value.kind == CommentAdded && r.value.priority == None
      && r.value.data == NoPayload.(questionId := Some(q), answerId := Some(a), commentId := Some(c))
  {
    if commentAuthor == answerAuthor || commentAuthor !in names then None
    else Some(Draft(answerAuthor, Some(commentAuthor), CommentAdded, "New Comment",
                    names[commentAuthor] + " commented on your answer",
                    NoPayload.(questionId := Some(q), answerId := Some(a), commentId := Some(c)), None))
  }

  /** `createQuestionUpvoteNotification`: no notice for upvoting one's own question. */
  function QuestionUpvoteNotice(q: QuestionId, voter: UserId, questionAuthor: UserId,
                                names: map<UserId, string>): (r: Option<Draft>)
    ensures r.Some? <==> voter != questionAuthor && voter in names
    ensures r.Some? ==>
      && r.value.recipient == questionAuthor
      && r.value.sender == Some(voter)
      && r.value.kind == QuestionUpvoted && r.value.priority == None
      && r.value.data == NoPayload.(questionId := Some(q))
  {
    if voter == questionAuthor || voter !in names then None
    else Some(Draft(questionAuthor, Some(voter), QuestionUpvoted, "Question Upvoted",
                    names[voter] + " upvoted your question",
                    NoPayload.(questionId := Some(q)), None))
  }

  /** `createAnswerUpvoteNotification`: no notice for upvoting one's own answer. */
  function AnswerUpvoteNotice(q: QuestionId, a: AnswerId, voter: UserId, answerAuthor: UserId,
                              names: map<UserId, string>): (r: Option<Draft>)
    ensures r.Some? <==> voter != answerAuthor && voter in names
    ensures r.Some? ==>
      && r.value.recipient == answerAuthor
      && r.value.sender == Some(voter)
      && r.value.kind == AnswerUpvoted && r.value.priority == None
      && r.value.data == NoPayload.(questionId := Some(q), answerId := Some(a))
  {
    if voter == answerAuthor || voter !in names then None
    else Some(Draft(answerAuthor, Some(voter), AnswerUpvoted, "Answer Upvoted",
                    names[voter] + " upvoted your answer",
                    NoPayload.(questionId := Some(q), answerId := Some(a)), None))
  }

  /** `createAnswerAcceptedNotification` of the service: no guard, priority high. */
  function AcceptedNotice(q: QuestionId, a: AnswerId, answerAuthor: UserId): (d: Draft)
    ensures d.recipient == answerAuthor && d.sender == None
    ensures d.kind == AnswerAccepted && d.priority == Some(High)
  {
    Draft(answerAuthor, None, AnswerAccepted, "Answer Accepted! \U{1F389}",
          "Your answer was marked as the best answer!",
          NoPayload.(questionId := Some(q), answerId := Some(a)), Some(High))
  }

  /** The place named in a mention message: a comment when an answer id is given. */
  function MentionPlace(a: Option<AnswerId>): string
  {
    if a.Some? then "comment" else "question"
  }

  /** `createMentionNotification`: nothing when the mentioned name belongs to no
      user or to the mentioner; the message says where the mention was made. */
  function MentionNotice(q: QuestionId, a: Option<AnswerId>, c: Option<CommentId>, mentioner: UserId,
                         mentioned: string, byName: map<string, UserId>,
                         names: map<UserId, string>): (r: Option<Draft>)
    ensures r.Some? <==> mentioned in byName && byName[mentioned] != mentioner && mentioner in names
    ensures r.Some? ==>
      && r.value.recipient == byName[mentioned]
      && r.value.sender == Some(mentioner)
      && r.value.kind == Mention && r.value.priority == None
      && r.value.message == names[mentioner] + " mentioned you in a " + MentionPlace(a)
  {
    if mentioned !in byName || byName[mentioned] == mentioner || mentioner !in names then None
    else Some(Draft(byName[mentioned], Some(mentioner), Mention, "You were mentioned",
                    names[mentioner] + " mentioned you in a " + MentionPlace(a),
                    NoPayload.(questionId := Some(q), answerId := a, commentId := c), None))
  }

  /** The message says "comment" exactly when an answer id is given. */
  lemma MentionSaysComment(a: Option<AnswerId>)
    ensures MentionPlace(a) == "comment" <==> a.Some?
  {
    assert "comment"[0] != "question"[0];
  }

  /** `createAchievementNotification` of the service. */
  function AchievementNotice(u: UserId, achievement: string): (d: Draft)
    ensures d.recipient == u && d.kind == AchievementEarned && d.priority == Some(High)
    ensures d.data.achievement == Some(achievement)
  {
    Draft(u, None, AchievementEarned, "Achievement Unlocked! \U{1F389}",
          "You've earned the \"" + achievement + "\" achievement!",
          NoPayload.(achievement := Some(achievement)), Some(High))
  }

  /** `createLevelUpNotification` of the service; its message says "points"
      where the model's factory says "StackPoints". */
  function LevelUpNotice(u: UserId, newLevel: string, points: int): (d: Draft)
    ensures d.recipient == u && d.kind == LevelUp && d.priority == Some(High)
    ensures d.data.level == Some(newLevel) && d.data.points == Some(points)
  {
    Draft(u, None, LevelUp, "Level Up! \U{2B06}\U{FE0F}",
          "Congratulations! You've reached " + newLevel + " level with " + IntToDecimal(points) + " points!",
          NoPayload.(level := Some(newLevel), points := Some(points)), Some(High))
  }

  /** The final `Notification.create` of a helper: a notice that passed its
      guards is stored, one that did not leaves the store as it was. */
  method Send(store: NotificationStore, notice: Option<Draft>, now: Time)
    modifies store
    ensures store.records == old(store.records) + (if notice.Some? then [NewNotification(notice.value, now)] else [])
  {
    if notice.Some? {
      store.Create(notice.value, now);
    }
  }

  /** Sending a notice about oneself stores nothing. */
  lemma NoSelfNotice(q: QuestionId, a: AnswerId, c: CommentId, u: UserId, names: map<UserId, string>)
    ensures AnswerNotice(q, a, u, u, names) == None
    ensures QuestionCommentNotice(q, c, u, u, names) == None
    ensures AnswerCommentNotice(q, a, c, u, u, names) == None
    ensures QuestionUpvoteNotice(q, u, u, names) == None
    ensures AnswerUpvoteNotice(q, a, u, u, names) == None
  {
  }

  // ---------------------------------------------------------------------------
  // extractMentions

  /** The end of the run of `\w` characters starting at `j`. */
  function WordEnd(s: string, j: nat): (e: nat)
    requires j <= |s|
    ensures j <= e <= |s|
    ensures forall k :: j <= k < e ==> IsWordChar(s[k])
    ensures e == |s| || !IsWordChar(s[e])
    decreases |s| - j
  {
    if j < |s| && IsWordChar(s[j]) then WordEnd(s, j + 1) else j
  }

  /** `/@(\w+)/` matches at position `p`. */
  predicate MatchesAt(s: string, p: int)
  {
    0 <= p && p + 1 < |s| && s[p] == '@' && IsWordChar(s[p + 1])
  }

  /** The name captured by a match at `p`: the whole run of `\w` after the '@'. */
  function CapturedAt(s: string, p: int): string
    requires MatchesAt(s, p)
  {
    s[p + 1..WordEnd(s, p + 1)]
  }

  /** The captures of the global regular expression, scanning from position `i`:
      each match resumes the scan at its end. */
  function MentionsFrom(s: string, i: nat): seq<string>
    requires i <= |s|
    decreases |s| - i
  {
    if i == |s| then []
    else if MatchesAt(s, i) then [CapturedAt(s, i)] + MentionsFrom(s, WordEnd(s, i + 1))
    else MentionsFrom(s, i + 1)
  }

  /** `[...new Set(xs)]`: each value once, and exactly the values of `xs`. */
  function Dedupe(xs: seq<string>): (r: seq<string>)
    ensures NoDuplicates(r)
    ensures forall x :: x in r <==> x in xs
  {
    if xs == [] then []
    else
      var r := Dedupe(xs[..|xs| - 1]);
      var last := xs[|xs| - 1];
      assert forall x :: x in xs <==> x in xs[..|xs| - 1] || x == last by {
        assert xs == xs[..|xs| - 1] + [last];
      }
      if last in r then r else r + [last]
  }

  /** `r` lists values of `xs` in the order of their first occurrence there. */
  predicate InFirstOccurrenceOrder(xs: seq<string>, r: seq<string>)
  {
    forall i, j :: 0 <= i < j < |r| ==> FindIndex(xs, r[i]) < FindIndex(xs, r[j])
  }

  /** The values come out in the order of their first occurrence. */
  lemma {:induction false} DedupeFirstOccurrenceOrder(xs: seq<string>)
    ensures InFirstOccurrenceOrder(xs, Dedupe(xs))
  {
    if xs != [] {
      var front := xs[..|xs| - 1];
      var last := xs[|xs| - 1];
      assert xs == front + [last];
      var rf := Dedupe(front);
      DedupeFirstOccurrenceOrder(front);
      OrderAfterSnoc(front, last, rf);
    }
  }

  /** Appending `last` to `front` keeps an ordered listing of values of
      `front` ordered, and a new value may be listed after them. */
  lemma OrderAfterSnoc(front: seq<string>, last: string, rf: seq<string>)
    requires InFirstOccurrenceOrder(front, rf)
    requires forall x :: x in rf ==> x in front
    ensures InFirstOccurrenceOrder(front + [last], rf)
    ensures last !in front ==> InFirstOccurrenceOrder(front + [last], rf + [last])
  {
    var xs := front + [last];
    forall k | 0 <= k < |rf| ensures FindIndex(xs, rf[k]) == FindIndex(front, rf[k]) {
      KeepsFirstIndex(front, last, rf[k]);
    }
    if last !in front {
      var r := rf + [last];
      assert xs[..|front|] == front;
      FirstIndexUnique(xs, last, |front|);
      forall i, j | 0 <= i < j < |r| ensures FindIndex(xs, r[i]) < FindIndex(xs, r[j]) {
        assert r[i] == rf[i];
        if j < |rf| { assert r[j] == rf[j]; }
      }
    }
  }

  /** Appending a value does not move the first occurrence of an earlier one. */
  lemma KeepsFirstIndex(front: seq<string>, last: string, x: string)
    requires x in front
    ensures FindIndex(front + [last], x) == FindIndex(front, x)
  {
    var xs := front + [last];
    var k := FindIndex(front, x);
    assert xs[k] == x;
    assert xs[..k] == front[..k];
    FirstIndexUnique(xs, x, k);
  }

  /** A position holding `x` with no `x` before it is the first index of `x`. */
  lemma FirstIndexUnique(xs: seq<string>, x: string, k: nat)
    requires k < |xs| && xs[k] == x && x !in xs[..k]
    ensures FindIndex(xs, x) == k
  {
  }

  /** `extractMentions(content)`: run the global regular expression over the
      content, collect each capture, and drop repeated names. */
  method ExtractMentions(content: string) returns (names: seq<string>)
    ensures names == Dedupe(MentionsFrom(content, 0))
  {
    var mentions: seq<string> := [];
    var i := 0;
    while i < |content|
      invariant 0 <= i <= |content|
      invariant mentions + MentionsFrom(content, i) == MentionsFrom(content, 0)
      decreases |content| - i
    {
      if content[i] == '@' && i + 1 < |content| && IsWordChar(content[i + 1]) {
        var e := i + 1;
        while e < |content| && IsWordChar(content[e])
          invariant i + 1 <= e <= |content|
          invariant WordEnd(content, e) == WordEnd(content, i + 1)
          decreases |content| - e
        {
          e := e + 1;
        }
        mentions := mentions + [content[i + 1..e]];
        i := e;
      } else {
        i := i + 1;
      }
    }
    assert MentionsFrom(content, i) == [];
    assert mentions + [] == mentions;
    names := Dedupe(mentions);
  }

  /** Every name found from position `i` is captured by a match at or after `i`. */
  lemma {:induction false} MentionsAreCaptures(s: string, i: nat, m: string)
    requires i <= |s|
    requires m in MentionsFrom(s, i)
    ensures exists p :: i <= p && MatchesAt(s, p) && m == CapturedAt(s, p)
    decreases |s| - i
  {
    if i < |s| {
      if MatchesAt(s, i) {
        if m != CapturedAt(s, i) {
          MentionsAreCaptures(s, WordEnd(s, i + 1), m);
        }
      } else {
        MentionsAreCaptures(s, i + 1, m);
      }
    }
  }

  /** Every match at or after `i` is found by the scan from `i`: a match cannot
      start inside an earlier one, because '@' is not a word character. */
  lemma {:induction false} CapturesAreMentions(s: string, i: nat, p: nat)
    requires i <= p && MatchesAt(s, p)
    ensures CapturedAt(s, p) in MentionsFrom(s, i)
    decreases |s| - i
  {
    if i < p {
      if MatchesAt(s, i) {
        CapturesAreMentions(s, WordEnd(s, i + 1), p);
      } else {
        CapturesAreMentions(s, i + 1, p);
      }
    }
  }

  /** A returned name is exactly a non-empty run of word characters that
      follows an '@' and is not followed by another word character; and every
      such run is returned. */
  lemma ExtractedIff(s: string, m: string)
    ensures m in Dedupe(MentionsFrom(s, 0)) <==> exists p :: MatchesAt(s, p) && m == CapturedAt(s, p)
  {
    if m in MentionsFrom(s, 0) {
      MentionsAreCaptures(s, 0, m);
    }
    if exists p :: MatchesAt(s, p) && m == CapturedAt(s, p) {
      var p :| MatchesAt(s, p) && m == CapturedAt(s, p);
      CapturesAreMentions(s, 0, p);
    }
  }

  /** Each captured name is non-empty, made of word characters, preceded by
      '@' and maximal. */
  lemma CaptureShape(s: string, p: int)
    requires MatchesAt(s, p)
    ensures var m := CapturedAt(s, p);
      && |m| > 0
      && (forall k :: 0 <= k < |m| ==> IsWordChar(m[k]))
      && s[p] == '@' && s[p + 1..p + 1 + |m|] == m
      && (p + 1 + |m| == |s| || !IsWordChar(s[p + 1 + |m|]))
  {
  }

  /** Content without '@' mentions nobody. */
  lemma {:induction false} NoAtNoMentions(s: string, i: nat)
    requires i <= |s|
    requires forall k :: 0 <= k < |s| ==> s[k] != '@'
    ensures MentionsFrom(s, i) == []
    decreases |s| - i
  {
    if i < |s| {
      NoAtNoMentions(s, i + 1);
    }
  }
}
