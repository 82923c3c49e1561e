/**
 * The answer routes: create (with points, statistics and the answer streak),
 * edit, delete (which detaches the answer from its question), vote, the
 * comment handlers and the helpful mark.
 *
 * As for the question routes, a lookup that finds nothing is a `null`
 * argument, `req.user` is a `User`, ids the database assigns are inputs, and
 * the result is the HTTP status. The two clock readings of the create
 * handler (`lastAnswerDate = new Date()` and the `today` read just after it)
 * are separate inputs.
 */
module AnswerRoutes {
  import opened Common
  import opened Votes
  import opened UserModel
  import opened QuestionModel
  import opened AnswerModel
  import opened NotificationModel
  import opened QuestionRoutes

  /** `1000 * 60 * 60 * 24`: the milliseconds of one day. */
  const MsPerDay := 86400000

  /** `Math.abs(today - last)`. */
  function Distance(today: Time, last: Time): nat
  {
    if today >= last then today - last else last - today
  }

  /** `Math.ceil(Math.abs(today - last) / 86400000)`: the number of started
      days between two readings, characterised by the two inequalities that
      define a ceiling. */
  function DayDiff(today: Time, last: Time): (d: nat)
    ensures (d - 1) * MsPerDay < Distance(today, last) <= d * MsPerDay
  {
    (Distance(today, last) + MsPerDay - 1) / MsPerDay
  }

  /** The streak rule: one started day apart extends the streak, more than
      one restarts it at 1, the same instant leaves it. */
  function StreakAfter(streak: int, days: nat): int
  {
    if days == 1 then streak + 1
    else if days > 1 then 1
    else streak
  }

  /** The restart fires exactly when the two readings are more than a day apart. */
  lemma RestartIffMoreThanADay(today: Time, last: Time)
    ensures DayDiff(today, last) > 1 <==> Distance(today, last) > MsPerDay
  {
    var d := DayDiff(today, last);
    if d > 1 {
      assert (d - 1) * MsPerDay >= MsPerDay;
    }
  }

  /** Because the handler stores `lastAnswerDate` just before it reads it back,
      the two readings are at most a day apart and the streak is never
      restarted: it stays when they coincide and grows by one otherwise,
      whatever the previous answer's date was. */
  lemma StreakNeverRestarts(streak: int, today: Time, last: Time)
    requires Distance(today, last) <= MsPerDay
    ensures StreakAfter(streak, DayDiff(today, last)) == if today == last then streak else streak + 1
  {
    RestartIffMoreThanADay(today, last);
    if today == last {
      assert DayDiff(today, last) == 0;
    } else {
      assert DayDiff(today, last) != 0;
    }
  }

  /** The answerer's side of POST /api/answers: 10 points (whose achievement
      check sees the statistics as they were), then one more answer given,
      `lastAnswerDate` set to `now`, and the streak computed from `now`
      against the later reading `today`. */
  method CreditNewAnswer(u: User, now: Time, today: Time)
    modifies u`stackPoints, u`level, u`achievements, u`stats
    ensures u.stackPoints == old(u.stackPoints) + 10
    ensures u.level == CalculateLevel(u.stackPoints)
    ensures u.achievements == old(u.achievements) + NewAchievements(old(u.stats), u.confidenceBoosterBadges, old(u.achievements), now)
    ensures u.stats == old(u.stats).(answersGiven := old(u.stats).answersGiven + 1, lastAnswerDate := Some(now),
                                     answerStreak := StreakAfter(old(u.stats).answerStreak, DayDiff(today, now)))
  {
    u.AddStackPoints(10, "Answered a question", now);
    u.stats := u.stats.(answersGiven := u.stats.answersGiven + 1);
    u.stats := u.stats.(lastAnswerDate := Some(now));
    var lastAnswer := u.stats.lastAnswerDate.value;
    var diffDays := DayDiff(today, lastAnswer);
    if diffDays == 1 {
      u.stats := u.stats.(answerStreak := u.stats.answerStreak + 1);
    } else if diffDays > 1 {
      u.stats := u.stats.(answerStreak := 1);
    }
  }

  /** POST /api/answers. 404 for a missing question and 400 for a disallowed
      anonymous answer, both before anything is stored. Otherwise the answer
      is created and passed to the question's `addAnswer`, an anonymous answer
      is recorded in `anonymousPosts`, the answerer is credited, and the
      question author is notified unless the question is anonymous. */
  method CreateAnswer(user: User, question: Question?, aid: AnswerId, content: string, isAnonymous: bool,
                      store: NotificationStore, now: Time, today: Time)
    returns (status: int, answer: Answer?)
    modifies user`anonymousPosts, user`stackPoints, user`level, user`achievements, user`stats
    modifies LoadedQ(question)`answers, LoadedQ(question)`lastActivity, LoadedQ(question)`status
    modifies store`records
    ensures question == null ==> status == 404 && answer == null && unchanged(user) && unchanged(store)
    ensures question != null && isAnonymous && !user.allowAnonymous ==>
      status == 400 && answer == null && unchanged(user) && unchanged(question) && unchanged(store)
    ensures question != null && !(isAnonymous && !user.allowAnonymous) ==>
      && status == 201 && answer != null && fresh(answer)
      && answer.id == aid && answer.author == user.id && answer.question == question.id
      && answer.isAnonymous == isAnonymous && answer.content == content && !answer.isAccepted
      && (aid !in old(question.answers) ==>
            && question.answers == old(question.answers) + [aid] && question.lastActivity == now
            && question.status == (if old(question.status) == Open then Answered else old(question.status)))
      && (aid in old(question.answers) ==>
            && question.answers == old(question.answers) && question.status == old(question.status)
            && question.lastActivity == old(question.lastActivity))
      && user.anonymousPosts == old(user.anonymousPosts) + (if isAnonymous then [AnonymousPost(None, Some(aid), now)] else [])
      && user.stackPoints == old(user.stackPoints) + 10
      && user.level == CalculateLevel(user.stackPoints)
      && user.achievements == old(user.achievements) + NewAchievements(old(user.stats), user.confidenceBoosterBadges, old(user.achievements), now)
      && user.stats == old(user.stats).(answersGiven := old(user.stats).answersGiven + 1, lastAnswerDate := Some(now),
                                        answerStreak := StreakAfter(old(user.stats).answerStreak, DayDiff(today, now)))
      && store.records == old(store.records)
           + (if question.isAnonymous then [] else [NewNotification(QuestionAnsweredDraft(question.id, aid, question.author, user.id), now)])
  {
    if question == null {
      return 404, null;
    }
    if isAnonymous && !user.allowAnonymous {
      return 400, null;
    }
    answer := new Answer(aid, user.id, question.id, isAnonymous, content);
    question.AddAnswer(aid, now);
    if isAnonymous {
      user.anonymousPosts := user.anonymousPosts + [AnonymousPost(None, Some(aid), now)];
    }
    CreditNewAnswer(user, now, today);
    if !question.isAnonymous {
      store.Create(QuestionAnsweredDraft(question.id, aid, question.author, user.id), now);
    }
    status := 201;
  }

  /** PUT /api/answers/:id. 404 for a missing answer, 403 unless `MayModify`;
      otherwise a truthy `content` replaces the stored one. */
  method EditAnswer(requester: User, answer: Answer?, content: Option<string>)
    returns (status: int)
    modifies LoadedA(answer)`content
    ensures answer == null ==> status == 404
    ensures answer != null && !MayModify(requester.id, requester.role, answer.author) ==>
      status == 403 && unchanged(answer)
    ensures answer != null && MayModify(requester.id, requester.role, answer.author) ==>
      status == 200 && answer.content == (if Truthy(content) then content.value else old(answer.content))
  {
    if answer == null {
      return 404;
    }
    if !MayModify(requester.id, requester.role, answer.author) {
      return 403;
    }
    if Truthy(content) {
      answer.content := content.value;
    }
    status := 200;
  }

  /** DELETE /api/answers/:id. 404 for a missing answer, 403 unless
      `MayModify`. Otherwise the question (when found) loses every entry of
      the answer in `answers` and, when this was its accepted answer, its
      `acceptedAnswer` and its answered status; its status is otherwise left
      alone. For an anonymous answer the requester's posts for it are then
      filtered out; that filter throws (500, answer kept, question already
      saved) when some post has no `answerId`, as a question post has none.
      `answerDeleted` reports the deletion. */
  method DeleteAnswer(requester: User, answer: Answer?, question: Question?)
    returns (status: int, answerDeleted: bool)
    requires answer == null ==> question == null
    requires answer != null && question != null ==> question.id == answer.question
    modifies LoadedQ(question)`answers, LoadedQ(question)`acceptedAnswer, LoadedQ(question)`status
    modifies requester`anonymousPosts
    ensures answer == null ==> status == 404 && !answerDeleted && unchanged(requester)
    ensures answer != null && !MayModify(requester.id, requester.role, answer.author) ==>
      && status == 403 && !answerDeleted && unchanged(requester)
      && (question != null ==> unchanged(question))
    ensures answer != null && MayModify(requester.id, requester.role, answer.author) ==>
      && (question != null ==>
            && question.answers == Without(old(question.answers), answer.id)
            && (old(question.acceptedAnswer) == Some(answer.id) ==> question.acceptedAnswer == None && question.status == Open)
            && (old(question.acceptedAnswer) != Some(answer.id) ==>
                  question.acceptedAnswer == old(question.acceptedAnswer) && question.status == old(question.status)))
      && (answer.isAnonymous && Throws(old(requester.anonymousPosts), false) ==>
            status == 500 && !answerDeleted && unchanged(requester))
      && (!(answer.isAnonymous && Throws(old(requester.anonymousPosts), false)) ==>
            && status == 200 && answerDeleted
            && requester.anonymousPosts ==
                 if answer.isAnonymous then KeepPosts(old(requester.anonymousPosts), (p: AnonymousPost) => p.answerId == Some(answer.id))
                 else old(requester.anonymousPosts))
  {
    if answer == null {
      return 404, false;
    }
    if !MayModify(requester.id, requester.role, answer.author) {
      return 403, false;
    }
    var aid := answer.id;
    if question != null {
      question.answers := Without(question.answers, aid);
      if question.acceptedAnswer == Some(aid) {
        question.acceptedAnswer := None;
        question.status := Open;
      }
    }
    if answer.isAnonymous {
      if Throws(requester.anonymousPosts, false) {
        return 500, false;
      }
      requester.anonymousPosts := KeepPosts(requester.anonymousPosts, (p: AnonymousPost) => p.answerId == Some(aid));
    }
    status, answerDeleted := 200, true;
  }

  /** POST /api/answers/:id/vote. 404 for a missing answer and 400 for a vote
      on one's own answer, both before the toggle. Otherwise the toggle is
      applied and, when the request was an upvote and the voter is not an
      upvoter afterwards, the author (when found) gets 5 points; on
      well-formed lists that test holds exactly when an upvote was retracted
      (`AwardOnlyOnRetraction`). */
  method VoteOnAnswer(voter: User, answer: Answer?, t: VoteType, author: User?, now: Time)
    returns (status: int)
    requires answer != null && author != null ==> author.id == answer.author
    requires answer != null ==> answer.Valid()
    modifies LoadedA(answer)`upvotes, LoadedA(answer)`downvotes, LoadedU(author)`stackPoints, LoadedU(author)`level, LoadedU(author)`achievements
    ensures answer == null ==> status == 404 && (author != null ==> unchanged(author))
    ensures answer != null && answer.author == voter.id ==>
      status == 400 && unchanged(answer) && (author != null ==> unchanged(author))
    ensures answer != null && answer.author != voter.id ==>
      && status == 200
      && Ballots(answer.upvotes, answer.downvotes) == Toggle(old(Ballots(answer.upvotes, answer.downvotes)), voter.id, t)
      && answer.Valid()
      && (author != null && t == Upvote && voter.id in old(answer.upvotes) ==>
            && author.stackPoints == old(author.stackPoints) + 5
            && author.level == CalculateLevel(author.stackPoints)
            && author.achievements == old(author.achievements) + NewAchievements(author.stats, author.confidenceBoosterBadges, old(author.achievements), now))
      && (author != null && !(t == Upvote && voter.id in old(answer.upvotes)) ==> unchanged(author))
  {
    if answer == null {
      return 404;
    }
    if answer.author == voter.id {
      return 400;
    }
    ghost var before := Ballots(answer.upvotes, answer.downvotes);
    answer.ToggleVote(voter.id, t);
    AwardOnlyOnRetraction(before, voter.id, t);
    if t == Upvote && voter.id !in answer.upvotes {
      if author != null {
        author.AddStackPoints(5, "Answer upvoted", now);
      }
    }
    status := 200;
  }

  /** POST /api/answers/:id/comment: 404 for a missing answer, otherwise the
      comment is appended. */
  method AddAnswerComment(requester: User, answer: Answer?, cid: CommentId, text: string, now: Time)
    returns (status: int)
    modifies LoadedA(answer)`comments
    ensures answer == null ==> status == 404
    ensures answer != null ==>
      status == 200 && answer.comments == old(answer.comments) + [Comment(cid, requester.id, text, now)]
  {
    if answer == null {
      return 404;
    }
    answer.AddComment(cid, requester.id, text, now);
    status := 200;
  }

  /** DELETE /api/answers/:id/comment/:commentId. 404 for a missing answer or
      comment; 403 unless the requester may modify the first comment with
      that id; otherwise every comment with that id is removed. */
  method DeleteAnswerComment(requester: User, answer: Answer?, cid: CommentId)
    returns (status: int)
    modifies LoadedA(answer)`comments
    ensures answer == null ==> status == 404
    ensures answer != null && cid !in CommentIds(old(answer.comments)) ==> status == 404 && unchanged(answer)
    ensures answer != null && cid in CommentIds(old(answer.comments)) ==>
      var c := old(answer.comments)[CommentIndex(old(answer.comments), cid)];
      && (!MayModify(requester.id, requester.role, c.author) ==> status == 403 && unchanged(answer))
      && (MayModify(requester.id, requester.role, c.author) ==>
            status == 200 && answer.comments == WithoutComment(old(answer.comments), cid))
  {
    if answer == null {
      return 404;
    }
    var i := CommentIndex(answer.comments, cid);
    if i == -1 {
      return 404;
    }
    if !MayModify(requester.id, requester.role, answer.comments[i].author) {
      return 403;
    }
    answer.RemoveComment(cid);
    status := 200;
  }

  /** POST /api/answers/:id/helpful: 404 for a missing answer; otherwise one
      more helpful mark, with no check of who marks or how often. */
  method MarkHelpful(answer: Answer?) returns (status: int)
    modifies LoadedA(answer)`helpfulCount
    ensures answer == null ==> status == 404
    ensures answer != null ==> status == 200 && answer.helpfulCount == old(answer.helpfulCount) + 1
  {
    if answer == null {
      return 404;
    }
    answer.MarkHelpful();
    status := 200;
  }
}
