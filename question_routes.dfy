/**
 * The question routes that move points, statistics and content state:
 * create, answer, vote, accept, edit, delete and the comment handlers, plus
 * the pagination arithmetic and sort-key choice of the listing.
 *
 * Each handler is a method over the documents its route loads: a lookup by
 * id that finds nothing is a `null` argument, `req.user` is a `User`, a
 * `save()` is the object's new state, and the result is the HTTP status.
 * Ids the database assigns (`_id` of a new document or comment) are inputs.
 */
module QuestionRoutes {
  import opened Common
  import opened Text
  import opened Votes
  import opened UserModel
  import opened QuestionModel
  import opened AnswerModel
  import opened NotificationModel

  /** The objects a lookup loaded: none when it found nothing. Handlers frame
      their updates with these, since a missing document is never written. */
  function LoadedQ(q: Question?): set<Question>
  {
    if q == null then {} else {q}
  }

  function LoadedA(a: Answer?): set<Answer>
  {
    if a == null then {} else {a}
  }

  function LoadedU(u: User?): set<User>
  {
    if u == null then {} else {u}
  }

  /** The edit/delete rule: the author may, and so may anyone whose role is not 'user'. */
  predicate MayModify(requester: UserId, role: Role, author: UserId)
  {
    author == requester || role != UserRole
  }

  /** A string field of the request body is truthy when present and non-empty. */
  predicate Truthy(s: Option<string>)
  {
    s.Some? && s.value != ""
  }

  /** `anonymousPosts.filter(...)`: the posts `drop` rejects are removed, the rest kept in order. */
  function KeepPosts(posts: seq<AnonymousPost>, drop: AnonymousPost -> bool): (r: seq<AnonymousPost>)
    ensures |r| <= |posts|
    ensures forall p :: p in r <==> p in posts && !drop(p)
    ensures (forall p :: p in posts ==> !drop(p)) ==> r == posts
  {
    if posts == [] then []
    else (if drop(posts[0]) then [] else [posts[0]]) + KeepPosts(posts[1..], drop)
  }

  /** The filter of the delete handlers reads `questionId` (or `answerId`) of
      every post; on a post without it the read throws. */
  predicate Throws(posts: seq<AnonymousPost>, readsQuestionId: bool)
  {
    exists p :: p in posts && (if readsQuestionId then p.questionId.None? else p.answerId.None?)
  }

  /** POST /api/questions. An anonymous question from a user who disallows
      anonymity is refused with 400 before anything is stored. Otherwise the
      question is built (title trimmed, tags lower-cased and trimmed) and
      saved, and the save hook sets the slug. The save throws, which the
      handler answers with 500, nothing stored and the user untouched, in two
      cases: the trimmed title is empty, which the schema's `required` refuses
      (the length check of the route does not trim), or the slug is among
      `slugs`, the slugs already stored, which the unique index refuses. After a successful save an anonymous question is recorded in
      `anonymousPosts`, 5 points are added (which checks achievements against
      the statistics as they stand), and only then is `questionsAsked`
      incremented. */
  method CreateQuestion(user: User, qid: QuestionId, title: string, content: string, category: string,
                        tags: seq<string>, isAnonymous: bool, priority: Priority, slugs: set<string>, now: Time)
    returns (status: int, question: Question?)
    modifies user`anonymousPosts, user`stackPoints, user`level, user`achievements, user`stats
    ensures isAnonymous && !user.allowAnonymous ==> status == 400 && question == null && unchanged(user)
    ensures !(isAnonymous && !user.allowAnonymous) && (Trim(title) == [] || Slug(Trim(title)) in slugs) ==>
      status == 500 && question == null && unchanged(user)
    ensures !(isAnonymous && !user.allowAnonymous) && Trim(title) != [] && Slug(Trim(title)) !in slugs ==>
      status == 201 && question != null && fresh(question)
    ensures question != null ==>
      && question.id == qid && question.author == user.id && question.isAnonymous == isAnonymous
      && question.title == Trim(title) && question.title != [] && question.content == content && question.category == category
      && question.tags == NormalizeTags(tags) && question.priority == priority && question.status == Open
      && question.slug == Some(Slug(Trim(title))) && question.Valid()
      && user.anonymousPosts == old(user.anonymousPosts) + (if isAnonymous then [AnonymousPost(Some(qid), None, now)] else [])
      && user.stackPoints == old(user.stackPoints) + 5
      && user.level == CalculateLevel(user.stackPoints)
      && user.achievements == old(user.achievements) + NewAchievements(old(user.stats), user.confidenceBoosterBadges, old(user.achievements), now)
      && user.stats == old(user.stats).(questionsAsked := old(user.stats).questionsAsked + 1)
  {
    if isAnonymous && !user.allowAnonymous {
      return 400, null;
    }
    if Trim(title) == [] || Slug(Trim(title)) in slugs {
      return 500, null;
    }
    question := SaveNewQuestion(qid, user.id, isAnonymous, title, content, category, NormalizeTags(tags), priority, now);
    NormalizeTagsIdempotent(tags);
    CreditNewQuestion(user, qid, isAnonymous, now);
    status := 201;
  }

  /** What POST /api/questions does to the asker after the save: an anonymous
      question is recorded in `anonymousPosts`, 5 points are added (checking
      achievements against the statistics as they stand), and then
      `questionsAsked` is incremented. */
  method CreditNewQuestion(user: User, qid: QuestionId, isAnonymous: bool, now: Time)
    modifies user`anonymousPosts, user`stackPoints, user`level, user`achievements, user`stats
    ensures user.anonymousPosts == old(user.anonymousPosts) + (if isAnonymous then [AnonymousPost(Some(qid), None, now)] else [])
    ensures user.stackPoints == old(user.stackPoints) + 5
    ensures user.level == CalculateLevel(user.stackPoints)
    ensures user.achievements == old(user.achievements) + NewAchievements(old(user.stats), user.confidenceBoosterBadges, old(user.achievements), now)
    ensures user.stats == old(user.stats).(questionsAsked := old(user.stats).questionsAsked + 1)
  {
    if isAnonymous {
      user.anonymousPosts := user.anonymousPosts + [AnonymousPost(Some(qid), None, now)];
    }
    user.AddStackPoints(5, "Asked a question", now);
    user.stats := user.stats.(questionsAsked := user.stats.questionsAsked + 1);
  }

  /** `new Question({...})` followed by its first `save()`, whose hook sets the slug. */
  method SaveNewQuestion(id: QuestionId, author: UserId, isAnonymous: bool, title: string, content: string,
                         category: string, tags: seq<string>, priority: Priority, now: Time)
    returns (q: Question)
    ensures fresh(q)
    ensures q.id == id && q.author == author && q.isAnonymous == isAnonymous
    ensures q.title == Trim(title) && q.content == content && q.category == category
    ensures q.tags == NormalizeTags(tags) && q.priority == priority && q.status == Open
    ensures q.slug == Some(Slug(Trim(title))) && q.Valid()
  {
    q := new Question(id, author, isAnonymous, title, content, category, tags, priority, now);
    q.PreSave(true);
  }

  /** Every title without an ASCII letter or digit gets the empty slug, so
      once one such question is stored, asking any other such question hits
      the unique index (the 500 branch of `CreateQuestion`). */
  lemma LetterlessTitlesCollide(stored: string, asked: string)
    requires Letterless(stored) && Letterless(asked)
    ensures Slug(Trim(asked)) in {Slug(Trim(stored))}
  {
    LetterlessSlug(stored);
    LetterlessSlug(asked);
  }

  /** Two different titles, both within the 10 to 200 characters the route
      accepts, whose slugs collide: after "!!!!!!!!!! ?" is asked, asking
      "?????????? !" fails. */
  lemma LetterlessCounterexample()
    ensures 10 <= |"!!!!!!!!!! ?"| <= 200 && 10 <= |"?????????? !"| <= 200
    ensures "!!!!!!!!!! ?" != "?????????? !" && Slug(Trim("?????????? !")) in {Slug(Trim("!!!!!!!!!! ?"))}
  {
    LetterlessTitlesCollide("!!!!!!!!!! ?", "?????????? !");
  }

  /** Because achievements are checked before `questionsAsked` is
      incremented, asking the first question never earns "First Question". */
  lemma FirstQuestionNotOnFirstAsk(s: Stats, boosters: int, held: seq<Achievement>, now: Time)
    requires s.questionsAsked == 0
    ensures !HasAchievement(NewAchievements(s, boosters, held, now), BadgeName(FirstQuestion))
  {
    var earned := NewAchievements(s, boosters, held, now);
    if a :| a in earned && a.name == BadgeName(FirstQuestion) {
      QualifyingFrom(RuleOrder, s, boosters, held, now, a);
      var b :| b in RuleOrder && a == Award(b, now) && !HasAchievement(held, BadgeName(b));
      if b != FirstQuestion {
        BadgeNameInjective(b, FirstQuestion);
      }
      EarnedIff(FirstQuestion, s, boosters, held, now);
      assert false;
    }
  }

  /** ... it is earned by the next action that checks achievements once the
      counter is 1, such as asking the second question. */
  lemma FirstQuestionOnSecondAsk(s: Stats, boosters: int, held: seq<Achievement>, now: Time)
    requires s.questionsAsked == 1 && !HasAchievement(held, BadgeName(FirstQuestion))
    ensures Award(FirstQuestion, now) in NewAchievements(s, boosters, held, now)
  {
    EarnedIff(FirstQuestion, s, boosters, held, now);
  }

  /** POST /api/questions/:id/answers. 404 for a missing question, 400 for a
      disallowed anonymous answer, both before anything is stored. Otherwise
      the answer id is pushed onto `answers` as it is (no duplicate check, no
      status change), an anonymous answer is recorded, 10 points are added,
      and `answersGiven` and `lastAnswerDate` are updated after the
      achievement check. */
  method AnswerQuestion(user: User, question: Question?, aid: AnswerId, content: string, isAnonymous: bool, now: Time)
    returns (status: int, answer: Answer?)
    modifies user`anonymousPosts, user`stackPoints, user`level, user`achievements, user`stats, LoadedQ(question)`answers
    ensures question == null ==> status == 404 && answer == null && unchanged(user)
    ensures question != null && isAnonymous && !user.allowAnonymous ==>
      status == 400 && answer == null && unchanged(user) && unchanged(question)
    ensures question != null && !(isAnonymous && !user.allowAnonymous) ==>
      && status == 201 && answer != null && fresh(answer)
      && answer.id == aid && answer.author == user.id && answer.question == question.id
      && answer.isAnonymous == isAnonymous && answer.content == content && !answer.isAccepted
      && question.answers == old(question.answers) + [aid]
      && user.anonymousPosts == old(user.anonymousPosts) + (if isAnonymous then [AnonymousPost(None, Some(aid), now)] else [])
      && user.stackPoints == old(user.stackPoints) + 10
      && user.level == CalculateLevel(user.stackPoints)
      && user.achievements == old(user.achievements) + NewAchievements(old(user.stats), user.confidenceBoosterBadges, old(user.achievements), now)
      && user.stats == old(user.stats).(answersGiven := old(user.stats).answersGiven + 1, lastAnswerDate := Some(now))
  {
    if question == null {
      return 404, null;
    }
    if isAnonymous && !user.allowAnonymous {
      return 400, null;
    }
    answer := new Answer(aid, user.id, question.id, isAnonymous, content);
    question.answers := question.answers + [aid];
    if isAnonymous {
      user.anonymousPosts := user.anonymousPosts + [AnonymousPost(None, Some(aid), now)];
    }
    user.AddStackPoints(10, "Answered a question", now);
    user.stats := user.stats.(answersGiven := user.stats.answersGiven + 1, lastAnswerDate := Some(now));
    status := 201;
  }

  /** The upvote award test runs after the toggle: it fires when an 'upvote'
      request leaves the voter outside `upvotes`. On well-formed lists that is
      exactly the case where the request retracted an existing upvote; a fresh
      upvote, a flip from a downvote and every downvote award nothing. */
  lemma {:induction false} AwardOnlyOnRetraction(b: Ballots, u: UserId, t: VoteType)
    requires WellFormed(b)
    ensures (t == Upvote && u !in Toggle(b, u, t).up) <==> (t == Upvote && u in b.up)
  {
    ToggleEffect(b, u, t);
  }

  /** POST /api/questions/:id/vote. 404 for a missing question and 400 for a
      vote on one's own question, both before the toggle. Otherwise the toggle
      is applied and, when the request was an upvote and the voter is not an
      upvoter afterwards, the author (when found) gets 2 points; on well-formed
      lists that test holds exactly when an upvote was retracted. */
  method VoteOnQuestion(voter: User, question: Question?, t: VoteType, author: User?, now: Time)
    returns (status: int)
    requires question != null && author != null ==> author.id == question.author
    requires question != null ==> question.Valid()
    modifies LoadedQ(question)`upvotes, LoadedQ(question)`downvotes, LoadedU(author)`stackPoints, LoadedU(author)`level, LoadedU(author)`achievements
    ensures question == null ==> status == 404 && (author != null ==> unchanged(author))
    ensures question != null && question.author == voter.id ==>
      status == 400 && unchanged(question) && (author != null ==> unchanged(author))
    ensures question != null && question.author != voter.id ==>
      && status == 200
      && Ballots(question.upvotes, question.downvotes) == Toggle(old(Ballots(question.upvotes, question.downvotes)), voter.id, t)
      && question.Valid()
      && (author != null && t == Upvote && voter.id in old(question.upvotes) ==>
            && author.stackPoints == old(author.stackPoints) + 2
            && author.level == CalculateLevel(author.stackPoints)
            && author.achievements == old(author.achievements) + NewAchievements(author.stats, author.confidenceBoosterBadges, old(author.achievements), now))
      && (author != null && !(t == Upvote && voter.id in old(question.upvotes)) ==> unchanged(author))
  {
    if question == null {
      return 404;
    }
    if question.author == voter.id {
      return 400;
    }
    ghost var before := Ballots(question.upvotes, question.downvotes);
    question.ToggleVote(voter.id, t);
    AwardOnlyOnRetraction(before, voter.id, t);
    if t == Upvote && voter.id !in question.upvotes {
      if author != null {
        author.AddStackPoints(2, "Question upvoted", now);
      }
    }
    status := 200;
  }

  /** POST /api/questions/:id/accept-answer/:answerId. 404 (question), 403
      (not the question author), 404 (answer) and 400 (answer of another
      question) are all decided before any change. Then the answer is
      accepted, the question records it as accepted and answered, the answer
      author (when found) gets 15 points and one more accepted answer, and an
      answer-accepted notification is stored for the answer author. Nothing
      guards against accepting again, and a previously accepted answer is
      left as it is. */
  method AcceptAnswer(requester: User, question: Question?, answer: Answer?, answerAuthor: User?,
                      store: NotificationStore, now: Time)
    returns (status: int)
    requires answer != null && answerAuthor != null ==> answerAuthor.id == answer.author
    modifies LoadedQ(question)`acceptedAnswer, LoadedQ(question)`status, LoadedQ(question)`lastActivity
    modifies LoadedA(answer)`isAccepted, LoadedA(answer)`acceptedAt, LoadedA(answer)`acceptedBy, LoadedA(answer)`confidenceBoosterAwarded
    modifies LoadedU(answerAuthor)`stackPoints, LoadedU(answerAuthor)`level, LoadedU(answerAuthor)`achievements, LoadedU(answerAuthor)`stats
    modifies store`records
    ensures question == null ==> status == 404
    ensures question != null && question.author != requester.id ==> status == 403
    ensures question != null && question.author == requester.id && answer == null ==> status == 404
    ensures question != null && question.author == requester.id && answer != null && answer.question != question.id ==> status == 400
    ensures status != 200 ==>
      && unchanged(store)
      && (question != null ==> unchanged(question))
      && (answer != null ==> unchanged(answer))
      && (answerAuthor != null ==> unchanged(answerAuthor))
    ensures status == 200 <==> question != null && question.author == requester.id && answer != null && answer.question == question.id
    ensures status == 200 ==>
      && answer.isAccepted && answer.acceptedBy == Some(requester.id) && answer.acceptedAt == Some(now)
      && answer.confidenceBoosterAwarded == (old(answer.confidenceBoosterAwarded) || answer.isAnonymous)
      && question.acceptedAnswer == Some(answer.id) && question.status == Answered && question.lastActivity == now
      && store.records == old(store.records) + [NewNotification(AnswerAcceptedDraft(answer.id, question.id, answer.author), now)]
      && (answerAuthor != null ==>
            && answerAuthor.stackPoints == old(answerAuthor.stackPoints) + 15
            && answerAuthor.level == CalculateLevel(answerAuthor.stackPoints)
            && answerAuthor.achievements == old(answerAuthor.achievements)
                 + NewAchievements(old(answerAuthor.stats), answerAuthor.confidenceBoosterBadges, old(answerAuthor.achievements), now)
            && answerAuthor.stats == old(answerAuthor.stats).(acceptedAnswers := old(answerAuthor.stats).acceptedAnswers + 1))
  {
    if question == null {
      return 404;
    }
    if question.author != requester.id {
      return 403;
    }
    if answer == null {
      return 404;
    }
    if answer.question != question.id {
      return 400;
    }
    answer.Accept(requester.id, now);
    question.AcceptAnswer(answer.id, now);
    if answerAuthor != null {
      CreditAcceptedAnswer(answerAuthor, now);
    }
    store.Create(AnswerAcceptedDraft(answer.id, question.id, answer.author), now);
    status := 200;
  }

  /** The answerer's side of an acceptance: 15 points (with the achievement
      check they trigger), then one more accepted answer in the statistics. */
  method CreditAcceptedAnswer(u: User, now: Time)
    modifies u`stackPoints, u`level, u`achievements, u`stats
    ensures u.stackPoints == old(u.stackPoints) + 15
    ensures u.level == CalculateLevel(u.stackPoints)
    ensures u.achievements == old(u.achievements) + NewAchievements(old(u.stats), u.confidenceBoosterBadges, old(u.achievements), now)
    ensures u.stats == old(u.stats).(acceptedAnswers := old(u.stats).acceptedAnswers + 1)
  {
    u.AddStackPoints(15, "Answer accepted", now);
    u.stats := u.stats.(acceptedAnswers := u.stats.acceptedAnswers + 1);
  }

  /** PUT /api/questions/:id. 404 for a missing question, 403 unless
      `MayModify`. A truthy title that trims to nothing fails the schema's
      `required` under `runValidators`: 500 and nothing changes. Otherwise
      each truthy field of the body replaces the stored one (the title
      through its trimming setter, tags normalised). The update bypasses the
      save hook, so the slug is not regenerated. */
  method EditQuestion(requester: User, question: Question?, title: Option<string>, content: Option<string>,
                      category: Option<string>, tags: Option<seq<string>>, priority: Option<Priority>)
    returns (status: int)
    modifies LoadedQ(question)`title, LoadedQ(question)`content, LoadedQ(question)`category, LoadedQ(question)`tags, LoadedQ(question)`priority
    ensures question == null ==> status == 404
    ensures question != null && !MayModify(requester.id, requester.role, question.author) ==>
      status == 403 && unchanged(question)
    ensures question != null && MayModify(requester.id, requester.role, question.author)
            && Truthy(title) && Trim(title.value) == [] ==>
      status == 500 && unchanged(question)
    ensures question != null && MayModify(requester.id, requester.role, question.author)
            && !(Truthy(title) && Trim(title.value) == []) ==>
      && status == 200
      && question.title == (if Truthy(title) then Trim(title.value) else old(question.title))
      && question.content == (if Truthy(content) then content.value else old(question.content))
      && question.category == (if Truthy(category) then category.value else old(question.category))
      && question.tags == (if tags.Some? then NormalizeTags(tags.value) else old(question.tags))
      && question.priority == (if priority.Some? then priority.value else old(question.priority))
  {
    if question == null {
      return 404;
    }
    if !MayModify(requester.id, requester.role, question.author) {
      return 403;
    }
    if Truthy(title) && Trim(title.value) == [] {
      return 500;
    }
    if Truthy(title) {
      question.title := Trim(title.value);
    }
    if Truthy(content) {
      question.content := content.value;
    }
    if Truthy(category) {
      question.category := category.value;
    }
    if tags.Some? {
      question.tags := NormalizeTags(tags.value);
    }
    if priority.Some? {
      question.priority := priority.value;
    }
    status := 200;
  }

  /** DELETE /api/questions/:id. 404 and 403 as for editing. Otherwise the
      question's answers are deleted first; for an anonymous question the
      requester's posts for it are then filtered out, and that filter throws
      (500, question kept) when some post has no `questionId`, as an answer
      post has none. `answersDeleted` and `questionDeleted` report the two
      deletions. */
  method DeleteQuestion(requester: User, question: Question?)
    returns (status: int, answersDeleted: bool, questionDeleted: bool)
    modifies requester`anonymousPosts
    ensures question == null ==> status == 404 && !answersDeleted && !questionDeleted && unchanged(requester)
    ensures question != null && !MayModify(requester.id, requester.role, question.author) ==>
      status == 403 && !answersDeleted && !questionDeleted && unchanged(requester)
    ensures question != null && MayModify(requester.id, requester.role, question.author) ==>
      && answersDeleted
      && (question.isAnonymous && Throws(old(requester.anonymousPosts), true) ==>
            status == 500 && !questionDeleted && unchanged(requester))
      && (!(question.isAnonymous && Throws(old(requester.anonymousPosts), true)) ==>
            && status == 200 && questionDeleted
            && requester.anonymousPosts ==
                 if question.isAnonymous then KeepPosts(old(requester.anonymousPosts), (p: AnonymousPost) => p.questionId == Some(question.id))
                 else old(requester.anonymousPosts))
  {
    if question == null {
      return 404, false, false;
    }
    if !MayModify(requester.id, requester.role, question.author) {
      return 403, false, false;
    }
    answersDeleted := true;
    if question.isAnonymous {
      if Throws(requester.anonymousPosts, true) {
        return 500, true, false;
      }
      var qid := question.id;
      requester.anonymousPosts := KeepPosts(requester.anonymousPosts, (p: AnonymousPost) => p.questionId == Some(qid));
    }
    status, questionDeleted := 200, true;
  }

  /** POST /api/questions/:id/comment: 404 for a missing question, otherwise
      the comment is appended. */
  method AddQuestionComment(requester: User, question: Question?, cid: CommentId, text: string, now: Time)
    returns (status: int)
    modifies LoadedQ(question)`comments, LoadedQ(question)`lastActivity
    ensures question == null ==> status == 404
    ensures question != null ==>
      && status == 200 && question.comments == old(question.comments) + [Comment(cid, requester.id, text, now)]
      && question.lastActivity == now
  {
    if question == null {
      return 404;
    }
    question.AddComment(cid, requester.id, text, now);
    status := 200;
  }

  /** DELETE /api/questions/:id/comment/:commentId. 404 for a missing question
      or comment; 403 unless the requester may modify the first comment with
      that id; otherwise every comment with that id is removed. */
  method DeleteQuestionComment(requester: User, question: Question?, cid: CommentId, now: Time)
    returns (status: int)
    modifies LoadedQ(question)`comments, LoadedQ(question)`lastActivity
    ensures question == null ==> status == 404
    ensures question != null && cid !in CommentIds(old(question.comments)) ==> status == 404 && unchanged(question)
    ensures question != null && cid in CommentIds(old(question.comments)) ==>
      var c := old(question.comments)[CommentIndex(old(question.comments), cid)];
      && (!MayModify(requester.id, requester.role, c.author) ==> status == 403 && unchanged(question))
      && (MayModify(requester.id, requester.role, c.author) ==>
            status == 200 && question.comments == WithoutComment(old(question.comments), cid)
            && question.lastActivity == now)
  {
    if question == null {
      return 404;
    }
    var i := CommentIndex(question.comments, cid);
    if i == -1 {
      return 404;
    }
    if !MayModify(requester.id, requester.role, question.comments[i].author) {
      return 403;
    }
    question.RemoveComment(cid, now);
    status := 200;
  }

  /** The `pagination` object of the listing and search responses. `total`
      is None where JavaScript's `Math.ceil(total / limit)` is not a finite
      number (a zero limit). */
  datatype Pagination = Pagination(current: int, total: Option<int>, hasNext: bool, hasPrev: bool)

  /** `(page - 1) * limit`: the number of questions before the page. */
  function Skip(page: int, limit: int): (n: int)
    ensures page >= 1 && limit >= 0 ==> n >= 0
    ensures n + limit == page * limit
  {
    (page - 1) * limit
  }

  /** `Math.ceil(total / limit)`, characterised by the two inequalities that
      define a ceiling. */
  function PageCount(total: nat, limit: int): (r: Option<int>)
    ensures r.None? <==> limit == 0
    ensures limit > 0 ==> (r.value - 1) * limit < total <= r.value * limit
    ensures limit < 0 ==> (r.value - 1) * limit > total >= r.value * limit
  {
    if limit == 0 then None
    else if limit > 0 then Some((total + limit - 1) / limit)
    else Some(-(total / -limit))
  }

  /** The pagination of a page of `limit` questions out of `total`. */
  function Paginate(page: int, limit: int, total: nat): (p: Pagination)
    ensures p.current == page && p.total == PageCount(total, limit)
    ensures p.hasNext <==> Skip(page, limit) + limit < total
    ensures p.hasPrev <==> page > 1
  {
    Pagination(page, PageCount(total, limit), page * limit < total, page > 1)
  }

  /** With a positive limit, there is a next page exactly when the current
      page comes before the last one. */
  lemma HasNextBeforeLastPage(page: int, limit: int, total: nat)
    requires limit > 0
    ensures Paginate(page, limit, total).hasNext <==> page < PageCount(total, limit).value
  {
    var n := PageCount(total, limit).value;
    if page < n {
      assert page <= n - 1;
      assert page * limit <= (n - 1) * limit by {
        MultiplyMonotone(page, n - 1, limit);
      }
    } else {
      MultiplyMonotone(n, page, limit);
    }
  }

  lemma MultiplyMonotone(a: int, b: int, k: int)
    requires a <= b && k >= 0
    ensures a * k <= b * k
  {
  }

  /** The sort fields of the listing. */
  datatype SortField = CreatedAt | Upvotes | Views | AnswerList

  /** The sort `switch`: a field and a direction (1 ascending, -1 descending);
      an unknown key sorts like 'newest'. */
  function SortKey(sort: string): (k: (SortField, int))
    ensures k.1 == 1 <==> sort == "oldest"
    ensures k.1 == -1 <==> sort != "oldest"
    ensures k.0 == Upvotes <==> sort == "most_voted"
    ensures k.0 == Views <==> sort == "most_viewed"
    ensures k.0 == AnswerList <==> sort == "most_answered"
  {
    if sort == "newest" then (CreatedAt, -1)
    else if sort == "oldest" then (CreatedAt, 1)
    else if sort == "most_voted" then (Upvotes, -1)
    else if sort == "most_viewed" then (Views, -1)
    else if sort == "most_answered" then (AnswerList, -1)
    else (CreatedAt, -1)
  }
}
