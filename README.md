# StackIt core, modelled in Dafny

StackIt is a question-and-answer site. Its backend (Express with Mongoose) keeps users,
questions, answers and notifications; its frontend (Next.js) holds the ask-question and
settings forms. This project models the part of it that decides outcomes:

- **The documents and their methods.** These are the question, answer, user and
  notification models with their instance methods and statics:
  - vote toggling
  - acceptance
  - comments
  - the slug hook
  - levels and achievements
  - unread counts and marking as read
- **The notification service.** This covers its self-notification guards and mention
  extraction.
- **The authentication middlewares.**
- **The question and answer route handlers.** They move StackPoints, statistics,
  anonymous-post records and notifications.
- **The client-side validators and tag picker** of the ask and settings pages.

**Documents and handlers.** A document whose fields the code updates in place is a class:
`Question`, `Answer`, `User` and the notification collection `NotificationStore`. Each
route handler is a method over the documents its route loads:

- a lookup that finds nothing is a `null` argument
- `req.user` is a `User`
- the HTTP status is the result
- ids the database assigns are inputs

**Shared logic.** The vote toggle and the comment filter appear verbatim in both the
Question and the Answer model. They are stated once, in module `Votes`, and both classes
are proved against them. JavaScript string built-ins are modelled in module `Text`: `trim`,
ASCII `toLowerCase`, `includes`, and the `\w` class.

**Quirks kept as written.** The model follows the code, including behaviour that looks
accidental:

- The upvote award is tested after the toggle, so it fires only on a retraction.
- Achievements are checked before the statistic that would earn them is incremented.
- The answer streak is computed after `lastAnswerDate` has been overwritten, so it is
  never restarted.
- Acceptance does not clear a previously accepted answer.
- `confidenceBoosterBadges` is never incremented by any handler.
- The anonymous-post filters of the delete handlers throw on posts of the other kind.
- A title with no ASCII letter or digit gets the empty slug. The slug index is unique,
  so a second such title cannot be saved and the route answers 500 (see Findings).

**Where the code and its documentation disagree, the model follows the code.**

- The level-up message of the Notification factory says "StackPoints", but the
  notification service says "points". Both are modelled.
- The answer route of `questions.js` pushes the answer id directly, without `addAnswer`'s
  duplicate check or status change. The answer route of `answers.js` goes through
  `addAnswer`.

## Model

| member | source | states |
|---|---|---|
| Common.FindIndex | backend/models/Question.js:180-181 | the first position holding the value, or -1 exactly when it is absent |
| Common.Without | frontend/src/app/ask/page.tsx:153-158 | the filter drops exactly the entries equal to the value, and a list without the value is returned unchanged |
| Common.WithoutConcat | backend/routes/answers.js:177 | the filter works piecewise, so the surviving entries keep their order |
| Common.WithoutKeepsDistinct | frontend/src/app/ask/page.tsx:153-158 | filtering a duplicate-free list leaves it duplicate-free |
| Common.AppendThenWithout | backend/routes/answers.js:177 | filtering out an id just appended (one not listed before) restores the list |
| Common.InsertDescending | backend/models/Notification.js:97 | placing one element into a list adds exactly that element |
| Common.InsertKeepsDescending | backend/models/Notification.js:97 | placing an element into a list in descending key order keeps it in that order |
| Common.SortDescending | backend/models/Notification.js:97 | `sort({ field: -1 })` returns the same elements, each as often |
| Common.SortIsDescending | backend/models/Notification.js:97 | the sorted list is in descending key order |
| Text.TrimStart | backend/models/Question.js:4-9 | `trimStart` never lengthens the string |
| Text.TrimStartShape | backend/models/Question.js:4-9 | trimStart drops only whitespace, keeps a suffix, and what it keeps does not start with whitespace |
| Text.TrimEnd | backend/models/Question.js:4-9 | `trimEnd` never lengthens the string |
| Text.TrimEndShape | backend/models/Question.js:4-9 | trimEnd drops only whitespace, keeps a prefix, and what it keeps does not end with whitespace |
| Text.Trim | backend/models/Question.js:4-9 | `trim` never lengthens the string |
| Text.TrimShape | backend/models/Question.js:4-9 | a trimmed string has no whitespace at either end |
| Text.TrimEmptyIff | frontend/src/app/ask/page.tsx:65 | `trim()` is empty (falsy) exactly when the string is all whitespace |
| Text.ToLower | backend/models/Question.js:154 | lower-casing keeps the length |
| Text.ToLowerAt | backend/models/Question.js:154 | lower-casing works character by character |
| Text.LowerCharFacts | backend/models/Question.js:24-28 | lower-casing neither creates nor removes whitespace, and is idempotent on one character |
| Text.ToLowerTrimStart | backend/models/Question.js:24-28 | lower-casing commutes with `trimStart` |
| Text.ToLowerTrimEnd | backend/models/Question.js:24-28 | lower-casing commutes with `trimEnd` |
| Text.TrimToLowerCommute | backend/models/Question.js:24-28 | `toLowerCase().trim()` equals `trim().toLowerCase()`, so the order of the `lowercase` and `trim` setters does not matter |
| Text.ToLowerIdempotent | backend/models/Question.js:24-28 | lower-casing twice is lower-casing once |
| Text.TrimIdempotent | backend/models/Question.js:24-28 | trimming twice is trimming once |
| Votes.RemoveAt | backend/models/Question.js:186 | `splice(i, 1)` shortens by one and adds nothing new |
| Votes.RemoveOnly | backend/models/Question.js:186 | removing the only occurrence of a voter removes exactly that voter and keeps the list duplicate-free |
| Votes.ToggleWellFormed | backend/models/Question.js:179-208 | the toggle keeps both lists duplicate-free and no voter in both |
| Votes.ToggleEffect | backend/models/Question.js:179-208 | a vote of the requested kind is retracted; otherwise the voter is appended to the requested list and removed from the other; other voters keep their membership |
| Votes.ToggleVoteCount | backend/models/Question.js:162-164 | the vote count moves by -1 (retraction), +2 (flip) or +1 (fresh vote), signed by the vote kind |
| Votes.ToggleTwiceRestores | backend/models/Question.js:179-208 | a fresh vote followed by the same vote restores both lists exactly |
| Votes.ToggleTwiceRetracts | backend/models/Question.js:179-208 | voting the same kind twice, when the first added or flipped, leaves the voter in neither list |
| Votes.CommentIndex | backend/routes/questions.js:550 | `comments.id(id)` finds the first comment with that id, or -1 exactly when none has it |
| Votes.WithoutCommentMembers | backend/models/Question.js:229-233 | exactly the comments with a different id survive; a missing id changes nothing |
| Votes.WithoutCommentConcat | backend/models/Answer.js:187-190 | the comment filter works piecewise, so survivors keep their order |
| Votes.AddThenRemoveComment | backend/models/Answer.js:178-190 | removing a comment just added under a new id restores the list |
| AnswerModel.Answer.constructor | backend/models/Answer.js:3-108 | a new answer has empty vote and comment lists, is not accepted, and has zero counters; its vote lists are well formed |
| AnswerModel.Answer.VoteCount | backend/models/Answer.js:114-116 | the answer's vote count is the shared `voteCount` of its two lists |
| AnswerModel.Answer.ToggleVote | backend/models/Answer.js:124-153 | the answer's lists become the shared toggle of the old lists, and stay well formed (no one twice, no one both ways) |
| AnswerModel.Answer.SpliceVote | backend/models/Answer.js:124-153 | the in-place splices and pushes compute the shared toggle of the old lists |
| AnswerModel.Answer.Accept | backend/models/Answer.js:156-167 | accepted, by the acceptor, at now; the Confidence Booster flag is set for an anonymous answer and never cleared |
| AnswerModel.Answer.Unaccept | backend/models/Answer.js:170-175 | clears acceptance, time and acceptor, and keeps the Confidence Booster flag |
| AnswerModel.Answer.AddComment | backend/models/Answer.js:178-184 | appends exactly one comment |
| AnswerModel.Answer.RemoveComment | backend/models/Answer.js:187-190 | keeps exactly the comments with another id |
| AnswerModel.Answer.MarkHelpful | backend/models/Answer.js:193-196 | one more helpful mark |
| AnswerModel.Answer.AddView | backend/models/Answer.js:199-202 | one more view |
| AnswerModel.Answer.PublicData | backend/models/Answer.js:205-233 | the author is withheld exactly when the answer is anonymous; both vote fields carry the vote count |
| QuestionModel.SlugChars | backend/models/Question.js:155 | only `[a-z0-9]` characters are kept, in order |
| QuestionModel.DropSeparators | backend/models/Question.js:155 | dropping a separator run never lengthens the string |
| QuestionModel.DropSeparatorsShape | backend/models/Question.js:155 | what is dropped is separators; what is kept starts with a letter or digit and holds all of them |
| QuestionModel.CollapseSeparators | backend/models/Question.js:155 | the collapse is empty exactly when the input is |
| QuestionModel.CollapseShape | backend/models/Question.js:155 | the collapse holds only `[a-z0-9-]`, never "--", and starts with '-' exactly when the input starts with a separator |
| QuestionModel.CollapseLast | backend/models/Question.js:155 | the collapse ends with '-' exactly when the input ends with a separator |
| QuestionModel.CollapseKeepsSlugChars | backend/models/Question.js:155 | the collapse keeps exactly the letters and digits, in order |
| QuestionModel.SlugShape | backend/models/Question.js:151-159 | a slug holds only `[a-z0-9-]`, never "--", no dash at either end; its letters and digits are those of the lower-cased title; empty exactly when the title has none |
| QuestionModel.LeadingDashDropped | backend/models/Question.js:156 | the `^-` removal keeps the collapsed shape and letters, and leaves no leading dash |
| QuestionModel.TrailingDashDropped | backend/models/Question.js:156 | the `-$` removal keeps the collapsed shape, letters and clean front, and leaves no trailing dash |
| QuestionModel.SliceKeepsShape | backend/models/Question.js:156 | a slice of a collapsed string is collapsed |
| QuestionModel.LetterlessNoSlugChars | backend/models/Question.js:154-155 | a string without ASCII letters or digits keeps no slug character once lower-cased |
| QuestionModel.LetterlessSlug | backend/models/Question.js:151-159 | a title without ASCII letters or digits gets the empty slug |
| QuestionModel.SparseSlug | backend/models/Question.js:128-132 | the intended slug field is unset exactly when the slug would be empty, and otherwise the slug |
| QuestionModel.SparseSlugCollisions | backend/models/Question.js:128-132 | with the intended slug field, letterless titles are never indexed, and two indexed titles collide only when they share the same non-empty letters and digits |
| QuestionModel.NormalizeTags | backend/models/Question.js:24-28 | normalising keeps the number of tags |
| QuestionModel.NormalizeTagIdempotent | backend/models/Question.js:24-28 | the tag setters change nothing on a tag the route has already lower-cased and trimmed |
| QuestionModel.NormalizeTagsIdempotent | backend/routes/questions.js:189 | the route's `map` followed by the schema setters stores the same tags as the map alone |
| QuestionModel.Question.constructor | backend/models/Question.js:3-148 | a new question: title trimmed, every tag lower-cased and trimmed by the setters, status open, no votes, answers or comments, well-formed vote lists, no slug until saved |
| QuestionModel.Question.PreSave | backend/models/Question.js:151-159 | the slug is regenerated from the title exactly when the title was modified |
| QuestionModel.Question.VoteCount | backend/models/Question.js:162-164 | the question's vote count is the shared `voteCount` of its lists |
| QuestionModel.Question.AddView | backend/models/Question.js:172-176 | one more view; activity moves to now |
| QuestionModel.Question.ToggleVote | backend/models/Question.js:179-208 | the question's lists become the shared toggle of the old lists, and stay well formed (no one twice, no one both ways) |
| QuestionModel.Question.SpliceVote | backend/models/Question.js:179-208 | the in-place splices and pushes compute the shared toggle of the old lists |
| QuestionModel.Question.AcceptAnswer | backend/models/Question.js:211-216 | records the answer and sets status answered, whatever it was |
| QuestionModel.Question.AddComment | backend/models/Question.js:219-226 | appends one comment; activity moves to now |
| QuestionModel.Question.RemoveComment | backend/models/Question.js:229-233 | keeps exactly the comments with another id |
| QuestionModel.Question.AddAnswer | backend/models/Question.js:236-245 | a new id is appended once and open becomes answered; a listed id changes nothing; duplicate-freedom is kept |
| QuestionModel.Question.PublicData | backend/models/Question.js:248-273 | the author is withheld exactly when anonymous; both vote fields carry the vote count |
| UserModel.CalculateLevel | backend/models/User.js:151-158 | the level's rank is the number of thresholds (500, 2000, 5000, 10000) the points reach |
| UserModel.LevelMonotone | backend/models/User.js:151-158 | more points never give a lower level |
| UserModel.BadgeNameInjective | backend/models/User.js:176-218 | different achievements have different names |
| UserModel.QualifyingMembers | backend/models/User.js:172-221 | an award is pushed by a rule list iff its rule is listed, its threshold holds and its name is not held |
| UserModel.EarnedIff | backend/models/User.js:172-221 | `checkAchievements` earns an achievement iff its threshold holds and no entry of that name exists |
| UserModel.QualifyingNothingNew | backend/models/User.js:172-221 | rules whose achievements are all held award nothing |
| UserModel.QualifyingFrom | backend/models/User.js:172-221 | every pushed entry comes from a listed rule whose name was not held |
| UserModel.QualifyingNotHeld | backend/models/User.js:176-218 | no pushed entry is already held |
| UserModel.QualifyingDistinct | backend/models/User.js:176-218 | entries pushed by distinct rules have distinct names |
| UserModel.NewAchievementsFresh | backend/models/User.js:172-221 | one check pushes pairwise distinct names, none already held |
| UserModel.CheckKeepsNamesDistinct | backend/models/User.js:220 | after the push, achievement names are still distinct |
| UserModel.CheckTwiceAwardsNothing | backend/models/User.js:172-221 | a second check with unchanged statistics awards nothing |
| UserModel.User.constructor | backend/models/User.js:4-131 | a new account: no points, Beginner, no achievements, initial statistics |
| UserModel.User.CheckAchievements | backend/models/User.js:172-221 | appends exactly the qualifying, not-yet-held awards in rule order, and keeps names distinct |
| UserModel.User.AddStackPoints | backend/models/User.js:161-169 | adds the points, recomputes the level, then appends the achievements the unchanged statistics earn |
| NotificationModel.NewNotification | backend/models/Notification.js:48-60 | a stored notification is unread, has no read time, and defaults its priority to medium |
| NotificationModel.AchievementDraft | backend/models/Notification.js:119-128 | an achievement notice to the user, high priority, naming the achievement |
| NotificationModel.LevelUpDraft | backend/models/Notification.js:131-140 | a level-up notice to the user, high priority, carrying level and points |
| NotificationModel.AnswerAcceptedDraft | backend/models/Notification.js:143-152 | an acceptance notice addressed to the third argument, high priority, with both ids |
| NotificationModel.QuestionAnsweredDraft | backend/models/Notification.js:155-165 | a notice from the answer author to the question author, medium priority, with both ids |
| NotificationModel.CountUnread | backend/models/Notification.js:90-92 | the unread count for a user is zero exactly when none of that user's records is unread |
| NotificationModel.MarkAllRead | backend/models/Notification.js:106-111 | each of the user's unread records becomes read at now; every other record is kept |
| NotificationModel.CountUnreadConcat | backend/models/Notification.js:90-92 | the unread count works piecewise |
| NotificationModel.MarkAllReadClears | backend/models/Notification.js:106-111 | after marking all read, the user has no unread record |
| NotificationModel.MarkAllReadKeepsOthers | backend/models/Notification.js:106-111 | marking all read for one user keeps every other user's unread count |
| NotificationModel.CreateCountsOnce | backend/models/Notification.js:114-116 | creating a notification raises its recipient's unread count by one and nobody else's |
| NotificationModel.MarkOneReadCount | backend/models/Notification.js:76-80 | marking one record read lowers the count by one exactly when it was unread for that user |
| NotificationModel.Mine | backend/models/Notification.js:95-103 | exactly the user's records, in stored order |
| NotificationModel.ForUser | backend/models/Notification.js:95-103 | the user's records sorted by `createdAt` descending, after skipping `skip`, at most `limit`, with the exact resulting length |
| NotificationModel.ForUserPage | backend/models/Notification.js:95-103 | every page holds only the user's records, newest first, whatever order they are stored in |
| NotificationModel.ForUserAll | backend/models/Notification.js:95-103 | without skip or limit the result is exactly the user's records (as a multiset) |
| NotificationModel.NotificationStore.constructor | backend/models/Notification.js:3-67 | an empty collection is in creation order |
| NotificationModel.NotificationStore.Create | backend/models/Notification.js:114-116 | appends one record, keeping creation order when the clock has not gone back |
| NotificationModel.NotificationStore.MarkAsRead | backend/models/Notification.js:76-80 | only that record becomes read at now |
| NotificationModel.NotificationStore.MarkAsUnread | backend/models/Notification.js:83-87 | only that record becomes unread, with no read time |
| NotificationModel.NotificationStore.MarkAllAsRead | backend/models/Notification.js:106-111 | the loop's result is the bulk update `MarkAllRead` |
| NotificationService.AnswerNotice | backend/utils/notificationService.js:6-28 | a notice exists iff the answerer is not the question author (and is found); it goes from answerer to question author |
| NotificationService.QuestionCommentNotice | backend/utils/notificationService.js:31-53 | no notice for commenting on one's own question; otherwise commenter to question author |
| NotificationService.AnswerCommentNotice | backend/utils/notificationService.js:56-79 | no notice for commenting on one's own answer; otherwise commenter to answer author |
| NotificationService.QuestionUpvoteNotice | backend/utils/notificationService.js:82-103 | no notice for upvoting one's own question; otherwise voter to question author |
| NotificationService.AnswerUpvoteNotice | backend/utils/notificationService.js:106-128 | no notice for upvoting one's own answer; otherwise voter to answer author |
| NotificationService.AcceptedNotice | backend/utils/notificationService.js:131-147 | an unguarded, high-priority acceptance notice to the answer author |
| NotificationService.MentionNotice | backend/utils/notificationService.js:150-174 | a notice exists iff the name belongs to a user other than the mentioner; the message names the place |
| NotificationService.MentionSaysComment | backend/utils/notificationService.js:164 | the message says "comment" exactly when an answer id is given |
| NotificationService.AchievementNotice | backend/utils/notificationService.js:177-192 | a high-priority achievement notice to the user |
| NotificationService.LevelUpNotice | backend/utils/notificationService.js:195-211 | a high-priority level-up notice carrying level and points |
| NotificationService.Send | backend/utils/notificationService.js:14-24 | a notice that passed its guards is stored; otherwise the store is unchanged |
| NotificationService.NoSelfNotice | backend/utils/notificationService.js:8-10 | every guarded helper sends nothing about one's own content |
| NotificationService.WordEnd | backend/utils/notificationService.js:215 | the end of the maximal run of `\w` characters |
| NotificationService.Dedupe | backend/utils/notificationService.js:223 | `[...new Set(xs)]` holds each value of xs once and nothing else |
| NotificationService.DedupeFirstOccurrenceOrder | backend/utils/notificationService.js:223 | the values come out in order of first occurrence |
| NotificationService.ExtractMentions | backend/utils/notificationService.js:214-224 | the regex loop returns the deduplicated captures of `/@(\w+)/g` |
| NotificationService.MentionsAreCaptures | backend/utils/notificationService.js:219-221 | every name the loop collects is a capture of some match |
| NotificationService.CapturesAreMentions | backend/utils/notificationService.js:219-221 | every match is found by the scan |
| NotificationService.ExtractedIff | backend/utils/notificationService.js:214-224 | a name is returned iff it is the maximal `\w` run after some '@' |
| NotificationService.CaptureShape | backend/utils/notificationService.js:215 | a capture is non-empty, all word characters, preceded by '@' and maximal |
| NotificationService.NoAtNoMentions | backend/utils/notificationService.js:214-224 | content without '@' mentions nobody |
| Auth.FirstOccurrence | backend/middleware/auth.js:7 | the first position where the pattern occurs, or none when it never does |
| Auth.ReplaceFirst | backend/middleware/auth.js:7 | a string pattern replaces only its first occurrence, or nothing |
| Auth.TokenOf | backend/middleware/auth.js:7 | no header gives no token; a header without "Bearer " is the token itself |
| Auth.BearerStripped | backend/middleware/auth.js:7 | "Bearer " followed by anything yields exactly that rest |
| Auth.AuthMiddleware | backend/middleware/auth.js:4-36 | passes iff the token identifies an unbanned user; a banned user gets 403 with its reason; every other refusal is 401 |
| Auth.OptionalAuth | backend/middleware/auth.js:39-57 | always continues; the user is set iff the token identifies an unbanned user |
| Auth.AdminAuth | backend/middleware/auth.js:60-94 | passes iff `auth` passes and the role is admin or moderator; `auth`'s refusals are kept; any other authenticated role gets 403 "Access denied. Admin privileges required." |
| Auth.SuperAdminAuth | backend/middleware/auth.js:97-130 | passes iff `auth` passes and the role is admin; `auth`'s refusals are kept; any other authenticated role gets 403 "Access denied. Super admin privileges required." |
| Auth.BanBeforeRole | backend/middleware/auth.js:76-86 | a banned account gets the ban refusal from every guarding middleware, whatever its role |
| Auth.PrivilegeChain | backend/middleware/auth.js:60-130 | whoever passes superAdminAuth passes adminAuth, and whoever passes adminAuth passes auth, as the same user |
| QuestionRoutes.KeepPosts | backend/routes/questions.js:312-314 | keeps exactly the posts the predicate does not reject; nothing is dropped when none is rejected |
| QuestionRoutes.CreateQuestion | backend/routes/questions.js:181-222 | 400 with nothing stored for a disallowed anonymous question; 500 with nothing stored when the title trims to nothing (`required`) or the slug is already taken (unique index); otherwise the question (trimmed, non-empty title, normalised tags, slug, well-formed votes), the anonymous post, +5 with achievements on the old statistics, then questionsAsked+1 |
| QuestionRoutes.CreditNewQuestion | backend/routes/questions.js:199-210 | the anonymous post, +5 with achievements on the old statistics, then questionsAsked+1 |
| QuestionRoutes.LetterlessTitlesCollide | backend/models/Question.js:128-132 | any two titles without ASCII letters or digits get the same slug, so the second cannot be saved |
| QuestionRoutes.LetterlessCounterexample | backend/routes/questions.js:197 | "!!!!!!!!!! ?" and "?????????? !" are different titles of 10 to 200 characters with the same slug |
| QuestionRoutes.SaveNewQuestion | backend/routes/questions.js:185-197 | the first save sets the slug from the trimmed title; tags pass through the setters |
| QuestionRoutes.FirstQuestionNotOnFirstAsk | backend/routes/questions.js:206-209 | asking the first question never earns "First Question" |
| QuestionRoutes.FirstQuestionOnSecondAsk | backend/routes/questions.js:206-209 | the badge is earned at the next check once the counter is 1 |
| QuestionRoutes.AnswerQuestion | backend/routes/questions.js:350-386 | 404 or 400 before any change; otherwise the id pushed as is, the anonymous post, +10 on the old statistics, then answersGiven+1 and lastAnswerDate |
| QuestionRoutes.AwardOnlyOnRetraction | backend/routes/questions.js:432-440 | on well-formed lists the post-toggle upvote test fires exactly when an upvote was retracted |
| QuestionRoutes.VoteOnQuestion | backend/routes/questions.js:419-440 | 404 with nothing changed; 400 for one's own question before the toggle; otherwise the toggle, the lists stay well formed, and +2 to the author exactly when the voter retracts an upvote |
| QuestionRoutes.AcceptAnswer | backend/routes/questions.js:458-496 | 404/403/404/400 in order with nothing changed; otherwise acceptance, answered status, `lastActivity` set to now, the author credited and one notification |
| QuestionRoutes.CreditAcceptedAnswer | backend/routes/questions.js:484-487 | +15 with achievements on the old statistics, then acceptedAnswers+1 |
| QuestionRoutes.EditQuestion | backend/routes/questions.js:257-284 | 404; 403 unless author or privileged; 500 with nothing changed when a given title trims to nothing (`required` under `runValidators`); otherwise each truthy field replaces the stored one; the slug is not regenerated |
| QuestionRoutes.DeleteQuestion | backend/routes/questions.js:297-317 | 404; 403; answers deleted; for an anonymous question the filter throws (500, question kept) on a post without questionId, otherwise removes the question's posts |
| QuestionRoutes.AddQuestionComment | backend/routes/questions.js:522-528 | 404, or exactly one comment appended and `lastActivity` set to now |
| QuestionRoutes.DeleteQuestionComment | backend/routes/questions.js:545-560 | 404 for question or comment; 403 unless the comment's author or privileged; otherwise every comment with the id removed and `lastActivity` set to now |
| QuestionRoutes.Skip | backend/routes/questions.js:27 | the skip is non-negative on valid input and ends where the page does |
| QuestionRoutes.PageCount | backend/routes/questions.js:77 | `Math.ceil(total / limit)` by its defining inequalities; not finite for a zero limit |
| QuestionRoutes.Paginate | backend/routes/questions.js:74-80 | a next page exists iff the page ends before the total; a previous page iff page > 1 |
| QuestionRoutes.HasNextBeforeLastPage | backend/routes/questions.js:77-78 | with a positive limit, hasNext holds iff the page is before the last page |
| QuestionRoutes.SortKey | backend/routes/questions.js:43-61 | descending except for 'oldest'; each known key picks its field; unknown keys sort like 'newest' |
| AnswerRoutes.DayDiff | backend/routes/answers.js:77-78 | the ceiling of the day distance, by its defining inequalities |
| AnswerRoutes.RestartIffMoreThanADay | backend/routes/answers.js:80-84 | the streak restart fires exactly when the readings are more than a day apart |
| AnswerRoutes.StreakNeverRestarts | backend/routes/answers.js:72-84 | with lastAnswerDate read back just after it is set, the streak stays (same instant) or grows by one, never restarts |
| AnswerRoutes.CreditNewAnswer | backend/routes/answers.js:68-84 | +10 with achievements on the old statistics, answersGiven+1, lastAnswerDate now, streak by the day rule against now |
| AnswerRoutes.CreateAnswer | backend/routes/answers.js:36-101 | 404 or 400 with nothing stored; otherwise `addAnswer` (a new id is appended and sets `lastActivity`, a listed one changes nothing), anonymous post, credit with the level recomputed, and a notification iff the question is not anonymous |
| AnswerRoutes.EditAnswer | backend/routes/answers.js:125-143 | 404; 403 unless author or privileged; a truthy content replaces the stored one |
| AnswerRoutes.DeleteAnswer | backend/routes/answers.js:165-195 | 404; 403; the id filtered out of the question; acceptance reset to none/open only if it was this answer; the anonymous filter throws (500) on a post without answerId |
| AnswerRoutes.VoteOnAnswer | backend/routes/answers.js:221-242 | 404 with nothing changed; 400 for one's own answer before the toggle; otherwise the toggle, the lists stay well formed, and +5 exactly when the voter retracts an upvote |
| AnswerRoutes.AddAnswerComment | backend/routes/answers.js:267-275 | 404, or exactly one comment appended |
| AnswerRoutes.DeleteAnswerComment | backend/routes/answers.js:293-310 | 404 for answer or comment; 403 unless the comment's author or privileged; otherwise every comment with the id removed |
| AnswerRoutes.MarkHelpful | backend/routes/answers.js:325-331 | 404, or one more helpful mark, with no check of who marks |
| AskPage.ValidateAsk | frontend/src/app/ask/page.tsx:62-87 | title error iff blank or untrimmed length outside 10..150 ("required" when blank); content error iff blank or shorter than 20; tags error iff 0 or more than 5; passes iff no error |
| AskPage.CleanInput | frontend/src/app/ask/page.tsx:145 | the cleaned input is as long as the trimmed input |
| AskPage.CleanInputIsClean | frontend/src/app/ask/page.tsx:145 | the cleaned input is empty iff the input is blank, and otherwise trimmed and lower case |
| AskPage.AddTag | frontend/src/app/ask/page.tsx:144-151 | appends the cleaned input iff it is non-blank, not present and fewer than 5 tags exist (then clears the box); otherwise nothing changes |
| AskPage.AddTagKeepsTagsOk | frontend/src/app/ask/page.tsx:144-151 | tags stay distinct, clean and at most 5 |
| AskPage.AddTagTwice | frontend/src/app/ask/page.tsx:146 | adding the same input twice adds it once |
| AskPage.RemoveTag | frontend/src/app/ask/page.tsx:153-158 | drops every equal tag and changes nothing else |
| AskPage.RemoveTagKeepsTagsOk | frontend/src/app/ask/page.tsx:153-158 | removal keeps tags distinct, clean and at most 5 |
| AskPage.AddThenRemoveTag | frontend/src/app/ask/page.tsx:144-158 | removing a just-added tag restores the list |
| AskPage.TagInputChange | frontend/src/app/ask/page.tsx:160-167 | the box follows the typing; suggestions show iff it is not blank |
| AskPage.TagInputKeyDown | frontend/src/app/ask/page.tsx:169-174 | Enter or ',' adds the typed tag; any other key changes nothing |
| AskPage.FilteredSuggestions | frontend/src/app/ask/page.tsx:176-179 | a suggestion is shown iff its lower-cased name contains the lower-cased input and is not selected |
| AskPage.EmptyInputOffersAllUnselected | frontend/src/app/ask/page.tsx:176-179 | with nothing typed every unselected suggestion is offered |
| AskPage.PickOfferedSuggestion | frontend/src/app/ask/page.tsx:176-179 | clicking an offered, untrimmed-clean suggestion adds its lower-cased name when fewer than 5 tags exist |
| SettingsPage.ValidateSettings | frontend/src/app/settings/page.tsx:69-92 | username error iff blank or shorter than 3; each password error independently iff a new password is typed and its own condition holds; passes iff no error iff `ValidSettings` |
| SettingsPage.HandleInputChange | frontend/src/app/settings/page.tsx:136-141 | the named field takes the value; its error is blanked only when one is shown |
| SettingsPage.HandleInputChangeKeepsOthers | frontend/src/app/settings/page.tsx:137 | every other field keeps its value |
| SettingsPage.ChangeBack | frontend/src/app/settings/page.tsx:137 | changing a field and changing it back restores the form |
| SettingsPage.ProfileUpdate | frontend/src/app/settings/page.tsx:102-110 | the profile request carries the form's username, bio and preferences |
| SettingsPage.SubmitSettings | frontend/src/app/settings/page.tsx:94-134 | nothing is sent unless valid; the profile update first; the password change only after it succeeds and when a new password is typed; password fields cleared only when that succeeds; a sent change always has a current password, 6+ characters and a matching confirmation |

## Left out

- Persistence, `save()`, `populate` and the database queries are not modelled. A lookup
  is a nullable argument, and an id the database assigns is an input. A lookup that
  throws is modelled like one that finds nothing.
- Input validation by express-validator is not modelled: content lengths, ObjectId
  format and `voteType` values. The handlers are modelled from the point after those
  checks pass.
- The 500 responses of the routes' `catch` blocks are not modelled, with three
  exceptions. The first is the throwing anonymous-post filters, because they leave
  earlier writes in place. The second is the unique slug index, which makes
  `CreateQuestion` fail before anything is written; the slugs already stored are the
  input `slugs`. The third is a title of only whitespace, which passes the route's
  untrimmed length check but is trimmed to nothing by the schema setter, so the
  schema's `required` makes `CreateQuestion` and `EditQuestion` fail before anything
  is written.
- jwt signing and verification, bcrypt password hashing, and `comparePassword` are left
  out. Token verification and the user lookup are inputs to the middlewares.
- Clocks are inputs (`now`, and `today` in `CreateAnswer`). Nothing assumes they are
  monotone, except where a contract says so.
- Images, attachments, code blocks, featured flags, view tracking on GET
  `/api/questions/:id`, and `expiresAt` are not modelled.
- The listing's tag filter, text search, MongoDB sorting, trending, the best-answer
  query and `getByUser` are not modelled. Only the pagination arithmetic and the choice
  of sort key are modelled.
- The admin, analytics and users routes, and the React rendering and navigation, are
  not modelled.
- Text.ToLower: only ASCII letters are lower-cased. JavaScript's Unicode case mapping is
  not modelled.
- Lengths are counted in Unicode code points. JavaScript counts UTF-16 code units, so
  the two differ on characters outside the Basic Multilingual Plane.
- Vote entries are modelled as voter ids. The `{user}` sub-documents and their
  timestamps are not modelled.
- UserModel.User.CheckAchievements: the five conditional pushes are modelled as one
  append of the rule function's result, which `EarnedIff` and `QualifyingMembers`
  characterise.
- QuestionModel.SlugShape and the other Slug and Trim properties are stated as lemmas
  rather than as `ensures` on the functions.
- AskPage.AddTag and the other React state setters are modelled as functions from one
  page state to the next. The batching of `setState` calls is not modelled.
- SettingsPage.HandleInputChange is modelled only for a field paired with a value of its
  own kind, text or flag, as every input of the page passes it.
- SettingsPage.SubmitSettings: the toast's error message and the loading flag are not
  modelled. The outcome of each awaited request (whether it throws) is an input.
- The ask page's `handleSubmit`, `handleInputChange` and fetching of suggestions are not
  modelled.
- NotificationService: a helper's lookup of a user's name is a `names` map. A user who is
  not found makes the helper store nothing, because the real helper throws and its
  `catch` swallows the error.
- NotificationModel.ForUser: the population of referenced documents is not modelled.
  Passing 0 as `limit` means no limit, as in MongoDB; a negative limit is not modelled.
  MongoDB leaves records with equal `createdAt` in no particular order; the model's
  insertion sort picks one such order.

## Findings

| source | as written | input that shows it | evidently intended | confidence | as-written member | corrected member |
|---|---|---|---|---|---|---|
| backend/models/Question.js:151-159 | under ASCII lower-casing (see Left out: Text.ToLower), a title without ASCII letters or digits is given the empty string as its slug, which the sparse unique index of lines 128-132 still indexes, so a second such question fails to save and `POST /api/questions` answers 500 | the titles "!!!!!!!!!! ?" and then "?????????? !", both within the 10 to 200 characters the route accepts | leave `slug` unset when it would be empty, so that the sparse index skips it | not executed; high | QuestionRoutes.LetterlessCounterexample | QuestionModel.SparseSlugCollisions |

