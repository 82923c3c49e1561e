/**
 * The answer document: its vote lists, acceptance flags and Confidence
 * Booster flag, comments, helpful and view counters, and the public view that
 * hides the author of an anonymous answer.
 */
module AnswerModel {
  import opened Common
  import opened Votes

  /** The public representation of an answer. */
  datatype AnswerView = AnswerView(
    id: AnswerId, content: string, author: Option<UserId>, isAnonymous: bool,
    question: QuestionId, votes: int, voteCount: int, commentCount: nat,
    isAccepted: bool, acceptedAt: Option<Time>, comments: seq<Comment>,
    views: int, helpfulCount: int, confidenceBoosterAwarded: bool)

  /** An answer document. */
  class Answer {
    const id: AnswerId
    const author: UserId
    const question: QuestionId
    const isAnonymous: bool
    var content: string
    var upvotes: seq<UserId>
    var downvotes: seq<UserId>
    var isAccepted: bool
    var acceptedAt: Option<Time>
    var acceptedBy: Option<UserId>
    var comments: seq<Comment>
    var views: int
    var helpfulCount: int
    var confidenceBoosterAwarded: bool

    /** The vote lists are well formed: nobody votes twice or both ways. */
    ghost predicate Valid()
      reads this`upvotes, this`downvotes
    {
      WellFormed(Ballots(upvotes, downvotes))
    }

    /** `new Answer({...})` with the schema defaults. */
    constructor (id: AnswerId, author: UserId, question: QuestionId, isAnonymous: bool, content: string)
      ensures this.id == id && this.author == author && this.question == question
      ensures this.isAnonymous == isAnonymous && this.content == content
      ensures upvotes == [] && downvotes == [] && comments == []
      ensures !isAccepted && acceptedAt == None && acceptedBy == None
      ensures views == 0 && helpfulCount == 0 && !confidenceBoosterAwarded
      ensures Valid()
    {
      this.id := id;
      this.author := author;
      this.question := question;
      this.isAnonymous := isAnonymous;
      this.content := content;
      upvotes := [];
      downvotes := [];
      isAccepted := false;
      acceptedAt := None;
      acceptedBy := None;
      comments := [];
      views := 0;
      helpfulCount := 0;
      confidenceBoosterAwarded := false;
    }

    /** The `voteCount` virtual. */
    function VoteCount(): (n: int)
      reads this
      ensures n == Votes.VoteCount(Ballots(upvotes, downvotes))
    {
      |upvotes| - |downvotes|
    }

    /** `toggleVote`: the same add / retract / flip toggle as on questions,
        which keeps the vote lists well formed. */
    method ToggleVote(u: UserId, t: VoteType)
      modifies this`upvotes, this`downvotes
      ensures Ballots(upvotes, downvotes) == Toggle(old(Ballots(upvotes, downvotes)), u, t)
      ensures old(Valid()) ==> Valid()
    {
      ghost var before := Ballots(upvotes, downvotes);
      SpliceVote(u, t);
      if WellFormed(before) {
        ToggleWellFormed(before, u, t);
      }
    }

    /** The splices and pushes of `toggleVote`, on the lists in place. */
    method SpliceVote(u: UserId, t: VoteType)
      modifies this`upvotes, this`downvotes
      ensures Ballots(upvotes, downvotes) == Toggle(old(Ballots(upvotes, downvotes)), u, t)
    {
      var upIndex := FindIndex(upvotes, u);
      var downIndex := FindIndex(downvotes, u);
      if t == Upvote {
        if upIndex > -1 {
          upvotes := RemoveAt(upvotes, upIndex);
        } else {
          if downIndex > -1 {
            downvotes := RemoveAt(downvotes, downIndex);
          }
          upvotes := upvotes + [u];
        }
      } else {
        if downIndex > -1 {
          downvotes := RemoveAt(downvotes, downIndex);
        } else {
          if upIndex > -1 {
            upvotes := RemoveAt(upvotes, upIndex);
          }
          downvotes := downvotes + [u];
        }
      }
    }

    /** `accept`: mark the answer accepted by `acceptor` at `now`; an anonymous answer
        gets the Confidence Booster flag, which is never cleared. */
    method Accept(acceptor: UserId, now: Time)
      modifies this`isAccepted, this`acceptedAt, this`acceptedBy, this`confidenceBoosterAwarded
      ensures isAccepted && acceptedAt == Some(now) && acceptedBy == Some(acceptor)
      ensures confidenceBoosterAwarded == (old(confidenceBoosterAwarded) || isAnonymous)
    {
      isAccepted := true;
      acceptedAt := Some(now);
      acceptedBy := Some(acceptor);
      if isAnonymous && !confidenceBoosterAwarded {
        confidenceBoosterAwarded := true;
      }
    }

    /** `unaccept`: clear the acceptance; the Confidence Booster flag stays. */
    method Unaccept()
      modifies this`isAccepted, this`acceptedAt, this`acceptedBy
      ensures !isAccepted && acceptedAt == None && acceptedBy == None
    {
      isAccepted := false;
      acceptedAt := None;
      acceptedBy := None;
    }

    /** `addComment`: append one comment; `cid` is the id the database assigns. */
    method AddComment(cid: CommentId, u: UserId, text: string, now: Time)
      modifies this`comments
      ensures comments == old(comments) + [Comment(cid, u, text, now)]
    {
      comments := comments + [Comment(cid, u, text, now)];
    }

    /** `removeComment`: keep exactly the comments whose id differs, in order. */
    method RemoveComment(cid: CommentId)
      modifies this`comments
      ensures comments == WithoutComment(old(comments), cid)
    {
      comments := WithoutComment(comments, cid);
    }

    /** `markHelpful`: one more helpful mark. */
    method MarkHelpful()
      modifies this`helpfulCount
      ensures helpfulCount == old(helpfulCount) + 1
    {
      helpfulCount := helpfulCount + 1;
    }

    /** `addView`: one more view. */
    method AddView()
      modifies this`views
      ensures views == old(views) + 1
    {
      views := views + 1;
    }

    /** `getPublicData`: the author is withheld exactly when the answer is
        anonymous; both vote fields carry the vote count. */
    function PublicData(): (v: AnswerView)
      reads this
      ensures v.author == None <==> isAnonymous
      ensures v.author != None ==> v.author.value == author
      ensures v.votes == v.voteCount == |upvotes| - |downvotes|
      ensures v.commentCount == |comments| && v.id == id && v.question == question
    {
      AnswerView(id, content, if isAnonymous then None else Some(author), isAnonymous, question,
                 VoteCount(), VoteCount(), |comments|, isAccepted, acceptedAt, comments,
                 views, helpfulCount, confidenceBoosterAwarded)
    }
  }
}
