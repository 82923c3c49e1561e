/**
 * The question document: its vote lists, answer list, acceptance, comments,
 * view counter, the slug generated when the title is saved, and the public
 * view that hides the author of an anonymous question.
 */
module QuestionModel {
  import opened Common
  import opened Text
  import opened Votes

  /** The `status` enumeration. */
  datatype Status = Open | Answered | Closed | Duplicate | OffTopic

  /** The characters a slug keeps as they are. */
  predicate IsSlugChar(c: char)
  {
    ('a' <= c <= 'z') || ('0' <= c <= '9')
  }

  /** The characters of `s` that are in `[a-z0-9]`, in order. */
  function SlugChars(s: string): (r: string)
    ensures |r| <= |s|
    ensures forall i :: 0 <= i < |r| ==> IsSlugChar(r[i])
  {
    if s == [] then []
    else (if IsSlugChar(s[0]) then [s[0]] else []) + SlugChars(s[1..])
  }

  /** Dropping a leading run of characters outside `[a-z0-9]`. */
  function DropSeparators(s: string): (r: string)
    ensures |r| <= |s|
  {
    if s != [] && !IsSlugChar(s[0]) then DropSeparators(s[1..]) else s
  }

  /** What is dropped lies outside `[a-z0-9]`; what is kept is a suffix that
      starts with a letter or digit and holds all of them. */
  lemma {:induction false} DropSeparatorsShape(s: string)
    ensures var r := DropSeparators(s);
      && r == s[|s| - |r|..]
      && (forall k :: 0 <= k < |s| - |r| ==> !IsSlugChar(s[k]))
      && (r != [] ==> IsSlugChar(r[0]))
      && SlugChars(r) == SlugChars(s)
  {
    if s != [] && !IsSlugChar(s[0]) {
      DropSeparatorsShape(s[1..]);
    }
  }

  /** `replace(/[^a-z0-9]+/g, '-')`: every maximal run of characters outside
      `[a-z0-9]` becomes a single '-'. */
  function CollapseSeparators(s: string): (r: string)
    ensures r == [] <==> s == []
    decreases |s|
  {
    if s == [] then []
    else if IsSlugChar(s[0]) then [s[0]] + CollapseSeparators(s[1..])
    else "-" + CollapseSeparators(DropSeparators(s[1..]))
  }

  /** The collapse holds only letters, digits and dashes, begins with '-'
      exactly when the input begins with a separator, and never holds two
      dashes in a row. */
  lemma {:induction false} CollapseShape(s: string)
    ensures var r := CollapseSeparators(s);
      && Collapsed(r)
      && (r != [] ==> (r[0] == '-' <==> !IsSlugChar(s[0])))
    decreases |s|
  {
    if s != [] {
      var r := CollapseSeparators(s);
      if IsSlugChar(s[0]) {
        var rest := CollapseSeparators(s[1..]);
        CollapseShape(s[1..]);
        assert r == [s[0]] + rest;
        forall i | 0 < i < |r| ensures r[i] == rest[i - 1] { }
      } else {
        var tail := DropSeparators(s[1..]);
        var rest := CollapseSeparators(tail);
        DropSeparatorsShape(s[1..]);
        CollapseShape(tail);
        assert r == "-" + rest;
        forall i | 0 < i < |r| ensures r[i] == rest[i - 1] { }
      }
    }
  }

  /** The collapse ends with '-' exactly when the input ends with a separator. */
  lemma {:induction false} CollapseLast(s: string)
    requires s != []
    ensures var r := CollapseSeparators(s);
      r[|r| - 1] == '-' <==> !IsSlugChar(s[|s| - 1])
    decreases |s|
  {
    var r := CollapseSeparators(s);
    var last := s[|s| - 1];
    if IsSlugChar(s[0]) {
      var rest := CollapseSeparators(s[1..]);
      assert r == [s[0]] + rest;
      if |s| > 1 {
        CollapseLast(s[1..]);
        assert r[|r| - 1] == rest[|rest| - 1];
        assert s[1..][|s| - 2] == last;
      }
    } else {
      var tail := DropSeparators(s[1..]);
      var rest := CollapseSeparators(tail);
      assert r == "-" + rest;
      DropSeparatorsShape(s[1..]);
      if tail != [] {
        CollapseLast(tail);
        assert r[|r| - 1] == rest[|rest| - 1];
        assert tail[|tail| - 1] == last;
      } else if |s| > 1 {
        assert s[1..][|s| - 2] == last;
      }
    }
  }

  /** The collapse keeps the letters and digits, in order. */
  lemma {:induction false} CollapseKeepsSlugChars(s: string)
    ensures SlugChars(CollapseSeparators(s)) == SlugChars(s)
    decreases |s|
  {
    if s != [] {
      var r := CollapseSeparators(s);
      if IsSlugChar(s[0]) {
        CollapseKeepsSlugChars(s[1..]);
        assert r[1..] == CollapseSeparators(s[1..]);
      } else {
        var tail := DropSeparators(s[1..]);
        DropSeparatorsShape(s[1..]);
        CollapseKeepsSlugChars(tail);
        assert r[1..] == CollapseSeparators(tail);
      }
    }
  }

  /** The shape the collapse leaves: only `[a-z0-9-]`, and never "--". */
  ghost predicate Collapsed(t: string)
  {
    && (forall i :: 0 <= i < |t| ==> IsSlugChar(t[i]) || t[i] == '-')
    && (forall i, j :: 0 <= i && j == i + 1 && j < |t| && t[i] == '-' ==> t[j] != '-')
  }

  /** The `^-` alternative of `replace(/(^-|-$)/g, '')`. */
  function DropLeadingDash(t: string): string
  {
    if t != [] && t[0] == '-' then t[1..] else t
  }

  /** The `-$` alternative of `replace(/(^-|-$)/g, '')`. */
  function DropTrailingDash(t: string): string
  {
    if t != [] && t[|t| - 1] == '-' then t[..|t| - 1] else t
  }

  /** `replace(/(^-|-$)/g, '')`: one dash at the start and one at the end are removed. */
  function StripDashes(t: string): string
  {
    DropTrailingDash(DropLeadingDash(t))
  }

  /** The slug generated from a title: lower-cased, each run of other
      characters replaced by one '-', and a leading or trailing '-' removed. */
  function Slug(title: string): string
  {
    StripDashes(CollapseSeparators(ToLower(title)))
  }

  /** A slug holds only `[a-z0-9-]`, neither starts nor ends with '-', never
      holds "--", and its letters and digits are exactly those of the
      lower-cased title; it is empty exactly when the title has none. */
  lemma SlugShape(title: string)
    ensures var r := Slug(title);
      && Collapsed(r)
      && (r != [] ==> r[0] != '-' && r[|r| - 1] != '-')
      && SlugChars(r) == SlugChars(ToLower(title))
      && (r == [] <==> SlugChars(ToLower(title)) == [])
  {
    var lowered := ToLower(title);
    var t := CollapseSeparators(lowered);
    CollapseKeepsSlugChars(lowered);
    CollapseShape(lowered);
    var front := DropLeadingDash(t);
    LeadingDashDropped(t);
    TrailingDashDropped(front);
    var r := DropTrailingDash(front);
    if r != [] {
      SlugCharsHead(r);
    }
  }

  /** Dropping a leading dash keeps the collapsed shape and the letters and
      digits, and leaves no dash in front. */
  lemma LeadingDashDropped(t: string)
    requires Collapsed(t)
    ensures var r := DropLeadingDash(t);
      && Collapsed(r)
      && SlugChars(r) == SlugChars(t)
      && (r != [] ==> r[0] != '-')
  {
    if t != [] && t[0] == '-' {
      var r := t[1..];
      assert t == "-" + r;
      SlugCharsDash(r);
      SliceKeepsShape(t, 1, |t|);
      if r != [] {
        assert t[0] == '-' && t[1] == r[0];
      }
    }
  }

  /** Dropping a trailing dash keeps the collapsed shape, the letters and
      digits and a clean front, and leaves no dash at the end. */
  lemma TrailingDashDropped(t: string)
    requires Collapsed(t) && (t != [] ==> t[0] != '-')
    ensures var r := DropTrailingDash(t);
      && Collapsed(r)
      && SlugChars(r) == SlugChars(t)
      && (r != [] ==> r[0] != '-' && r[|r| - 1] != '-')
  {
    if t != [] && t[|t| - 1] == '-' {
      var r := t[..|t| - 1];
      assert t == r + "-";
      SlugCharsConcat(r, "-");
      assert SlugChars("-") == [] by { assert "-"[1..] == []; }
      SliceKeepsShape(t, 0, |t| - 1);
      if r != [] {
        assert t[|t| - 2] == r[|r| - 1] && t[|t| - 1] == '-';
        assert r[0] == t[0];
      }
    }
  }

  /** A slice of a collapsed string is collapsed. */
  lemma SliceKeepsShape(t: string, lo: nat, hi: nat)
    requires lo <= hi <= |t| && Collapsed(t)
    ensures Collapsed(t[lo..hi])
  {
    var r := t[lo..hi];
    forall i, j | 0 <= i && j == i + 1 && j < |r| && r[i] == '-' ensures r[j] != '-' {
      assert r[i] == t[lo + i] && r[j] == t[lo + j];
    }
  }

  lemma SlugCharsDash(s: string)
    ensures SlugChars("-" + s) == SlugChars(s)
  {
    assert ("-" + s)[1..] == s;
  }

  /** A string starting with a letter or digit keeps it. */
  lemma SlugCharsHead(s: string)
    requires s != [] && IsSlugChar(s[0])
    ensures SlugChars(s) != []
  {
  }

  /** Filtering works piecewise. */
  lemma {:induction false} SlugCharsConcat(a: string, b: string)
    ensures SlugChars(a + b) == SlugChars(a) + SlugChars(b)
  {
    if a == [] {
      assert a + b == b;
    } else {
      assert (a + b)[1..] == a[1..] + b;
      SlugCharsConcat(a[1..], b);
    }
  }

  /** A title without any ASCII letter or digit, in either case. */
  predicate Letterless(t: string)
  {
    forall i :: 0 <= i < |t| ==> !IsSlugChar(LowerChar(t[i]))
  }

  /** A letterless string keeps no slug character once lower-cased. */
  lemma {:induction false} LetterlessNoSlugChars(s: string)
    requires Letterless(s)
    ensures SlugChars(ToLower(s)) == []
  {
    if s != [] {
      var l := ToLower(s);
      assert l[0] == LowerChar(s[0]) && l[1..] == ToLower(s[1..]);
      assert Letterless(s[1..]) by {
        forall i | 0 <= i < |s[1..]| ensures !IsSlugChar(LowerChar(s[1..][i])) {
          assert s[1..][i] == s[i + 1];
        }
      }
      LetterlessNoSlugChars(s[1..]);
    }
  }

  /** A letterless title, once trimmed, yields the empty slug. */
  lemma LetterlessSlug(t: string)
    requires Letterless(t)
    ensures Slug(Trim(t)) == []
  {
    var front := TrimStart(t);
    TrimStartShape(t);
    TrimEndShape(front);
    var r := Trim(t);
    forall i | 0 <= i < |r| ensures !IsSlugChar(LowerChar(r[i])) {
      assert r[i] == front[i] == t[|t| - |front| + i];
    }
    LetterlessNoSlugChars(r);
    SlugShape(r);
  }

  /** The slug field as the save hook evidently intends it next to a sparse
      unique index: left unset when the title yields no slug, so that only
      real slugs are indexed. */
  function SparseSlug(title: string): (r: Option<string>)
    ensures r.None? <==> Slug(title) == []
    ensures r.Some? ==> r.value == Slug(title) && r.value != []
  {
    var s := Slug(title);
    if s == [] then None else Some(s)
  }

  /** With the sparse slug, a letterless title is never indexed, and two
      indexed titles collide only when they share the same non-empty run of
      letters and digits. */
  lemma SparseSlugCollisions(t1: string, t2: string)
    ensures Letterless(t1) ==> SparseSlug(Trim(t1)).None?
    ensures SparseSlug(t1).Some? && SparseSlug(t1) == SparseSlug(t2) ==>
      SlugChars(ToLower(t1)) == SlugChars(ToLower(t2)) != []
  {
    if Letterless(t1) {
      LetterlessSlug(t1);
    }
    SlugShape(t1);
    SlugShape(t2);
  }

  /** A tag lower-cased and trimmed: the `lowercase` and `trim` setters of the
      schema's tags (whose order does not matter, by `TrimToLowerCommute`), and
      also the route handlers' `tag.toLowerCase().trim()`. */
  function NormalizeTag(t: string): string
  {
    Trim(ToLower(t))
  }

  /** Every tag normalised, in order. */
  function NormalizeTags(tags: seq<string>): (r: seq<string>)
    ensures |r| == |tags|
  {
    if tags == [] then [] else [NormalizeTag(tags[0])] + NormalizeTags(tags[1..])
  }

  /** Normalising a normalised tag changes nothing. */
  lemma NormalizeTagIdempotent(t: string)
    ensures NormalizeTag(NormalizeTag(t)) == NormalizeTag(t)
  {
    var l := ToLower(t);
    TrimToLowerCommute(l);
    ToLowerIdempotent(t);
    TrimIdempotent(l);
  }

  /** Normalising normalised tags changes nothing, so the route's own
      normalisation and the schema's setters together store the same tags
      as either alone. */
  lemma {:induction false} NormalizeTagsIdempotent(tags: seq<string>)
    ensures NormalizeTags(NormalizeTags(tags)) == NormalizeTags(tags)
  {
    if tags != [] {
      var r := NormalizeTags(tags);
      NormalizeTagIdempotent(tags[0]);
      NormalizeTagsIdempotent(tags[1..]);
      assert r[0] == NormalizeTag(tags[0]) && r[1..] == NormalizeTags(tags[1..]);
    }
  }

  /** The public representation of a question. */
  datatype QuestionView = QuestionView(
    id: QuestionId, title: string, content: string, author: Option<UserId>,
    isAnonymous: bool, tags: seq<string>, category: string, status: Status,
    priority: Priority, votes: int, voteCount: int, answerCount: nat, views: int,
    acceptedAnswer: Option<AnswerId>, comments: seq<Comment>, slug: Option<string>,
    lastActivity: Time)

  /** A question document. */
  class Question {
    const id: QuestionId
    const author: UserId
    const isAnonymous: bool
    var title: string
    var content: string
    var category: string
    var tags: seq<string>
    var status: Status
    var priority: Priority
    var upvotes: seq<UserId>
    var downvotes: seq<UserId>
    var views: int
    var answers: seq<AnswerId>
    var acceptedAnswer: Option<AnswerId>
    var comments: seq<Comment>
    var slug: Option<string>
    var lastActivity: Time

    /** The vote lists are well formed: nobody votes twice or both ways. */
    ghost predicate Valid()
      reads this`upvotes, this`downvotes
    {
      WellFormed(Ballots(upvotes, downvotes))
    }

    /** `new Question({...})`: the schema defaults, with the title trimmed by
        its `trim` setter and every tag lower-cased and trimmed by theirs.
        The slug is set by the first save. */
    constructor (id: QuestionId, author: UserId, isAnonymous: bool, title: string, content: string,
                 category: string, tags: seq<string>, priority: Priority, now: Time)
      ensures this.id == id && this.author == author && this.isAnonymous == isAnonymous
      ensures this.title == Trim(title) && this.content == content && this.category == category
      ensures this.tags == NormalizeTags(tags) && this.priority == priority && status == Open
      ensures upvotes == [] && downvotes == [] && views == 0 && answers == []
      ensures acceptedAnswer == None && comments == [] && slug == None && lastActivity == now
      ensures Valid()
    {
      this.id := id;
      this.author := author;
      this.isAnonymous := isAnonymous;
      this.title := Trim(title);
      this.content := content;
      this.category := category;
      this.tags := NormalizeTags(tags);
      this.priority := priority;
      status := Open;
      upvotes := [];
      downvotes := [];
      views := 0;
      answers := [];
      acceptedAnswer := None;
      comments := [];
      slug := None;
      lastActivity := now;
    }

    /** The pre-save hook: regenerate the slug when the title was modified. */
    method PreSave(titleModified: bool)
      modifies this`slug
      ensures slug == if titleModified then Some(Slug(title)) else old(slug)
    {
      if titleModified {
        slug := Some(Slug(title));
      }
    }

    /** The `voteCount` virtual. */
    function VoteCount(): (n: int)
      reads this
      ensures n == Votes.VoteCount(Ballots(upvotes, downvotes))
    {
      |upvotes| - |downvotes|
    }

    /** `addView`: one more view, and the activity time moves to now. */
    method AddView(now: Time)
      modifies this`views, this`lastActivity
      ensures views == old(views) + 1 && lastActivity == now
    {
      views := views + 1;
      lastActivity := now;
    }

    /** `toggleVote`: the add / retract / flip toggle on the two vote lists,
        which keeps them well formed (`Votes.ToggleWellFormed`). */
    method ToggleVote(u: UserId, t: VoteType)
      modifies this`upvotes, this`downvotes
      ensures Ballots(upvotes, downvotes) == Toggle(old(Ballots(upvotes, downvotes)), u, t)
      ensures old(Valid()) ==> Valid()
    {
      ghost var before := Ballots(upvotes, downvotes);
      SpliceVote(u, t);
      if WellFormed(before) {
        ToggleWellFormed(before, u, t);
      }
    }

    /** The splices and pushes of `toggleVote`, on the lists in place. */
    method SpliceVote(u: UserId, t: VoteType)
      modifies this`upvotes, this`downvotes
      ensures Ballots(upvotes, downvotes) == Toggle(old(Ballots(upvotes, downvotes)), u, t)
    {
      var upIndex := FindIndex(upvotes, u);
      var downIndex := FindIndex(downvotes, u);
      if t == Upvote {
        if upIndex > -1 {
          upvotes := RemoveAt(upvotes, upIndex);
        } else {
          if downIndex > -1 {
            downvotes := RemoveAt(downvotes, downIndex);
          }
          upvotes := upvotes + [u];
        }
      } else {
        if downIndex > -1 {
          downvotes := RemoveAt(downvotes, downIndex);
        } else {
          if upIndex > -1 {
            upvotes := RemoveAt(upvotes, upIndex);
          }
          downvotes := downvotes + [u];
        }
      }
    }

    /** `acceptAnswer`: record the answer and mark the question answered,
        whatever its status was. */
    method AcceptAnswer(a: AnswerId, now: Time)
      modifies this`acceptedAnswer, this`status, this`lastActivity
      ensures acceptedAnswer == Some(a) && status == Answered && lastActivity == now
    {
      acceptedAnswer := Some(a);
      status := Answered;
      lastActivity := now;
    }

    /** `addComment`: append one comment by `u`; `cid` is the id the database
        assigns to the new sub-document. */
    method AddComment(cid: CommentId, u: UserId, text: string, now: Time)
      modifies this`comments, this`lastActivity
      ensures comments == old(comments) + [Comment(cid, u, text, now)]
      ensures lastActivity == now
    {
      comments := comments + [Comment(cid, u, text, now)];
      lastActivity := now;
    }

    /** `removeComment`: keep exactly the comments whose id differs, in order. */
    method RemoveComment(cid: CommentId, now: Time)
      modifies this`comments, this`lastActivity
      ensures comments == WithoutComment(old(comments), cid)
      ensures lastActivity == now
    {
      comments := WithoutComment(comments, cid);
      lastActivity := now;
    }

    /** `addAnswer`: a new id is appended once, and an open question becomes
        answered; an id already listed changes nothing. */
    method AddAnswer(a: AnswerId, now: Time)
      modifies this`answers, this`lastActivity, this`status
      ensures a in old(answers) ==>
        answers == old(answers) && status == old(status) && lastActivity == old(lastActivity)
      ensures a !in old(answers) ==>
        && answers == old(answers) + [a]
        && lastActivity == now
        && status == (if old(status) == Open then Answered else old(status))
      ensures NoDuplicates(old(answers)) ==> NoDuplicates(answers)
    {
      if a !in answers {
        answers := answers + [a];
        lastActivity := now;
        if status == Open {
          status := Answered;
        }
      }
    }

    /** `getPublicData`: the author is withheld exactly when the question is
        anonymous; both vote fields carry the vote count. */
    function PublicData(): (v: QuestionView)
      reads this
      ensures v.author == None <==> isAnonymous
      ensures v.author != None ==> v.author.value == author
      ensures v.votes == v.voteCount == |upvotes| - |downvotes|
      ensures v.answerCount == |answers| && v.id == id
    {
      QuestionView(id, title, content, if isAnonymous then None else Some(author), isAnonymous,
                   tags, category, status, priority, VoteCount(), VoteCount(), |answers|, views,
                   acceptedAnswer, comments, slug, lastActivity)
    }
  }
}
