/**
 * The vote lists and comment lists that questions and answers share.
 *
 * Question and Answer each carry an `upvotes` and a `downvotes` list of voter
 * ids and a `toggleVote` method whose code is the same in both models; this
 * module states once what that toggle does to the pair of lists, and what the
 * comment filter of `removeComment` does to a comment list.
 */
module Votes {
  import opened Common

  /** The `voteType` of a vote request. */
  datatype VoteType = Upvote | Downvote

  /** The two vote lists of one question or answer. */
  datatype Ballots = Ballots(up: seq<UserId>, down: seq<UserId>)

  /** The object invariant of the vote lists: nobody is listed twice, and
      nobody is both an upvoter and a downvoter. */
  predicate WellFormed(b: Ballots)
  {
    && NoDuplicates(b.up)
    && NoDuplicates(b.down)
    && forall u :: u in b.up ==> u !in b.down
  }

  /** The `voteCount` virtual. */
  function VoteCount(b: Ballots): int
  {
    |b.up| - |b.down|
  }

  /** `splice(i, 1)`: the list without its entry at position `i`. */
  function RemoveAt(s: seq<UserId>, i: nat): (r: seq<UserId>)
    requires i < |s|
    ensures |r| == |s| - 1
    ensures forall x :: x in r ==> x in s
  {
    s[..i] + s[i + 1..]
  }

  /** The three-way toggle of `toggleVote`: retract a vote of the requested
      kind, otherwise drop an opposite vote (if any) and append the new one. */
  function Toggle(b: Ballots, u: UserId, t: VoteType): Ballots
  {
    var upIndex := FindIndex(b.up, u);
    var downIndex := FindIndex(b.down, u);
    match t
    case Upvote =>
      if upIndex > -1 then Ballots(RemoveAt(b.up, upIndex), b.down)
      else
        var down := if downIndex > -1 then RemoveAt(b.down, downIndex) else b.down;
        Ballots(b.up + [u], down)
    case Downvote =>
      if downIndex > -1 then Ballots(b.up, RemoveAt(b.down, downIndex))
      else
        var up := if upIndex > -1 then RemoveAt(b.up, upIndex) else b.up;
        Ballots(up, b.down + [u])
  }

  /** Removing the only occurrence of `u` from a list without duplicates
      removes exactly `u` and keeps the list free of duplicates. */
  lemma {:induction false} RemoveOnly(s: seq<UserId>, u: UserId)
    requires NoDuplicates(s) && u in s
    ensures var r := RemoveAt(s, FindIndex(s, u));
      && NoDuplicates(r)
      && u !in r
      && forall x :: x != u ==> (x in r <==> x in s)
  {
    var i := FindIndex(s, u);
    var r := RemoveAt(s, i);
    forall x | x != u && x in s ensures x in r {
      var j :| 0 <= j < |s| && s[j] == x;
      if j < i { assert r[j] == x; } else { assert r[j - 1] == x; }
    }
    forall p, q | 0 <= p < q < |r| ensures r[p] != r[q] {
      var p' := if p < i then p else p + 1;
      var q' := if q < i then q else q + 1;
      assert r[p] == s[p'] && r[q] == s[q'];
    }
  }

  /** Appending a voter who is not listed keeps the list free of duplicates. */
  lemma AppendFresh(s: seq<UserId>, u: UserId)
    requires NoDuplicates(s) && u !in s
    ensures NoDuplicates(s + [u])
  {
  }

  /** Toggling keeps the vote lists well formed: in particular a voter is never
      both an upvoter and a downvoter. */
  lemma {:induction false} ToggleWellFormed(b: Ballots, u: UserId, t: VoteType)
    requires WellFormed(b)
    ensures WellFormed(Toggle(b, u, t))
  {
    if u in b.up { RemoveOnly(b.up, u); } else { AppendFresh(b.up, u); }
    if u in b.down { RemoveOnly(b.down, u); } else { AppendFresh(b.down, u); }
  }

  /** What a toggle does to the voter's own membership and to everyone else's:
      a vote of the requested kind is retracted; otherwise the voter ends up in
      the requested list only, appended at its end. Other voters keep their place
      in both lists. */
  lemma {:induction false} ToggleEffect(b: Ballots, u: UserId, t: VoteType)
    requires WellFormed(b)
    ensures var r := Toggle(b, u, t);
      var (mine, theirs) := if t == Upvote then (b.up, b.down) else (b.down, b.up);
      var (mine', theirs') := if t == Upvote then (r.up, r.down) else (r.down, r.up);
      && (u in mine ==> u !in mine' && u !in theirs' && theirs' == theirs)
      && (u !in mine ==> mine' == mine + [u] && u !in theirs')
      && (forall x :: x != u ==> (x in r.up <==> x in b.up) && (x in r.down <==> x in b.down))
  {
    if u in b.up { RemoveOnly(b.up, u); }
    if u in b.down { RemoveOnly(b.down, u); }
  }

  /** How `voteCount` moves: a retraction undoes one vote, a fresh vote counts
      one, and a flip from the opposite kind moves the count by two. */
  lemma {:induction false} ToggleVoteCount(b: Ballots, u: UserId, t: VoteType)
    requires WellFormed(b)
    ensures var sign := if t == Upvote then 1 else -1;
      var (mine, theirs) := if t == Upvote then (b.up, b.down) else (b.down, b.up);
      VoteCount(Toggle(b, u, t)) - VoteCount(b)
        == if u in mine then -sign
           else if u in theirs then 2 * sign
           else sign
  {
  }

  /** A fresh vote followed by the same vote again restores both lists exactly. */
  lemma {:induction false} ToggleTwiceRestores(b: Ballots, u: UserId, t: VoteType)
    requires u !in b.up && u !in b.down
    ensures Toggle(Toggle(b, u, t), u, t) == b
  {
    var r := Toggle(b, u, t);
    if t == Upvote {
      assert FindIndex(r.up, u) == |b.up|;
      assert r.up[..|b.up|] == b.up;
    } else {
      assert FindIndex(r.down, u) == |b.down|;
      assert r.down[..|b.down|] == b.down;
    }
  }

  /** Voting the same kind twice in a row, when the first vote added or flipped,
      leaves the voter in neither list. */
  lemma {:induction false} ToggleTwiceRetracts(b: Ballots, u: UserId, t: VoteType)
    requires WellFormed(b)
    requires if t == Upvote then u !in b.up else u !in b.down
    ensures var r := Toggle(Toggle(b, u, t), u, t);
      u !in r.up && u !in r.down
  {
    ToggleEffect(b, u, t);
    ToggleWellFormed(b, u, t);
    ToggleEffect(Toggle(b, u, t), u, t);
  }

  /** One comment on a question or an answer. */
  datatype Comment = Comment(id: CommentId, author: UserId, content: string, createdAt: Time)

  /** The comment ids of a comment list. */
  function CommentIds(cs: seq<Comment>): set<CommentId>
  {
    set c | c in cs :: c.id
  }

  /** `comments.id(id)`: the position of the first comment with that id, or -1. */
  function CommentIndex(cs: seq<Comment>, id: CommentId): (i: int)
    ensures -1 <= i < |cs|
    ensures i == -1 <==> id !in CommentIds(cs)
    ensures i >= 0 ==> cs[i].id == id && forall j :: 0 <= j < i ==> cs[j].id != id
  {
    if cs == [] then -1
    else if cs[0].id == id then 0
    else
      var rest := CommentIndex(cs[1..], id);
      assert CommentIds(cs) == {cs[0].id} + CommentIds(cs[1..]);
      if rest == -1 then -1 else rest + 1
  }

  /** The `comments.filter(c => c._id !== id)` of `removeComment`. */
  function WithoutComment(cs: seq<Comment>, id: CommentId): (r: seq<Comment>)
    ensures |r| <= |cs|
  {
    if cs == [] then []
    else (if cs[0].id == id then [] else [cs[0]]) + WithoutComment(cs[1..], id)
  }

  /** Every comment whose id differs is kept and no comment with that id
      remains; when no comment has the id the list comes back unchanged. */
  lemma {:induction false} WithoutCommentMembers(cs: seq<Comment>, id: CommentId)
    ensures forall c :: c in WithoutComment(cs, id) <==> c in cs && c.id != id
    ensures id !in CommentIds(cs) ==> WithoutComment(cs, id) == cs
  {
    if cs != [] {
      WithoutCommentMembers(cs[1..], id);
      assert cs == [cs[0]] + cs[1..];
      assert CommentIds(cs) == {cs[0].id} + CommentIds(cs[1..]);
    }
  }

  /** The filter works piecewise, so the surviving comments keep their order. */
  lemma {:induction false} WithoutCommentConcat(a: seq<Comment>, b: seq<Comment>, id: CommentId)
    ensures WithoutComment(a + b, id) == WithoutComment(a, id) + WithoutComment(b, id)
  {
    if a != [] {
      var head := if a[0].id == id then [] else [a[0]];
      var left, right := WithoutComment(a[1..], id), WithoutComment(b, id);
      var ab := a + b;
      assert ab[0] == a[0] && ab[1..] == a[1..] + b;
      WithoutCommentConcat(a[1..], b, id);
      assert WithoutComment(ab, id) == head + (left + right);
      assert head + (left + right) == (head + left) + right;
    } else {
      assert a + b == b;
    }
  }

  /** Removing a comment just added, under an id not yet used, restores the list. */
  lemma AddThenRemoveComment(cs: seq<Comment>, c: Comment)
    requires c.id !in CommentIds(cs)
    ensures WithoutComment(cs + [c], c.id) == cs
  {
    WithoutCommentConcat(cs, [c], c.id);
    WithoutCommentMembers(cs, c.id);
    assert [c][1..] == [];
  }
}
