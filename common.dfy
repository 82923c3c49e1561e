/**
 * Identifiers, optional values and enumerations shared by the backend models,
 * the route handlers and the notification service.
 */
module Common {

  /** A value that may be absent (a Mongoose path holding `null` or `undefined`). */
  datatype Option<+T> = None | Some(value: T)

  /** Document ids (Mongo ObjectIds); only equality matters. */
  type UserId = nat
  type QuestionId = nat
  type AnswerId = nat
  type CommentId = nat

  /** A `new Date()` reading, in milliseconds since the epoch. */
  type Time = int

  /** The `role` enumeration of a user account. */
  datatype Role = UserRole | Moderator | Admin

  /** The `priority` enumeration shared by questions and notifications. */
  datatype Priority = Low | Medium | High | Urgent

  /** `findIndex` / `indexOf`: the first position holding `u`, or -1. */
  function FindIndex<T(==)>(s: seq<T>, u: T): (r: int)
    ensures -1 <= r < |s|
    ensures r == -1 <==> u !in s
    ensures r >= 0 ==> s[r] == u && u !in s[..r]
  {
    if s == [] then -1
    else if s[0] == u then 0
    else
      var k := FindIndex(s[1..], u);
      if k == -1 then -1
      else
        assert s[..k + 1] == [s[0]] + s[1..][..k];
        k + 1
  }

  /** No element occurs twice. */
  predicate NoDuplicates<T(==)>(s: seq<T>)
  {
    forall i, j :: 0 <= i < j < |s| ==> s[i] != s[j]
  }

  /** `filter(x => x !== v)`: every entry equal to `v` is dropped, the others
      are kept. */
  function Without<T(==,!new)>(s: seq<T>, v: T): (r: seq<T>)
    ensures |r| <= |s|
    ensures forall x :: x in r <==> x in s && x != v
    ensures v !in s ==> r == s
  {
    if s == [] then []
    else (if s[0] == v then [] else [s[0]]) + Without(s[1..], v)
  }

  /** The filter works piecewise, so what survives keeps its order. */
  lemma {:induction false} WithoutConcat<T(!new)>(a: seq<T>, b: seq<T>, v: T)
    ensures Without(a + b, v) == Without(a, v) + Without(b, v)
  {
    if a != [] {
      var ab := a + b;
      assert ab[0] == a[0] && ab[1..] == a[1..] + b;
      WithoutConcat(a[1..], b, v);
      var head := if a[0] == v then [] else [a[0]];
      var left, right := Without(a[1..], v), Without(b, v);
      assert Without(ab, v) == head + (left + right);
      assert head + (left + right) == (head + left) + right;
    } else {
      assert a + b == b;
    }
  }

  /** Filtering a list without duplicates leaves one without duplicates. */
  lemma {:induction false} WithoutKeepsDistinct<T(!new)>(s: seq<T>, v: T)
    requires NoDuplicates(s)
    ensures NoDuplicates(Without(s, v))
  {
    if s != [] {
      WithoutKeepsDistinct(s[1..], v);
      assert s[0] !in s[1..];
    }
  }

  /** Filtering out an entry just appended to a list that did not hold it
      restores the list. */
  lemma AppendThenWithout<T(!new)>(s: seq<T>, v: T)
    requires v !in s
    ensures Without(s + [v], v) == s
  {
    WithoutConcat(s, [v], v);
    assert Without([v], v) == [];
  }

  /** No element has a larger key than one before it. */
  predicate Descending<T>(s: seq<T>, key: T -> int)
  {
    forall i, j :: 0 <= i < j < |s| ==> key(s[i]) >= key(s[j])
  }

  /** Places `x` in a descending list, before the first element with a smaller key. */
  function InsertDescending<T>(x: T, s: seq<T>, key: T -> int): (r: seq<T>)
    ensures |r| == |s| + 1
    ensures multiset(r) == multiset(s) + multiset{x}
  {
    if s == [] || key(x) >= key(s[0]) then [x] + s
    else
      assert s == [s[0]] + s[1..];
      [s[0]] + InsertDescending(x, s[1..], key)
  }

  /** Inserting below a bound into elements below it stays below it. */
  lemma {:induction false} InsertBelow<T>(x: T, s: seq<T>, key: T -> int, bound: int)
    requires key(x) <= bound
    requires forall k :: 0 <= k < |s| ==> key(s[k]) <= bound
    ensures forall k :: 0 <= k < |InsertDescending(x, s, key)| ==> key(InsertDescending(x, s, key)[k]) <= bound
  {
    if s != [] && key(x) < key(s[0]) {
      InsertBelow(x, s[1..], key, bound);
      var tail := InsertDescending(x, s[1..], key);
      var r := [s[0]] + tail;
      assert r == InsertDescending(x, s, key);
      forall k | 0 <= k < |r| ensures key(r[k]) <= bound {
        if k > 0 {
          assert r[k] == tail[k - 1];
        }
      }
    }
  }

  /** A descending list stays descending behind an element no smaller than any of it. */
  lemma ConsDescending<T>(h: T, t: seq<T>, key: T -> int)
    requires Descending(t, key)
    requires forall k :: 0 <= k < |t| ==> key(t[k]) <= key(h)
    ensures Descending([h] + t, key)
  {
    var r := [h] + t;
    forall i, j | 0 <= i < j < |r| ensures key(r[i]) >= key(r[j]) {
      assert r[j] == t[j - 1];
      if i > 0 {
        assert r[i] == t[i - 1];
      }
    }
  }

  /** Inserting keeps a list descending. */
  lemma {:induction false} InsertKeepsDescending<T>(x: T, s: seq<T>, key: T -> int)
    requires Descending(s, key)
    ensures Descending(InsertDescending(x, s, key), key)
  {
    if s == [] || key(x) >= key(s[0]) {
      ConsDescending(x, s, key);
    } else {
      assert Descending(s[1..], key);
      InsertKeepsDescending(x, s[1..], key);
      InsertBelow(x, s[1..], key, key(s[0]));
      ConsDescending(s[0], InsertDescending(x, s[1..], key), key);
    }
  }

  /** A query's `sort({ field: -1 })`: the same elements, largest key first. */
  function SortDescending<T>(s: seq<T>, key: T -> int): (r: seq<T>)
    ensures |r| == |s|
    ensures multiset(r) == multiset(s)
  {
    if s == [] then []
    else
      assert s == [s[0]] + s[1..];
      InsertDescending(s[0], SortDescending(s[1..], key), key)
  }

  /** The sort leaves the elements in descending key order. */
  lemma {:induction false} SortIsDescending<T>(s: seq<T>, key: T -> int)
    ensures Descending(SortDescending(s, key), key)
  {
    if s != [] {
      SortIsDescending(s[1..], key);
      InsertKeepsDescending(s[0], SortDescending(s[1..], key), key);
    }
  }
}
