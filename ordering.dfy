/** The chronological order of the index page: `list.sort` with a comparison of
    `pub_date`s (stable, ascending), optionally followed by `list.reverse`. */
module PostOrder {
  import opened Config
  import opened Posts

  /** The post carries a `pub_date` that is a date. */
  predicate Dated(p: Post) {
    "pub_date" in p.metadata && p.metadata["pub_date"].Date?
  }

  predicate AllDated(ps: seq<Post>) {
    forall i :: 0 <= i < |ps| ==> Dated(ps[i])
  }

  /** The timestamp of a dated post; the sort only looks at it when every post is dated. */
  function DateKey(p: Post): int {
    if Dated(p) then p.metadata["pub_date"].stamp else 0
  }

  /** Oldest first. */
  ghost predicate Ascending(ps: seq<Post>) {
    forall i, j :: 0 <= i < j < |ps| ==> DateKey(ps[i]) <= DateKey(ps[j])
  }

  /** Newest first. */
  ghost predicate Descending(ps: seq<Post>) {
    forall i, j :: 0 <= i < j < |ps| ==> DateKey(ps[i]) >= DateKey(ps[j])
  }

  /** Insert `x` after every post not later than it. */
  function Insert(t: seq<Post>, x: Post): (r: seq<Post>)
    ensures |r| == |t| + 1
  {
    if t == [] || DateKey(t[|t| - 1]) <= DateKey(x) then t + [x]
    else Insert(t[..|t| - 1], x) + [t[|t| - 1]]
  }

  /** The index's sort: a stable insertion sort of the posts by their `pub_date`. */
  function SortByDate(ps: seq<Post>): (r: seq<Post>)
    ensures |r| == |ps|
  {
    if ps == [] then [] else Insert(SortByDate(ps[..|ps| - 1]), ps[|ps| - 1])
  }

  /** The posts of `ps` dated `d`, in order. */
  function WithDate(ps: seq<Post>, d: int): seq<Post>
  {
    if ps == [] then []
    else WithDate(ps[..|ps| - 1], d) + (if DateKey(ps[|ps| - 1]) == d then [ps[|ps| - 1]] else [])
  }

  /** Appending a post not earlier than any other keeps a list ascending. */
  lemma {:induction false} AppendAscending(s: seq<Post>, y: Post)
    requires Ascending(s)
    requires forall i :: 0 <= i < |s| ==> DateKey(s[i]) <= DateKey(y)
    ensures Ascending(s + [y])
  {
    var r := s + [y];
    forall i, j | 0 <= i < j < |r| ensures DateKey(r[i]) <= DateKey(r[j]) {
      assert r[i] == s[i];
      if j < |s| { assert r[j] == s[j]; }
    }
  }

  /** Inserting into an ascending list keeps it ascending and adds exactly `x`. */
  lemma {:induction false} InsertAscending(t: seq<Post>, x: Post)
    requires Ascending(t)
    ensures Ascending(Insert(t, x))
    ensures multiset(Insert(t, x)) == multiset(t) + multiset{x}
  {
    if t == [] {
    } else if DateKey(t[|t| - 1]) <= DateKey(x) {
      AppendAscending(t, x);
    } else {
      var init, last := t[..|t| - 1], t[|t| - 1];
      assert t == init + [last];
      assert Ascending(init) by {
        forall i, j | 0 <= i < j < |init| ensures DateKey(init[i]) <= DateKey(init[j]) {
          assert init[i] == t[i] && init[j] == t[j];
        }
      }
      InsertAscending(init, x);
      var m := Insert(init, x);
      forall i | 0 <= i < |m| ensures DateKey(m[i]) <= DateKey(last) {
        assert m[i] in multiset(m);
        if m[i] != x {
          assert m[i] in multiset(init);
          var j :| 0 <= j < |init| && init[j] == m[i];
          assert t[j] == init[j];
        }
      }
      AppendAscending(m, last);
    }
  }

  /** Sorting yields the same posts, oldest first. */
  lemma {:induction false} SortAscending(ps: seq<Post>)
    ensures Ascending(SortByDate(ps))
    ensures multiset(SortByDate(ps)) == multiset(ps)
  {
    if ps != [] {
      var init := ps[..|ps| - 1];
      SortAscending(init);
      InsertAscending(SortByDate(init), ps[|ps| - 1]);
      assert ps == init + [ps[|ps| - 1]];
    }
  }

  /** Insertion puts `x` after the posts of the same date already there. */
  lemma {:induction false} InsertWithDate(t: seq<Post>, x: Post, d: int)
    ensures WithDate(Insert(t, x), d) == WithDate(t, d) + (if DateKey(x) == d then [x] else [])
  {
    if t != [] && DateKey(t[|t| - 1]) > DateKey(x) {
      var init, last := t[..|t| - 1], t[|t| - 1];
      InsertWithDate(init, x, d);
      var r := Insert(init, x) + [last];
      assert r[..|r| - 1] == Insert(init, x);
    } else {
      assert (t + [x])[..|t|] == t;
    }
  }

  /** The sort is stable: posts of the same date keep their relative order. */
  lemma {:induction false} SortStable(ps: seq<Post>, d: int)
    ensures WithDate(SortByDate(ps), d) == WithDate(ps, d)
  {
    if ps != [] {
      var init := ps[..|ps| - 1];
      SortStable(init, d);
      InsertWithDate(SortByDate(init), ps[|ps| - 1], d);
    }
  }

  /** The first post after sorting is the earliest of all. */
  lemma {:induction false} SortFirstIsEarliest(ps: seq<Post>, p: Post)
    requires p in ps
    ensures SortByDate(ps) != [] && DateKey(SortByDate(ps)[0]) <= DateKey(p)
  {
    SortAscending(ps);
    var s := SortByDate(ps);
    assert p in multiset(s);
    var k :| 0 <= k < |s| && s[k] == p;
  }

  /** `list.reverse` */
  function Reversed(ps: seq<Post>): (r: seq<Post>)
    ensures |r| == |ps| && forall i :: 0 <= i < |ps| ==> r[i] == ps[|ps| - 1 - i]
  {
    if ps == [] then [] else Reversed(ps[1..]) + [ps[0]]
  }

  /** Reversing an ascending list gives the same posts, newest first. */
  lemma {:induction false} ReversedDescending(ps: seq<Post>)
    requires Ascending(ps)
    ensures Descending(Reversed(ps))
    ensures multiset(Reversed(ps)) == multiset(ps)
  {
    var r := Reversed(ps);
    ReversedPermutation(ps);
  }

  /** Reversing keeps the same posts. */
  lemma {:induction false} ReversedPermutation(ps: seq<Post>)
    ensures multiset(Reversed(ps)) == multiset(ps)
  {
    if ps != [] {
      var tail := ps[1..];
      ReversedPermutation(tail);
      assert Reversed(ps) == Reversed(tail) + [ps[0]];
      assert ps == [ps[0]] + tail;
    }
  }

  /** The posts in index order: sorted, then reversed when `sort_reverse` is set. */
  function Arranged(ps: seq<Post>, reverse: bool): seq<Post>
  {
    if reverse then Reversed(SortByDate(ps)) else SortByDate(ps)
  }

  /** The index order holds the same posts, newest first when reversed and oldest
      first otherwise. */
  lemma {:induction false} ArrangedOrder(ps: seq<Post>, reverse: bool)
    ensures multiset(Arranged(ps, reverse)) == multiset(ps)
    ensures reverse ==> Descending(Arranged(ps, reverse))
    ensures !reverse ==> Ascending(Arranged(ps, reverse))
  {
    SortAscending(ps);
    if reverse {
      ReversedDescending(SortByDate(ps));
    }
  }
}
