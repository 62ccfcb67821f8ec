/** How the store orders and cuts query results: a table is scanned in
    ascending id order, WHERE is a filter, ORDER BY a sort on a real key
    (ties keep scan order) and LIMIT a prefix. */
module Ordering {
  import opened Wrappers

  /** A set of naturals holding n has a least element: none below n, or
      the least one found from a smaller member. */
  lemma {:induction false} LeastFrom(s: set<nat>, n: nat)
    requires n in s
    ensures exists m :: m in s && forall x :: x in s ==> m <= x
    decreases n
  {
    if y :| y in s && y < n {
      LeastFrom(s, y);
    } else {
      assert forall x :: x in s ==> n <= x;
    }
  }

  /** The least element of a non-empty set of naturals. */
  function Least(s: set<nat>): (m: nat)
    requires s != {}
    ensures m in s && forall x :: x in s ==> m <= x
  {
    var n :| n in s;
    LeastFrom(s, n);
    var m :| m in s && forall x :: x in s ==> m <= x;
    m
  }

  predicate Ascending(ids: seq<nat>) {
    forall i, j :: 0 <= i < j < |ids| ==> ids[i] < ids[j]
  }

  /** The elements of a set of ids in ascending order. */
  function SortedIds(s: set<nat>): (r: seq<nat>)
    ensures Ascending(r) && |r| == |s|
    ensures forall x :: x in r <==> x in s
    decreases |s|
  {
    if s == {} then []
    else
      var m := Least(s);
      [m] + SortedIds(s - {m})
  }

  /** No element occurs twice. */
  predicate Distinct<T(==)>(s: seq<T>) {
    forall i, j :: 0 <= i < j < |s| ==> s[i] != s[j]
  }

  /** A sequence without repeats is as long as the set of its elements. */
  lemma {:induction false} DistinctCard<T>(s: seq<T>)
    requires Distinct(s)
    ensures |set x | x in s| == |s|
  {
    if s != [] {
      var init := s[..|s| - 1];
      DistinctCard(init);
      assert (set x | x in s) == (set x | x in init) + {s[|s| - 1]};
      assert s[|s| - 1] !in (set x | x in init);
    }
  }

  /** A rearrangement of a sequence without repeats has no repeats either. */
  lemma DistinctPermutation<T>(s: seq<T>, r: seq<T>)
    requires Distinct(s) && multiset(r) == multiset(s)
    ensures Distinct(r)
  {
    forall i, j | 0 <= i < j < |r|
      ensures r[i] != r[j]
    {
      if r[i] == r[j] {
        assert multiset(r)[r[i]] >= 2 by {
          assert r == r[..i] + [r[i]] + r[i + 1..j] + [r[j]] + r[j + 1..];
        }
        DistinctCount(s, r[i]);
        assert false;
      }
    }
  }

  lemma {:induction false} DistinctCount<T>(s: seq<T>, x: T)
    requires Distinct(s)
    ensures multiset(s)[x] <= 1
  {
    if s != [] {
      var init := s[..|s| - 1];
      assert s == init + [s[|s| - 1]];
      DistinctCount(init, x);
      if x == s[|s| - 1] {
        assert x !in init;
      }
    }
  }

  /** WHERE: the elements satisfying p, in their original order. */
  function Filter<T(!new)>(s: seq<T>, p: T -> bool): (r: seq<T>)
    ensures |r| <= |s|
    ensures forall x :: x in r <==> x in s && p(x)
  {
    if s == [] then []
    else (if p(s[0]) then [s[0]] else []) + Filter(s[1..], p)
  }

  lemma {:induction false} FilterDistinct<T(!new)>(s: seq<T>, p: T -> bool)
    requires Distinct(s)
    ensures Distinct(Filter(s, p))
  {
    if s != [] {
      FilterDistinct(s[1..], p);
      assert s[0] !in s[1..];
    }
  }

  /** SELECT f(x): one output per element, in order. */
  function Project<A, B>(s: seq<A>, f: A -> B): (r: seq<B>)
    ensures |r| == |s|
    ensures forall i :: 0 <= i < |s| ==> r[i] == f(s[i])
  {
    seq(|s|, i requires 0 <= i < |s| => f(s[i]))
  }

  /** An output of a projection is the image of some input, and every
      input's image is an output. */
  lemma ProjectMembers<A, B>(s: seq<A>, f: A -> B)
    ensures forall x :: x in s ==> f(x) in Project(s, f)
    ensures forall y :: y in Project(s, f) ==> exists x :: x in s && y == f(x)
  {
    var r := Project(s, f);
    forall x | x in s
      ensures f(x) in r
    {
      var k :| 0 <= k < |s| && s[k] == x;
      assert r[k] == f(x);
    }
    forall y | y in r
      ensures exists x :: x in s && y == f(x)
    {
      var k :| 0 <= k < |r| && r[k] == y;
      assert s[k] in s;
    }
  }

  /** SELECT f(x) WHERE p(x): every matching element's image is an
      output, and every output is the image of a matching element. */
  lemma FilterProjectMembers<A(!new), B>(s: seq<A>, p: A -> bool, f: A -> B)
    ensures forall x :: x in s && p(x) ==> f(x) in Project(Filter(s, p), f)
    ensures forall y :: y in Project(Filter(s, p), f) ==> exists x :: x in s && p(x) && y == f(x)
  {
    var kept := Filter(s, p);
    ProjectMembers(kept, f);
    forall y | y in Project(kept, f)
      ensures exists x :: x in s && p(x) && y == f(x)
    {
      var x :| x in kept && y == f(x);
      assert x in s && p(x);
    }
  }

  /** Two sequences without repeats and without a common element
      concatenate to one without repeats. */
  lemma DistinctConcat<T>(a: seq<T>, b: seq<T>)
    requires Distinct(a) && Distinct(b)
    requires forall x :: x in a ==> x !in b
    ensures Distinct(a + b)
  {
    var c := a + b;
    forall i, j | 0 <= i < j < |c|
      ensures c[i] != c[j]
    {
      if j >= |a| && i < |a| {
        assert c[i] == a[i] && a[i] in a;
        assert c[j] == b[j - |a|] && b[j - |a|] in b;
      }
    }
  }

  /** Ascending in key. */
  predicate SortedBy<T>(s: seq<T>, key: T -> real) {
    forall i, j :: 0 <= i < j < |s| ==> key(s[i]) <= key(s[j])
  }

  /** Stable insertion: x goes before the first element whose key is not
      smaller. */
  function Insert<T>(x: T, s: seq<T>, key: T -> real): (r: seq<T>)
    ensures multiset(r) == multiset(s) + multiset{x}
    ensures |r| == |s| + 1
  {
    if s == [] || key(x) <= key(s[0]) then [x] + s
    else
      assert s == [s[0]] + s[1..];
      [s[0]] + Insert(x, s[1..], key)
  }

  lemma {:induction false} InsertSorted<T>(x: T, s: seq<T>, key: T -> real)
    requires SortedBy(s, key)
    ensures SortedBy(Insert(x, s, key), key)
  {
    if s != [] && key(x) > key(s[0]) {
      InsertSorted(x, s[1..], key);
      var rest := Insert(x, s[1..], key);
      forall y | y in rest
        ensures key(s[0]) <= key(y)
      {
        assert y in multiset(rest);
        assert y == x || y in s[1..];
      }
    }
  }

  /** ORDER BY key ASC over the rows in scan order. */
  function SortBy<T>(s: seq<T>, key: T -> real): (r: seq<T>)
    ensures multiset(r) == multiset(s) && |r| == |s|
    ensures SortedBy(r, key)
  {
    if s == [] then []
    else
      assert s == [s[0]] + s[1..];
      var rest := SortBy(s[1..], key);
      InsertSorted(s[0], rest, key);
      Insert(s[0], rest, key)
  }

  /** Sorting neither adds nor drops an element. */
  lemma SortByMembers<T>(s: seq<T>, key: T -> real)
    ensures forall x :: x in SortBy(s, key) <==> x in s
  {
    var r := SortBy(s, key);
    forall x
      ensures x in r <==> x in s
    {
      assert x in r <==> x in multiset(r);
      assert x in s <==> x in multiset(s);
    }
  }

  /** Descending in key. */
  predicate SortedDescBy<T>(s: seq<T>, key: T -> real) {
    forall i, j :: 0 <= i < j < |s| ==> key(s[i]) >= key(s[j])
  }

  /** ORDER BY key DESC. */
  function SortDescBy<T>(s: seq<T>, key: T -> real): (r: seq<T>)
    ensures multiset(r) == multiset(s) && |r| == |s|
    ensures SortedDescBy(r, key)
  {
    var neg := (x: T) => -key(x);
    var r := SortBy(s, neg);
    assert forall i, j :: 0 <= i < j < |r| ==> neg(r[i]) <= neg(r[j]);
    r
  }

  /** Sorting neither adds nor drops an element, nor repeats one. */
  lemma SortDescByMembers<T>(s: seq<T>, key: T -> real)
    ensures forall x :: x in SortDescBy(s, key) <==> x in s
    ensures Distinct(s) ==> Distinct(SortDescBy(s, key))
  {
    var r := SortDescBy(s, key);
    forall x
      ensures x in r <==> x in s
    {
      assert x in r <==> x in multiset(r);
      assert x in s <==> x in multiset(s);
    }
    if Distinct(s) {
      DistinctPermutation(s, r);
    }
  }

  /** WHERE then ORDER BY key DESC: exactly the matching elements, none
      twice, in descending key order. */
  lemma FilterSortDesc<T(!new)>(s: seq<T>, p: T -> bool, key: T -> real)
    requires Distinct(s)
    ensures var r := SortDescBy(Filter(s, p), key);
      Distinct(r) && SortedDescBy(r, key) && forall x :: x in r <==> x in s && p(x)
  {
    FilterDistinct(s, p);
    SortDescByMembers(Filter(s, p), key);
  }

  /** LIMIT n. */
  function Limit<T>(s: seq<T>, n: nat): (r: seq<T>)
    ensures |r| <= n && |r| <= |s|
    ensures n >= |s| ==> r == s
    ensures n < |s| ==> |r| == n
    ensures r == s[..|r|]
  {
    if n < |s| then s[..n] else s
  }

  /** The first element satisfying p, if any. */
  function FirstMatch<T(!new)>(s: seq<T>, p: T -> bool): (r: Option<T>)
    ensures r.Some? ==> r.value in s && p(r.value)
    ensures r.None? <==> forall x :: x in s ==> !p(x)
  {
    if s == [] then None
    else if p(s[0]) then Some(s[0])
    else FirstMatch(s[1..], p)
  }

  /** The first match comes before every other match. */
  lemma {:induction false} FirstMatchIsFirst<T(!new)>(s: seq<T>, p: T -> bool, k: nat)
    requires k < |s| && p(s[k])
    ensures FirstMatch(s, p).Some?
    ensures exists i :: 0 <= i <= k && s[i] == FirstMatch(s, p).value
  {
    if !p(s[0]) {
      FirstMatchIsFirst(s[1..], p, k - 1);
      var i :| 0 <= i <= k - 1 && s[1..][i] == FirstMatch(s[1..], p).value;
      assert s[i + 1] == s[1..][i];
    }
  }

  /** A prefix takes part of the multiset, and what it leaves lies in the
      rest. */
  lemma PrefixSplit<T>(full: seq<T>, k: nat)
    requires k <= |full|
    ensures multiset(full[..k]) <= multiset(full)
    ensures forall x :: x in multiset(full) - multiset(full[..k]) ==> x in full[k..]
  {
    assert full == full[..k] + full[k..];
    assert multiset(full) == multiset(full[..k]) + multiset(full[k..]);
  }

  /** In an ascending sequence, an element of the tail after k keys no
      lower than any element before k. */
  lemma SortedTail<T>(full: seq<T>, key: T -> real, k: nat, x: T, i: nat)
    requires SortedBy(full, key) && k <= |full| && x in full[k..] && i < k
    ensures key(full[i]) <= key(x)
  {
    var j :| 0 <= j < |full| - k && full[k..][j] == x;
    assert full[k + j] == x;
  }

  /** ORDER BY key LIMIT n; PostgreSQL rejects a negative LIMIT. */
  function SortLimit<T>(s: seq<T>, key: T -> real, limit: int): (r: Result<seq<T>>)
    ensures r.Failure? <==> limit < 0
    ensures r.Success? ==> |r.value| == (if limit < |s| then limit else |s|)
    ensures r.Success? ==> multiset(r.value) <= multiset(s) && SortedBy(r.value, key)
    ensures r.Success? ==> forall x :: x in r.value ==> x in s
  {
    if limit < 0 then Failure("LIMIT must not be negative")
    else
      var full := SortBy(s, key);
      var r := Limit(full, limit);
      assert full == r + full[|r|..];
      assert multiset(full) == multiset(r) + multiset(full[|r|..]);
      assert forall i :: 0 <= i < |r| ==> r[i] == full[i];
      SortByMembers(s, key);
      Success(r)
  }

  /** Among rows without repeats, a sorted LIMIT returns rows without
      repeats, and every row it leaves out ranks no better than every row it
      returns. */
  lemma SortLimitIsTop<T>(s: seq<T>, key: T -> real, limit: int)
    requires Distinct(s) && limit >= 0
    ensures var r := SortLimit(s, key, limit).value;
      Distinct(r)
      && forall x, i :: x in s && x !in r && 0 <= i < |r| ==> key(r[i]) <= key(x)
  {
    var full := SortBy(s, key);
    var r := SortLimit(s, key, limit).value;
    assert r == full[..|r|];
    DistinctPermutation(s, full);
    DistinctPrefix(full, |r|);
    PrefixSplit(full, |r|);
    forall x, i | x in s && x !in r && 0 <= i < |r|
      ensures key(r[i]) <= key(x)
    {
      assert x in multiset(full) - multiset(r);
      SortedTail(full, key, |r|, x, i);
    }
  }

  lemma DistinctPrefix<T>(s: seq<T>, k: nat)
    requires Distinct(s) && k <= |s|
    ensures Distinct(s[..k])
  {
  }

  /** A sorted LIMIT drops no row that ranks better than one it keeps, even
      among repeated rows. */
  lemma SortLimitDrops<T>(s: seq<T>, key: T -> real, limit: int)
    requires limit >= 0
    ensures var r := SortLimit(s, key, limit).value;
      forall x, i :: x in multiset(s) - multiset(r) && 0 <= i < |r| ==> key(r[i]) <= key(x)
  {
    var full := SortBy(s, key);
    var r := SortLimit(s, key, limit).value;
    assert r == full[..|r|];
    PrefixSplit(full, |r|);
    forall x, i | x in multiset(s) - multiset(r) && 0 <= i < |r|
      ensures key(r[i]) <= key(x)
    {
      SortedTail(full, key, |r|, x, i);
    }
  }
}
