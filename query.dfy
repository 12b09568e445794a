/**
 * The three shapes of query the store issues over a table:
 * `SELECT ... WHERE p LIMIT 1` (`.first()`), `SELECT ... WHERE p` (`.all()`)
 * and `ORDER BY key`, the last as an insertion sort. Rows with equal keys
 * may come out in any relative order, as with the database.
 */
module Query {
  import opened Wrappers

  /** The position of the first row satisfying `p`. */
  function FirstWhere<T>(s: seq<T>, p: T -> bool): (r: Option<nat>)
    ensures r.Some? ==> r.value < |s| && p(s[r.value])
    ensures r.Some? ==> forall k :: 0 <= k < r.value ==> !p(s[k])
    ensures r.None? ==> forall k :: 0 <= k < |s| ==> !p(s[k])
  {
    if s == [] then None
    else if p(s[0]) then Some(0)
    else
      match FirstWhere(s[1..], p)
      case None => None
      case Some(k) => Some(k + 1)
  }

  /** `.first()`: some row satisfying `p`, or None exactly when there is none. */
  function SelectFirst<T>(s: seq<T>, p: T -> bool): (r: Option<T>)
    ensures r.Some? ==> r.value in s && p(r.value)
    ensures r.None? <==> forall i :: 0 <= i < |s| ==> !p(s[i])
  {
    match FirstWhere(s, p)
    case None => None
    case Some(i) => Some(s[i])
  }

  /** `.all()`: the rows satisfying `p`, in table order. */
  function Where<T>(s: seq<T>, p: T -> bool): (r: seq<T>)
    ensures |r| <= |s|
    ensures forall i :: 0 <= i < |r| ==> r[i] in s && p(r[i])
    ensures forall i :: 0 <= i < |s| && p(s[i]) ==> s[i] in r
    ensures multiset(r) <= multiset(s)
  {
    if s == [] then []
    else
      var init := s[..|s| - 1];
      assert s == init + [s[|s| - 1]];
      if p(s[|s| - 1]) then Where(init, p) + [s[|s| - 1]]
      else Where(init, p)
  }

  /** Each matching row comes back as often as the table holds it, and no other row does. */
  lemma {:induction false} WhereCounts<T>(s: seq<T>, p: T -> bool, x: T)
    ensures multiset(Where(s, p))[x] == if p(x) then multiset(s)[x] else 0
  {
    if s != [] {
      var init := s[..|s| - 1];
      assert s == init + [s[|s| - 1]];
      WhereCounts(init, p, x);
      if p(s[|s| - 1]) {
        assert multiset(Where(s, p)) == multiset(Where(init, p)) + multiset{s[|s| - 1]};
      }
    }
  }

  ghost predicate StrictlyIncreasing<T>(s: seq<T>, key: T -> int)
  {
    forall i, j :: 0 <= i < j < |s| ==> key(s[i]) < key(s[j])
  }

  /** Filtering keeps the table's order: rows with increasing keys stay increasing. */
  lemma {:induction false} WhereKeepsOrder<T>(s: seq<T>, p: T -> bool, key: T -> int)
    requires StrictlyIncreasing(s, key)
    ensures StrictlyIncreasing(Where(s, p), key)
  {
    if s != [] {
      var init := s[..|s| - 1];
      WhereKeepsOrder(init, p, key);
      var w := Where(init, p);
      forall k | 0 <= k < |w|
        ensures key(w[k]) < key(s[|s| - 1])
      {
        assert w[k] in init;
      }
    }
  }

  ghost predicate SortedBy<T>(s: seq<T>, key: T -> int)
  {
    forall i, j :: 0 <= i < j < |s| ==> key(s[i]) <= key(s[j])
  }

  /** Inserts `x` before the first row whose key is not smaller. */
  function InsertBy<T>(x: T, s: seq<T>, key: T -> int): seq<T>
  {
    if s == [] then [x]
    else if key(x) <= key(s[0]) then [x] + s
    else [s[0]] + InsertBy(x, s[1..], key)
  }

  /** Insertion adds exactly the one row. */
  lemma {:induction false} InsertByCount<T>(x: T, s: seq<T>, key: T -> int)
    ensures multiset(InsertBy(x, s, key)) == multiset(s) + multiset{x}
  {
    if s != [] && key(x) > key(s[0]) {
      InsertByCount(x, s[1..], key);
      assert s == [s[0]] + s[1..];
    }
  }

  /** Every row after insertion is the new row or an old one. */
  lemma {:induction false} InsertByRows<T>(x: T, s: seq<T>, key: T -> int)
    ensures forall k :: 0 <= k < |InsertBy(x, s, key)| ==> InsertBy(x, s, key)[k] == x || InsertBy(x, s, key)[k] in s
  {
    if s != [] && key(x) > key(s[0]) {
      var rest := InsertBy(x, s[1..], key);
      InsertByRows(x, s[1..], key);
      forall k | 0 <= k < |rest|
        ensures rest[k] == x || rest[k] in s
      {
        if rest[k] != x {
          assert rest[k] in s[1..];
        }
      }
    }
  }

  /** Insertion keeps a sorted table sorted. */
  lemma {:induction false} InsertBySorted<T>(x: T, s: seq<T>, key: T -> int)
    requires SortedBy(s, key)
    ensures SortedBy(InsertBy(x, s, key), key)
  {
    if s == [] {
    } else if key(x) <= key(s[0]) {
      var r := [x] + s;
      forall i, j | 0 <= i < j < |r|
        ensures key(r[i]) <= key(r[j])
      {
        if i == 0 && j > 1 {
          assert key(s[0]) <= key(s[j - 1]);
        }
      }
    } else {
      var tail := s[1..];
      var rest := InsertBy(x, tail, key);
      InsertBySorted(x, tail, key);
      InsertByRows(x, tail, key);
      var r := [s[0]] + rest;
      forall k | 0 <= k < |rest|
        ensures key(s[0]) <= key(rest[k])
      {
        if rest[k] != x {
          var j :| 0 <= j < |tail| && tail[j] == rest[k];
          assert s[j + 1] == rest[k];
        }
      }
      forall i, j | 0 <= i < j < |r|
        ensures key(r[i]) <= key(r[j])
      {
        if i > 0 {
          assert r[i] == rest[i - 1] && r[j] == rest[j - 1];
        }
      }
    }
  }

  /** `ORDER BY key`: the rows of `s` by ascending key. */
  function SortBy<T>(s: seq<T>, key: T -> int): (r: seq<T>)
    ensures SortedBy(r, key)
    ensures multiset(r) == multiset(s)
  {
    if s == [] then []
    else
      var init := s[..|s| - 1];
      assert s == init + [s[|s| - 1]];
      var sorted := SortBy(init, key);
      InsertBySorted(s[|s| - 1], sorted, key);
      InsertByCount(s[|s| - 1], sorted, key);
      InsertBy(s[|s| - 1], sorted, key)
  }

  /** Two orderings of the same rows hold the same rows. */
  lemma SameRows<T>(s: seq<T>, r: seq<T>)
    requires multiset(r) == multiset(s)
    ensures forall i :: 0 <= i < |r| ==> r[i] in s
    ensures forall i :: 0 <= i < |s| ==> s[i] in r
  {
    forall i | 0 <= i < |r|
      ensures r[i] in s
    {
      assert r[i] in multiset(r);
    }
    forall i | 0 <= i < |s|
      ensures s[i] in r
    {
      assert s[i] in multiset(s);
    }
  }

  ghost predicate Distinct<T>(s: seq<T>)
  {
    forall i, j :: 0 <= i < j < |s| ==> s[i] != s[j]
  }

  lemma {:induction false} DistinctCounts<T>(s: seq<T>, x: T)
    requires Distinct(s)
    ensures multiset(s)[x] <= 1
  {
    if s != [] {
      var init := s[..|s| - 1];
      assert s == init + [s[|s| - 1]];
      DistinctCounts(init, x);
      assert s[|s| - 1] !in init;
    }
  }

  /** A reordering of rows without repeats has no repeats. */
  lemma PermutationKeepsDistinct<T>(s: seq<T>, r: seq<T>)
    requires Distinct(s) && multiset(r) == multiset(s)
    ensures Distinct(r)
  {
    forall i, j | 0 <= i < j < |r|
      ensures r[i] != r[j]
    {
      if r[i] == r[j] {
        assert r == r[..j] + r[j..];
        assert r[i] in r[..j];
        assert r[j] in r[j..];
        assert multiset(r)[r[i]] == multiset(r[..j])[r[i]] + multiset(r[j..])[r[i]];
        DistinctCounts(s, r[i]);
        assert false;
      }
    }
  }
}
