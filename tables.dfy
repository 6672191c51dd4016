/** Generic operations on an in-memory table (a sequence of rows): the SQL clauses the
    repositories use (WHERE, COUNT, SUM, MAX, UPDATE … WHERE, DELETE … WHERE, ORDER BY,
    DISTINCT, `first()`, `scalar_one_or_none()`). */
module Tables {
  import opened Wrappers

  /** SELECT … WHERE p: the rows satisfying `p`, in table order. */
  function Filter<T(!new)>(s: seq<T>, p: T -> bool): (r: seq<T>)
    ensures |r| <= |s|
    ensures forall x :: x in r <==> x in s && p(x)
  {
    if s == [] then []
    else if p(s[0]) then [s[0]] + Filter(s[1..], p)
    else Filter(s[1..], p)
  }

  /** Filtering distributes over concatenation, so appending rows appends their selection. */
  lemma {:induction false} FilterAppend<T(!new)>(a: seq<T>, b: seq<T>, p: T -> bool)
    ensures Filter(a + b, p) == Filter(a, p) + Filter(b, p)
  {
    if a == [] {
      assert a + b == b;
    } else {
      assert (a + b)[1..] == a[1..] + b;
      FilterAppend(a[1..], b, p);
    }
  }

  /** A filter that every row passes keeps the table as it is. */
  lemma {:induction false} FilterAll<T(!new)>(s: seq<T>, p: T -> bool)
    requires forall i :: 0 <= i < |s| ==> p(s[i])
    ensures Filter(s, p) == s
  {
    if s != [] {
      FilterAll(s[1..], p);
    }
  }

  /** A filter that no row passes selects nothing. */
  lemma {:induction false} FilterNone<T(!new)>(s: seq<T>, p: T -> bool)
    requires forall i :: 0 <= i < |s| ==> !p(s[i])
    ensures Filter(s, p) == []
  {
    if s != [] {
      FilterNone(s[1..], p);
    }
  }

  /** Two conditions that agree on every row select the same rows. */
  lemma {:induction false} FilterCongruent<T(!new)>(s: seq<T>, p: T -> bool, q: T -> bool)
    requires forall i :: 0 <= i < |s| ==> p(s[i]) == q(s[i])
    ensures Filter(s, p) == Filter(s, q)
  {
    if s != [] {
      FilterCongruent(s[1..], p, q);
    }
  }

  /** SELECT count(*) … WHERE p. */
  function Count<T(!new)>(s: seq<T>, p: T -> bool): (n: nat)
    ensures n == |Filter(s, p)|
    ensures n <= |s|
  {
    if s == [] then 0 else (if p(s[0]) then 1 else 0) + Count(s[1..], p)
  }

  /** A row that fails `p` keeps the count strictly below the table size. */
  lemma {:induction false} CountBelowSize<T(!new)>(s: seq<T>, p: T -> bool, k: int)
    requires 0 <= k < |s| && !p(s[k])
    ensures Count(s, p) < |s|
  {
    if k == 0 {
      assert Count(s[1..], p) <= |s| - 1;
    } else {
      CountBelowSize(s[1..], p, k - 1);
    }
  }

  /** If every row passing `p` also passes `q`, the count under `p` is at most that under `q`. */
  lemma {:induction false} CountImplies<T(!new)>(s: seq<T>, p: T -> bool, q: T -> bool)
    requires forall i :: 0 <= i < |s| && p(s[i]) ==> q(s[i])
    ensures Count(s, p) <= Count(s, q)
  {
    if s != [] {
      CountImplies(s[1..], p, q);
    }
  }

  /** As CountImplies, with a row passing `q` but not `p`: the count under `p` is then strictly smaller. */
  lemma {:induction false} CountStrict<T(!new)>(s: seq<T>, p: T -> bool, q: T -> bool, k: int)
    requires forall i :: 0 <= i < |s| && p(s[i]) ==> q(s[i])
    requires 0 <= k < |s| && q(s[k]) && !p(s[k])
    ensures Count(s, p) < Count(s, q)
  {
    if k == 0 {
      CountImplies(s[1..], p, q);
    } else {
      CountStrict(s[1..], p, q, k - 1);
    }
  }

  /** Two conditions no row passes together: their counts add up to at most the count under a
      third condition that each of them implies. */
  lemma {:induction false} CountDisjoint<T(!new)>(s: seq<T>, p: T -> bool, q: T -> bool, all: T -> bool)
    requires forall i :: 0 <= i < |s| ==> !(p(s[i]) && q(s[i]))
    requires forall i :: 0 <= i < |s| && (p(s[i]) || q(s[i])) ==> all(s[i])
    ensures Count(s, p) + Count(s, q) <= Count(s, all)
  {
    if s != [] {
      CountDisjoint(s[1..], p, q, all);
    }
  }

  /** SELECT sum(f) …; the empty sum is 0, as `sum(…) or 0` makes it. */
  function Sum<T>(s: seq<T>, f: T -> int): (total: int)
    ensures s == [] ==> total == 0
    ensures (forall i :: 0 <= i < |s| ==> f(s[i]) >= 0) ==> total >= 0
  {
    if s == [] then 0 else f(s[0]) + Sum(s[1..], f)
  }

  /** Sums are monotone in the summand, row by row. */
  lemma {:induction false} SumMonotone<T>(s: seq<T>, f: T -> int, g: T -> int)
    requires forall i :: 0 <= i < |s| ==> f(s[i]) <= g(s[i])
    ensures Sum(s, f) <= Sum(s, g)
  {
    if s != [] {
      SumMonotone(s[1..], f, g);
    }
  }

  /** SELECT max(key) … with `or 0`: 0 for no rows, otherwise the largest key. */
  function MaxKey<T>(s: seq<T>, key: T -> int): (m: int)
    ensures s == [] ==> m == 0
    ensures s != [] ==> exists x :: x in s && key(x) == m
    ensures forall x :: x in s ==> key(x) <= m
  {
    if s == [] then 0
    else if |s| == 1 then key(s[0])
    else
      var rest := MaxKey(s[1..], key);
      assert forall x :: x in s ==> x == s[0] || x in s[1..];
      if key(s[0]) >= rest then key(s[0]) else rest
  }

  /** `.first()`: the first row satisfying `p`, or None. */
  function First<T>(s: seq<T>, p: T -> bool): (r: Option<T>)
    ensures r.None? <==> forall x :: x in s ==> !p(x)
    ensures r.Some? ==> r.value in s && p(r.value)
  {
    if s == [] then None
    else if p(s[0]) then Some(s[0])
    else First(s[1..], p)
  }

  /** `scalar_one_or_none()` over the rows satisfying `p`. */
  function One<T(!new)>(s: seq<T>, p: T -> bool): (r: Unique<T>)
    ensures r.NoMatch? <==> Count(s, p) == 0
    ensures r.Match? <==> Count(s, p) == 1
    ensures r.Match? ==> r.value in s && p(r.value)
    ensures r.NoMatch? ==> Filter(s, p) == []
    ensures r.Match? ==> Filter(s, p) == [r.value]
  {
    var f := Filter(s, p);
    if |f| == 0 then NoMatch
    else if |f| == 1 then (assert f[0] in f; Match(f[0]))
    else Ambiguous
  }

  /** UPDATE … SET f WHERE p: `f` applied to the matching rows, the others kept, in place. */
  function UpdateWhere<T>(s: seq<T>, p: T -> bool, f: T -> T): (r: seq<T>)
    ensures |r| == |s|
    ensures forall i :: 0 <= i < |s| ==> r[i] == (if p(s[i]) then f(s[i]) else s[i])
  {
    if s == [] then [] else [if p(s[0]) then f(s[0]) else s[0]] + UpdateWhere(s[1..], p, f)
  }

  /** An update that keeps `p` on the rows it touches commutes with selecting by `p`. */
  lemma {:induction false} FilterUpdateWhere<T(!new)>(s: seq<T>, p: T -> bool, q: T -> bool, f: T -> T)
    requires forall i :: 0 <= i < |s| && q(s[i]) ==> p(f(s[i])) == p(s[i])
    ensures Filter(UpdateWhere(s, q, f), p) == UpdateWhere(Filter(s, p), q, f)
  {
    if s != [] {
      var u := UpdateWhere(s, q, f);
      assert u[1..] == UpdateWhere(s[1..], q, f);
      FilterUpdateWhere(s[1..], p, q, f);
    }
  }

  /** DELETE … WHERE p: the rows that do not satisfy `p`. */
  function DeleteWhere<T(!new)>(s: seq<T>, p: T -> bool): (r: seq<T>)
    ensures forall x :: x in r <==> x in s && !p(x)
    ensures |r| == |s| - Count(s, p)
  {
    if s == [] then []
    else if p(s[0]) then DeleteWhere(s[1..], p)
    else [s[0]] + DeleteWhere(s[1..], p)
  }

  /** The projection of every row through `f`, in table order. */
  function Project<T, U>(s: seq<T>, f: T -> U): (r: seq<U>)
    ensures |r| == |s|
    ensures forall i :: 0 <= i < |s| ==> r[i] == f(s[i])
  {
    if s == [] then [] else [f(s[0])] + Project(s[1..], f)
  }

  ghost predicate SortedBy<T>(s: seq<T>, key: T -> int)
  {
    forall i, j :: 0 <= i < j < |s| ==> key(s[i]) <= key(s[j])
  }

  /** Inserts `x` into a sorted `s` before the first row whose key is not smaller. */
  function InsertBy<T>(x: T, s: seq<T>, key: T -> int): (r: seq<T>)
    requires SortedBy(s, key)
    ensures SortedBy(r, key)
    ensures forall y :: y in r ==> y == x || y in s
    ensures multiset(r) == multiset(s) + multiset{x}
  {
    if s == [] then [x]
    else if key(x) <= key(s[0]) then [x] + s
    else
      var rest := InsertBy(x, s[1..], key);
      var r := [s[0]] + rest;
      assert s == [s[0]] + s[1..];
      assert forall j :: 0 <= j < |rest| ==> key(s[0]) <= key(rest[j]) by {
        forall j | 0 <= j < |rest| ensures key(s[0]) <= key(rest[j]) {
          assert rest[j] in rest;
        }
      }
      assert forall i, j :: 0 <= i < j < |r| ==> key(r[i]) <= key(r[j]) by {
        forall i, j | 0 <= i < j < |r| ensures key(r[i]) <= key(r[j]) {
          if i > 0 { assert r[i] == rest[i - 1] && r[j] == rest[j - 1]; }
        }
      }
      r
  }

  /** ORDER BY key: a sorted permutation of the table. */
  function SortBy<T>(s: seq<T>, key: T -> int): (r: seq<T>)
    ensures SortedBy(r, key)
    ensures multiset(r) == multiset(s)
    ensures |r| == |s|
  {
    if s == [] then []
    else
      assert s == [s[0]] + s[1..];
      InsertBy(s[0], SortBy(s[1..], key), key)
  }

  ghost predicate NoDuplicates<T>(s: seq<T>)
  {
    forall i, j :: 0 <= i < j < |s| ==> s[i] != s[j]
  }

  /** SELECT DISTINCT without ORDER BY: each value once, in order of first occurrence. */
  function Distinct<T(==, !new)>(s: seq<T>): (r: seq<T>)
    ensures NoDuplicates(r)
    ensures forall x :: x in r <==> x in s
  {
    if s == [] then []
    else
      var init := Distinct(s[..|s| - 1]);
      assert forall x :: x in s <==> x in s[..|s| - 1] || x == s[|s| - 1];
      if s[|s| - 1] in init then init else init + [s[|s| - 1]]
  }
}
