/** Generic sequence operations that the query builder and collection methods
    of the application amount to once a table is a sequence of rows:
    `where` (Filter), `sum` (SumOf), `orderBy` (SortDesc) and `limit` (Take). */
module Seqs {

  /** The rows of `s` that satisfy `p`, in their original order. */
  function Filter<T(!new)>(s: seq<T>, p: T -> bool): (r: seq<T>)
    ensures |r| <= |s|
    ensures forall x :: x in r <==> x in s && p(x)
    ensures forall i :: 0 <= i < |r| ==> p(r[i])
  {
    if s == [] then [] else (if p(s[0]) then [s[0]] else []) + Filter(s[1..], p)
  }

  /** Filtering twice is filtering once by the conjunction. */
  lemma {:induction false} FilterFilter<T(!new)>(s: seq<T>, p: T -> bool, q: T -> bool, pq: T -> bool)
    requires forall x :: pq(x) == (p(x) && q(x))
    ensures Filter(Filter(s, p), q) == Filter(s, pq)
  {
    if s != [] {
      FilterFilter(s[1..], p, q, pq);
      FilterAppend([s[0]], s[1..], q);
      if p(s[0]) {
        assert Filter(s, p) == [s[0]] + Filter(s[1..], p);
      } else {
        assert Filter(s, p) == Filter(s[1..], p);
      }
    }
  }

  /** No row passes: the selection is empty. */
  lemma {:induction false} FilterNone<T(!new)>(s: seq<T>, p: T -> bool)
    requires forall k :: 0 <= k < |s| ==> !p(s[k])
    ensures Filter(s, p) == []
  {
    if s != [] {
      FilterNone(s[1..], p);
    }
  }

  /** Every row passes: the selection is the whole sequence. */
  lemma {:induction false} FilterAll<T(!new)>(s: seq<T>, p: T -> bool)
    requires forall k :: 0 <= k < |s| ==> p(s[k])
    ensures Filter(s, p) == s
  {
    if s != [] {
      FilterAll(s[1..], p);
    }
  }

  /** A filter selects nothing exactly when no row satisfies the predicate. */
  lemma FilterEmpty<T(!new)>(s: seq<T>, p: T -> bool)
    ensures Filter(s, p) == [] <==> forall k :: 0 <= k < |s| ==> !p(s[k])
  {
    if forall k :: 0 <= k < |s| ==> !p(s[k]) {
      FilterNone(s, p);
    } else {
      var k :| 0 <= k < |s| && p(s[k]);
      assert s[k] in Filter(s, p);
    }
  }

  /** Two predicates that agree on every row select the same rows. */
  lemma {:induction false} FilterCongruent<T(!new)>(s: seq<T>, p: T -> bool, q: T -> bool)
    requires forall x :: x in s ==> p(x) == q(x)
    ensures Filter(s, p) == Filter(s, q)
  {
    if s != [] {
      FilterCongruent(s[1..], p, q);
    }
  }

  lemma {:induction false} FilterAppend<T(!new)>(a: seq<T>, b: seq<T>, p: T -> bool)
    ensures Filter(a + b, p) == Filter(a, p) + Filter(b, p)
  {
    if a == [] {
      assert a + b == b;
    } else {
      assert (a + b)[1..] == a[1..] + b;
      FilterAppend(a[1..], b, p);
    }
  }

  /** When exactly the row at position k fails `p`, filtering cuts out that row. */
  lemma {:induction false} FilterDropOne<T(!new)>(s: seq<T>, p: T -> bool, k: nat)
    requires k < |s| && !p(s[k])
    requires forall j :: 0 <= j < |s| && j != k ==> p(s[j])
    ensures Filter(s, p) == s[..k] + s[k + 1..]
  {
    var tail := s[1..];
    if k == 0 {
      FilterAll(tail, p);
    } else {
      FilterDropOne(tail, p, k - 1);
      assert [s[0]] + (tail[..k - 1] + tail[k..]) == s[..k] + s[k + 1..];
    }
  }

  /** Filtering keeps each row's multiplicity when the row passes and drops it otherwise. */
  lemma {:induction false} FilterMultiset<T(!new)>(s: seq<T>, p: T -> bool)
    ensures forall x :: multiset(Filter(s, p))[x] == if p(x) then multiset(s)[x] else 0
  {
    if s != [] {
      FilterMultiset(s[1..], p);
      assert s == [s[0]] + s[1..];
    }
  }

  /** `f` applied to every row of `s` (a collection's `map`). */
  function Map<T, U>(s: seq<T>, f: T -> U): (r: seq<U>)
    ensures |r| == |s|
    ensures forall i :: 0 <= i < |s| ==> r[i] == f(s[i])
  {
    if s == [] then [] else [f(s[0])] + Map(s[1..], f)
  }

  /** Selecting after mapping is mapping after selecting, when the selection can be read
      off the original rows and the two maps agree on the selected ones. */
  lemma {:induction false} FilterMap<T(!new), U(!new)>(s: seq<T>, f: T -> U, q: U -> bool, r: T -> bool, g: T -> U)
    requires forall x :: x in s ==> q(f(x)) == r(x) && (r(x) ==> f(x) == g(x))
    ensures Filter(Map(s, f), q) == Map(Filter(s, r), g)
  {
    if s != [] {
      assert s[0] in s;
      assert forall x :: x in s[1..] ==> x in s;
      FilterMap(s[1..], f, q, r, g);
      assert Map(s, f)[1..] == Map(s[1..], f);
    }
  }

  /** Sum of `f` over the rows of `s` (a collection's `sum`). */
  function SumOf<T>(s: seq<T>, f: T -> int): int
  {
    if s == [] then 0 else f(s[0]) + SumOf(s[1..], f)
  }

  lemma {:induction false} SumOfAppend<T>(a: seq<T>, b: seq<T>, f: T -> int)
    ensures SumOf(a + b, f) == SumOf(a, f) + SumOf(b, f)
  {
    if a == [] {
      assert a + b == b;
    } else {
      assert (a + b)[1..] == a[1..] + b;
      SumOfAppend(a[1..], b, f);
    }
  }

  /** A sum does not depend on the order of the rows: it is a function of their multiset. */
  lemma {:induction false} SumOfPermutation<T>(s: seq<T>, t: seq<T>, f: T -> int)
    requires multiset(s) == multiset(t)
    ensures SumOf(s, f) == SumOf(t, f)
    decreases |s|
  {
    if s == [] {
      assert |t| == |multiset(t)| == 0;
    } else {
      assert s[0] in multiset(t);
      var j :| 0 <= j < |t| && t[j] == s[0];
      var rest := t[..j] + t[j + 1..];
      RemoveAt(t, j);
      assert s == [s[0]] + s[1..];
      assert multiset(s[1..]) == multiset(s) - multiset{s[0]};
      SumOfPermutation(s[1..], rest, f);
      SumOfRemoveAt(t, j, f);
    }
  }

  lemma RemoveAt<T>(t: seq<T>, j: nat)
    requires j < |t|
    ensures multiset(t[..j] + t[j + 1..]) == multiset(t) - multiset{t[j]}
  {
    assert t == t[..j] + [t[j]] + t[j + 1..];
  }

  lemma SumOfRemoveAt<T>(t: seq<T>, j: nat, f: T -> int)
    requires j < |t|
    ensures SumOf(t, f) == f(t[j]) + SumOf(t[..j] + t[j + 1..], f)
  {
    assert t == t[..j] + ([t[j]] + t[j + 1..]);
    SumOfAppend(t[..j], [t[j]] + t[j + 1..], f);
    SumOfAppend([t[j]], t[j + 1..], f);
    SumOfAppend(t[..j], t[j + 1..], f);
  }

  /** A sum of rows that are all zero is zero; in particular an empty selection sums to 0. */
  lemma {:induction false} SumOfZero<T>(s: seq<T>, f: T -> int)
    requires forall i :: 0 <= i < |s| ==> f(s[i]) == 0
    ensures SumOf(s, f) == 0
  {
    if s != [] {
      SumOfZero(s[1..], f);
    }
  }

  /** Every summand between lo and hi puts the sum between lo * |s| and hi * |s|:
      the mean of the rows lies between their least and greatest value. */
  lemma {:induction false} SumOfBounds<T>(s: seq<T>, f: T -> int, lo: int, hi: int)
    requires forall i :: 0 <= i < |s| ==> lo <= f(s[i]) <= hi
    ensures lo * |s| <= SumOf(s, f) <= hi * |s|
  {
    if s != [] {
      SumOfBounds(s[1..], f, lo, hi);
      assert lo * |s| == lo * |s[1..]| + lo;
      assert hi * |s| == hi * |s[1..]| + hi;
    }
  }

  /** A sum of non-negative rows is non-negative. */
  lemma {:induction false} SumOfNonNegative<T>(s: seq<T>, f: T -> int)
    requires forall i :: 0 <= i < |s| ==> f(s[i]) >= 0
    ensures SumOf(s, f) >= 0
  {
    if s != [] {
      SumOfNonNegative(s[1..], f);
    }
  }

  /** A sum of non-negative rows is at least any one of them. */
  lemma {:induction false} SumOfAtLeastOne<T>(s: seq<T>, f: T -> int, k: nat)
    requires forall i :: 0 <= i < |s| ==> f(s[i]) >= 0
    requires k < |s|
    ensures SumOf(s, f) >= f(s[k])
  {
    SumOfNonNegative(s[1..], f);
    if k > 0 {
      SumOfAtLeastOne(s[1..], f, k - 1);
    }
  }

  /** `key` does not increase along `s`: the rows are in `orderBy(key, 'desc')` order. */
  ghost predicate Descending<T>(s: seq<T>, key: T -> int)
  {
    forall i, j :: 0 <= i < j < |s| ==> key(s[i]) >= key(s[j])
  }

  /** Insert `x` into the descending sequence `s`, after every row whose key is larger than `key(x)`. */
  function InsertDesc<T>(x: T, s: seq<T>, key: T -> int): (r: seq<T>)
    requires Descending(s, key)
    ensures multiset(r) == multiset(s) + multiset{x}
    ensures Descending(r, key)
    ensures r[0] == x || (s != [] && r[0] == s[0])
  {
    if s == [] then [x]
    else if key(s[0]) > key(x) then
      var tail := InsertDesc(x, s[1..], key);
      assert s == [s[0]] + s[1..];
      DescendingCons(s[0], tail, key);
      [s[0]] + tail
    else
      DescendingCons(x, s, key);
      [x] + s
  }

  /** A row at least as large as the head of a descending sequence can be put in front of it. */
  lemma DescendingCons<T>(x: T, s: seq<T>, key: T -> int)
    requires Descending(s, key)
    requires s != [] ==> key(s[0]) <= key(x)
    ensures Descending([x] + s, key)
  {
    var r := [x] + s;
    forall i, j | 0 <= i < j < |r| ensures key(r[i]) >= key(r[j]) {
      if i > 0 {
        assert r[i] == s[i - 1] && r[j] == s[j - 1];
      } else {
        assert r[j] == s[j - 1] && key(s[0]) >= key(s[j - 1]);
      }
    }
  }

  /** The rows of `s` ordered by `key`, largest first (an insertion sort; each row goes in front of
      the rows after it with an equal key, so equal keys keep their table order). */
  function SortDesc<T>(s: seq<T>, key: T -> int): (r: seq<T>)
    ensures multiset(r) == multiset(s)
    ensures |r| == |s|
    ensures Descending(r, key)
  {
    if s == [] then []
    else
      assert s == [s[0]] + s[1..];
      InsertDesc(s[0], SortDesc(s[1..], key), key)
  }

  /** Any run of consecutive rows of a descending sequence is descending. */
  lemma DescendingSlice<T>(s: seq<T>, key: T -> int, from: nat, n: nat)
    requires Descending(s, key) && from + n <= |s|
    ensures Descending(s[from..from + n], key)
  {
    var r := s[from..from + n];
    forall i, j | 0 <= i < j < |r| ensures key(r[i]) >= key(r[j]) {
      assert r[i] == s[from + i] && r[j] == s[from + j];
    }
  }

  /** The first `n` rows of `s`, or all of them when there are fewer (a query's `limit`). */
  function Take<T>(s: seq<T>, n: nat): (r: seq<T>)
    ensures |r| == if |s| < n then |s| else n
    ensures forall i :: 0 <= i < |r| ==> r[i] == s[i]
    ensures multiset(r) <= multiset(s)
  {
    if |s| <= n then s
    else
      assert s == s[..n] + s[n..];
      s[..n]
  }

  /** A row of a descending sequence that is not among its first `n` rows has a key no larger
      than any of them, and those `n` rows are all there. */
  lemma TakeDescending<T>(s: seq<T>, key: T -> int, n: nat, x: T)
    requires Descending(s, key) && x in s && x !in Take(s, n)
    ensures |Take(s, n)| == n
    ensures forall i :: 0 <= i < n ==> key(Take(s, n)[i]) >= key(x)
  {
    var k :| 0 <= k < |s| && s[k] == x;
    assert k >= n;
  }
}
