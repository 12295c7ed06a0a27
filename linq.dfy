/**
 * The LINQ operators the controllers compose their queries from
 * (`Where`, `Count`, `Any`, `FirstOrDefault`, `Sum`, `OrderBy`,
 * `OrderByDescending`, `Take`), as functions on sequences, with the facts
 * about them that the queries' properties rest on.
 */
module Linq {
  import opened Wrappers
  import opened Text

  // ---------------------------------------------------------------------
  // Filtering and counting
  // ---------------------------------------------------------------------

  /** `Where`: the elements satisfying `p`, in their original order. */
  function Where<T>(s: seq<T>, p: T -> bool): (r: seq<T>)
    ensures |r| <= |s|
    ensures forall i :: 0 <= i < |r| ==> p(r[i])
    ensures forall i :: 0 <= i < |s| && p(s[i]) ==> s[i] in r
    ensures multiset(r) <= multiset(s)
  {
    if s == [] then []
    else
      var rest := Where(s[1..], p);
      assert s == [s[0]] + s[1..];
      if p(s[0]) then [s[0]] + rest else rest
  }

  /** `Where` keeps each satisfying element as often as the input holds it,
      and drops every other element. */
  lemma {:induction false} WhereMultiplicity<T>(s: seq<T>, p: T -> bool)
    ensures forall x :: multiset(Where(s, p))[x] == if p(x) then multiset(s)[x] else 0
    decreases |s|
  {
    if s != [] {
      WhereMultiplicity(s[1..], p);
      assert s == [s[0]] + s[1..];
    }
  }

  /** `Count(p)`: the number of positions whose element satisfies `p`
      (`CountIndices`). */
  function Count<T>(s: seq<T>, p: T -> bool): (n: nat)
    ensures n <= |s|
    ensures n == 0 <==> forall i :: 0 <= i < |s| ==> !p(s[i])
    ensures n == |s| <==> forall i :: 0 <= i < |s| ==> p(s[i])
  {
    WhereEmptyIffNotAny(s, p);
    WhereAllIffAll(s, p);
    |Where(s, p)|
  }

  /** `Where` keeps every element exactly when every element satisfies `p`. */
  lemma {:induction false} WhereAllIffAll<T>(s: seq<T>, p: T -> bool)
    ensures |Where(s, p)| == |s| <==> forall i :: 0 <= i < |s| ==> p(s[i])
    decreases |s|
  {
    if s != [] {
      WhereAllIffAll(s[1..], p);
      assert forall i :: 1 <= i < |s| ==> s[i] == s[1..][i - 1];
      if !p(s[0]) { assert |Where(s[1..], p)| <= |s| - 1; }
    }
  }

  /** The positions of `s` whose element satisfies `p`. */
  function Indices<T>(s: seq<T>, p: T -> bool): (ix: set<int>)
    ensures forall i :: i in ix <==> 0 <= i < |s| && p(s[i])
  {
    set i | 0 <= i < |s| && p(s[i])
  }

  /** `Count` is the number of positions whose element satisfies `p`. */
  lemma {:induction false} CountIndices<T>(s: seq<T>, p: T -> bool)
    ensures Count(s, p) == |Indices(s, p)|
    decreases |s|
  {
    var all := Indices(s, p);
    if s == [] {
      assert all == {};
    } else {
      var t, x := s[..|s| - 1], s[|s| - 1];
      assert s == t + [x];
      CountIndices(t, p);
      WhereAppend(t, [x], p);
      assert Where([x], p) == if p(x) then [x] else [] by { assert [x][1..] == []; }
      var front := Indices(t, p);
      var last: set<int> := if p(x) then {|t|} else {};
      IndicesSnoc(t, x, p);
      assert front !! last;
      assert Count(s, p) == Count(t, p) + |last|;
    }
  }

  lemma IndicesSnoc<T>(t: seq<T>, x: T, p: T -> bool)
    ensures Indices(t + [x], p) == Indices(t, p) + (if p(x) then {|t|} else {})
  {
    var s := t + [x];
    forall i ensures i in Indices(s, p) <==> i in Indices(t, p) + (if p(x) then {|t|} else {}) {
      if 0 <= i < |t| { assert s[i] == t[i]; }
      if i == |t| { assert s[i] == x; }
    }
  }

  /** `Any(p)`. */
  predicate Any<T>(s: seq<T>, p: T -> bool) {
    exists i :: 0 <= i < |s| && p(s[i])
  }

  lemma {:induction false} WhereEmptyIffNotAny<T>(s: seq<T>, p: T -> bool)
    ensures Where(s, p) == [] <==> !Any(s, p)
  {
    if Where(s, p) != [] {
      var w := Where(s, p)[0];
      assert w in multiset(Where(s, p));
      assert w in multiset(s);
      var i :| 0 <= i < |s| && s[i] == w;
      assert p(s[i]);
    }
    if Any(s, p) {
      var i :| 0 <= i < |s| && p(s[i]);
      assert s[i] in Where(s, p);
    }
  }

  lemma {:induction false} WhereAppend<T>(a: seq<T>, b: seq<T>, p: T -> bool)
    ensures Where(a + b, p) == Where(a, p) + Where(b, p)
    decreases |a|
  {
    if a == [] {
      assert a + b == b;
    } else {
      assert (a + b)[0] == a[0];
      assert (a + b)[1..] == a[1..] + b;
      WhereAppend(a[1..], b, p);
    }
  }

  /** A relation that holds between every earlier and later element of a
      sequence holds between those of any filtering of it. */
  lemma {:induction false} WherePairs<T>(s: seq<T>, p: T -> bool, rel: (T, T) -> bool)
    requires forall i, j :: 0 <= i < j < |s| ==> rel(s[i], s[j])
    ensures forall a, b :: 0 <= a < b < |Where(s, p)| ==> rel(Where(s, p)[a], Where(s, p)[b])
    decreases |s|
  {
    if s != [] {
      WherePairs(s[1..], p, rel);
      var rest := Where(s[1..], p);
      if p(s[0]) {
        forall b | 0 <= b < |rest| ensures rel(s[0], rest[b]) {
          assert rest[b] in multiset(s[1..]);
          var m :| 0 <= m < |s[1..]| && s[1..][m] == rest[b];
          assert s[m + 1] == rest[b];
        }
        assert Where(s, p) == [s[0]] + rest;
      }
    }
  }

  /** Appending, changing or removing an element the filter rejects does
      not change what the filter selects. */
  lemma WhereAppendOutside<T>(s: seq<T>, x: T, p: T -> bool)
    requires !p(x)
    ensures Where(s + [x], p) == Where(s, p)
  {
    WhereAppend(s, [x], p);
    assert Where([x], p) == [];
  }

  lemma WhereUpdateOutside<T>(s: seq<T>, k: nat, x: T, p: T -> bool)
    requires k < |s| && !p(s[k]) && !p(x)
    ensures Where(s[k := x], p) == Where(s, p)
  {
    var pre, post := s[..k], s[k + 1..];
    assert s == pre + [s[k]] + post;
    assert s[k := x] == pre + [x] + post;
    WhereAppend(pre + [s[k]], post, p);
    WhereAppend(pre, [s[k]], p);
    WhereAppend(pre + [x], post, p);
    WhereAppend(pre, [x], p);
    assert Where([s[k]], p) == [] && Where([x], p) == [];
  }

  lemma WhereRemoveOutside<T>(s: seq<T>, k: nat, p: T -> bool)
    requires k < |s| && !p(s[k])
    ensures Where(s[..k] + s[k + 1..], p) == Where(s, p)
  {
    var pre, rest := s[..k], s[k..];
    assert s == pre + rest;
    assert rest[0] == s[k] && rest[1..] == s[k + 1..];
    WhereAppend(pre, rest, p);
    WhereAppend(pre, s[k + 1..], p);
  }

  /** Every element a filter keeps is an element of the input. */
  lemma WhereElement<T>(s: seq<T>, p: T -> bool, i: nat)
    requires i < |Where(s, p)|
    ensures exists m :: 0 <= m < |s| && s[m] == Where(s, p)[i] && p(s[m])
  {
    assert Where(s, p)[i] in multiset(Where(s, p));
    assert Where(s, p)[i] in multiset(s);
  }

  /** A property of every element survives filtering. */
  lemma WhereKeeps<T>(s: seq<T>, p: T -> bool, q: T -> bool)
    requires forall i :: 0 <= i < |s| ==> q(s[i])
    ensures forall i :: 0 <= i < |Where(s, p)| ==> q(Where(s, p)[i])
  {
    forall i | 0 <= i < |Where(s, p)| ensures q(Where(s, p)[i]) {
      WhereElement(s, p, i);
    }
  }

  /** Filtering twice is filtering by the conjunction. */
  lemma {:induction false} WhereWhere<T>(s: seq<T>, p: T -> bool, q: T -> bool, r: T -> bool)
    requires forall x :: r(x) == (p(x) && q(x))
    ensures Where(Where(s, p), q) == Where(s, r)
    decreases |s|
  {
    if s != [] {
      WhereWhere(s[1..], p, q, r);
    }
  }

  /** A weaker filter keeps at least as many elements. */
  lemma {:induction false} CountMonotone<T>(s: seq<T>, p: T -> bool, q: T -> bool)
    requires forall x :: q(x) ==> p(x)
    ensures Count(s, q) <= Count(s, p)
    decreases |s|
  {
    if s != [] {
      CountMonotone(s[1..], p, q);
    }
  }

  /** Filters that agree on the elements of `s` select the same. */
  lemma {:induction false} WhereCongruent<T>(s: seq<T>, p: T -> bool, q: T -> bool)
    requires forall i :: 0 <= i < |s| ==> p(s[i]) == q(s[i])
    ensures Where(s, p) == Where(s, q)
    decreases |s|
  {
    if s != [] {
      WhereCongruent(s[1..], p, q);
    }
  }

  /** `FirstOrDefault(p)`, as the index of the first match. */
  function FirstIndex<T>(s: seq<T>, p: T -> bool): (r: Option<nat>)
    ensures r.Some? ==> r.value < |s| && p(s[r.value])
    ensures r.Some? ==> forall i :: 0 <= i < r.value ==> !p(s[i])
    ensures r.None? <==> !Any(s, p)
  {
    if s == [] then None
    else if p(s[0]) then Some(0)
    else match FirstIndex(s[1..], p)
      case None => None
      case Some(i) => Some(i + 1)
  }

  // ---------------------------------------------------------------------
  // Sums
  // ---------------------------------------------------------------------

  /** `Sum(f)` over exact decimals. */
  function Sum<T>(s: seq<T>, f: T -> real): real {
    if s == [] then 0.0 else f(s[0]) + Sum(s[1..], f)
  }

  lemma {:induction false} SumNonNegative<T>(s: seq<T>, f: T -> real)
    requires forall i :: 0 <= i < |s| ==> f(s[i]) >= 0.0
    ensures Sum(s, f) >= 0.0
    decreases |s|
  {
    if s != [] { SumNonNegative(s[1..], f); }
  }

  lemma {:induction false} SumAppend<T>(a: seq<T>, b: seq<T>, f: T -> real)
    ensures Sum(a + b, f) == Sum(a, f) + Sum(b, f)
    decreases |a|
  {
    if a == [] {
      assert a + b == b;
    } else {
      assert (a + b)[1..] == a[1..] + b;
      SumAppend(a[1..], b, f);
    }
  }

  /** Splitting a filter by a second condition splits the sum. */
  lemma {:induction false} SumSplit<T>(s: seq<T>, p: T -> bool, q: T -> bool,
                                       both: T -> bool, onlyP: T -> bool, f: T -> real)
    requires forall x :: both(x) == (p(x) && q(x))
    requires forall x :: onlyP(x) == (p(x) && !q(x))
    ensures Sum(Where(s, both), f) + Sum(Where(s, onlyP), f) == Sum(Where(s, p), f)
    decreases |s|
  {
    if s != [] {
      SumSplit(s[1..], p, q, both, onlyP, f);
    }
  }

  /** Elements the selector sends to zero do not change a sum. */
  lemma {:induction false} SumDropsZeros<T>(s: seq<T>, p: T -> bool, f: T -> real)
    requires forall i :: 0 <= i < |s| ==> !p(s[i]) ==> f(s[i]) == 0.0
    ensures Sum(Where(s, p), f) == Sum(s, f)
    decreases |s|
  {
    if s != [] { SumDropsZeros(s[1..], p, f); }
  }

  // ---------------------------------------------------------------------
  // Ordering
  // ---------------------------------------------------------------------

  predicate SortedDesc<T>(s: seq<T>, key: T -> int) {
    forall i, j :: 0 <= i < j < |s| ==> key(s[i]) >= key(s[j])
  }

  /** Putting an element with the greatest key in front keeps the order. */
  lemma ConsSortedDesc<T>(y: T, s: seq<T>, key: T -> int)
    requires SortedDesc(s, key) && (s == [] || key(y) >= key(s[0]))
    ensures SortedDesc([y] + s, key)
  {
    var r := [y] + s;
    forall i, j | 0 <= i < j < |r| ensures key(r[i]) >= key(r[j]) {
      if i == 0 && j > 1 { assert key(s[0]) >= key(s[j - 1]); }
    }
  }

  function InsertDesc<T>(x: T, s: seq<T>, key: T -> int): (r: seq<T>)
    requires SortedDesc(s, key)
    ensures SortedDesc(r, key)
    ensures multiset(r) == multiset(s) + multiset{x}
    ensures |r| == |s| + 1
    ensures r[0] == x || (s != [] && r[0] == s[0])
  {
    if s == [] then [x]
    else if key(x) >= key(s[0]) then
      ConsSortedDesc(x, s, key);
      [x] + s
    else
      var rest := InsertDesc(x, s[1..], key);
      InsertBelowHead(x, s, key, rest);
      [s[0]] + rest
  }

  /** The recursive step of `InsertDesc`: `x` went into the tail. */
  lemma InsertBelowHead<T>(x: T, s: seq<T>, key: T -> int, rest: seq<T>)
    requires s != [] && SortedDesc(s, key) && key(x) < key(s[0])
    requires SortedDesc(rest, key) && multiset(rest) == multiset(s[1..]) + multiset{x}
    requires |rest| == |s| && (rest[0] == x || (s[1..] != [] && rest[0] == s[1..][0]))
    ensures SortedDesc([s[0]] + rest, key)
    ensures multiset([s[0]] + rest) == multiset(s) + multiset{x}
  {
    assert s == [s[0]] + s[1..];
    assert key(s[0]) >= key(rest[0]);
    ConsSortedDesc(s[0], rest, key);
  }

  /** `OrderByDescending(key)`.  The order among equal keys is left
      unspecified, as an SQL `ORDER BY` leaves it. */
  function OrderByDescending<T>(s: seq<T>, key: T -> int): (r: seq<T>)
    ensures SortedDesc(r, key)
    ensures multiset(r) == multiset(s)
    ensures |r| == |s|
  {
    if s == [] then []
    else
      assert s == [s[0]] + s[1..];
      InsertDesc(s[0], OrderByDescending(s[1..], key), key)
  }

  predicate SortedAsc<T>(s: seq<T>, key: T -> string) {
    forall i, j :: 0 <= i < j < |s| ==> LexLessEq(key(s[i]), key(s[j]))
  }

  function InsertAsc<T>(x: T, s: seq<T>, key: T -> string): (r: seq<T>)
    requires SortedAsc(s, key)
    ensures SortedAsc(r, key)
    ensures multiset(r) == multiset(s) + multiset{x}
    ensures |r| == |s| + 1
    ensures r[0] == x || (s != [] && r[0] == s[0])
  {
    if s == [] then [x]
    else if LexLessEq(key(x), key(s[0])) then
      assert forall k :: 0 <= k < |s| ==> LexLessEq(key(x), key(s[k])) by {
        forall k | 0 <= k < |s| ensures LexLessEq(key(x), key(s[k])) {
          LexLessEqTransitive(key(x), key(s[0]), key(s[k]));
        }
      }
      [x] + s
    else
      var rest := InsertAsc(x, s[1..], key);
      assert s == [s[0]] + s[1..];
      LexLessTotal(key(x), key(s[0]));
      assert LexLessEq(key(s[0]), key(rest[0]));
      assert forall k :: 0 <= k < |rest| ==> LexLessEq(key(s[0]), key(rest[k])) by {
        forall k | 0 <= k < |rest| ensures LexLessEq(key(s[0]), key(rest[k])) {
          if k > 0 {
            LexLessEqTransitive(key(s[0]), key(rest[0]), key(rest[k]));
          }
        }
      }
      [s[0]] + rest
  }

  /** `OrderBy(key)` on a string key, by ordinal comparison. */
  function OrderBy<T>(s: seq<T>, key: T -> string): (r: seq<T>)
    ensures SortedAsc(r, key)
    ensures multiset(r) == multiset(s)
    ensures |r| == |s|
  {
    if s == [] then []
    else
      assert s == [s[0]] + s[1..];
      InsertAsc(s[0], OrderBy(s[1..], key), key)
  }

  /** `Take(n)`. */
  function Take<T>(s: seq<T>, n: nat): (r: seq<T>)
    ensures |r| <= n && |r| <= |s|
    ensures |s| <= n ==> r == s
    ensures |s| > n ==> |r| == n
    ensures forall i :: 0 <= i < |r| ==> r[i] == s[i]
  {
    if |s| <= n then s else s[..n]
  }

  lemma TakeSubMultiset<T>(s: seq<T>, n: nat)
    ensures multiset(Take(s, n)) <= multiset(s)
  {
    assert s == Take(s, n) + s[|Take(s, n)|..];
  }

  lemma TakeSortedDesc<T>(s: seq<T>, n: nat, key: T -> int)
    requires SortedDesc(s, key)
    ensures SortedDesc(Take(s, n), key)
  {}

  /** An element of a sequence is kept by `Where` and stays in any
      permutation of the result. */
  lemma InPermutedWhere<T>(s: seq<T>, p: T -> bool, sorted: seq<T>, i: nat)
    requires i < |s| && p(s[i]) && multiset(sorted) == multiset(Where(s, p))
    ensures exists j :: 0 <= j < |sorted| && sorted[j] == s[i]
  {
    assert s[i] in Where(s, p);
    assert s[i] in multiset(sorted);
  }

  /** An element of a permutation of `Where(s, p)` satisfies `p`. */
  lemma PermutedWhereSatisfies<T>(s: seq<T>, p: T -> bool, sorted: seq<T>, j: nat)
    requires j < |sorted| && multiset(sorted) == multiset(Where(s, p))
    ensures p(sorted[j])
  {
    var w := Where(s, p);
    assert sorted[j] in multiset(w);
    var m :| 0 <= m < |w| && w[m] == sorted[j];
  }

  /** `Where(p).OrderByDescending(key).Take(n)`: at most `n` elements, all
      satisfying `p`, newest first, and no selected element left out is
      ranked above one that was kept. */
  function TopN<T>(s: seq<T>, p: T -> bool, key: T -> int, n: nat): (r: seq<T>)
    ensures |r| <= n
    ensures |Where(s, p)| >= n ==> |r| == n
    ensures SortedDesc(r, key)
    ensures forall i :: 0 <= i < |r| ==> p(r[i])
    ensures multiset(r) <= multiset(s)
    ensures forall i :: 0 <= i < |s| && p(s[i]) && s[i] !in r ==>
              |r| == n && forall k :: 0 <= k < |r| ==> key(r[k]) >= key(s[i])
  {
    var sorted := OrderByDescending(Where(s, p), key);
    var r := Take(sorted, n);
    TakeSubMultiset(sorted, n);
    TakeSortedDesc(sorted, n, key);
    TakeSatisfies(s, p, sorted, n, r);
    TakeDominates(s, p, sorted, key, n, r);
    r
  }

  lemma TakeSatisfies<T>(s: seq<T>, p: T -> bool, sorted: seq<T>, n: nat, r: seq<T>)
    requires multiset(sorted) == multiset(Where(s, p)) && r == Take(sorted, n)
    ensures forall i :: 0 <= i < |r| ==> p(r[i])
  {
    forall i | 0 <= i < |r| ensures p(r[i]) {
      PermutedWhereSatisfies(s, p, sorted, i);
    }
  }

  /** What the first `n` of a descending order leave out is no larger
      than anything they keep. */
  lemma TakeDominates<T>(s: seq<T>, p: T -> bool, sorted: seq<T>, key: T -> int, n: nat, r: seq<T>)
    requires multiset(sorted) == multiset(Where(s, p)) && SortedDesc(sorted, key)
    requires r == Take(sorted, n)
    ensures forall i :: 0 <= i < |s| && p(s[i]) && s[i] !in r ==>
              |r| == n && forall k :: 0 <= k < |r| ==> key(r[k]) >= key(s[i])
  {
    forall i | 0 <= i < |s| && p(s[i]) && s[i] !in r
      ensures |r| == n && forall k :: 0 <= k < |r| ==> key(r[k]) >= key(s[i])
    {
      InPermutedWhere(s, p, sorted, i);
      var j :| 0 <= j < |sorted| && sorted[j] == s[i];
      assert j >= |r|;
      assert |sorted| > n;
      forall k | 0 <= k < |r| ensures key(r[k]) >= key(s[i]) {
        assert r[k] == sorted[k] && k < j;
      }
    }
  }

  /** `Select(f)`. */
  function Select<T, U>(s: seq<T>, f: T -> U): (r: seq<U>)
    ensures |r| == |s|
    ensures forall i :: 0 <= i < |s| ==> r[i] == f(s[i])
  {
    seq(|s|, i requires 0 <= i < |s| => f(s[i]))
  }
}
