/** Generic sequence queries: the filter, count, first-match and sum shapes that
    the routers' `query(...).filter(...)` chains and the pages' `filter`/`find` calls use. */
module Seqs {
  import opened Wrappers

  /** `r` keeps the elements of `s`, in order (greedy match). */
  predicate IsSubsequence<T(==)>(r: seq<T>, s: seq<T>)
    decreases |s|
  {
    if r == [] then true
    else if s == [] then false
    else if r[0] == s[0] then IsSubsequence(r[1..], s[1..])
    else IsSubsequence(r, s[1..])
  }

  /** The elements of `s` that satisfy `p`, in their original order. */
  function Filter<T(==)>(s: seq<T>, p: T -> bool): (r: seq<T>)
    ensures |r| <= |s|
    ensures forall i :: 0 <= i < |r| ==> p(r[i])
  {
    if s == [] then []
    else if p(s[0]) then [s[0]] + Filter(s[1..], p)
    else Filter(s[1..], p)
  }

  /** The filter keeps exactly the elements satisfying `p`, in their order. */
  lemma {:induction false} FilterMembers<T>(s: seq<T>, p: T -> bool)
    ensures forall i :: 0 <= i < |Filter(s, p)| ==> Filter(s, p)[i] in s
    ensures forall i :: 0 <= i < |s| && p(s[i]) ==> s[i] in Filter(s, p)
    ensures IsSubsequence(Filter(s, p), s)
  {
    if s != [] {
      FilterMembers(s[1..], p);
      var r := Filter(s, p);
      var rest := Filter(s[1..], p);
      forall i | 0 <= i < |s| && p(s[i]) ensures s[i] in r {
        if i > 0 { assert s[i] == s[1..][i - 1]; }
      }
      if p(s[0]) {
        assert r[1..] == rest;
      }
    }
  }

  /** Number of elements of `s` satisfying `p` (SQL `count()` over a filtered table). */
  function Count<T(==)>(s: seq<T>, p: T -> bool): (n: nat)
    ensures n <= |s|
  {
    |Filter(s, p)|
  }

  lemma {:induction false} FilterAppend<T>(s: seq<T>, t: seq<T>, p: T -> bool)
    ensures Filter(s + t, p) == Filter(s, p) + Filter(t, p)
  {
    if s == [] {
      assert s + t == t;
    } else {
      assert (s + t)[0] == s[0];
      assert (s + t)[1..] == s[1..] + t;
      FilterAppend(s[1..], t, p);
    }
  }

  lemma {:induction false} FilterAll<T>(s: seq<T>, p: T -> bool)
    requires forall i :: 0 <= i < |s| ==> p(s[i])
    ensures Filter(s, p) == s
  {
    if s != [] {
      FilterAll(s[1..], p);
    }
  }

  /** Dropping the one element that fails `p` is filtering by `p`. */
  lemma {:induction false} FilterDropsOne<T>(s: seq<T>, k: nat, p: T -> bool)
    requires k < |s| && !p(s[k])
    requires forall j :: 0 <= j < |s| && j != k ==> p(s[j])
    ensures Filter(s, p) == s[..k] + s[k + 1..]
  {
    if k == 0 {
      FilterAll(s[1..], p);
    } else {
      FilterDropsOne(s[1..], k - 1, p);
      assert s[1..][..k - 1] + s[1..][k..] == s[1..k] + s[k + 1..];
      assert s[..k] + s[k + 1..] == [s[0]] + (s[1..k] + s[k + 1..]);
    }
  }

  lemma {:induction false} FilterNone<T>(s: seq<T>, p: T -> bool)
    requires forall i :: 0 <= i < |s| ==> !p(s[i])
    ensures Filter(s, p) == []
  {
    if s != [] {
      FilterNone(s[1..], p);
    }
  }

  function Indicator(b: bool): nat
  {
    if b then 1 else 0
  }

  lemma CountSingleton<T>(x: T, p: T -> bool)
    ensures Count([x], p) == Indicator(p(x))
  {
    assert [x][1..] == [];
  }

  lemma CountAppend<T>(s: seq<T>, t: seq<T>, p: T -> bool)
    ensures Count(s + t, p) == Count(s, p) + Count(t, p)
  {
    FilterAppend(s, t, p);
  }

  /** Replacing one element changes the count by at most the two indicators. */
  lemma CountUpdate<T>(s: seq<T>, i: nat, x: T, p: T -> bool)
    requires i < |s|
    ensures Count(s[i := x], p) == Count(s, p) - Indicator(p(s[i])) + Indicator(p(x))
  {
    var pre, post := s[..i], s[i + 1..];
    assert s == pre + [s[i]] + post;
    assert s[i := x] == pre + [x] + post;
    CountAppend(pre + [s[i]], post, p);
    CountAppend(pre, [s[i]], p);
    CountAppend(pre + [x], post, p);
    CountAppend(pre, [x], p);
    CountSingleton(s[i], p);
    CountSingleton(x, p);
  }

  /** Index of the first element satisfying `p` (SQL `.first()`, JS `findIndex`). */
  function FirstIndex<T>(s: seq<T>, p: T -> bool): (r: Option<nat>)
    ensures r.Some? ==> r.value < |s| && p(s[r.value])
    ensures r.Some? ==> forall j :: 0 <= j < r.value ==> !p(s[j])
    ensures r.None? ==> forall j :: 0 <= j < |s| ==> !p(s[j])
    decreases |s|
  {
    if s == [] then None
    else if p(s[0]) then Some(0)
    else
      match FirstIndex(s[1..], p)
      case None => None
      case Some(k) => Some(k + 1)
  }

  /** The first element satisfying `p`, if any. */
  function First<T>(s: seq<T>, p: T -> bool): (r: Option<T>)
    ensures r.Some? <==> exists i :: 0 <= i < |s| && p(s[i])
    ensures r.Some? ==> p(r.value) && r.value in s
  {
    match FirstIndex(s, p)
    case None => None
    case Some(i) => Some(s[i])
  }

  /** The smaller of two integers. */
  function Min(a: int, b: int): (m: int)
    ensures m <= a && m <= b && (m == a || m == b)
  {
    if a <= b then a else b
  }

  /** The characterisation in FirstIndex's contract determines its value. */
  lemma FirstIndexIs<T>(s: seq<T>, p: T -> bool, i: nat)
    requires i < |s| && p(s[i])
    requires forall j :: 0 <= j < i ==> !p(s[j])
    ensures FirstIndex(s, p) == Some(i)
  {
  }

  /** Sum of an integer-valued measure over a sequence (SQL `sum`, Python `sum`). */
  function Sum<T>(s: seq<T>, f: T -> int): int
  {
    if s == [] then 0 else f(s[0]) + Sum(s[1..], f)
  }

  lemma {:induction false} SumAppend<T>(s: seq<T>, t: seq<T>, f: T -> int)
    ensures Sum(s + t, f) == Sum(s, f) + Sum(t, f)
  {
    if s == [] {
      assert s + t == t;
    } else {
      assert (s + t)[0] == s[0];
      assert (s + t)[1..] == s[1..] + t;
      SumAppend(s[1..], t, f);
    }
  }

  lemma SumUpdate<T>(s: seq<T>, i: nat, x: T, f: T -> int)
    requires i < |s|
    ensures Sum(s[i := x], f) == Sum(s, f) - f(s[i]) + f(x)
  {
    var pre, post := s[..i], s[i + 1..];
    assert s == pre + [s[i]] + post;
    assert s[i := x] == pre + [x] + post;
    SumAppend(pre + [s[i]], post, f);
    SumAppend(pre, [s[i]], f);
    SumAppend(pre + [x], post, f);
    SumAppend(pre, [x], f);
    assert Sum([s[i]], f) == f(s[i]) by { assert [s[i]][1..] == []; }
    assert Sum([x], f) == f(x) by { assert [x][1..] == []; }
  }

  /** The same measure summed over sequences that agree pointwise. */
  lemma {:induction false} SumPointwise<T>(s: seq<T>, f: T -> int, g: T -> int)
    requires forall i :: 0 <= i < |s| ==> f(s[i]) == g(s[i])
    ensures Sum(s, f) == Sum(s, g)
  {
    if s != [] {
      SumPointwise(s[1..], f, g);
    }
  }

  /** A measure within [lo, hi] everywhere sums to within [lo*|s|, hi*|s|]. */
  lemma {:induction false} SumBounds<T>(s: seq<T>, f: T -> int, lo: int, hi: int)
    requires forall i :: 0 <= i < |s| ==> lo <= f(s[i]) <= hi
    ensures lo * |s| <= Sum(s, f) <= hi * |s|
  {
    if s != [] {
      SumBounds(s[1..], f, lo, hi);
    }
  }

  /** No two elements of `s` share a key. */
  predicate DistinctBy<T, K(==)>(s: seq<T>, key: T -> K)
  {
    forall i, j :: 0 <= i < j < |s| ==> key(s[i]) != key(s[j])
  }

  /** The set of natural keys that occur in `s`. */
  function KeySet<T>(s: seq<T>, key: T -> nat): (r: set<nat>)
    ensures forall i :: 0 <= i < |s| ==> key(s[i]) in r
    ensures forall x :: x in r ==> exists i :: 0 <= i < |s| && key(s[i]) == x
    ensures |r| <= |s|
  {
    if s == [] then {} else {key(s[0])} + KeySet(s[1..], key)
  }

  /** A subset is no larger than its superset. */
  lemma {:induction false} SubsetCardinality(a: set<nat>, b: set<nat>)
    requires a <= b
    ensures |a| <= |b|
    decreases |a|
  {
    if a != {} {
      var x :| x in a;
      SubsetCardinality(a - {x}, b - {x});
    }
  }

  /** With distinct keys, there are exactly as many keys as elements. */
  lemma {:induction false} KeySetOfDistinct<T>(s: seq<T>, key: T -> nat)
    requires DistinctBy(s, key)
    ensures |KeySet(s, key)| == |s|
  {
    if s != [] {
      var rest := s[1..];
      assert DistinctBy(rest, key) by {
        forall i, j | 0 <= i < j < |rest| ensures key(rest[i]) != key(rest[j]) {
          assert rest[i] == s[i + 1] && rest[j] == s[j + 1];
        }
      }
      KeySetOfDistinct(rest, key);
      assert forall i :: 0 <= i < |rest| ==> key(rest[i]) != key(s[0]) by {
        forall i | 0 <= i < |rest| ensures key(rest[i]) != key(s[0]) {
          assert rest[i] == s[i + 1];
        }
      }
    }
  }

  /** With distinct keys, equal keys mean the same position. */
  lemma DistinctKeyIndex<T, K>(s: seq<T>, key: T -> K, i: nat, j: nat)
    requires DistinctBy(s, key) && i < |s| && j < |s| && key(s[i]) == key(s[j])
    ensures i == j
  {
  }

  /** Filtering keeps keys distinct. */
  lemma {:induction false} FilterDistinct<T, K>(s: seq<T>, p: T -> bool, key: T -> K)
    requires DistinctBy(s, key)
    ensures DistinctBy(Filter(s, p), key)
  {
    if s != [] {
      var rest := s[1..];
      DistinctByTail(s, key);
      FilterDistinct(rest, p, key);
      if p(s[0]) {
        var fr := Filter(rest, p);
        FilterMembers(rest, p);
        assert Filter(s, p) == [s[0]] + fr;
        DistinctByCons(s[0], fr, key);
      } else {
        assert Filter(s, p) == Filter(rest, p);
      }
    }
  }

  /** The tail of a key-distinct sequence is key-distinct, and its keys all
      differ from the head's. */
  lemma DistinctByTail<T, K>(s: seq<T>, key: T -> K)
    requires s != [] && DistinctBy(s, key)
    ensures DistinctBy(s[1..], key)
    ensures forall x :: x in s[1..] ==> key(x) != key(s[0])
  {
    var rest := s[1..];
    forall i, j | 0 <= i < j < |rest| ensures key(rest[i]) != key(rest[j]) {
      assert rest[i] == s[i + 1] && rest[j] == s[j + 1];
    }
    forall x | x in rest ensures key(x) != key(s[0]) {
      var k :| 0 <= k < |rest| && rest[k] == x;
      assert rest[k] == s[k + 1];
    }
  }

  /** Prefixing an element whose key is new keeps a sequence key-distinct. */
  lemma DistinctByCons<T, K>(x: T, t: seq<T>, key: T -> K)
    requires DistinctBy(t, key)
    requires forall i :: 0 <= i < |t| ==> key(t[i]) != key(x)
    ensures DistinctBy([x] + t, key)
  {
    var r := [x] + t;
    forall i, j | 0 <= i < j < |r| ensures key(r[i]) != key(r[j]) {
      assert r[j] == t[j - 1];
      if i > 0 {
        assert r[i] == t[i - 1];
      }
    }
  }

  /** Replacing an element by one the predicate judges alike keeps the first match. */
  lemma FirstIndexUpdate<T>(s: seq<T>, i: nat, x: T, p: T -> bool)
    requires i < |s| && p(x) == p(s[i])
    ensures FirstIndex(s[i := x], p) == FirstIndex(s, p)
  {
    var t := s[i := x];
    assert forall j :: 0 <= j < |s| ==> p(t[j]) == p(s[j]);
    var k := FirstIndex(s, p);
    if k.Some? {
      FirstIndexIs(t, p, k.value);
    }
  }

  /** Appending to a sequence leaves an existing first match in place, and
      otherwise makes a matching new element the first match. */
  lemma FirstIndexAppend<T>(s: seq<T>, x: T, p: T -> bool)
    ensures FirstIndex(s, p).Some? ==> FirstIndex(s + [x], p) == FirstIndex(s, p)
    ensures FirstIndex(s, p).None? && p(x) ==> FirstIndex(s + [x], p) == Some(|s|)
    ensures FirstIndex(s, p).None? && !p(x) ==> FirstIndex(s + [x], p) == None
  {
    var t := s + [x];
    assert forall j :: 0 <= j < |s| ==> t[j] == s[j];
    var k := FirstIndex(s, p);
    if k.Some? {
      FirstIndexIs(t, p, k.value);
    } else if p(x) {
      FirstIndexIs(t, p, |s|);
    }
  }

  /** With distinct keys, at most one element has a given key. */
  lemma CountAtMostOneByKey<T, K>(s: seq<T>, key: T -> K, p: T -> bool, k: K)
    requires DistinctBy(s, key)
    requires forall x :: p(x) <==> key(x) == k
    ensures Count(s, p) <= 1
  {
    var f := Filter(s, p);
    FilterDistinct(s, p, key);
    if |f| >= 2 {
      KeyOfMatch(key, p, k, f[0]);
      KeyOfMatch(key, p, k, f[1]);
      assert false;
    }
  }

  lemma KeyOfMatch<T, K>(key: T -> K, p: T -> bool, k: K, x: T)
    requires forall y :: p(y) <==> key(y) == k
    requires p(x)
    ensures key(x) == k
  {
  }

  /** Two disjoint sub-conditions of `r` count no more than `r` does. */
  lemma {:induction false} CountDisjoint<T>(s: seq<T>, p: T -> bool, q: T -> bool, r: T -> bool)
    requires forall i :: 0 <= i < |s| ==> (p(s[i]) ==> r(s[i])) && (q(s[i]) ==> r(s[i]))
    requires forall i :: 0 <= i < |s| ==> !(p(s[i]) && q(s[i]))
    ensures Count(s, p) + Count(s, q) <= Count(s, r)
  {
    if s != [] {
      assert forall i :: 0 <= i < |s[1..]| ==> s[1..][i] == s[i + 1];
      CountDisjoint(s[1..], p, q, r);
    }
  }

  /** Extending a prefix by one element extends its filter by at most that element. */
  lemma FilterSnoc<T>(s: seq<T>, i: nat, p: T -> bool)
    requires i < |s|
    ensures Filter(s[..i + 1], p) == Filter(s[..i], p) + (if p(s[i]) then [s[i]] else [])
  {
    assert s[..i + 1] == s[..i] + [s[i]];
    FilterAppend(s[..i], [s[i]], p);
    assert [s[i]][1..] == [];
  }

  /** A condition implied by another is met at least as often. */
  lemma {:induction false} CountMono<T>(s: seq<T>, p: T -> bool, q: T -> bool)
    requires forall i :: 0 <= i < |s| ==> p(s[i]) ==> q(s[i])
    ensures Count(s, p) <= Count(s, q)
  {
    if s != [] {
      assert forall i :: 0 <= i < |s[1..]| ==> s[1..][i] == s[i + 1];
      CountMono(s[1..], p, q);
    }
  }

  /** Two predicates that agree on every element filter alike. */
  lemma {:induction false} FilterSame<T>(s: seq<T>, p: T -> bool, q: T -> bool)
    requires forall x :: x in s ==> p(x) == q(x)
    ensures Filter(s, p) == Filter(s, q)
  {
    if s != [] {
      FilterSame(s[1..], p, q);
    }
  }

  /** What is kept from the tail is kept from the whole. */
  lemma {:induction false} SubsequenceExtend<T>(r: seq<T>, s: seq<T>)
    requires s != [] && IsSubsequence(r, s[1..])
    ensures IsSubsequence(r, s)
    decreases |s|, 0
  {
    if r != [] && r[0] == s[0] {
      SubsequenceDropHead(r, s[1..]);
    }
  }

  /** Dropping the first kept element keeps a subsequence. */
  lemma {:induction false} SubsequenceDropHead<T>(r: seq<T>, s: seq<T>)
    requires r != [] && IsSubsequence(r, s)
    ensures IsSubsequence(r[1..], s)
    decreases |s|, 1
  {
    if r[0] == s[0] {
      if r[1..] != [] {
        SubsequenceExtend(r[1..], s);
      }
    } else {
      SubsequenceDropHead(r, s[1..]);
      SubsequenceExtend(r[1..], s);
    }
  }

  lemma {:induction false} SubsequenceRefl<T>(s: seq<T>)
    ensures IsSubsequence(s, s)
  {
    if s != [] {
      SubsequenceRefl(s[1..]);
    }
  }

  lemma {:induction false} SubsequenceTrans<T>(a: seq<T>, b: seq<T>, c: seq<T>)
    requires IsSubsequence(a, b) && IsSubsequence(b, c)
    ensures IsSubsequence(a, c)
    decreases |c|
  {
    if a != [] && c != [] {
      if b[0] == c[0] {
        if a[0] == b[0] {
          SubsequenceTrans(a[1..], b[1..], c[1..]);
        } else {
          SubsequenceTrans(a, b[1..], c[1..]);
          SubsequenceExtend(a, c);
        }
      } else {
        SubsequenceTrans(a, b, c[1..]);
        SubsequenceExtend(a, c);
      }
    }
  }

  /** Every element either satisfies `p` or does not. */
  lemma {:induction false} CountComplement<T>(s: seq<T>, p: T -> bool, q: T -> bool)
    requires forall i :: 0 <= i < |s| ==> q(s[i]) == !p(s[i])
    ensures Count(s, p) + Count(s, q) == |s|
  {
    if s != [] {
      assert forall i :: 0 <= i < |s[1..]| ==> s[1..][i] == s[i + 1];
      CountComplement(s[1..], p, q);
    }
  }
}
