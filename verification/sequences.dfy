/** The collection operations the Swift code chains together: iterating a
    Set or Dictionary, compactMap, filter, first(where:) and sorted(). */
module Sequences {
  import opened Wrappers
  import opened Strings

  predicate Distinct<T(==)>(xs: seq<T>) {
    forall i, j :: 0 <= i < j < |xs| ==> xs[i] != xs[j]
  }

  /** The elements of a Swift Set in iteration order. That order is
      unspecified; the model fixes one arbitrary enumeration. */
  ghost function Elements<T(!new)>(s: set<T>): (r: seq<T>)
    ensures |r| == |s| && Distinct(r)
    ensures forall x :: x in r <==> x in s
  {
    if s == {} then []
    else
      var x :| x in s;
      [x] + Elements(s - {x})
  }

  /** The values of a Swift Dictionary in iteration order, one per key. */
  ghost function ValuesOf<K(!new), V(!new)>(m: map<K, V>): (r: seq<V>)
    ensures |r| == |m|
    ensures forall v :: v in r <==> v in m.Values
  {
    var ks := Elements(m.Keys);
    var r := seq(|ks|, i requires 0 <= i < |ks| => m[ks[i]]);
    assert forall v :: v in m.Values ==> v in r by {
      forall v | v in m.Values ensures v in r {
        var k :| k in m && m[k] == v;
        var i :| 0 <= i < |ks| && ks[i] == k;
        assert r[i] == v;
      }
    }
    r
  }

  /** Swift's compactMap: apply f and keep the present results, in order. */
  function CompactMap<A(!new), B(!new)>(xs: seq<A>, f: A -> Option<B>): (r: seq<B>)
    ensures |r| <= |xs|
    ensures forall y :: y in r <==> exists x :: x in xs && f(x) == Some(y)
  {
    if xs == [] then []
    else
      var rest := CompactMap(xs[1..], f);
      assert forall x :: x in xs ==> x == xs[0] || x in xs[1..];
      match f(xs[0])
      case Some(y) => [y] + rest
      case None => rest
  }

  /** On an enumeration without repeats, compactMap yields one entry per
      element for which f is present. */
  lemma {:induction false} CompactMapLength<A(!new), B(!new)>(xs: seq<A>, f: A -> Option<B>)
    requires Distinct(xs)
    ensures |CompactMap(xs, f)| == |set x | x in xs && f(x).Some?|
  {
    if xs != [] {
      CompactMapLength(xs[1..], f);
      var rest := set x | x in xs[1..] && f(x).Some?;
      var all := set x | x in xs && f(x).Some?;
      assert xs[0] !in xs[1..];
      if f(xs[0]).Some? {
        assert all == rest + {xs[0]};
      } else {
        assert all == rest;
      }
    }
  }

  /** Swift's map. */
  function Map<A(!new), B(!new)>(xs: seq<A>, f: A -> B): (r: seq<B>)
    ensures |r| == |xs| && forall i :: 0 <= i < |xs| ==> r[i] == f(xs[i])
    ensures forall y :: y in r <==> exists x :: x in xs && y == f(x)
  {
    if xs == [] then []
    else
      assert forall x :: x in xs ==> x == xs[0] || x in xs[1..];
      [f(xs[0])] + Map(xs[1..], f)
  }

  /** compactMap over the enumeration of a set yields one entry per element
      for which f is present. */
  lemma CompactMapCount<A(!new), B(!new)>(s: set<A>, f: A -> Option<B>, present: set<A>)
    requires forall x :: x in present <==> x in s && f(x).Some?
    ensures |CompactMap(Elements(s), f)| == |present|
  {
    var es := Elements(s);
    CompactMapLength(es, f);
    assert (set x | x in es && f(x).Some?) == present;
  }

  /** Swift's filter: the elements satisfying p, in order, each as often as in xs. */
  function Filter<T(!new)>(xs: seq<T>, p: T -> bool): (r: seq<T>)
    ensures forall x :: multiset(r)[x] == if p(x) then multiset(xs)[x] else 0
    ensures forall x :: x in r <==> x in xs && p(x)
  {
    if xs == [] then []
    else
      var rest := Filter(xs[1..], p);
      assert xs == [xs[0]] + xs[1..];
      if p(xs[0]) then [xs[0]] + rest else rest
  }

  /** Filtering a concatenation filters each part. */
  lemma {:induction false} FilterAppend<T(!new)>(a: seq<T>, b: seq<T>, p: T -> bool)
    ensures Filter(a + b, p) == Filter(a, p) + Filter(b, p)
  {
    if a == [] {
      assert a + b == b;
    } else {
      assert (a + b)[0] == a[0] && (a + b)[1..] == a[1..] + b;
      FilterAppend(a[1..], b, p);
    }
  }

  /** Swift's first(where:). */
  function First<T>(xs: seq<T>, p: T -> bool): (r: Option<T>)
    ensures r.Some? ==> r.value in xs && p(r.value)
    ensures r.None? <==> forall x :: x in xs ==> !p(x)
    ensures r.Some? ==> exists i :: 0 <= i < |xs| && xs[i] == r.value && forall j :: 0 <= j < i ==> !p(xs[j])
  {
    if xs == [] then None
    else if p(xs[0]) then Some(xs[0])
    else
      var r := First(xs[1..], p);
      assert forall x :: x in xs ==> x == xs[0] || x in xs[1..];
      assert r.Some? ==> exists i :: 0 <= i < |xs| && xs[i] == r.value && forall j :: 0 <= j < i ==> !p(xs[j]) by {
        if r.Some? {
          var i :| 0 <= i < |xs[1..]| && xs[1..][i] == r.value && forall j :: 0 <= j < i ==> !p(xs[1..][j]);
          assert xs[i + 1] == r.value && forall j :: 0 <= j < i + 1 ==> !p(xs[j]);
        }
      }
      r
  }

  /** xs is in ascending order of key. */
  predicate SortedBy<T>(xs: seq<T>, key: T -> string) {
    forall i, j :: 0 <= i < j < |xs| ==> LexLe(key(xs[i]), key(xs[j]))
  }

  /** x inserted into a sorted sequence before the first element whose key is not smaller. */
  function Insert<T>(x: T, xs: seq<T>, key: T -> string): (r: seq<T>)
    requires SortedBy(xs, key)
    ensures SortedBy(r, key)
    ensures multiset(r) == multiset(xs) + multiset{x}
  {
    if xs == [] then [x]
    else if LexLe(key(x), key(xs[0])) then
      SortedBefore(x, xs, key);
      [x] + xs
    else
      var rest := Insert(x, xs[1..], key);
      LexLeTotal(key(x), key(xs[0]));
      SortedAfterHead(xs, x, rest, key);
      assert xs == [xs[0]] + xs[1..];
      [xs[0]] + rest
  }

  /** An element no greater than the head of a sorted sequence can precede it. */
  lemma SortedBefore<T>(x: T, xs: seq<T>, key: T -> string)
    requires SortedBy(xs, key) && xs != [] && LexLe(key(x), key(xs[0]))
    ensures SortedBy([x] + xs, key)
  {
    forall j | 0 <= j < |xs| ensures LexLe(key(x), key(xs[j])) {
      if j > 0 { LexLeTransitive(key(x), key(xs[0]), key(xs[j])); }
    }
  }

  /** The head of a sorted sequence can precede a sorted rearrangement of its
      tail with one element no smaller than the head added. */
  lemma SortedAfterHead<T>(xs: seq<T>, x: T, rest: seq<T>, key: T -> string)
    requires SortedBy(xs, key) && xs != [] && LexLe(key(xs[0]), key(x))
    requires SortedBy(rest, key) && multiset(rest) == multiset(xs[1..]) + multiset{x}
    ensures SortedBy([xs[0]] + rest, key)
  {
    forall j | 0 <= j < |rest| ensures LexLe(key(xs[0]), key(rest[j])) {
      assert rest[j] in multiset(rest);
      assert rest[j] == x || rest[j] in xs[1..];
    }
  }

  /** Swift's sorted() on values ordered by key. Which of two elements with
      the same key comes first is not specified by Swift; this sort keeps one. */
  function SortBy<T>(xs: seq<T>, key: T -> string): (r: seq<T>)
    ensures SortedBy(r, key)
    ensures multiset(r) == multiset(xs)
  {
    if xs == [] then []
    else
      assert xs == [xs[0]] + xs[1..];
      Insert(xs[0], SortBy(xs[1..], key), key)
  }

  /** A rearrangement has the same length and the same members. */
  lemma PermutationMembers<T>(a: seq<T>, b: seq<T>)
    requires multiset(a) == multiset(b)
    ensures |a| == |b|
    ensures forall x :: x in a <==> x in b
  {
    assert |multiset(a)| == |multiset(b)|;
    forall x ensures x in a <==> x in b {
      assert x in a <==> x in multiset(a);
      assert x in b <==> x in multiset(b);
    }
  }

  /** The head of a sorted sequence has the least key. */
  lemma SortedHeadLeast<T>(a: seq<T>, key: T -> string, x: T)
    requires SortedBy(a, key) && x in a
    ensures LexLe(key(a[0]), key(x))
  {
    var i :| 0 <= i < |a| && a[i] == x;
    if i == 0 { LexLeTotal(key(x), key(x)); }
  }

  /** No two different elements of xs share a key. */
  predicate KeysDistinct<T(==)>(xs: seq<T>, key: T -> string) {
    forall i, j :: 0 <= i < |xs| && 0 <= j < |xs| && key(xs[i]) == key(xs[j]) ==> xs[i] == xs[j]
  }

  lemma ConsCancel<T>(x: T, a: seq<T>, b: seq<T>)
    requires multiset([x] + a) == multiset([x] + b)
    ensures multiset(a) == multiset(b)
  {
    assert multiset([x] + a) == multiset{x} + multiset(a);
    assert multiset([x] + b) == multiset{x} + multiset(b);
    forall y ensures multiset(a)[y] == multiset(b)[y] {
      assert multiset([x] + a)[y] == multiset{x}[y] + multiset(a)[y];
      assert multiset([x] + b)[y] == multiset{x}[y] + multiset(b)[y];
    }
  }

  /** Two sorted arrangements of the same elements coincide when no two
      different elements share a key: a sorted result does not depend on
      the order in which its elements were enumerated. */
  lemma {:induction false} SortedPermutationUnique<T>(a: seq<T>, b: seq<T>, key: T -> string)
    requires SortedBy(a, key) && SortedBy(b, key) && multiset(a) == multiset(b)
    requires KeysDistinct(a, key)
    ensures a == b
    decreases |a|
  {
    if a != [] {
      assert |b| == |a| by { assert |multiset(b)| == |multiset(a)|; }
      assert b[0] in multiset(a) && a[0] in multiset(b);
      SortedHeadLeast(a, key, b[0]);
      SortedHeadLeast(b, key, a[0]);
      LexLeAntisymmetric(key(a[0]), key(b[0]));
      var k :| 0 <= k < |a| && a[k] == b[0];
      assert a[0] == b[0];
      var ta, tb := a[1..], b[1..];
      assert a == [a[0]] + ta && b == [a[0]] + tb;
      ConsCancel(a[0], ta, tb);
      assert KeysDistinct(ta, key) by {
        forall i, j | 0 <= i < |ta| && 0 <= j < |ta| && key(ta[i]) == key(ta[j]) ensures ta[i] == ta[j] {
          assert ta[i] == a[i + 1] && ta[j] == a[j + 1];
        }
      }
      SortedPermutationUnique(ta, tb, key);
    }
  }
}
