/** Sorting and multisets of sequences: the library facts behind Python's `sorted`,
    `Counter` and `collections.defaultdict` as the repository uses them. */
module Ordering {

  ghost predicate Preorder<T(!new)>(le: (T, T) -> bool)
  {
    && (forall x, y :: le(x, y) || le(y, x))
    && (forall x, y, z :: le(x, y) && le(y, z) ==> le(x, z))
  }

  ghost predicate Sorted<T>(le: (T, T) -> bool, s: seq<T>)
  {
    forall i, j :: 0 <= i < j < |s| ==> le(s[i], s[j])
  }

  function Insert<T>(le: (T, T) -> bool, x: T, s: seq<T>): seq<T>
  {
    if s == [] || le(x, s[0]) then [x] + s else [s[0]] + Insert(le, x, s[1..])
  }

  /** Python's `sorted`: a stable sort (equal keys keep their order). */
  function Sort<T>(le: (T, T) -> bool, s: seq<T>): seq<T>
  {
    if s == [] then [] else Insert(le, s[0], Sort(le, s[1..]))
  }

  lemma {:induction false} InsertPermutes<T>(le: (T, T) -> bool, x: T, s: seq<T>)
    ensures multiset(Insert(le, x, s)) == multiset{x} + multiset(s)
  {
    if s != [] && !le(x, s[0]) {
      InsertPermutes(le, x, s[1..]);
      assert s == [s[0]] + s[1..];
    }
  }

  lemma {:induction false} InsertSorted<T(!new)>(le: (T, T) -> bool, x: T, s: seq<T>)
    requires Preorder(le) && Sorted(le, s)
    ensures Sorted(le, Insert(le, x, s))
  {
    if s != [] && !le(x, s[0]) {
      InsertSorted(le, x, s[1..]);
      InsertPermutes(le, x, s[1..]);
      var r := Insert(le, x, s[1..]);
      forall y | y in r ensures le(s[0], y) {
        assert y in multiset(r);
        if y != x {
          assert y in multiset(s[1..]);
        }
      }
    }
  }

  lemma {:induction false} SortPermutes<T>(le: (T, T) -> bool, s: seq<T>)
    ensures multiset(Sort(le, s)) == multiset(s)
    ensures |Sort(le, s)| == |s|
  {
    if s != [] {
      SortPermutes(le, s[1..]);
      InsertPermutes(le, s[0], Sort(le, s[1..]));
      assert s == [s[0]] + s[1..];
    }
    assert |multiset(Sort(le, s))| == |multiset(s)|;
  }

  lemma {:induction false} SortSorted<T(!new)>(le: (T, T) -> bool, s: seq<T>)
    requires Preorder(le)
    ensures Sorted(le, Sort(le, s))
  {
    if s != [] {
      SortSorted(le, s[1..]);
      InsertSorted(le, s[0], Sort(le, s[1..]));
    }
  }

  /** The positions of `s` in the order a stable sort visits them: by `le`, equal ones as they stand. */
  ghost predicate SortingOrder<T>(le: (T, T) -> bool, s: seq<T>, p: seq<nat>)
  {
    && IsPermutation(p, |s|)
    && forall i, j :: 0 <= i < j < |p| ==> Visits(le, s, p[i], p[j])
  }

  /** Position `x` comes before position `y`. */
  ghost predicate Visits<T>(le: (T, T) -> bool, s: seq<T>, x: nat, y: nat)
  {
    x < |s| && y < |s| && le(s[x], s[y]) && (le(s[y], s[x]) ==> x < y)
  }

  ghost predicate Picks<T>(s: seq<T>, p: seq<nat>, r: seq<T>)
  {
    |r| == |p| && forall i :: 0 <= i < |p| ==> p[i] < |s| && r[i] == s[p[i]]
  }

  /** The positions `q` of a tail, and the head at place `k`. */
  function WithHead(q: seq<nat>, k: nat): (p: seq<nat>)
    requires k <= |q|
    ensures |p| == |q| + 1 && forall i :: 0 <= i <= |q| ==> p[i] == HeadAt(q, k, i)
  {
    seq(|q| + 1, i requires 0 <= i <= |q| => HeadAt(q, k, i))
  }

  function HeadAt(q: seq<nat>, k: nat, i: nat): nat
    requires k <= |q| && i <= |q|
  {
    if i < k then q[i] + 1 else if i == k then 0 else q[i - 1] + 1
  }

  /** `r` is `s` with `x` put in at place `k`. */
  ghost predicate PutIn<T>(r: seq<T>, x: T, s: seq<T>, k: nat)
  {
    k <= |s| && r == s[..k] + ([x] + s[k..])
  }

  /** `Insert` puts `x` behind the elements it does not precede. */
  lemma {:induction false} InsertPlace<T>(le: (T, T) -> bool, x: T, s: seq<T>) returns (k: nat)
    ensures PutIn(Insert(le, x, s), x, s, k)
    ensures (forall i :: 0 <= i < k ==> !le(x, s[i])) && (k < |s| ==> le(x, s[k]))
  {
    if s == [] || le(x, s[0]) {
      k := 0;
    } else {
      var j := InsertPlace(le, x, s[1..]);
      k := j + 1;
      assert s[..k] == [s[0]] + s[1..][..j] && s[k..] == s[1..][j..];
    }
  }

  lemma PutInAt<T>(r: seq<T>, x: T, s: seq<T>, k: nat, i: nat)
    requires PutIn(r, x, s, k) && i <= |s|
    ensures |r| == |s| + 1 && r[i] == if i < k then s[i] else if i == k then x else s[i - 1]
  {
  }

  lemma InsertPicks<T>(s: seq<T>, q: seq<nat>, r: seq<T>, k: nat, t: seq<T>)
    requires s != [] && Picks(s[1..], q, r) && |q| == |s| - 1 && PutIn(t, s[0], r, k)
    ensures Picks(s, WithHead(q, k), t)
  {
    forall i | 0 <= i <= |q| ensures HeadAt(q, k, i) < |s| && t[i] == s[HeadAt(q, k, i)] {
      PutInAt(t, s[0], r, k, i);
    }
  }

  lemma SortingOrderSame<T>(le: (T, T) -> bool, other: (T, T) -> bool, s: seq<T>, p: seq<nat>)
    requires forall x, y :: le(x, y) == other(x, y)
    ensures SortingOrder(le, s, p) == SortingOrder(other, s, p)
  {
    assert forall i, j :: Visits(le, s, i, j) == Visits(other, s, i, j);
  }

  /** There is one such order. */
  lemma SortingOrderUnique<T>(le: (T, T) -> bool, s: seq<T>, p: seq<nat>, q: seq<nat>)
    requires SortingOrder(le, s, p) && SortingOrder(le, s, q)
    ensures p == q
  {
    PermutationOfRange(p, |s|);
    PermutationOfRange(q, |s|);
    SortedUnique((x: nat, y: nat) => Visits(le, s, x, y), p, q);
  }

  /** Sorting is stable. */
  lemma {:induction false} SortIsStable<T(!new)>(le: (T, T) -> bool, s: seq<T>) returns (p: seq<nat>)
    requires Preorder(le)
    ensures SortingOrder(le, s, p) && Picks(s, p, Sort(le, s))
  {
    if s == [] {
      p := [];
    } else {
      var q := SortIsStable(le, s[1..]);
      var r := Sort(le, s[1..]);
      var k := InsertPlace(le, s[0], r);
      p := WithHead(q, k);
      InsertOrder(le, s, q, r, k, p);
      InsertPicks(s, q, r, k, Sort(le, s));
    }
  }

  lemma InsertOrder<T(!new)>(le: (T, T) -> bool, s: seq<T>, q: seq<nat>, r: seq<T>, k: nat, p: seq<nat>)
    requires Preorder(le) && s != [] && SortingOrder(le, s[1..], q) && Picks(s[1..], q, r) && k <= |r|
    requires (forall i :: 0 <= i < k ==> !le(s[0], r[i])) && (k < |r| ==> le(s[0], r[k])) && p == WithHead(q, k)
    ensures SortingOrder(le, s, p)
  {
    forall i | 0 <= i < |q| ensures if i < k then Visits(le, s, q[i] + 1, 0) else Visits(le, s, 0, q[i] + 1) {
      InsertedAt(le, s, q, r, k, i);
    }
    forall i, j | 0 <= i < j < |p| ensures Visits(le, s, p[i], p[j]) && p[i] != p[j] && p[i] < |s| && p[j] < |s| {
      JoinedAt(le, s, q, k, i, j);
    }
  }

  lemma InsertedAt<T(!new)>(le: (T, T) -> bool, s: seq<T>, q: seq<nat>, r: seq<T>, k: nat, i: nat)
    requires Preorder(le) && s != [] && SortingOrder(le, s[1..], q) && Picks(s[1..], q, r) && k <= |r| && i < |r|
    requires (i < k ==> !le(s[0], r[i])) && (k < |r| ==> le(s[0], r[k]))
    ensures if i < k then Visits(le, s, q[i] + 1, 0) else Visits(le, s, 0, q[i] + 1)
  {
    if i < k {
      TotalAt(le, s[0], r[i]);
    } else {
      LaterThan(le, s[1..], q, s[0], r, k, i);
    }
  }

  lemma JoinedAt<T>(le: (T, T) -> bool, s: seq<T>, q: seq<nat>, k: nat, i: nat, j: nat)
    requires s != [] && SortingOrder(le, s[1..], q) && k <= |q| && i < j <= |q|
    requires forall x :: 0 <= x < |q| ==> if x < k then Visits(le, s, q[x] + 1, 0) else Visits(le, s, 0, q[x] + 1)
    ensures Visits(le, s, HeadAt(q, k, i), HeadAt(q, k, j)) && HeadAt(q, k, i) != HeadAt(q, k, j)
  {
    var x, y := if i < k then i else i - 1, if j < k then j else j - 1;
    if i != k && j != k {
      assert Visits(le, s[1..], q[x], q[y]);
    }
  }

  lemma TotalAt<T(!new)>(le: (T, T) -> bool, x: T, y: T)
    requires Preorder(le)
    ensures le(x, y) || le(y, x)
  {
  }

  lemma LaterThan<T(!new)>(le: (T, T) -> bool, s: seq<T>, q: seq<nat>, x: T, r: seq<T>, k: nat, i: nat)
    requires Preorder(le) && SortingOrder(le, s, q) && Picks(s, q, r) && k <= i < |r| && le(x, r[k])
    ensures le(x, r[i])
  {
    if i > k {
      assert Visits(le, s, q[k], q[i]);
      Through(le, x, r[k], r[i]);
    }
  }

  lemma Through<T(!new)>(le: (T, T) -> bool, x: T, y: T, z: T)
    requires Preorder(le) && le(x, y) && le(y, z)
    ensures le(x, z)
  {
  }

  lemma SortedHeads<T(!new)>(le: (T, T) -> bool, a: seq<T>, b: seq<T>)
    requires Sorted(le, a) && Sorted(le, b) && multiset(a) == multiset(b) && a != [] && b != []
    requires forall x, y :: x in a && y in a && le(x, y) && le(y, x) ==> x == y
    ensures a[0] == b[0]
  {
    assert a[0] in multiset(b) && b[0] in multiset(a);
    var i :| 0 <= i < |b| && b[i] == a[0];
    var j :| 0 <= j < |a| && a[j] == b[0];
    assert i > 0 ==> le(b[0], b[i]);
    assert j > 0 ==> le(a[0], a[j]);
  }

  lemma TailsAgree<T>(a: seq<T>, b: seq<T>)
    requires a != [] && b != [] && a[0] == b[0] && multiset(a) == multiset(b)
    ensures multiset(a[1..]) == multiset(b[1..])
  {
    assert a == [a[0]] + a[1..] && b == [b[0]] + b[1..];
    assert multiset(a[1..]) == multiset(a) - multiset{a[0]};
    assert multiset(b[1..]) == multiset(b) - multiset{b[0]};
  }

  /** Two sorted arrangements of the same elements are the same sequence, as long as the order
      tells those elements apart. */
  lemma {:induction false} SortedUnique<T(!new)>(le: (T, T) -> bool, a: seq<T>, b: seq<T>)
    requires Sorted(le, a) && Sorted(le, b) && multiset(a) == multiset(b)
    requires forall x, y :: x in a && y in a && le(x, y) && le(y, x) ==> x == y
    ensures a == b
  {
    assert |multiset(a)| == |multiset(b)|;
    if a != [] {
      SortedHeads(le, a, b);
      TailsAgree(a, b);
      SortedUnique(le, a[1..], b[1..]);
      assert a == [a[0]] + a[1..] && b == [b[0]] + b[1..];
    }
  }

  lemma SortCanonical<T(!new)>(le: (T, T) -> bool, a: seq<T>, b: seq<T>)
    requires Preorder(le) && multiset(a) == multiset(b)
    requires forall x, y :: x in a && y in a && le(x, y) && le(y, x) ==> x == y
    ensures Sort(le, a) == Sort(le, b)
  {
    SortPermutes(le, a);
    SortPermutes(le, b);
    SortSorted(le, a);
    SortSorted(le, b);
    forall x | x in Sort(le, a) ensures x in a {
      assert x in multiset(Sort(le, a));
    }
    SortedUnique(le, Sort(le, a), Sort(le, b));
  }

  /** `[f(x) for x in s]`. */
  function Map<T, U>(f: T -> U, s: seq<T>): (r: seq<U>)
    ensures |r| == |s| && forall i :: 0 <= i < |s| ==> r[i] == f(s[i])
  {
    seq(|s|, i requires 0 <= i < |s| => f(s[i]))
  }

  lemma Regroup<T>(a: seq<T>, b: seq<T>, c: seq<T>)
    ensures a + (b + c) == a + b + c
  {
  }

  lemma MapConcat<T, U>(f: T -> U, a: seq<T>, b: seq<T>)
    ensures Map(f, a + b) == Map(f, a) + Map(f, b)
  {
  }

  lemma MapCons<T, U>(f: T -> U, x: T, s: seq<T>)
    ensures Map(f, [x] + s) == [f(x)] + Map(f, s)
  {
  }

  /** An element of `a`, taken out of a rearrangement `b` of `a`. */
  lemma TakeOut<T>(a: seq<T>, b: seq<T>) returns (k: nat)
    requires a != [] && multiset(a) == multiset(b)
    ensures k < |b| && b[k] == a[0]
    ensures multiset(a[1..]) == multiset(b[..k] + b[k + 1..])
    ensures b == b[..k] + ([a[0]] + b[k + 1..])
  {
    assert a[0] in multiset(b);
    k :| 0 <= k < |b| && b[k] == a[0];
    assert b == b[..k] + ([a[0]] + b[k + 1..]);
    assert a == [a[0]] + a[1..];
    assert multiset(a[1..]) == multiset(a) - multiset{a[0]};
  }

  /** Mapping commutes with forgetting the order. */
  lemma {:induction false} MapMultiset<T, U>(f: T -> U, a: seq<T>, b: seq<T>)
    requires multiset(a) == multiset(b)
    ensures multiset(Map(f, a)) == multiset(Map(f, b))
    decreases |a|
  {
    if a == [] {
      assert |multiset(b)| == 0;
    } else {
      var k := TakeOut(a, b);
      var tail := [a[0]] + b[k + 1..];
      MapMultiset(f, a[1..], b[..k] + b[k + 1..]);
      assert a == [a[0]] + a[1..];
      MapConcat(f, [a[0]], a[1..]);
      MapConcat(f, [a[0]], b[k + 1..]);
      MapConcat(f, b[..k], tail);
      MapConcat(f, b[..k], b[k + 1..]);
    }
  }

  ghost predicate Distinct<T>(s: seq<T>)
  {
    forall i, j :: 0 <= i < j < |s| ==> s[i] != s[j]
  }

  function Elements<T>(s: seq<T>): set<T>
  {
    set x | x in s
  }

  /** `len(s) == len(set(s))` holds exactly of the duplicate-free sequences. */
  lemma {:induction false} DistinctByCount<T>(s: seq<T>)
    ensures |Elements(s)| <= |s|
    ensures |Elements(s)| == |s| <==> Distinct(s)
  {
    if s != [] {
      var n := |s| - 1;
      var r, x := s[..n], s[n];
      DistinctByCount(r);
      assert s == r + [x];
      assert Elements(s) == Elements(r) + {x};
      if x in r {
        assert Elements(s) == Elements(r);
        var k :| 0 <= k < n && r[k] == x;
        assert s[k] == s[n];
      } else {
        assert forall i :: 0 <= i < n ==> r[i] == s[i];
      }
    }
  }

  lemma {:induction false} DistinctMultiplicity<T>(s: seq<T>, x: T)
    requires Distinct(s)
    ensures multiset(s)[x] == if x in s then 1 else 0
  {
    if s != [] {
      DistinctMultiplicity(s[1..], x);
      assert s == [s[0]] + s[1..];
    }
  }

  lemma MultiplicityDistinct<T>(s: seq<T>)
    requires forall x :: multiset(s)[x] <= 1
    ensures Distinct(s)
  {
    forall i, j | 0 <= i < j < |s| ensures s[i] != s[j] {
      assert s == s[..i] + [s[i]] + s[i + 1..j] + [s[j]] + s[j + 1..];
      assert multiset(s)[s[i]] <= 1;
    }
  }

  ghost predicate IsPermutation(p: seq<nat>, n: nat)
  {
    |p| == n && (forall i :: 0 <= i < n ==> p[i] < n) && Distinct(p)
  }

  function Range(n: nat): (r: seq<nat>)
    ensures |r| == n && forall i :: 0 <= i < n ==> r[i] == i
  {
    seq(n, i => i)
  }

  lemma PermutationOfRange(p: seq<nat>, n: nat)
    requires IsPermutation(p, n)
    ensures multiset(p) == multiset(Range(n))
  {
    forall x | x in multiset(p) ensures multiset(p)[x] <= multiset(Range(n))[x] {
      DistinctMultiplicity(p, x);
      assert Range(n)[x] == x;
    }
    SubmultisetSameSize(multiset(p), multiset(Range(n)));
  }

  lemma SubmultisetSameSize<T>(a: multiset<T>, b: multiset<T>)
    requires a <= b && |a| == |b|
    ensures a == b
  {
    assert |b - a| == |b| - |a|;
    assert b == a + (b - a);
  }
}
