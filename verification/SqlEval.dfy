/** The result-set comparison of examples/rl_nl2sql/sql_eval.py: are two query results equal up
    to a permutation of the columns, as lists or as bags of rows? */
module SqlEval {
  import opened Ordering
  import Text

  /** One cell. Python's `==` compares values only (`1 == 1.0`); `_unorder_row` sorts by the text
      `str(x) + str(type(x))`, the cell's key, which may tell equal values apart. */
  datatype Cell<V> = Cell(val: V, key: string)

  type Table<V> = seq<seq<Cell<V>>>

  function ValOf<V>(c: Cell<V>): V { c.val }

  /** A row as Python compares it. */
  function RowVals<V>(r: seq<Cell<V>>): seq<V> { Map(ValOf, r) }

  function Vals<V>(t: Table<V>): seq<seq<V>> { Map(RowVals, t) }

  /** Every row has `n` columns, as every result of `fetchall` does. */
  ghost predicate Wide<V>(t: seq<seq<V>>, n: nat)
  {
    forall r :: r in t ==> |r| == n
  }

  ghost predicate Rectangular<V>(t: seq<seq<V>>)
  {
    t != [] ==> Wide(t, |t[0]|)
  }

  // ---------------------------------------------------------------- column permutations

  /** `tuple(row[i] for i in perm)`. */
  function Permute<V>(p: seq<nat>, row: seq<V>): (r: seq<V>)
    requires forall i :: 0 <= i < |p| ==> p[i] < |row|
    ensures |r| == |p| && forall i :: 0 <= i < |p| ==> r[i] == row[p[i]]
  {
    seq(|p|, i requires 0 <= i < |p| => row[p[i]])
  }

  function PermuteAll<V>(p: seq<nat>, t: seq<seq<V>>): (r: seq<seq<V>>)
    requires forall row, i :: row in t && 0 <= i < |p| ==> p[i] < |row|
    ensures |r| == |t| && forall k :: 0 <= k < |t| ==> r[k] == Permute(p, t[k])
  {
    seq(|t|, k requires 0 <= k < |t| => Permute(p, t[k]))
  }

  /** Permuting a row keeps its bag of cells. */
  lemma PermuteKeepsBag<V>(p: seq<nat>, row: seq<V>)
    requires IsPermutation(p, |row|)
    ensures multiset(Permute(p, row)) == multiset(row)
  {
    if row == [] {
      assert Permute(p, row) == row;
    } else {
      var f := (i: nat) => if i < |row| then row[i] else row[0];
      PermutationOfRange(p, |row|);
      MapMultiset(f, p, Range(|row|));
      assert Map(f, p) == Permute(p, row);
      assert Map(f, Range(|row|)) == row;
    }
  }

  /** Every permutation has an inverse, built by looking each column up. */
  lemma Inverse(p: seq<nat>, n: nat) returns (q: seq<nat>)
    requires IsPermutation(p, n)
    ensures IsPermutation(q, n)
    ensures forall i :: 0 <= i < n ==> q[p[i]] == i && p[q[i]] == i
  {
    PermutationOfRange(p, n);
    q := [];
    while |q| < n
      invariant |q| <= n
      invariant forall j :: 0 <= j < |q| ==> q[j] < n && p[q[j]] == j
    {
      assert Range(n)[|q|] == |q|;
      assert |q| in multiset(p);
      var i :| 0 <= i < n && p[i] == |q|;
      q := q + [i];
    }
    forall i | 0 <= i < n ensures q[p[i]] == i {
      assert p[q[p[i]]] == p[i];
    }
  }

  lemma PermuteCompose<V>(p: seq<nat>, q: seq<nat>, row: seq<V>)
    requires IsPermutation(p, |row|) && IsPermutation(q, |row|)
    ensures IsPermutation(Permute(p, q), |row|)
    ensures Permute(p, Permute(q, row)) == Permute(Permute(p, q), row)
  {
  }

  lemma PermuteAllCompose<V>(p: seq<nat>, q: seq<nat>, t: seq<seq<V>>, n: nat)
    requires IsPermutation(p, n) && IsPermutation(q, n) && Wide(t, n)
    ensures IsPermutation(Permute(p, q), n)
    ensures Wide(PermuteAll(q, t), n)
    ensures PermuteAll(p, PermuteAll(q, t)) == PermuteAll(Permute(p, q), t)
  {
    forall k | 0 <= k < |t|
      ensures Permute(p, Permute(q, t[k])) == Permute(Permute(p, q), t[k])
    {
      PermuteCompose(p, q, t[k]);
    }
  }

  lemma PermuteAllIdentity<V>(t: seq<seq<V>>, n: nat)
    requires Wide(t, n)
    ensures IsPermutation(Range(n), n) && PermuteAll(Range(n), t) == t
  {
    forall k | 0 <= k < |t| ensures Permute(Range(n), t[k]) == t[k] {
    }
  }

  lemma PermuteAllBag<V>(p: seq<nat>, a: seq<seq<V>>, b: seq<seq<V>>, n: nat)
    requires IsPermutation(p, n) && Wide(a, n) && Wide(b, n)
    requires multiset(a) == multiset(b)
    ensures multiset(PermuteAll(p, a)) == multiset(PermuteAll(p, b))
  {
    var f := (r: seq<V>) => if |r| == n then Permute(p, r) else r;
    MapMultiset(f, a, b);
    assert Map(f, a) == PermuteAll(p, a);
    assert Map(f, b) == PermuteAll(p, b);
  }

  // ---------------------------------------------------------------- the specification

  /** Equal as lists when order matters, as bags otherwise. */
  ghost predicate Same<T>(a: seq<T>, b: seq<T>, orderMatters: bool)
  {
    if orderMatters then a == b else multiset(a) == multiset(b)
  }

  ghost predicate Matches<V>(p: seq<nat>, a: seq<seq<V>>, b: seq<seq<V>>, n: nat, orderMatters: bool)
  {
    IsPermutation(p, n) && Wide(b, n) && Same(a, PermuteAll(p, b), orderMatters)
  }

  /** What the comparison is for: both results empty, or of one width and equal after some
      permutation of the second one's columns. */
  ghost predicate Equivalent<V>(a: seq<seq<V>>, b: seq<seq<V>>, orderMatters: bool)
  {
    || (a == [] && b == [])
    || (a != [] && b != [] && |a[0]| == |b[0]| &&
        exists p :: Matches(p, a, b, |a[0]|, orderMatters))
  }

  // ---------------------------------------------------------------- _unorder_row and _quick_reject

  predicate KeyLE<V>(x: Cell<V>, y: Cell<V>)
  {
    Text.LexLE(x.key, y.key)
  }

  lemma KeyPreorder<V(!new)>()
    ensures Preorder(KeyLE<V>)
  {
    forall x: Cell<V>, y: Cell<V> ensures KeyLE(x, y) || KeyLE(y, x) {
      Text.LexTotal(x.key, y.key);
    }
    forall x: Cell<V>, y: Cell<V>, z: Cell<V> | KeyLE(x, y) && KeyLE(y, z) ensures KeyLE(x, z) {
      Text.LexTransitive(x.key, y.key, z.key);
    }
  }

  /** `_unorder_row`, as the comparison sees it. */
  function UnorderRow<V>(r: seq<Cell<V>>): seq<V>
  {
    RowVals(Sort(KeyLE, r))
  }

  function Unordered<V>(t: Table<V>): seq<seq<V>>
  {
    Map(UnorderRow, t)
  }

  /** `_quick_reject`: true when the results pass. */
  predicate QuickPass<V(==)>(a: Table<V>, b: Table<V>, orderMatters: bool)
  {
    if orderMatters then Unordered(a) == Unordered(b)
    else Elements(Unordered(a)) == Elements(Unordered(b))
  }

  // ---------------------------------------------------------------- _multiset_eq

  function Count<T(==)>(counts: map<T, int>, x: T): int
  {
    if x in counts then counts[x] else 0
  }

  /** `counts` holds the multiplicities of `list1` less those of the part of `list2` seen so far. */
  ghost predicate Balance<T(!new)>(counts: map<T, int>, list1: seq<T>, seen: seq<T>)
  {
    forall x :: Count(counts, x) + multiset(seen)[x] == multiset(list1)[x]
  }

  lemma BalanceStep<T(!new)>(counts: map<T, int>, list1: seq<T>, seen: seq<T>, e: T)
    requires Balance(counts, list1, seen)
    ensures Balance(counts[e := Count(counts, e) - 1], list1, seen + [e])
  {
  }

  method CountElements<T(==, !new)>(list1: seq<T>) returns (counts: map<T, int>)
    ensures Balance(counts, list1, [])
  {
    counts := map[];
    for i := 0 to |list1|
      invariant Balance(counts, list1[..i], [])
    {
      var e := list1[i];
      assert list1[..i + 1] == list1[..i] + [e];
      counts := counts[e := Count(counts, e) + 1];
    }
    assert list1[..|list1|] == list1;
  }

  /** The counting test with its early exit decides equality of bags. */
  method MultisetEq<T(==, !new)>(list1: seq<T>, list2: seq<T>) returns (eq: bool)
    ensures eq <==> multiset(list1) == multiset(list2)
  {
    if |list1| != |list2| {
      assert |multiset(list1)| != |multiset(list2)|;
      return false;
    }
    var counts := CountElements(list1);
    assert list2[..0] == [];
    for j := 0 to |list2|
      invariant Balance(counts, list1, list2[..j])
      invariant forall x :: Count(counts, x) >= 0
    {
      var e := list2[j];
      assert list2[..j + 1] == list2[..j] + [e];
      assert list2 == list2[..j + 1] + list2[j + 1..];
      BalanceStep(counts, list1, list2[..j], e);
      counts := counts[e := Count(counts, e) - 1];
      if counts[e] < 0 {
        assert multiset(list2[..j + 1])[e] > multiset(list1)[e];
        return false;
      }
    }
    assert list2[..|list2|] == list2;
    assert forall x :: multiset(list2)[x] <= multiset(list1)[x];
    SubmultisetSameSize(multiset(list2), multiset(list1));
    return true;
  }

  // ---------------------------------------------------------------- _constraint_permutations

  /** `itertools.product(*constraints)`. */
  function Product(cs: seq<set<nat>>): set<seq<nat>>
  {
    if cs == [] then {[]}
    else set h, t | h in cs[0] && t in Product(cs[1..]) :: [h] + t
  }

  ghost predicate Chooses(p: seq<nat>, cs: seq<set<nat>>)
  {
    |p| == |cs| && forall i :: 0 <= i < |cs| ==> p[i] in cs[i]
  }

  lemma {:induction false} ProductComplete(cs: seq<set<nat>>, p: seq<nat>)
    ensures p in Product(cs) <==> Chooses(p, cs)
  {
    if cs != [] {
      if p != [] {
        ProductComplete(cs[1..], p[1..]);
        assert p == [p[0]] + p[1..];
        assert Chooses(p, cs) <==> p[0] in cs[0] && Chooses(p[1..], cs[1..]);
      }
      if p in Product(cs) {
        var h, t :| h in cs[0] && t in Product(cs[1..]) && p == [h] + t;
        assert t == p[1..];
      }
    }
  }

  /** The values of column `i`: `{row[i] for row in table}`. */
  function Column<V>(t: seq<seq<V>>, i: nat): set<V>
    requires forall r :: r in t ==> i < |r|
  {
    set r | r in t :: r[i]
  }

  /** Column `c2` of the second table has no value that column `c1` of the first lacks. */
  ghost predicate Fits<V>(colSets: seq<set<V>>, b: seq<seq<V>>, c1: nat, c2: nat)
    requires c1 < |colSets|
    requires forall r :: r in b ==> c2 < |r|
  {
    forall r :: r in b ==> r[c2] in colSets[c1]
  }

  ghost predicate FitsAll<V>(colSets: seq<set<V>>, b: seq<seq<V>>, p: seq<nat>)
    requires Wide(b, |colSets|)
  {
    |p| == |colSets| && forall i :: 0 <= i < |p| ==> p[i] < |colSets| && Fits(colSets, b, i, p[i])
  }

  /** Whatever rows are sampled, every choice of fitting columns survives the pruning. */
  method ConstraintPermutations<V(==, !new)>(colSets: seq<set<V>>, b: seq<seq<V>>) returns (perms: set<seq<nat>>)
    requires b != [] && Wide(b, |colSets|)
    ensures forall p :: p in perms ==> |p| == |colSets| && forall i :: 0 <= i < |p| ==> p[i] < |colSets|
    ensures forall p :: FitsAll(colSets, b, p) ==> p in perms
  {
    var n := |colSets|;
    var all := Elements(Range(n));
    var cs := seq(n, i => all);
    forall j: nat | j < n ensures j in all {
      assert Range(n)[j] == j;
    }
    if n > 3 {
      for round := 0 to 20
        invariant |cs| == n
        invariant forall i :: 0 <= i < n ==> cs[i] <= all
        invariant forall i, j :: 0 <= i < n && 0 <= j < n && Fits(colSets, b, i, j) ==> j in cs[i]
      {
        var k :| 0 <= k < |b|;
        cs := Discard(colSets, b, b[k], cs);
      }
    }
    perms := Product(cs);
    forall p ensures p in perms <==> Chooses(p, cs) {
      ProductComplete(cs, p);
    }
    forall p | FitsAll(colSets, b, p) ensures Chooses(p, cs) {
      forall i | 0 <= i < n ensures p[i] in cs[i] {
        assert Fits(colSets, b, i, p[i]);
      }
    }
  }

  /** One sampled row: drop each column choice that row rules out, and no other. */
  method Discard<V(==, !new)>(colSets: seq<set<V>>, ghost b: seq<seq<V>>, sample: seq<V>, cs: seq<set<nat>>)
    returns (pruned: seq<set<nat>>)
    requires |cs| == |colSets| == |sample| && sample in b && Wide(b, |colSets|)
    requires forall i :: 0 <= i < |cs| ==> forall j :: j in cs[i] ==> j < |colSets|
    ensures |pruned| == |cs|
    ensures forall i :: 0 <= i < |cs| ==> pruned[i] == set j | j in cs[i] && sample[j] in colSets[i]
  {
    pruned := cs;
    for c1 := 0 to |cs|
      invariant |pruned| == |cs|
      invariant forall i :: 0 <= i < c1 ==> pruned[i] == set j | j in cs[i] && sample[j] in colSets[i]
      invariant forall i :: c1 <= i < |cs| ==> pruned[i] == cs[i]
    {
      var todo := pruned[c1];
      while todo != {}
        invariant |pruned| == |cs| && todo <= cs[c1]
        invariant forall i :: 0 <= i < |cs| && i != c1 ==>
                    pruned[i] == if i < c1 then set j | j in cs[i] && sample[j] in colSets[i] else cs[i]
        invariant pruned[c1] == set j | j in cs[c1] && (j in todo || sample[j] in colSets[c1])
        decreases |todo|
      {
        var c2 :| c2 in todo;
        if sample[c2] !in colSets[c1] {
          pruned := pruned[c1 := pruned[c1] - {c2}];
        }
        todo := todo - {c2};
      }
    }
  }

  // ---------------------------------------------------------------- results_equivalent

  /** A matching permutation sends every column into one whose values fit, so no sampled row can
      prune it. */
  lemma MatchFits<V>(p: seq<nat>, a: seq<seq<V>>, b: seq<seq<V>>, colSets: seq<set<V>>, orderMatters: bool)
    requires Wide(a, |colSets|) && Matches(p, a, b, |colSets|, orderMatters)
    requires forall i :: 0 <= i < |colSets| ==> colSets[i] == Column(a, i)
    ensures FitsAll(colSets, b, p)
  {
    var pb := PermuteAll(p, b);
    forall i, r | 0 <= i < |p| && r in b ensures r[p[i]] in colSets[i] {
      var k :| 0 <= k < |b| && b[k] == r;
      assert pb[k] in multiset(pb);
      assert pb[k] in multiset(a);
      assert pb[k][i] == r[p[i]];
    }
  }

  /** What `results_equivalent` returns: the specification, cut down by the quick reject. */
  ghost predicate Verdict<V>(a: Table<V>, b: Table<V>, orderMatters: bool)
  {
    Equivalent(Vals(a), Vals(b), orderMatters) && QuickPass(a, b, orderMatters)
  }

  /** The two rows have the same values in the order of their texts, equal texts as they stand. */
  ghost predicate SortAlike<V(!new)>(r: seq<Cell<V>>, s: seq<Cell<V>>)
  {
    exists p, q :: SortedAlike(r, p, s, q)
  }

  ghost predicate SortedAlike<V>(r: seq<Cell<V>>, p: seq<nat>, s: seq<Cell<V>>, q: seq<nat>)
  {
    var byText := (x: Cell<V>, y: Cell<V>) => Text.LexLE(x.key, y.key);
    && SortingOrder(byText, r, p) && SortingOrder(byText, s, q) && |r| == |s|
    && forall i :: 0 <= i < |r| ==> r[p[i]].val == s[q[i]].val
  }

  lemma UnorderRowPicks<V(!new)>(r: seq<Cell<V>>) returns (p: seq<nat>)
    ensures SortingOrder((x: Cell<V>, y: Cell<V>) => Text.LexLE(x.key, y.key), r, p)
    ensures |UnorderRow(r)| == |r| == |p| && forall i :: 0 <= i < |r| ==> UnorderRow(r)[i] == r[p[i]].val
  {
    KeyPreorder<V>();
    p := SortIsStable(KeyLE, r);
    SortingOrderSame(KeyLE, (x: Cell<V>, y: Cell<V>) => Text.LexLE(x.key, y.key), r, p);
  }

  lemma RowsAlike<V(!new)>(r: seq<Cell<V>>, s: seq<Cell<V>>)
    ensures UnorderRow(r) == UnorderRow(s) <==> SortAlike(r, s)
  {
    var p := UnorderRowPicks(r);
    var q := UnorderRowPicks(s);
    if UnorderRow(r) == UnorderRow(s) {
      assert SortedAlike(r, p, s, q);
    }
    if SortAlike(r, s) {
      var p2, q2 :| SortedAlike(r, p2, s, q2);
      var byText := (x: Cell<V>, y: Cell<V>) => Text.LexLE(x.key, y.key);
      SortingOrderUnique(byText, r, p, p2);
      SortingOrderUnique(byText, s, q, q2);
    }
  }

  /** The tables have the same sorted rows: at the same places when order matters, as sets otherwise. */
  ghost predicate RowsSortAlike<V(!new)>(a: Table<V>, b: Table<V>, orderMatters: bool)
  {
    if orderMatters then |a| == |b| && forall i :: 0 <= i < |a| ==> SortAlike(a[i], b[i])
    else
      && (forall r :: r in a ==> exists s :: s in b && SortAlike(r, s))
      && (forall s :: s in b ==> exists r :: r in a && SortAlike(r, s))
  }

  /** What the comparison answers, in terms of the two tables alone. */
  lemma VerdictMeans<V(!new)>(a: Table<V>, b: Table<V>, orderMatters: bool)
    ensures Verdict(a, b, orderMatters) <==>
            Equivalent(Vals(a), Vals(b), orderMatters) && RowsSortAlike(a, b, orderMatters)
  {
    forall r, s ensures UnorderRow(r) == UnorderRow(s) <==> SortAlike(r, s) {
      RowsAlike<V>(r, s);
    }
    var ua, ub := Unordered(a), Unordered(b);
    if orderMatters {
      assert ua == ub <==> |a| == |b| && forall i :: 0 <= i < |a| ==> ua[i] == ub[i];
    } else {
      SetsAlike(a, b, ua, ub);
    }
  }

  /** Each row of `a` has its normal form among those of `b` exactly when it sorts like a row of `b`. */
  lemma Covered<T, U>(a: seq<T>, ua: seq<U>, b: seq<T>, ub: seq<U>, alike: (T, T) -> bool)
    requires |ua| == |a| && |ub| == |b|
    requires forall i, j :: 0 <= i < |a| && 0 <= j < |b| ==> (ua[i] == ub[j] <==> alike(a[i], b[j]))
    ensures Elements(ua) <= Elements(ub) <==> forall r :: r in a ==> exists s :: s in b && alike(r, s)
  {
    if Elements(ua) <= Elements(ub) {
      forall i | 0 <= i < |a| ensures exists s :: s in b && alike(a[i], s) {
        assert ua[i] in Elements(ua);
        var j :| 0 <= j < |b| && ub[j] == ua[i];
        assert b[j] in b;
      }
    } else {
      var u :| u in ua && u !in ub;
      var i :| 0 <= i < |a| && ua[i] == u;
      assert a[i] in a;
    }
  }

  lemma SetsAlike<V(!new)>(a: Table<V>, b: Table<V>, ua: seq<seq<V>>, ub: seq<seq<V>>)
    requires |ua| == |a| && |ub| == |b|
    requires forall i, j :: 0 <= i < |a| && 0 <= j < |b| ==> (ua[i] == ub[j] <==> SortAlike(a[i], b[j]))
    ensures Elements(ua) == Elements(ub) <==> RowsSortAlike(a, b, false)
  {
    Covered(a, ua, b, ub, (r, s) => SortAlike(r, s));
    Covered(b, ub, a, ua, (s, r) => SortAlike(r, s));
  }

  method ResultsEquivalent<V(==, !new)>(result1: Table<V>, result2: Table<V>, orderMatters: bool) returns (ok: bool)
    requires Rectangular(result1) && Rectangular(result2)
    ensures ok <==> Verdict(result1, result2, orderMatters)
    ensures ok <==> Equivalent(Vals(result1), Vals(result2), orderMatters)
                    && RowsSortAlike(result1, result2, orderMatters)
  {
    VerdictMeans(result1, result2, orderMatters);
    if result1 == [] && result2 == [] {
      assert Unordered(result1) == Unordered(result2);
      return true;
    }
    var a, b := Vals(result1), Vals(result2);
    if |result1| != |result2| {
      if Equivalent(a, b, orderMatters) {
        SameLength(a, b, orderMatters);
      }
      return false;
    }
    if |result1[0]| != |result2[0]| || !QuickPass(result1, result2, orderMatters) {
      return false;
    }
    var n := |result1[0]|;
    ok := SearchPermutations(a, b, n, orderMatters);
  }

  /** The search over the pruned product of column choices. */
  method SearchPermutations<V(==, !new)>(a: seq<seq<V>>, b: seq<seq<V>>, n: nat, orderMatters: bool)
    returns (found: bool)
    requires b != [] && Wide(a, n) && Wide(b, n)
    ensures found <==> exists p :: Matches(p, a, b, n, orderMatters)
  {
    var colSets := seq(n, i requires 0 <= i < n => Column(a, i));
    var todo := ConstraintPermutations(colSets, b);
    forall p | Matches(p, a, b, n, orderMatters) ensures p in todo {
      MatchFits(p, a, b, colSets, orderMatters);
    }
    while todo != {}
      invariant forall p :: p in todo ==> |p| == n && forall i :: 0 <= i < n ==> p[i] < n
      invariant forall p :: Matches(p, a, b, n, orderMatters) ==> p in todo
      decreases |todo|
    {
      var perm :| perm in todo;
      todo := todo - {perm};
      var hit := TryPermutation(a, b, perm, n, orderMatters);
      if hit {
        return true;
      }
    }
    return false;
  }

  /** One turn of the search: skip a choice that repeats a column, otherwise compare. */
  method TryPermutation<V(==, !new)>(a: seq<seq<V>>, b: seq<seq<V>>, perm: seq<nat>, n: nat, orderMatters: bool)
    returns (hit: bool)
    requires Wide(b, n) && |perm| == n && forall i :: 0 <= i < n ==> perm[i] < n
    ensures hit <==> Matches(perm, a, b, n, orderMatters)
  {
    DistinctByCount(perm);
    if |perm| != |Elements(perm)| {
      return false;
    }
    var permuted := b;
    if n == 1 {
      SingleColumn(perm, b);
    } else {
      permuted := PermuteAll(perm, b);
    }
    if orderMatters {
      return a == permuted;
    }
    SameBagSameSet(a, permuted);
    if Elements(a) != Elements(permuted) {
      return false;
    }
    hit := MultisetEq(a, permuted);
  }

  lemma SameLength<V>(a: seq<seq<V>>, b: seq<seq<V>>, orderMatters: bool)
    requires Equivalent(a, b, orderMatters)
    ensures |a| == |b|
  {
    if a != [] {
      var p: seq<nat> :| Matches(p, a, b, |a[0]|, orderMatters);
      assert |multiset(a)| == |multiset(PermuteAll(p, b))|;
    }
  }

  lemma SingleColumn<V>(p: seq<nat>, b: seq<seq<V>>)
    requires Wide(b, 1) && |p| == 1 && p[0] < 1
    ensures PermuteAll(p, b) == b
  {
    assert p == Range(1);
    PermuteAllIdentity(b, 1);
  }

  lemma SameBagSameSet<T>(a: seq<T>, b: seq<T>)
    ensures multiset(a) == multiset(b) ==> Elements(a) == Elements(b)
  {
    assert forall x :: x in a <==> x in multiset(a);
    assert forall x :: x in b <==> x in multiset(b);
  }

  // ---------------------------------------------------------------- the verdict is an equivalence relation

  lemma EquivalentReflexive<V>(a: seq<seq<V>>, orderMatters: bool)
    requires Rectangular(a)
    ensures Equivalent(a, a, orderMatters)
  {
    if a != [] {
      PermuteAllIdentity(a, |a[0]|);
      assert Matches(Range(|a[0]|), a, a, |a[0]|, orderMatters);
    }
  }

  lemma EquivalentSymmetric<V>(a: seq<seq<V>>, b: seq<seq<V>>, orderMatters: bool)
    requires Rectangular(a) && Rectangular(b) && Equivalent(a, b, orderMatters)
    ensures Equivalent(b, a, orderMatters)
  {
    if a != [] {
      var n := |a[0]|;
      var p: seq<nat> :| Matches(p, a, b, n, orderMatters);
      var q := Inverse(p, n);
      PermuteAllCompose(q, p, b, n);
      assert Permute(q, p) == Range(n);
      PermuteAllIdentity(b, n);
      if !orderMatters {
        PermuteAllBag(q, a, PermuteAll(p, b), n);
      }
      assert Matches(q, b, a, n, orderMatters);
    }
  }

  lemma EquivalentTransitive<V>(a: seq<seq<V>>, b: seq<seq<V>>, c: seq<seq<V>>, orderMatters: bool)
    requires Rectangular(a) && Rectangular(b) && Rectangular(c)
    requires Equivalent(a, b, orderMatters) && Equivalent(b, c, orderMatters)
    ensures Equivalent(a, c, orderMatters)
  {
    if a != [] {
      var n := |a[0]|;
      var p: seq<nat> :| Matches(p, a, b, n, orderMatters);
      var q: seq<nat> :| Matches(q, b, c, n, orderMatters);
      PermuteAllCompose(p, q, c, n);
      if !orderMatters {
        PermuteAllBag(p, b, PermuteAll(q, c), n);
      }
      assert Matches(Permute(p, q), a, c, n, orderMatters);
    }
  }

  /** For every pair of results, key quirks included, the verdict is an equivalence relation, and
      agreeing in order implies agreeing as bags. */
  lemma VerdictIsEquivalence<V>(a: Table<V>, b: Table<V>, c: Table<V>, orderMatters: bool)
    requires Rectangular(a) && Rectangular(b) && Rectangular(c)
    ensures Verdict(a, a, orderMatters)
    ensures Verdict(a, b, orderMatters) ==> Verdict(b, a, orderMatters)
    ensures Verdict(a, b, orderMatters) && Verdict(b, c, orderMatters) ==> Verdict(a, c, orderMatters)
    ensures Verdict(a, b, true) ==> Verdict(a, b, false)
  {
    EquivalentReflexive(Vals(a), orderMatters);
    if Equivalent(Vals(a), Vals(b), orderMatters) {
      EquivalentSymmetric(Vals(a), Vals(b), orderMatters);
      if Equivalent(Vals(b), Vals(c), orderMatters) {
        EquivalentTransitive(Vals(a), Vals(b), Vals(c), orderMatters);
      }
    }
    if Equivalent(Vals(a), Vals(b), true) && a != [] {
      var n := |a[0]|;
      var p: seq<nat> :| Matches(p, Vals(a), Vals(b), n, true);
      assert Matches(p, Vals(a), Vals(b), n, false);
    }
  }

  // ---------------------------------------------------------------- when the quick reject is safe

  predicate KeyLT<V>(x: Cell<V>, y: Cell<V>)
  {
    !KeyLE(y, x)
  }

  /** The cells' keys order their values: of two different values, every cell of one has a
      strictly smaller key than every cell of the other. */
  ghost predicate KeysOrderValues<V(!new)>(cells: iset<Cell<V>>)
  {
    forall x, y, z, w | x in cells && y in cells && z in cells && w in cells ::
      x.val == y.val && z.val == w.val && x.val != z.val && KeyLE(x, z) ==> KeyLT(y, w)
  }

  ghost predicate Over<V(!new)>(t: Table<V>, cells: iset<Cell<V>>)
  {
    forall r, c :: r in t && c in r ==> c in cells
  }

  ghost predicate ValLE<V(!new)>(cells: iset<Cell<V>>, u: V, v: V)
  {
    exists x, y :: x in cells && y in cells && x.val == u && y.val == v && KeyLE(x, y)
  }

  /** Sorting by key then yields a normal form of the row's bag of values. */
  lemma UnorderRowCanonical<V(!new)>(cells: iset<Cell<V>>, r: seq<Cell<V>>, s: seq<Cell<V>>)
    requires KeysOrderValues(cells)
    requires forall c :: c in r || c in s ==> c in cells
    requires multiset(RowVals(r)) == multiset(RowVals(s))
    ensures UnorderRow(r) == UnorderRow(s)
  {
    var le := (u: V, v: V) => ValLE(cells, u, v);
    UnorderRowSorted(cells, r, le);
    UnorderRowSorted(cells, s, le);
    forall u, v | le(u, v) && le(v, u) ensures u == v {
      var x, y :| x in cells && y in cells && x.val == u && y.val == v && KeyLE(x, y);
      var z, w :| z in cells && w in cells && z.val == v && w.val == u && KeyLE(z, w);
      assert u != v ==> KeyLT(w, z);
    }
    SortedUnique(le, UnorderRow(r), UnorderRow(s));
  }

  lemma UnorderRowSorted<V(!new)>(cells: iset<Cell<V>>, r: seq<Cell<V>>, le: (V, V) -> bool)
    requires forall c :: c in r ==> c in cells
    requires forall u, v :: le(u, v) == ValLE(cells, u, v)
    ensures Sorted(le, UnorderRow(r)) && multiset(UnorderRow(r)) == multiset(RowVals(r))
  {
    KeyPreorder<V>();
    SortPermutes(KeyLE, r);
    SortSorted(KeyLE, r);
    var s := Sort(KeyLE, r);
    MapMultiset(ValOf, s, r);
    forall i, j | 0 <= i < j < |s| ensures le(s[i].val, s[j].val) {
      assert s[i] in multiset(r) && s[j] in multiset(r);
    }
  }

  lemma EquivalentPasses<V(!new)>(a: Table<V>, b: Table<V>, orderMatters: bool, cells: iset<Cell<V>>)
    requires Rectangular(a) && Rectangular(b) && Over(a, cells) && Over(b, cells) && KeysOrderValues(cells)
    requires Equivalent(Vals(a), Vals(b), orderMatters)
    ensures QuickPass(a, b, orderMatters)
  {
    SameLength(Vals(a), Vals(b), orderMatters);
    if a == [] {
      assert Unordered(a) == Unordered(b);
    } else {
      var p: seq<nat> :| Matches(p, Vals(a), Vals(b), |a[0]|, orderMatters);
      MatchedTablePasses(a, b, p, |a[0]|, orderMatters, cells);
    }
  }

  lemma MatchedTablePasses<V(!new)>(a: Table<V>, b: Table<V>, p: seq<nat>, n: nat, orderMatters: bool,
                             cells: iset<Cell<V>>)
    requires Over(a, cells) && Over(b, cells) && KeysOrderValues(cells) && |a| == |b|
    requires Wide(Vals(b), n) && Matches(p, Vals(a), Vals(b), n, orderMatters)
    ensures if orderMatters then Unordered(a) == Unordered(b) else Elements(Unordered(a)) == Elements(Unordered(b))
  {
    MatchedRowsPass(a, b, p, n, cells);
    MatchPasses(Vals(a), PermuteAll(p, Vals(b)), Unordered(a), Unordered(b), orderMatters);
  }

  /** If equal rows have equal normal forms, equal tables have equal normal forms. */
  lemma MatchPasses<T>(va: seq<T>, pb: seq<T>, ua: seq<T>, ub: seq<T>, orderMatters: bool)
    requires |va| == |ua| == |pb| == |ub| && Same(va, pb, orderMatters)
    requires forall i, j :: 0 <= i < |va| && 0 <= j < |pb| && va[i] == pb[j] ==> ua[i] == ub[j]
    ensures if orderMatters then ua == ub else Elements(ua) == Elements(ub)
  {
    if !orderMatters {
      SameBagSameSet(va, pb);
      RowSetsPass(va, pb, ua, ub);
    }
  }

  /** Rows that the permutation makes equal have the same normal form. */
  lemma MatchedRowsPass<V(!new)>(a: Table<V>, b: Table<V>, p: seq<nat>, n: nat, cells: iset<Cell<V>>)
    requires Over(a, cells) && Over(b, cells) && KeysOrderValues(cells)
    requires IsPermutation(p, n) && Wide(Vals(b), n)
    ensures forall i, j :: 0 <= i < |a| && 0 <= j < |b| && Vals(a)[i] == PermuteAll(p, Vals(b))[j] ==>
              Unordered(a)[i] == Unordered(b)[j]
  {
    forall i, j | 0 <= i < |a| && 0 <= j < |b| && Vals(a)[i] == PermuteAll(p, Vals(b))[j]
      ensures UnorderRow(a[i]) == UnorderRow(b[j])
    {
      assert Vals(b)[j] in Vals(b);
      PermuteKeepsBag(p, Vals(b)[j]);
      UnorderRowCanonical(cells, a[i], b[j]);
    }
  }

  lemma RowSetsPass<T>(va: seq<T>, pb: seq<T>, ua: seq<T>, ub: seq<T>)
    requires |va| == |ua| && |pb| == |ub| && Elements(va) == Elements(pb)
    requires forall i, j :: 0 <= i < |va| && 0 <= j < |pb| && va[i] == pb[j] ==> ua[i] == ub[j]
    ensures Elements(ua) == Elements(ub)
  {
    forall i | 0 <= i < |ua| ensures ua[i] in ub {
      assert va[i] in Elements(pb);
    }
    forall j | 0 <= j < |ub| ensures ub[j] in ua {
      assert pb[j] in Elements(va);
    }
  }

  ghost predicate ExactOver<V(!new)>(cells: iset<Cell<V>>, orderMatters: bool)
  {
    forall a, b :: Rectangular(a) && Rectangular(b) && Over(a, cells) && Over(b, cells) ==>
      (Verdict(a, b, orderMatters) <==> Equivalent(Vals(a), Vals(b), orderMatters))
  }

  /** In either mode the comparison meets its specification on all tables over a set of cells exactly
      when the sort keys of those cells order their values. */
  lemma ExactIffKeysOrderValues<V(!new)>(cells: iset<Cell<V>>, orderMatters: bool)
    ensures ExactOver(cells, orderMatters) <==> KeysOrderValues(cells)
  {
    if KeysOrderValues(cells) {
      forall a, b | Rectangular(a) && Rectangular(b) && Over(a, cells) && Over(b, cells)
          && Equivalent(Vals(a), Vals(b), orderMatters)
        ensures QuickPass(a, b, orderMatters)
      {
        EquivalentPasses(a, b, orderMatters, cells);
      }
    } else {
      var x, y, z, w :| x in cells && y in cells && z in cells && w in cells
        && x.val == y.val && z.val == w.val && x.val != z.val && KeyLE(x, z) && !KeyLT(y, w);
      LostMatch(x, y, z, w, orderMatters);
      assert Over([[x, z]], cells) && Over([[w, y]], cells);
    }
  }

  /** Keys that disagree about two values make the quick reject drop a match: `[(x, z)]` and
      `[(w, y)]` are equal after swapping the columns, yet sort differently. */
  lemma LostMatch<V>(x: Cell<V>, y: Cell<V>, z: Cell<V>, w: Cell<V>, orderMatters: bool)
    requires x.val == y.val && z.val == w.val && x.val != z.val && KeyLE(x, z) && KeyLE(w, y)
    ensures Equivalent(Vals([[x, z]]), Vals([[w, y]]), orderMatters)
    ensures !Verdict([[x, z]], [[w, y]], orderMatters)
  {
    SwappedMatch([x.val, z.val], [z.val, x.val], x.val, z.val, orderMatters);
    assert Vals([[x, z]]) == [[x.val, z.val]] by { PairVals(x, z); }
    assert Vals([[w, y]]) == [[z.val, x.val]] by { PairVals(w, y); }
    SortedPair(x, z);
    SortedPair(w, y);
    OneElement([x.val, z.val], [z.val, x.val]);
  }

  lemma OneElement<T>(a: T, b: T)
    requires a != b
    ensures [a] != [b] && Elements([a]) != Elements([b])
  {
    assert a in Elements([a]) && a !in Elements([b]);
    assert [a][0] != [b][0];
  }

  lemma PairVals<V>(x: Cell<V>, z: Cell<V>)
    ensures Vals([[x, z]]) == [[x.val, z.val]]
  {
    assert RowVals([x, z]) == [x.val, z.val];
  }

  /** Two rows that differ by a swap of their two columns. */
  lemma SwappedMatch<V>(a: seq<V>, b: seq<V>, u: V, v: V, orderMatters: bool)
    requires a == [u, v] && b == [v, u]
    ensures Equivalent([a], [b], orderMatters)
  {
    var swap: seq<nat> := [1, 0];
    assert Permute(swap, b) == a;
    assert PermuteAll(swap, [b]) == [a];
    assert Matches(swap, [a], [b], 2, orderMatters);
  }

  /** A row of two cells in key order sorts to itself. */
  lemma SortedPair<V>(x: Cell<V>, z: Cell<V>)
    requires KeyLE(x, z)
    ensures Unordered([[x, z]]) == [[x.val, z.val]]
  {
    assert [x, z][1..] == [z] && [z][1..] == [];
    assert Sort(KeyLE, [z]) == [z];
    assert Sort(KeyLE, [x, z]) == [x, z];
    assert UnorderRow([x, z]) == [x.val, z.val];
  }
}
