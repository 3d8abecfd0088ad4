/** The bounded-walk expansion of examples/MANGO/PolicyGradient.py (`get_neighbours`): the nodes
    reached in up to `k` steps, one entry per walk, and the step count recorded for each node. */
module Walks {
  import opened Ordering

  /** The successor lists of a simple directed graph. */
  type Graph = map<nat, seq<nat>>

  /** Every successor is a node, and no edge is listed twice. */
  ghost predicate IsGraph(g: Graph)
  {
    forall v :: v in g ==> Distinct(g[v]) && forall u :: u in g[v] ==> u in g
  }

  /** `list(G.successors(n))`. */
  function Succ(g: Graph, n: nat): seq<nat>
  {
    if n in g then g[n] else []
  }

  /** `new_neighbours += list(G.successors(n))` for each `n` in turn. */
  function Successors(g: Graph, ns: seq<nat>): seq<nat>
  {
    if ns == [] then [] else Succ(g, ns[0]) + Successors(g, ns[1..])
  }

  /** The nodes after exactly `i` steps, in the order the expansion meets them. */
  function Level(g: Graph, v: nat, i: nat): seq<nat>
  {
    if i == 0 then [v] else Successors(g, Level(g, v, i - 1))
  }

  /** Levels 1 to `i` one after the other. */
  function Levels(g: Graph, v: nat, i: nat): seq<nat>
  {
    if i == 0 then [] else Levels(g, v, i - 1) + Level(g, v, i)
  }

  lemma {:induction false} SuccessorsClosed(g: Graph, ns: seq<nat>)
    requires IsGraph(g)
    ensures forall n :: n in Successors(g, ns) ==> n in g
  {
    if ns != [] {
      SuccessorsClosed(g, ns[1..]);
    }
  }

  lemma LevelClosed(g: Graph, v: nat, i: nat)
    requires IsGraph(g) && v in g
    ensures forall n :: n in Level(g, v, i) ==> n in g
  {
    if i > 0 {
      SuccessorsClosed(g, Level(g, v, i - 1));
    }
  }

  lemma {:induction false} SuccessorsAppend(g: Graph, ns: seq<nat>, n: nat)
    ensures Successors(g, ns + [n]) == Successors(g, ns) + Succ(g, n)
  {
    if ns == [] {
      assert ns + [n] == [n];
    } else {
      SuccessorsAppend(g, ns[1..], n);
      assert (ns + [n])[1..] == ns[1..] + [n] && (ns + [n])[0] == ns[0];
      Regroup(Succ(g, ns[0]), Successors(g, ns[1..]), Succ(g, n));
    }
  }

  // ---------------------------------------------------------------- get_neighbours

  function LevelOf(g: Graph, v: nat): nat -> seq<nat>
  {
    (i: nat) => Level(g, v, i)
  }

  /** `steps` holds, for each node on levels 1 to `i`, the last of these levels it is on. */
  ghost predicate LastLevels(level: nat -> seq<nat>, i: nat, steps: map<nat, nat>)
  {
    && (forall n :: n in steps ==> 1 <= steps[n] <= i && n in level(steps[n]))
    && (forall n, j :: 1 <= j <= i && n in level(j) ==> n in steps && j <= steps[n])
  }

  method Expand(g: Graph, neighbours: seq<nat>) returns (next: seq<nat>)
    requires forall n :: n in neighbours ==> n in g
    ensures next == Successors(g, neighbours)
  {
    next := [];
    for j := 0 to |neighbours|
      invariant next == Successors(g, neighbours[..j])
    {
      SuccessorsAppend(g, neighbours[..j], neighbours[j]);
      assert neighbours[..j + 1] == neighbours[..j] + [neighbours[j]];
      next := next + g[neighbours[j]];
    }
    assert neighbours[..|neighbours|] == neighbours;
  }

  /** `stamped` is `steps` with every node of the level set to `i`. */
  ghost predicate Stamped(level: seq<nat>, i: nat, steps: map<nat, nat>, stamped: map<nat, nat>)
  {
    && stamped.Keys == steps.Keys + Elements(level)
    && forall n :: n in stamped ==> stamped[n] == if n in level then i else steps[n]
  }

  method Stamp(level: seq<nat>, i: nat, steps: map<nat, nat>) returns (stamped: map<nat, nat>)
    ensures Stamped(level, i, steps, stamped)
  {
    stamped := steps;
    for j := 0 to |level|
      invariant Stamped(level[..j], i, steps, stamped)
    {
      assert level[..j + 1] == level[..j] + [level[j]];
      stamped := stamped[level[j] := i];
    }
    assert level[..|level|] == level;
  }

  lemma StampKeepsLast(level: nat -> seq<nat>, i: nat, steps: map<nat, nat>, stamped: map<nat, nat>)
    requires LastLevels(level, i, steps) && Stamped(level(i + 1), i + 1, steps, stamped)
    ensures LastLevels(level, i + 1, stamped)
  {
  }

  /** After `i` levels: the last level, the list of all, and the step entries. */
  ghost predicate Expanded(g: Graph, v: nat, i: nat, level: seq<nat>, list: seq<nat>, steps: map<nat, nat>)
  {
    level == Level(g, v, i) && list == Levels(g, v, i) && LastLevels(LevelOf(g, v), i, steps)
  }

  lemma ExpandedNext(g: Graph, v: nat, i: nat, level: seq<nat>, list: seq<nat>, steps: map<nat, nat>, next: seq<nat>,
                     stamped: map<nat, nat>)
    requires Expanded(g, v, i, level, list, steps) && next == Successors(g, level)
        && Stamped(next, i + 1, steps, stamped)
    ensures Expanded(g, v, i + 1, next, list + next, stamped)
  {
    assert Level(g, v, i + 1) == next && Levels(g, v, i + 1) == list + next;
    StampKeepsLast(LevelOf(g, v), i, steps, stamped);
  }

  lemma ExpandedClosed(g: Graph, v: nat, i: nat, level: seq<nat>, list: seq<nat>, steps: map<nat, nat>)
    requires IsGraph(g) && v in g && Expanded(g, v, i, level, list, steps)
    ensures forall n :: n in level ==> n in g
  {
    LevelClosed(g, v, i);
  }

  method GetNeighbours(g: Graph, v: nat, k: int) returns (list: seq<nat>, steps: map<nat, nat>)
    requires IsGraph(g) && v in g
    ensures list == Levels(g, v, if k < 1 then 1 else k)
    ensures LastLevels(LevelOf(g, v), if k < 1 then 1 else k, steps)
  {
    list := g[v];
    steps := Stamp(list, 1, map[]);
    FirstLevel(g, v, steps);
    var neighbours := list;
    var i := 1;
    while i < k
      invariant 1 <= i && (i <= k || i == 1)
      invariant Expanded(g, v, i, neighbours, list, steps)
    {
      ghost var level, all, before := neighbours, list, steps;
      ExpandedClosed(g, v, i, level, all, before);
      neighbours := Expand(g, neighbours);
      steps := Stamp(neighbours, i + 1, steps);
      list := list + neighbours;
      ExpandedNext(g, v, i, level, all, before, neighbours, steps);
      i := i + 1;
    }
  }

  lemma FirstLevel(g: Graph, v: nat, steps: map<nat, nat>)
    requires IsGraph(g) && v in g && Stamped(g[v], 1, map[], steps)
    ensures Expanded(g, v, 1, g[v], g[v], steps)
  {
    assert [v][1..] == [];
    assert Successors(g, [v]) == g[v] + [];
    assert [] + g[v] == g[v];
    ExpandedNext(g, v, 0, [v], [], map[], g[v], steps);
  }

  // ---------------------------------------------------------------- walks

  /** A walk of the graph from `v`, as its node sequence. */
  ghost predicate IsWalk(g: Graph, v: nat, w: seq<nat>)
  {
    && w != [] && w[0] == v
    && forall i :: 0 <= i < |w| - 1 ==> w[i + 1] in Succ(g, w[i])
  }

  function End(w: seq<nat>): nat
  {
    if w == [] then 0 else w[|w| - 1]
  }

  /** The ends of walks, walk by walk. */
  function Ends(ws: seq<seq<nat>>): (r: seq<nat>)
    ensures |r| == |ws| && forall i :: 0 <= i < |ws| ==> r[i] == End(ws[i])
  {
    if ws == [] then [] else [End(ws[0])] + Ends(ws[1..])
  }

  lemma EndsAt(a: seq<seq<nat>>, b: seq<seq<nat>>, i: nat)
    requires i < |a| + |b|
    ensures Ends(a + b)[i] == if i < |a| then Ends(a)[i] else Ends(b)[i - |a|]
  {
    assert (a + b)[i] == if i < |a| then a[i] else b[i - |a|];
  }

  lemma EndsConcat(a: seq<seq<nat>>, b: seq<seq<nat>>)
    ensures Ends(a + b) == Ends(a) + Ends(b)
  {
    forall i: nat | i < |a| + |b| ensures Ends(a + b)[i] == (Ends(a) + Ends(b))[i] {
      EndsAt(a, b, i);
    }
  }

  lemma EndsJoin(a: seq<seq<nat>>, b: seq<seq<nat>>, ends: seq<nat>, more: seq<nat>)
    requires Ends(a) == ends && Ends(b) == more
    ensures Ends(a + b) == ends + more
  {
    EndsConcat(a, b);
  }

  function Extend(w: seq<nat>, us: seq<nat>): seq<seq<nat>>
  {
    if us == [] then [] else [w + [us[0]]] + Extend(w, us[1..])
  }

  function ExtendAll(g: Graph, ws: seq<seq<nat>>): seq<seq<nat>>
  {
    if ws == [] then [] else Extend(ws[0], Succ(g, End(ws[0]))) + ExtendAll(g, ws[1..])
  }

  /** The walks behind the entries of a level, entry by entry. */
  function WalkList(g: Graph, v: nat, i: nat): seq<seq<nat>>
  {
    if i == 0 then [[v]] else ExtendAll(g, WalkList(g, v, i - 1))
  }

  lemma {:induction false} ExtendEnds(w: seq<nat>, us: seq<nat>)
    ensures Ends(Extend(w, us)) == us
  {
    if us == [] {
      assert Ends(Extend(w, us)) == [];
    } else {
      ExtendEnds(w, us[1..]);
      EndsConcat([w + [us[0]]], Extend(w, us[1..]));
      assert us == [us[0]] + us[1..];
    }
  }

  lemma {:induction false} ExtendAllEnds(g: Graph, ws: seq<seq<nat>>)
    ensures Ends(ExtendAll(g, ws)) == Successors(g, Ends(ws))
  {
    if ws == [] {
      assert Ends(ws) == [];
    } else {
      ExtendAllEnds(g, ws[1..]);
      ExtendEnds(ws[0], Succ(g, End(ws[0])));
      EndsConcat(Extend(ws[0], Succ(g, End(ws[0]))), ExtendAll(g, ws[1..]));
      EndsConcat([ws[0]], ws[1..]);
      assert ws == [ws[0]] + ws[1..];
      assert Ends(ws)[1..] == Ends(ws[1..]);
    }
  }

  /** Each entry of a level is the end of its walk. */
  lemma {:induction false} WalkListEnds(g: Graph, v: nat, i: nat)
    ensures Ends(WalkList(g, v, i)) == Level(g, v, i)
  {
    if i == 0 {
      assert Ends([[v]]) == [v];
    } else {
      WalkListEnds(g, v, i - 1);
      ExtendAllEnds(g, WalkList(g, v, i - 1));
    }
  }

  /** Multiplicity one for a property, zero otherwise. */
  ghost function Once(b: bool): nat { if b then 1 else 0 }

  function Front(w: seq<nat>): seq<nat>
  {
    if w == [] then [] else w[..|w| - 1]
  }

  lemma {:induction false} ExtendCounts(w: seq<nat>, us: seq<nat>, x: seq<nat>)
    ensures multiset(Extend(w, us))[x] == if x != [] && Front(x) == w then multiset(us)[End(x)] else 0
  {
    if us != [] {
      ExtendCounts(w, us[1..], x);
      assert us == [us[0]] + us[1..];
      assert x == w + [us[0]] <==> x != [] && Front(x) == w && End(x) == us[0] by {
        if x != [] && Front(x) == w && End(x) == us[0] {
          assert x == Front(x) + [End(x)];
        }
      }
    }
  }

  /** Each walk is extended once by each successor of its end. */
  lemma {:induction false} ExtendAllCounts(g: Graph, ws: seq<seq<nat>>, x: seq<nat>)
    requires Distinct(ws)
    ensures multiset(ExtendAll(g, ws))[x]
         == if x != [] && Front(x) in ws then multiset(Succ(g, End(Front(x))))[End(x)] else 0
  {
    if ws != [] {
      ExtendAllCounts(g, ws[1..], x);
      ExtendCounts(ws[0], Succ(g, End(ws[0])), x);
      assert forall w :: w in ws <==> w == ws[0] || w in ws[1..];
      assert ws[0] !in ws[1..];
    }
  }

  lemma WalkFront(g: Graph, v: nat, x: seq<nat>)
    requires |x| >= 2
    ensures IsWalk(g, v, x) <==> IsWalk(g, v, Front(x)) && End(x) in Succ(g, End(Front(x)))
  {
    var f := Front(x);
    assert x[|x| - 2] == End(f) && x[|x| - 1] == End(x);
    assert forall i :: 0 <= i < |f| ==> f[i] == x[i];
    if IsWalk(g, v, f) && End(x) in Succ(g, End(f)) {
      forall i | 0 <= i < |x| - 1 ensures x[i + 1] in Succ(g, x[i]) {
        if i < |f| - 1 {
          assert f[i + 1] in Succ(g, f[i]);
        }
      }
    }
    if IsWalk(g, v, x) {
      forall i | 0 <= i < |f| - 1 ensures f[i + 1] in Succ(g, f[i]) {
        assert x[i + 1] in Succ(g, x[i]);
      }
      assert x[|x| - 2 + 1] in Succ(g, x[|x| - 2]);
    }
  }

  lemma {:induction false} WalkListDistinct(g: Graph, v: nat, i: nat)
    requires IsGraph(g)
    ensures Distinct(WalkList(g, v, i))
    decreases i, 1
  {
    forall x ensures multiset(WalkList(g, v, i))[x] <= 1 {
      WalkListExact(g, v, i, x);
    }
    MultiplicityDistinct(WalkList(g, v, i));
  }

  /** The walk list of a level holds every walk of that length exactly once. */
  lemma {:induction false} WalkListExact(g: Graph, v: nat, i: nat, x: seq<nat>)
    requires IsGraph(g)
    ensures multiset(WalkList(g, v, i))[x] == Once(IsWalk(g, v, x) && |x| == i + 1)
    decreases i, 0
  {
    if i == 0 {
      assert IsWalk(g, v, x) && |x| == 1 <==> x == [v];
    } else {
      WalkListDistinct(g, v, i - 1);
      WalkListExact(g, v, i - 1, Front(x));
      WalkListStep(g, v, WalkList(g, v, i - 1), i, x);
    }
  }

  lemma WalkListStep(g: Graph, v: nat, ws: seq<seq<nat>>, i: nat, x: seq<nat>)
    requires IsGraph(g) && i > 0 && Distinct(ws)
    requires multiset(ws)[Front(x)] == Once(IsWalk(g, v, Front(x)) && |Front(x)| == i)
    ensures multiset(ExtendAll(g, ws))[x] == Once(IsWalk(g, v, x) && |x| == i + 1)
  {
    ExtendAllCounts(g, ws, x);
    assert Front(x) in ws <==> multiset(ws)[Front(x)] > 0;
    DistinctMultiplicity(Succ(g, End(Front(x))), End(x));
    if |x| >= 2 {
      WalkFront(g, v, x);
    }
  }

  /** The walks of lengths 1 to `k`, level by level. */
  function AllWalks(g: Graph, v: nat, k: nat): seq<seq<nat>>
  {
    if k == 0 then [] else AllWalks(g, v, k - 1) + WalkList(g, v, k)
  }

  lemma {:induction false} AllWalksEnds(g: Graph, v: nat, k: nat)
    ensures Ends(AllWalks(g, v, k)) == Levels(g, v, k)
  {
    if k > 0 {
      AllWalksEnds(g, v, k - 1);
      WalkListEnds(g, v, k);
      EndsJoin(AllWalks(g, v, k - 1), WalkList(g, v, k), Levels(g, v, k - 1), Level(g, v, k));
    }
  }

  lemma {:induction false} AllWalksExact(g: Graph, v: nat, k: nat, x: seq<nat>)
    requires IsGraph(g)
    ensures multiset(AllWalks(g, v, k))[x] == Once(IsWalk(g, v, x) && 2 <= |x| <= k + 1)
  {
    if k > 0 {
      AllWalksExact(g, v, k - 1, x);
      WalkListExact(g, v, k, x);
    }
  }

  ghost function WithEnd(ws: seq<seq<nat>>, u: nat): set<seq<nat>>
  {
    set w | w in ws && End(w) == u
  }

  /** The walks of length 1 to `k` from `v` to `u`. */
  ghost function WalksTo(g: Graph, v: nat, k: nat, u: nat): set<seq<nat>>
  {
    WithEnd(AllWalks(g, v, k), u)
  }

  lemma WalksToIsExact(g: Graph, v: nat, k: nat, u: nat, w: seq<nat>)
    requires IsGraph(g)
    ensures w in WalksTo(g, v, k, u) <==> IsWalk(g, v, w) && 2 <= |w| <= k + 1 && End(w) == u
  {
    AllWalksExact(g, v, k, w);
    assert w in AllWalks(g, v, k) <==> multiset(AllWalks(g, v, k))[w] > 0;
  }

  lemma WithEndCons(x: seq<nat>, ws: seq<seq<nat>>, u: nat)
    requires x !in ws
    ensures |WithEnd([x] + ws, u)| == |WithEnd(ws, u)| + Once(End(x) == u)
  {
    if End(x) == u {
      assert WithEnd([x] + ws, u) == WithEnd(ws, u) + {x};
    } else {
      assert WithEnd([x] + ws, u) == WithEnd(ws, u);
    }
  }

  lemma CountCons(a: nat, s: seq<nat>, u: nat)
    ensures multiset([a] + s)[u] == multiset(s)[u] + Once(a == u)
  {
  }

  lemma {:induction false} CountByEnd(ws: seq<seq<nat>>, u: nat)
    requires Distinct(ws)
    ensures multiset(Ends(ws))[u] == |WithEnd(ws, u)|
  {
    if ws == [] {
      assert Ends(ws) == [];
      assert WithEnd(ws, u) == {};
    } else {
      CountByEnd(ws[1..], u);
      CountByEndStep(ws[0], ws[1..], u);
      assert ws == [ws[0]] + ws[1..];
    }
  }

  lemma CountByEndStep(w: seq<nat>, ws: seq<seq<nat>>, u: nat)
    requires w !in ws && multiset(Ends(ws))[u] == |WithEnd(ws, u)|
    ensures multiset(Ends([w] + ws))[u] == |WithEnd([w] + ws, u)|
  {
    EndsConcat([w], ws);
    assert Ends([w]) == [End(w)];
    CountCons(End(w), Ends(ws), u);
    WithEndCons(w, ws, u);
  }

  lemma AllWalksDistinct(g: Graph, v: nat, k: nat)
    requires IsGraph(g)
    ensures Distinct(AllWalks(g, v, k))
  {
    forall x ensures multiset(AllWalks(g, v, k))[x] <= 1 {
      AllWalksExact(g, v, k, x);
    }
    MultiplicityDistinct(AllWalks(g, v, k));
  }

  /** A node occurs in the neighbour list once for each walk of length 1 to `k` that leads to it. */
  lemma MultiplicityCountsWalks(g: Graph, v: nat, k: nat, u: nat)
    requires IsGraph(g)
    ensures multiset(Levels(g, v, k))[u] == |WalksTo(g, v, k, u)|
  {
    AllWalksDistinct(g, v, k);
    AllWalksEnds(g, v, k);
    CountByEnd(AllWalks(g, v, k), u);
  }

  /** Two walks part at place `k`, where the first takes an earlier successor than the second. */
  ghost predicate Parts(g: Graph, w: seq<nat>, x: seq<nat>, k: nat, a: nat, b: nat)
  {
    && 0 < k < |w| && k < |x| && w[..k] == x[..k] && a < b < |Succ(g, w[k - 1])|
    && Succ(g, w[k - 1])[a] == w[k] && Succ(g, w[k - 1])[b] == x[k]
  }

  /** A shorter walk, or one as long that takes an earlier successor where they part. */
  ghost predicate Earlier(g: Graph, w: seq<nat>, x: seq<nat>)
  {
    |w| < |x| || (|w| == |x| && exists k: nat, a: nat, b: nat :: Parts(g, w, x, k, a, b))
  }

  ghost predicate InOrder(g: Graph, ws: seq<seq<nat>>)
  {
    forall i, j :: 0 <= i < j < |ws| ==> Earlier(g, ws[i], ws[j])
  }

  lemma InOrderConcat(g: Graph, a: seq<seq<nat>>, b: seq<seq<nat>>)
    requires InOrder(g, a) && InOrder(g, b) && forall w, x :: w in a && x in b ==> Earlier(g, w, x)
    ensures InOrder(g, a + b)
  {
  }

  lemma {:induction false} ExtendAt(w: seq<nat>, us: seq<nat>)
    ensures |Extend(w, us)| == |us| && forall i :: 0 <= i < |us| ==> Extend(w, us)[i] == w + [us[i]]
  {
    if us != [] {
      ExtendAt(w, us[1..]);
    }
  }

  lemma ExtendInOrder(g: Graph, w: seq<nat>)
    requires w != []
    ensures InOrder(g, Extend(w, Succ(g, End(w))))
  {
    var us := Succ(g, End(w));
    var ws := Extend(w, us);
    ExtendAt(w, us);
    forall i, j | 0 <= i < j < |ws| ensures Earlier(g, ws[i], ws[j]) {
      assert Parts(g, w + [us[i]], w + [us[j]], |w|, i, j);
    }
  }

  lemma PartsGoesOn(g: Graph, w: seq<nat>, x: seq<nat>, u: nat, v: nat, k: nat, a: nat, b: nat)
    requires Parts(g, w, x, k, a, b)
    ensures Parts(g, w + [u], x + [v], k, a, b)
  {
    assert (w + [u])[..k] == w[..k] && (x + [v])[..k] == x[..k];
  }

  /** Walks that part still do when both go on. */
  lemma EarlierGoesOn(g: Graph, w: seq<nat>, x: seq<nat>, u: nat, v: nat)
    requires |w| == |x| && Earlier(g, w, x)
    ensures Earlier(g, w + [u], x + [v])
  {
    var k: nat, a: nat, b: nat :| Parts(g, w, x, k, a, b);
    PartsGoesOn(g, w, x, u, v, k, a, b);
  }

  /** What a list of walks is extended to are its walks, each with one more node. */
  lemma {:induction false} ExtendAllFronts(g: Graph, ws: seq<seq<nat>>, x: seq<nat>)
    requires x in ExtendAll(g, ws)
    ensures x != [] && Front(x) in ws && x == Front(x) + [End(x)]
  {
    ExtendAt(ws[0], Succ(g, End(ws[0])));
    if x !in Extend(ws[0], Succ(g, End(ws[0]))) {
      ExtendAllFronts(g, ws[1..], x);
    }
  }

  ghost predicate AllLong(ws: seq<seq<nat>>, n: nat)
  {
    forall w :: w in ws ==> |w| == n
  }

  lemma {:induction false} ExtendAllInOrder(g: Graph, ws: seq<seq<nat>>, n: nat)
    requires n > 0 && AllLong(ws, n) && InOrder(g, ws)
    ensures AllLong(ExtendAll(g, ws), n + 1) && InOrder(g, ExtendAll(g, ws))
  {
    if ws != [] {
      var first, rest := Extend(ws[0], Succ(g, End(ws[0]))), ExtendAll(g, ws[1..]);
      ExtendAllInOrder(g, ws[1..], n);
      ExtendInOrder(g, ws[0]);
      ExtendAt(ws[0], Succ(g, End(ws[0])));
      forall w, x | w in first && x in rest ensures Earlier(g, w, x) {
        FirstBefore(g, ws, n, w, x);
      }
      InOrderConcat(g, first, rest);
    }
  }

  lemma FirstBefore(g: Graph, ws: seq<seq<nat>>, n: nat, w: seq<nat>, x: seq<nat>)
    requires AllLong(ws, n) && InOrder(g, ws) && ws != []
    requires w in Extend(ws[0], Succ(g, End(ws[0]))) && x in ExtendAll(g, ws[1..])
    ensures Earlier(g, w, x)
  {
    var us := Succ(g, End(ws[0]));
    ExtendAt(ws[0], us);
    ExtendAllFronts(g, ws[1..], x);
    FirstBeforeRest(g, ws, x);
    var i :| 0 <= i < |us| && Extend(ws[0], us)[i] == w;
    EarlierGoesOn(g, ws[0], Front(x), us[i], End(x));
  }

  lemma FirstBeforeRest(g: Graph, ws: seq<seq<nat>>, x: seq<nat>)
    requires ws != [] && InOrder(g, ws) && Front(x) in ws[1..]
    ensures Earlier(g, ws[0], Front(x))
  {
    var j :| 0 <= j < |ws[1..]| && ws[1..][j] == Front(x);
    assert ws[j + 1] == Front(x);
  }

  lemma {:induction false} WalkListInOrder(g: Graph, v: nat, i: nat)
    ensures AllLong(WalkList(g, v, i), i + 1) && InOrder(g, WalkList(g, v, i))
  {
    if i > 0 {
      WalkListInOrder(g, v, i - 1);
      ExtendAllInOrder(g, WalkList(g, v, i - 1), i);
    }
  }

  lemma LongerFollow(g: Graph, a: seq<seq<nat>>, b: seq<seq<nat>>, n: nat)
    requires InOrder(g, a) && InOrder(g, b) && AllLong(b, n + 1) && forall w :: w in a ==> |w| <= n
    ensures InOrder(g, a + b) && forall w :: w in a + b ==> |w| <= n + 1
  {
    forall w, x | w in a && x in b ensures Earlier(g, w, x) {
    }
    InOrderConcat(g, a, b);
  }

  lemma {:induction false} AllWalksInOrder(g: Graph, v: nat, k: nat)
    ensures InOrder(g, AllWalks(g, v, k)) && forall w :: w in AllWalks(g, v, k) ==> |w| <= k + 1
  {
    if k > 0 {
      AllWalksInOrder(g, v, k - 1);
      WalkListInOrder(g, v, k);
      LongerFollow(g, AllWalks(g, v, k - 1), WalkList(g, v, k), k);
    }
  }

  /** The neighbour list is the list of the ends of the walks of length 1 to `k`, each walk once: shorter
      ones first, and those of a length in the order of the successors they take. */
  lemma ListIsWalksInOrder(g: Graph, v: nat, k: nat) returns (ws: seq<seq<nat>>)
    requires IsGraph(g)
    ensures Ends(ws) == Levels(g, v, k) && InOrder(g, ws)
    ensures forall w :: multiset(ws)[w] == if IsWalk(g, v, w) && 2 <= |w| <= k + 1 then 1 else 0
  {
    ws := AllWalks(g, v, k);
    AllWalksEnds(g, v, k);
    AllWalksInOrder(g, v, k);
    forall w ensures multiset(ws)[w] == Once(IsWalk(g, v, w) && 2 <= |w| <= k + 1) {
      AllWalksExact(g, v, k, w);
    }
  }

  lemma WalkReachesLevel(g: Graph, v: nat, w: seq<nat>)
    requires IsGraph(g) && IsWalk(g, v, w)
    ensures End(w) in Level(g, v, |w| - 1)
  {
    WalkListExact(g, v, |w| - 1, w);
    WalkListEnds(g, v, |w| - 1);
    var ws := WalkList(g, v, |w| - 1);
    assert w in multiset(ws);
    var j :| 0 <= j < |ws| && ws[j] == w;
    assert Ends(ws)[j] == End(w);
  }

  /** The step entry of a node is the length of the longest such walk, and only nodes some walk
      leads to have one. */
  lemma StepIsLongestWalk(g: Graph, v: nat, k: nat, steps: map<nat, nat>, u: nat)
    requires IsGraph(g) && LastLevels(LevelOf(g, v), k, steps)
    ensures u in steps <==> exists w :: w in WalksTo(g, v, k, u)
    ensures u in steps ==> exists w :: w in WalksTo(g, v, k, u) && |w| - 1 == steps[u]
    ensures u in steps ==> forall w :: w in WalksTo(g, v, k, u) ==> |w| - 1 <= steps[u]
  {
    forall w | w in WalksTo(g, v, k, u) ensures u in steps && |w| - 1 <= steps[u] {
      WalksToIsExact(g, v, k, u, w);
      WalkReachesLevel(g, v, w);
      assert u in LevelOf(g, v)(|w| - 1);
    }
    if u in steps {
      var w := WalkOfLevel(g, v, steps[u], u);
      WalksToIsExact(g, v, k, u, w);
      assert |w| - 1 == steps[u];
    }
  }

  lemma WalkOfLevel(g: Graph, v: nat, i: nat, u: nat) returns (w: seq<nat>)
    requires IsGraph(g) && u in Level(g, v, i)
    ensures IsWalk(g, v, w) && |w| == i + 1 && End(w) == u
  {
    var ws := WalkList(g, v, i);
    WalkListEnds(g, v, i);
    var j :| 0 <= j < |Ends(ws)| && Ends(ws)[j] == u;
    w := ws[j];
    WalkListExact(g, v, i, w);
    assert w in multiset(ws);
  }
}
