/** What tools/run_full_shards.py makes of a plan before it runs anything: the collected node ids, the
    size check against the plan, and which ids each shard owes. */
module ShardRunner {
  import opened Ordering
  import opened Text
  import opened ShardPlan

  // ---------------------------------------------------------------- canonical node ids

  /** `parse_collect`. */
  function ParseCollect(lines: seq<string>): set<string>
  {
    set l | l in lines && Counted(l) :: Strip(l)
  }

  /** The node ids in line order, repetitions kept. */
  function NodeList(lines: seq<string>): seq<string>
  {
    if lines == [] then []
    else
      var n := |lines| - 1;
      NodeList(lines[..n]) + if Counted(lines[n]) then [Strip(lines[n])] else []
  }

  /** The canonical cases handed to one shard. */
  function ShardCases(nodes: set<string>, files: seq<string>): set<string>
  {
    set n | n in nodes && FileOf(n) in files
  }

  lemma {:induction false} BlankHasNoSeparator(s: string)
    requires forall i :: 0 <= i < |s| ==> IsSpace(s[i])
    ensures !HasSeparator(s)
  {
    if |s| >= 2 {
      BlankHasNoSeparator(s[1..]);
    }
  }

  /** Cutting trailing white space off a line cannot reach its separator. */
  lemma {:induction false} CutKeepsFile(s: string, n: nat)
    requires n <= |s| && HasSeparator(s) && forall i :: n <= i < |s| ==> IsSpace(s[i])
    ensures n >= 2 && FileOf(s[..n]) == FileOf(s)
  {
    if n == 0 {
      BlankHasNoSeparator(s);
    } else if s[0] == ':' && s[1] == ':' {
      assert !IsSpace(s[1]);
    } else {
      CutKeepsFile(s[1..], n - 1);
      assert s[..n][1..] == s[1..][..n - 1];
    }
  }

  lemma StripKeepsFile(line: string)
    requires Counted(line)
    ensures FileOf(Strip(line)) == FileOf(line)
  {
    assert line[0] == "tests/"[0];
    assert Strip(line) == StripRight(line);
    var r := StripRight(line);
    assert r == line[..|r|];
    CutKeepsFile(line, |r|);
  }

  lemma {:induction false} NodeListFacts(lines: seq<string>)
    ensures Elements(NodeList(lines)) == ParseCollect(lines)
    ensures Map(FileOf, NodeList(lines)) == Files(lines)
  {
    if lines != [] {
      var n := |lines| - 1;
      NodeListFacts(lines[..n]);
      assert lines == lines[..n] + [lines[n]];
      if Counted(lines[n]) {
        StripKeepsFile(lines[n]);
        MapConcat(FileOf, NodeList(lines[..n]), [Strip(lines[n])]);
        assert Map(FileOf, [Strip(lines[n])]) == [FileOf(lines[n])];
        assert ParseCollect(lines) == ParseCollect(lines[..n]) + {Strip(lines[n])};
      } else {
        assert ParseCollect(lines) == ParseCollect(lines[..n]);
      }
    }
  }

  /** The runner's size check passes exactly when no node id was collected twice. */
  lemma SizeCheckMeansDistinct(lines: seq<string>, target: int)
    ensures |ParseCollect(lines)| == PlanOf(lines, target).collectedCases <==> Distinct(NodeList(lines))
  {
    NodeListFacts(lines);
    PlanTotals(lines, target);
    DistinctByCount(NodeList(lines));
  }

  lemma {:induction false} WeighOneMore(files: seq<string>, m: multiset<string>, f: string)
    ensures Load(files, m + multiset{f}) == Load(files, m) + multiset(files)[f]
  {
    if files != [] {
      WeighOneMore(files[1..], m, f);
      assert files == [files[0]] + files[1..];
    }
  }

  lemma ShardCasesAdd(nodes: set<string>, x: string, files: seq<string>)
    requires x !in nodes
    ensures |ShardCases(nodes + {x}, files)| == |ShardCases(nodes, files)| + if FileOf(x) in files then 1 else 0
  {
    if FileOf(x) in files {
      assert ShardCases(nodes + {x}, files) == ShardCases(nodes, files) + {x};
    } else {
      assert ShardCases(nodes + {x}, files) == ShardCases(nodes, files);
    }
  }

  /** Distinct nodes, counted through a shard's files. */
  lemma {:induction false} ShardCasesCount(nodes: seq<string>, files: seq<string>)
    requires Distinct(nodes) && Distinct(files)
    ensures |ShardCases(Elements(nodes), files)| == Load(files, multiset(Map(FileOf, nodes)))
  {
    if nodes == [] {
      assert ShardCases(Elements(nodes), files) == {};
      assert Map(FileOf, nodes) == [];
      EmptyLoad(files);
    } else {
      var n := |nodes| - 1;
      var rest, x := nodes[..n], nodes[n];
      ShardCasesCount(rest, files);
      assert Map(FileOf, nodes) == Map(FileOf, rest) + [FileOf(x)];
      WeighOneMore(files, multiset(Map(FileOf, rest)), FileOf(x));
      DistinctMultiplicity(files, FileOf(x));
      assert Elements(nodes) == Elements(rest) + {x};
      ShardCasesAdd(Elements(rest), x, files);
    }
  }

  lemma {:induction false} EmptyLoad(files: seq<string>)
    ensures Load(files, multiset{}) == 0
  {
    if files != [] {
      EmptyLoad(files[1..]);
    }
  }

  lemma {:induction false} BinAtMostFlatten(bins: seq<seq<string>>, i: nat, f: string)
    requires i < |bins|
    ensures multiset(bins[i])[f] <= multiset(Flatten(bins))[f]
  {
    if i > 0 {
      BinAtMostFlatten(bins[1..], i - 1, f);
    }
  }

  lemma {:induction false} TwoBinsAtMostFlatten(bins: seq<seq<string>>, i: nat, j: nat, f: string)
    requires i < j < |bins|
    ensures multiset(bins[i])[f] + multiset(bins[j])[f] <= multiset(Flatten(bins))[f]
  {
    if i > 0 {
      TwoBinsAtMostFlatten(bins[1..], i - 1, j - 1, f);
    } else {
      BinAtMostFlatten(bins[1..], j - 1, f);
    }
  }

  lemma {:induction false} InSomeBin(bins: seq<seq<string>>, f: string) returns (i: nat)
    requires f in Flatten(bins)
    ensures i < |bins| && f in bins[i]
  {
    if f in bins[0] {
      i := 0;
    } else {
      var j := InSomeBin(bins[1..], f);
      i := j + 1;
    }
  }

  /** The canonical cases of shard `i` of the plan. */
  function CasesOf(lines: seq<string>, target: int, i: nat): set<string>
    requires i < |PlanOf(lines, target).shards|
  {
    ShardCases(ParseCollect(lines), PlanOf(lines, target).shards[i].files)
  }

  lemma SharesCount(nodes: seq<string>, bins: seq<seq<string>>, m: multiset<string>, i: nat)
    requires Distinct(nodes) && Partitions(bins, m) && i < |bins| && m == multiset(Map(FileOf, nodes))
    ensures |ShardCases(Elements(nodes), bins[i])| == Load(bins[i], m)
  {
    forall f ensures multiset(bins[i])[f] <= 1 {
      BinAtMostFlatten(bins, i, f);
    }
    MultiplicityDistinct(bins[i]);
    ShardCasesCount(nodes, bins[i]);
  }

  lemma SharesDisjoint(nodes: set<string>, bins: seq<seq<string>>, m: multiset<string>, i: nat, j: nat)
    requires Partitions(bins, m) && i < j < |bins|
    ensures ShardCases(nodes, bins[i]) !! ShardCases(nodes, bins[j])
  {
    forall n | n in ShardCases(nodes, bins[i]) ensures FileOf(n) !in bins[j] {
      TwoBinsAtMostFlatten(bins, i, j, FileOf(n));
      assert FileOf(n) in multiset(bins[i]);
    }
  }

  lemma SharesCover(nodes: seq<string>, bins: seq<seq<string>>, m: multiset<string>, n: string) returns (i: nat)
    requires Partitions(bins, m) && n in nodes && m == multiset(Map(FileOf, nodes))
    ensures i < |bins| && n in ShardCases(Elements(nodes), bins[i])
  {
    var k :| 0 <= k < |nodes| && nodes[k] == n;
    assert Map(FileOf, nodes)[k] == FileOf(n);
    assert FileOf(n) in m;
    assert FileOf(n) in multiset(Flatten(bins));
    i := InSomeBin(bins, FileOf(n));
  }

  /** A shard owes the collected node ids that belong to one of its files. */
  lemma CasesMean(lines: seq<string>, target: int, i: nat, n: string)
    requires i < |PlanOf(lines, target).shards|
    ensures n in CasesOf(lines, target, i) <==>
            n in ParseCollect(lines) && exists f :: f in PlanOf(lines, target).shards[i].files && InFile(n, f)
  {
    FileMeans(n, FileOf(n));
    forall f | InFile(n, f) ensures f == FileOf(n) {
      FileMeans(n, f);
    }
  }

  /** The node ids are the collected lines without white space at either end. */
  lemma CollectMeans(lines: seq<string>, n: string)
    ensures n in ParseCollect(lines) <==> exists l :: l in lines && IsNode(l, n)
  {
    forall l | l in lines ensures IsNode(l, n) <==> Counted(l) && n == Strip(l) {
      NodeMeans(l, n);
    }
  }

  ghost predicate IsNode(line: string, node: string)
  {
    (exists f :: CaseOf(line, f)) && exists a, b :: line == a + (node + b) && Blank(a) && Blank(b) && Trimmed(node)
  }

  lemma BlankJoin(a: string, b: string)
    requires Blank(a) && Blank(b)
    ensures Blank(a + ("" + b))
  {
  }

  lemma NodeNotEmpty(line: string, a: string, node: string, b: string)
    requires line == a + (node + b) && Blank(a) && Blank(b) && line != "" && !IsSpace(line[0])
    ensures node != ""
  {
    BlankJoin(a, b);
  }

  lemma NodeMeans(line: string, node: string)
    ensures IsNode(line, node) <==> Counted(line) && node == Strip(line)
  {
    CountedMeans(line, FileOf(line));
    forall f | CaseOf(line, f) ensures Counted(line) {
      CountedMeans(line, f);
    }
    if Counted(line) {
      var a, b := StripMeans(line);
      assert line[0] == 't' && !IsSpace(line[0]);
      forall c, d | line == c + (node + d) && Blank(c) && Blank(d) && Trimmed(node) ensures node == Strip(line) {
        NodeNotEmpty(line, c, node, d);
        StripUnique(c, node, d);
      }
    }
  }

  /** Planner and runner agree: once the size check passes, every shard owes exactly as many node
      ids as the planner counted for it, no id is owed twice, and none is owed by nobody. */
  lemma PlannerRunnerAgree(lines: seq<string>, target: int)
    requires |ParseCollect(lines)| == PlanOf(lines, target).collectedCases
    ensures var shards := PlanOf(lines, target).shards;
            && (forall i :: 0 <= i < |shards| ==> |CasesOf(lines, target, i)| == shards[i].caseCount)
            && (forall i, j :: 0 <= i < j < |shards| ==> CasesOf(lines, target, i) !! CasesOf(lines, target, j))
            && (forall n :: n in ParseCollect(lines) ==>
                  exists i :: 0 <= i < |shards| && n in CasesOf(lines, target, i))
  {
    var shards, m, nodes := PlanOf(lines, target).shards, CaseCounts(lines), NodeList(lines);
    PlanPartitions(lines, target);
    SizeCheckMeansDistinct(lines, target);
    NodeListFacts(lines);
    forall i | 0 <= i < |shards| ensures |CasesOf(lines, target, i)| == shards[i].caseCount {
      SharesCount(nodes, Bins(shards), m, i);
    }
    forall i, j | 0 <= i < j < |shards| ensures CasesOf(lines, target, i) !! CasesOf(lines, target, j) {
      SharesDisjoint(ParseCollect(lines), Bins(shards), m, i, j);
    }
    forall n | n in ParseCollect(lines) ensures exists i :: 0 <= i < |shards| && n in CasesOf(lines, target, i) {
      assert n in Elements(nodes);
      var i := SharesCover(nodes, Bins(shards), m, n);
      assert n in CasesOf(lines, target, i);
    }
  }

  // ---------------------------------------------------------------- shard ids

  lemma PaddedInjective(m: nat, n: nat)
    requires m > 0 && n > 0 && Padded(m) == Padded(n)
    ensures m == n
  {
    var a, b := Decimal(m), Decimal(n);
    TwoDigits(m);
    TwoDigits(n);
    assert Padded(m)[0] != '0' <==> m >= 100;
    assert Padded(n)[0] != '0' <==> n >= 100;
    assert m < 100 ==> (Padded(m)[1] != '0' <==> m >= 10);
    assert n < 100 ==> (Padded(n)[1] != '0' <==> n >= 10);
    assert Padded(m)[|Padded(m)| - |a|..] == a && Padded(n)[|Padded(n)| - |b|..] == b;
    assert |a| == |b|;
    DecimalInjective(m, n);
  }

  lemma TwoDigits(n: nat)
    ensures 10 <= n < 100 ==> |Decimal(n)| == 2
  {
  }

  function IdOf(s: Shard): string { s.id }

  /** An id is its number, filled up with zeros to three digits. */
  lemma ShardIdMeans(n: nat)
    ensures var zeros := if n < 10 then "00" else if n < 100 then "0" else "";
      ShardId(n) == "shard-" + (zeros + Decimal(n)) && NumberOf(Decimal(n)) == n
  {
    DecimalMeans(n);
    assert "" + Decimal(n) == Decimal(n);
  }

  lemma ShardIdInjective(m: nat, n: nat)
    requires m > 0 && n > 0 && ShardId(m) == ShardId(n)
    ensures m == n
  {
    assert ShardId(m)[6..] == Padded(m) && ShardId(n)[6..] == Padded(n);
    PaddedInjective(m, n);
  }

  lemma NumberedShardsDistinct(shards: seq<Shard>)
    requires forall i :: 0 <= i < |shards| ==> shards[i].id == ShardId(i + 1)
    ensures Distinct(Map(IdOf, shards))
  {
    forall i, j | 0 <= i < j < |shards| ensures shards[i].id != shards[j].id {
      if shards[i].id == shards[j].id {
        ShardIdInjective(i + 1, j + 1);
      }
    }
  }

  /** The ids of a plan name its shards apart, which the results dictionary relies on. */
  lemma PlanIdsDistinct(lines: seq<string>, target: int)
    ensures Distinct(Map(IdOf, PlanOf(lines, target).shards))
  {
    PlanPartitions(lines, target);
    NumberedShardsDistinct(PlanOf(lines, target).shards);
  }
}
