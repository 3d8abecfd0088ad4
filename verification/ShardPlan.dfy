/** The shard planner of tools/shardplan.py: count the collected cases of each test file, then
    put the files, biggest first, each into the least-loaded shard it fits in. */
module ShardPlan {
  import opened Ordering
  import opened Text

  // ---------------------------------------------------------------- collected lines

  predicate HasSeparator(s: string)
  {
    |s| >= 2 && ((s[0] == ':' && s[1] == ':') || HasSeparator(s[1..]))
  }

  /** `line.split("::", 1)[0]`. */
  function FileOf(s: string): string
  {
    if |s| < 2 then s
    else if s[0] == ':' && s[1] == ':' then ""
    else [s[0]] + FileOf(s[1..])
  }

  predicate Counted(line: string)
  {
    StartsWith(line, "tests/") && HasSeparator(line)
  }

  lemma {:induction false} SeparatorMeans(s: string)
    ensures HasSeparator(s) <==> exists i :: SeparatorAt(s, i)
  {
    if |s| >= 2 {
      SeparatorMeans(s[1..]);
      if s[0] == ':' && s[1] == ':' {
        assert SeparatorAt(s, 0);
      } else {
        if i :| SeparatorAt(s, i) {
          assert SeparatorAt(s[1..], i - 1);
        }
        if i :| SeparatorAt(s[1..], i) {
          assert SeparatorAt(s, i + 1);
        }
      }
    }
  }

  ghost predicate SeparatorAt(s: string, i: int)
  {
    0 <= i < |s| - 1 && s[i] == ':' && s[i + 1] == ':'
  }

  /** `file` is what stands before the first separator of `s`, or all of `s` when there is none. */
  ghost predicate InFile(s: string, file: string)
  {
    if exists i :: SeparatorAt(s, i) then
      exists rest :: s == file + ("::" + rest) && forall i :: SeparatorAt(s, i) ==> i >= |file|
    else file == s
  }

  /** A collected case of a file: a node id below `tests/`, with a separator behind its file. */
  ghost predicate CaseOf(line: string, file: string)
  {
    (exists rest :: line == "tests/" + rest) && (exists i :: SeparatorAt(line, i)) && InFile(line, file)
  }

  lemma {:induction false} FirstSeparator(s: string)
    requires HasSeparator(s)
    ensures |FileOf(s)| + 2 <= |s| && s == FileOf(s) + ("::" + s[|FileOf(s)| + 2..])
    ensures forall i :: SeparatorAt(s, i) ==> i >= |FileOf(s)|
  {
    if s[0] == ':' && s[1] == ':' {
      assert s == "" + ("::" + s[2..]);
    } else {
      FirstSeparator(s[1..]);
      forall i | SeparatorAt(s, i) ensures i >= |FileOf(s)| {
        assert SeparatorAt(s[1..], i - 1);
      }
      PutInFront(s, FileOf(s[1..]));
    }
  }

  lemma PutInFront(s: string, f: string)
    requires s != "" && |f| + 2 <= |s[1..]| && s[1..] == f + ("::" + s[1..][|f| + 2..])
    ensures s == ([s[0]] + f) + ("::" + s[|[s[0]] + f| + 2..])
  {
  }

  lemma {:induction false} NoSeparator(s: string)
    requires !HasSeparator(s)
    ensures FileOf(s) == s
  {
    if |s| >= 2 {
      NoSeparator(s[1..]);
    }
  }

  /** The file of a line is what stands before its first separator. */
  lemma FileMeans(s: string, file: string)
    ensures InFile(s, file) <==> file == FileOf(s)
  {
    SeparatorMeans(s);
    if HasSeparator(s) {
      FirstSeparator(s);
      if InFile(s, file) {
        var rest :| s == file + ("::" + rest) && forall i :: SeparatorAt(s, i) ==> i >= |file|;
        FirstAt(s, file, rest);
        FirstAt(s, FileOf(s), s[|FileOf(s)| + 2..]);
      }
    } else {
      NoSeparator(s);
    }
  }

  lemma FirstAt(s: string, file: string, rest: string)
    requires s == file + ("::" + rest)
    ensures SeparatorAt(s, |file|) && file == s[..|file|]
  {
  }

  /** A line is counted, for its file, exactly when it is a collected case of that file. */
  lemma CountedMeans(line: string, file: string)
    ensures CaseOf(line, file) <==> Counted(line) && FileOf(line) == file
  {
    SeparatorMeans(line);
    FileMeans(line, file);
    assert StartsWith(line, "tests/") ==> line == "tests/" + line[6..];
  }

  ghost function CaseLines(lines: seq<string>, file: string): set<nat>
  {
    set k | 0 <= k < |lines| && CaseOf(lines[k], file)
  }

  /** The file of every counted line, in line order. */
  function Files(lines: seq<string>): (r: seq<string>)
  {
    if lines == [] then []
    else
      var n := |lines| - 1;
      Files(lines[..n]) + if Counted(lines[n]) then [FileOf(lines[n])] else []
  }

  /** Everything the planner reads off the log: how many cases each file has. */
  function CaseCounts(lines: seq<string>): multiset<string>
  {
    multiset(Files(lines))
  }

  lemma {:induction false} FilesConcat(a: seq<string>, b: seq<string>)
    ensures Files(a + b) == Files(a) + Files(b)
  {
    if b == [] {
      assert a + b == a;
    } else {
      var n := |b| - 1;
      assert (a + b)[..|a| + n] == a + b[..n];
      FilesConcat(a, b[..n]);
    }
  }

  lemma {:induction false} CaseCountsIgnoreOrder(a: seq<string>, b: seq<string>)
    requires multiset(a) == multiset(b)
    ensures CaseCounts(a) == CaseCounts(b)
    decreases |a|
  {
    if a == [] {
      assert |multiset(b)| == 0;
    } else {
      var k := TakeOut(a, b);
      CaseCountsIgnoreOrder(a[1..], b[..k] + b[k + 1..]);
      assert a == [a[0]] + a[1..];
      FilesConcat([a[0]], a[1..]);
      FilesConcat([a[0]], b[k + 1..]);
      FilesConcat(b[..k], [a[0]] + b[k + 1..]);
      FilesConcat(b[..k], b[k + 1..]);
    }
  }

  lemma CaseLinesNext(lines: seq<string>, n: nat, file: string)
    requires |lines| == n + 1
    ensures |CaseLines(lines, file)| == |CaseLines(lines[..n], file)| + if CaseOf(lines[n], file) then 1 else 0
  {
    var before, all := CaseLines(lines[..n], file), CaseLines(lines, file);
    assert n !in before;
    forall k: nat ensures k in all <==> k in before || (k == n && CaseOf(lines[n], file)) {
      assert k < n ==> lines[..n][k] == lines[k];
    }
    assert all == before + if CaseOf(lines[n], file) then {n} else {};
  }

  /** A file's count is the number of lines that are a case of it. */
  lemma {:induction false} CountsMean(lines: seq<string>, file: string)
    ensures CaseCounts(lines)[file] == |CaseLines(lines, file)|
  {
    if lines == [] {
      assert CaseLines(lines, file) == {};
    } else {
      var n := |lines| - 1;
      CountsMean(lines[..n], file);
      CaseLinesNext(lines, n, file);
      CountNext(lines, n, file);
    }
  }

  lemma CountNext(lines: seq<string>, n: nat, file: string)
    requires |lines| == n + 1
    ensures CaseCounts(lines)[file] == CaseCounts(lines[..n])[file] + if CaseOf(lines[n], file) then 1 else 0
  {
    CountedMeans(lines[n], file);
  }

  // ---------------------------------------------------------------- the counter

  datatype Item = Item(path: string, count: nat)

  /** `counter[path] += 1` on a dictionary kept in insertion order. */
  function Bump(items: seq<Item>, path: string): seq<Item>
  {
    if items == [] then [Item(path, 1)]
    else if items[0].path == path then [Item(path, items[0].count + 1)] + items[1..]
    else [items[0]] + Bump(items[1..], path)
  }

  function Tally(lines: seq<string>): seq<Item>
  {
    if lines == [] then []
    else
      var n := |lines| - 1;
      if Counted(lines[n]) then Bump(Tally(lines[..n]), FileOf(lines[n])) else Tally(lines[..n])
  }

  function PathOf(it: Item): string { it.path }

  function Paths(items: seq<Item>): seq<string>
  {
    Map(PathOf, items)
  }

  /** The items list each file of `m` once, with its multiplicity. */
  ghost predicate TallyOf(items: seq<Item>, m: multiset<string>)
  {
    && (forall f :: multiset(Paths(items))[f] == if f in m then 1 else 0)
    && (forall it :: it in items ==> it.count == m[it.path] > 0)
  }

  lemma PathsStep(items: seq<Item>)
    requires items != []
    ensures Paths(items) == [items[0].path] + Paths(items[1..])
  {
  }

  lemma {:induction false} BumpPaths(items: seq<Item>, path: string)
    ensures Paths(Bump(items, path)) == Paths(items) + if path in Paths(items) then [] else [path]
  {
    if items == [] {
      assert Paths([Item(path, 1)]) == [path];
    } else {
      PathsStep(items);
      PathsStep(Bump(items, path));
      if items[0].path != path {
        BumpPaths(items[1..], path);
        assert Bump(items, path)[1..] == Bump(items[1..], path);
      }
    }
  }

  lemma {:induction false} BumpCounts(items: seq<Item>, path: string, m: multiset<string>)
    requires forall it :: it in items ==> it.count == m[it.path] > 0
    requires Distinct(Paths(items)) && (path in Paths(items) || path !in m)
    ensures forall it :: it in Bump(items, path) ==> it.count == (m + multiset{path})[it.path]
  {
    if items != [] && items[0].path != path {
      BumpCounts(items[1..], path, m);
      assert Paths(items)[1..] == Paths(items[1..]);
    } else if items != [] {
      assert forall i :: 1 <= i < |items| ==> Paths(items)[i] != Paths(items)[0];
    }
  }

  lemma {:induction false} TallyCounts(lines: seq<string>)
    ensures TallyOf(Tally(lines), CaseCounts(lines))
  {
    if lines == [] {
      assert Paths([]) == [];
    } else {
      var n := |lines| - 1;
      TallyCounts(lines[..n]);
      if Counted(lines[n]) {
        var t, f, m := Tally(lines[..n]), FileOf(lines[n]), CaseCounts(lines[..n]);
        assert CaseCounts(lines) == m + multiset{f};
        BumpTally(t, f, m);
      }
    }
  }

  lemma BumpTally(t: seq<Item>, f: string, m: multiset<string>)
    requires TallyOf(t, m)
    ensures TallyOf(Bump(t, f), m + multiset{f})
  {
    MultiplicityDistinct(Paths(t));
    assert f in Paths(t) <==> multiset(Paths(t))[f] > 0;
    BumpPaths(t, f);
    BumpCounts(t, f, m);
  }

  lemma TallyUnique(a: seq<Item>, b: seq<Item>, m: multiset<string>)
    requires TallyOf(a, m) && TallyOf(b, m)
    ensures multiset(a) == multiset(b)
  {
    var item := (f: string) => Item(f, m[f]);
    assert Map(item, Paths(a)) == a && Map(item, Paths(b)) == b;
    MapMultiset(item, Paths(a), Paths(b));
  }

  // ---------------------------------------------------------------- biggest file first

  /** The order of the sort key `(-count, path)`. */
  predicate ItemLE(a: Item, b: Item)
  {
    a.count > b.count || (a.count == b.count && LexLE(a.path, b.path))
  }

  lemma ItemPreorder()
    ensures Preorder(ItemLE)
    ensures forall a, b :: ItemLE(a, b) && ItemLE(b, a) ==> a == b
  {
    forall a, b ensures ItemLE(a, b) || ItemLE(b, a) {
      LexTotal(a.path, b.path);
    }
    forall a, b, c | ItemLE(a, b) && ItemLE(b, c) ensures ItemLE(a, c) {
      if a.count == b.count == c.count {
        LexTransitive(a.path, b.path, c.path);
      }
    }
    forall a, b | ItemLE(a, b) && ItemLE(b, a) ensures a == b {
      LexAntisymmetric(a.path, b.path);
    }
  }

  function Ordered(lines: seq<string>): seq<Item>
  {
    Sort(ItemLE, Tally(lines))
  }

  lemma OrderedTally(lines: seq<string>)
    ensures TallyOf(Ordered(lines), CaseCounts(lines))
  {
    TallyCounts(lines);
    SortPermutes(ItemLE, Tally(lines));
    MapMultiset(PathOf, Tally(lines), Ordered(lines));
    forall it | it in Ordered(lines) ensures it in Tally(lines) {
      assert it in multiset(Ordered(lines));
    }
  }

  lemma OrderedIgnoresOrder(a: seq<string>, b: seq<string>)
    requires multiset(a) == multiset(b)
    ensures Ordered(a) == Ordered(b)
  {
    CaseCountsIgnoreOrder(a, b);
    TallyCounts(a);
    TallyCounts(b);
    TallyUnique(Tally(a), Tally(b), CaseCounts(a));
    ItemPreorder();
    SortCanonical(ItemLE, Tally(a), Tally(b));
  }

  // ---------------------------------------------------------------- packing

  datatype Shard = Shard(id: string, caseCount: nat, files: seq<string>)

  /** `f"{n:03}"`. */
  function Padded(n: nat): string
  {
    if n < 10 then "00" + Decimal(n) else if n < 100 then "0" + Decimal(n) else Decimal(n)
  }

  function ShardId(n: nat): string
  {
    "shard-" + Padded(n)
  }

  predicate Fits(s: Shard, count: nat, target: int)
  {
    s.caseCount + count <= target
  }

  /** The order of the key `(case_count, id)`. */
  predicate Before(a: Shard, b: Shard)
  {
    a.caseCount < b.caseCount || (a.caseCount == b.caseCount && LexLE(a.id, b.id))
  }

  lemma BeforeTransitive(a: Shard, b: Shard, c: Shard)
    requires Before(a, b) && Before(b, c)
    ensures Before(a, c)
  {
    if a.caseCount == b.caseCount == c.caseCount {
      LexTransitive(a.id, b.id, c.id);
    }
  }

  /** The shard `min(candidates, key=...)` picks, or `|shards|` when there is no candidate. */
  function Choose(shards: seq<Shard>, count: nat, target: int): (k: nat)
    ensures k <= |shards|
    ensures k == |shards| <==> forall j :: 0 <= j < |shards| ==> !Fits(shards[j], count, target)
    ensures k < |shards| ==> Fits(shards[k], count, target)
    ensures k < |shards| ==>
              forall j :: 0 <= j < |shards| && Fits(shards[j], count, target) ==> Before(shards[k], shards[j])
  {
    if shards == [] then 0
    else
      var n := |shards| - 1;
      var k := Choose(shards[..n], count, target);
      if !Fits(shards[n], count, target) then if k == n then n + 1 else k
      else if k == n then LexTotal(shards[n].id, shards[n].id); n
      else if Before(shards[k], shards[n]) then k
      else
        LexTotal(shards[k].id, shards[n].id);
        assert forall j :: 0 <= j < n && Fits(shards[j], count, target) ==> Before(shards[n], shards[j]) by {
          forall j | 0 <= j < n && Fits(shards[j], count, target) ensures Before(shards[n], shards[j]) {
            assert shards[..n][j] == shards[j];
            BeforeTransitive(shards[n], shards[k], shards[j]);
          }
        }
        LexTotal(shards[n].id, shards[n].id);
        n
  }

  function AddFile(s: Shard, item: Item): Shard
  {
    s.(files := s.files + [item.path], caseCount := s.caseCount + item.count)
  }

  function Place(shards: seq<Shard>, item: Item, target: int): seq<Shard>
  {
    var k := Choose(shards, item.count, target);
    if k < |shards| then shards[k := AddFile(shards[k], item)]
    else shards + [AddFile(Shard(ShardId(|shards| + 1), 0, []), item)]
  }

  function Pack(items: seq<Item>, target: int): seq<Shard>
  {
    if items == [] then []
    else
      var n := |items| - 1;
      Place(Pack(items[..n], target), items[n], target)
  }

  function SortFiles(s: Shard): Shard
  {
    s.(files := Sort(LexLE, s.files))
  }

  datatype Plan = Plan(targetCases: int, collectedCases: nat, fileCount: nat, shardCount: nat,
                       oversized: seq<Item>, shards: seq<Shard>)

  datatype PlanResult = Planned(plan: Plan) | ValueError(message: string)

  function SumCounts(items: seq<Item>): nat
  {
    if items == [] then 0 else items[0].count + SumCounts(items[1..])
  }

  function Oversized(items: seq<Item>, target: int): seq<Item>
  {
    if items == [] then []
    else (if items[0].count > target then [items[0]] else []) + Oversized(items[1..], target)
  }

  function PlanOf(lines: seq<string>, target: int): Plan
  {
    var ordered := Ordered(lines);
    var shards := Map(SortFiles, Pack(ordered, target));
    Plan(target, SumCounts(Tally(lines)), |Tally(lines)|, |shards|, Oversized(ordered, target), shards)
  }

  method CountFiles(lines: seq<string>) returns (files: seq<Item>)
    ensures files == Tally(lines)
  {
    files := [];
    for i := 0 to |lines|
      invariant files == Tally(lines[..i])
    {
      assert lines[..i + 1][..i] == lines[..i];
      if Counted(lines[i]) {
        files := Bump(files, FileOf(lines[i]));
      }
    }
    assert lines[..|lines|] == lines;
  }

  /** One turn of the packing loop. */
  method PlaceFile(shards: seq<Shard>, item: Item, target: int) returns (after: seq<Shard>)
    ensures after == Place(shards, item, target)
  {
    after := shards;
    var k := Choose(shards, item.count, target);
    if k == |shards| {
      after := shards + [Shard(ShardId(|shards| + 1), 0, [])];
    }
    after := after[k := AddFile(after[k], item)];
  }

  method PackFiles(ordered: seq<Item>, target: int) returns (shards: seq<Shard>)
    ensures shards == Pack(ordered, target)
  {
    shards := [];
    for i := 0 to |ordered|
      invariant shards == Pack(ordered[..i], target)
    {
      assert ordered[..i + 1][..i] == ordered[..i];
      shards := PlaceFile(shards, ordered[i], target);
    }
    assert ordered[..|ordered|] == ordered;
  }

  method SortShardFiles(packed: seq<Shard>) returns (shards: seq<Shard>)
    ensures shards == Map(SortFiles, packed)
  {
    shards := packed;
    for i := 0 to |packed|
      invariant |shards| == |packed|
      invariant forall j :: 0 <= j < |packed| ==> shards[j] == if j < i then SortFiles(packed[j]) else packed[j]
    {
      shards := shards[i := SortFiles(shards[i])];
    }
  }

  /** `plan`, step by step. */
  method MakePlan(lines: seq<string>, target: int) returns (r: PlanResult)
    ensures r == if target <= 0 then ValueError("target_cases must be positive") else Planned(PlanOf(lines, target))
    ensures r.Planned? ==> exists items, states :: Follows(r.plan, lines, target, items, states)
  {
    if target <= 0 {
      return ValueError("target_cases must be positive");
    }
    var files := CountFiles(lines);
    var ordered := Sort(ItemLE, files);
    var shards := PackFiles(ordered, target);
    shards := SortShardFiles(shards);
    ghost var items, states := PlanIsGreedy(lines, target);
    return Planned(Plan(target, SumCounts(files), |files|, |shards|, Oversized(ordered, target), shards));
  }

  // ---------------------------------------------------------------- weights of files

  function Weigh(files: seq<string>, w: string -> nat): nat
  {
    if files == [] then 0 else w(files[0]) + Weigh(files[1..], w)
  }

  lemma {:induction false} WeighConcat(a: seq<string>, b: seq<string>, w: string -> nat)
    ensures Weigh(a + b, w) == Weigh(a, w) + Weigh(b, w)
  {
    if a == [] {
      assert a + b == b;
    } else {
      WeighConcat(a[1..], b, w);
      assert (a + b)[1..] == a[1..] + b;
    }
  }

  lemma {:induction false} WeighIgnoresOrder(a: seq<string>, b: seq<string>, w: string -> nat)
    requires multiset(a) == multiset(b)
    ensures Weigh(a, w) == Weigh(b, w)
    decreases |a|
  {
    if a == [] {
      assert |multiset(b)| == 0;
    } else {
      var k := TakeOut(a, b);
      WeighIgnoresOrder(a[1..], b[..k] + b[k + 1..], w);
      WeighConcat(b[..k], [a[0]] + b[k + 1..], w);
      WeighConcat(b[..k], b[k + 1..], w);
      assert ([a[0]] + b[k + 1..])[1..] == b[k + 1..];
    }
  }

  /** A file weighs its number of cases. */
  function Cases(m: multiset<string>): string -> nat
  {
    (f: string) => m[f]
  }

  function Load(files: seq<string>, m: multiset<string>): nat
  {
    Weigh(files, Cases(m))
  }

  function Flatten(bins: seq<seq<string>>): seq<string>
  {
    if bins == [] then [] else bins[0] + Flatten(bins[1..])
  }

  function FilesOf(s: Shard): seq<string> { s.files }

  function Bins(shards: seq<Shard>): seq<seq<string>>
  {
    Map(FilesOf, shards)
  }

  /** Each file of `m` lies in exactly one bin, at exactly one place of it. */
  ghost predicate Partitions(bins: seq<seq<string>>, m: multiset<string>)
  {
    forall f :: multiset(Flatten(bins))[f] == if f in m then 1 else 0
  }

  lemma {:induction false} FlattenConcat(a: seq<seq<string>>, b: seq<seq<string>>)
    ensures Flatten(a + b) == Flatten(a) + Flatten(b)
  {
    if a == [] {
      assert a + b == b;
    } else {
      FlattenConcat(a[1..], b);
      assert (a + b)[1..] == a[1..] + b && (a + b)[0] == a[0];
      Regroup(a[0], Flatten(a[1..]), Flatten(b));
    }
  }

  lemma {:induction false} FlattenAdd(bins: seq<seq<string>>, k: nat, f: string)
    requires k < |bins|
    ensures multiset(Flatten(bins[k := bins[k] + [f]])) == multiset(Flatten(bins)) + multiset{f}
  {
    var r := bins[k := bins[k] + [f]];
    assert Flatten(r) == r[0] + Flatten(r[1..]) && Flatten(bins) == bins[0] + Flatten(bins[1..]);
    if k > 0 {
      FlattenAdd(bins[1..], k - 1, f);
      assert r[1..] == bins[1..][k - 1 := bins[1..][k - 1] + [f]];
    } else {
      assert r[1..] == bins[1..];
    }
  }

  // ---------------------------------------------------------------- what packing keeps

  ghost predicate WithinTarget(s: Shard, target: int)
  {
    s.files != [] && (s.caseCount <= target || |s.files| == 1)
  }

  /** What every step of the packing keeps: true loads within the target, and no two shards that
      could have been one. */
  ghost predicate ShardsPacked(shards: seq<Shard>, m: multiset<string>, target: int)
  {
    && (forall i :: 0 <= i < |shards| ==>
         && shards[i].id == ShardId(i + 1)
         && shards[i].caseCount == Load(shards[i].files, m) > 0
         && WithinTarget(shards[i], target))
    && (forall i, j :: 0 <= i < j < |shards| ==> shards[i].caseCount + shards[j].caseCount > target)
  }

  lemma LoadAppend(files: seq<string>, f: string, m: multiset<string>)
    ensures Load(files + [f], m) == Load(files, m) + m[f]
  {
    WeighConcat(files, [f], Cases(m));
  }

  lemma FlattenAppend(bins: seq<seq<string>>, bin: seq<string>)
    ensures Flatten(bins + [bin]) == Flatten(bins) + bin
  {
    FlattenConcat(bins, [bin]);
    assert Flatten([bin]) == bin;
  }

  lemma PlacedFiles(shards: seq<Shard>, item: Item, target: int)
    ensures multiset(Flatten(Bins(Place(shards, item, target))))
        == multiset(Flatten(Bins(shards))) + multiset{item.path}
  {
    var k := Choose(shards, item.count, target);
    var r := Place(shards, item, target);
    if k < |shards| {
      FlattenAdd(Bins(shards), k, item.path);
      assert Bins(r) == Bins(shards)[k := Bins(shards)[k] + [item.path]];
    } else {
      FlattenAppend(Bins(shards), [item.path]);
      assert [] + [item.path] == [item.path];
      assert r[k].files == [item.path] && r == shards + [r[k]];
      assert Bins(r) == Bins(shards) + [[item.path]];
    }
  }

  lemma PlacedInto(shards: seq<Shard>, item: Item, m: multiset<string>, target: int, k: nat)
    requires ShardsPacked(shards, m, target) && item.count == m[item.path] > 0
    requires k < |shards| && Fits(shards[k], item.count, target)
    ensures ShardsPacked(shards[k := AddFile(shards[k], item)], m, target)
  {
    LoadAppend(shards[k].files, item.path, m);
  }

  lemma SingleLoad(f: string, m: multiset<string>)
    ensures Load([f], m) == m[f]
  {
    LoadAppend([], f, m);
    assert [] + [f] == [f];
  }

  /** A new shard for one file. */
  function Alone(n: nat, item: Item): Shard
  {
    Shard(ShardId(n + 1), item.count, [item.path])
  }

  /** A file goes to the shard chosen for it, or into a new one. */
  lemma PlaceCases(shards: seq<Shard>, item: Item, target: int, k: nat)
    requires k == Choose(shards, item.count, target)
    ensures k < |shards| ==> Place(shards, item, target) == shards[k := AddFile(shards[k], item)]
    ensures k == |shards| ==> Place(shards, item, target) == shards + [Alone(|shards|, item)]
  {
    assert [] + [item.path] == [item.path];
  }

  lemma PackedSnoc(shards: seq<Shard>, s: Shard, m: multiset<string>, target: int)
    requires ShardsPacked(shards, m, target) && s.id == ShardId(|shards| + 1)
    requires s.caseCount == Load(s.files, m) > 0 && WithinTarget(s, target)
    requires forall i :: 0 <= i < |shards| ==> shards[i].caseCount + s.caseCount > target
    ensures ShardsPacked(shards + [s], m, target)
  {
    var r := shards + [s];
    forall i: nat | i < |r|
      ensures r[i].id == ShardId(i + 1) && r[i].caseCount == Load(r[i].files, m) > 0 && WithinTarget(r[i], target)
    {
      SnocAt(shards, s, i);
    }
    forall i: nat, j: nat | i < j < |r| ensures r[i].caseCount + r[j].caseCount > target {
      SnocAt(shards, s, i);
      SnocAt(shards, s, j);
    }
  }

  lemma SnocAt<T>(a: seq<T>, x: T, i: nat)
    requires i <= |a|
    ensures (a + [x])[i] == if i < |a| then a[i] else x
  {
  }

  lemma PlacedAlone(shards: seq<Shard>, item: Item, m: multiset<string>, target: int)
    requires ShardsPacked(shards, m, target) && item.count == m[item.path] > 0
    requires forall i :: 0 <= i < |shards| ==> !Fits(shards[i], item.count, target)
    ensures ShardsPacked(shards + [Alone(|shards|, item)], m, target)
  {
    SingleLoad(item.path, m);
    forall i | 0 <= i < |shards| ensures shards[i].caseCount + item.count > target {
      assert !Fits(shards[i], item.count, target);
    }
    PackedSnoc(shards, Alone(|shards|, item), m, target);
  }

  lemma PlacedShards(shards: seq<Shard>, item: Item, m: multiset<string>, target: int)
    requires ShardsPacked(shards, m, target) && item.count == m[item.path] > 0
    ensures ShardsPacked(Place(shards, item, target), m, target)
  {
    var k := Choose(shards, item.count, target);
    PlaceCases(shards, item, target, k);
    if k < |shards| {
      PlacedInto(shards, item, m, target, k);
    } else {
      PlacedAlone(shards, item, m, target);
    }
  }

  lemma {:induction false} PackedFiles(items: seq<Item>, target: int)
    ensures multiset(Flatten(Bins(Pack(items, target)))) == multiset(Paths(items))
  {
    if items == [] {
      assert Bins([]) == [] && Paths([]) == [];
    } else {
      var n := |items| - 1;
      PackedFiles(items[..n], target);
      PlacedFiles(Pack(items[..n], target), items[n], target);
      assert Paths(items) == Paths(items[..n]) + [items[n].path];
    }
  }

  lemma {:induction false} PackKeepsPacked(items: seq<Item>, m: multiset<string>, target: int)
    requires forall it :: it in items ==> it.count == m[it.path] > 0
    ensures ShardsPacked(Pack(items, target), m, target)
  {
    if items != [] {
      var n := |items| - 1;
      PackKeepsPacked(items[..n], m, target);
      PlacedShards(Pack(items[..n], target), items[n], m, target);
    }
  }

  // ---------------------------------------------------------------- the plan is a partition

  lemma SortedFiles(s: Shard, m: multiset<string>)
    ensures multiset(SortFiles(s).files) == multiset(s.files) && |SortFiles(s).files| == |s.files|
    ensures Sorted(LexLE, SortFiles(s).files)
    ensures Load(SortFiles(s).files, m) == Load(s.files, m)
  {
    forall a, b ensures LexLE(a, b) || LexLE(b, a) {
      LexTotal(a, b);
    }
    forall a, b, c | LexLE(a, b) && LexLE(b, c) ensures LexLE(a, c) {
      LexTransitive(a, b, c);
    }
    SortPermutes(LexLE, s.files);
    SortSorted(LexLE, s.files);
    WeighIgnoresOrder(SortFiles(s).files, s.files, Cases(m));
  }

  lemma {:induction false} SortedBins(shards: seq<Shard>)
    ensures multiset(Flatten(Bins(Map(SortFiles, shards)))) == multiset(Flatten(Bins(shards)))
  {
    if shards == [] {
      assert Bins(Map(SortFiles, shards)) == Bins(shards);
    } else {
      SortedFiles(shards[0], multiset{});
      SortedBins(shards[1..]);
      MapCons(SortFiles, shards[0], shards[1..]);
      assert shards == [shards[0]] + shards[1..];
      FlattenCons(shards[0], shards[1..]);
      FlattenCons(SortFiles(shards[0]), Map(SortFiles, shards[1..]));
    }
  }

  lemma FlattenCons(s: Shard, shards: seq<Shard>)
    ensures Flatten(Bins([s] + shards)) == s.files + Flatten(Bins(shards))
  {
    var bins := Bins([s] + shards);
    assert bins[0] == s.files && bins[1..] == Bins(shards);
  }

  lemma SortedPacked(shards: seq<Shard>, m: multiset<string>, target: int)
    requires ShardsPacked(shards, m, target)
    ensures ShardsPacked(Map(SortFiles, shards), m, target)
    ensures forall s :: s in Map(SortFiles, shards) ==> Sorted(LexLE, s.files)
  {
    var r := Map(SortFiles, shards);
    forall i | 0 <= i < |shards|
      ensures r[i].caseCount == Load(r[i].files, m) && WithinTarget(r[i], target) && Sorted(LexLE, r[i].files)
    {
      SortedFiles(shards[i], m);
    }
  }

  /** The plan puts every file with cases in exactly one shard and nothing else in any; every shard
      has the load it claims, keeps to the target unless it is one oversized file, and no two
      shards would have fitted together. */
  lemma PlanPartitions(lines: seq<string>, target: int)
    ensures var p, m := PlanOf(lines, target), CaseCounts(lines);
            && Partitions(Bins(p.shards), m)
            && ShardsPacked(p.shards, m, target)
            && forall s :: s in p.shards ==> Sorted(LexLE, s.files)
  {
    var m, items := CaseCounts(lines), Ordered(lines);
    OrderedTally(lines);
    PackedFiles(items, target);
    PackKeepsPacked(items, m, target);
    SortedBins(Pack(items, target));
    SortedPacked(Pack(items, target), m, target);
  }

  // ---------------------------------------------------------------- the greedy rule

  /** Biggest file first, ties by path, each file of `m` once with its number of cases. */
  ghost predicate PlanOrder(items: seq<Item>, m: multiset<string>)
  {
    && TallyOf(items, m)
    && forall i, j :: 0 <= i < j < |items| ==>
         items[i].count > items[j].count || (items[i].count == items[j].count && LexLE(items[i].path, items[j].path))
  }

  /** Shard `k` is the least loaded one with room for `item`, the first by id among those, and gets it. */
  ghost predicate JoinsLeastLoaded(before: seq<Shard>, item: Item, after: seq<Shard>, target: int, k: nat)
  {
    && k < |before| && before[k].caseCount + item.count <= target
    && (forall j :: 0 <= j < |before| && before[j].caseCount + item.count <= target ==>
         before[k].caseCount < before[j].caseCount
         || (before[k].caseCount == before[j].caseCount && LexLE(before[k].id, before[j].id)))
    && after == before[k := Shard(before[k].id, before[k].caseCount + item.count, before[k].files + [item.path])]
  }

  /** No shard has room for `item`, which gets a shard of its own. */
  ghost predicate OpensShard(before: seq<Shard>, item: Item, after: seq<Shard>, target: int)
  {
    && (forall j :: 0 <= j < |before| ==> before[j].caseCount + item.count > target)
    && after == before + [Shard(ShardId(|before| + 1), item.count, [item.path])]
  }

  ghost predicate GreedyStep(before: seq<Shard>, item: Item, after: seq<Shard>, target: int)
  {
    (exists k :: JoinsLeastLoaded(before, item, after, target, k)) || OpensShard(before, item, after, target)
  }

  /** The shards after each of the files, placed one by one. */
  ghost predicate GreedyStates(states: seq<seq<Shard>>, items: seq<Item>, target: int)
  {
    && |states| == |items| + 1 && states[0] == []
    && forall k :: 0 <= k < |items| ==> GreedyStep(states[k], items[k], states[k + 1], target)
  }

  lemma PlaceIsGreedy(shards: seq<Shard>, item: Item, target: int)
    ensures GreedyStep(shards, item, Place(shards, item, target), target)
  {
    var k := Choose(shards, item.count, target);
    var after := Place(shards, item, target);
    if k < |shards| {
      forall j | 0 <= j < |shards| && shards[j].caseCount + item.count <= target
        ensures Before(shards[k], shards[j])
      {
        assert Fits(shards[j], item.count, target);
      }
      assert JoinsLeastLoaded(shards, item, after, target, k);
    } else {
      forall j | 0 <= j < |shards| ensures shards[j].caseCount + item.count > target {
        assert !Fits(shards[j], item.count, target);
      }
      assert AddFile(Shard(ShardId(|shards| + 1), 0, []), item).files == [item.path];
      assert OpensShard(shards, item, after, target);
    }
  }

  lemma StatesNext(states: seq<seq<Shard>>, items: seq<Item>, n: nat, next: seq<Shard>, target: int)
    requires |items| == n + 1 && GreedyStates(states, items[..n], target)
    requires GreedyStep(states[n], items[n], next, target)
    ensures GreedyStates(states + [next], items, target)
  {
    var longer := states + [next];
    forall k | 0 <= k < |items| ensures GreedyStep(longer[k], items[k], longer[k + 1], target) {
      if k < n {
        assert items[..n][k] == items[k] && GreedyStep(states[k], items[..n][k], states[k + 1], target);
      }
    }
  }

  lemma {:induction false} PackIsGreedy(items: seq<Item>, target: int) returns (states: seq<seq<Shard>>)
    ensures GreedyStates(states, items, target) && states[|items|] == Pack(items, target)
  {
    if items == [] {
      states := [[]];
    } else {
      var n := |items| - 1;
      var before := PackIsGreedy(items[..n], target);
      PlaceIsGreedy(Pack(items[..n], target), items[n], target);
      StatesNext(before, items, n, Pack(items, target), target);
      states := before + [Pack(items, target)];
    }
  }

  /** Two packings with their files in a different order. */
  ghost predicate SameButSorted(a: Shard, b: Shard)
  {
    a.id == b.id && a.caseCount == b.caseCount && multiset(a.files) == multiset(b.files) && Sorted(LexLE, b.files)
  }

  /** `p` is what placing the files one by one gives, biggest first, with the files of each shard sorted. */
  ghost predicate Follows(p: Plan, lines: seq<string>, target: int, items: seq<Item>, states: seq<seq<Shard>>)
  {
    && PlanOrder(items, CaseCounts(lines)) && GreedyStates(states, items, target)
    && p.targetCases == target && |p.shards| == |states[|items|]|
    && forall i :: 0 <= i < |p.shards| ==> SameButSorted(states[|items|][i], p.shards[i])
  }

  /** The plan follows the greedy rule: each file goes into the least loaded shard with room for it, or into a
      new one when there is none. */
  lemma PlanIsGreedy(lines: seq<string>, target: int) returns (items: seq<Item>, states: seq<seq<Shard>>)
    ensures Follows(PlanOf(lines, target), lines, target, items, states)
  {
    items := Ordered(lines);
    states := PackIsGreedy(items, target);
    OrderedTally(lines);
    OrderedSorted(lines);
    var packed := Pack(items, target);
    forall i | 0 <= i < |packed| ensures SameButSorted(packed[i], PlanOf(lines, target).shards[i]) {
      SortedFiles(packed[i], multiset{});
    }
  }

  lemma OrderedSorted(lines: seq<string>)
    ensures Sorted(ItemLE, Ordered(lines))
  {
    ItemPreorder();
    SortSorted(ItemLE, Tally(lines));
  }

  // ---------------------------------------------------------------- totals

  function TotalLoad(shards: seq<Shard>): nat
  {
    if shards == [] then 0 else shards[0].caseCount + TotalLoad(shards[1..])
  }

  function BinWeights(bins: seq<seq<string>>, w: string -> nat): nat
  {
    if bins == [] then 0 else Weigh(bins[0], w) + BinWeights(bins[1..], w)
  }

  lemma {:induction false} BinWeightsFlatten(bins: seq<seq<string>>, w: string -> nat)
    ensures BinWeights(bins, w) == Weigh(Flatten(bins), w)
  {
    if bins != [] {
      BinWeightsFlatten(bins[1..], w);
      WeighConcat(bins[0], Flatten(bins[1..]), w);
    }
  }

  lemma {:induction false} TotalLoadIsWeight(shards: seq<Shard>, m: multiset<string>)
    requires forall s :: s in shards ==> s.caseCount == Load(s.files, m)
    ensures TotalLoad(shards) == BinWeights(Bins(shards), Cases(m))
  {
    if shards == [] {
      assert Bins(shards) == [];
    } else {
      TotalLoadIsWeight(shards[1..], m);
      assert Bins(shards) == [shards[0].files] + Bins(shards[1..]);
    }
  }

  lemma {:induction false} SumCountsIsWeight(items: seq<Item>, m: multiset<string>)
    requires forall it :: it in items ==> it.count == m[it.path]
    ensures SumCounts(items) == Weigh(Paths(items), Cases(m))
  {
    if items != [] {
      SumCountsIsWeight(items[1..], m);
      PathsStep(items);
    }
  }

  lemma {:induction false} BumpSum(items: seq<Item>, path: string)
    ensures SumCounts(Bump(items, path)) == SumCounts(items) + 1
  {
    if items != [] && items[0].path != path {
      BumpSum(items[1..], path);
    }
  }

  lemma {:induction false} TallySum(lines: seq<string>)
    ensures SumCounts(Tally(lines)) == |Files(lines)|
  {
    if lines != [] {
      var n := |lines| - 1;
      TallySum(lines[..n]);
      if Counted(lines[n]) {
        BumpSum(Tally(lines[..n]), FileOf(lines[n]));
      }
    }
  }

  /** Two partitions of the same files weigh the same, bin by bin added up. */
  lemma PartitionsWeighSame(a: seq<seq<string>>, b: seq<seq<string>>, m: multiset<string>, w: string -> nat)
    requires Partitions(a, m) && Partitions(b, m)
    ensures BinWeights(a, w) == BinWeights(b, w)
  {
    BinWeightsFlatten(a, w);
    BinWeightsFlatten(b, w);
    WeighIgnoresOrder(Flatten(a), Flatten(b), w);
  }

  /** The plan's totals: every counted line is one collected case, the shards' loads add up to
      all of them, and the file and shard counts are those of the partition. */
  lemma PlanTotals(lines: seq<string>, target: int)
    ensures var p := PlanOf(lines, target);
            && p.collectedCases == |Files(lines)| == TotalLoad(p.shards)
            && p.fileCount == |Flatten(Bins(p.shards))|
            && p.shardCount == |p.shards|
  {
    var p, m, items := PlanOf(lines, target), CaseCounts(lines), Tally(lines);
    PlanPartitions(lines, target);
    TallySum(lines);
    TallyCounts(lines);
    TotalLoadIsWeight(p.shards, m);
    BinWeightsFlatten(Bins(p.shards), Cases(m));
    SumCountsIsWeight(items, m);
    assert multiset(Flatten(Bins(p.shards))) == multiset(Paths(items));
    WeighIgnoresOrder(Flatten(Bins(p.shards)), Paths(items), Cases(m));
    assert |multiset(Flatten(Bins(p.shards)))| == |multiset(Paths(items))|;
  }

  /** The plan depends only on which lines the log has, not on their order. */
  lemma PlanIgnoresLineOrder(a: seq<string>, b: seq<string>, target: int)
    requires multiset(a) == multiset(b)
    ensures PlanOf(a, target) == PlanOf(b, target)
  {
    OrderedIgnoresOrder(a, b);
    CaseCountsIgnoreOrder(a, b);
    PlanTotals(a, target);
    PlanTotals(b, target);
    assert |CaseCounts(a)| == |CaseCounts(b)|;
  }

  lemma {:induction false} OversizedExactly(items: seq<Item>, target: int, it: Item)
    ensures multiset(Oversized(items, target))[it] == if it.count > target then multiset(items)[it] else 0
  {
    if items != [] {
      OversizedExactly(items[1..], target, it);
      assert items == [items[0]] + items[1..];
    }
  }

  lemma TallyMember(items: seq<Item>, m: multiset<string>, it: Item)
    requires TallyOf(items, m)
    ensures multiset(items)[it] == if it.count == m[it.path] > 0 then 1 else 0
  {
    var item := (f: string) => Item(f, m[f]);
    MultiplicityDistinct(Paths(items));
    assert forall i :: 0 <= i < |items| ==> items[i] == item(Paths(items)[i]);
    assert Distinct(items);
    DistinctMultiplicity(items, it);
    if it.path in multiset(Paths(items)) {
      var k :| 0 <= k < |items| && Paths(items)[k] == it.path;
      assert items[k] == item(it.path);
    } else {
      assert forall k :: 0 <= k < |items| ==>
        items[k].path == Paths(items)[k] && Paths(items)[k] in multiset(Paths(items));
    }
  }

  lemma {:induction false} OversizedSorted(items: seq<Item>, target: int)
    requires Sorted(ItemLE, items)
    ensures Sorted(ItemLE, Oversized(items, target))
    ensures forall it :: it in Oversized(items, target) ==> it in items
  {
    if items != [] {
      OversizedSorted(items[1..], target);
      assert forall it :: it in items[1..] ==> ItemLE(items[0], it);
    }
  }

  /** `oversized_files` lists, once each, exactly the files with more cases than the target, biggest first
      and ties by path. */
  lemma PlanOversized(lines: seq<string>, target: int, it: Item)
    ensures multiset(PlanOf(lines, target).oversized)[it]
         == if it.count > target && it.count == CaseCounts(lines)[it.path] > 0 then 1 else 0
    ensures var big := PlanOf(lines, target).oversized;
      forall i, j :: 0 <= i < j < |big| ==>
        big[i].count > big[j].count || (big[i].count == big[j].count && LexLE(big[i].path, big[j].path))
  {
    OrderedTally(lines);
    OversizedExactly(Ordered(lines), target, it);
    TallyMember(Ordered(lines), CaseCounts(lines), it);
    OrderedSorted(lines);
    OversizedSorted(Ordered(lines), target);
  }

  // ---------------------------------------------------------------- how many shards

  function SumOf(loads: seq<nat>): nat
  {
    if loads == [] then 0 else SumOf(loads[..|loads| - 1]) + loads[|loads| - 1]
  }

  /** Adding up neighbours: pairwise loads above `t` force a large total. */
  lemma {:induction false} PairsAboveTarget(loads: seq<nat>, t: nat)
    requires loads != [] && forall i, j :: 0 <= i < j < |loads| ==> loads[i] + loads[j] > t
    ensures 2 * SumOf(loads) >= loads[0] + loads[|loads| - 1] + (|loads| - 1) * (t + 1)
  {
    var n := |loads| - 1;
    if n == 0 {
      assert loads[..0] == [];
    } else {
      PairsAboveTarget(loads[..n], t);
      assert loads[n - 1] + loads[n] >= t + 1;
      assert n * (t + 1) == (n - 1) * (t + 1) + (t + 1);
    }
  }

  lemma {:induction false} SumOfConcat(a: seq<nat>, b: seq<nat>)
    ensures SumOf(a + b) == SumOf(a) + SumOf(b)
  {
    if b == [] {
      assert a + b == a;
    } else {
      SumOfConcat(a, b[..|b| - 1]);
      assert (a + b)[..|a + b| - 1] == a + b[..|b| - 1];
    }
  }

  function LoadOf(s: Shard): nat { s.caseCount }

  function AllLoads(shards: seq<Shard>): seq<nat>
  {
    Map(LoadOf, shards)
  }

  lemma {:induction false} TotalLoadIsSum(shards: seq<Shard>)
    ensures TotalLoad(shards) == SumOf(AllLoads(shards))
  {
    if shards != [] {
      TotalLoadIsSum(shards[1..]);
      assert AllLoads(shards) == [shards[0].caseCount] + AllLoads(shards[1..]);
      SumOfConcat([shards[0].caseCount], AllLoads(shards[1..]));
      assert [shards[0].caseCount][..0] == [];
    } else {
      assert AllLoads(shards) == [];
    }
  }

  lemma HalfFull(l: seq<nat>, target: nat)
    requires |l| >= 2 && forall i, j :: 0 <= i < j < |l| ==> l[i] + l[j] > target
    ensures |l| * target < 2 * SumOf(l)
  {
    PairsAboveTarget(l, target);
    assert l[0] + l[|l| - 1] >= target + 1;
    assert |l| * (target + 1) == (|l| - 1) * (target + 1) + (target + 1);
    assert |l| * (target + 1) == |l| * target + |l|;
  }

  lemma PackedHalfFull(shards: seq<Shard>, m: multiset<string>, target: nat)
    requires |shards| >= 2 && ShardsPacked(shards, m, target)
    ensures |shards| * target < 2 * TotalLoad(shards)
  {
    TotalLoadIsSum(shards);
    HalfFull(AllLoads(shards), target);
  }

  /** With two or more shards, together they are on average more than half full. */
  lemma PlanHalfFull(lines: seq<string>, target: int)
    requires target > 0 && PlanOf(lines, target).shardCount >= 2
    ensures PlanOf(lines, target).shardCount * target < 2 * PlanOf(lines, target).collectedCases
  {
    PlanPartitions(lines, target);
    PlanTotals(lines, target);
    PackedHalfFull(PlanOf(lines, target).shards, CaseCounts(lines), target);
  }

  /** Any other way to shard the same files: bins within the target, or of a single file. */
  ghost predicate Feasible(bins: seq<seq<string>>, m: multiset<string>, target: nat)
  {
    && Partitions(bins, m)
    && forall b :: b in bins ==> Load(b, m) <= target || |b| == 1
  }

  /** Weights for comparing with another sharding, given the size `c` of the file that opened the
      last shard: two for a file that leaves no room for one of size `c`, one for any other of
      size at least `c`. */
  function Halves(m: multiset<string>, target: nat, c: nat): string -> nat
  {
    (f: string) => if m[f] < c then 0 else if m[f] + c > target then 2 else 1
  }

  /** Cases, with an oversized file counted as filling a shard exactly. */
  function Capped(m: multiset<string>, target: nat): string -> nat
  {
    (f: string) => if m[f] > target then target else m[f]
  }

  /** What the file that opened the last shard says about all shards: they were too full for it,
      holding files no smaller than it. */
  ghost predicate OpenedBy(shards: seq<Shard>, m: multiset<string>, target: nat, c: nat)
  {
    && c > 0
    && (forall i :: 0 <= i < |shards| - 1 ==>
         shards[i].caseCount + c > target && Weigh(shards[i].files, Halves(m, target, c)) >= 2)
    && (shards != [] ==> Weigh(shards[|shards| - 1].files, Halves(m, target, c)) >= 1)
  }

  lemma {:induction false} BigFilesWeigh(files: seq<string>, m: multiset<string>, target: nat, c: nat)
    requires forall f :: f in files ==> m[f] >= c
    ensures Weigh(files, Halves(m, target, c)) >= |files|
    ensures Load(files, m) + c > target && files != [] ==> Weigh(files, Halves(m, target, c)) >= 2
  {
    if files != [] {
      BigFilesWeigh(files[1..], m, target, c);
      if |files| == 1 {
        assert files[1..] == [];
      }
    }
  }

  lemma OpenerKept(shards: seq<Shard>, item: Item, m: multiset<string>, target: nat, c: nat, k: nat)
    requires OpenedBy(shards, m, target, c) && k < |shards|
    ensures OpenedBy(shards[k := AddFile(shards[k], item)], m, target, c)
  {
    WeighConcat(shards[k].files, [item.path], Halves(m, target, c));
  }

  lemma OpenedSnoc(shards: seq<Shard>, s: Shard, m: multiset<string>, target: nat, c: nat)
    requires c > 0 && Weigh(s.files, Halves(m, target, c)) >= 1
    requires forall i :: 0 <= i < |shards| ==>
               shards[i].caseCount + c > target && Weigh(shards[i].files, Halves(m, target, c)) >= 2
    ensures OpenedBy(shards + [s], m, target, c)
  {
  }

  lemma NewOpener(shards: seq<Shard>, item: Item, m: multiset<string>, target: nat)
    requires ShardsPacked(shards, m, target) && item.count == m[item.path] > 0
    requires forall i :: 0 <= i < |shards| ==> !Fits(shards[i], item.count, target)
    requires forall s, f :: s in shards && f in s.files ==> m[f] >= item.count
    ensures OpenedBy(shards + [Alone(|shards|, item)], m, target, item.count)
  {
    forall i | 0 <= i < |shards|
      ensures shards[i].caseCount + item.count > target && Weigh(shards[i].files, Halves(m, target, item.count)) >= 2
    {
      assert !Fits(shards[i], item.count, target);
      BigFilesWeigh(shards[i].files, m, target, item.count);
    }
    BigFilesWeigh([item.path], m, target, item.count);
    OpenedSnoc(shards, Alone(|shards|, item), m, target, item.count);
  }

  lemma OpenerStep(shards: seq<Shard>, item: Item, m: multiset<string>, target: nat, c: nat) returns (d: nat)
    requires OpenedBy(shards, m, target, c) && ShardsPacked(shards, m, target)
    requires item.count == m[item.path] > 0
    requires forall s, f :: s in shards && f in s.files ==> m[f] >= item.count
    ensures OpenedBy(Place(shards, item, target), m, target, d)
  {
    var k := Choose(shards, item.count, target);
    PlaceCases(shards, item, target, k);
    if k < |shards| {
      d := c;
      OpenerKept(shards, item, m, target, c, k);
    } else {
      d := item.count;
      NewOpener(shards, item, m, target);
    }
  }

  lemma {:induction false} FlattenMember(bins: seq<seq<string>>, b: seq<string>, f: string)
    requires b in bins && f in b
    ensures f in Flatten(bins)
  {
    if b != bins[0] {
      FlattenMember(bins[1..], b, f);
    }
  }

  lemma PackedNoSmaller(items: seq<Item>, m: multiset<string>, target: nat, c: nat)
    requires forall it :: it in items ==> it.count == m[it.path] >= c
    ensures forall s, f :: s in Pack(items, target) && f in s.files ==> m[f] >= c
  {
    var shards := Pack(items, target);
    PackedFiles(items, target);
    forall s, f | s in shards && f in s.files ensures m[f] >= c {
      var k :| 0 <= k < |shards| && shards[k] == s;
      assert Bins(shards)[k] == s.files;
      FlattenMember(Bins(shards), s.files, f);
      assert f in multiset(Paths(items));
      var j :| 0 <= j < |items| && Paths(items)[j] == f;
      assert items[j].path == f;
    }
  }

  /** Packing in decreasing order leaves such an opening file behind. */
  lemma {:induction false} LastOpener(items: seq<Item>, m: multiset<string>, target: nat) returns (c: nat)
    requires Sorted(ItemLE, items) && forall it :: it in items ==> it.count == m[it.path] > 0
    ensures OpenedBy(Pack(items, target), m, target, c)
  {
    if items == [] {
      c := 1;
    } else {
      var n := |items| - 1;
      var c0 := LastOpener(items[..n], m, target);
      PackKeepsPacked(items[..n], m, target);
      forall it | it in items[..n] ensures it.count >= items[n].count {
        assert ItemLE(it, items[n]);
      }
      PackedNoSmaller(items[..n], m, target, items[n].count);
      c := OpenerStep(Pack(items[..n], target), items[n], m, target, c0);
    }
  }

  /** A bin within the target holds at most one file above `target - c`, or two above a third. */
  lemma {:induction false} BinHalves(b: seq<string>, m: multiset<string>, target: nat, c: nat)
    requires 3 * c > target && Load(b, m) <= target
    ensures Weigh(b, Halves(m, target, c)) <= 2
    ensures Weigh(b, Halves(m, target, c)) >= 1 ==> Load(b, m) >= c
    ensures Weigh(b, Halves(m, target, c)) == 2 ==> Load(b, m) + c > target
  {
    if b != [] {
      BinHalves(b[1..], m, target, c);
    }
  }

  lemma {:induction false} BinCapped(b: seq<string>, m: multiset<string>, target: nat)
    requires Load(b, m) <= target
    ensures Weigh(b, Capped(m, target)) == Load(b, m)
  {
    if b != [] {
      BinCapped(b[1..], m, target);
    }
  }

  lemma SingleFile(b: seq<string>, w: string -> nat)
    requires |b| == 1
    ensures Weigh(b, w) == w(b[0])
  {
    assert b[1..] == [];
  }

  lemma {:induction false} BinsWeighAtMost(bins: seq<seq<string>>, w: string -> nat, most: nat)
    requires forall b :: b in bins ==> Weigh(b, w) <= most
    ensures BinWeights(bins, w) <= most * |bins|
  {
    if bins != [] {
      BinsWeighAtMost(bins[1..], w, most);
      assert most * |bins| == most * |bins[1..]| + most;
    }
  }

  lemma {:induction false} BinsWeighAtLeast(bins: seq<seq<string>>, w: string -> nat, least: nat)
    requires bins != []
    requires forall i :: 0 <= i < |bins| - 1 ==> Weigh(bins[i], w) >= least
    requires Weigh(bins[|bins| - 1], w) >= 1
    ensures BinWeights(bins, w) >= least * (|bins| - 1) + 1
  {
    if |bins| == 1 {
      assert bins[1..] == [];
    } else {
      BinsWeighAtLeast(bins[1..], w, least);
      assert least * (|bins| - 1) == least * (|bins[1..]| - 1) + least;
    }
  }

  lemma HalvesAtLeast(shards: seq<Shard>, m: multiset<string>, target: nat, c: nat)
    requires shards != [] && OpenedBy(shards, m, target, c)
    ensures BinWeights(Bins(shards), Halves(m, target, c)) >= 2 * |shards| - 1
  {
    BinsWeighAtLeast(Bins(shards), Halves(m, target, c), 2);
  }

  lemma HalvesAtMost(m: multiset<string>, target: nat, c: nat, bins: seq<seq<string>>)
    requires Feasible(bins, m, target) && 3 * c > target
    ensures BinWeights(bins, Halves(m, target, c)) <= 2 * |bins|
  {
    forall b | b in bins ensures Weigh(b, Halves(m, target, c)) <= 2 {
      if Load(b, m) <= target {
        BinHalves(b, m, target, c);
      } else {
        SingleFile(b, Halves(m, target, c));
      }
    }
    BinsWeighAtMost(bins, Halves(m, target, c), 2);
  }

  /** When the last opener is bigger than a third of the target, no sharding does with fewer. */
  lemma BigOpener(shards: seq<Shard>, m: multiset<string>, target: nat, c: nat, bins: seq<seq<string>>)
    requires shards != [] && OpenedBy(shards, m, target, c) && 3 * c > target
    requires Partitions(Bins(shards), m) && Feasible(bins, m, target)
    ensures |shards| <= |bins|
  {
    PartitionsWeighSame(bins, Bins(shards), m, Halves(m, target, c));
    HalvesAtLeast(shards, m, target, c);
    HalvesAtMost(m, target, c, bins);
  }

  lemma CappedLoad(s: Shard, m: multiset<string>, target: nat, c: nat)
    requires c > 0 && s.caseCount == Load(s.files, m) > 0 && WithinTarget(s, target) && target > 0
    ensures Weigh(s.files, Capped(m, target)) >= 1
    ensures s.caseCount + c > target ==> Weigh(s.files, Capped(m, target)) + c > target
  {
    if s.caseCount <= target {
      BinCapped(s.files, m, target);
    } else {
      SingleFile(s.files, Capped(m, target));
      SingleFile(s.files, Cases(m));
    }
  }

  lemma Scale(x: int, y: int, t: nat)
    ensures x * t < y * t ==> x < y
  {
    if x >= y {
      assert x * t == y * t + (x - y) * t;
    }
  }

  lemma TwoThirds(n: nat, b: nat, t: nat, c: nat, total: nat)
    requires 3 * c <= t && total > (t - c + 1) * n && total <= t * b
    ensures 2 * n < 3 * b
  {
    assert 3 * ((t - c + 1) * n) == (2 * n) * t + (t - 3 * c) * n + 3 * n;
    assert (t - 3 * c) * n >= 0;
    assert 3 * (t * b) == (3 * b) * t;
    Scale(2 * n, 3 * b, t);
  }

  lemma CappedBin(shards: seq<Shard>, m: multiset<string>, target: nat, c: nat, i: nat)
    requires OpenedBy(shards, m, target, c) && c <= target && ShardsPacked(shards, m, target) && i < |shards|
    ensures Weigh(shards[i].files, Capped(m, target)) >= 1
    ensures i < |shards| - 1 ==> Weigh(shards[i].files, Capped(m, target)) >= target - c + 1
  {
    CappedLoad(shards[i], m, target, c);
  }

  lemma MoreThan(a: nat, n: nat, total: nat)
    requires total >= a * n + 1
    ensures total > a * n
  {
  }

  lemma CappedAtLeast(shards: seq<Shard>, m: multiset<string>, target: nat, c: nat)
    requires shards != [] && OpenedBy(shards, m, target, c) && c <= target && ShardsPacked(shards, m, target)
    ensures BinWeights(Bins(shards), Capped(m, target)) > (target - c + 1) * (|shards| - 1)
  {
    var w, bins := Capped(m, target), Bins(shards);
    forall i | 0 <= i < |bins| ensures Weigh(bins[i], w) >= if i < |bins| - 1 then target - c + 1 else 1 {
      CappedBin(shards, m, target, c, i);
    }
    BinsWeighAtLeast(bins, w, target - c + 1);
    MoreThan(target - c + 1, |bins| - 1, BinWeights(bins, w));
  }

  lemma CappedAtMost(m: multiset<string>, target: nat, bins: seq<seq<string>>)
    requires Feasible(bins, m, target)
    ensures BinWeights(bins, Capped(m, target)) <= target * |bins|
  {
    forall b | b in bins ensures Weigh(b, Capped(m, target)) <= target {
      if Load(b, m) <= target {
        BinCapped(b, m, target);
      } else {
        SingleFile(b, Capped(m, target));
      }
    }
    BinsWeighAtMost(bins, Capped(m, target), target);
  }

  /** When it is smaller, every other shard is more than two thirds full. */
  lemma SmallOpener(shards: seq<Shard>, m: multiset<string>, target: nat, c: nat, bins: seq<seq<string>>)
    requires shards != [] && OpenedBy(shards, m, target, c) && 3 * c <= target
    requires ShardsPacked(shards, m, target) && Partitions(Bins(shards), m) && Feasible(bins, m, target)
    ensures 2 * |shards| <= 3 * |bins| + 1
  {
    PartitionsWeighSame(bins, Bins(shards), m, Capped(m, target));
    CappedAtLeast(shards, m, target, c);
    CappedAtMost(m, target, bins);
    TwoThirds(|shards| - 1, |bins|, target, c, BinWeights(bins, Capped(m, target)));
  }

  /** Sorting the files of each shard changes no weight. */
  lemma SortedOpenedBy(shards: seq<Shard>, m: multiset<string>, target: nat, c: nat)
    requires OpenedBy(shards, m, target, c)
    ensures OpenedBy(Map(SortFiles, shards), m, target, c)
  {
    forall i | 0 <= i < |shards|
      ensures Weigh(SortFiles(shards[i]).files, Halves(m, target, c)) == Weigh(shards[i].files, Halves(m, target, c))
    {
      SortedFiles(shards[i], m);
      WeighIgnoresOrder(SortFiles(shards[i]).files, shards[i].files, Halves(m, target, c));
    }
  }

  /** The greedy plan against any feasible sharding, an optimal one included: at most half as many
      shards again, rounded up; in particular never more than twice as many. */
  lemma PlanNearOptimal(lines: seq<string>, target: int, bins: seq<seq<string>>)
    requires target > 0 && Feasible(bins, CaseCounts(lines), target)
    ensures 2 * PlanOf(lines, target).shardCount <= 3 * |bins| + 1
    ensures PlanOf(lines, target).shardCount <= 2 * |bins|
  {
    var m, items, shards := CaseCounts(lines), Ordered(lines), PlanOf(lines, target).shards;
    PlanPartitions(lines, target);
    OrderedTally(lines);
    OrderedSorted(lines);
    var c := LastOpener(items, m, target);
    SortedOpenedBy(Pack(items, target), m, target, c);
    if shards != [] {
      if 3 * c > target {
        BigOpener(shards, m, target, c, bins);
      } else {
        SmallOpener(shards, m, target, c, bins);
      }
      NonemptyBins(shards, m, bins);
    }
  }

  lemma NonemptyBins(shards: seq<Shard>, m: multiset<string>, bins: seq<seq<string>>)
    requires shards != [] && (forall s :: s in shards ==> s.files != [])
    requires Partitions(Bins(shards), m) && Partitions(bins, m)
    ensures bins != []
  {
    var f := Bins(shards)[0][0];
    FlattenMember(Bins(shards), Bins(shards)[0], f);
    assert f in multiset(Flatten(bins));
  }
}
