/** The archive of tools/run_full_shards.py: how one shard's result is closed, the summary that grows
    with each completion, and its reconciliation. */
module ShardArchive {
  import opened Ordering
  import opened Wrappers

  // ---------------------------------------------------------------- junit_counts

  /** One `<testcase>`: the node id it reports on, which the runner never looks at, which child elements
      it has, and the `message` of a `<skipped>`. */
  datatype TestCase = TestCase(id: string, failure: bool, error: bool, skipped: Option<string>)

  datatype Counts = Counts(passed: nat, failed: nat, error: nat, skipped: nat)

  datatype Outcome = Passed | Failed | Errored | Skipped | CollectionSkipped

  predicate NamesCollection(message: string)
  {
    message == "collection skipped"
  }

  function OutcomeOf(c: TestCase): Outcome
  {
    if c.failure then Failed
    else if c.error then Errored
    else if c.skipped.Some? then if NamesCollection(c.skipped.value) then CollectionSkipped else Skipped
    else Passed
  }

  function Outcomes(cases: seq<TestCase>): multiset<Outcome>
  {
    multiset(Map(OutcomeOf, cases))
  }

  function Bumped(counts: Counts, o: Outcome): Counts
  {
    match o
    case Passed => counts.(passed := counts.passed + 1)
    case Failed => counts.(failed := counts.failed + 1)
    case Errored => counts.(error := counts.error + 1)
    case Skipped => counts.(skipped := counts.skipped + 1)
    case CollectionSkipped => counts
  }

  function Multiplicities(m: multiset<Outcome>): Counts
  {
    Counts(m[Passed], m[Failed], m[Errored], m[Skipped])
  }

  /** How many cases of each outcome a report has. */
  function CountsOf(cases: seq<TestCase>): Counts
  {
    Multiplicities(Outcomes(cases))
  }

  function CollectionSkips(cases: seq<TestCase>): nat
  {
    Outcomes(cases)[CollectionSkipped]
  }

  /** The counters as the loop leaves them. */
  function Tallied(cases: seq<TestCase>): Counts
  {
    if cases == [] then Counts(0, 0, 0, 0)
    else
      var n := |cases| - 1;
      Bumped(Tallied(cases[..n]), OutcomeOf(cases[n]))
  }

  /** The cases reported as skipped collections, in order. */
  function SkipsOf(cases: seq<TestCase>): seq<TestCase>
  {
    if cases == [] then []
    else
      var n := |cases| - 1;
      SkipsOf(cases[..n]) + if OutcomeOf(cases[n]) == CollectionSkipped then [cases[n]] else []
  }

  lemma TalliedOneMore(cases: seq<TestCase>, c: TestCase)
    ensures Tallied(cases + [c]) == Bumped(Tallied(cases), OutcomeOf(c))
    ensures SkipsOf(cases + [c]) == SkipsOf(cases) + if OutcomeOf(c) == CollectionSkipped then [c] else []
  {
    assert (cases + [c])[..|cases|] == cases;
  }

  lemma BumpedMultiplicities(m: multiset<Outcome>, o: Outcome)
    ensures Bumped(Multiplicities(m), o) == Multiplicities(m + multiset{o})
  {
  }

  lemma OutcomesOneMore(cases: seq<TestCase>, c: TestCase)
    ensures Outcomes(cases + [c]) == Outcomes(cases) + multiset{OutcomeOf(c)}
  {
    assert Map(OutcomeOf, cases + [c]) == Map(OutcomeOf, cases) + [OutcomeOf(c)];
  }

  /** The counters are the multiplicities of the outcomes. */
  lemma {:induction false} TalliedCounts(cases: seq<TestCase>)
    ensures Tallied(cases) == CountsOf(cases) && |SkipsOf(cases)| == CollectionSkips(cases)
  {
    if cases == [] {
      assert Map(OutcomeOf, cases) == [];
    } else {
      var n := |cases| - 1;
      TalliedCounts(cases[..n]);
      BumpedMultiplicities(Outcomes(cases[..n]), OutcomeOf(cases[n]));
      OutcomesOneMore(cases[..n], cases[n]);
      assert cases == cases[..n] + [cases[n]];
    }
  }

  /** One turn of the counting loop. */
  method CountCase(counts: Counts, skips: seq<TestCase>, c: TestCase)
    returns (newCounts: Counts, newSkips: seq<TestCase>)
    ensures newCounts == Bumped(counts, OutcomeOf(c))
    ensures newSkips == skips + if OutcomeOf(c) == CollectionSkipped then [c] else []
  {
    newCounts, newSkips := counts, skips;
    if c.failure {
      newCounts := counts.(failed := counts.failed + 1);
    } else if c.error {
      newCounts := counts.(error := counts.error + 1);
    } else if c.skipped.Some? {
      if NamesCollection(c.skipped.value) {
        newSkips := skips + [c];
      } else {
        newCounts := counts.(skipped := counts.skipped + 1);
      }
    } else {
      newCounts := counts.(passed := counts.passed + 1);
    }
  }

  /** The positions of the cases with a property. */
  ghost function Those(cases: seq<TestCase>, p: TestCase -> bool): set<nat>
  {
    set i | 0 <= i < |cases| && p(cases[i])
  }

  lemma ThoseNext(cases: seq<TestCase>, n: nat, p: TestCase -> bool)
    requires |cases| == n + 1
    ensures |Those(cases, p)| == |Those(cases[..n], p)| + if p(cases[n]) then 1 else 0
  {
    var before, all := Those(cases[..n], p), Those(cases, p);
    forall i: nat ensures i in all <==> i in before || (i == n && p(cases[n])) {
      assert i < n ==> cases[..n][i] == cases[i];
    }
    assert n !in before;
    assert all == before + if p(cases[n]) then {n} else {};
  }

  lemma {:induction false} OutcomesAreThose(cases: seq<TestCase>, o: Outcome, p: TestCase -> bool)
    requires forall c :: p(c) <==> OutcomeOf(c) == o
    ensures Outcomes(cases)[o] == |Those(cases, p)|
  {
    if cases == [] {
      assert Map(OutcomeOf, cases) == [];
    } else {
      var n := |cases| - 1;
      OutcomesAreThose(cases[..n], o, p);
      ThoseNext(cases, n, p);
      OutcomesOneMore(cases[..n], cases[n]);
      assert cases == cases[..n] + [cases[n]];
    }
  }

  predicate Unskipped(c: TestCase) { !c.failure && !c.error && c.skipped.None? }

  predicate HasFailure(c: TestCase) { c.failure }

  predicate HasErrorOnly(c: TestCase) { !c.failure && c.error }

  predicate SkippedFor(c: TestCase, forCollection: bool)
  {
    && !c.failure && !c.error && c.skipped.Some?
    && (c.skipped.value == "collection skipped" <==> forCollection)
  }

  predicate SkippedItself(c: TestCase) { SkippedFor(c, false) }

  predicate SkippedCollection(c: TestCase) { SkippedFor(c, true) }

  /** A case is counted by the first of failure, error and skip it has, and as passed when it has none; a
      skip of a whole collection, told by its message, is counted nowhere. */
  lemma CountsMean(cases: seq<TestCase>)
    ensures CountsOf(cases) == Counts(|Those(cases, Unskipped)|, |Those(cases, HasFailure)|,
                                      |Those(cases, HasErrorOnly)|, |Those(cases, SkippedItself)|)
    ensures CollectionSkips(cases) == |Those(cases, SkippedCollection)|
  {
    OutcomesAreThose(cases, Passed, Unskipped);
    OutcomesAreThose(cases, Failed, HasFailure);
    OutcomesAreThose(cases, Errored, HasErrorOnly);
    OutcomesAreThose(cases, Skipped, SkippedItself);
    OutcomesAreThose(cases, CollectionSkipped, SkippedCollection);
  }

  /** `skips` are the cases at the increasing positions `at`, which are all the collection skips. */
  ghost predicate SkipsAt(cases: seq<TestCase>, skips: seq<TestCase>, at: seq<nat>)
  {
    && |at| == |skips| && (forall j :: 0 <= j < |at| ==> at[j] < |cases| && skips[j] == cases[at[j]])
    && (forall j, k :: 0 <= j < k < |at| ==> at[j] < at[k])
    && forall i: nat :: i < |cases| ==> (i in at <==> SkippedCollection(cases[i]))
  }

  lemma {:induction false} SkipsMean(cases: seq<TestCase>) returns (at: seq<nat>)
    ensures SkipsAt(cases, SkipsOf(cases), at)
  {
    if cases == [] {
      at := [];
    } else {
      var n := |cases| - 1;
      var before := SkipsMean(cases[..n]);
      at := before + if SkippedCollection(cases[n]) then [n] else [];
      SkipsNext(cases, n, SkipsOf(cases[..n]), before);
    }
  }

  lemma SkipsNext(cases: seq<TestCase>, n: nat, skips: seq<TestCase>, at: seq<nat>)
    requires |cases| == n + 1 && SkipsAt(cases[..n], skips, at)
    ensures SkippedCollection(cases[n]) ==> SkipsAt(cases, skips + [cases[n]], at + [n])
    ensures !SkippedCollection(cases[n]) ==> SkipsAt(cases, skips + [], at + [])
  {
    assert skips + [] == skips && at + [] == at;
    forall i: nat | i < n ensures cases[..n][i] == cases[i] && (i in at <==> SkippedCollection(cases[i])) {
    }
    assert n !in at;
  }

  /** `junit_counts` on a readable report. */
  method JunitCounts(cases: seq<TestCase>) returns (counts: Counts, collectionSkips: seq<TestCase>)
    ensures counts == CountsOf(cases) && collectionSkips == SkipsOf(cases)
    ensures |collectionSkips| == CollectionSkips(cases)
  {
    counts, collectionSkips := Counts(0, 0, 0, 0), [];
    for i := 0 to |cases|
      invariant counts == Tallied(cases[..i]) && collectionSkips == SkipsOf(cases[..i])
    {
      TalliedOneMore(cases[..i], cases[i]);
      assert cases[..i + 1] == cases[..i] + [cases[i]];
      counts, collectionSkips := CountCase(counts, collectionSkips, cases[i]);
    }
    assert cases[..|cases|] == cases;
    TalliedCounts(cases);
  }

  function Total(c: Counts): nat
  {
    c.passed + c.failed + c.error + c.skipped
  }

  /** The node ids of the test cases that are counted. */
  function CountedIds(cases: seq<TestCase>): seq<string>
  {
    if cases == [] then []
    else
      var n := |cases| - 1;
      CountedIds(cases[..n]) + if OutcomeOf(cases[n]) == CollectionSkipped then [] else [cases[n].id]
  }

  /** Every test case of a report is counted once, or is a collection skip. */
  lemma CountsCoverReport(cases: seq<TestCase>)
    ensures Total(CountsOf(cases)) + CollectionSkips(cases) == |cases|
    ensures |CountedIds(cases)| == Total(CountsOf(cases))
  {
    TalliedCounts(cases);
    EveryCaseCounted(cases);
  }

  lemma BumpedTotal(counts: Counts, o: Outcome)
    ensures Total(Bumped(counts, o)) == Total(counts) + if o == CollectionSkipped then 0 else 1
  {
  }

  lemma {:induction false} EveryCaseCounted(cases: seq<TestCase>)
    ensures Total(Tallied(cases)) + |SkipsOf(cases)| == |cases| && |CountedIds(cases)| == Total(Tallied(cases))
  {
    if cases != [] {
      var n := |cases| - 1;
      EveryCaseCounted(cases[..n]);
      BumpedTotal(Tallied(cases[..n]), OutcomeOf(cases[n]));
    }
  }

  // ---------------------------------------------------------------- run_shard

  /** The text of a parse error, which always names a line and a column. */
  type ErrorText = s: string | s != "" witness "no element found: line 1, column 0"

  /** The JUnit file a shard's run leaves behind. */
  datatype Junit = Missing | Unreadable(message: ErrorText) | Report(cases: seq<TestCase>)

  /** What running one shard's subprocesses shows, left arbitrary: `collected` is what
      `parse_collect` reads off the collection output. */
  datatype Observation = Observation(collectReturncode: int, collected: set<string>, junit: Junit, returncode: int)

  datatype ShardResult = ShardResult(
    id: string, planned: nat, counts: Counts, returncode: int, junitWritten: bool,
    junitParseError: Option<string>, collectReturncode: int, collectedCases: nat, collectionSkips: nat,
    notRun: set<string>, extra: set<string>, idDrift: nat, junitCases: nat, closed: bool)

  function ReportCases(j: Junit): seq<TestCase>
  {
    if j.Report? then j.cases else []
  }

  function ParseError(j: Junit): Option<string>
  {
    if j.Unreadable? then Some(j.message) else None
  }

  /** The numeric half of closure, spelled out both in `run_shard` and in the reconcile loop. */
  predicate AddsUp(collectReturncode: int, junitWritten: bool, extra: set<string>, junitCases: nat,
                   collectedCases: nat, missing: set<string>, planned: nat)
  {
    && collectReturncode == 0
    && junitWritten
    && extra == {}
    && junitCases == collectedCases
    && junitCases + |missing| == planned
  }

  /** The result `run_shard` puts together from what its subprocesses showed and what it counted. */
  function ResultOf(id: string, canonical: set<string>, obs: Observation, counts: Counts, skips: nat): ShardResult
  {
    var missing, extra := canonical - obs.collected, obs.collected - canonical;
    var closed := ParseError(obs.junit).None? &&
      AddsUp(obs.collectReturncode, obs.junit != Missing, extra, Total(counts), |obs.collected|, missing, |canonical|);
    ShardResult(id, |canonical|, counts, obs.returncode, obs.junit != Missing, ParseError(obs.junit),
                obs.collectReturncode, |obs.collected|, skips, missing, extra, 0, Total(counts), closed)
  }

  /** `run_shard` after its subprocesses have finished. */
  function RunShard(id: string, canonical: set<string>, obs: Observation): ShardResult
  {
    ResultOf(id, canonical, obs, CountsOf(ReportCases(obs.junit)), CollectionSkips(ReportCases(obs.junit)))
  }

  /** Python's truth of `item["junit_parse_error"]`. */
  predicate HasParseError(r: ShardResult)
  {
    r.junitParseError.Some? && r.junitParseError.value != ""
  }

  /** One item of `--reconcile-only`: `closed` recomputed from the archived fields. */
  function ReconcileItem(r: ShardResult): ShardResult
  {
    r.(closed := !HasParseError(r) &&
                 AddsUp(r.collectReturncode, r.junitWritten, r.extra, r.junitCases, r.collectedCases, r.notRun,
                        r.planned))
  }

  lemma ResultCloses(id: string, canonical: set<string>, obs: Observation, counts: Counts, skips: nat)
    ensures var r := ResultOf(id, canonical, obs, counts, skips);
      r.closed && r.notRun == {} <==>
        obs.collectReturncode == 0 && obs.collected == canonical && obs.junit.Report? && r.junitCases == |canonical|
  {
    var missing, extra := canonical - obs.collected, obs.collected - canonical;
    if missing == {} && extra == {} {
      assert obs.collected == canonical by {
        forall n ensures n in obs.collected <==> n in canonical {
          assert n in canonical ==> n !in missing;
          assert n in obs.collected ==> n !in extra;
        }
      }
    }
  }

  /** A result is closed with nothing missing exactly when its clean collection found the canonical
      cases, all of them, and its report counts as many cases. */
  lemma ClosedShard(id: string, canonical: set<string>, obs: Observation)
    ensures var r := RunShard(id, canonical, obs);
      r.closed && r.notRun == {} <==>
        obs.collectReturncode == 0 && obs.collected == canonical && obs.junit.Report? && r.junitCases == |canonical|
  {
    ResultCloses(id, canonical, obs, CountsOf(ReportCases(obs.junit)), CollectionSkips(ReportCases(obs.junit)));
  }

  /** Every field of a shard's result, from what its run showed. It closes exactly when a clean collection
      found canonical cases only and a readable report counts as many; that the missing ones then make up
      the rest, which the code checks as well, follows. */
  lemma ResultShows(id: string, canonical: set<string>, obs: Observation)
    ensures var r, cases := RunShard(id, canonical, obs), if obs.junit.Report? then obs.junit.cases else [];
      && r.id == id && r.planned == |canonical| && r.returncode == obs.returncode
      && r.counts == CountsOf(cases) && r.collectionSkips == CollectionSkips(cases)
      && r.junitCases == r.counts.passed + r.counts.failed + r.counts.error + r.counts.skipped
      && r.junitWritten == !obs.junit.Missing?
      && (if obs.junit.Unreadable? then r.junitParseError.Some? && r.junitParseError.value == obs.junit.message
          else r.junitParseError.None?)
      && r.collectReturncode == obs.collectReturncode && r.collectedCases == |obs.collected|
      && r.notRun == canonical - obs.collected && r.extra == obs.collected - canonical && r.idDrift == 0
      && (r.closed <==>
            obs.collectReturncode == 0 && obs.junit.Report? && obs.collected <= canonical
            && r.junitCases == |obs.collected|)
  {
    var counts := CountsOf(ReportCases(obs.junit));
    ClosesExactly(canonical, obs, Total(counts));
  }

  lemma ClosesExactly(canonical: set<string>, obs: Observation, total: nat)
    ensures ParseError(obs.junit).None?
         && AddsUp(obs.collectReturncode, obs.junit != Missing, obs.collected - canonical, total, |obs.collected|,
                   canonical - obs.collected, |canonical|)
        <==> obs.collectReturncode == 0 && obs.junit.Report? && obs.collected <= canonical && total == |obs.collected|
  {
    var extra := obs.collected - canonical;
    if obs.collected <= canonical {
      assert extra == {};
      assert |canonical - obs.collected| == |canonical| - |obs.collected|;
    } else {
      var x :| x in obs.collected && x !in canonical;
      assert x in extra;
    }
  }

  /** Reconciling an item changes nothing but `closed`, which it recomputes from the archived fields. */
  lemma ReconcileMeans(r: ShardResult)
    ensures var item := ReconcileItem(r);
      && item.(closed := r.closed) == r
      && (item.closed <==>
            r.collectReturncode == 0 && (r.junitParseError == None || r.junitParseError == Some("")) && r.junitWritten
            && r.extra == {} && r.junitCases == r.collectedCases && r.junitCases + |r.notRun| == r.planned)
  {
  }

  /** The counts say which cases were reported only up to repetition: the counted ids are exactly the
      canonical cases if and only if they are distinct and canonical. */
  lemma CountsCertifyIdentities(canonical: set<string>, cases: seq<TestCase>)
    requires Total(CountsOf(cases)) == |canonical|
    ensures Elements(CountedIds(cases)) == canonical <==>
            Distinct(CountedIds(cases)) && Elements(CountedIds(cases)) <= canonical
  {
    var ids := CountedIds(cases);
    CountsCoverReport(cases);
    DistinctByCount(ids);
    if Distinct(ids) && Elements(ids) <= canonical {
      assert |canonical - Elements(ids)| == |canonical| - |Elements(ids)|;
      assert canonical == Elements(ids) + (canonical - Elements(ids));
    }
  }

  function PassingCase(id: string): TestCase
  {
    TestCase(id, false, false, None)
  }

  lemma CountedIdsOneMore(cases: seq<TestCase>, c: TestCase)
    ensures CountedIds(cases + [c]) == CountedIds(cases) + if OutcomeOf(c) == CollectionSkipped then [] else [c.id]
  {
    assert (cases + [c])[..|cases|] == cases;
  }

  lemma ReportedTwice(p: TestCase)
    requires OutcomeOf(p) == Passed
    ensures Total(CountsOf([p, p])) == 2 && CountedIds([p, p]) == [p.id, p.id]
  {
    assert [] + [p] == [p] && [p] + [p] == [p, p];
    CountsCoverReport([p, p]);
    CountedIdsOneMore([], p);
    CountedIdsOneMore([p], p);
  }

  /** A report may name one case twice and another never, and still close the shard. */
  lemma RepeatedCaseCloses(id: string, x: string, y: string, obs: Observation)
    requires x != y && obs == Observation(0, {x, y}, Report([PassingCase(x), PassingCase(x)]), 0)
    ensures RunShard(id, {x, y}, obs).closed && RunShard(id, {x, y}, obs).notRun == {}
        && y !in CountedIds(obs.junit.cases)
  {
    ReportedTwice(PassingCase(x));
    var both := {x, y};
    assert |both| == 2;
    ClosedShard(id, both, obs);
  }

  lemma ReconcileKeepsResult(id: string, canonical: set<string>, obs: Observation, counts: Counts, skips: nat)
    ensures ReconcileItem(ResultOf(id, canonical, obs, counts, skips)) == ResultOf(id, canonical, obs, counts, skips)
  {
  }

  /** `run_shard` asks whether there is a parse error and reconciling whether its text is empty, which
      it never is: reconciling a result as it was archived changes nothing. */
  lemma ReconcileKeeps(id: string, canonical: set<string>, obs: Observation)
    ensures ReconcileItem(RunShard(id, canonical, obs)) == RunShard(id, canonical, obs)
  {
    var cases := ReportCases(obs.junit);
    ReconcileKeepsResult(id, canonical, obs, CountsOf(cases), CollectionSkips(cases));
  }

  // ---------------------------------------------------------------- the summary

  datatype Aggregates = Aggregates(closed: bool, notRun: nat, idDrift: nat, collectionSkipEvents: nat)

  /** `summary.json`: the aggregate entries are absent until the first completion. */
  datatype Summary = Summary(results: map<string, ShardResult>, aggregates: Option<Aggregates>)

  const FRESH := Summary(map[], None)

  ghost function SumOver(m: map<string, ShardResult>, keys: set<string>, f: ShardResult -> nat): nat
    requires keys <= m.Keys
  {
    if keys == {} then 0
    else
      var k :| k in keys;
      f(m[k]) + SumOver(m, keys - {k}, f)
  }

  lemma {:induction false} SumTake(m: map<string, ShardResult>, keys: set<string>, f: ShardResult -> nat, k: string)
    requires keys <= m.Keys && k in keys
    ensures SumOver(m, keys, f) == f(m[k]) + SumOver(m, keys - {k}, f)
    decreases |keys|
  {
    var j :| j in keys && SumOver(m, keys, f) == f(m[j]) + SumOver(m, keys - {j}, f);
    if j != k {
      SumTake(m, keys - {j}, f, k);
      SumTake(m, keys - {k}, f, j);
      assert keys - {j} - {k} == keys - {k} - {j};
    }
  }

  function NotRunCount(r: ShardResult): nat { |r.notRun| }
  function DriftCount(r: ShardResult): nat { r.idDrift }
  function SkipCount(r: ShardResult): nat { r.collectionSkips }

  ghost predicate AllClosed(results: map<string, ShardResult>)
  {
    forall id :: id in results ==> results[id].closed
  }

  /** The aggregate entries as a function of the results alone. */
  ghost function Aggregated(results: map<string, ShardResult>, shardCount: nat): Aggregates
  {
    Aggregates(|results| == shardCount && AllClosed(results),
               SumOver(results, results.Keys, NotRunCount),
               SumOver(results, results.Keys, DriftCount),
               SumOver(results, results.Keys, SkipCount))
  }

  /** Numbers of the results, added up in some order of their ids. */
  function AddUp(results: map<string, ShardResult>, ids: seq<string>, count: ShardResult -> nat): nat
  {
    if ids == [] then 0
    else (if ids[0] in results then count(results[ids[0]]) else 0) + AddUp(results, ids[1..], count)
  }

  lemma {:induction false} SumAddsUp(results: map<string, ShardResult>, ids: seq<string>, f: ShardResult -> nat,
                                     count: ShardResult -> nat)
    requires Distinct(ids) && Elements(ids) <= results.Keys && forall r :: f(r) == count(r)
    ensures SumOver(results, Elements(ids), f) == AddUp(results, ids, count)
  {
    if ids == [] {
      assert Elements(ids) == {};
    } else {
      SumAddsUp(results, ids[1..], f, count);
      SumTake(results, Elements(ids), f, ids[0]);
      assert Elements(ids) - {ids[0]} == Elements(ids[1..]);
    }
  }

  /** The aggregate entries: a result per shard, all closed; and the numbers of missing ids, of drifted ids
      and of collection skips, added up over the results in any order. */
  lemma AggregatesMean(results: map<string, ShardResult>, shardCount: nat, ids: seq<string>)
    requires Distinct(ids) && Elements(ids) == results.Keys
    ensures var a := Aggregated(results, shardCount);
      && (a.closed <==> |ids| == shardCount && forall id :: id in results ==> results[id].closed)
      && a.notRun == AddUp(results, ids, (r: ShardResult) => |r.notRun|)
      && a.idDrift == AddUp(results, ids, (r: ShardResult) => r.idDrift)
      && a.collectionSkipEvents == AddUp(results, ids, (r: ShardResult) => r.collectionSkips)
  {
    DistinctByCount(ids);
    assert |results| == |results.Keys|;
    SumAddsUp(results, ids, NotRunCount, (r: ShardResult) => |r.notRun|);
    SumAddsUp(results, ids, DriftCount, (r: ShardResult) => r.idDrift);
    SumAddsUp(results, ids, SkipCount, (r: ShardResult) => r.collectionSkips);
  }

  /** One completion: the loop body of `main`. */
  ghost function Recorded(s: Summary, r: ShardResult, shardCount: nat): Summary
  {
    var results := s.results[r.id := r];
    Summary(results, Some(Aggregated(results, shardCount)))
  }

  ghost function Reconciled(s: Summary, shardCount: nat): Summary
  {
    var results := map id | id in s.results :: ReconcileItem(s.results[id]);
    Summary(results, Some(Aggregated(results, shardCount)))
  }

  datatype Exit = Code(code: int) | KeyError(key: string)

  /** `run_exit_code`. */
  ghost function RunExitCode(s: Summary): Exit
  {
    if s.aggregates.None? then KeyError("closed")
    else if !s.aggregates.value.closed || s.aggregates.value.notRun != 0
      || exists id :: id in s.results && (s.results[id].returncode != 0 || HasParseError(s.results[id]))
    then Code(1)
    else Code(0)
  }

  /** Without aggregates the process ends with a `KeyError`; otherwise with 0 when all is closed, nothing
      missing, every run ended with 0 and every report was readable, and with 1 when not. */
  lemma ExitCodes(s: Summary)
    ensures s.aggregates.None? ==> RunExitCode(s) == KeyError("closed")
    ensures s.aggregates.Some? ==> RunExitCode(s) == Code(0) || RunExitCode(s) == Code(1)
    ensures RunExitCode(s) == Code(0) <==>
            s.aggregates.Some? && s.aggregates.value.closed && s.aggregates.value.notRun == 0
                && forall id :: id in s.results ==>
                     s.results[id].returncode == 0
                     && (s.results[id].junitParseError == None || s.results[id].junitParseError == Some(""))
  {
  }

  /** The `summary` dictionary and its file. */
  class Runner {
    const shardCount: nat
    var results: map<string, ShardResult>
    var aggregates: Option<Aggregates>
    var saved: Option<Summary>

    function Current(): Summary
      reads this
    {
      Summary(results, aggregates)
    }

    /** Start or resume from whatever the archive holds. */
    constructor (shardCount: nat, archived: Option<Summary>)
      ensures this.shardCount == shardCount && saved == archived
      ensures Current() == if archived.Some? then archived.value else FRESH
    {
      this.shardCount := shardCount;
      saved := archived;
      results := if archived.Some? then archived.value.results else map[];
      aggregates := if archived.Some? then archived.value.aggregates else None;
    }

    method SumResults(f: ShardResult -> nat) returns (total: nat)
      ensures total == SumOver(results, results.Keys, f)
    {
      total := 0;
      var todo := results.Keys;
      while todo != {}
        invariant todo <= results.Keys
        invariant total + SumOver(results, todo, f) == SumOver(results, results.Keys, f)
        decreases |todo|
      {
        var id :| id in todo;
        SumTake(results, todo, f, id);
        total := total + f(results[id]);
        todo := todo - {id};
      }
    }

    method Aggregate()
      modifies this`aggregates
      ensures aggregates == Some(Aggregated(results, shardCount))
    {
      var notRun := SumResults(NotRunCount);
      var idDrift := SumResults(DriftCount);
      var skips := SumResults(SkipCount);
      var closed := |results| == shardCount && forall id :: id in results.Keys ==> results[id].closed;
      aggregates := Some(Aggregates(closed, notRun, idDrift, skips));
    }

    /** The body of the `as_completed` loop. */
    method Record(r: ShardResult)
      modifies this
      ensures Current() == Recorded(old(Current()), r, shardCount)
      ensures saved == Some(Current())
    {
      results := results[r.id := r];
      Aggregate();
      saved := Some(Summary(results, aggregates));
    }

    /** `--reconcile-only`. */
    method Reconcile() returns (accepted: bool)
      modifies this
      ensures accepted <==> |old(results)| == shardCount
      ensures accepted ==> Current() == Reconciled(old(Current()), shardCount) && saved == Some(Current())
      ensures !accepted ==> Current() == old(Current()) && saved == old(saved)
    {
      if |results| != shardCount {
        return false;
      }
      var todo := results.Keys;
      while todo != {}
        invariant results.Keys == old(results).Keys && todo <= results.Keys
        invariant forall id :: id in results ==>
                    results[id] == if id in todo then old(results)[id] else ReconcileItem(old(results)[id])
        decreases |todo|
      {
        var id :| id in todo;
        results := results[id := ReconcileItem(results[id])];
        todo := todo - {id};
      }
      assert results == map id | id in old(results) :: ReconcileItem(old(results)[id]);
      Aggregate();
      saved := Some(Summary(results, aggregates));
      return true;
    }
  }
}
