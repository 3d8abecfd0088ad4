/** Whole runs of the shard runner under one plan: sessions that start, record completions in any
    order, save, crash, resume, finish or only reconcile. What exit code 0 then certifies, and why
    the outcome does not depend on how the work was scheduled. */
module ShardRuns {
  import opened Ordering
  import opened ShardPlan
  import opened ShardRunner
  import opened ShardArchive
  import opened Wrappers

  /** What every session works from: the plan's shard ids, the canonical cases of each shard, and
      whether the canonical log passes the size check against the plan. */
  datatype AnyConfig = Config(ids: seq<string>, cases: seq<set<string>>, sizeCheck: bool)

  type Config = c: AnyConfig | |c.ids| == |c.cases| && Distinct(c.ids) witness Config([], [], false)

  /** The summary in memory, the shards whose futures are still out, and whether the latest
      completion has yet to reach the file. */
  datatype Session = Session(memory: Summary, pending: set<nat>, unsaved: bool)

  datatype State = State(disk: Option<Summary>, session: Option<Session>)

  const INITIAL := State(None, None)

  datatype Step =
    | Start(only: set<string>)
    | Complete(i: nat, obs: Observation)
    | Save
    | Crash
    | Finish
    | Reconcile

  function Loaded(disk: Option<Summary>): Summary
  {
    if disk.Some? then disk.value else FRESH
  }

  function Pending(c: Config, only: set<string>, s: Summary): set<nat>
  {
    set i | 0 <= i < |c.ids| && (only == {} || c.ids[i] in only) && c.ids[i] !in s.results
  }

  /** Which steps `main` can take; an observation is whatever the subprocesses happen to show. */
  ghost predicate Enabled(c: Config, st: State, step: Step)
  {
    match step
    case Start(only) => st.session.None? && c.sizeCheck && only <= Elements(c.ids)
    case Complete(i, _) =>
      st.session.Some? && i in st.session.value.pending && i < |c.ids| && !st.session.value.unsaved
    case Save => st.session.Some? && st.session.value.unsaved
    case Crash => st.session.Some?
    case Finish => st.session.Some? && st.session.value.pending == {} && !st.session.value.unsaved
    case Reconcile => st.session.None? && c.sizeCheck && |Loaded(st.disk).results| == |c.ids|
  }

  ghost function Apply(c: Config, st: State, step: Step): State
    requires Enabled(c, st, step)
  {
    match step
    case Start(only) =>
      var s := Loaded(st.disk);
      st.(session := Some(Session(s, Pending(c, only, s), false)))
    case Complete(i, obs) =>
      var session := st.session.value;
      var r := RunShard(c.ids[i], c.cases[i], obs);
      st.(session := Some(Session(Recorded(session.memory, r, |c.ids|), session.pending - {i}, true)))
    case Save => State(Some(st.session.value.memory), Some(st.session.value.(unsaved := false)))
    case Crash => st.(session := None)
    case Finish => State(Some(st.session.value.memory), None)
    case Reconcile => State(Some(Reconciled(Loaded(st.disk), |c.ids|)), None)
  }

  /** The exit code a step ends the process with, if it does. */
  ghost function ExitOf(c: Config, st: State, step: Step): Option<Exit>
    requires Enabled(c, st, step)
  {
    match step
    case Finish => Some(RunExitCode(st.session.value.memory))
    case Reconcile => Some(RunExitCode(Reconciled(Loaded(st.disk), |c.ids|)))
    case _ => None
  }

  ghost predicate Valid(c: Config, st: State, steps: seq<Step>)
    decreases |steps|
  {
    steps == [] || (Enabled(c, st, steps[0]) && Valid(c, Apply(c, st, steps[0]), steps[1..]))
  }

  ghost function Execute(c: Config, st: State, steps: seq<Step>): State
    requires Valid(c, st, steps)
    decreases |steps|
  {
    if steps == [] then st else Execute(c, Apply(c, st, steps[0]), steps[1..])
  }

  // ---------------------------------------------------------------- the invariant

  /** Step `k` of a history completed shard `i`, and the step after it saved the result. */
  predicate SavedRun(past: seq<Step>, k: nat, i: nat)
  {
    k + 1 < |past| && past[k].Complete? && past[k].i == i && past[k + 1].Save?
  }

  function ResultAt(c: Config, i: nat, obs: Observation): ShardResult
    requires i < |c.ids|
  {
    RunShard(c.ids[i], c.cases[i], obs)
  }

  /** Shard `i` has a result, and it is what step `k` showed. */
  ghost predicate Holds(c: Config, past: seq<Step>, results: map<string, ShardResult>, k: nat, i: nat)
  {
    && k < |past| && past[k].Complete? && Present(c, results, i)
    && results[c.ids[i]] == ResultAt(c, i, past[k].obs)
  }

  predicate Present(c: Config, results: map<string, ShardResult>, i: nat)
  {
    i < |c.ids| && c.ids[i] in results
  }

  ghost predicate HasSavedRun(past: seq<Step>, i: nat)
  {
    exists k: nat :: SavedRun(past, k, i)
  }

  /** The results are exactly those of the completions that were saved: what each of these showed is what
      its shard's result holds, every result has one, and no shard has two. */
  ghost predicate Archived(c: Config, past: seq<Step>, results: map<string, ShardResult>)
  {
    && (forall id :: id in results ==> id in c.ids)
    && (forall k: nat, i: nat :: SavedRun(past, k, i) ==> Holds(c, past, results, k, i))
    && (forall i: nat :: Present(c, results, i) ==> HasSavedRun(past, i))
    && (forall k: nat, l: nat, i: nat :: SavedRun(past, k, i) && SavedRun(past, l, i) ==> k == l)
  }

  /** The saved completion behind a result. */
  lemma SavedResult(c: Config, past: seq<Step>, results: map<string, ShardResult>, i: nat) returns (k: nat)
    requires Archived(c, past, results) && Present(c, results, i)
    ensures SavedRun(past, k, i) && Holds(c, past, results, k, i)
  {
    assert HasSavedRun(past, i);
    k :| SavedRun(past, k, i);
  }

  /** The memory of a session is the file, or the file with the completion that was the last step. */
  ghost predicate MemoryOk(c: Config, past: seq<Step>, file: map<string, ShardResult>, memory: map<string, ShardResult>,
                           unsaved: bool)
  {
    if !unsaved then memory == file
    else past != [] && JustCompleted(c, past[|past| - 1], file, memory)
  }

  ghost predicate JustCompleted(c: Config, step: Step, file: map<string, ShardResult>, memory: map<string, ShardResult>)
  {
    && step.Complete? && step.i < |c.ids| && c.ids[step.i] !in file
    && memory == file[c.ids[step.i] := ResultAt(c, step.i, step.obs)]
  }

  /** A shard whose future is out has no result yet. */
  ghost predicate PendingOk(c: Config, session: Session)
  {
    forall i :: i in session.pending ==> i < |c.ids| && c.ids[i] !in session.memory.results
  }

  /** The aggregate entries equal their recomputation from the results, once there are any. */
  ghost predicate AggregatesOk(c: Config, s: Summary)
  {
    && (s.results != map[] ==> s.aggregates.Some?)
    && (s.aggregates.Some? ==> s.aggregates.value == Aggregated(s.results, |c.ids|))
  }

  ghost predicate SessionOk(c: Config, past: seq<Step>, file: map<string, ShardResult>, session: Session)
  {
    && c.sizeCheck && AggregatesOk(c, session.memory) && PendingOk(c, session)
    && MemoryOk(c, past, file, session.memory.results, session.unsaved)
  }

  /** In every reachable state the file holds exactly the saved completions of the history, the memory at
      most one more, and both have aggregates that equal their recomputation. */
  ghost predicate Invariant(c: Config, past: seq<Step>, st: State)
  {
    && Archived(c, past, Loaded(st.disk).results) && AggregatesOk(c, Loaded(st.disk))
    && (st.session.Some? ==> SessionOk(c, past, Loaded(st.disk).results, st.session.value))
  }

  lemma RunShardId(id: string, canonical: set<string>, obs: Observation)
    ensures RunShard(id, canonical, obs).id == id
  {
  }

  lemma SavedRunLater(past: seq<Step>, step: Step, k: nat, i: nat)
    ensures SavedRun(past + [step], k, i) <==>
              SavedRun(past, k, i) || (k + 1 == |past| && past[k].Complete? && past[k].i == i && step.Save?)
  {
  }

  lemma HoldsLater(c: Config, past: seq<Step>, step: Step, results: map<string, ShardResult>, k: nat, i: nat)
    requires Holds(c, past, results, k, i)
    ensures Holds(c, past + [step], results, k, i)
  {
  }

  /** A step that saves nothing archives nothing. */
  lemma ArchivedStays(c: Config, past: seq<Step>, step: Step, results: map<string, ShardResult>)
    requires Archived(c, past, results) && !step.Save?
    ensures Archived(c, past + [step], results)
  {
    var longer := past + [step];
    forall k: nat, i: nat ensures SavedRun(longer, k, i) <==> SavedRun(past, k, i) {
      SavedRunLater(past, step, k, i);
    }
    forall i: nat | Present(c, results, i) ensures HasSavedRun(longer, i) {
      var k := SavedResult(c, past, results, i);
      assert SavedRun(longer, k, i);
    }
    forall k: nat, i: nat | SavedRun(longer, k, i) ensures Holds(c, longer, results, k, i) {
      HoldsLater(c, past, step, results, k, i);
    }
  }

  lemma OthersHold(c: Config, past: seq<Step>, results: map<string, ShardResult>, memory: map<string, ShardResult>,
                   k: nat, i: nat)
    requires past != [] && JustCompleted(c, past[|past| - 1], results, memory) && Holds(c, past, results, k, i)
    ensures i != past[|past| - 1].i && Holds(c, past + [Save], memory, k, i)
  {
    assert c.ids[i] != c.ids[past[|past| - 1].i];
  }

  /** Saving archives the completion right before it. */
  lemma ArchivedGrows(c: Config, past: seq<Step>, results: map<string, ShardResult>, memory: map<string, ShardResult>)
    requires Archived(c, past, results) && past != [] && JustCompleted(c, past[|past| - 1], results, memory)
    ensures Archived(c, past + [Save], memory)
  {
    var longer, n := past + [Save], |past| - 1;
    var j := past[n].i;
    forall k: nat, i: nat ensures SavedRun(longer, k, i) <==> SavedRun(past, k, i) || (k == n && i == j) {
      SavedRunLater(past, Save, k, i);
    }
    forall k: nat, i: nat | SavedRun(past, k, i) ensures i != j && Holds(c, longer, memory, k, i) {
      OthersHold(c, past, results, memory, k, i);
    }
    assert Holds(c, longer, memory, n, j);
    assert SavedRun(longer, n, j);
    forall i: nat | Present(c, memory, i) ensures HasSavedRun(longer, i) {
      if i != j {
        assert Present(c, results, i);
        var k := SavedResult(c, past, results, i);
        assert SavedRun(longer, k, i);
      }
    }
  }

  /** Reconciling keeps every archived result as it is. */
  lemma ReconciledResults(c: Config, past: seq<Step>, s: Summary)
    requires Archived(c, past, s.results)
    ensures Reconciled(s, |c.ids|).results == s.results
  {
    forall id | id in s.results ensures ReconcileItem(s.results[id]) == s.results[id] {
      var i :| 0 <= i < |c.ids| && c.ids[i] == id;
      assert Present(c, s.results, i);
      var k := SavedResult(c, past, s.results, i);
      ReconcileKeeps(c.ids[i], c.cases[i], past[k].obs);
    }
  }

  lemma CompleteKeepsSession(c: Config, past: seq<Step>, file: map<string, ShardResult>, session: Session, i: nat,
                             obs: Observation)
    requires SessionOk(c, past, file, session) && i in session.pending && i < |c.ids| && !session.unsaved
    ensures var m := Recorded(session.memory, ResultAt(c, i, obs), |c.ids|);
      SessionOk(c, past + [Complete(i, obs)], file, Session(m, session.pending - {i}, true))
  {
    RunShardId(c.ids[i], c.cases[i], obs);
    var last := past + [Complete(i, obs)];
    assert last[|last| - 1] == Complete(i, obs);
    forall j | j in session.pending - {i} ensures c.ids[j] != c.ids[i] {
      assert j < |c.ids| && j != i;
    }
  }

  lemma StepKeepsInvariant(c: Config, past: seq<Step>, st: State, step: Step)
    requires Invariant(c, past, st) && Enabled(c, st, step)
    ensures Invariant(c, past + [step], Apply(c, st, step))
  {
    var file := Loaded(st.disk).results;
    if step.Save? {
      ArchivedGrows(c, past, file, st.session.value.memory.results);
    } else {
      ArchivedStays(c, past, step, file);
      if step.Complete? {
        CompleteKeepsSession(c, past, file, st.session.value, step.i, step.obs);
      } else if step.Reconcile? {
        ReconciledResults(c, past, Loaded(st.disk));
      }
    }
  }

  lemma {:induction false} RunKeepsInvariant(c: Config, past: seq<Step>, st: State, steps: seq<Step>)
    requires Invariant(c, past, st) && Valid(c, st, steps)
    ensures Invariant(c, past + steps, Execute(c, st, steps))
    decreases |steps|
  {
    if steps == [] {
      assert past + steps == past;
    } else {
      StepKeepsInvariant(c, past, st, steps[0]);
      RunKeepsInvariant(c, past + [steps[0]], Apply(c, st, steps[0]), steps[1..]);
      FirstMoved(past, steps);
    }
  }

  lemma FirstMoved(past: seq<Step>, steps: seq<Step>)
    requires steps != []
    ensures past + [steps[0]] + steps[1..] == past + steps
  {
  }

  lemma StartsInvariant(c: Config)
    ensures Invariant(c, [], INITIAL)
  {
  }

  /** Whatever happens to the sessions of a history, its archive holds for each shard what the one
      completion showed that was saved, and nothing else. */
  lemma ArchiveIsSavedRuns(c: Config, steps: seq<Step>)
    requires Valid(c, INITIAL, steps)
    ensures Invariant(c, steps, Execute(c, INITIAL, steps))
    ensures Archived(c, steps, Loaded(Execute(c, INITIAL, steps).disk).results)
  {
    StartsInvariant(c);
    RunKeepsInvariant(c, [], INITIAL, steps);
    assert [] + steps == steps;
  }

  /** The last step of a process writes what is archived already. */
  lemma LastKeepsArchive(c: Config, past: seq<Step>, st: State, last: Step)
    requires Invariant(c, past, st) && Enabled(c, st, last) && (last.Finish? || last.Reconcile?)
    ensures var disk := Apply(c, st, last).disk;
      && c.sizeCheck && disk.Some? && Archived(c, past, disk.value.results) && AggregatesOk(c, disk.value)
      && disk.value.results == Loaded(st.disk).results
  {
    if last.Reconcile? {
      ReconciledResults(c, past, Loaded(st.disk));
    }
  }

  // ---------------------------------------------------------------- what exit code 0 certifies

  /** What a run of shard `i` must show: a clean collection of exactly the node ids it owes, a readable
      report that counts as many test cases, and return code 0. */
  ghost predicate Good(c: Config, i: nat, obs: Observation)
    requires i < |c.ids|
  {
    && obs.collectReturncode == 0 && obs.collected == c.cases[i]
    && obs.junit.Report? && Total(CountsOf(obs.junit.cases)) == |c.cases[i]|
    && obs.returncode == 0
  }

  /** Which of its cases a good run reported is certain only up to repetition: the counted ids are
      exactly the owed ones if and only if they are distinct and owed. */
  lemma GoodReports(c: Config, i: nat, obs: Observation)
    requires i < |c.ids| && Good(c, i, obs)
    ensures Elements(CountedIds(obs.junit.cases)) == c.cases[i] <==>
              Distinct(CountedIds(obs.junit.cases)) && Elements(CountedIds(obs.junit.cases)) <= c.cases[i]
  {
    CountsCertifyIdentities(c.cases[i], obs.junit.cases);
  }

  /** Step `k` of the history completed shard `i` and was saved, it showed a good run, and the result of
      the shard is what it showed. */
  ghost predicate ShardCertified(c: Config, past: seq<Step>, results: map<string, ShardResult>, i: nat, k: nat)
  {
    SavedRun(past, k, i) && Holds(c, past, results, k, i) && Good(c, i, past[k].obs)
  }

  /** As many results as shards means a result for every shard. */
  lemma ResultsCover(c: Config, results: map<string, ShardResult>)
    requires (forall id :: id in results ==> id in c.ids) && |results| == |c.ids|
    ensures forall id :: id in c.ids ==> id in results
  {
    DistinctByCount(c.ids);
    assert results.Keys <= Elements(c.ids);
    SubsetSameSize(results.Keys, Elements(c.ids));
  }

  lemma SubsetSameSize<T>(a: set<T>, b: set<T>)
    requires a <= b && |a| >= |b|
    ensures a == b
  {
    assert |b - a| == |b| - |a|;
    assert b == a + (b - a);
  }

  /** An archived result that closes, misses nothing and ran cleanly. */
  predicate Clean(r: ShardResult)
  {
    r.closed && r.notRun == {} && r.returncode == 0 && !HasParseError(r)
  }

  lemma CleanExactlyGood(c: Config, i: nat, obs: Observation)
    requires i < |c.ids|
    ensures Clean(RunShard(c.ids[i], c.cases[i], obs)) <==> Good(c, i, obs)
  {
    ClosedShard(c.ids[i], c.cases[i], obs);
  }

  lemma {:induction false} NoneMissing(results: map<string, ShardResult>, keys: set<string>)
    requires keys <= results.Keys
    ensures SumOver(results, keys, NotRunCount) == 0 <==> forall id :: id in keys ==> results[id].notRun == {}
    decreases |keys|
  {
    if keys != {} {
      var id :| id in keys;
      SumTake(results, keys, NotRunCount, id);
      NoneMissing(results, keys - {id});
      assert keys == keys - {id} + {id};
    }
  }

  lemma CodeZeroCleans(results: map<string, ShardResult>, shardCount: nat)
    ensures RunExitCode(Summary(results, Some(Aggregated(results, shardCount)))) == Code(0) <==>
              |results| == shardCount && forall id :: id in results ==> Clean(results[id])
  {
    NoneMissing(results, results.Keys);
  }

  ghost predicate CleanAt(c: Config, results: map<string, ShardResult>, i: nat)
    requires i < |c.ids|
  {
    c.ids[i] in results && Clean(results[c.ids[i]])
  }

  lemma CleanEverywhere(c: Config, results: map<string, ShardResult>)
    requires forall id :: id in results ==> id in c.ids
    ensures |results| == |c.ids| && (forall id :: id in results ==> Clean(results[id])) <==>
            forall i :: 0 <= i < |c.ids| ==> CleanAt(c, results, i)
  {
    if |results| == |c.ids| {
      ResultsCover(c, results);
    }
    if forall i :: 0 <= i < |c.ids| ==> CleanAt(c, results, i) {
      forall id | id in results ensures Clean(results[id]) {
        var i :| 0 <= i < |c.ids| && c.ids[i] == id;
        assert CleanAt(c, results, i);
      }
      forall i | 0 <= i < |c.ids| ensures c.ids[i] in results {
        assert CleanAt(c, results, i);
      }
      AllPresent(c, results);
    }
  }

  lemma AllPresent(c: Config, results: map<string, ShardResult>)
    requires (forall id :: id in results ==> id in c.ids) && forall i :: 0 <= i < |c.ids| ==> c.ids[i] in results
    ensures |results| == |c.ids|
  {
    DistinctByCount(c.ids);
    assert results.Keys == Elements(c.ids);
    assert |results| == |results.Keys|;
  }

  /** Exit code 0 means a clean result for every shard, and nothing else does. */
  lemma CodeZeroExactly(c: Config, s: Summary)
    requires AggregatesOk(c, s) && forall id :: id in s.results ==> id in c.ids
    ensures RunExitCode(s) == Code(0) <==>
              s.aggregates.Some? && forall i :: 0 <= i < |c.ids| ==> CleanAt(c, s.results, i)
  {
    if s.aggregates.Some? {
      assert s == Summary(s.results, Some(Aggregated(s.results, |c.ids|)));
      CodeZeroCleans(s.results, |c.ids|);
      CleanEverywhere(c, s.results);
    }
  }

  ghost predicate Certain(c: Config, past: seq<Step>, results: map<string, ShardResult>, i: nat)
  {
    exists k: nat :: ShardCertified(c, past, results, i, k)
  }

  lemma CertainExactly(c: Config, past: seq<Step>, results: map<string, ShardResult>, i: nat)
    requires Archived(c, past, results) && i < |c.ids|
    ensures CleanAt(c, results, i) <==> Certain(c, past, results, i)
  {
    if Present(c, results, i) {
      var k := SavedResult(c, past, results, i);
      CleanExactlyGood(c, i, past[k].obs);
      assert CleanAt(c, results, i) ==> ShardCertified(c, past, results, i, k);
    }
  }

  ghost predicate AllCertified(c: Config, past: seq<Step>, results: map<string, ShardResult>)
  {
    forall i :: 0 <= i < |c.ids| ==> Certain(c, past, results, i)
  }

  lemma CodeZeroCertain(c: Config, past: seq<Step>, s: Summary)
    requires AggregatesOk(c, s) && forall id :: id in s.results ==> id in c.ids
    requires forall i :: 0 <= i < |c.ids| ==> (CleanAt(c, s.results, i) <==> Certain(c, past, s.results, i))
    ensures RunExitCode(s) == Code(0) <==> s.aggregates.Some? && AllCertified(c, past, s.results)
  {
    CodeZeroExactly(c, s);
  }

  lemma SummaryCertified(c: Config, past: seq<Step>, s: Summary)
    requires Archived(c, past, s.results) && AggregatesOk(c, s)
    ensures RunExitCode(s) == Code(0) <==> s.aggregates.Some? && AllCertified(c, past, s.results)
  {
    forall i | 0 <= i < |c.ids| ensures CleanAt(c, s.results, i) <==> Certain(c, past, s.results, i) {
      CertainExactly(c, past, s.results, i);
    }
    CodeZeroCertain(c, past, s);
  }

  /** Over any number of sessions, crashes, resumes and reconciliations: the process ends with exit code
      0 exactly when the archive it leaves has aggregates and, for every shard of the plan, a completion
      of this history was saved that showed a good run; and then the size check passed. */
  lemma ExitZeroCertifies(c: Config, steps: seq<Step>, last: Step)
    requires Valid(c, INITIAL, steps) && Enabled(c, Execute(c, INITIAL, steps), last)
    requires last.Finish? || last.Reconcile?
    ensures var st := Execute(c, INITIAL, steps);
            var disk := Apply(c, st, last).disk;
            c.sizeCheck && disk.Some? && ExitOf(c, st, last) == Some(RunExitCode(disk.value)) &&
            (ExitOf(c, st, last) == Some(Code(0)) <==>
               disk.value.aggregates.Some? && AllCertified(c, steps, disk.value.results))
  {
    var st := Execute(c, INITIAL, steps);
    ArchiveIsSavedRuns(c, steps);
    LastKeepsArchive(c, steps, st, last);
    SummaryCertified(c, steps, Apply(c, st, last).disk.value);
  }

  // ---------------------------------------------------------------- end to end, with the planner

  /** The configuration of a plan made from the canonical log itself. */
  function Planned(lines: seq<string>, target: int): Config
  {
    PlanIdsDistinct(lines, target);
    var p := PlanOf(lines, target);
    Config(Map(IdOf, p.shards), seq(|p.shards|, i requires 0 <= i < |p.shards| => CasesOf(lines, target, i)),
           |ParseCollect(lines)| == p.collectedCases)
  }

  function JunitTotal(ids: seq<string>, results: map<string, ShardResult>): nat
  {
    if ids == [] then 0
    else (if ids[0] in results then results[ids[0]].junitCases else 0) + JunitTotal(ids[1..], results)
  }

  lemma {:induction false} JunitTotalIsLoad(shards: seq<Shard>, results: map<string, ShardResult>)
    requires forall i :: 0 <= i < |shards| ==>
               shards[i].id in results && results[shards[i].id].junitCases == shards[i].caseCount
    ensures JunitTotal(Map(IdOf, shards), results) == TotalLoad(shards)
  {
    if shards == [] {
      assert Map(IdOf, shards) == [];
    } else {
      JunitTotalIsLoad(shards[1..], results);
      assert Map(IdOf, shards) == [shards[0].id] + Map(IdOf, shards[1..]);
    }
  }

  /** What the archive of a history proves about the canonical node ids. */
  ghost predicate Certified(c: Config, past: seq<Step>, nodes: set<string>, results: map<string, ShardResult>)
  {
    && AllCertified(c, past, results)
    && (forall n :: n in nodes ==> exists i :: 0 <= i < |c.ids| && n in c.cases[i])
    && (forall i, j :: 0 <= i < j < |c.ids| ==> c.cases[i] !! c.cases[j])
    && JunitTotal(c.ids, results) == |nodes|
  }

  lemma CertifiedTotal(c: Config, past: seq<Step>, shards: seq<Shard>, results: map<string, ShardResult>)
    requires c.ids == Map(IdOf, shards) && AllCertified(c, past, results)
    requires forall i :: 0 <= i < |shards| ==> |c.cases[i]| == shards[i].caseCount
    ensures JunitTotal(c.ids, results) == TotalLoad(shards)
  {
    forall i | 0 <= i < |shards|
      ensures shards[i].id in results && results[shards[i].id].junitCases == shards[i].caseCount
    {
      assert c.ids[i] == shards[i].id && Certain(c, past, results, i);
      var k: nat :| ShardCertified(c, past, results, i, k);
    }
    JunitTotalIsLoad(shards, results);
  }

  lemma PlannedShares(lines: seq<string>, target: int)
    requires Planned(lines, target).sizeCheck
    ensures var c, shards := Planned(lines, target), PlanOf(lines, target).shards;
            && c.ids == Map(IdOf, shards)
            && (forall i :: 0 <= i < |shards| ==> |c.cases[i]| == shards[i].caseCount)
            && (forall n :: n in ParseCollect(lines) ==> exists i :: 0 <= i < |c.ids| && n in c.cases[i])
            && (forall i, j :: 0 <= i < j < |c.ids| ==> c.cases[i] !! c.cases[j])
            && TotalLoad(shards) == |ParseCollect(lines)|
  {
    var c := Planned(lines, target);
    PlannerRunnerAgree(lines, target);
    PlanTotals(lines, target);
    forall n | n in ParseCollect(lines) ensures exists i :: 0 <= i < |c.ids| && n in c.cases[i] {
      var i :| 0 <= i < |PlanOf(lines, target).shards| && n in CasesOf(lines, target, i);
      assert n in c.cases[i];
    }
  }

  /** End to end, planner and runner together: exit code 0 means every collected node id belongs to
      exactly one shard, and that for every shard a saved completion of this history collected its ids and
      no others, and reported as many test cases; these add up to the planned ones. */
  lemma ExitZeroCertifiesPlan(lines: seq<string>, target: int, steps: seq<Step>, last: Step)
    requires var c := Planned(lines, target);
             Valid(c, INITIAL, steps) && Enabled(c, Execute(c, INITIAL, steps), last)
             && ExitOf(c, Execute(c, INITIAL, steps), last) == Some(Code(0))
    ensures var c := Planned(lines, target);
            var disk := Apply(c, Execute(c, INITIAL, steps), last).disk;
            disk.Some? && Certified(c, steps, ParseCollect(lines), disk.value.results)
  {
    var c := Planned(lines, target);
    ExitZeroCertifies(c, steps, last);
    PlannedShares(lines, target);
    CertifiedTotal(c, steps, PlanOf(lines, target).shards,
                   Apply(c, Execute(c, INITIAL, steps), last).disk.value.results);
  }

  // ---------------------------------------------------------------- confluence

  /** Every run of shard `i` shows the same thing. */
  ghost predicate Repeatable(steps: seq<Step>, obsOf: nat -> Observation)
  {
    forall k :: 0 <= k < |steps| && steps[k].Complete? ==> steps[k].obs == obsOf(steps[k].i)
  }

  /** The archive has a result for every shard of a plan that has shards. */
  ghost predicate Covers(c: Config, st: State)
  {
    st.disk.Some? && c.ids != [] && forall id :: id in c.ids ==> id in st.disk.value.results
  }

  lemma RepeatableResult(c: Config, steps: seq<Step>, results: map<string, ShardResult>, obsOf: nat -> Observation,
                         i: nat)
    requires Archived(c, steps, results) && Repeatable(steps, obsOf) && Present(c, results, i)
    ensures results[c.ids[i]] == ResultAt(c, i, obsOf(i))
  {
    var k := SavedResult(c, steps, results, i);
    assert steps[k].Complete?;
  }

  lemma SameResults(c: Config, steps1: seq<Step>, a: map<string, ShardResult>, steps2: seq<Step>,
                    b: map<string, ShardResult>, obsOf: nat -> Observation)
    requires Archived(c, steps1, a) && Repeatable(steps1, obsOf) && Archived(c, steps2, b) && Repeatable(steps2, obsOf)
    requires forall id :: id in c.ids ==> id in a && id in b
    ensures a == b
  {
    forall id | id in a ensures id in b && a[id] == b[id] {
      var i :| 0 <= i < |c.ids| && c.ids[i] == id;
      RepeatableResult(c, steps1, a, obsOf, i);
      RepeatableResult(c, steps2, b, obsOf, i);
    }
  }

  /** Resume confluence: two histories that both eventually cover the plan - different completion
      orders, crashes between completion and save, `--only` selections, reconciliations - leave the
      same archive behind: the same results and the same aggregates. */
  lemma Confluence(c: Config, steps1: seq<Step>, steps2: seq<Step>, obsOf: nat -> Observation)
    requires Valid(c, INITIAL, steps1) && Repeatable(steps1, obsOf) && Covers(c, Execute(c, INITIAL, steps1))
    requires Valid(c, INITIAL, steps2) && Repeatable(steps2, obsOf) && Covers(c, Execute(c, INITIAL, steps2))
    ensures Execute(c, INITIAL, steps1).disk == Execute(c, INITIAL, steps2).disk
  {
    ArchiveIsSavedRuns(c, steps1);
    ArchiveIsSavedRuns(c, steps2);
    var a, b := Execute(c, INITIAL, steps1).disk.value, Execute(c, INITIAL, steps2).disk.value;
    SameResults(c, steps1, a.results, steps2, b.results, obsOf);
    assert c.ids[0] in a.results;
  }

  /** Reconciling a complete archive changes nothing in it, whatever history made it. */
  lemma ReconcileLeavesArchive(c: Config, steps: seq<Step>)
    requires Valid(c, INITIAL, steps) && c.ids != [] && Enabled(c, Execute(c, INITIAL, steps), Reconcile)
    ensures Apply(c, Execute(c, INITIAL, steps), Reconcile).disk == Execute(c, INITIAL, steps).disk
  {
    ArchiveIsSavedRuns(c, steps);
    ReconcileLeaves(c, steps, Execute(c, INITIAL, steps));
  }

  lemma ReconcileLeaves(c: Config, past: seq<Step>, st: State)
    requires Invariant(c, past, st) && c.ids != [] && Enabled(c, st, Reconcile)
    ensures Apply(c, st, Reconcile).disk == st.disk
  {
    ReconciledResults(c, past, Loaded(st.disk));
  }

  // ---------------------------------------------------------------- whole sessions

  predicate WithinSession(steps: seq<Step>)
  {
    forall k :: 0 <= k < |steps| ==> steps[k].Complete? || steps[k].Save?
  }

  /** How often shard `i` is completed. */
  function Completions(steps: seq<Step>, i: nat): nat
  {
    if steps == [] then 0 else (if steps[0].Complete? && steps[0].i == i then 1 else 0) + Completions(steps[1..], i)
  }

  ghost function IdsAt(c: Config, pending: set<nat>): set<string>
  {
    set i | i in pending && i < |c.ids| :: c.ids[i]
  }

  /** From one memory to another exactly the results of the shards in `ran` were added. */
  ghost predicate Adds(c: Config, before: map<string, ShardResult>, after: map<string, ShardResult>, ran: set<nat>)
  {
    after.Keys == before.Keys + IdsAt(c, ran) && forall id :: id in before ==> after[id] == before[id]
  }

  lemma AddsOneMore(c: Config, before: map<string, ShardResult>, r: ShardResult, after: map<string, ShardResult>,
                    pending: set<nat>, i: nat)
    requires i in pending && i < |c.ids| && c.ids[i] !in before && r.id == c.ids[i]
    requires Adds(c, before[r.id := r], after, pending - {i})
    ensures Adds(c, before, after, pending)
  {
    assert IdsAt(c, pending) == IdsAt(c, pending - {i}) + {c.ids[i]};
  }

  /** Each of these shards is completed once, and no other. */
  ghost predicate CompletesOnce(steps: seq<Step>, pending: set<nat>)
  {
    forall i: nat :: Completions(steps, i) == if i in pending then 1 else 0
  }

  lemma CompletesFirst(steps: seq<Step>, pending: set<nat>)
    requires steps != [] && steps[0].Complete? && steps[0].i in pending
    requires CompletesOnce(steps[1..], pending - {steps[0].i})
    ensures CompletesOnce(steps, pending)
  {
  }

  lemma SavesFirst(steps: seq<Step>, pending: set<nat>)
    requires steps != [] && steps[0].Save? && CompletesOnce(steps[1..], pending)
    ensures CompletesOnce(steps, pending)
  {
  }

  function MemoryOf(st: State): map<string, ShardResult>
  {
    if st.session.Some? then st.session.value.memory.results else map[]
  }

  function PendingOf(st: State): set<nat>
  {
    if st.session.Some? then st.session.value.pending else {}
  }

  lemma CompleteMemory(c: Config, st: State, i: nat, obs: Observation)
    requires Enabled(c, st, Complete(i, obs)) && PendingOk(c, st.session.value)
    ensures var next := Apply(c, st, Complete(i, obs));
      && i in PendingOf(st) && i < |c.ids| && c.ids[i] !in MemoryOf(st) && PendingOf(next) == PendingOf(st) - {i}
      && MemoryOf(next) == MemoryOf(st)[c.ids[i] := ResultAt(c, i, obs)] && ResultAt(c, i, obs).id == c.ids[i]
  {
    RunShardId(c.ids[i], c.cases[i], obs);
  }

  /** A session that gets to its end completes what is out, each shard once. */
  lemma {:induction false} RunsPending(c: Config, past: seq<Step>, st: State, during: seq<Step>, end: State)
    requires Invariant(c, past, st) && st.session.Some? && Valid(c, st, during) && WithinSession(during)
    requires end == Execute(c, st, during) && Enabled(c, end, Finish)
    ensures Adds(c, MemoryOf(st), MemoryOf(end), PendingOf(st)) && CompletesOnce(during, PendingOf(st))
    decreases |during|
  {
    if during == [] {
      assert IdsAt(c, {}) == {};
    } else {
      StepKeepsInvariant(c, past, st, during[0]);
      RunsPending(c, past + [during[0]], Apply(c, st, during[0]), during[1..], end);
      RunsFirst(c, st, during, MemoryOf(end));
    }
  }

  lemma RunsFirst(c: Config, st: State, during: seq<Step>, after: map<string, ShardResult>)
    requires during != [] && Enabled(c, st, during[0]) && (during[0].Complete? || during[0].Save?)
    requires st.session.Some? && PendingOk(c, st.session.value)
    requires var next := Apply(c, st, during[0]);
             Adds(c, MemoryOf(next), after, PendingOf(next)) && CompletesOnce(during[1..], PendingOf(next))
    ensures Adds(c, MemoryOf(st), after, PendingOf(st)) && CompletesOnce(during, PendingOf(st))
  {
    if during[0].Complete? {
      var i, obs := during[0].i, during[0].obs;
      CompleteMemory(c, st, i, obs);
      AddsOneMore(c, MemoryOf(st), ResultAt(c, i, obs), after, PendingOf(st), i);
      CompletesFirst(during, PendingOf(st));
    } else {
      SavesFirst(during, PendingOf(st));
    }
  }

  lemma {:induction false} ExecuteConcat(c: Config, st: State, a: seq<Step>, b: seq<Step>)
    ensures Valid(c, st, a + b) <==> Valid(c, st, a) && Valid(c, Execute(c, st, a), b)
    ensures Valid(c, st, a + b) ==> Execute(c, st, a + b) == Execute(c, Execute(c, st, a), b)
    decreases |a|
  {
    if a == [] {
      assert a + b == b;
    } else {
      assert (a + b)[0] == a[0] && (a + b)[1..] == a[1..] + b;
      if Enabled(c, st, a[0]) {
        ExecuteConcat(c, Apply(c, st, a[0]), a[1..], b);
      }
    }
  }

  /** The shards a session without or with `--only` is asked for. */
  function Asked(c: Config, only: set<string>): set<string>
  {
    if only == {} then Elements(c.ids) else only
  }

  lemma SessionSteps(c: Config, before: State, only: set<string>, during: seq<Step>)
    requires Valid(c, before, [Start(only)] + (during + [Finish]))
    ensures Enabled(c, before, Start(only)) && Valid(c, Apply(c, before, Start(only)), during)
    ensures var st := Execute(c, Apply(c, before, Start(only)), during);
      && Enabled(c, st, Finish)
      && Execute(c, before, [Start(only)] + (during + [Finish])) == Apply(c, st, Finish)
  {
    var steps := [Start(only)] + (during + [Finish]);
    assert steps[0] == Start(only) && steps[1..] == during + [Finish];
    ExecuteConcat(c, Apply(c, before, Start(only)), during, [Finish]);
    assert [Finish][1..] == [];
  }

  /** The shards a session runs, whatever happened before it: of those it is asked for, the ones without a
      result. */
  lemma PendingIds(c: Config, only: set<string>, s: Summary)
    requires only <= Elements(c.ids)
    ensures s.results.Keys + IdsAt(c, Pending(c, only, s)) == s.results.Keys + Asked(c, only)
    ensures forall i: nat :: i in Pending(c, only, s) <==>
              i < |c.ids| && c.ids[i] in Asked(c, only) && c.ids[i] !in s.results
  {
    forall id | id in Asked(c, only) ensures id in s.results || id in IdsAt(c, Pending(c, only, s)) {
      assert id in Elements(c.ids);
      var i :| 0 <= i < |c.ids| && c.ids[i] == id;
      assert id !in s.results ==> i in Pending(c, only, s);
    }
  }

  /** Whatever happened before: a session that runs to its end completes exactly the shards it is asked for
      that have no result yet, each of them once. It adds their results to the archive, leaves what was
      there as it is, and so ends with a result for every shard it is asked for. */
  lemma SessionRunsAsked(c: Config, history: seq<Step>, only: set<string>, during: seq<Step>)
    requires WithinSession(during)
    requires Valid(c, INITIAL, history + ([Start(only)] + (during + [Finish])))
    requires Valid(c, INITIAL, history)
    ensures var before := Loaded(Execute(c, INITIAL, history).disk).results;
            var after := Loaded(Execute(c, INITIAL, history + ([Start(only)] + (during + [Finish]))).disk).results;
      && after.Keys == before.Keys + Asked(c, only) && (forall id :: id in before ==> after[id] == before[id])
      && forall i: nat :: Completions(during, i) ==
           if i < |c.ids| && c.ids[i] in Asked(c, only) && c.ids[i] !in before then 1 else 0
  {
    ExecuteConcat(c, INITIAL, history, [Start(only)] + (during + [Finish]));
    var st := Execute(c, INITIAL, history);
    SessionSteps(c, st, only, during);
    ArchiveIsSavedRuns(c, history);
    StepKeepsInvariant(c, history, st, Start(only));
    var started := Apply(c, st, Start(only));
    RunsPending(c, history + [Start(only)], started, during, Execute(c, started, during));
    PendingIds(c, only, Loaded(st.disk));
  }

  /** Without `--only` the archive then covers the plan. */
  lemma FullSessionCovers(c: Config, history: seq<Step>, during: seq<Step>)
    requires c.ids != [] && WithinSession(during)
    requires Valid(c, INITIAL, history + ([Start({})] + (during + [Finish])))
    ensures Covers(c, Execute(c, INITIAL, history + ([Start({})] + (during + [Finish]))))
  {
    ExecuteConcat(c, INITIAL, history, [Start({})] + (during + [Finish]));
    SessionRunsAsked(c, history, {}, during);
    SessionSteps(c, Execute(c, INITIAL, history), {}, during);
  }

  lemma CompleteAndSave(c: Config, past: seq<Step>, st: State, i: nat, obs: Observation)
    requires Invariant(c, past, st) && st.session.Some? && !st.session.value.unsaved && i in PendingOf(st)
    ensures Enabled(c, st, Complete(i, obs)) && Enabled(c, Apply(c, st, Complete(i, obs)), Save)
    ensures var next := Apply(c, Apply(c, st, Complete(i, obs)), Save);
      && Invariant(c, past + [Complete(i, obs)] + [Save], next) && next.session.Some? && !next.session.value.unsaved
      && PendingOf(next) == PendingOf(st) - {i}
  {
    StepKeepsInvariant(c, past, st, Complete(i, obs));
    StepKeepsInvariant(c, past + [Complete(i, obs)], Apply(c, st, Complete(i, obs)), Save);
  }

  lemma RepeatableMore(i: nat, rest: seq<Step>, obsOf: nat -> Observation)
    requires WithinSession(rest) && Repeatable(rest, obsOf)
    ensures var steps := [Complete(i, obsOf(i))] + ([Save] + rest); WithinSession(steps) && Repeatable(steps, obsOf)
  {
  }

  /** What is out can always be completed, whatever the runs show. */
  lemma {:induction false} CanFinish(c: Config, past: seq<Step>, st: State, obsOf: nat -> Observation)
    returns (during: seq<Step>)
    requires Invariant(c, past, st) && st.session.Some? && !st.session.value.unsaved
    ensures WithinSession(during) && Repeatable(during, obsOf) && Valid(c, st, during)
    ensures Enabled(c, Execute(c, st, during), Finish)
    decreases |PendingOf(st)|
  {
    if PendingOf(st) == {} {
      during := [];
    } else {
      var i :| i in PendingOf(st);
      var a := Complete(i, obsOf(i));
      CompleteAndSave(c, past, st, i, obsOf(i));
      var rest := CanFinish(c, past + [a] + [Save], Apply(c, Apply(c, st, a), Save), obsOf);
      during := [a] + ([Save] + rest);
      TwoMore(c, st, a, Save, rest);
      RepeatableMore(i, rest, obsOf);
    }
  }

  lemma TwoMore(c: Config, st: State, a: Step, b: Step, rest: seq<Step>)
    requires Enabled(c, st, a) && Enabled(c, Apply(c, st, a), b) && Valid(c, Apply(c, Apply(c, st, a), b), rest)
    ensures Valid(c, st, [a] + ([b] + rest))
    ensures Execute(c, st, [a] + ([b] + rest)) == Execute(c, Apply(c, Apply(c, st, a), b), rest)
  {
    assert ([a] + ([b] + rest))[1..] == [b] + rest && ([b] + rest)[1..] == rest;
  }

  /** After any history that is not in the middle of a session, any selection of the plan's shards can be
      run to the end. */
  lemma SessionPossible(c: Config, history: seq<Step>, only: set<string>, obsOf: nat -> Observation)
    returns (during: seq<Step>)
    requires Valid(c, INITIAL, history) && Execute(c, INITIAL, history).session.None?
    requires c.sizeCheck && only <= Elements(c.ids)
    ensures WithinSession(during) && Repeatable(during, obsOf)
    ensures Valid(c, INITIAL, history + ([Start(only)] + (during + [Finish])))
  {
    var st := Execute(c, INITIAL, history);
    ArchiveIsSavedRuns(c, history);
    StepKeepsInvariant(c, history, st, Start(only));
    var started := Apply(c, st, Start(only));
    during := CanFinish(c, history + [Start(only)], started, obsOf);
    ExecuteConcat(c, started, during, [Finish]);
    assert [Finish][1..] == [];
    var steps := [Start(only)] + (during + [Finish]);
    assert steps[0] == Start(only) && steps[1..] == during + [Finish];
    ExecuteConcat(c, INITIAL, history, steps);
  }

  // ---------------------------------------------------------------- good runs end well

  ghost predicate AllClean(c: Config, results: map<string, ShardResult>)
  {
    forall i :: 0 <= i < |c.ids| && c.ids[i] in results ==> Clean(results[c.ids[i]])
  }

  ghost predicate AllGood(c: Config, steps: seq<Step>)
  {
    forall k :: 0 <= k < |steps| ==> GoodStep(c, steps[k])
  }

  ghost predicate GoodStep(c: Config, step: Step)
  {
    step.Complete? && step.i < |c.ids| ==> Good(c, step.i, step.obs)
  }

  lemma GoodArchive(c: Config, past: seq<Step>, results: map<string, ShardResult>)
    requires Archived(c, past, results) && AllGood(c, past)
    ensures AllClean(c, results)
  {
    forall i | 0 <= i < |c.ids| && c.ids[i] in results ensures Clean(results[c.ids[i]]) {
      assert Present(c, results, i);
      var k := SavedResult(c, past, results, i);
      assert GoodStep(c, past[k]);
      CleanExactlyGood(c, i, past[k].obs);
    }
  }

  /** The converse of the certificate: a history whose shards all run well, and whose last process
      leaves a result for every shard, ends with exit code 0. */
  lemma GoodRunsExitZero(c: Config, steps: seq<Step>, last: Step)
    requires Valid(c, INITIAL, steps) && AllGood(c, steps)
    requires Enabled(c, Execute(c, INITIAL, steps), last) && (last.Finish? || last.Reconcile?)
    requires Covers(c, Apply(c, Execute(c, INITIAL, steps), last))
    ensures ExitOf(c, Execute(c, INITIAL, steps), last) == Some(Code(0))
  {
    var st := Execute(c, INITIAL, steps);
    ArchiveIsSavedRuns(c, steps);
    LastKeepsArchive(c, steps, st, last);
    var s := Apply(c, st, last).disk.value;
    GoodArchive(c, steps, s.results);
    CleanSummary(c, s);
  }

  lemma CleanSummary(c: Config, s: Summary)
    requires AggregatesOk(c, s) && forall id :: id in s.results ==> id in c.ids
    requires AllClean(c, s.results) && c.ids != [] && forall id :: id in c.ids ==> id in s.results
    ensures RunExitCode(s) == Code(0)
  {
    assert c.ids[0] in s.results;
    forall i | 0 <= i < |c.ids| ensures CleanAt(c, s.results, i) {
    }
    CodeZeroExactly(c, s);
  }

  /** One shard, one session: a history that ends with exit code 0 if and only if its run was good. */
  lemma OneShardExit(id: string, cases: set<string>, obs: Observation)
    ensures var c, steps := OneShard(id, cases), [Start({}), Complete(0, obs), Save];
      Valid(c, INITIAL, steps) && Enabled(c, Execute(c, INITIAL, steps), Finish)
      && (ExitOf(c, Execute(c, INITIAL, steps), Finish) == Some(Code(0)) <==> Good(c, 0, obs))
  {
    var c, r := OneShard(id, cases), RunShard(id, cases, obs);
    RunShardId(id, cases, obs);
    OneShardRun(c, obs, r);
    FinishExit(c, Recorded(FRESH, r, 1));
    OneResult(c, Recorded(FRESH, r, 1), r);
    CleanExactlyGood(c, 0, obs);
  }

  function OneShard(id: string, cases: set<string>): Config
  {
    Config([id], [cases], true)
  }

  lemma FinishExit(c: Config, m: Summary)
    ensures var st := State(Some(m), Some(Session(m, {}, false)));
      Enabled(c, st, Finish) && ExitOf(c, st, Finish) == Some(RunExitCode(m))
  {
  }

  lemma OneResult(c: Config, s: Summary, r: ShardResult)
    requires AggregatesOk(c, s) && s.aggregates.Some? && |c.ids| == 1
    requires s.results.Keys == {c.ids[0]} && s.results[c.ids[0]] == r
    ensures RunExitCode(s) == Code(0) <==> Clean(r)
  {
    CodeZeroExactly(c, s);
    assert CleanAt(c, s.results, 0) <==> Clean(r);
  }

  lemma OneShardRun(c: Config, obs: Observation, r: ShardResult)
    requires |c.ids| == 1 && c.sizeCheck && r == RunShard(c.ids[0], c.cases[0], obs)
    ensures var steps, m := [Start({}), Complete(0, obs), Save], Recorded(FRESH, r, 1);
      Valid(c, INITIAL, steps) && Execute(c, INITIAL, steps) == State(Some(m), Some(Session(m, {}, false)))
  {
    var m := Recorded(FRESH, r, 1);
    assert Pending(c, {}, FRESH) == {0};
    var s1, s2 := State(None, Some(Session(FRESH, {0}, false))), State(None, Some(Session(m, {}, true)));
    var s3 := State(Some(m), Some(Session(m, {}, false)));
    var none: set<nat>, first: set<nat> := {}, {0};
    assert first - {0} == none;
    assert Apply(c, INITIAL, Start({})) == s1;
    assert Apply(c, s1, Complete(0, obs)) == s2;
    assert Apply(c, s2, Save) == s3;
    OneShardSteps(c, obs, s1, s2, s3);
  }

  lemma OneShardSteps(c: Config, obs: Observation, s1: State, s2: State, s3: State)
    requires Enabled(c, INITIAL, Start({})) && Apply(c, INITIAL, Start({})) == s1
    requires Enabled(c, s1, Complete(0, obs)) && Apply(c, s1, Complete(0, obs)) == s2
    requires Enabled(c, s2, Save) && Apply(c, s2, Save) == s3
    ensures Valid(c, INITIAL, [Start({}), Complete(0, obs), Save])
    ensures Execute(c, INITIAL, [Start({}), Complete(0, obs), Save]) == s3
  {
    var a, b, d := Start({}), Complete(0, obs), Save;
    assert [a, b, d][1..] == [b, d] && [b, d][1..] == [d] && [d][1..] == [];
    assert Valid(c, s3, []);
    assert Valid(c, s2, [d]);
    assert Valid(c, s1, [b, d]);
    assert Execute(c, s3, []) == s3;
    assert Execute(c, s2, [d]) == s3;
    assert Execute(c, s1, [b, d]) == s3;
  }

  /** Exit code 0 does not say that every case was reported: here one is reported twice, the other
      never. */
  lemma ExitZeroMissesRepeat(id: string, x: string, y: string, obs: Observation)
    requires x != y && obs == Observation(0, {x, y}, Report([PassingCase(x), PassingCase(x)]), 0)
    ensures var c, steps := OneShard(id, {x, y}), [Start({}), Complete(0, obs), Save];
      Valid(c, INITIAL, steps) && Enabled(c, Execute(c, INITIAL, steps), Finish)
      && ExitOf(c, Execute(c, INITIAL, steps), Finish) == Some(Code(0)) && y !in CountedIds(obs.junit.cases)
  {
    var both := {x, y};
    RepeatedCaseCloses(id, x, y, obs);
    OneShardExit(id, both, obs);
    ClosedShard(id, both, obs);
  }

  // ---------------------------------------------------------------- nothing is lost or run twice

  /** A step keeps every result on disk as it is, and a new session never schedules a shard that has one. */
  lemma SavedStaysSaved(c: Config, steps: seq<Step>, step: Step, id: string)
    requires Valid(c, INITIAL, steps) && Enabled(c, Execute(c, INITIAL, steps), step)
    requires id in Loaded(Execute(c, INITIAL, steps).disk).results
    ensures var st := Execute(c, INITIAL, steps);
            var before, after := Loaded(st.disk).results, Loaded(Apply(c, st, step).disk).results;
            id in after && after[id] == before[id]
    ensures step.Start? ==>
              forall i :: i in Apply(c, Execute(c, INITIAL, steps), step).session.value.pending ==>
                i < |c.ids| && c.ids[i] != id
  {
    ArchiveIsSavedRuns(c, steps);
    StepKeepsSaved(c, steps, Execute(c, INITIAL, steps), step, id);
  }

  lemma StepKeepsSaved(c: Config, past: seq<Step>, st: State, step: Step, id: string)
    requires Invariant(c, past, st) && Enabled(c, st, step) && id in Loaded(st.disk).results
    ensures var before, after := Loaded(st.disk).results, Loaded(Apply(c, st, step).disk).results;
      id in after && after[id] == before[id]
  {
    if step.Reconcile? {
      ReconciledResults(c, past, Loaded(st.disk));
    }
  }
}
