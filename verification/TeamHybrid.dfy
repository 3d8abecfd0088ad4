/** The fan-out/fan-in protocol of examples/multi_agent/team_hybrid.py: an orchestrator and the main
    process each publish a request to the executors, and the aggregator collects what they publish.
    The router, which the repository's example does not show, delivers every published message once
    to each subscriber, in any order. */
module TeamHybrid {
  import opened Ordering
  import opened Text
  import opened Wrappers

  const EXECUTORS: seq<nat> := [1, 2, 3]
  const EXECUTOR_COUNT := 3
  const EXTRA_PUBLISH_COUNT := 1
  const DIRECT := " [\U{76F4}\U{63A5}\U{53D1}\U{5E03}]"

  function ExpectedResultCount(): nat
  {
    EXECUTOR_COUNT * (1 + EXTRA_PUBLISH_COUNT)
  }

  /** What the team is invoked with: a dictionary, with or without a `task`, or anything else as text. */
  datatype Input = Dictionary(task: Option<string>) | Plain(text: string)

  /** What a run works from: the task of each of its two requests, and whether the direct publish can
      read its task at all. */
  datatype Job = Job(task: string, directTask: string, isDictionary: bool)

  /** The orchestrator takes any input. The direct publish calls `message.get` whatever the message is. */
  function JobOf(input: Input): Job
  {
    match input
    case Dictionary(Some(t)) => Job(t, t + DIRECT, true)
    case Dictionary(None) => Job("", DIRECT, true)
    case Plain(text) => Job(text, "", false)
  }

  /** A message by its `event`; `Other` stands for every event an agent does not look for. */
  datatype Message = ExecutionRequest(task: string) | TaskCompleted(executor: nat, result: string) | Other

  datatype Agent = Executor(id: nat) | Aggregator

  datatype Delivery = Delivery(to: Agent, message: Message)

  function ResultOf(id: nat, task: string): string
  {
    "executor-" + Decimal(id) + " done: " + task
  }

  /** One delivery on `execution_events` for each subscribed executor. */
  function Requests(ids: seq<nat>, task: string): seq<Delivery>
  {
    if ids == [] then [] else [Delivery(Executor(ids[0]), ExecutionRequest(task))] + Requests(ids[1..], task)
  }

  // ---------------------------------------------------------------- the agents as objects

  /** An `asyncio.Event`. */
  class Event {
    var isSet: bool

    constructor ()
      ensures !isSet
    {
      isSet := false;
    }
  }

  datatype Status = Ignored | Executed(result: string) | Collected(count: nat, total: nat)

  /** `ExecutorAgent.invoke`: the status returned and what is published on `completion_events`. */
  function ExecutorInvoke(id: nat, message: Message): (r: (Status, seq<Delivery>))
  {
    match message
    case ExecutionRequest(task) =>
      (Executed(ResultOf(id, task)), [Delivery(Aggregator, TaskCompleted(id, ResultOf(id, task)))])
    case _ => (Ignored, [])
  }

  class AggregatorAgent {
    var results: seq<string>
    var doneEvent: Event
    var expected: nat

    constructor (doneEvent: Event, expected: nat)
      ensures results == [] && this.doneEvent == doneEvent && this.expected == expected
    {
      results, this.doneEvent, this.expected := [], doneEvent, expected;
    }

    method Reset(doneEvent: Event, expected: nat)
      modifies this
      ensures results == [] && this.doneEvent == doneEvent && this.expected == expected
    {
      results, this.doneEvent, this.expected := [], doneEvent, expected;
    }

    /** One delivered message, under the lock. */
    method Invoke(message: Message) returns (status: Status)
      modifies this`results, doneEvent
      ensures Collect(old(results), expected, old(doneEvent.isSet), message) == (results, doneEvent.isSet)
      ensures message.TaskCompleted? ==>
                results == old(results) + [message.result] && status == Collected(|results|, expected)
                && doneEvent.isSet == (old(doneEvent.isSet) || |results| == expected)
      ensures !message.TaskCompleted? ==>
                results == old(results) && doneEvent.isSet == old(doneEvent.isSet) && status == Ignored
    {
      if !message.TaskCompleted? {
        return Ignored;
      }
      results := results + [message.result];
      var count := |results|;
      if count == expected {
        doneEvent.isSet := true;
      }
      return Collected(count, expected);
    }
  }

  /** The aggregator's results and its event after one message. */
  function Collect(results: seq<string>, expected: nat, done: bool, message: Message): (seq<string>, bool)
  {
    if message.TaskCompleted? then (results + [message.result], done || |results| + 1 == expected) else (results, done)
  }

  /** The team: its subscriptions are made once, however many runs there are. */
  class TaskExecutionTeam {
    var subscriptionsReady: bool
    var executionSubscribers: seq<nat>
    var completionSubscribers: seq<Agent>
    const aggregator: AggregatorAgent

    ghost predicate Valid()
      reads this
    {
      && executionSubscribers == (if subscriptionsReady then EXECUTORS else [])
      && completionSubscribers == (if subscriptionsReady then [Aggregator] else [])
    }

    constructor ()
      ensures Valid() && !subscriptionsReady && fresh(aggregator)
    {
      subscriptionsReady, executionSubscribers, completionSubscribers := false, [], [];
      var done := new Event();
      aggregator := new AggregatorAgent(done, ExpectedResultCount());
    }

    method SetupSubscriptions()
      requires Valid()
      modifies `subscriptionsReady, `executionSubscribers, `completionSubscribers
      ensures Valid() && subscriptionsReady
    {
      if subscriptionsReady {
        return;
      }
      executionSubscribers := executionSubscribers + [1];
      executionSubscribers := executionSubscribers + [2];
      executionSubscribers := executionSubscribers + [3];
      completionSubscribers := completionSubscribers + [Aggregator];
      subscriptionsReady := true;
    }

    /** The start of a run: a new event, no results, and every subscriber exactly once. */
    method StartRun() returns (done: Event)
      requires Valid()
      modifies this, aggregator
      ensures Valid() && subscriptionsReady && fresh(done) && aggregator.doneEvent == done
      ensures (aggregator.results, aggregator.expected, done.isSet)
          == (Start([]).results, Start([]).expected, Start([]).done)
    {
      done := new Event();
      aggregator.Reset(done, ExpectedResultCount());
      SetupSubscriptions();
    }
  }

  // ---------------------------------------------------------------- one run as a protocol

  datatype Phase = Sending | Publishing | Waiting | Reported(results: seq<string>, timedOut: bool) | Failed

  datatype State = State(phase: Phase, inFlight: seq<Delivery>, results: seq<string>, expected: nat, done: bool)

  /** A run starts after `reset`, with `strays` possibly still on their way. */
  function Start(strays: seq<Delivery>): State
  {
    State(Sending, strays, [], ExpectedResultCount(), false)
  }

  /** The main process's steps, and the router delivering any one message. */
  datatype Step = SendToOrchestrator | DirectPublish | Deliver(i: nat) | Report(timedOut: bool)

  predicate Enabled(s: State, step: Step)
  {
    match step
    case SendToOrchestrator => s.phase.Sending?
    case DirectPublish => s.phase.Publishing?
    case Deliver(i) => !s.phase.Reported? && !s.phase.Failed? && i < |s.inFlight|
    case Report(timedOut) => s.phase.Waiting? && (timedOut || s.done)
  }

  function Apply(job: Job, s: State, step: Step): State
    requires Enabled(s, step)
  {
    match step
    case SendToOrchestrator =>
      s.(phase := Publishing, inFlight := s.inFlight + Requests(EXECUTORS, job.task))
    case DirectPublish =>
      if !job.isDictionary then s.(phase := Failed)
      else s.(phase := Waiting, inFlight := s.inFlight + Requests(EXECUTORS, job.directTask))
    case Deliver(i) => Delivered(s.(inFlight := Without(s.inFlight, i)), s.inFlight[i])
    case Report(timedOut) => s.(phase := Reported(s.results, timedOut))
  }

  function Without(ds: seq<Delivery>, i: nat): seq<Delivery>
    requires i < |ds|
  {
    ds[..i] + ds[i + 1..]
  }

  function Delivered(s: State, d: Delivery): State
  {
    match d.to
    case Executor(id) => s.(inFlight := s.inFlight + ExecutorInvoke(id, d.message).1)
    case Aggregator =>
      var (results, done) := Collect(s.results, s.expected, s.done, d.message);
      s.(results := results, done := done)
  }

  predicate Runs(job: Job, s: State, run: seq<Step>)
    decreases |run|
  {
    run == [] || (Enabled(s, run[0]) && Runs(job, Apply(job, s, run[0]), run[1..]))
  }

  function Execute(job: Job, s: State, run: seq<Step>): State
    requires Runs(job, s, run)
    decreases |run|
  {
    if run == [] then s else Execute(job, Apply(job, s, run[0]), run[1..])
  }

  // ---------------------------------------------------------------- conservation

  /** The results a message on its way will still lead to. */
  function Yield(d: Delivery): seq<string>
  {
    match d
    case Delivery(Executor(id), ExecutionRequest(task)) => [ResultOf(id, task)]
    case Delivery(Aggregator, TaskCompleted(_, result)) => [result]
    case _ => []
  }

  function Yields(ds: seq<Delivery>): seq<string>
  {
    if ds == [] then [] else Yield(ds[0]) + Yields(ds[1..])
  }

  function FromTask(task: string): seq<string>
  {
    Yields(Requests(EXECUTORS, task))
  }

  /** The results of publishes that have not happened yet. */
  function Pending(job: Job, phase: Phase): seq<string>
  {
    match phase
    case Sending => FromTask(job.task) + FromTask(job.directTask)
    case Publishing | Failed => FromTask(job.directTask)
    case Waiting | Reported(_, _) => []
  }

  /** Every result a full run collects: each executor's, for both requests. */
  function AllResults(job: Job): multiset<string>
  {
    multiset(FromTask(job.task) + FromTask(job.directTask))
  }

  /** Nothing is lost and nothing is invented: what was collected, what is on its way and what is still
      to be published make up exactly the results of a full run. */
  ghost predicate Conserved(job: Job, s: State)
  {
    multiset(s.results) + multiset(Yields(s.inFlight)) + multiset(Pending(job, s.phase)) == AllResults(job)
  }

  ghost predicate Invariant(job: Job, s: State)
  {
    && Conserved(job, s)
    && s.expected == ExpectedResultCount()
    && (s.done <==> |s.results| == s.expected)
    && (s.phase.Reported? ==> s.phase.results == s.results && (s.phase.timedOut || s.done))
    && (!job.isDictionary ==> !s.phase.Waiting? && !s.phase.Reported?)
    && (job.isDictionary ==> !s.phase.Failed?)
  }

  lemma {:induction false} YieldsConcat(a: seq<Delivery>, b: seq<Delivery>)
    ensures Yields(a + b) == Yields(a) + Yields(b)
  {
    if a == [] {
      assert a + b == b;
    } else {
      YieldsConcat(a[1..], b);
      Regroup(Yield(a[0]), Yields(a[1..]), Yields(b));
      assert (a + b)[1..] == a[1..] + b && (a + b)[0] == a[0];
    }
  }

  lemma SplitAround(ds: seq<Delivery>, i: nat)
    requires i < |ds|
    ensures ds == ds[..i] + ds[i..] && ds[i..] != [] && ds[i..][0] == ds[i] && ds[i..][1..] == ds[i + 1..]
  {
  }

  lemma YieldsWithout(ds: seq<Delivery>, i: nat)
    requires i < |ds|
    ensures multiset(Yields(ds)) == multiset(Yields(Without(ds, i))) + multiset(Yield(ds[i]))
  {
    SplitAround(ds, i);
    YieldsConcat(ds[..i], ds[i + 1..]);
    YieldsConcat(ds[..i], ds[i..]);
  }

  lemma AllResultsCount(job: Job)
    ensures |AllResults(job)| == ExpectedResultCount()
  {
    ThreeResults(job.task);
    ThreeResults(job.directTask);
  }

  lemma ThreeResults(task: string)
    ensures |FromTask(task)| == EXECUTOR_COUNT
  {
    RequestsYieldEach(EXECUTORS, task);
  }

  lemma {:induction false} RequestsYieldEach(ids: seq<nat>, task: string)
    ensures |Yields(Requests(ids, task))| == |ids|
  {
    if ids != [] {
      RequestsYieldEach(ids[1..], task);
      var r := Requests(ids, task);
      assert r[1..] == Requests(ids[1..], task);
    }
  }

  lemma ExecutorYields(id: nat, m: Message)
    ensures Yields(ExecutorInvoke(id, m).1) == Yield(Delivery(Executor(id), m))
  {
    var published := ExecutorInvoke(id, m).1;
    assert published != [] ==> published[1..] == [] && Yields(published[1..]) == [];
  }

  /** A delivery turns what the message would yield into what it did yield. */
  lemma DeliveryConserves(s: State, d: Delivery)
    ensures var t := Delivered(s, d);
      multiset(t.results) + multiset(Yields(t.inFlight))
          == multiset(s.results) + multiset(Yields(s.inFlight)) + multiset(Yield(d))
  {
    if d.to.Executor? {
      ExecutorYields(d.to.id, d.message);
      YieldsConcat(s.inFlight, ExecutorInvoke(d.to.id, d.message).1);
    }
  }

  lemma DeliverConserves(job: Job, s: State, i: nat)
    requires Conserved(job, s) && Enabled(s, Deliver(i))
    ensures Conserved(job, Apply(job, s, Deliver(i)))
  {
    YieldsWithout(s.inFlight, i);
    DeliveryConserves(s.(inFlight := Without(s.inFlight, i)), s.inFlight[i]);
  }

  lemma DeliverSetsDone(job: Job, s: State, i: nat)
    requires Enabled(s, Deliver(i)) && (s.done <==> |s.results| == s.expected)
    requires |Apply(job, s, Deliver(i)).results| <= s.expected
    ensures var t := Apply(job, s, Deliver(i));
      t.expected == s.expected && t.phase == s.phase && (t.done <==> |t.results| == t.expected)
  {
  }

  lemma DeliverKeepsInvariant(job: Job, s: State, i: nat)
    requires Invariant(job, s) && Enabled(s, Deliver(i))
    ensures Invariant(job, Apply(job, s, Deliver(i)))
  {
    DeliverConserves(job, s, i);
    CollectedAtMostAll(job, Apply(job, s, Deliver(i)));
    DeliverSetsDone(job, s, i);
  }

  /** No run collects a result that a full run does not, nor one of them twice. */
  lemma CollectedAtMostAll(job: Job, s: State)
    requires Conserved(job, s)
    ensures multiset(s.results) <= AllResults(job) && |s.results| <= ExpectedResultCount()
    ensures |s.results| == ExpectedResultCount() <==> multiset(s.results) == AllResults(job)
    ensures |s.results| == ExpectedResultCount() <==> Yields(s.inFlight) == [] && Pending(job, s.phase) == []
  {
    AllResultsCount(job);
    Balance(s.results, Yields(s.inFlight), Pending(job, s.phase), AllResults(job));
  }

  lemma Balance(results: seq<string>, flight: seq<string>, pending: seq<string>, all: multiset<string>)
    requires multiset(results) + multiset(flight) + multiset(pending) == all
    ensures multiset(results) <= all && |results| + |flight| + |pending| == |all|
    ensures |results| == |all| <==> multiset(results) == all
  {
    assert |multiset(results)| + |multiset(flight)| + |multiset(pending)| == |all|;
    assert |results| == |all| ==> flight == [] && pending == [];
  }

  lemma PublishConserves(job: Job, s: State, task: string, phase: Phase)
    requires Conserved(job, s) && Pending(job, s.phase) == FromTask(task) + Pending(job, phase)
    ensures Conserved(job, s.(phase := phase, inFlight := s.inFlight + Requests(EXECUTORS, task)))
  {
    YieldsConcat(s.inFlight, Requests(EXECUTORS, task));
  }

  lemma SendKeepsInvariant(job: Job, s: State)
    requires Invariant(job, s) && s.phase.Sending?
    ensures Invariant(job, Apply(job, s, SendToOrchestrator))
  {
    PublishConserves(job, s, job.task, Publishing);
  }

  lemma DirectConserves(job: Job, s: State)
    requires Conserved(job, s) && s.phase.Publishing? && job.isDictionary
    ensures Conserved(job, s.(phase := Waiting, inFlight := s.inFlight + Requests(EXECUTORS, job.directTask)))
  {
    var direct := FromTask(job.directTask);
    assert direct + [] == direct;
    PublishConserves(job, s, job.directTask, Waiting);
  }

  lemma FailKeepsInvariant(job: Job, s: State)
    requires Invariant(job, s) && s.phase.Publishing? && !job.isDictionary
    ensures Invariant(job, s.(phase := Failed))
  {
    assert Pending(job, Failed) == Pending(job, Publishing);
  }

  lemma ReportKeepsInvariant(job: Job, s: State, timedOut: bool)
    requires Invariant(job, s) && Enabled(s, Report(timedOut))
    ensures Invariant(job, Apply(job, s, Report(timedOut)))
  {
    assert Pending(job, Reported(s.results, timedOut)) == Pending(job, Waiting);
  }

  /** Every step keeps the invariant. */
  lemma StepKeepsInvariant(job: Job, s: State, step: Step)
    requires Invariant(job, s) && Enabled(s, step)
    ensures Invariant(job, Apply(job, s, step))
  {
    match step
    case SendToOrchestrator => SendKeepsInvariant(job, s);
    case DirectPublish =>
      if job.isDictionary {
        DirectConserves(job, s);
      } else {
        FailKeepsInvariant(job, s);
      }
    case Deliver(i) => DeliverKeepsInvariant(job, s, i);
    case Report(timedOut) => ReportKeepsInvariant(job, s, timedOut);
  }

  lemma StartsInvariant(job: Job, strays: seq<Delivery>)
    requires Yields(strays) == []
    ensures Invariant(job, Start(strays))
  {
  }

  lemma {:induction false} RunKeepsInvariant(job: Job, s: State, run: seq<Step>)
    requires Invariant(job, s) && Runs(job, s, run)
    ensures Invariant(job, Execute(job, s, run))
    decreases |run|
  {
    if run != [] {
      StepKeepsInvariant(job, s, run[0]);
      RunKeepsInvariant(job, Apply(job, s, run[0]), run[1..]);
    }
  }

  // ---------------------------------------------------------------- counting

  predicate IsExecution(d: Delivery) { d.to.Executor? && d.message.ExecutionRequest? }

  predicate IsCompletion(d: Delivery) { d.to.Aggregator? && d.message.TaskCompleted? }

  function Count(p: Delivery -> bool, ds: seq<Delivery>): nat
  {
    if ds == [] then 0 else (if p(ds[0]) then 1 else 0) + Count(p, ds[1..])
  }

  function PublishesLeft(phase: Phase): nat
  {
    match phase
    case Sending => 2
    case Publishing | Failed => 1
    case Waiting | Reported(_, _) => 0
  }

  lemma {:induction false} YieldsCount(ds: seq<Delivery>)
    ensures |Yields(ds)| == Count(IsExecution, ds) + Count(IsCompletion, ds)
  {
    if ds != [] {
      YieldsCount(ds[1..]);
    }
  }

  /** Collected results, completions and executions in flight and three for each publish still to come
      always add up to the expected count; the event is set exactly when all results are in. */
  lemma CountConserved(job: Job, strays: seq<Delivery>, run: seq<Step>)
    requires Yields(strays) == [] && Runs(job, Start(strays), run)
    ensures var s := Execute(job, Start(strays), run);
      |s.results| + Count(IsCompletion, s.inFlight) + Count(IsExecution, s.inFlight)
          + EXECUTOR_COUNT * PublishesLeft(s.phase)
        == s.expected
    ensures var s := Execute(job, Start(strays), run); s.done <==> multiset(s.results) == AllResults(job)
    ensures multiset(Execute(job, Start(strays), run).results) <= AllResults(job)
  {
    StartsInvariant(job, strays);
    RunKeepsInvariant(job, Start(strays), run);
    var s := Execute(job, Start(strays), run);
    CollectedAtMostAll(job, s);
    CountBalance(job, s);
  }

  lemma PendingCount(job: Job, phase: Phase)
    ensures |Pending(job, phase)| == EXECUTOR_COUNT * PublishesLeft(phase)
  {
    ThreeResults(job.task);
    ThreeResults(job.directTask);
  }

  lemma CountBalance(job: Job, s: State)
    requires Conserved(job, s)
    ensures |s.results| + Count(IsCompletion, s.inFlight) + Count(IsExecution, s.inFlight)
            + EXECUTOR_COUNT * PublishesLeft(s.phase) == ExpectedResultCount()
  {
    YieldsCount(s.inFlight);
    PendingCount(job, s.phase);
    AllResultsCount(job);
    Balance(s.results, Yields(s.inFlight), Pending(job, s.phase), AllResults(job));
  }

  // ---------------------------------------------------------------- every run ends

  function Work(d: Delivery): nat
  {
    if IsExecution(d) then 2 else 1
  }

  function InFlightWork(ds: seq<Delivery>): nat
  {
    if ds == [] then 0 else Work(ds[0]) + InFlightWork(ds[1..])
  }

  /** What is left to do: two steps for each execution, one for any other message, seven for each
      publish and one for the report. */
  function Remaining(s: State): nat
  {
    InFlightWork(s.inFlight) +
    match s.phase
    case Sending => 15
    case Publishing => 8
    case Waiting => 1
    case Reported(_, _) | Failed => 0
  }

  lemma {:induction false} WorkConcat(a: seq<Delivery>, b: seq<Delivery>)
    ensures InFlightWork(a + b) == InFlightWork(a) + InFlightWork(b)
  {
    if a == [] {
      assert a + b == b;
    } else {
      WorkConcat(a[1..], b);
      assert (a + b)[1..] == a[1..] + b && (a + b)[0] == a[0];
    }
  }

  lemma {:induction false} RequestsWork(ids: seq<nat>, task: string)
    ensures InFlightWork(Requests(ids, task)) == 2 * |ids|
  {
    if ids != [] {
      RequestsWork(ids[1..], task);
      assert Requests(ids, task)[1..] == Requests(ids[1..], task);
    }
  }

  lemma DeliveryWork(s: State, d: Delivery)
    ensures InFlightWork(Delivered(s, d).inFlight) < InFlightWork(s.inFlight) + Work(d)
  {
    match d.to
    case Executor(id) =>
      var published := ExecutorInvoke(id, d.message).1;
      WorkConcat(s.inFlight, published);
      assert published != [] ==> published[1..] == [];
    case Aggregator =>
  }

  lemma WorkWithout(ds: seq<Delivery>, i: nat)
    requires i < |ds|
    ensures InFlightWork(ds) == InFlightWork(Without(ds, i)) + Work(ds[i])
  {
    SplitAround(ds, i);
    WorkConcat(ds[..i], ds[i + 1..]);
    WorkConcat(ds[..i], ds[i..]);
  }

  lemma StepDecreases(job: Job, s: State, step: Step)
    requires Enabled(s, step)
    ensures Remaining(Apply(job, s, step)) < Remaining(s)
  {
    WorkConcat(s.inFlight, Requests(EXECUTORS, job.task));
    RequestsWork(EXECUTORS, job.task);
    WorkConcat(s.inFlight, Requests(EXECUTORS, job.directTask));
    RequestsWork(EXECUTORS, job.directTask);
    if step.Deliver? {
      WorkWithout(s.inFlight, step.i);
      DeliveryWork(s.(inFlight := Without(s.inFlight, step.i)), s.inFlight[step.i]);
    }
  }

  lemma {:induction false} StraysWork(strays: seq<Delivery>)
    requires Yields(strays) == []
    ensures InFlightWork(strays) == |strays|
  {
    if strays != [] {
      assert Yield(strays[0]) == [];
      StraysWork(strays[1..]);
    }
  }

  lemma {:induction false} RunDecreases(job: Job, s: State, run: seq<Step>)
    requires Runs(job, s, run)
    ensures |run| + Remaining(Execute(job, s, run)) <= Remaining(s)
    decreases |run|
  {
    if run != [] {
      StepDecreases(job, s, run[0]);
      RunDecreases(job, Apply(job, s, run[0]), run[1..]);
    }
  }

  /** No run takes more than 15 steps, and one for each message that was already on its way. */
  lemma RunsAreShort(job: Job, strays: seq<Delivery>, run: seq<Step>)
    requires Yields(strays) == [] && Runs(job, Start(strays), run)
    ensures |run| <= 15 + |strays|
  {
    RunDecreases(job, Start(strays), run);
    StraysWork(strays);
  }

  // ---------------------------------------------------------------- how runs end

  /** No step but a time-out is possible. */
  ghost predicate Stuck(s: State)
  {
    forall step :: Enabled(s, step) ==> step == Report(true)
  }

  lemma JobEnds(job: Job, strays: seq<Delivery>, run: seq<Step>)
    requires Yields(strays) == [] && Runs(job, Start(strays), run)
    ensures var s := Execute(job, Start(strays), run);
      && (Stuck(s) ==> if job.isDictionary then s.phase.Reported? else s.phase.Failed?)
      && (s.phase.Reported? ==> job.isDictionary && multiset(s.phase.results) <= AllResults(job))
      && (s.phase.Reported? && !s.phase.timedOut ==> multiset(s.phase.results) == AllResults(job))
      && (s.phase.Failed? ==> !job.isDictionary)
  {
    StartsInvariant(job, strays);
    RunKeepsInvariant(job, Start(strays), run);
    var s := Execute(job, Start(strays), run);
    CollectedAtMostAll(job, s);
    if Stuck(s) {
      StuckEnds(s);
    }
  }

  /** What each executor says about a task and about the same task published directly. */
  ghost function SixTexts(task: string): multiset<string>
  {
    multiset{"executor-1 done: " + task, "executor-2 done: " + task, "executor-3 done: " + task,
             "executor-1 done: " + (task + " [\U{76F4}\U{63A5}\U{53D1}\U{5E03}]"),
             "executor-2 done: " + (task + " [\U{76F4}\U{63A5}\U{53D1}\U{5E03}]"),
             "executor-3 done: " + (task + " [\U{76F4}\U{63A5}\U{53D1}\U{5E03}]")}
  }

  lemma ResultText(id: nat, digit: string, task: string)
    requires id < 10 && digit == [Digit(id)]
    ensures ResultOf(id, task) == ("executor-" + digit + " done: ") + task
  {
  }

  lemma ThreeTexts(task: string)
    ensures FromTask(task)
         == ["executor-1 done: " + task, "executor-2 done: " + task, "executor-3 done: " + task]
  {
    ResultText(1, "1", task);
    ResultText(2, "2", task);
    ResultText(3, "3", task);
    assert "executor-" + "1" + " done: " == "executor-1 done: ";
    assert "executor-" + "2" + " done: " == "executor-2 done: ";
    assert "executor-" + "3" + " done: " == "executor-3 done: ";
    YieldsOfThree(1, 2, 3, task);
  }

  lemma YieldsOfThree(i: nat, j: nat, k: nat, task: string)
    ensures Yields(Requests([i, j, k], task)) == [ResultOf(i, task), ResultOf(j, task), ResultOf(k, task)]
  {
    assert [i, j, k][1..] == [j, k] && [j, k][1..] == [k] && [k][1..] == [];
    RequestsFirst(k, [], task);
    RequestsFirst(j, [k], task);
    RequestsFirst(i, [j, k], task);
  }

  lemma RequestsFirst(i: nat, ids: seq<nat>, task: string)
    ensures Yields(Requests([i] + ids, task)) == [ResultOf(i, task)] + Yields(Requests(ids, task))
  {
    assert ([i] + ids)[1..] == ids;
    var r := Requests([i] + ids, task);
    assert r[0] == Delivery(Executor(i), ExecutionRequest(task)) && r[1..] == Requests(ids, task);
  }

  /** A dictionary's results: those of its task, or of an empty one when it has none. */
  lemma DictionaryResults(task: Option<string>)
    ensures AllResults(JobOf(Dictionary(task))) == SixTexts(if task.Some? then task.value else "")
  {
    var t := if task.Some? then task.value else "";
    ThreeTexts(t);
    ThreeTexts(t + DIRECT);
    assert "" + DIRECT == DIRECT;
    SixOf(FromTask(t), FromTask(t + DIRECT));
  }

  lemma SixOf(a: seq<string>, b: seq<string>)
    requires |a| == 3 && |b| == 3
    ensures multiset(a + b) == multiset{a[0], a[1], a[2], b[0], b[1], b[2]}
  {
    assert a + b == [a[0], a[1], a[2], b[0], b[1], b[2]];
  }

  function TaskOf(input: Input): string
  {
    if input.Dictionary? && input.task.Some? then input.task.value else ""
  }

  /** What the team is invoked with decides how a run can end. One that waits as long as it can reports
      exactly the six texts the executors have for its task when given a dictionary, and otherwise fails at
      the direct publish. A report after a time-out may be short, but never holds anything else. */
  lemma RunEnds(input: Input, strays: seq<Delivery>, run: seq<Step>)
    requires Yields(strays) == [] && Runs(JobOf(input), Start(strays), run)
    ensures var s := Execute(JobOf(input), Start(strays), run);
      && (Stuck(s) ==> if input.Dictionary? then s.phase.Reported? else s.phase.Failed?)
      && (s.phase.Reported? ==> input.Dictionary? && multiset(s.phase.results) <= SixTexts(TaskOf(input)))
      && (s.phase.Reported? && !s.phase.timedOut ==> multiset(s.phase.results) == SixTexts(TaskOf(input)))
      && (s.phase.Failed? ==> input.Plain?)
  {
    JobEnds(JobOf(input), strays, run);
    if input.Dictionary? {
      DictionaryResults(input.task);
    }
  }

  /** Anything but a dictionary fails at the first opportunity, with the orchestrator's three requests
      already on their way. */
  lemma PlainFails(text: string)
    ensures var job, run := JobOf(Plain(text)), [SendToOrchestrator, DirectPublish];
      Runs(job, Start([]), run)
      && Execute(job, Start([]), run) == State(Failed, Requests(EXECUTORS, text), [], 6, false)
  {
    var job := JobOf(Plain(text));
    var sent := State(Publishing, Requests(EXECUTORS, text), [], 6, false);
    assert [] + Requests(EXECUTORS, text) == Requests(EXECUTORS, text);
    assert Apply(job, Start([]), SendToOrchestrator) == sent;
    TwoSteps(job, Start([]), SendToOrchestrator, sent, DirectPublish);
  }

  lemma TwoSteps(job: Job, s: State, a: Step, t: State, b: Step)
    requires Enabled(s, a) && Apply(job, s, a) == t && Enabled(t, b)
    ensures Runs(job, s, [a, b]) && Execute(job, s, [a, b]) == Apply(job, t, b)
  {
    var u := Apply(job, t, b);
    assert [a, b][1..] == [b] && [b][1..] == [];
    assert Runs(job, u, []) && Execute(job, u, []) == u;
    assert Runs(job, t, [b]) && Execute(job, t, [b]) == u;
  }

  lemma StuckEnds(s: State)
    requires Stuck(s) && (s.phase.Waiting? && s.inFlight == [] ==> s.done)
    ensures s.phase.Reported? || s.phase.Failed?
  {
    assert !Enabled(s, SendToOrchestrator) && !Enabled(s, DirectPublish) && !Enabled(s, Report(false))
        && !Enabled(s, Deliver(0));
  }
}
