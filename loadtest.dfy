/**
 * The load-test page: each call counts the greetings (speech syntheses) in
 * its dialog, and the page keeps counters of outcomes while the calls run.
 */
module LoadTest {
  import opened Common

  // ---------------------------------------------------------------------------
  // One call

  /** An entry of a dialog's data; only its `type` matters here. */
  datatype DialogDatum = DialogDatum(kind: string)

  /** Number of dialog entries of type `Synthesis`. */
  function SynthesisEntries(data: seq<DialogDatum>): nat {
    if data == [] then 0
    else SynthesisEntries(data[..|data| - 1]) + (if data[|data| - 1].kind == "Synthesis" then 1 else 0)
  }

  /** The greeting count `performCall` returns: one per `Synthesis` entry. */
  method CountSynthesis(data: seq<DialogDatum>) returns (synthesisCount: nat)
    ensures synthesisCount == SynthesisEntries(data)
  {
    synthesisCount := 0;
    for i := 0 to |data|
      invariant synthesisCount == SynthesisEntries(data[..i])
    {
      assert data[..i + 1][..i] == data[..i];
      if data[i].kind == "Synthesis" {
        synthesisCount := synthesisCount + 1;
      }
    }
    assert data[..|data|] == data;
  }

  /**
   * The count is that of the `Synthesis` entries: at most the number of
   * entries, zero exactly when there is none, and additive over a dialog
   * split in two.
   */
  lemma {:induction false} SynthesisEntriesSpec(data: seq<DialogDatum>, more: seq<DialogDatum>)
    ensures SynthesisEntries(data) <= |data|
    ensures SynthesisEntries(data) == 0 <==> forall i | 0 <= i < |data| :: data[i].kind != "Synthesis"
    ensures SynthesisEntries(data + more) == SynthesisEntries(data) + SynthesisEntries(more)
    decreases |more|, |data|
  {
    if data != [] {
      var init := data[..|data| - 1];
      SynthesisEntriesSpec(init, []);
      assert forall i | 0 <= i < |init| :: init[i] == data[i];
    }
    if more == [] {
      assert data + more == data;
    } else {
      var moreInit := more[..|more| - 1];
      SynthesisEntriesSpec(data, moreInit);
      assert (data + more)[..|data + more| - 1] == data + moreInit;
    }
  }

  /**
   * The stages of `performCall` (src/loadtest-example.ts:30-51), in the
   * order its body runs them; each of them can throw.
   */
  datatype Stage =
    | FetchAuthDetails      // line 30: the authentication details are fetched
    | SetupSipClient        // line 31: the SIP client registers
    | CreateCall            // line 38: the call is placed
    | DelayBeforeDrop       // line 45: the wait before dropping
    | Drop                  // line 46: the call is dropped
    | AwaitCallCompletion   // line 48: the call's completion is awaited
    | DelayAfterDrop        // line 50: the wait after dropping
    | FetchDialogData       // line 51: the dialog data are fetched

  const CallStages := [FetchAuthDetails, SetupSipClient, CreateCall, DelayBeforeDrop, Drop,
                       AwaitCallCompletion, DelayAfterDrop, FetchDialogData]

  /**
   * The stages a call goes through when stage `failing` (an index into
   * `CallStages`) throws, or all of them when none does: a thrown error
   * ends the call at that stage.
   */
  function PerformCallStages(failing: Option<nat>): (stages: seq<Stage>)
    ensures stages <= CallStages
    ensures failing.Some? && failing.value < |CallStages| ==> |stages| == failing.value + 1
    ensures (failing.None? || failing.value >= |CallStages|) ==> stages == CallStages
  {
    if failing.Some? && failing.value < |CallStages| then CallStages[..failing.value + 1] else CallStages
  }

  /**
   * The call is dropped only after the pre-drop delay, the post-drop delay
   * only follows the call's completion, and the dialog data is fetched last,
   * once everything else has happened.
   */
  lemma PerformCallOrder(failing: Option<nat>)
    ensures var stages := PerformCallStages(failing);
            && (Drop in stages ==> DelayBeforeDrop in stages[..IndexOf(stages, Drop)])
            && (DelayAfterDrop in stages ==> AwaitCallCompletion in stages[..IndexOf(stages, DelayAfterDrop)])
            && (FetchDialogData in stages ==> stages == CallStages && stages[|stages| - 1] == FetchDialogData)
  {
    var stages := PerformCallStages(failing);
    assert forall i | 0 <= i < |stages| :: stages[i] == CallStages[i];
    if Drop in stages {
      assert stages[4] == Drop;
      assert IndexOf(stages, Drop) == 4;
      assert stages[..4][3] == DelayBeforeDrop;
    }
    if DelayAfterDrop in stages {
      assert stages[6] == DelayAfterDrop;
      assert IndexOf(stages, DelayAfterDrop) == 6;
      assert stages[..6][5] == AwaitCallCompletion;
    }
  }

  function IndexOf(stages: seq<Stage>, stage: Stage): (i: nat)
    requires stage in stages
    ensures i < |stages| && stages[i] == stage && stage !in stages[..i]
  {
    if stages[0] == stage then 0
    else
      var i := IndexOf(stages[1..], stage) + 1;
      assert stages[..i] == [stages[0]] + stages[1..][..i - 1];
      i
  }

  // ---------------------------------------------------------------------------
  // All calls

  /** What one call ended with: its greeting count, or a thrown error. */
  datatype CallResult = Greetings(count: nat) | Thrown

  datatype Bucket = NoGreeting | SingleGreeting | MultiGreeting | FailedCall

  /** The outcome counter a finished call increments. */
  function Classify(result: CallResult): (bucket: Bucket)
    ensures bucket == FailedCall <==> result.Thrown?
    ensures bucket == NoGreeting <==> result == Greetings(0)
    ensures bucket == SingleGreeting <==> result == Greetings(1)
    ensures bucket == MultiGreeting <==> result.Greetings? && result.count >= 2
  {
    match result
    case Thrown => FailedCall
    case Greetings(count) =>
      if count == 0 then NoGreeting else if count == 1 then SingleGreeting else MultiGreeting
  }

  datatype TaskPhase = Queued | Running | Done

  /** The numbers `updateProgress` is called with. */
  datatype ProgressReport = ProgressReport(
    noGreeting: nat, singleGreeting: nat, multiGreeting: nat, failed: nat,
    completed: nat, remaining: real, inProgress: nat)

  /** A JavaScript number with no fractional part. */
  predicate IsWhole(x: real) {
    x.Floor as real == x
  }

  /**
   * The number of tasks `for (let i = 0; i < numberOfCalls; i++)` submits:
   * the least natural number not below `numberOfCalls`. The page reads the
   * count from a number input without checking it, so it may be negative or
   * fractional.
   */
  function TaskCount(numberOfCalls: real): (n: nat)
    ensures n as real >= numberOfCalls
    ensures n == 0 || ((n - 1) as real) < numberOfCalls
    ensures (n as real == numberOfCalls) <==> numberOfCalls >= 0.0 && IsWhole(numberOfCalls)
  {
    if numberOfCalls <= 0.0 then 0
    else if IsWhole(numberOfCalls) then numberOfCalls.Floor
    else numberOfCalls.Floor + 1
  }

  /**
   * The counters of `performAllCalls`, the phase of each submitted task,
   * and every report passed to `updateProgress`.
   */
  datatype Progress = Progress(
    numberOfCalls: real,
    noGreeting: nat, singleGreeting: nat, multiGreeting: nat, failedCalls: nat,
    inProgress: nat, completed: nat,
    tasks: seq<TaskPhase>,
    reports: seq<ProgressReport>)

  /** `applyUpdate()`. */
  function Report(p: Progress): ProgressReport {
    ProgressReport(p.noGreeting, p.singleGreeting, p.multiGreeting, p.failedCalls,
                   p.completed, p.numberOfCalls - p.completed as real - p.inProgress as real, p.inProgress)
  }

  /** All tasks of the loop submitted, none started. */
  function ProgressInit(numberOfCalls: real): Progress {
    Progress(numberOfCalls, 0, 0, 0, 0, 0, 0, seq(TaskCount(numberOfCalls), _ => Queued), [])
  }

  datatype TaskEvent = Start(task: nat) | Finish(task: nat, result: CallResult)

  function CountBucket(p: Progress, bucket: Bucket): Progress {
    match bucket
    case NoGreeting => p.(noGreeting := p.noGreeting + 1)
    case SingleGreeting => p.(singleGreeting := p.singleGreeting + 1)
    case MultiGreeting => p.(multiGreeting := p.multiGreeting + 1)
    case FailedCall => p.(failedCalls := p.failedCalls + 1)
  }

  /** A task starts when the work queue runs it and finishes when its call settles. */
  function ProgressStep(p: Progress, e: TaskEvent): Progress {
    match e
    case Start(i) =>
      if i < |p.tasks| && p.tasks[i] == Queued then
        var q := p.(inProgress := p.inProgress + 1, tasks := p.tasks[i := Running]);
        q.(reports := q.reports + [Report(q)])
      else p
    case Finish(i, result) =>
      if i < |p.tasks| && p.tasks[i] == Running && p.inProgress > 0 then
        var q := CountBucket(p, Classify(result)).(
          inProgress := p.inProgress - 1, completed := p.completed + 1, tasks := p.tasks[i := Done]);
        q.(reports := q.reports + [Report(q)])
      else p
  }

  function ProgressRun(p: Progress, trace: seq<TaskEvent>): Progress
    decreases |trace|
  {
    if trace == [] then p else ProgressRun(ProgressStep(p, trace[0]), trace[1..])
  }

  /**
   * A report whose buckets add up to the completed calls and whose counts
   * add up to `numberOfCalls`. `remaining` is never negative for a whole
   * count; for a fractional one it can be, by less than one.
   */
  predicate ReportConsistent(r: ProgressReport, numberOfCalls: real) {
    && r.noGreeting + r.singleGreeting + r.multiGreeting + r.failed == r.completed
    && r.remaining + r.completed as real + r.inProgress as real == numberOfCalls
    && r.remaining > -1.0
    && (IsWhole(numberOfCalls) ==> r.remaining >= 0.0)
  }

  /**
   * The counters agree with the tasks: `inProgress` counts the running
   * tasks, `completed` the done ones and equals the sum of the outcome
   * counters, every report made so far was consistent, and the last one
   * shows the current counters.
   */
  predicate ProgressValid(p: Progress) {
    && |p.tasks| == TaskCount(p.numberOfCalls)
    && p.inProgress == Count(p.tasks, Running)
    && p.completed == Count(p.tasks, Done)
    && p.noGreeting + p.singleGreeting + p.multiGreeting + p.failedCalls == p.completed
    && (forall k | 0 <= k < |p.reports| :: ReportConsistent(p.reports[k], p.numberOfCalls))
    && (|p.reports| > 0 ==> p.reports[|p.reports| - 1] == Report(p))
  }

  lemma {:induction false} CountPhases(tasks: seq<TaskPhase>)
    ensures Count(tasks, Queued) + Count(tasks, Running) + Count(tasks, Done) == |tasks|
  {
    if tasks != [] {
      CountPhases(tasks[1..]);
      assert Count(tasks, Queued) == (if tasks[0] == Queued then 1 else 0) + Count(tasks[1..], Queued);
      assert Count(tasks, Running) == (if tasks[0] == Running then 1 else 0) + Count(tasks[1..], Running);
      assert Count(tasks, Done) == (if tasks[0] == Done then 1 else 0) + Count(tasks[1..], Done);
    }
  }

  lemma {:induction false} CountAllQueued(n: nat)
    ensures Count(seq(n, _ => Queued), Queued) == n
    ensures Count(seq(n, _ => Queued), Running) == 0 && Count(seq(n, _ => Queued), Done) == 0
  {
    if n > 0 {
      var tasks: seq<TaskPhase> := seq(n, _ => Queued);
      assert tasks[1..] == seq(n - 1, _ => Queued);
      CountAllQueued(n - 1);
    }
  }

  lemma ProgressInitValid(numberOfCalls: real)
    ensures ProgressValid(ProgressInit(numberOfCalls))
  {
    CountAllQueued(TaskCount(numberOfCalls));
  }

  lemma ProgressStepValid(p: Progress, e: TaskEvent)
    requires ProgressValid(p)
    ensures ProgressValid(ProgressStep(p, e))
  {
    var q := ProgressStep(p, e);
    match e
    case Start(i) =>
      if i < |p.tasks| && p.tasks[i] == Queued {
        CountUpdate(p.tasks, i, Running, Running);
        CountUpdate(p.tasks, i, Running, Done);
        CountPhases(q.tasks);
        assert q.reports[|q.reports| - 1] == Report(q.(reports := p.reports));
      }
    case Finish(i, result) =>
      if i < |p.tasks| && p.tasks[i] == Running && p.inProgress > 0 {
        CountUpdate(p.tasks, i, Done, Running);
        CountUpdate(p.tasks, i, Done, Done);
        CountPhases(q.tasks);
        assert q.reports[|q.reports| - 1] == Report(q.(reports := p.reports));
      }
  }

  /**
   * Whatever order the work queue runs the tasks in and whatever they end
   * with, the counters stay consistent and every report has the outcome
   * buckets summing to `completed`, `remaining` above -1, and `remaining`
   * non-negative when the count is whole.
   */
  lemma {:induction false} ProgressRunValid(p: Progress, trace: seq<TaskEvent>)
    requires ProgressValid(p)
    ensures ProgressValid(ProgressRun(p, trace))
    decreases |trace|
  {
    if trace != [] {
      ProgressStepValid(p, trace[0]);
      ProgressRunValid(ProgressStep(p, trace[0]), trace[1..]);
    }
  }

  /**
   * Once every task is done, the four outcome counters `performAllCalls`
   * returns add up to the number of tasks run. That is `numberOfCalls`
   * exactly when it is a whole, non-negative number; otherwise the last
   * report shows a negative `remaining`.
   */
  lemma AllDoneCountsEveryCall(p: Progress)
    requires ProgressValid(p)
    requires forall i | 0 <= i < |p.tasks| :: p.tasks[i] == Done
    ensures p.noGreeting + p.singleGreeting + p.multiGreeting + p.failedCalls == TaskCount(p.numberOfCalls)
    ensures (p.noGreeting + p.singleGreeting + p.multiGreeting + p.failedCalls) as real == p.numberOfCalls
            <==> p.numberOfCalls >= 0.0 && IsWhole(p.numberOfCalls)
    ensures p.inProgress == 0
    ensures |p.reports| > 0 ==>
              && p.reports[|p.reports| - 1].remaining == p.numberOfCalls - TaskCount(p.numberOfCalls) as real
              && (p.reports[|p.reports| - 1].remaining < 0.0 <==> !IsWhole(p.numberOfCalls))
  {
    CountAllDone(p.tasks);
  }

  lemma {:induction false} CountAllDone(tasks: seq<TaskPhase>)
    requires forall i | 0 <= i < |tasks| :: tasks[i] == Done
    ensures Count(tasks, Done) == |tasks| && Count(tasks, Running) == 0
  {
    if tasks != [] {
      CountAllDone(tasks[1..]);
    }
  }

  /** The counters of one `performAllCalls` run. */
  class LoadTestRun {
    const numberOfCalls: real
    var noGreeting: nat
    var singleGreeting: nat
    var multiGreeting: nat
    var failedCalls: nat
    var inProgress: nat
    var completed: nat
    var tasks: seq<TaskPhase>
    var reports: seq<ProgressReport>

    function State(): Progress
      reads this
    {
      Progress(numberOfCalls, noGreeting, singleGreeting, multiGreeting, failedCalls,
               inProgress, completed, tasks, reports)
    }

    /** Submits `numberOfCalls` tasks. */
    constructor (numberOfCalls: real)
      ensures State() == ProgressInit(numberOfCalls)
    {
      this.numberOfCalls := numberOfCalls;
      noGreeting, singleGreeting, multiGreeting, failedCalls := 0, 0, 0, 0;
      inProgress, completed := 0, 0;
      tasks := seq(TaskCount(numberOfCalls), _ => Queued);
      reports := [];
    }

    method ApplyUpdate()
      modifies this
      ensures State() == old(State()).(reports := old(reports) + [Report(old(State()))])
    {
      reports := reports + [ProgressReport(noGreeting, singleGreeting, multiGreeting, failedCalls,
                                           completed, numberOfCalls - completed as real - inProgress as real, inProgress)];
    }

    /** The start of task `i`. */
    method StartTask(i: nat)
      modifies this
      ensures State() == ProgressStep(old(State()), Start(i))
    {
      if i < |tasks| && tasks[i] == Queued {
        inProgress := inProgress + 1;
        tasks := tasks[i := Running];
        ApplyUpdate();
      }
    }

    /** The end of task `i`, whose call ended with `result`. */
    method FinishTask(i: nat, result: CallResult)
      modifies this
      ensures State() == ProgressStep(old(State()), Finish(i, result))
    {
      if i < |tasks| && tasks[i] == Running && inProgress > 0 {
        match Classify(result) {
          case NoGreeting => noGreeting := noGreeting + 1;
          case SingleGreeting => singleGreeting := singleGreeting + 1;
          case MultiGreeting => multiGreeting := multiGreeting + 1;
          case FailedCall => failedCalls := failedCalls + 1;
        }
        inProgress := inProgress - 1;
        completed := completed + 1;
        tasks := tasks[i := Done];
        ApplyUpdate();
      }
    }
  }
}
