/**
  The Workflow controller's Reconcile (internal/controller/core/workflow/workflow_controller.go and action.go).

  The controller is given twice. `Pc`, `Requested` and `Advance` are its protocol: which API call it makes in each
  control state, and where each response takes it. `Reconciler.Reconcile` is the code, with its nested loops and
  early returns; it is proved to make exactly the calls of the protocol, whatever the API server answers.
  Module WorkflowRuns puts any number of protocol instances on a shared store.
 */
module WorkflowReconcile {
  import opened Wrappers
  import opened Conditions

  datatype RunConditionType = RunningAction | FinishedAction | Finished
  datatype RunReason = RunningActionReason | FinishedSuccessfully | FinishedFailed
  type RunCondition = Condition<RunConditionType, RunReason>
  type RunConditions = seq<RunCondition>

  datatype Action = Action(name: string, kind: string, values: string)

  datatype JobCondition = Complete | Failed | OtherJobCondition
  /** A child Job: the value of its action-name label ("" when absent), its active pods and its condition types. */
  datatype Job = Job(action: string, active: int, conditions: seq<JobCondition>)

  function Running(message: string): RunCondition {
    Condition(RunningAction, True, RunningActionReason, message)
  }

  function Succeeded(): RunCondition {
    Condition(Finished, True, FinishedSuccessfully, "Finished")
  }

  function FailedWith(message: string): RunCondition {
    Condition(Finished, False, FinishedFailed, message)
  }

  // ---------------------------------------------------------------------------------------------------------------
  // The job scan (workflow_controller.go:68-91)
  // ---------------------------------------------------------------------------------------------------------------

  /** What one job condition makes the scan write, if anything (lines 81-88). */
  function Decision(c: JobCondition, isLast: bool): Option<RunCondition> {
    if c.Complete? && isLast then Some(Succeeded())
    else if c.Failed? then Some(FailedWith("Failed"))
    else None
  }

  /** The writes of the inner loop over one job's conditions. */
  function JobWrites(conditions: seq<JobCondition>, isLast: bool): seq<RunCondition> {
    if conditions == [] then []
    else
      var d := Decision(conditions[0], isLast);
      (if d.Some? then [d.value] else []) + JobWrites(conditions[1..], isLast)
  }

  /** The conditions the scan writes one after the other, and whether it returns from Reconcile afterwards. */
  datatype Plan = Plan(writes: seq<RunCondition>, stops: bool)

  function Scan(jobs: seq<Job>, last: string): Plan {
    if jobs == [] then Plan([], false)
    else if jobs[0].active > 0 then Plan([Running("Running action " + jobs[0].action)], true)
    else
      var rest := Scan(jobs[1..], last);
      Plan(JobWrites(jobs[0].conditions, jobs[0].action == last) + rest.writes, rest.stops)
  }

  /** The condition list left by a sequence of writes: each of them replaces the whole list (line 111). */
  function Left(before: RunConditions, writes: seq<RunCondition>): RunConditions {
    if writes == [] then before else [writes[|writes| - 1]]
  }

  lemma LeftConcat(before: RunConditions, a: seq<RunCondition>, b: seq<RunCondition>)
    ensures Left(before, a + b) == Left(Left(before, a), b)
  {
    if b == [] { assert a + b == a; }
  }

  // --- The verdict, stated on positions of the job list ---

  ghost predicate ActiveAt(jobs: seq<Job>, i: nat) {
    i < |jobs| && jobs[i].active > 0
  }

  /** Condition `j` of job `i` decides: the last action is complete, or a job failed. */
  ghost predicate DecidingAt(jobs: seq<Job>, last: string, i: nat, j: nat) {
    i < |jobs| && j < |jobs[i].conditions| && Decision(jobs[i].conditions[j], jobs[i].action == last).Some?
  }

  ghost predicate LastDecidingAt(jobs: seq<Job>, last: string, i: nat, j: nat) {
    && DecidingAt(jobs, last, i, j)
    && (forall k: nat, l: nat :: DecidingAt(jobs, last, k, l) ==> k < i || (k == i && l <= j))
  }

  lemma {:induction false} JobWritesEmpty(conditions: seq<JobCondition>, isLast: bool)
    ensures JobWrites(conditions, isLast) == [] <==>
            forall j :: 0 <= j < |conditions| ==> Decision(conditions[j], isLast).None?
  {
    if conditions == [] {
    } else {
      JobWritesEmpty(conditions[1..], isLast);
      assert forall j :: 0 < j < |conditions| ==> conditions[j] == conditions[1..][j - 1];
    }
  }

  lemma {:induction false} JobWritesLast(conditions: seq<JobCondition>, isLast: bool, j: nat)
    requires j < |conditions| && Decision(conditions[j], isLast).Some?
    requires forall k :: j < k < |conditions| ==> Decision(conditions[k], isLast).None?
    ensures Left([], JobWrites(conditions, isLast)) == [Decision(conditions[j], isLast).value]
  {
    var rest := JobWrites(conditions[1..], isLast);
    if j > 0 {
      JobWritesLast(conditions[1..], isLast, j - 1);
    } else {
      JobWritesEmpty(conditions[1..], isLast);
      assert rest == [];
    }
  }

  /** An active job wins: the list ends as RunningAction/True naming the first active job. */
  lemma {:induction false} VerdictActive(jobs: seq<Job>, last: string, i: nat, before: RunConditions)
    requires ActiveAt(jobs, i) && forall k: nat :: k < i ==> !ActiveAt(jobs, k)
    ensures Scan(jobs, last).stops
    ensures Left(before, Scan(jobs, last).writes) == [Running("Running action " + jobs[i].action)]
  {
    if i == 0 {
    } else {
      assert !ActiveAt(jobs, 0);
      assert forall k: nat :: ActiveAt(jobs[1..], k) <==> ActiveAt(jobs, k + 1);
      var writes := JobWrites(jobs[0].conditions, jobs[0].action == last);
      VerdictActive(jobs[1..], last, i - 1, Left(before, writes));
      LeftConcat(before, writes, Scan(jobs[1..], last).writes);
    }
  }

  lemma {:induction false} VerdictUndecided(jobs: seq<Job>, last: string)
    requires forall i: nat :: !ActiveAt(jobs, i)
    requires forall i: nat, j: nat :: !DecidingAt(jobs, last, i, j)
    ensures Scan(jobs, last) == Plan([], false)
  {
    if jobs == [] {
    } else {
      assert !ActiveAt(jobs, 0);
      forall k: nat ensures !ActiveAt(jobs[1..], k) { assert !ActiveAt(jobs, k + 1); }
      forall k: nat, l: nat ensures !DecidingAt(jobs[1..], last, k, l) { assert !DecidingAt(jobs, last, k + 1, l); }
      forall l | 0 <= l < |jobs[0].conditions|
        ensures Decision(jobs[0].conditions[l], jobs[0].action == last).None?
      {
        assert !DecidingAt(jobs, last, 0, l);
      }
      JobWritesEmpty(jobs[0].conditions, jobs[0].action == last);
      VerdictUndecided(jobs[1..], last);
      assert Scan(jobs, last).writes == [];
    }
  }

  /** The last deciding pair of the list, seen from the list without its first job. */
  lemma LastDecidingTail(jobs: seq<Job>, last: string, i: nat, j: nat)
    requires LastDecidingAt(jobs, last, i, j)
    ensures i > 0 ==> LastDecidingAt(jobs[1..], last, i - 1, j)
    ensures i == 0 ==> forall k: nat, l: nat :: !DecidingAt(jobs[1..], last, k, l)
  {
    forall k: nat, l: nat | DecidingAt(jobs[1..], last, k, l)
      ensures k + 1 < i || (k + 1 == i && l <= j)
    {
      assert DecidingAt(jobs, last, k + 1, l);
    }
  }

  lemma {:induction false} VerdictDecided(jobs: seq<Job>, last: string, i: nat, j: nat, before: RunConditions)
    requires forall k: nat :: !ActiveAt(jobs, k)
    requires LastDecidingAt(jobs, last, i, j)
    ensures Left(before, Scan(jobs, last).writes)
         == [Decision(jobs[i].conditions[j], jobs[i].action == last).value]
  {
    assert !ActiveAt(jobs, 0);
    forall k: nat ensures !ActiveAt(jobs[1..], k) { assert !ActiveAt(jobs, k + 1); }
    var writes := JobWrites(jobs[0].conditions, jobs[0].action == last);
    LeftConcat(before, writes, Scan(jobs[1..], last).writes);
    LastDecidingTail(jobs, last, i, j);
    if i > 0 {
      VerdictDecided(jobs[1..], last, i - 1, j, Left(before, writes));
    } else {
      forall l | j < l < |jobs[0].conditions|
        ensures Decision(jobs[0].conditions[l], jobs[0].action == last).None?
      {
        assert !DecidingAt(jobs, last, 0, l);
      }
      VerdictUndecided(jobs[1..], last);
      JobWritesLast(jobs[0].conditions, jobs[0].action == last, j);
    }
  }

  lemma {:induction false} NeverStops(jobs: seq<Job>, last: string)
    requires forall i: nat :: !ActiveAt(jobs, i)
    ensures !Scan(jobs, last).stops
  {
    if jobs == [] {
    } else {
      assert !ActiveAt(jobs, 0);
      assert forall k: nat :: ActiveAt(jobs[1..], k) ==> ActiveAt(jobs, k + 1);
      NeverStops(jobs[1..], last);
    }
  }

  /** Among the conditions of one job before position `bound`, the last deciding one. */
  lemma {:induction false} LastDecisionOf(conditions: seq<JobCondition>, isLast: bool, bound: nat) returns (j: nat)
    requires bound <= |conditions| && exists k :: 0 <= k < bound && Decision(conditions[k], isLast).Some?
    ensures j < bound && Decision(conditions[j], isLast).Some?
    ensures forall k :: j < k < bound ==> Decision(conditions[k], isLast).None?
  {
    if Decision(conditions[bound - 1], isLast).Some? {
      j := bound - 1;
    } else {
      j := LastDecisionOf(conditions, isLast, bound - 1);
    }
  }

  lemma {:induction false} LastDecidingExists(jobs: seq<Job>, last: string, i0: nat, j0: nat) returns (i: nat, j: nat)
    requires DecidingAt(jobs, last, i0, j0)
    ensures LastDecidingAt(jobs, last, i, j)
  {
    if k: nat, l: nat :| DecidingAt(jobs[1..], last, k, l) {
      i, j := LastDecidingExists(jobs[1..], last, k, l);
      i := i + 1;
      forall k: nat, l: nat | DecidingAt(jobs, last, k, l) ensures k < i || (k == i && l <= j) {
        if k > 0 { assert DecidingAt(jobs[1..], last, k - 1, l); }
      }
    } else {
      if i0 > 0 { assert DecidingAt(jobs[1..], last, i0 - 1, j0); }
      j := LastDecisionOf(jobs[0].conditions, jobs[0].action == last, |jobs[0].conditions|);
      i := 0;
      forall k: nat, l: nat | DecidingAt(jobs, last, k, l) ensures k == 0 && l <= j {
        if k > 0 { assert DecidingAt(jobs[1..], last, k - 1, l); }
      }
    }
  }

  ghost predicate FirstActiveAt(jobs: seq<Job>, i: nat) {
    ActiveAt(jobs, i) && forall k: nat :: k < i ==> !ActiveAt(jobs, k)
  }

  /**
    The verdict on a job list: an active job gives RunningAction/True whatever was decided before it; otherwise the
    last deciding pair in list order fixes Finished; otherwise the conditions stay as they were.
   */
  ghost function Verdict(jobs: seq<Job>, last: string, before: RunConditions): RunConditions {
    if exists i: nat :: FirstActiveAt(jobs, i) then
      var i: nat :| FirstActiveAt(jobs, i);
      [Running("Running action " + jobs[i].action)]
    else if exists i: nat, j: nat :: LastDecidingAt(jobs, last, i, j) then
      var i: nat, j: nat :| LastDecidingAt(jobs, last, i, j);
      [Decision(jobs[i].conditions[j], jobs[i].action == last).value]
    else
      before
  }

  lemma {:induction false} FirstActiveExists(jobs: seq<Job>, bound: nat)
    requires exists i: nat :: i < bound && ActiveAt(jobs, i)
    ensures exists i: nat :: FirstActiveAt(jobs, i)
  {
    if i: nat :| i < bound - 1 && ActiveAt(jobs, i) {
      FirstActiveExists(jobs, bound - 1);
    } else {
      assert FirstActiveAt(jobs, bound - 1);
    }
  }

  /** The scan's writes leave exactly the verdict, and the scan returns early exactly when a job is active. */
  lemma {:induction false} ExactVerdict(jobs: seq<Job>, last: string, before: RunConditions)
    ensures Left(before, Scan(jobs, last).writes) == Verdict(jobs, last, before)
    ensures Scan(jobs, last).stops <==> exists i :: 0 <= i < |jobs| && jobs[i].active > 0
  {
    if exists i: nat :: FirstActiveAt(jobs, i) {
      var i: nat :| FirstActiveAt(jobs, i)
        && Verdict(jobs, last, before) == [Running("Running action " + jobs[i].action)];
      VerdictActive(jobs, last, i, before);
    } else {
      forall i: nat ensures !ActiveAt(jobs, i) {
        if ActiveAt(jobs, i) { FirstActiveExists(jobs, i + 1); }
      }
      NeverStops(jobs, last);
      forall i | 0 <= i < |jobs| ensures jobs[i].active <= 0 { assert !ActiveAt(jobs, i); }
      if exists i: nat, j: nat :: LastDecidingAt(jobs, last, i, j) {
        var i: nat, j: nat :| LastDecidingAt(jobs, last, i, j)
          && Verdict(jobs, last, before) == [Decision(jobs[i].conditions[j], jobs[i].action == last).value];
        VerdictDecided(jobs, last, i, j, before);
      } else {
        forall i: nat, j: nat ensures !DecidingAt(jobs, last, i, j) {
          if DecidingAt(jobs, last, i, j) {
            var k, l := LastDecidingExists(jobs, last, i, j);
          }
        }
        VerdictUndecided(jobs, last);
      }
    }
  }

  /** No job is active, and none decides. */
  ghost predicate QuietJobs(jobs: seq<Job>, last: string) {
    (forall i: nat :: !ActiveAt(jobs, i)) && forall i: nat, j: nat :: !DecidingAt(jobs, last, i, j)
  }

  /** A scan writes something unless no job is active and none decides. */
  lemma ScanEmptyIff(jobs: seq<Job>, last: string)
    ensures Scan(jobs, last).writes == [] <==> QuietJobs(jobs, last)
  {
    if i: nat :| ActiveAt(jobs, i) {
      FirstActiveExists(jobs, i + 1);
      var first: nat :| FirstActiveAt(jobs, first);
      VerdictActive(jobs, last, first, []);
    } else if i: nat, j: nat :| DecidingAt(jobs, last, i, j) {
      var a, b := LastDecidingExists(jobs, last, i, j);
      VerdictDecided(jobs, last, a, b, []);
    } else {
      VerdictUndecided(jobs, last);
    }
  }

  ghost predicate FailedAt(jobs: seq<Job>, i: nat, j: nat) {
    i < |jobs| && j < |jobs[i].conditions| && jobs[i].conditions[j].Failed?
  }

  ghost predicate LastFailedAt(jobs: seq<Job>, i: nat, j: nat) {
    FailedAt(jobs, i, j) && forall k: nat, l: nat :: FailedAt(jobs, k, l) ==> k < i || (k == i && l <= j)
  }

  /** A job of the last action completed, in list order after condition `j` of job `i`. */
  ghost predicate CompletedAfter(jobs: seq<Job>, last: string, i: nat, j: nat) {
    exists k: nat, l: nat ::
      DecidingAt(jobs, last, k, l) && jobs[k].conditions[l].Complete? && (i < k || (i == k && j < l))
  }

  /**
    A failed job is not always reported. It is, exactly when no job is active and no completed job of the last action
    comes after the last failure in the list.
   */
  lemma FailureReportedIff(jobs: seq<Job>, last: string, before: RunConditions, i: nat, j: nat)
    requires LastFailedAt(jobs, i, j)
    ensures Left(before, Scan(jobs, last).writes) == [FailedWith("Failed")] <==>
            (forall k: nat :: !ActiveAt(jobs, k)) && !CompletedAfter(jobs, last, i, j)
  {
    if k: nat :| ActiveAt(jobs, k) {
      FirstActiveExists(jobs, k + 1);
      var first: nat :| FirstActiveAt(jobs, first);
      VerdictActive(jobs, last, first, before);
    } else {
      assert DecidingAt(jobs, last, i, j);
      var a, b := LastDecidingExists(jobs, last, i, j);
      VerdictDecided(jobs, last, a, b, before);
      if jobs[a].conditions[b].Failed? {
        assert FailedAt(jobs, a, b);
      } else {
        assert CompletedAfter(jobs, last, i, j);
      }
    }
  }

  /** Inputs for which a failure is overwritten: by a later completed last action, and by a later active job. */
  lemma FailureCanBeHidden(failed: string, last: string)
    ensures Scan([Job(failed, 0, [Failed]), Job(last, 0, [Complete])], last).writes
         == [FailedWith("Failed"), Succeeded()]
    ensures Scan([Job(failed, 0, [Failed]), Job(last, 1, [])], last).writes
         == [FailedWith("Failed"), Running("Running action " + last)]
  {
    var failure, success, active := Job(failed, 0, [Failed]), Job(last, 0, [Complete]), Job(last, 1, []);
    assert [failure, success][1..] == [success] && [failure, active][1..] == [active] && [success][1..] == [];
    assert [Failed][1..] == [] && [Complete][1..] == [];
    assert JobWrites([Complete], true) == [Succeeded()];
    assert Scan([success], last).writes == [Succeeded()];
  }

  // ---------------------------------------------------------------------------------------------------------------
  // The protocol
  // ---------------------------------------------------------------------------------------------------------------

  /** The controller's copy of a WorkflowRun: the resource version it carries and its condition list. */
  datatype Snapshot = Snapshot(version: nat, conditions: RunConditions)

  datatype Request =
    | GetRun
    | GetApplication
    | GetWorkflow
    | ListJobs
    | UpdateStatus(version: nat, conditions: RunConditions)
    | RunAction(action: Action)

  datatype Response =
    | RunFound(run: Snapshot)
    | ApplicationFound
    | WorkflowFound(actions: seq<Action>)
    | JobsFound(jobs: seq<Job>)
    | Updated(version: nat)
    | ActionStarted
    | NotFound
    | Failure

  datatype Outcome = Success | Error | Panic

  datatype Pc =
    | ReadRun
    | ReadApplication(run: Snapshot)
    | ReadWorkflow(run: Snapshot)
    | ReadJobs(run: Snapshot, actions: seq<Action>)
    | Scanning(run: Snapshot, actions: seq<Action>, plan: Plan)
    | Claiming(run: Snapshot, actions: seq<Action>)
    | Launching(run: Snapshot, actions: seq<Action>, next: nat)
    | RecordingFailure(run: Snapshot)
    | Done(outcome: Outcome)

  predicate IsFinished(cs: RunConditions) { HasType(cs, Finished) }
  predicate IsRunning(cs: RunConditions) { HasType(cs, RunningAction) }

  /** Control states that can occur: the loops are inside their bounds. */
  predicate WellFormed(pc: Pc) {
    match pc
    case ReadJobs(_, actions) => actions != []
    case Scanning(_, actions, plan) => actions != [] && plan.writes != []
    case Claiming(_, actions) => actions != []
    case Launching(_, actions, next) => next < |actions|
    case _ => true
  }

  function Requested(pc: Pc): Request
    requires WellFormed(pc) && !pc.Done?
  {
    match pc
    case ReadRun => GetRun
    case ReadApplication(_) => GetApplication
    case ReadWorkflow(_) => GetWorkflow
    case ReadJobs(_, _) => ListJobs
    case Scanning(run, _, plan) => UpdateStatus(run.version, [plan.writes[0]])
    case Claiming(run, _) => UpdateStatus(run.version, [Running("Running actions")])
    case Launching(_, actions, next) => RunAction(actions[next])
    case RecordingFailure(run) => UpdateStatus(run.version, [FailedWith("Failed to run actions")])
  }

  /** Lines 93-94: after the scan, launch only if the run is neither finished nor running. */
  function Decide(run: Snapshot, actions: seq<Action>): Pc {
    if !IsFinished(run.conditions) && !IsRunning(run.conditions) then Claiming(run, actions) else Done(Success)
  }

  /** Where the scan stands when `plan` is what remains to be written. */
  function Resume(run: Snapshot, actions: seq<Action>, plan: Plan): Pc {
    if plan.writes != [] then Scanning(run, actions, plan)
    else if plan.stops then Done(Success)
    else Decide(run, actions)
  }

  function LastAction(actions: seq<Action>): string
    requires actions != []
  {
    actions[|actions| - 1].name
  }

  function Advance(pc: Pc, r: Response): (next: Pc)
    requires WellFormed(pc) && !pc.Done?
    ensures WellFormed(next)
  {
    match pc
    case ReadRun =>
      (match r case RunFound(run) => ReadApplication(run) case NotFound => Done(Success) case _ => Done(Error))
    case ReadApplication(run) =>
      (match r case ApplicationFound => ReadWorkflow(run) case NotFound => Done(Success) case _ => Done(Error))
    case ReadWorkflow(run) =>
      (match r
       case WorkflowFound(actions) =>
         if IsFinished(run.conditions) then Done(Success)
         else if actions == [] then Done(Panic)
         else ReadJobs(run, actions)
       case NotFound => Done(Success)
       case _ => Done(Error))
    case ReadJobs(run, actions) =>
      (match r
       case JobsFound(jobs) => Resume(run, actions, Scan(jobs, LastAction(actions)))
       case _ => Done(Error))
    case Scanning(run, actions, plan) =>
      (match r
       case Updated(v) => Resume(Snapshot(v, [plan.writes[0]]), actions, plan.(writes := plan.writes[1..]))
       case _ => Done(Error))
    case Claiming(run, actions) =>
      (match r
       case Updated(v) => Launching(Snapshot(v, [Running("Running actions")]), actions, 0)
       case _ => Done(Error))
    case Launching(run, actions, next) =>
      (match r
       case ActionStarted => if next + 1 < |actions| then Launching(run, actions, next + 1) else Done(Success)
       case _ => RecordingFailure(run))
    case RecordingFailure(run) =>
      // Line 101 assigns the result of the status write to err, so a recorded failure is returned as success.
      (match r case Updated(_) => Done(Success) case _ => Done(Error))
  }

  /**
    Exactly when a Reconcile that gets as far as listing the jobs does nothing with them: the run is marked as running,
    no job is active and none decides.
   */
  lemma ReconcileStallsIff(run: Snapshot, actions: seq<Action>, jobs: seq<Job>)
    requires actions != [] && !IsFinished(run.conditions)
    ensures Advance(ReadJobs(run, actions), JobsFound(jobs)).Done? <==>
            IsRunning(run.conditions) && QuietJobs(jobs, LastAction(actions))
  {
    ScanEmptyIff(jobs, LastAction(actions));
    if QuietJobs(jobs, LastAction(actions)) {
      VerdictUndecided(jobs, LastAction(actions));
    }
  }

  // ---------------------------------------------------------------------------------------------------------------
  // The code follows the protocol
  // ---------------------------------------------------------------------------------------------------------------

  datatype Exchange = Exchange(request: Request, response: Response)

  /** One exchange of the protocol: the request is the one due, and the response moves the reconciler on. */
  ghost predicate Takes(pc: Pc, x: Exchange, next: Pc) {
    WellFormed(pc) && !pc.Done? && Requested(pc) == x.request && next == Advance(pc, x.response)
  }

  /** The log is a run of the protocol, from its start, through the control states of `trace`. */
  ghost predicate Follows(log: seq<Exchange>, trace: seq<Pc>) {
    && |trace| == |log| + 1 && trace[0] == ReadRun
    && forall i {:trigger log[i]} :: 0 <= i < |log| ==> Takes(trace[i], log[i], trace[i + 1])
  }

  /** The API as seen by one Reconcile. Its script of responses is arbitrary: caches may lag, writes may conflict. */
  class Api {
    const script: seq<Response>
    var log: seq<Exchange>
    ghost var trace: seq<Pc>

    constructor (script: seq<Response>)
      ensures this.script == script && log == [] && At(ReadRun)
    {
      this.script := script;
      log := [];
      trace := [ReadRun];
    }

    /** The calls made so far are the protocol's, and lead to `pc`. */
    ghost predicate At(pc: Pc)
      reads this
    {
      Follows(log, trace) && trace[|log|] == pc
    }

    method Call(request: Request, ghost pc: Pc) returns (response: Response)
      requires At(pc) && WellFormed(pc) && !pc.Done? && Requested(pc) == request
      modifies this
      ensures log == old(log) + [Exchange(request, response)] && trace == old(trace) + [Advance(pc, response)]
      ensures response == if |old(log)| < |script| then script[|old(log)|] else Failure
      ensures At(Advance(pc, response))
    {
      response := if |log| < |script| then script[|log|] else Failure;
      log := log + [Exchange(request, response)];
      trace := trace + [Advance(pc, response)];
    }
  }

  lemma JobWritesUnfold(conditions: seq<JobCondition>, j: nat, isLast: bool, rest: seq<RunCondition>)
    requires j < |conditions|
    ensures var d := Decision(conditions[j], isLast);
            JobWrites(conditions[j..], isLast) + rest
            == (if d.Some? then [d.value] else []) + (JobWrites(conditions[j + 1..], isLast) + rest)
    ensures Decision(conditions[j], isLast).None? ==>
            JobWrites(conditions[j..], isLast) + rest == JobWrites(conditions[j + 1..], isLast) + rest
  {
    assert conditions[j..][1..] == conditions[j + 1..];
  }

  class Reconciler {
    const api: Api

    constructor (api: Api)
      ensures this.api == api
    {
      this.api := api;
    }

    /** setCondition, lines 110-118: the new list starts empty, so the write replaces every condition. */
    method SetCondition(run: Snapshot, c: RunCondition, ghost pc: Pc) returns (r: Response, after: Snapshot)
      requires api.At(pc) && WellFormed(pc) && !pc.Done? && Requested(pc) == UpdateStatus(run.version, [c])
      modifies api
      ensures api.At(Advance(pc, r))
      ensures r.Updated? ==> after == Snapshot(r.version, [c])
    {
      var conditions := Conditions.SetCondition([], c.ctype, c.status, c.reason, c.message);
      r := api.Call(UpdateStatus(run.version, conditions), pc);
      after := if r.Updated? then Snapshot(r.version, conditions) else run;
    }

    /** RunActions, action.go:48-56: start the actions in order, stopping at the first error. */
    method RunActions(run: Snapshot, actions: seq<Action>) returns (ok: bool)
      requires actions != [] && api.At(Launching(run, actions, 0))
      modifies api
      ensures api.At(if ok then Done(Success) else RecordingFailure(run))
    {
      var i := 0;
      while i < |actions|
        invariant 0 <= i <= |actions|
        invariant api.At(if i < |actions| then Launching(run, actions, i) else Done(Success))
      {
        var r := api.Call(RunAction(actions[i]), Launching(run, actions, i));
        if !r.ActionStarted? {
          return false;
        }
        i := i + 1;
      }
      return true;
    }

    /** One write of the scan; `todo` is what it will write afterwards. */
    method StoreDecided(run: Snapshot, actions: seq<Action>, c: RunCondition, ghost todo: Plan)
      returns (ok: bool, after: Snapshot)
      requires actions != [] && api.At(Resume(run, actions, todo.(writes := [c] + todo.writes)))
      modifies api
      ensures api.At(if ok then Resume(after, actions, todo) else Done(Error))
    {
      assert ([c] + todo.writes)[1..] == todo.writes;
      var r;
      r, after := SetCondition(run, c, Scanning(run, actions, todo.(writes := [c] + todo.writes)));
      ok := r.Updated?;
    }

    /** The inner loop of lines 79-90 over the conditions of one job; `rest` is what the later jobs will write. */
    method ScanConditions(run: Snapshot, actions: seq<Action>, job: Job, ghost rest: Plan)
      returns (ok: bool, after: Snapshot)
      requires actions != []
      requires api.At(Resume(run, actions,
                 Plan(JobWrites(job.conditions, job.action == LastAction(actions)) + rest.writes, rest.stops)))
      modifies api
      ensures api.At(if ok then Resume(after, actions, rest) else Done(Error))
    {
      var isLast := job.action == LastAction(actions);
      ok, after := true, run;
      var j := 0;
      assert job.conditions[0..] == job.conditions;
      while j < |job.conditions|
        invariant 0 <= j <= |job.conditions|
        invariant api.At(Resume(after, actions,
                    Plan(JobWrites(job.conditions[j..], isLast) + rest.writes, rest.stops)))
      {
        ghost var todo := Plan(JobWrites(job.conditions[j + 1..], isLast) + rest.writes, rest.stops);
        JobWritesUnfold(job.conditions, j, isLast, rest.writes);
        if job.conditions[j].Complete? && isLast {
          ok, after := StoreDecided(after, actions, Succeeded(), todo);
          if !ok { return; }
        } else if job.conditions[j].Failed? {
          ok, after := StoreDecided(after, actions, FailedWith("Failed"), todo);
          if !ok { return; }
        }
        j := j + 1;
      }
      assert JobWrites(job.conditions[j..], isLast) + rest.writes == rest.writes;
      return true, after;
    }

    /**
      The nested loop of lines 68-91. `stopped` says that Reconcile returned from inside the loop, with `outcome`;
      otherwise `after` is the local WorkflowRun at line 94.
     */
    method ScanJobs(run: Snapshot, actions: seq<Action>, jobs: seq<Job>)
      returns (stopped: bool, outcome: Outcome, after: Snapshot)
      requires actions != []
      requires api.At(Resume(run, actions, Scan(jobs, LastAction(actions))))
      modifies api
      ensures stopped ==> api.At(Done(outcome))
      ensures !stopped ==> api.At(Decide(after, actions))
    {
      after := run;
      var i := 0;
      assert jobs[0..] == jobs;
      while i < |jobs|
        invariant 0 <= i <= |jobs|
        invariant api.At(Resume(after, actions, Scan(jobs[i..], LastAction(actions))))
      {
        assert jobs[i..][1..] == jobs[i + 1..];
        if jobs[i].active > 0 {
          var c := Running("Running action " + jobs[i].action);
          var r;
          r, after := SetCondition(after, c, Scanning(after, actions, Plan([c], true)));
          return true, if r.Updated? then Success else Error, after;
        }
        var ok;
        ok, after := ScanConditions(after, actions, jobs[i], Scan(jobs[i + 1..], LastAction(actions)));
        if !ok {
          return true, Error, after;
        }
        i := i + 1;
      }
      return false, Success, after;
    }

    /** Lines 30-66: read the run, its Application and its Workflow, check that it is not finished, list its jobs. */
    method ReadAll() returns (over: bool, outcome: Outcome, run: Snapshot, actions: seq<Action>, jobs: seq<Job>)
      requires api.At(ReadRun)
      modifies api
      ensures over ==> api.At(Done(outcome))
      ensures !over ==> actions != [] && api.At(Resume(run, actions, Scan(jobs, LastAction(actions))))
    {
      over, outcome, run, actions, jobs := true, Error, Snapshot(0, []), [], [];
      var r := api.Call(GetRun, ReadRun);
      if !r.RunFound? {
        outcome := if r.NotFound? then Success else Error;
        return;
      }
      run := r.run;
      r := api.Call(GetApplication, ReadApplication(run));
      if !r.ApplicationFound? {
        outcome := if r.NotFound? then Success else Error;
        return;
      }
      r := api.Call(GetWorkflow, ReadWorkflow(run));
      if !r.WorkflowFound? {
        outcome := if r.NotFound? then Success else Error;
        return;
      }
      actions := r.actions;
      var _, finished := ContainsCondition(run.conditions, Finished);
      if finished {
        outcome := Success;
        return;
      }
      if |actions| == 0 {
        outcome := Panic; // line 60 indexes position -1
        return;
      }
      r := api.Call(ListJobs, ReadJobs(run, actions));
      if !r.JobsFound? {
        return;
      }
      return false, Success, run, actions, r.jobs;
    }

    /** Lines 93-107: claim the run by storing RunningAction, and only then start the actions. */
    method LaunchIfIdle(run: Snapshot, actions: seq<Action>) returns (outcome: Outcome)
      requires actions != [] && api.At(Decide(run, actions))
      modifies api
      ensures api.At(Done(outcome))
    {
      var _, finished := ContainsCondition(run.conditions, Finished);
      var _, running := ContainsCondition(run.conditions, RunningAction);
      if finished || running {
        return Success;
      }
      var r, claimed := SetCondition(run, Running("Running actions"), Claiming(run, actions));
      if !r.Updated? {
        return Error;
      }
      var ok := RunActions(claimed, actions);
      if ok {
        return Success;
      }
      r, claimed := SetCondition(claimed, FailedWith("Failed to run actions"), RecordingFailure(claimed));
      return if r.Updated? then Success else Error;
    }

    /** Reconcile, lines 27-108. For every script of responses the calls made are exactly those of the protocol. */
    method Reconcile() returns (outcome: Outcome)
      requires api.At(ReadRun)
      modifies api
      ensures api.At(Done(outcome))
    {
      var over, run, actions, jobs;
      over, outcome, run, actions, jobs := ReadAll();
      if over {
        return;
      }
      over, outcome, run := ScanJobs(run, actions, jobs);
      if !over {
        outcome := LaunchIfIdle(run, actions);
      }
    }
  }
}
