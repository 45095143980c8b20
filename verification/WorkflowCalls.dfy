/**
  The calls of a Workflow Reconcile, read off its log: which calls are made in which order, what each status write
  carries, and how the Reconcile ends. Everything is stated on requests and responses, in the controller's constants.
 */
module WorkflowCalls {
  import opened Wrappers
  import opened Conditions
  import opened WorkflowReconcile
  import opened WorkflowRuns

  // ---------------------------------------------------------------------------------------------------------------
  // The writes of a scan (workflow_controller.go:68-91)
  // ---------------------------------------------------------------------------------------------------------------

  /** What is stored for a completed job of the last action, and for a failed job. */
  const SUCCEEDED := Condition(Finished, True, FinishedSuccessfully, "Finished")
  const FAILED := Condition(Finished, False, FinishedFailed, "Failed")

  /** Condition `c` of a job calls for the write of `w`. */
  predicate CallsFor(c: JobCondition, isLast: bool, w: RunCondition) {
    (c.Complete? && isLast && w == SUCCEEDED) || (c.Failed? && w == FAILED)
  }

  /**
    `writes` are called for by the conditions at positions `js`, which are in order, and no position from `from` on
    is missing.
   */
  ghost predicate JobWritesAt(conditions: seq<JobCondition>, isLast: bool, from: nat, js: seq<nat>,
                              writes: seq<RunCondition>)
  {
    && |js| == |writes|
    && (forall k, l :: 0 <= k < l < |js| ==> js[k] < js[l])
    && (forall k :: 0 <= k < |js| ==> from <= js[k] < |conditions| && CallsFor(conditions[js[k]], isLast, writes[k]))
    && forall j: nat, w :: from <= j < |conditions| && CallsFor(conditions[j], isLast, w) ==> j in js
  }

  lemma OnePosition(conditions: seq<JobCondition>, isLast: bool, from: nat, js: seq<nat>, writes: seq<RunCondition>,
                    w: RunCondition)
    requires from < |conditions| && CallsFor(conditions[from], isLast, w)
    requires JobWritesAt(conditions, isLast, from + 1, js, writes)
    ensures JobWritesAt(conditions, isLast, from, [from] + js, [w] + writes)
  {
    var all := [from] + js;
    assert all[0] == from && forall k :: 0 < k < |all| ==> all[k] == js[k - 1];
    forall j: nat, v | from <= j < |conditions| && CallsFor(conditions[j], isLast, v) ensures j in all {
      assert j > from ==> j in js;
    }
  }

  lemma NoPosition(conditions: seq<JobCondition>, isLast: bool, from: nat, js: seq<nat>, writes: seq<RunCondition>)
    requires from < |conditions| && Decision(conditions[from], isLast).None?
    requires JobWritesAt(conditions, isLast, from + 1, js, writes)
    ensures JobWritesAt(conditions, isLast, from, js, writes)
  {
    forall j: nat, v | from <= j < |conditions| && CallsFor(conditions[j], isLast, v) ensures j in js {
      assert j != from;
    }
  }

  lemma OneWriteMore(conditions: seq<JobCondition>, isLast: bool, from: nat)
    requires from < |conditions|
    ensures var d, writes := Decision(conditions[from], isLast), JobWrites(conditions[from + 1..], isLast);
            JobWrites(conditions[from..], isLast) == if d.Some? then [d.value] + writes else writes
  {
    assert conditions[from..][1..] == conditions[from + 1..];
    assert [] + JobWrites(conditions[from + 1..], isLast) == JobWrites(conditions[from + 1..], isLast);
  }

  /** The writes for one job: one for each of its conditions that calls for one, in order. */
  lemma {:induction false} JobWritesAre(conditions: seq<JobCondition>, isLast: bool, from: nat) returns (js: seq<nat>)
    requires from <= |conditions|
    ensures JobWritesAt(conditions, isLast, from, js, JobWrites(conditions[from..], isLast))
    decreases |conditions| - from
  {
    if from == |conditions| {
      js := [];
    } else {
      js := JobWritesAre(conditions, isLast, from + 1);
      var writes := JobWrites(conditions[from + 1..], isLast);
      OneWriteMore(conditions, isLast, from);
      if Decision(conditions[from], isLast).Some? {
        OnePosition(conditions, isLast, from, js, writes, Decision(conditions[from], isLast).value);
        js := [from] + js;
      } else {
        NoPosition(conditions, isLast, from, js, writes);
      }
    }
  }

  datatype Place = Place(job: nat, condition: nat)

  predicate Earlier(a: Place, b: Place) { a.job < b.job || (a.job == b.job && a.condition < b.condition) }

  /** The condition at that place calls for the write of `w`. */
  predicate CallsForAt(jobs: seq<Job>, last: string, p: Place, w: RunCondition) {
    && p.job < |jobs| && p.condition < |jobs[p.job].conditions|
    && CallsFor(jobs[p.job].conditions[p.condition], jobs[p.job].action == last, w)
  }

  ghost predicate InListOrder(places: seq<Place>) {
    forall k, l :: 0 <= k < l < |places| ==> Earlier(places[k], places[l])
  }

  /** Each write is called for at its place, between jobs `from` and `stop`. */
  ghost predicate CalledFor(jobs: seq<Job>, last: string, from: nat, stop: nat, places: seq<Place>,
                            writes: seq<RunCondition>)
  {
    && |places| == |writes|
    && forall k :: 0 <= k < |places| ==> from <= places[k].job < stop && CallsForAt(jobs, last, places[k], writes[k])
  }

  ghost predicate NoneMissing(jobs: seq<Job>, last: string, from: nat, stop: nat, places: seq<Place>) {
    forall p: Place, w :: from <= p.job < stop && CallsForAt(jobs, last, p, w) ==> p in places
  }

  /** The writes for the jobs from `from` up to `stop`: each has its place, in list order, and none is missing. */
  ghost predicate WritesAt(jobs: seq<Job>, last: string, from: nat, stop: nat, places: seq<Place>,
                           writes: seq<RunCondition>)
  {
    && InListOrder(places) && CalledFor(jobs, last, from, stop, places, writes)
    && NoneMissing(jobs, last, from, stop, places)
  }

  function PlacesIn(job: nat, js: seq<nat>): (places: seq<Place>)
    ensures |places| == |js| && forall k :: 0 <= k < |js| ==> places[k] == Place(job, js[k])
  {
    seq(|js|, k requires 0 <= k < |js| => Place(job, js[k]))
  }

  /** The writes for one job are those at the places in it. */
  lemma OneJob(jobs: seq<Job>, last: string, from: nat, js: seq<nat>, writes: seq<RunCondition>)
    requires from < |jobs| && JobWritesAt(jobs[from].conditions, jobs[from].action == last, 0, js, writes)
    ensures WritesAt(jobs, last, from, from + 1, PlacesIn(from, js), writes)
  {
    var here := PlacesIn(from, js);
    forall p: Place, w | from <= p.job < from + 1 && CallsForAt(jobs, last, p, w) ensures p in here {
      assert p.condition in js;
      var k :| 0 <= k < |js| && js[k] == p.condition;
      assert here[k] == p;
    }
  }

  lemma JoinInOrder(jobs: seq<Job>, last: string, from: nat, mid: nat, stop: nat, a: seq<Place>, b: seq<Place>,
                    v: seq<RunCondition>, w: seq<RunCondition>)
    requires CalledFor(jobs, last, from, mid, a, v) && CalledFor(jobs, last, mid, stop, b, w)
    requires InListOrder(a) && InListOrder(b)
    ensures InListOrder(a + b)
  {
    forall k, l | 0 <= k < l < |a + b| ensures Earlier((a + b)[k], (a + b)[l]) {
      if l < |a| {
        assert Earlier(a[k], a[l]);
      } else if k < |a| {
        assert a[k].job < mid <= b[l - |a|].job;
      } else {
        assert Earlier(b[k - |a|], b[l - |a|]);
      }
    }
  }

  lemma JoinCalledFor(jobs: seq<Job>, last: string, from: nat, mid: nat, stop: nat, a: seq<Place>, b: seq<Place>,
                      v: seq<RunCondition>, w: seq<RunCondition>)
    requires from <= mid <= stop
    requires CalledFor(jobs, last, from, mid, a, v) && CalledFor(jobs, last, mid, stop, b, w)
    ensures CalledFor(jobs, last, from, stop, a + b, v + w)
  {
    forall k | 0 <= k < |a + b|
      ensures from <= (a + b)[k].job < stop && CallsForAt(jobs, last, (a + b)[k], (v + w)[k])
    {
      if k < |a| {
        assert (a + b)[k] == a[k] && (v + w)[k] == v[k];
      } else {
        assert (a + b)[k] == b[k - |a|] && (v + w)[k] == w[k - |a|];
      }
    }
  }

  lemma JoinNoneMissing(jobs: seq<Job>, last: string, from: nat, mid: nat, stop: nat, a: seq<Place>, b: seq<Place>)
    requires from <= mid <= stop
    requires NoneMissing(jobs, last, from, mid, a) && NoneMissing(jobs, last, mid, stop, b)
    ensures NoneMissing(jobs, last, from, stop, a + b)
  {
    forall p: Place, x | from <= p.job < stop && CallsForAt(jobs, last, p, x) ensures p in a + b {
      assert if p.job < mid then p in a else p in b;
    }
  }

  /** First the places of one stretch of jobs, then those of the next. */
  lemma JoinPlaces(jobs: seq<Job>, last: string, from: nat, mid: nat, stop: nat, a: seq<Place>, b: seq<Place>,
                   v: seq<RunCondition>, w: seq<RunCondition>)
    requires from <= mid <= stop && WritesAt(jobs, last, from, mid, a, v) && WritesAt(jobs, last, mid, stop, b, w)
    ensures WritesAt(jobs, last, from, stop, a + b, v + w)
  {
    assert InListOrder(a + b) by { JoinInOrder(jobs, last, from, mid, stop, a, b, v, w); }
    assert CalledFor(jobs, last, from, stop, a + b, v + w) by {
      JoinCalledFor(jobs, last, from, mid, stop, a, b, v, w);
    }
    assert NoneMissing(jobs, last, from, stop, a + b) by { JoinNoneMissing(jobs, last, from, mid, stop, a, b); }
  }

  /** The first active job from `from` on is the one at `stop`; without one `stop` is the end of the list. */
  ghost predicate StopsAt(jobs: seq<Job>, from: nat, stop: nat) {
    && from <= stop <= |jobs| && (forall k :: from <= k < stop ==> jobs[k].active <= 0)
    && (stop < |jobs| ==> jobs[stop].active > 0)
  }

  /** `writes` are those of a scan that stops at job `stop`. */
  ghost predicate ScansTo(jobs: seq<Job>, last: string, from: nat, stop: nat, places: seq<Place>,
                          writes: seq<RunCondition>)
  {
    && StopsAt(jobs, from, stop)
    && if stop < |jobs| then
         && writes != []
         && writes[|writes| - 1]
              == Condition(RunningAction, True, RunningActionReason, "Running action " + jobs[stop].action)
         && WritesAt(jobs, last, from, stop, places, writes[..|writes| - 1])
       else WritesAt(jobs, last, from, stop, places, writes)
  }

  lemma FirstJobWrites(jobs: seq<Job>, last: string, from: nat) returns (places: seq<Place>)
    requires from < |jobs|
    ensures WritesAt(jobs, last, from, from + 1, places,
                     JobWrites(jobs[from].conditions, jobs[from].action == last))
  {
    var js := JobWritesAre(jobs[from].conditions, jobs[from].action == last, 0);
    assert jobs[from].conditions[0..] == jobs[from].conditions;
    places := PlacesIn(from, js);
    OneJob(jobs, last, from, js, JobWrites(jobs[from].conditions, jobs[from].action == last));
  }

  lemma ScanOneMore(jobs: seq<Job>, last: string, from: nat, stop: nat, first: seq<Place>, places: seq<Place>,
                    v: seq<RunCondition>, w: seq<RunCondition>)
    requires from < |jobs| && jobs[from].active <= 0
    requires WritesAt(jobs, last, from, from + 1, first, v) && ScansTo(jobs, last, from + 1, stop, places, w)
    ensures ScansTo(jobs, last, from, stop, first + places, v + w)
  {
    if stop < |jobs| {
      JoinPlaces(jobs, last, from, from + 1, stop, first, places, v, w[..|w| - 1]);
      assert (v + w)[..|v + w| - 1] == v + w[..|w| - 1];
    } else {
      JoinPlaces(jobs, last, from, from + 1, stop, first, places, v, w);
    }
  }

  lemma {:induction false} ScanWritesFrom(jobs: seq<Job>, last: string, from: nat)
    returns (stop: nat, places: seq<Place>)
    requires from <= |jobs|
    ensures ScansTo(jobs, last, from, stop, places, Scan(jobs[from..], last).writes)
    ensures Scan(jobs[from..], last).stops <==> stop < |jobs|
    decreases |jobs| - from
  {
    if from == |jobs| || jobs[from].active > 0 {
      stop, places := from, [];
    } else {
      stop, places := ScanWritesFrom(jobs, last, from + 1);
      var first := FirstJobWrites(jobs, last, from);
      assert jobs[from..][1..] == jobs[from + 1..];
      ScanOneMore(jobs, last, from, stop, first, places, JobWrites(jobs[from].conditions, jobs[from].action == last),
                  Scan(jobs[from + 1..], last).writes);
      places := first + places;
    }
  }

  /**
    The scan, exactly: one write for every condition before the first active job that calls for one, in list order;
    then, if there is an active job, RunningAction/True naming the first one, and the scan returns.
   */
  lemma ScanWrites(jobs: seq<Job>, last: string) returns (stop: nat, places: seq<Place>)
    ensures ScansTo(jobs, last, 0, stop, places, Scan(jobs, last).writes)
    ensures Scan(jobs, last).stops <==> stop < |jobs|
  {
    stop, places := ScanWritesFrom(jobs, last, 0);
    assert jobs[0..] == jobs;
  }

  // ---------------------------------------------------------------------------------------------------------------
  // The calls (workflow_controller.go:27-108)
  // ---------------------------------------------------------------------------------------------------------------

  /** How a Reconcile stands after the calls of a log: the outcome if it is over. */
  ghost predicate EndsWith(log: seq<Exchange>, trace: seq<Pc>, outcome: Outcome) {
    Follows(log, trace) && trace[|log|] == Done(outcome)
  }

  ghost predicate GoesOn(log: seq<Exchange>, trace: seq<Pc>) { Follows(log, trace) && !trace[|log|].Done? }

  lemma TraceAt(log: seq<Exchange>, trace: seq<Pc>, i: nat)
    requires Follows(log, trace) && i < |log|
    ensures Takes(trace[i], log[i], trace[i + 1])
  {
    assert Takes(trace[i], log[i], trace[i + 1]);
  }

  /** The states after the first calls. */
  lemma FirstStates(log: seq<Exchange>, trace: seq<Pc>)
    requires Follows(log, trace)
    ensures |log| > 1 ==> log[0].response.RunFound? && trace[1] == ReadApplication(log[0].response.run)
    ensures |log| > 2 ==> trace[2] == ReadWorkflow(log[0].response.run) && log[1].response.ApplicationFound?
    ensures |log| > 3 ==>
              && log[2].response.WorkflowFound? && log[2].response.actions != []
              && !IsFinished(log[0].response.run.conditions)
              && trace[3] == ReadJobs(log[0].response.run, log[2].response.actions)
    ensures |log| > 4 ==> log[3].response.JobsFound?
  {
    if |log| > 0 { TraceAt(log, trace, 0); }
    if |log| > 1 { TraceAt(log, trace, 1); }
    if |log| > 2 { TraceAt(log, trace, 2); }
    if |log| > 3 { TraceAt(log, trace, 3); }
    if |log| > 4 { TraceAt(log, trace, 4); }
  }

  lemma {:induction false} NoneFound(cs: RunConditions, t: RunConditionType)
    ensures HasType(cs, t) <==> Find(cs, t).Some?
  {
    if cs != [] {
      NoneFound(cs[1..], t);
      assert forall i :: 0 < i < |cs| ==> cs[i] == cs[1..][i - 1];
    }
  }

  /**
    The reads come first, one after the other: run, Application, Workflow, jobs. Each is followed by the next only if
    its object was found, the last one only if the run's conditions have no Finished and the Workflow has actions.
   */
  lemma ReadsInOrder(log: seq<Exchange>, trace: seq<Pc>)
    requires Follows(log, trace)
    ensures |log| > 0 ==> log[0].request == GetRun
    ensures |log| > 1 ==> log[1].request == GetApplication && log[0].response.RunFound?
    ensures |log| > 2 ==> log[2].request == GetWorkflow && log[1].response.ApplicationFound?
    ensures |log| > 3 ==>
              && log[3].request == ListJobs && log[2].response.WorkflowFound? && log[2].response.actions != []
              && Find(log[0].response.run.conditions, Finished).None?
    ensures |log| > 4 ==> log[3].response.JobsFound?
  {
    FirstStates(log, trace);
    if |log| > 0 { TraceAt(log, trace, 0); }
    if |log| > 1 { TraceAt(log, trace, 1); }
    if |log| > 2 { TraceAt(log, trace, 2); }
    if |log| > 3 {
      TraceAt(log, trace, 3);
      NoneFound(log[0].response.run.conditions, Finished);
    }
  }

  /**
    How a Reconcile ends among its reads: a missing object or a finished run is success, any other answer is an error,
    a Workflow without actions panics. Otherwise it goes on.
   */
  lemma EndAfterReads(log: seq<Exchange>, trace: seq<Pc>)
    requires Follows(log, trace) && 1 <= |log| <= 3
    ensures |log| > 1 ==> log[0].response.RunFound?
    ensures var r := log[|log| - 1].response;
            if r.NotFound? then EndsWith(log, trace, Success)
            else if |log| == 1 then (if r.RunFound? then GoesOn(log, trace) else EndsWith(log, trace, Error))
            else if |log| == 2 then (if r.ApplicationFound? then GoesOn(log, trace) else EndsWith(log, trace, Error))
            else if !r.WorkflowFound? then EndsWith(log, trace, Error)
            else if Find(log[0].response.run.conditions, Finished).Some? then EndsWith(log, trace, Success)
            else if r.actions == [] then EndsWith(log, trace, Panic)
            else GoesOn(log, trace)
  {
    FirstStates(log, trace);
    TraceAt(log, trace, |log| - 1);
    if |log| == 3 { NoneFound(log[0].response.run.conditions, Finished); }
  }

  // --- After the reads ---

  /** The Reconcile has listed the jobs. */
  ghost predicate Listed(log: seq<Exchange>, trace: seq<Pc>) {
    && Follows(log, trace) && |log| >= 4
    && log[0].response.RunFound? && log[2].response.WorkflowFound? && log[3].response.JobsFound?
    && log[2].response.actions != []
  }

  /** What it has read. */
  function RunRead(log: seq<Exchange>): Snapshot
    requires |log| > 0 && log[0].response.RunFound?
  {
    log[0].response.run
  }

  function ActionsRead(log: seq<Exchange>): seq<Action>
    requires |log| > 2 && log[2].response.WorkflowFound?
  {
    log[2].response.actions
  }

  function JobsRead(log: seq<Exchange>): seq<Job>
    requires |log| > 3 && log[3].response.JobsFound?
  {
    log[3].response.jobs
  }

  ghost predicate Quiet(log: seq<Exchange>, trace: seq<Pc>)
    requires Listed(log, trace)
  {
    QuietJobs(JobsRead(log), LastAction(ActionsRead(log)))
  }

  /** Whatever is called after the reads, the jobs have been listed before. */
  lemma CallsAfterReads(log: seq<Exchange>, trace: seq<Pc>)
    requires Follows(log, trace) && |log| > 4
    ensures Listed(log, trace)
  {
    FirstStates(log, trace);
  }

  lemma StateAfterReads(log: seq<Exchange>, trace: seq<Pc>)
    requires Listed(log, trace)
    ensures trace[4] == Resume(RunRead(log), ActionsRead(log), Scan(JobsRead(log), LastAction(ActionsRead(log))))
    ensures !IsFinished(RunRead(log).conditions)
  {
    FirstStates(log, trace);
    TraceAt(log, trace, 3);
  }

  // --- The launch ---

  /** What the controller stores when it claims a run, and when an action fails to start. */
  const CLAIM := Condition(RunningAction, True, RunningActionReason, "Running actions")
  const LAUNCH_FAILURE := Condition(Finished, False, FinishedFailed, "Failed to run actions")

  /** After listing quiet jobs exactly a run that is not marked as running is claimed. */
  lemma ClaimComesFirst(log: seq<Exchange>, trace: seq<Pc>)
    requires Listed(log, trace) && Quiet(log, trace)
    ensures if Find(RunRead(log).conditions, RunningAction).Some? then |log| == 4 && EndsWith(log, trace, Success)
            else
              && trace[4] == Claiming(RunRead(log), ActionsRead(log))
              && (|log| > 4 ==> log[4].request == UpdateStatus(RunRead(log).version, [CLAIM]))
  {
    StateAfterReads(log, trace);
    VerdictUndecided(JobsRead(log), LastAction(ActionsRead(log)));
    NoneFound(RunRead(log).conditions, RunningAction);
    if |log| > 4 { TraceAt(log, trace, 4); }
  }

  /** The first `k` calls of RunAction were for the first `k` actions and started them. */
  ghost predicate Started(log: seq<Exchange>, actions: seq<Action>, k: nat) {
    && 5 + k <= |log| && k <= |actions|
    && forall j :: 5 <= j < 5 + k ==> log[j] == Exchange(RunAction(actions[j - 5]), ActionStarted)
  }

  /** A launch in progress: before call `5 + k`. */
  ghost predicate LaunchAt(log: seq<Exchange>, trace: seq<Pc>, k: nat)
    requires Listed(log, trace) && |log| >= 5 + k
  {
    && log[4].response.Updated? && k < |ActionsRead(log)| && Started(log, ActionsRead(log), k)
    && trace[5 + k] == Launching(Snapshot(log[4].response.version, [CLAIM]), ActionsRead(log), k)
  }

  /** A launch whose action before call `5 + k` has failed. */
  ghost predicate FailureAt(log: seq<Exchange>, trace: seq<Pc>, k: nat)
    requires Listed(log, trace) && |log| >= 5 + k
  {
    && log[4].response.Updated? && 0 < k <= |ActionsRead(log)| && Started(log, ActionsRead(log), k - 1)
    && log[4 + k].request == RunAction(ActionsRead(log)[k - 1]) && !log[4 + k].response.ActionStarted?
    && trace[5 + k] == RecordingFailure(Snapshot(log[4].response.version, [CLAIM]))
  }

  lemma LaunchStep(log: seq<Exchange>, trace: seq<Pc>, k: nat)
    requires Listed(log, trace) && 6 + k < |log| && LaunchAt(log, trace, k)
    ensures if log[5 + k].response.ActionStarted? then LaunchAt(log, trace, k + 1) else FailureAt(log, trace, k + 1)
  {
    TraceAt(log, trace, 5 + k);
    TraceAt(log, trace, 6 + k);
  }

  /** Nothing follows the write of a failure. */
  lemma FailureIsLast(log: seq<Exchange>, trace: seq<Pc>, k: nat)
    requires Listed(log, trace) && 5 + k < |log| && FailureAt(log, trace, k)
    ensures |log| == 6 + k
  {
    TraceAt(log, trace, 5 + k);
    if |log| > 6 + k { TraceAt(log, trace, 6 + k); }
  }

  lemma {:induction false} LaunchStates(log: seq<Exchange>, trace: seq<Pc>, k: nat)
    requires Listed(log, trace) && Quiet(log, trace) && 5 + k < |log|
    ensures LaunchAt(log, trace, k) || FailureAt(log, trace, k)
  {
    if k == 0 {
      ClaimComesFirst(log, trace);
      TraceAt(log, trace, 4);
      TraceAt(log, trace, 5);
    } else {
      LaunchStates(log, trace, k - 1);
      if FailureAt(log, trace, k - 1) { FailureIsLast(log, trace, k - 1); }
      LaunchStep(log, trace, k - 1);
    }
  }

  /**
    The launch: the claim once stored, RunAction is called for the actions in order as long as they start; with the
    last one started the Reconcile succeeds.
   */
  lemma LaunchCalls(log: seq<Exchange>, trace: seq<Pc>, k: nat)
    requires Listed(log, trace) && Quiet(log, trace) && 5 + k < |log|
    requires forall j :: 5 <= j < 5 + k ==> log[j].response.ActionStarted?
    ensures log[4].request == UpdateStatus(RunRead(log).version, [CLAIM]) && log[4].response.Updated?
    ensures k < |ActionsRead(log)| && log[5 + k].request == RunAction(ActionsRead(log)[k])
    ensures k + 1 == |ActionsRead(log)| && log[5 + k].response.ActionStarted? ==>
              |log| == 6 + k && EndsWith(log, trace, Success)
  {
    ClaimComesFirst(log, trace);
    LaunchStates(log, trace, k);
    assert k > 0 ==> log[4 + k].response.ActionStarted?;
    TraceAt(log, trace, 5 + k);
    if |log| > 6 + k { TraceAt(log, trace, 6 + k); }
  }

  /**
    A call of RunAction that does not start its action is followed by exactly one call: it stores Finished/False at
    the version of the claim. A failure stored this way is reported as success, because line 101 overwrites the error.
   */
  lemma LaunchFailureCall(log: seq<Exchange>, trace: seq<Pc>, k: nat)
    requires Listed(log, trace) && Quiet(log, trace) && 5 + k < |log|
    requires log[5 + k].request.RunAction? && !log[5 + k].response.ActionStarted?
    ensures log[4].response.Updated? && |log| <= 7 + k
    ensures |log| == 6 + k ==> GoesOn(log, trace)
    ensures |log| == 7 + k ==>
              && log[6 + k].request == UpdateStatus(log[4].response.version, [LAUNCH_FAILURE])
              && EndsWith(log, trace, if log[6 + k].response.Updated? then Success else Error)
  {
    LaunchStates(log, trace, k);
    TraceAt(log, trace, 5 + k);
    if |log| > 6 + k { TraceAt(log, trace, 6 + k); }
    if |log| > 7 + k { TraceAt(log, trace, 7 + k); }
  }

  /**
    In every interleaving: when an action does not start, the next call of its reconciler stores Finished/False, if it
    stores anything; it does so only at the version of the claim.
   */
  lemma LaunchFailureIsStored(s: RunState, e: Event, u: RunState, f: Event)
    requires s.history != [] && Enabled(s, e) && e.Answer? && s.procs[e.pid].Launching?
    requires !e.response.ActionStarted?
    requires u.history != [] && e.pid in u.procs && u.procs[e.pid] == Apply(s, e).procs[e.pid]
    requires Enabled(u, f) && f.Answer? && f.pid == e.pid
    ensures !f.effect.JobsNow? && (!f.effect.NoEffect? ==> s.procs[e.pid].run.version == Current(u))
    ensures f.effect.Write? || f.effect.Resave? ==>
              var k := Find(Stored(Apply(u, f)), Finished);
              k.Some? && k.value.status.False? && k.value.reason.FinishedFailed?
    ensures f.effect.NoEffect? ==> Apply(u, f).history == u.history && !f.response.Updated?
    ensures Apply(u, f).procs[e.pid] == Done(if f.response.Updated? then Success else Error)
  {
    assert Find([LAUNCH_FAILURE], Finished) == Some(LAUNCH_FAILURE);
  }

  // --- The writes of the scan ---

  /** The version the local copy carries before call `i` of the scan. */
  function CarriedVersion(log: seq<Exchange>, i: nat): nat
    requires 4 <= i <= |log| && log[0].response.RunFound?
  {
    if i > 4 && log[i - 1].response.Updated? then log[i - 1].response.version else log[0].response.run.version
  }

  ghost function ScanOf(log: seq<Exchange>, trace: seq<Pc>): Plan
    requires Listed(log, trace)
  {
    Scan(JobsRead(log), LastAction(ActionsRead(log)))
  }

  /** A scan in progress: before call `4 + k`. */
  ghost predicate ScanAt(log: seq<Exchange>, trace: seq<Pc>, k: nat)
    requires Listed(log, trace) && |log| >= 4 + k
  {
    var plan := ScanOf(log, trace);
    && k < |plan.writes| && trace[4 + k].Scanning?
    && (k > 0 ==> log[3 + k].response.Updated?)
    && trace[4 + k].run.version == CarriedVersion(log, 4 + k)
    && trace[4 + k].plan == plan.(writes := plan.writes[k..])
  }

  /** When its last write is done, a scan that wrote something leaves nothing to launch. */
  lemma ScanEnds(jobs: seq<Job>, last: string, run: Snapshot, actions: seq<Action>, version: nat)
    requires actions != [] && !QuietJobs(jobs, last)
    ensures var plan := Scan(jobs, last);
            && plan.writes != []
            && Resume(Snapshot(version, [plan.writes[|plan.writes| - 1]]), actions, plan.(writes := []))
               == Done(Success)
  {
    ScanEmptyIff(jobs, last);
    var stop, places := ScanWrites(jobs, last);
    var w := Scan(jobs, last).writes;
    assert [w[|w| - 1]][0].ctype == w[|w| - 1].ctype;
  }

  lemma ScanStep(log: seq<Exchange>, trace: seq<Pc>, k: nat)
    requires Listed(log, trace) && !Quiet(log, trace) && 4 + k < |log| && ScanAt(log, trace, k)
    ensures var plan := ScanOf(log, trace);
            && log[4 + k].request == UpdateStatus(CarriedVersion(log, 4 + k), [plan.writes[k]])
            && if !log[4 + k].response.Updated? then trace[5 + k] == Done(Error)
               else if k + 1 == |plan.writes| then trace[5 + k] == Done(Success)
               else ScanAt(log, trace, k + 1)
  {
    var plan := ScanOf(log, trace);
    TraceAt(log, trace, 4 + k);
    assert plan.writes[k..][1..] == plan.writes[k + 1..];
    if log[4 + k].response.Updated? && k + 1 == |plan.writes| {
      ScanEnds(JobsRead(log), LastAction(ActionsRead(log)), trace[4 + k].run, trace[4 + k].actions,
               log[4 + k].response.version);
    }
  }

  lemma {:induction false} ScanStates(log: seq<Exchange>, trace: seq<Pc>, k: nat)
    requires Listed(log, trace) && !Quiet(log, trace) && 4 + k < |log|
    ensures ScanAt(log, trace, k)
  {
    TraceAt(log, trace, 4 + k);
    if k == 0 {
      StateAfterReads(log, trace);
      ScanEmptyIff(JobsRead(log), LastAction(ActionsRead(log)));
    } else {
      ScanStates(log, trace, k - 1);
      ScanStep(log, trace, k - 1);
    }
  }

  /**
    The calls after listing jobs some of which are active or decide: the writes of the scan, one by one, each at the
    version the one before was stored at. A refused write ends the Reconcile with an error, the last one with success,
    and no action is started.
   */
  lemma ScanCalls(log: seq<Exchange>, trace: seq<Pc>, k: nat) returns (stop: nat, places: seq<Place>)
    requires Listed(log, trace) && !Quiet(log, trace) && 4 + k < |log|
    ensures exists writes: seq<RunCondition> ::
              && ScansTo(JobsRead(log), LastAction(ActionsRead(log)), 0, stop, places, writes) && k < |writes|
              && log[4 + k].request == UpdateStatus(CarriedVersion(log, 4 + k), [writes[k]])
              && (k > 0 ==> log[3 + k].response.Updated?)
              && (!log[4 + k].response.Updated? ==> |log| == 5 + k && EndsWith(log, trace, Error))
              && (log[4 + k].response.Updated? && k + 1 == |writes| ==>
                    |log| == 5 + k && EndsWith(log, trace, Success))
              && (log[4 + k].response.Updated? && k + 1 < |writes| && |log| == 5 + k ==> GoesOn(log, trace))
  {
    stop, places := ScanWrites(JobsRead(log), LastAction(ActionsRead(log)));
    ScanStates(log, trace, k);
    ScanStep(log, trace, k);
    if |log| > 5 + k { TraceAt(log, trace, 5 + k); }
    var writes := ScanOf(log, trace).writes;
    assert ScansTo(JobsRead(log), LastAction(ActionsRead(log)), 0, stop, places, writes);
  }
}
