/**
  Claimed WorkflowRuns that can no longer succeed, or no longer finish.

  The actions of a run are started by one reconciler, once. When it is gone no action is started any more; what is left
  is to look at the jobs there are, while these go on. A run is doomed when no job of the last action can complete, and
  stranded when no job can decide at all: both last, as long as no jobs are added from elsewhere.
 */
module WorkflowStranded {
  import opened WorkflowReconcile
  import opened WorkflowRuns
  import opened WorkflowProgress

  // ---------------------------------------------------------------------------------------------------------------
  // The launch is over
  // ---------------------------------------------------------------------------------------------------------------

  /** Something is stored, so that nobody can claim the run, and nobody is launching. */
  ghost predicate LaunchOver(s: RunState) {
    && s.history != [] && Stored(s) != []
    && forall pid :: Live(s, pid) ==> !s.procs[pid].Launching?
  }

  lemma LaunchOverStays(s: RunState, e: Event)
    requires Inv(s) && LaunchOver(s) && Enabled(s, e)
    ensures LaunchOver(Apply(s, e)) && Apply(s, e).started == s.started
  {
    var s' := Apply(s, e);
    if e.Answer? {
      assert ProcInv(s, e.pid, s.procs[e.pid]);
    }
    forall pid | Live(s', pid) ensures !s'.procs[pid].Launching? {
      if pid in s.procs { assert Live(s, pid) ==> !s.procs[pid].Launching?; }
    }
  }

  /** Once the launch is over no action is started any more, whatever happens. */
  lemma {:induction false} LaunchOverForGood(states: seq<RunState>, events: seq<Event>, i: nat, j: nat)
    requires Execution(states, events) && Initial(states[0]) && i <= j < |states| && LaunchOver(states[i])
    ensures LaunchOver(states[j]) && states[j].started == states[i].started
  {
    if i == j {
    } else {
      LaunchOverForGood(states, events, i, j - 1);
      Reachable(states, events, j - 1);
      LaunchOverStays(states[j - 1], events[j - 1]);
    }
  }

  /** What a crash during the launch costs: the actions that were not started yet are never started. */
  lemma CrashEndsLaunch(states: seq<RunState>, events: seq<Event>, i: nat, j: nat)
    requires Execution(states, events) && Initial(states[0]) && i < j < |states|
    requires events[i].Crash? && states[i].procs[events[i].pid].Launching?
    ensures var next := states[i].procs[events[i].pid].next;
            next < |states[0].actions| && states[j].started == states[0].actions[..next]
  {
    Reachable(states, events, i);
    ActionsFixed(states, events, i);
    var s, s', pid := states[i], states[i + 1], events[i].pid;
    assert ProcInv(s, pid, s.procs[pid]);
    forall q | Live(s', q) ensures !s'.procs[q].Launching? {
      assert ProcInv(s, q, s.procs[q]);
    }
    LaunchOverForGood(states, events, i + 1, j);
  }

  // ---------------------------------------------------------------------------------------------------------------
  // The run's own jobs
  // ---------------------------------------------------------------------------------------------------------------

  predicate Over(job: Job) { Complete in job.conditions || Failed in job.conditions }

  /** A job that has completed or failed does not do the other as well. */
  ghost predicate VerdictsStay(jobs: seq<Job>, jobs': seq<Job>) {
    && |jobs| <= |jobs'|
    && forall i, c :: 0 <= i < |jobs| && Over(jobs[i]) && c in jobs'[i].conditions && !c.OtherJobCondition? ==>
         c in jobs[i].conditions
  }

  /** Jobs go on, and actions create jobs, but no job is added from elsewhere. If `final`, the verdicts of jobs stay. */
  ghost predicate Own(s: RunState, e: Event, s': RunState, final: bool) {
    && (e.JobsChange? ==> |s'.jobs| == |s.jobs|)
    && (final ==> VerdictsStay(s.jobs, s'.jobs))
  }

  /** The first `n` steps leave the run with its own jobs. */
  ghost predicate OwnJobs(states: seq<RunState>, events: seq<Event>, n: nat, final: bool)
    requires n <= |events| < |states|
  {
    forall k {:trigger events[k]} :: 0 <= k < n ==> Own(states[k], events[k], states[k + 1], final)
  }

  lemma OwnJobsButOne(states: seq<RunState>, events: seq<Event>, n: nat, final: bool)
    requires 0 < n <= |events| < |states| && OwnJobs(states, events, n, final)
    ensures OwnJobs(states, events, n - 1, final) && Own(states[n - 1], events[n - 1], states[n], final)
  {
    assert events[n - 1] == events[n - 1];
  }

  /** The execution from step `i` on. */
  lemma TailExecution(states: seq<RunState>, events: seq<Event>, i: nat, j: nat, final: bool)
    requires Execution(states, events) && i <= j <= |events| && OwnJobs(states, events, j, final)
    ensures Execution(states[i..], events[i..]) && OwnJobs(states[i..], events[i..], j - i, final)
  {
    forall k {:trigger events[i..][k]} | 0 <= k < j - i
      ensures Own(states[i..][k], events[i..][k], states[i..][k + 1], final)
    {
      assert events[i..][k] == events[i + k];
    }
  }

  ghost predicate HasJob(jobs: seq<Job>, name: string) { exists j :: 0 <= j < |jobs| && jobs[j].action == name }

  /** Step `k` is a call of RunAction, for an action of that name, that creates a job. */
  ghost predicate CreatesAt(states: seq<RunState>, events: seq<Event>, k: nat, name: string)
    requires Execution(states, events) && k < |events|
  {
    && events[k].Answer? && Requested(states[k].procs[events[k].pid]).RunAction?
    && Requested(states[k].procs[events[k].pid]).action.name == name
    && |states[k].jobs| < |states[k + 1].jobs|
  }

  ghost predicate Created(states: seq<RunState>, events: seq<Event>, n: nat, name: string)
    requires Execution(states, events) && n <= |events|
  {
    exists k: nat :: k < n && CreatesAt(states, events, k, name)
  }

  lemma GrowingKeepsNames(jobs: seq<Job>, jobs': seq<Job>, name: string)
    requires Grows(jobs, jobs')
    ensures HasJob(jobs, name) ==> HasJob(jobs', name)
    ensures HasJob(jobs', name) ==>
              HasJob(jobs, name) || exists j :: |jobs| <= j < |jobs'| && jobs'[j].action == name
  {
    if j :| 0 <= j < |jobs| && jobs[j].action == name {
      assert Shows(jobs[j], jobs'[j]);
    }
    if j :| 0 <= j < |jobs'| && jobs'[j].action == name {
      if j < |jobs| { assert Shows(jobs[j], jobs'[j]); }
    }
  }

  lemma StepCreates(states: seq<RunState>, events: seq<Event>, k: nat, name: string)
    requires Execution(states, events) && k < |events| && Own(states[k], events[k], states[k + 1], false)
    ensures HasJob(states[k + 1].jobs, name) <==> HasJob(states[k].jobs, name) || CreatesAt(states, events, k, name)
  {
    var s, e, s' := states[k], events[k], states[k + 1];
    JobsOnlyGrow(s, e);
    GrowingKeepsNames(s.jobs, s'.jobs, name);
    if CreatesAt(states, events, k, name) { assert s'.jobs[|s.jobs|].action == name; }
  }

  lemma CreatedButOne(states: seq<RunState>, events: seq<Event>, n: nat, name: string)
    requires Execution(states, events) && 0 < n <= |events|
    ensures Created(states, events, n, name) <==>
            Created(states, events, n - 1, name) || CreatesAt(states, events, n - 1, name)
  {}

  /** The labels of a run's own jobs are the names of the actions whose calls created jobs. */
  lemma {:induction false} JobsComeFromActions(states: seq<RunState>, events: seq<Event>, n: nat, name: string)
    requires Execution(states, events) && Initial(states[0]) && n <= |events| && OwnJobs(states, events, n, false)
    ensures HasJob(states[n].jobs, name) <==> Created(states, events, n, name)
  {
    if n == 0 {
    } else {
      OwnJobsButOne(states, events, n, false);
      JobsComeFromActions(states, events, n - 1, name);
      StepCreates(states, events, n - 1, name);
      CreatedButOne(states, events, n, name);
    }
  }

  ghost predicate HasStarted(started: seq<Action>, name: string) {
    exists k :: 0 <= k < |started| && started[k].name == name
  }

  lemma StepStarts(s: RunState, e: Event, name: string)
    requires s.history != [] && Enabled(s, e) && HasStarted(s.started, name)
    ensures HasStarted(Apply(s, e).started, name)
  {
    var k :| 0 <= k < |s.started| && s.started[k].name == name;
    assert Apply(s, e).started[k] == s.started[k];
  }

  lemma {:induction false} StartedStays(states: seq<RunState>, events: seq<Event>, i: nat, j: nat, name: string)
    requires Execution(states, events) && i <= j <= |events| && HasStarted(states[i].started, name)
    ensures HasStarted(states[j].started, name)
  {
    if i == j {
    } else {
      StartedStays(states, events, i, j - 1, name);
      StepStarts(states[j - 1], events[j - 1], name);
    }
  }

  /** What creates a job has been started. */
  lemma CreatedIsStarted(states: seq<RunState>, events: seq<Event>, n: nat, name: string)
    requires Execution(states, events) && n <= |events| && Created(states, events, n, name)
    ensures HasStarted(states[n].started, name)
  {
    var k: nat :| k < n && CreatesAt(states, events, k, name);
    var before, after := states[k].started, states[k + 1].started;
    assert after == before + [Requested(states[k].procs[events[k].pid]).action];
    assert after[|before|].name == name;
    StartedStays(states, events, k + 1, n, name);
  }

  // ---------------------------------------------------------------------------------------------------------------
  // Runs that cannot succeed
  // ---------------------------------------------------------------------------------------------------------------

  predicate SaysSuccess(cs: RunConditions) { exists i :: 0 <= i < |cs| && cs[i].ctype.Finished? && cs[i].status.True? }

  /** The job can complete, or has completed, and is one of the last action. */
  predicate CanSucceed(job: Job, last: string, final: bool) {
    job.action == last && (final && Failed in job.conditions ==> Complete in job.conditions)
  }

  /** The job decides, or can still come to decide. */
  predicate CanDecide(job: Job, last: string, final: bool) {
    final && Complete in job.conditions && job.action != last ==> Failed in job.conditions
  }

  /** What a job cannot do, it cannot do later. */
  lemma JobGoesOn(jobs: seq<Job>, jobs': seq<Job>, j: nat, last: string, final: bool)
    requires j < |jobs| == |jobs'| && Grows(jobs, jobs') && (final ==> VerdictsStay(jobs, jobs'))
    ensures CanSucceed(jobs'[j], last, final) ==> CanSucceed(jobs[j], last, final)
    ensures CanDecide(jobs'[j], last, final) ==> CanDecide(jobs[j], last, final)
  {
    assert Shows(jobs[j], jobs'[j]);
    if final && Over(jobs[j]) {
      assert forall c :: c in jobs'[j].conditions && !c.OtherJobCondition? ==> c in jobs[j].conditions;
    }
  }

  predicate SomeCanSucceed(jobs: seq<Job>, last: string, final: bool) {
    exists j :: 0 <= j < |jobs| && CanSucceed(jobs[j], last, final)
  }

  /** The launch is over, and no job can bring success. */
  ghost predicate Doomed(s: RunState, final: bool) {
    LaunchOver(s) && s.actions != [] && !SomeCanSucceed(s.jobs, LastAction(s.actions), final)
  }

  lemma DoomedSaysNoSuccess(s: RunState, final: bool)
    requires Inv(s) && Doomed(s, final)
    ensures !SaysSuccess(Stored(s))
  {
    assert SoundList(s, Stored(s));
    if Completed(s) {
      var j :| 0 <= j < |s.jobs| && s.jobs[j].action == LastAction(s.actions) && Complete in s.jobs[j].conditions;
      assert CanSucceed(s.jobs[j], LastAction(s.actions), final);
    }
  }

  /** Once the launch is over, only the jobs there are go on. */
  lemma JobsGoOn(s: RunState, e: Event, final: bool)
    requires Inv(s) && LaunchOver(s) && Enabled(s, e) && Own(s, e, Apply(s, e), final)
    ensures var jobs' := Apply(s, e).jobs;
            |jobs'| == |s.jobs| && Grows(s.jobs, jobs') && (final ==> VerdictsStay(s.jobs, jobs'))
  {
    JobsOnlyGrow(s, e);
    if e.Answer? { assert ProcInv(s, e.pid, s.procs[e.pid]); }
  }

  lemma DoomedStays(s: RunState, e: Event, final: bool)
    requires Inv(s) && Doomed(s, final) && Enabled(s, e) && Own(s, e, Apply(s, e), final)
    ensures Doomed(Apply(s, e), final)
  {
    var s' := Apply(s, e);
    LaunchOverStays(s, e);
    JobsGoOn(s, e, final);
    forall j | 0 <= j < |s'.jobs| ensures !CanSucceed(s'.jobs[j], LastAction(s.actions), final) {
      JobGoesOn(s.jobs, s'.jobs, j, LastAction(s.actions), final);
    }
  }

  lemma DoomedStep(s: RunState, e: Event, final: bool)
    requires Inv(s) && Doomed(s, final) && Enabled(s, e) && Own(s, e, Apply(s, e), final)
    ensures Inv(Apply(s, e)) && Doomed(Apply(s, e), final)
  {
    StepKeeps(s, e);
    DoomedStays(s, e, final);
  }

  /** A run that cannot succeed never does, whatever its own jobs and any reconcilers do. */
  lemma {:induction false} DoomedForGood(states: seq<RunState>, events: seq<Event>, j: nat, final: bool)
    requires Execution(states, events) && j <= |events| && OwnJobs(states, events, j, final)
    requires Inv(states[0]) && Doomed(states[0], final)
    ensures Inv(states[j]) && Doomed(states[j], final)
  {
    if j == 0 {
    } else {
      OwnJobsButOne(states, events, j, final);
      DoomedForGood(states, events, j - 1, final);
      DoomedStep(states[j - 1], events[j - 1], final);
    }
  }

  lemma DoomedFrom(states: seq<RunState>, events: seq<Event>, i: nat, j: nat, final: bool)
    requires Execution(states, events) && i <= j <= |events| && OwnJobs(states, events, j, final)
    requires Inv(states[i]) && Doomed(states[i], final)
    ensures Doomed(states[j], final) && !SaysSuccess(Stored(states[j]))
  {
    TailExecution(states, events, i, j, final);
    DoomedForGood(states[i..], events[i..], j - i, final);
    DoomedSaysNoSuccess(states[j], final);
  }

  /** In no execution from `s` with the run's own jobs is Finished/True ever stored. */
  ghost predicate NeverSucceeds(s: RunState, final: bool) {
    forall states, events ::
      Execution(states, events) && states[0] == s && OwnJobs(states, events, |events|, final) ==>
        !SaysSuccess(Stored(states[|events|]))
  }

  // ---------------------------------------------------------------------------------------------------------------
  // Runs that cannot finish
  // ---------------------------------------------------------------------------------------------------------------

  predicate SomeCanDecide(jobs: seq<Job>, last: string, final: bool) {
    exists j :: 0 <= j < |jobs| && CanDecide(jobs[j], last, final)
  }

  /** The reconciler is about to repeat that an action is running, and to return. */
  predicate Repeats(pc: Pc) {
    pc.Scanning? && pc.plan.stops && |pc.plan.writes| == 1 && pc.plan.writes[0].ctype.RunningAction?
  }

  /** Whatever else than RunningAction the reconciler wants to store will be refused. */
  predicate Harmless(s: RunState, pc: Pc) {
    pc.Scanning? || pc.RecordingFailure? ==> pc.run.version != Current(s) || Repeats(pc)
  }

  /** The launch is over, the run is not finished, no job can decide, and every reconciler at work is harmless. */
  ghost predicate Stranded(s: RunState, final: bool) {
    && LaunchOver(s) && s.actions != []
    && !IsFinished(Stored(s))
    && !SomeCanDecide(s.jobs, LastAction(s.actions), final)
    && forall pid :: Live(s, pid) ==> Harmless(s, s.procs[pid])
  }

  /** What cannot decide does not. */
  lemma NoneDecides(jobs: seq<Job>, last: string, final: bool)
    requires !SomeCanDecide(jobs, last, final)
    ensures !SomeDecides(jobs, last)
  {
    forall i: nat, j: nat ensures !DecidingAt(jobs, last, i, j) {
      if DecidingAt(jobs, last, i, j) { assert CanDecide(jobs[i], last, final); }
    }
  }

  /** A job list read through a lagging cache shows no deciding pair that is not there. */
  lemma ObservedDecides(seen: seq<Job>, jobs: seq<Job>, last: string)
    requires Observable(seen, jobs) && !SomeDecides(jobs, last)
    ensures !SomeDecides(seen, last)
  {
    forall i: nat, j: nat ensures !DecidingAt(seen, last, i, j) {
      if DecidingAt(seen, last, i, j) {
        assert ShowsOneOf(seen[i], jobs);
        var k :| 0 <= k < |jobs| && Shows(seen[i], jobs[k]);
        assert seen[i].conditions[j] in jobs[k].conditions;
        var l :| 0 <= l < |jobs[k].conditions| && jobs[k].conditions[l] == seen[i].conditions[j];
        assert DecidingAt(jobs, last, k, l);
      }
    }
  }

  /** Without a deciding pair a scan stores nothing, or repeats that an action is running. */
  lemma {:induction false} UndecidedScan(jobs: seq<Job>, last: string)
    requires !SomeDecides(jobs, last)
    ensures Scan(jobs, last) == Plan([], false)
         || (Scan(jobs, last).stops && |Scan(jobs, last).writes| == 1
             && Scan(jobs, last).writes[0].ctype.RunningAction?)
  {
    if jobs == [] {
    } else if jobs[0].active <= 0 {
      forall i: nat, j: nat ensures !DecidingAt(jobs[1..], last, i, j) {
        assert !DecidingAt(jobs, last, i + 1, j);
      }
      UndecidedScan(jobs[1..], last);
      forall j | 0 <= j < |jobs[0].conditions|
        ensures Decision(jobs[0].conditions[j], jobs[0].action == last).None?
      {
        assert !DecidingAt(jobs, last, 0, j);
      }
      JobWritesEmpty(jobs[0].conditions, jobs[0].action == last);
      assert Scan(jobs, last).writes == Scan(jobs[1..], last).writes;
    }
  }

  /** In a stranded run a listing of the jobs leads to nothing harmful. */
  lemma ListingIsHarmless(s: RunState, run: Snapshot, seen: seq<Job>, final: bool)
    requires HistoryInv(s) && Stranded(s, final) && Copy(s, run) && Observable(seen, s.jobs)
    ensures Harmless(s, Resume(run, s.actions, Scan(seen, LastAction(s.actions))))
  {
    NoneDecides(s.jobs, LastAction(s.actions), final);
    ObservedDecides(seen, s.jobs, LastAction(s.actions));
    UndecidedScan(seen, LastAction(s.actions));
  }

  /** What a harmless reconciler does next is harmless, and does not finish the run. */
  lemma AnswerIsHarmless(s: RunState, e: Event, final: bool)
    requires Inv(s) && Stranded(s, final) && e.Answer? && Enabled(s, e)
    ensures var s' := Apply(s, e);
            !IsFinished(Stored(s')) && (Live(s', e.pid) ==> Harmless(s', s'.procs[e.pid]))
  {
    var pc := s.procs[e.pid];
    assert ProcInv(s, e.pid, pc) && Harmless(s, pc);
    if pc.ReadJobs? && e.response.JobsFound? {
      ListingIsHarmless(s, pc.run, e.response.jobs, final);
    }
    if Repeats(pc) {
      assert [pc.plan.writes[0]][0].ctype.RunningAction?;
    }
  }

  lemma UndecidableStays(s: RunState, e: Event, final: bool)
    requires Inv(s) && LaunchOver(s) && s.actions != [] && Enabled(s, e) && Own(s, e, Apply(s, e), final)
    requires !SomeCanDecide(s.jobs, LastAction(s.actions), final)
    ensures !SomeCanDecide(Apply(s, e).jobs, LastAction(s.actions), final)
  {
    var s' := Apply(s, e);
    JobsGoOn(s, e, final);
    forall j | 0 <= j < |s'.jobs| ensures !CanDecide(s'.jobs[j], LastAction(s.actions), final) {
      JobGoesOn(s.jobs, s'.jobs, j, LastAction(s.actions), final);
    }
  }

  lemma StrandedStays(s: RunState, e: Event, final: bool)
    requires Inv(s) && Stranded(s, final) && Enabled(s, e) && Own(s, e, Apply(s, e), final)
    ensures Stranded(Apply(s, e), final)
  {
    var s' := Apply(s, e);
    LaunchOverStays(s, e);
    UndecidableStays(s, e, final);
    if e.Answer? {
      AnswerIsHarmless(s, e, final);
    }
    forall pid | Live(s', pid) ensures Harmless(s', s'.procs[pid]) {
      if !(e.Answer? && e.pid == pid) && pid in s.procs {
        assert ProcInv(s, pid, s.procs[pid]);
      }
    }
  }

  lemma StrandedStep(s: RunState, e: Event, final: bool)
    requires Inv(s) && Stranded(s, final) && Enabled(s, e) && Own(s, e, Apply(s, e), final)
    ensures Inv(Apply(s, e)) && Stranded(Apply(s, e), final)
  {
    StepKeeps(s, e);
    StrandedStays(s, e, final);
  }

  /** A stranded run stays stranded, and so unfinished, whatever its own jobs and the reconcilers do. */
  lemma {:induction false} StrandedForGood(states: seq<RunState>, events: seq<Event>, j: nat, final: bool)
    requires Execution(states, events) && j <= |events| && OwnJobs(states, events, j, final)
    requires Inv(states[0]) && Stranded(states[0], final)
    ensures Inv(states[j]) && Stranded(states[j], final)
  {
    if j == 0 {
    } else {
      OwnJobsButOne(states, events, j, final);
      StrandedForGood(states, events, j - 1, final);
      StrandedStep(states[j - 1], events[j - 1], final);
    }
  }

  lemma StrandedFrom(states: seq<RunState>, events: seq<Event>, i: nat, j: nat, final: bool)
    requires Execution(states, events) && i <= j <= |events| && OwnJobs(states, events, j, final)
    requires Inv(states[i]) && Stranded(states[i], final)
    ensures Stranded(states[j], final)
  {
    TailExecution(states, events, i, j, final);
    StrandedForGood(states[i..], events[i..], j - i, final);
  }

  /** In no execution from `s` with the run's own jobs is Finished ever stored. */
  ghost predicate NeverFinishes(s: RunState, final: bool) {
    forall states, events ::
      Execution(states, events) && states[0] == s && OwnJobs(states, events, |events|, final) ==>
        !IsFinished(Stored(states[|events|]))
  }
}
