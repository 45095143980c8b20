/**
  Exactly when a WorkflowRun can still succeed, and when it can still finish: the converse of module WorkflowStranded,
  by executions that lead there, and what it means for crashes during the launch and for claims that get lost.
 */
module WorkflowOutcome {
  import opened Wrappers
  import opened WorkflowReconcile
  import opened WorkflowRuns
  import opened WorkflowProgress
  import opened WorkflowStranded

  // ---------------------------------------------------------------------------------------------------------------
  // Executions that finish the run
  // ---------------------------------------------------------------------------------------------------------------

  ghost predicate GoodStep(s: RunState, e: Event, s': RunState, final: bool) {
    s.history != [] && Enabled(s, e) && s' == Apply(s, e) && Own(s, e, s', final)
  }

  ghost predicate GoodSteps(states: seq<RunState>, events: seq<Event>, final: bool) {
    && |states| == |events| + 1 && states[0].history != []
    && forall k {:trigger events[k]} :: 0 <= k < |events| ==> GoodStep(states[k], events[k], states[k + 1], final)
  }

  /** Some execution with the run's own jobs leads from `s` to `t`. */
  ghost predicate Path(s: RunState, t: RunState, final: bool) {
    exists states, events :: GoodSteps(states, events, final) && states[0] == s && states[|events|] == t
  }

  lemma GoodStepsIff(states: seq<RunState>, events: seq<Event>, final: bool)
    ensures GoodSteps(states, events, final) <==>
            Execution(states, events) && OwnJobs(states, events, |events|, final)
  {
    if GoodSteps(states, events, final) {
      forall i | 0 <= i < |states| ensures states[i].history != [] {
        if i > 0 { assert GoodStep(states[i - 1], events[i - 1], states[i], final); }
      }
    }
  }

  lemma PathStep(s: RunState, e: Event, final: bool)
    requires s.history != [] && Enabled(s, e) && Own(s, e, Apply(s, e), final)
    ensures Path(s, Apply(s, e), final)
  {
    assert GoodSteps([s, Apply(s, e)], [e], final);
  }

  lemma PathRefl(s: RunState, final: bool)
    requires s.history != []
    ensures Path(s, s, final)
  {
    assert GoodSteps([s], [], final);
  }

  lemma JoinedSteps(a: seq<RunState>, d: seq<Event>, b: seq<RunState>, e: seq<Event>, final: bool)
    requires GoodSteps(a, d, final) && GoodSteps(b, e, final) && a[|d|] == b[0]
    ensures GoodSteps(a + b[1..], d + e, final)
  {
    var states, events := a + b[1..], d + e;
    forall k {:trigger events[k]} | 0 <= k < |events| ensures GoodStep(states[k], events[k], states[k + 1], final) {
      if k < |d| {
        assert states[k] == a[k] && events[k] == d[k] && states[k + 1] == a[k + 1];
      } else {
        var l := k - |d|;
        assert states[k] == b[l] && events[k] == e[l] && states[k + 1] == b[l + 1];
      }
    }
  }

  lemma PathJoin(s: RunState, t: RunState, u: RunState, final: bool)
    requires Path(s, t, final) && Path(t, u, final)
    ensures Path(s, u, final)
  {
    var a, d :| GoodSteps(a, d, final) && a[0] == s && a[|d|] == t;
    var b, e :| GoodSteps(b, e, final) && b[0] == t && b[|e|] == u;
    JoinedSteps(a, d, b, e, final);
    assert (a + b[1..])[|d + e|] == u;
  }

  lemma NominalIsOwn(s: RunState, pid: nat, creates: Action -> Launch, final: bool)
    requires s.history != [] && Live(s, pid)
    ensures var e := Nominal(s, pid, creates); Own(s, e, Apply(s, e), final)
  {}

  lemma LeadsIsPath(s: RunState, t: RunState, pid: nat, creates: Action -> Launch, final: bool)
    requires Leads(s, t, pid, creates)
    ensures Path(s, t, final)
  {
    var states, events: seq<Event> :|
      AllNominal(states, events, pid, creates) && states[0] == s && states[|events|] == t;
    forall k {:trigger events[k]} | 0 <= k < |events| ensures Own(states[k], events[k], states[k + 1], final) {
      NominalIsOwn(states[k], pid, creates, final);
    }
    GoodStepsIff(states, events, final);
  }

  function NoJobs(): Action -> Launch { _ => Starts([]) }

  /** Reading the run, its Application and its Workflow up to date. */
  lemma ReadsLeadTo(s: RunState, pid: nat)
    requires s.history != [] && s.actions != [] && pid in s.procs && s.procs[pid] == ReadRun
    requires !IsFinished(Stored(s))
    ensures Leads(s, Moved(s, pid, ReadJobs(Fresh(s), s.actions)), pid, NoJobs())
  {
    var a, b := Moved(s, pid, ReadApplication(Fresh(s))), Moved(s, pid, ReadWorkflow(Fresh(s)));
    var t := Moved(s, pid, ReadJobs(Fresh(s), s.actions));
    LeadsNowhere(t, pid, NoJobs());
    assert Apply(b, Nominal(b, pid, NoJobs())) == Moved(b, pid, ReadJobs(Fresh(s), s.actions)) == t;
    LeadsOn(b, t, pid, NoJobs());
    ApplicationNext(a, pid, NoJobs());
    MovedTwice(s, pid, ReadApplication(Fresh(s)), ReadWorkflow(Fresh(s)));
    LeadsOn(a, t, pid, NoJobs());
    RunNext(s, pid, NoJobs());
    LeadsOn(s, t, pid, NoJobs());
  }

  /** Then listing some observable jobs. */
  lemma ListingStep(s: RunState, pid: nat, seen: seq<Job>, final: bool)
    requires s.history != [] && s.actions != [] && Observable(seen, s.jobs)
    ensures Path(Moved(s, pid, ReadJobs(Fresh(s), s.actions)),
                 Moved(s, pid, Resume(Fresh(s), s.actions, Scan(seen, LastAction(s.actions)))), final)
  {
    var r := Moved(s, pid, ReadJobs(Fresh(s), s.actions));
    var next := Resume(Fresh(s), s.actions, Scan(seen, LastAction(s.actions)));
    var e := Answer(pid, JobsFound(seen), NoEffect);
    MovedTwice(s, pid, ReadJobs(Fresh(s), s.actions), next);
    assert Apply(r, e) == Moved(r, pid, next);
    PathStep(r, e, final);
  }

  /** A Reconcile that reads up to date, but for some observable list of its jobs. */
  lemma ReadsPath(s: RunState, pid: nat, seen: seq<Job>, final: bool)
    requires s.history != [] && s.actions != [] && !Live(s, pid) && !IsFinished(Stored(s)) && Observable(seen, s.jobs)
    ensures Path(s, Moved(s, pid, Resume(Fresh(s), s.actions, Scan(seen, LastAction(s.actions)))), final)
  {
    var b := Moved(s, pid, ReadRun);
    var r := Moved(s, pid, ReadJobs(Fresh(s), s.actions));
    assert Apply(s, Begin(pid)) == b;
    PathStep(s, Begin(pid), final);
    ReadsLeadTo(b, pid);
    MovedTwice(s, pid, ReadRun, ReadJobs(Fresh(s), s.actions));
    LeadsIsPath(b, r, pid, NoJobs(), final);
    PathJoin(s, b, r, final);
    ListingStep(s, pid, seen, final);
    PathJoin(s, r, Moved(s, pid, Resume(Fresh(s), s.actions, Scan(seen, LastAction(s.actions)))), final);
  }

  /** Reconciler 0, if at work, crashes. */
  lemma MakeRoom(s: RunState, final: bool) returns (t: RunState)
    requires s.history != []
    ensures Path(s, t, final) && !Live(t, 0)
    ensures t.history == s.history && t.actions == s.actions && t.jobs == s.jobs
  {
    if Live(s, 0) {
      t := Apply(s, Crash(0));
      PathStep(s, Crash(0), final);
    } else {
      t := s;
      PathRefl(s, final);
    }
  }

  /** Job `i` gets condition `c`. */
  function Ending(jobs: seq<Job>, i: nat, c: JobCondition): seq<Job>
    requires i < |jobs|
  {
    jobs[i := jobs[i].(conditions := jobs[i].conditions + [c])]
  }

  /** A job ends, or has ended, with `c`. */
  lemma JobEnds(s: RunState, i: nat, c: JobCondition, final: bool)
    requires s.history != [] && i < |s.jobs|
    requires c in s.jobs[i].conditions || !(final && Over(s.jobs[i]))
    ensures Path(s, s.(jobs := Ending(s.jobs, i, c)), final)
  {
    var e := JobsChange(Ending(s.jobs, i, c));
    assert Grows(s.jobs, e.jobs);
    PathStep(s, e, final);
  }

  lemma ScanOfOne(job: Job, c: JobCondition, last: string)
    requires job.active == 0 && job.conditions == [c] && Decision(c, job.action == last).Some?
    ensures Scan([job], last) == Plan([Decision(c, job.action == last).value], false)
  {
    assert [job][1..] == [];
    assert JobWrites([c][1..], job.action == last) == [];
  }

  /** One condition that decides, seen alone and without active pods, is stored. */
  lemma DecidingJobIsStored(s: RunState, i: nat, j: nat, final: bool) returns (t: RunState)
    requires s.history != [] && s.actions != [] && !Live(s, 0) && !IsFinished(Stored(s))
    requires DecidingAt(s.jobs, LastAction(s.actions), i, j)
    ensures Path(s, t, final) && t.history != []
    ensures Stored(t)
         == [Decision(s.jobs[i].conditions[j], s.jobs[i].action == LastAction(s.actions)).value]
  {
    var last := LastAction(s.actions);
    var c := s.jobs[i].conditions[j];
    var seen := [Job(s.jobs[i].action, 0, [c])];
    assert Shows(seen[0], s.jobs[i]);
    var w := Decision(c, s.jobs[i].action == last).value;
    ScanOfOne(Job(s.jobs[i].action, 0, [c]), c, last);
    SingleHasType(w);
    var r := Moved(s, 0, Resume(Fresh(s), s.actions, Scan(seen, last)));
    ReadsPath(s, 0, seen, final);
    t := ScanLeads(r, 0, NoJobs(), Scan(seen, last));
    LeadsIsPath(r, t, 0, NoJobs(), final);
    PathJoin(s, r, t, final);
  }

  /** A job that decides, or can end so that it decides, can have its verdict stored. */
  lemma VerdictCanBeStored(s: RunState, i: nat, c: JobCondition, final: bool) returns (t: RunState)
    requires s.history != [] && s.actions != [] && !IsFinished(Stored(s)) && i < |s.jobs|
    requires Decision(c, s.jobs[i].action == LastAction(s.actions)).Some?
    requires c in s.jobs[i].conditions || !(final && Over(s.jobs[i]))
    ensures Path(s, t, final) && t.history != []
    ensures Stored(t) == [Decision(c, s.jobs[i].action == LastAction(s.actions)).value]
  {
    var r := MakeRoom(s, final);
    var u := r.(jobs := Ending(r.jobs, i, c));
    JobEnds(r, i, c, final);
    assert u.jobs[i].conditions[|s.jobs[i].conditions|] == c;
    t := DecidingJobIsStored(u, i, |s.jobs[i].conditions|, final);
    PathJoin(s, r, u, final);
    PathJoin(s, u, t, final);
  }

  lemma SuccessRefutes(s: RunState, t: RunState, final: bool)
    requires Path(s, t, final) && t.history != [] && Stored(t) == [Succeeded()]
    ensures !NeverSucceeds(s, final) && !NeverFinishes(s, final)
  {
    var states, events :| GoodSteps(states, events, final) && states[0] == s && states[|events|] == t;
    GoodStepsIff(states, events, final);
    assert Stored(t)[0] == Succeeded();
    SingleHasType(Succeeded());
  }

  // --- Starting actions ---

  /** An action creates one job, which completes. */
  function OneJob(name: string): Job { Job(name, 0, [Complete]) }
  function OneJobEach(): Action -> Launch { (a: Action) => Starts([OneJob(a.name)]) }

  /** The jobs of the actions so far. */
  function JobsOf(actions: seq<Action>): seq<Job> {
    seq(|actions|, i requires 0 <= i < |actions| => OneJob(actions[i].name))
  }

  /** One action more. */
  lemma ActionCreates(s: RunState, pid: nat, run: Snapshot, next: nat, base: seq<Job>)
    requires s.history != [] && next < |s.actions| && pid in s.procs
    requires s.procs[pid] == Launching(run, s.actions, next) && s.jobs == base + JobsOf(s.actions[..next])
    ensures Apply(s, Nominal(s, pid, OneJobEach())).jobs == base + JobsOf(s.actions[..next + 1])
  {
    assert Apply(s, Nominal(s, pid, OneJobEach())).jobs == s.jobs + [OneJob(s.actions[next].name)];
  }

  /** The launch from position `next` up to position `m`. */
  lemma {:induction false} PartialLaunch(s: RunState, pid: nat, run: Snapshot, next: nat, m: nat, base: seq<Job>)
    returns (u: RunState)
    requires s.history != [] && next <= m < |s.actions| && pid in s.procs
    requires s.procs[pid] == Launching(run, s.actions, next)
    requires s.jobs == base + JobsOf(s.actions[..next]) && s.started == s.actions[..next]
    ensures Leads(s, u, pid, OneJobEach()) && u.procs == s.procs[pid := Launching(run, s.actions, m)]
    ensures u.history == s.history && u.actions == s.actions
    ensures u.jobs == base + JobsOf(s.actions[..m]) && u.started == s.actions[..m]
    decreases m - next
  {
    if next == m {
      u := s;
      LeadsNowhere(s, pid, OneJobEach());
    } else {
      var s' := Apply(s, Nominal(s, pid, OneJobEach()));
      ActionNext(s, pid, OneJobEach(), run, next);
      ActionCreates(s, pid, run, next, base);
      assert s.actions[..next + 1] == s.actions[..next] + [s.actions[next]];
      u := PartialLaunch(s', pid, run, next + 1, m, base);
      LeadsOn(s, u, pid, OneJobEach());
    }
  }

  /** The launch of a run just claimed, up to position `m`. */
  lemma FirstActions(s: RunState, m: nat) returns (u: RunState)
    requires s.history != [] && m < |s.actions| && 0 in s.procs && s.procs[0] == Claiming(Fresh(s), s.actions)
    requires s.started == []
    ensures Leads(s, u, 0, OneJobEach())
    ensures u.history == s.history + [[Running("Running actions")]] && u.actions == s.actions
    ensures u.jobs == s.jobs + JobsOf(s.actions[..m]) && u.started == s.actions[..m]
    ensures u.procs == s.procs[0 := Launching(Fresh(u), s.actions, m)]
  {
    ClaimNext(s, 0, OneJobEach());
    var c := Apply(s, Nominal(s, 0, OneJobEach()));
    assert s.actions[..0] == [] && c.jobs == s.jobs + JobsOf([]);
    u := PartialLaunch(c, 0, Snapshot(|s.history|, [Running("Running actions")]), 0, m, s.jobs);
    LeadsOn(s, u, 0, OneJobEach());
  }

  /** An unclaimed run is claimed, and its first `m` actions are started. */
  lemma ClaimsAndLaunches(s: RunState, m: nat, final: bool) returns (u: RunState)
    requires s.history != [] && m < |s.actions| && !Live(s, 0) && Stored(s) == [] && s.started == []
    ensures Path(s, u, final)
    ensures u.history == s.history + [[Running("Running actions")]] && u.actions == s.actions
    ensures u.jobs == s.jobs + JobsOf(s.actions[..m]) && u.started == s.actions[..m]
    ensures u.procs == s.procs[0 := Launching(Fresh(u), s.actions, m)]
  {
    var r := Moved(s, 0, Claiming(Fresh(s), s.actions));
    ReadsPath(s, 0, [], final);
    assert Resume(Fresh(s), s.actions, Scan([], LastAction(s.actions))) == Claiming(Fresh(s), s.actions);
    u := FirstActions(r, m);
    assert r.procs[0 := Launching(Fresh(u), s.actions, m)] == s.procs[0 := Launching(Fresh(u), s.actions, m)];
    LeadsIsPath(r, u, 0, OneJobEach(), final);
    PathJoin(s, r, u, final);
  }

  // ---------------------------------------------------------------------------------------------------------------
  // Exactly when a run can succeed, and when it can finish
  // ---------------------------------------------------------------------------------------------------------------

  lemma ClaimIsUnfinished(s: RunState)
    requires s.history != [] && Stored(s) == [Running("Running actions")]
    ensures !IsFinished(Stored(s)) && IsRunning(Stored(s))
  {
    SingleHasType(Running("Running actions"));
    assert Stored(s)[0].ctype.RunningAction?;
  }

  /** An unclaimed run can be claimed and succeed. */
  lemma UnclaimedSucceeds(s: RunState, final: bool)
    requires s.history != [] && s.actions != [] && !Live(s, 0) && Stored(s) == [] && s.started == []
    ensures !NeverSucceeds(s, final) && !NeverFinishes(s, final)
  {
    var m := |s.actions| - 1;
    var u := ClaimsAndLaunches(s, m, final);
    var v := Apply(u, Nominal(u, 0, OneJobEach()));
    ActionNext(u, 0, OneJobEach(), Fresh(u), m);
    ActionCreates(u, 0, Fresh(u), m, s.jobs);
    NominalIsOwn(u, 0, OneJobEach(), final);
    PathStep(u, Nominal(u, 0, OneJobEach()), final);
    PathJoin(s, u, v, final);
    ClaimIsUnfinished(v);
    assert DecidingAt(v.jobs, LastAction(s.actions), |v.jobs| - 1, 0);
    var t := DecidingJobIsStored(v, |v.jobs| - 1, 0, final);
    PathJoin(s, v, t, final);
    SuccessRefutes(s, t, final);
  }

  /**
    Once the launch is over and while the run is unfinished: it can still succeed iff some job of the last action has
    completed or can still complete, whatever reconcilers are at work.
   */
  lemma LaunchedSucceedsIff(s: RunState, final: bool)
    requires Inv(s) && s.actions != [] && LaunchOver(s) && !IsFinished(Stored(s))
    ensures NeverSucceeds(s, final) <==> !SomeCanSucceed(s.jobs, LastAction(s.actions), final)
  {
    if SomeCanSucceed(s.jobs, LastAction(s.actions), final) {
      var i :| 0 <= i < |s.jobs| && CanSucceed(s.jobs[i], LastAction(s.actions), final);
      var t := VerdictCanBeStored(s, i, Complete, final);
      SuccessRefutes(s, t, final);
    } else {
      forall states, events | Execution(states, events) && states[0] == s && OwnJobs(states, events, |events|, final)
        ensures !SaysSuccess(Stored(states[|events|]))
      {
        DoomedForGood(states, events, |events|, final);
        DoomedSaysNoSuccess(states[|events|], final);
      }
    }
  }

  lemma {:induction false} SettledForGood(states: seq<RunState>, events: seq<Event>, j: nat)
    requires Execution(states, events) && j <= |events| && Inv(states[0]) && Settled(states[0])
    ensures Inv(states[j]) && Settled(states[j]) && Stored(states[j]) == Stored(states[0])
  {
    if j == 0 {
    } else {
      SettledForGood(states, events, j - 1);
      StepKeeps(states[j - 1], events[j - 1]);
      SettledStays(states[j - 1], events[j - 1]);
    }
  }

  /** A finished run stays as it finished. */
  lemma FinishedStays(s: RunState, final: bool)
    requires Inv(s) && IsFinished(Stored(s)) && forall q :: !Live(s, q)
    ensures NeverSucceeds(s, final) <==> !SaysSuccess(Stored(s))
    ensures !NeverFinishes(s, final)
  {
    forall states, events | Execution(states, events) && states[0] == s && OwnJobs(states, events, |events|, final)
      ensures Stored(states[|events|]) == Stored(s)
    {
      SettledForGood(states, events, |events|);
    }
    assert Execution([s], []) && OwnJobs([s], [], 0, final);
  }

  lemma UnfinishedSaysNoSuccess(cs: RunConditions)
    requires !IsFinished(cs)
    ensures !SaysSuccess(cs)
  {}

  lemma SomeCanSucceedIff(jobs: seq<Job>, last: string)
    ensures SomeCanSucceed(jobs, last, false) <==> HasJob(jobs, last)
  {
    if j :| 0 <= j < |jobs| && jobs[j].action == last { assert CanSucceed(jobs[j], last, false); }
  }

  /**
    Exactly when a run at which nobody is at work never succeeds: it has failed, or it is claimed and unfinished and no
    job of the last action has completed or can still complete.
   */
  lemma NeverSucceedsIff(s: RunState, final: bool)
    requires Inv(s) && s.actions != [] && forall q :: !Live(s, q)
    ensures NeverSucceeds(s, final) <==>
            && Stored(s) != [] && !SaysSuccess(Stored(s))
            && (IsFinished(Stored(s)) || !SomeCanSucceed(s.jobs, LastAction(s.actions), final))
    ensures !final ==> (SomeCanSucceed(s.jobs, LastAction(s.actions), final) <==> HasJob(s.jobs, LastAction(s.actions)))
  {
    if !final { SomeCanSucceedIff(s.jobs, LastAction(s.actions)); }
    if Stored(s) == [] {
      UnclaimedSucceeds(s, final);
    } else if IsFinished(Stored(s)) {
      FinishedStays(s, final);
    } else {
      LaunchedSucceedsIff(s, final);
      UnfinishedSaysNoSuccess(Stored(s));
    }
  }

  /** A job that can still decide can finish the run. */
  lemma DecidableFinishes(s: RunState, i: nat, final: bool)
    requires s.history != [] && s.actions != [] && !IsFinished(Stored(s)) && i < |s.jobs|
    requires CanDecide(s.jobs[i], LastAction(s.actions), final)
    ensures !NeverFinishes(s, final)
  {
    var job, last := s.jobs[i], LastAction(s.actions);
    var c := if final && Complete in job.conditions && job.action == last then Complete else Failed;
    var t := VerdictCanBeStored(s, i, c, final);
    SingleHasType(Decision(c, job.action == last).value);
    var states, events :| GoodSteps(states, events, final) && states[0] == s && states[|events|] == t;
    GoodStepsIff(states, events, final);
  }

  lemma StrandedNeverFinishes(s: RunState, final: bool)
    requires Inv(s) && Stranded(s, final)
    ensures NeverFinishes(s, final)
  {
    forall states, events | Execution(states, events) && states[0] == s && OwnJobs(states, events, |events|, final)
      ensures !IsFinished(Stored(states[|events|]))
    {
      StrandedForGood(states, events, |events|, final);
    }
  }

  /** Exactly when a run at which nobody is at work never finishes: it is claimed, unfinished, and no job can decide. */
  lemma NeverFinishesIff(s: RunState, final: bool)
    requires Inv(s) && s.actions != [] && forall q :: !Live(s, q)
    ensures NeverFinishes(s, final) <==>
            && Stored(s) != [] && !IsFinished(Stored(s))
            && !SomeCanDecide(s.jobs, LastAction(s.actions), final)
    ensures !final ==> (SomeCanDecide(s.jobs, LastAction(s.actions), final) <==> s.jobs != [])
  {
    assert !final && s.jobs != [] ==> CanDecide(s.jobs[0], LastAction(s.actions), final);
    if Stored(s) == [] {
      UnclaimedSucceeds(s, final);
    } else if IsFinished(Stored(s)) {
      FinishedStays(s, final);
    } else if SomeCanDecide(s.jobs, LastAction(s.actions), final) {
      var i :| 0 <= i < |s.jobs| && CanDecide(s.jobs[i], LastAction(s.actions), final);
      DecidableFinishes(s, i, final);
    } else {
      StrandedNeverFinishes(s, final);
    }
  }

  // ---------------------------------------------------------------------------------------------------------------
  // What crashes cost
  // ---------------------------------------------------------------------------------------------------------------

  /** Step `i` is the crash of a reconciler that is starting the actions. */
  ghost predicate LaunchCrash(states: seq<RunState>, events: seq<Event>, i: nat)
    requires Execution(states, events)
  {
    && i < |events| && events[i].Crash? && states[i].procs[events[i].pid].Launching?
    && states[0].actions != []
  }

  lemma CrashIsOver(states: seq<RunState>, events: seq<Event>, i: nat)
    requires Execution(states, events) && Initial(states[0]) && LaunchCrash(states, events, i)
    ensures Inv(states[i + 1]) && LaunchOver(states[i + 1])
    ensures states[i].actions == states[i + 1].actions == states[0].actions
  {
    Reachable(states, events, i);
    Reachable(states, events, i + 1);
    ActionsFixed(states, events, i);
    assert ProcInv(states[i], events[i].pid, states[i].procs[events[i].pid]);
    CrashEndsLaunch(states, events, i, i + 1);
  }

  /** Whether some job can succeed is decided by the actions that created jobs. */
  lemma JobsAt(states: seq<RunState>, events: seq<Event>, i: nat)
    requires Execution(states, events) && Initial(states[0]) && states[0].actions != [] && i <= |events|
    requires OwnJobs(states, events, i, false)
    ensures var last := LastAction(states[0].actions);
            SomeCanSucceed(states[i].jobs, last, false) <==> Created(states, events, i, last)
  {
    JobsComeFromActions(states, events, i, LastAction(states[0].actions));
    SomeCanSucceedIff(states[i].jobs, LastAction(states[0].actions));
  }

  /**
    Once the launch is over, crash or no crash, and while the run is unfinished: it can still succeed iff an action
    with the name of the last one has created a job, whatever reconcilers are at work.
   */
  lemma LaunchedIff(states: seq<RunState>, events: seq<Event>, i: nat)
    requires Execution(states, events) && Initial(states[0]) && states[0].actions != [] && i <= |events|
    requires OwnJobs(states, events, i, false) && LaunchOver(states[i]) && !IsFinished(Stored(states[i]))
    ensures NeverSucceeds(states[i], false) <==> !Created(states, events, i, LastAction(states[0].actions))
  {
    Reachable(states, events, i);
    ActionsFixed(states, events, i);
    JobsAt(states, events, i);
    LaunchedSucceedsIff(states[i], false);
  }

  /** After the crash of the only reconciler at work. */
  lemma NobodyLeft(s: RunState, pid: nat)
    requires Inv(s) && Live(s, pid) && s.procs[pid].Launching? && forall q :: Live(s, q) ==> q == pid
    ensures var s' := Apply(s, Crash(pid));
            Inv(s') && Stored(s') == Stored(s) != [] && forall q :: !Live(s', q)
  {
    StepKeeps(s, Crash(pid));
    assert ProcInv(s, pid, s.procs[pid]);
    forall q ensures !Live(Apply(s, Crash(pid)), q) {
      assert Live(Apply(s, Crash(pid)), q) ==> Live(s, q);
    }
  }

  /**
    Exactly what a crash during the launch costs, when nobody else is at work and no job comes from elsewhere: the run
    can never succeed any more iff it has failed already, or no action started before the crash that has the name of
    the last one created a job.
   */
  lemma LaunchCrashIff(states: seq<RunState>, events: seq<Event>, i: nat)
    requires Execution(states, events) && Initial(states[0]) && LaunchCrash(states, events, i)
    requires OwnJobs(states, events, i, false) && forall q :: Live(states[i], q) ==> q == events[i].pid
    ensures NeverSucceeds(states[i + 1], false) <==>
            && !SaysSuccess(Stored(states[i]))
            && (IsFinished(Stored(states[i])) || !Created(states, events, i, LastAction(states[0].actions)))
  {
    Reachable(states, events, i);
    ActionsFixed(states, events, i + 1);
    NobodyLeft(states[i], events[i].pid);
    JobsAt(states, events, i);
    NeverSucceedsIff(states[i + 1], false);
  }

  /** No job that can succeed is left by a crash before an action with the name of the last one is started. */
  lemma CrashDooms(states: seq<RunState>, events: seq<Event>, i: nat)
    requires Execution(states, events) && Initial(states[0]) && LaunchCrash(states, events, i)
    requires OwnJobs(states, events, i, false)
    requires !HasStarted(states[i].started, LastAction(states[0].actions))
    ensures Inv(states[i + 1]) && Doomed(states[i + 1], false)
  {
    var last := LastAction(states[0].actions);
    CrashIsOver(states, events, i);
    JobsAt(states, events, i);
    if Created(states, events, i, last) { CreatedIsStarted(states, events, i, last); }
  }

  /**
    In particular a run whose reconciler crashes before an action with the name of the last one is started never
    succeeds, whatever other reconcilers are at work.
   */
  lemma CrashPreventsSuccess(states: seq<RunState>, events: seq<Event>, i: nat, j: nat)
    requires Execution(states, events) && Initial(states[0]) && LaunchCrash(states, events, i) && i < j <= |events|
    requires OwnJobs(states, events, j, false)
    requires !HasStarted(states[i].started, LastAction(states[0].actions))
    ensures Doomed(states[j], false) && !SaysSuccess(Stored(states[j]))
  {
    assert OwnJobs(states, events, i, false);
    CrashDooms(states, events, i);
    DoomedFrom(states, events, i + 1, j, false);
  }

  /** A stored claim ends stranded if its reconciler crashes before the first action, or never learns of it. */
  lemma LostClaimStrands(s: RunState, e: Event, final: bool)
    requires Inv(s) && e.Answer? && Enabled(s, e) && e.effect.Write? && s.procs[e.pid].Claiming?
    requires !SomeCanDecide(s.jobs, LastAction(s.procs[e.pid].actions), final)
    ensures Stranded(if e.response.Updated? then Apply(Apply(s, e), Crash(e.pid)) else Apply(s, e), final)
  {
    ClaimKeeps(s, e);
    assert ProcInv(s, e.pid, s.procs[e.pid]);
    var s' := if e.response.Updated? then Apply(Apply(s, e), Crash(e.pid)) else Apply(s, e);
    assert [Running("Running actions")][0].ctype.RunningAction?;
    forall pid | Live(s', pid) ensures !s'.procs[pid].Launching? && Harmless(s', s'.procs[pid]) {
      assert ProcInv(s, pid, s.procs[pid]);
    }
  }

  /** Step `i` stores the claim, and step `i + 1` is the crash of its reconciler unless it never learns of it. */
  ghost predicate LosesClaim(states: seq<RunState>, events: seq<Event>, i: nat)
    requires Execution(states, events)
  {
    && i + 1 < |events| && events[i].Answer? && events[i].effect.Write? && states[i].procs[events[i].pid].Claiming?
    && (events[i].response.Updated? ==> events[i + 1] == Crash(events[i].pid))
  }

  lemma NoJobsYet(states: seq<RunState>, events: seq<Event>, i: nat)
    requires Execution(states, events) && Initial(states[0]) && i <= |events| && OwnJobs(states, events, i, false)
    requires states[i].started == []
    ensures states[i].jobs == []
  {
    if states[i].jobs != [] {
      var name := states[i].jobs[0].action;
      JobsComeFromActions(states, events, i, name);
      CreatedIsStarted(states, events, i, name);
    }
  }

  /** Where a claim gets lost. */
  lemma LosingClaim(states: seq<RunState>, events: seq<Event>, i: nat) returns (k: nat)
    requires Execution(states, events) && Initial(states[0]) && LosesClaim(states, events, i)
    requires OwnJobs(states, events, i, false)
    ensures i < k <= i + 2 && Inv(states[k]) && Stranded(states[k], false) && states[k].started == []
  {
    k := if events[i].response.Updated? then i + 2 else i + 1;
    Reachable(states, events, i);
    ClaimKeeps(states[i], events[i]);
    NoJobsYet(states, events, i);
    assert states[i + 2] == Apply(states[i + 1], events[i + 1]);
    LostClaimStrands(states[i], events[i], false);
    Reachable(states, events, k);
  }

  /**
    A lost claim leaves the run unfinished for good: without jobs from elsewhere nothing is ever started and nothing is
    ever decided, whatever other reconcilers are at work.
   */
  lemma LostClaimNeverFinishes(states: seq<RunState>, events: seq<Event>, i: nat, j: nat)
    requires Execution(states, events) && Initial(states[0]) && LosesClaim(states, events, i) && i + 2 <= j <= |events|
    requires OwnJobs(states, events, j, false)
    ensures Stranded(states[j], false) && states[j].started == [] && states[j].jobs == []
  {
    assert OwnJobs(states, events, i, false);
    var k := LosingClaim(states, events, i);
    LaunchOverForGood(states, events, k, j);
    StrandedFrom(states, events, k, j, false);
    assert states[j].jobs != [] ==> CanDecide(states[j].jobs[0], LastAction(states[j].actions), false);
  }

  // --- An execution ---

  /** A run nobody has looked at yet. */
  function NewRun(actions: seq<Action>): RunState { RunState(actions, [[]], [], map[], [], 0, None, None) }

  lemma OnlyCompleted(actions: seq<Action>, last: string)
    requires forall k :: 0 <= k < |actions| ==> actions[k].name != last
    ensures !SomeCanSucceed(JobsOf(actions), last, false) && !SomeCanDecide(JobsOf(actions), last, true)
  {}

  /**
    An execution that ends stranded: the reconciler claims the run and starts `n` of its actions, whose jobs complete,
    and crashes. The remaining actions are never started, and the run stays RunningAction.
   */
  lemma CrashedRun(actions: seq<Action>, n: nat) returns (states: seq<RunState>, events: seq<Event>)
    requires n < |actions| && forall k :: 0 <= k < n ==> actions[k].name != LastAction(actions)
    ensures Execution(states, events) && Initial(states[0]) && OwnJobs(states, events, |events|, true)
    ensures var s := states[|events|];
            && Stranded(s, true) && Doomed(s, false)
            && IsRunning(Stored(s)) && s.started == actions[..n] && forall q :: !Live(s, q)
  {
    var s := NewRun(actions);
    var u := ClaimsAndLaunches(s, n, true);
    var t := Apply(u, Crash(0));
    PathStep(u, Crash(0), true);
    PathJoin(s, u, t, true);
    OnlyCompleted(actions[..n], LastAction(actions));
    ClaimIsUnfinished(t);
    states, events :| GoodSteps(states, events, true) && states[0] == s && states[|events|] == t;
    GoodStepsIff(states, events, true);
    assert t.jobs == JobsOf(actions[..n]) && forall q :: !Live(t, q);
  }
}
