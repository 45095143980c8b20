/**
  What a Reconcile does when nothing disturbs it: its reads are up to date, its calls succeed, and nobody else is at
  work. It stores the verdict on the jobs, or claims the run and starts its actions; and it finishes the run exactly
  when a job decides and none is active.
 */
module WorkflowProgress {
  import opened Conditions
  import opened WorkflowReconcile
  import opened WorkflowRuns
  import opened WorkflowCalls

  /** What becomes of a call of RunAction: the action starts or fails, either way after creating some jobs. */
  datatype Launch = Starts(jobs: seq<Job>) | Fails(jobs: seq<Job>)

  /** The jobs an action creates carry its label. */
  function Labelled(a: Action, jobs: seq<Job>): (r: seq<Job>)
    ensures |r| == |jobs| && forall i :: 0 <= i < |r| ==> r[i] == jobs[i].(action := a.name)
  {
    seq(|jobs|, i requires 0 <= i < |jobs| => jobs[i].(action := a.name))
  }

  /** The answer to the pending call when reads are up to date and no call fails but those that `creates` says fail. */
  ghost function Nominal(s: RunState, pid: nat, creates: Action -> Launch): Event
    requires s.history != [] && Live(s, pid)
  {
    match Requested(s.procs[pid])
    case GetRun => Answer(pid, RunFound(Snapshot(Current(s), Stored(s))), NoEffect)
    case GetApplication => Answer(pid, ApplicationFound, NoEffect)
    case GetWorkflow => Answer(pid, WorkflowFound(s.actions), NoEffect)
    case ListJobs => Answer(pid, JobsFound(s.jobs), NoEffect)
    case UpdateStatus(_, _) => Answer(pid, Updated(|s.history|), Write)
    case RunAction(a) =>
      Answer(pid, if creates(a).Starts? then ActionStarted else Failure,
             JobsNow(s.jobs + Labelled(a, creates(a).jobs)))
  }

  /** An execution in which every step is the undisturbed call of reconciler `pid`. */
  ghost predicate AllNominal(states: seq<RunState>, events: seq<Event>, pid: nat, creates: Action -> Launch) {
    && Execution(states, events)
    && forall i {:trigger events[i]} :: 0 <= i < |events| ==>
         Live(states[i], pid) && events[i] == Nominal(states[i], pid, creates)
  }

  /** Undisturbed calls of reconciler `pid` lead from `s` to `t`. */
  ghost predicate Leads(s: RunState, t: RunState, pid: nat, creates: Action -> Launch) {
    exists states, events ::
      AllNominal(states, events, pid, creates) && states[0] == s && states[|events|] == t
  }

  lemma LeadsNowhere(s: RunState, pid: nat, creates: Action -> Launch)
    requires s.history != []
    ensures Leads(s, s, pid, creates)
  {
    assert AllNominal([s], [], pid, creates);
  }

  lemma NominalInFront(s: RunState, states: seq<RunState>, events: seq<Event>, pid: nat, creates: Action -> Launch)
    requires s.history != [] && Live(s, pid) && Enabled(s, Nominal(s, pid, creates))
    requires AllNominal(states, events, pid, creates) && states[0] == Apply(s, Nominal(s, pid, creates))
    ensures AllNominal([s] + states, [Nominal(s, pid, creates)] + events, pid, creates)
  {
    var e := Nominal(s, pid, creates);
    forall i | 0 <= i < |[e] + events|
      ensures Enabled(([s] + states)[i], ([e] + events)[i])
      ensures ([s] + states)[i + 1] == Apply(([s] + states)[i], ([e] + events)[i])
      ensures Live(([s] + states)[i], pid) && ([e] + events)[i] == Nominal(([s] + states)[i], pid, creates)
    {
      if i > 0 { assert ([e] + events)[i] == events[i - 1]; }
    }
  }

  /** One more call in front. */
  lemma LeadsOn(s: RunState, t: RunState, pid: nat, creates: Action -> Launch)
    requires s.history != [] && Live(s, pid) && Enabled(s, Nominal(s, pid, creates))
    requires Leads(Apply(s, Nominal(s, pid, creates)), t, pid, creates)
    ensures Leads(s, t, pid, creates)
  {
    var e := Nominal(s, pid, creates);
    var states, events :|
      AllNominal(states, events, pid, creates) && states[0] == Apply(s, e) && states[|events|] == t;
    NominalInFront(s, states, events, pid, creates);
    assert ([s] + states)[|[e] + events|] == t;
  }

  lemma {:induction false} SameSteps(a: seq<RunState>, b: seq<RunState>, d: seq<Event>, e: seq<Event>, pid: nat,
                                     creates: Action -> Launch, k: nat)
    requires AllNominal(a, d, pid, creates) && AllNominal(b, e, pid, creates) && a[0] == b[0]
    requires k <= |d| && k <= |e|
    ensures a[k] == b[k]
  {
    if k == 0 {
    } else {
      SameSteps(a, b, d, e, pid, creates, k - 1);
      assert d[k - 1] == e[k - 1];
    }
  }

  lemma LiveBefore(states: seq<RunState>, events: seq<Event>, pid: nat, creates: Action -> Launch, k: nat)
    requires AllNominal(states, events, pid, creates)
    ensures k < |events| ==> Live(states[k], pid)
  {
    if k < |events| { assert events[k] == Nominal(states[k], pid, creates); }
  }

  /** Undisturbed calls have one end. */
  lemma LeadsToOne(s: RunState, t: RunState, u: RunState, pid: nat, creates: Action -> Launch)
    requires Leads(s, t, pid, creates) && Leads(s, u, pid, creates) && !Live(t, pid) && !Live(u, pid)
    ensures t == u
  {
    var a, d :| AllNominal(a, d, pid, creates) && a[0] == s && a[|d|] == t;
    var b, e :| AllNominal(b, e, pid, creates) && b[0] == s && b[|e|] == u;
    if |d| <= |e| {
      LiveBefore(b, e, pid, creates, |d|);
      SameSteps(a, b, d, e, pid, creates, |d|);
    } else {
      LiveBefore(a, d, pid, creates, |e|);
      SameSteps(a, b, d, e, pid, creates, |e|);
    }
  }

  // --- The reads ---

  /** The up-to-date copy of the run. */
  function Fresh(s: RunState): Snapshot
    requires s.history != []
  {
    Snapshot(Current(s), Stored(s))
  }

  /** Where the reads of an undisturbed Reconcile lead. */
  ghost function AfterReads(s: RunState): Pc
    requires s.history != [] && s.actions != []
  {
    if IsFinished(Stored(s)) then Done(Success)
    else Resume(Fresh(s), s.actions, Scan(s.jobs, LastAction(s.actions)))
  }

  /** Reconciler `pid` moves on to `pc`. */
  function Moved(s: RunState, pid: nat, pc: Pc): RunState { s.(procs := s.procs[pid := pc]) }

  lemma MovedTwice(s: RunState, pid: nat, pc: Pc, next: Pc)
    ensures Moved(Moved(s, pid, pc), pid, next) == Moved(s, pid, next)
  {}

  lemma JobsObservable(jobs: seq<Job>)
    ensures Observable(jobs, jobs)
  {
    forall i | 0 <= i < |jobs| ensures ShowsOneOf(jobs[i], jobs) {
      assert Shows(jobs[i], jobs[i]);
    }
  }

  lemma JobsLead(s: RunState, t: RunState, pid: nat, creates: Action -> Launch)
    requires s.history != [] && s.actions != [] && pid in s.procs && s.procs[pid] == ReadJobs(Fresh(s), s.actions)
    requires !IsFinished(Stored(s)) && Leads(Moved(s, pid, AfterReads(s)), t, pid, creates)
    ensures Leads(s, t, pid, creates)
  {
    JobsObservable(s.jobs);
    assert Apply(s, Nominal(s, pid, creates)) == Moved(s, pid, AfterReads(s));
    LeadsOn(s, t, pid, creates);
  }

  lemma WorkflowLeads(s: RunState, t: RunState, pid: nat, creates: Action -> Launch)
    requires s.history != [] && s.actions != [] && pid in s.procs && s.procs[pid] == ReadWorkflow(Fresh(s))
    requires Leads(Moved(s, pid, AfterReads(s)), t, pid, creates)
    ensures Leads(s, t, pid, creates)
  {
    var pc := if IsFinished(Stored(s)) then Done(Success) else ReadJobs(Fresh(s), s.actions);
    assert Apply(s, Nominal(s, pid, creates)) == Moved(s, pid, pc);
    if !IsFinished(Stored(s)) {
      MovedTwice(s, pid, pc, AfterReads(s));
      JobsLead(Moved(s, pid, pc), t, pid, creates);
    }
    LeadsOn(s, t, pid, creates);
  }

  /** Where the reads lead does not depend on how far they have got. */
  lemma SameAfterReads(s: RunState, pid: nat, pc: Pc)
    requires s.history != [] && s.actions != []
    ensures AfterReads(Moved(s, pid, pc)) == AfterReads(s) && Fresh(Moved(s, pid, pc)) == Fresh(s)
    ensures Moved(Moved(s, pid, pc), pid, AfterReads(s)) == Moved(s, pid, AfterReads(s))
  {}

  lemma ApplicationNext(s: RunState, pid: nat, creates: Action -> Launch)
    requires s.history != [] && pid in s.procs && s.procs[pid] == ReadApplication(Fresh(s))
    ensures Enabled(s, Nominal(s, pid, creates))
    ensures Apply(s, Nominal(s, pid, creates)) == Moved(s, pid, ReadWorkflow(Fresh(s)))
  {}

  lemma ApplicationLeads(s: RunState, t: RunState, pid: nat, creates: Action -> Launch)
    requires s.history != [] && s.actions != [] && pid in s.procs && s.procs[pid] == ReadApplication(Fresh(s))
    requires Leads(Moved(s, pid, AfterReads(s)), t, pid, creates)
    ensures Leads(s, t, pid, creates)
  {
    SameAfterReads(s, pid, ReadWorkflow(Fresh(s)));
    WorkflowLeads(Moved(s, pid, ReadWorkflow(Fresh(s))), t, pid, creates);
    ApplicationNext(s, pid, creates);
    LeadsOn(s, t, pid, creates);
  }

  lemma RunNext(s: RunState, pid: nat, creates: Action -> Launch)
    requires s.history != [] && pid in s.procs && s.procs[pid] == ReadRun
    ensures Enabled(s, Nominal(s, pid, creates))
    ensures Apply(s, Nominal(s, pid, creates)) == Moved(s, pid, ReadApplication(Fresh(s)))
  {}

  /** The four reads, each answered up to date. */
  lemma ReadsLead(s: RunState, t: RunState, pid: nat, creates: Action -> Launch)
    requires s.history != [] && s.actions != [] && pid in s.procs && s.procs[pid] == ReadRun
    requires Leads(Moved(s, pid, AfterReads(s)), t, pid, creates)
    ensures Leads(s, t, pid, creates)
  {
    SameAfterReads(s, pid, ReadApplication(Fresh(s)));
    ApplicationLeads(Moved(s, pid, ReadApplication(Fresh(s))), t, pid, creates);
    RunNext(s, pid, creates);
    LeadsOn(s, t, pid, creates);
  }

  // --- The scan ---

  predicate IsOver(t: RunState, pid: nat) { pid in t.procs && t.procs[pid] == Done(Success) }

  /** The state after one write of the scan. */
  lemma WriteNext(s: RunState, pid: nat, creates: Action -> Launch, plan: Plan)
    requires s.history != [] && s.actions != [] && plan.writes != []
    requires pid in s.procs && s.procs[pid] == Scanning(Fresh(s), s.actions, plan)
    ensures Enabled(s, Nominal(s, pid, creates))
    ensures var s' := Apply(s, Nominal(s, pid, creates));
            && s'.history == s.history + [[plan.writes[0]]]
            && s'.actions == s.actions && s'.started == s.started && pid in s'.procs
            && s'.procs[pid] == Resume(Fresh(s'), s.actions, plan.(writes := plan.writes[1..]))
  {}

  /** The writes of a scan, one after the other; after the last one either the scan stops or the run is finished. */
  lemma {:induction false} ScanLeads(s: RunState, pid: nat, creates: Action -> Launch, plan: Plan)
    returns (t: RunState)
    requires s.history != [] && s.actions != [] && pid in s.procs
    requires s.procs[pid] == Resume(Fresh(s), s.actions, plan)
    requires plan.stops || IsFinished(Left(Stored(s), plan.writes))
    ensures Leads(s, t, pid, creates) && IsOver(t, pid) && t.history != []
    ensures |t.history| == |s.history| + |plan.writes| && Stored(t) == Left(Stored(s), plan.writes)
    ensures t.started == s.started
    decreases |plan.writes|
  {
    if plan.writes == [] {
      t := s;
      LeadsNowhere(s, pid, creates);
    } else {
      var rest := plan.(writes := plan.writes[1..]);
      var s' := Apply(s, Nominal(s, pid, creates));
      assert plan.writes == [plan.writes[0]] + rest.writes;
      LeftConcat(Stored(s), [plan.writes[0]], rest.writes);
      WriteNext(s, pid, creates, plan);
      t := ScanLeads(s', pid, creates, rest);
      LeadsOn(s, t, pid, creates);
    }
  }

  lemma SingleHasType(c: RunCondition)
    ensures HasType([c], c.ctype)
  {
    assert [c][0].ctype == c.ctype;
  }

  /** Without an active job the verdict on jobs that decide is a Finished condition. */
  lemma DecidedIsFinished(jobs: seq<Job>, last: string, before: RunConditions)
    requires !QuietJobs(jobs, last) && !Scan(jobs, last).stops
    ensures IsFinished(Left(before, Scan(jobs, last).writes))
  {
    ExactVerdict(jobs, last, before);
    forall i: nat ensures !ActiveAt(jobs, i) {}
    var i: nat, j: nat :| DecidingAt(jobs, last, i, j);
    var a, b := LastDecidingExists(jobs, last, i, j);
    VerdictDecided(jobs, last, a, b, before);
    SingleHasType(Decision(jobs[a].conditions[b], jobs[a].action == last).value);
  }

  // --- The launch ---

  lemma ActionNext(s: RunState, pid: nat, creates: Action -> Launch, run: Snapshot, next: nat)
    requires s.history != [] && next < |s.actions| && pid in s.procs
    requires s.procs[pid] == Launching(run, s.actions, next) && creates(s.actions[next]).Starts?
    ensures Enabled(s, Nominal(s, pid, creates))
    ensures var s' := Apply(s, Nominal(s, pid, creates));
            && s'.history == s.history && s'.actions == s.actions && s'.started == s.started + [s.actions[next]]
            && pid in s'.procs
            && s'.procs[pid] == if next + 1 < |s.actions| then Launching(run, s.actions, next + 1) else Done(Success)
  {}

  /** The first action that fails is the one at position `k`. */
  predicate FailsAt(actions: seq<Action>, creates: Action -> Launch, k: nat) {
    k < |actions| && creates(actions[k]).Fails? && forall j :: 0 <= j < k ==> creates(actions[j]).Starts?
  }

  predicate AllStart(actions: seq<Action>, creates: Action -> Launch) {
    forall j :: 0 <= j < |actions| ==> creates(actions[j]).Starts?
  }

  lemma SomeFailsFirst(actions: seq<Action>, creates: Action -> Launch) returns (k: nat)
    requires !AllStart(actions, creates)
    ensures FailsAt(actions, creates, k)
  {
    k := 0;
    while creates(actions[k]).Starts?
      invariant k < |actions| && forall j :: 0 <= j < k ==> creates(actions[j]).Starts?
      decreases |actions| - k
    {
      assert k + 1 == |actions| ==> AllStart(actions, creates);
      k := k + 1;
    }
  }

  /** An action fails to start, and this is stored. */
  lemma FailureLeads(s: RunState, pid: nat, creates: Action -> Launch, next: nat) returns (t: RunState)
    requires s.history != [] && next < |s.actions| && pid in s.procs
    requires s.procs[pid] == Launching(Fresh(s), s.actions, next) && creates(s.actions[next]).Fails?
    ensures Leads(s, t, pid, creates) && IsOver(t, pid)
    ensures t.history == s.history + [[LAUNCH_FAILURE]] && t.started == s.started + [s.actions[next]]
  {
    var r := Apply(s, Nominal(s, pid, creates));
    assert r.procs[pid] == RecordingFailure(Fresh(s)) && r.history == s.history;
    t := Apply(r, Nominal(r, pid, creates));
    LeadsNowhere(t, pid, creates);
    LeadsOn(r, t, pid, creates);
    LeadsOn(s, t, pid, creates);
  }

  /** The actions from position `next` on, up to the one at `k`, which is the first to fail. */
  lemma {:induction false} FailingLaunchLeads(s: RunState, pid: nat, creates: Action -> Launch, next: nat, k: nat)
    returns (t: RunState)
    requires s.history != [] && next <= k < |s.actions| && pid in s.procs && FailsAt(s.actions, creates, k)
    requires s.procs[pid] == Launching(Fresh(s), s.actions, next)
    ensures Leads(s, t, pid, creates) && IsOver(t, pid)
    ensures t.history == s.history + [[LAUNCH_FAILURE]] && t.started == s.started + s.actions[next..k + 1]
    decreases k - next
  {
    assert s.actions[next..k + 1] == [s.actions[next]] + s.actions[next + 1..k + 1];
    if next == k {
      t := FailureLeads(s, pid, creates, next);
    } else {
      var s' := Apply(s, Nominal(s, pid, creates));
      ActionNext(s, pid, creates, Fresh(s), next);
      t := FailingLaunchLeads(s', pid, creates, next + 1, k);
      LeadsOn(s, t, pid, creates);
    }
  }

  /** The actions from position `next` on, one after the other. */
  lemma {:induction false} LaunchLeads(s: RunState, pid: nat, creates: Action -> Launch, run: Snapshot, next: nat)
    returns (t: RunState)
    requires s.history != [] && next < |s.actions| && pid in s.procs
    requires s.procs[pid] == Launching(run, s.actions, next) && AllStart(s.actions, creates)
    ensures Leads(s, t, pid, creates) && IsOver(t, pid)
    ensures t.history == s.history && t.started == s.started + s.actions[next..]
    decreases |s.actions| - next
  {
    var s' := Apply(s, Nominal(s, pid, creates));
    ActionNext(s, pid, creates, run, next);
    assert s.actions[next..] == [s.actions[next]] + s.actions[next + 1..];
    if next + 1 == |s.actions| {
      t := s';
      LeadsNowhere(t, pid, creates);
      LeadsOn(s, t, pid, creates);
    } else {
      t := LaunchLeads(s', pid, creates, run, next + 1);
      LeadsOn(s, t, pid, creates);
    }
  }

  /** The claim is stored. */
  lemma ClaimNext(s: RunState, pid: nat, creates: Action -> Launch)
    requires s.history != [] && s.actions != [] && pid in s.procs && s.procs[pid] == Claiming(Fresh(s), s.actions)
    ensures Enabled(s, Nominal(s, pid, creates))
    ensures var s' := Apply(s, Nominal(s, pid, creates));
            && pid in s'.procs
            && s'.procs[pid] == Launching(Snapshot(|s.history|, [Running("Running actions")]), s.actions, 0)
            && s'.history == s.history + [[Running("Running actions")]]
            && s'.actions == s.actions && s'.started == s.started
  {}

  /** What a launch leaves: all actions started, or those up to the first that fails, and the failure stored. */
  ghost predicate Launched(s: RunState, t: RunState, creates: Action -> Launch) {
    && (AllStart(s.actions, creates) ==> t.history == s.history + [[CLAIM]] && t.started == s.actions)
    && forall k: nat :: FailsAt(s.actions, creates, k) ==>
         t.history == s.history + [[CLAIM], [LAUNCH_FAILURE]] && t.started == s.actions[..k + 1]
  }

  lemma ClaimLeads(s: RunState, pid: nat, creates: Action -> Launch) returns (t: RunState)
    requires s.history != [] && s.actions != [] && pid in s.procs && s.procs[pid] == Claiming(Fresh(s), s.actions)
    requires s.started == []
    ensures Leads(s, t, pid, creates) && IsOver(t, pid) && t.history != [] && Launched(s, t, creates)
  {
    ClaimNext(s, pid, creates);
    var c := Apply(s, Nominal(s, pid, creates));
    if AllStart(s.actions, creates) {
      t := LaunchLeads(c, pid, creates, Fresh(c), 0);
      assert s.actions[0..] == s.actions;
    } else {
      var k := SomeFailsFirst(s.actions, creates);
      t := FailingLaunchLeads(c, pid, creates, 0, k);
      assert t.history == s.history + [[CLAIM], [LAUNCH_FAILURE]] && s.actions[0..k + 1] == s.actions[..k + 1];
    }
    LeadsOn(s, t, pid, creates);
  }

  // --- The whole Reconcile ---

  /** What an undisturbed Reconcile does to the store. */
  ghost predicate DoesItsWork(s: RunState, t: RunState, creates: Action -> Launch)
    requires s.history != [] && s.actions != []
  {
    var last := LastAction(s.actions);
    if IsFinished(Stored(s)) || (IsRunning(Stored(s)) && QuietJobs(s.jobs, last)) then
      t.history == s.history && t.started == s.started
    else if !QuietJobs(s.jobs, last) then
      |t.history| > |s.history| && Stored(t) == Verdict(s.jobs, last, Stored(s)) && t.started == s.started
    else
      Stored(s) == [] && s.started == [] && Launched(s, t, creates)
  }

  /** The Reconcile from the end of its reads on. */
  lemma RestLeads(s: RunState, pid: nat, creates: Action -> Launch) returns (t: RunState)
    requires s.history != [] && s.actions != [] && pid in s.procs && s.procs[pid] == AfterReads(s)
    requires SoundList(s, Stored(s)) && LaunchInv(s)
    ensures Leads(s, t, pid, creates) && IsOver(t, pid) && t.history != [] && DoesItsWork(s, t, creates)
  {
    var last := LastAction(s.actions);
    ListFacts(s, Stored(s));
    ScanEmptyIff(s.jobs, last);
    if IsFinished(Stored(s)) || (IsRunning(Stored(s)) && QuietJobs(s.jobs, last)) {
      if !IsFinished(Stored(s)) { VerdictUndecided(s.jobs, last); }
      t := s;
      LeadsNowhere(s, pid, creates);
    } else if !QuietJobs(s.jobs, last) {
      if !Scan(s.jobs, last).stops { DecidedIsFinished(s.jobs, last, Stored(s)); }
      t := ScanLeads(s, pid, creates, Scan(s.jobs, last));
      ExactVerdict(s.jobs, last, Stored(s));
    } else {
      VerdictUndecided(s.jobs, last);
      t := ClaimLeads(s, pid, creates);
    }
  }

  ghost predicate SomeActive(jobs: seq<Job>) { exists i: nat :: ActiveAt(jobs, i) }

  ghost predicate SomeDecides(jobs: seq<Job>, last: string) { exists i: nat, j: nat :: DecidingAt(jobs, last, i, j) }

  /** An active job is what the verdict says; otherwise a deciding one makes it Finished. */
  lemma VerdictFinishesIff(jobs: seq<Job>, last: string, before: RunConditions)
    requires !QuietJobs(jobs, last)
    ensures IsFinished(Verdict(jobs, last, before)) <==> !SomeActive(jobs) && SomeDecides(jobs, last)
  {
    ExactVerdict(jobs, last, before);
    if i: nat :| ActiveAt(jobs, i) {
      FirstActiveExists(jobs, i + 1);
      var first: nat :| FirstActiveAt(jobs, first);
      VerdictActive(jobs, last, first, before);
    } else {
      NeverStops(jobs, last);
      DecidedIsFinished(jobs, last, before);
    }
  }

  /** Exactly when the work changes what is stored, or starts an action. */
  lemma WorkIsProgress(s: RunState, t: RunState, creates: Action -> Launch)
    requires s.history != [] && t.history != [] && s.actions != [] && DoesItsWork(s, t, creates)
    requires SoundList(s, Stored(s))
    ensures Stored(t) != Stored(s) || t.started != s.started <==>
            && !IsFinished(Stored(s))
            && (Stored(s) == [] || Verdict(s.jobs, LastAction(s.actions), Stored(s)) != Stored(s))
  {
    var last := LastAction(s.actions);
    ListFacts(s, Stored(s));
    ExactVerdict(s.jobs, last, Stored(s));
    ScanEmptyIff(s.jobs, last);
    if !AllStart(s.actions, creates) { var k := SomeFailsFirst(s.actions, creates); }
  }

  /** Exactly when the work leaves the run finished. */
  lemma WorkFinishesIff(s: RunState, t: RunState, creates: Action -> Launch)
    requires s.history != [] && t.history != [] && s.actions != [] && DoesItsWork(s, t, creates)
    ensures IsFinished(Stored(t)) <==>
            || IsFinished(Stored(s)) || (!SomeActive(s.jobs) && SomeDecides(s.jobs, LastAction(s.actions)))
            || (Stored(s) == [] && QuietJobs(s.jobs, LastAction(s.actions)) && !AllStart(s.actions, creates))
  {
    var last := LastAction(s.actions);
    if !QuietJobs(s.jobs, last) {
      VerdictFinishesIff(s.jobs, last, Stored(s));
    } else if Stored(s) == [] {
      SingleHasType(CLAIM);
      SingleHasType(LAUNCH_FAILURE);
      if !AllStart(s.actions, creates) { var k := SomeFailsFirst(s.actions, creates); }
    }
  }

  lemma MovedIsSound(s: RunState, pid: nat, pc: Pc)
    requires s.history != [] && SoundList(s, Stored(s)) && LaunchInv(s)
    ensures var r := Moved(s, pid, pc); SoundList(r, Stored(r)) && LaunchInv(r)
  {
    GrowsRefl(s.jobs);
    SoundStays(s, Moved(s, pid, pc));
  }

  /**
    Progress: in a state without reconcilers at work, an undisturbed Reconcile stores the verdict if a job is active or
    decides, and otherwise claims an unclaimed run and starts its actions: all of them, or those up to the first that
    fails, which is then stored. It changes the stored conditions or starts an action iff the run is not finished and
    either unclaimed or stored with another verdict. It leaves the run finished iff the run was finished, or a job
    decides and none is active, or an action of the launch fails.
   */
  lemma UndisturbedReconcile(s: RunState, pid: nat, creates: Action -> Launch) returns (t: RunState)
    requires Inv(s) && s.actions != [] && forall q :: !Live(s, q)
    ensures Leads(Apply(s, Begin(pid)), t, pid, creates) && IsOver(t, pid) && t.history != []
    ensures DoesItsWork(s, t, creates)
    ensures Stored(t) != Stored(s) || t.started != s.started <==>
            && !IsFinished(Stored(s))
            && (Stored(s) == [] || Verdict(s.jobs, LastAction(s.actions), Stored(s)) != Stored(s))
    ensures IsFinished(Stored(t)) <==>
            || IsFinished(Stored(s)) || (!SomeActive(s.jobs) && SomeDecides(s.jobs, LastAction(s.actions)))
            || (Stored(s) == [] && QuietJobs(s.jobs, LastAction(s.actions)) && !AllStart(s.actions, creates))
  {
    var b := Moved(s, pid, ReadRun);
    var r := Moved(b, pid, AfterReads(b));
    assert SoundList(s, Stored(s));
    MovedIsSound(s, pid, ReadRun);
    MovedIsSound(b, pid, AfterReads(b));
    t := RestLeads(r, pid, creates);
    ReadsLead(b, t, pid, creates);
    assert DoesItsWork(s, t, creates);
    WorkIsProgress(s, t, creates);
    WorkFinishesIff(s, t, creates);
  }
}
