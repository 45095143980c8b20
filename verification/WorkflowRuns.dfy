/**
  One WorkflowRun in the API store, with any number of Workflow reconcilers working on it at once.

  The resource version of the run is its position in the history of stored condition lists. A read may return any
  past version (a lagging cache), a status write succeeds only at the current version, its response may be lost,
  other writers may bump the version, child jobs change on their own, and a reconciler may crash between any two
  calls. Reconcilers follow the protocol of module WorkflowReconcile.
 */
module WorkflowRuns {
  import opened Wrappers
  import opened Conditions
  import opened WorkflowReconcile

  datatype RunState = RunState(
    actions: seq<Action>,          // the Workflow's action list, fixed during the run
    history: seq<RunConditions>,   // stored condition lists; the index is the resource version
    jobs: seq<Job>,                // child jobs
    procs: map<nat, Pc>,           // reconcilers
    started: seq<Action>,          // every action RunAction was called for, in order
    launches: nat,                 // how often RunActions was entered
    launcher: Option<nat>,         // who entered it last
    writer: Option<nat>            // who stored conditions last
  )

  function Current(s: RunState): int { |s.history| - 1 }

  function Stored(s: RunState): RunConditions
    requires s.history != []
  {
    s.history[|s.history| - 1]
  }

  predicate Initial(s: RunState) {
    s.history == [[]] && s.jobs == [] && s.procs == map[] && s.started == [] && s.launches == 0
    && s.launcher.None? && s.writer.None?
  }

  /** `seen` is `job` as it was at some earlier time. */
  ghost predicate Shows(seen: Job, job: Job) {
    seen.action == job.action && forall c :: c in seen.conditions ==> c in job.conditions
  }

  /** Jobs are only added, keep their label, and keep the conditions they have. */
  ghost predicate Grows(jobs: seq<Job>, jobs': seq<Job>) {
    && |jobs| <= |jobs'|
    && forall i :: 0 <= i < |jobs| ==> Shows(jobs[i], jobs'[i])
  }

  /** The jobs that are new carry the label of the action that creates them (action.go:98-101). */
  ghost predicate Labels(jobs: seq<Job>, jobs': seq<Job>, name: string) {
    forall i :: |jobs| <= i < |jobs'| ==> jobs'[i].action == name
  }

  ghost predicate ShowsOneOf(seen: Job, jobs: seq<Job>) {
    exists j :: 0 <= j < |jobs| && Shows(seen, jobs[j])
  }

  /** A job list read through a lagging cache: every entry shows a job, in any order. */
  ghost predicate Observable(seen: seq<Job>, jobs: seq<Job>) {
    forall i :: 0 <= i < |seen| ==> ShowsOneOf(seen[i], jobs)
  }

  /** A job of the last action has completed. */
  ghost predicate Completed(s: RunState) {
    && s.actions != []
    && exists j :: 0 <= j < |s.jobs| && s.jobs[j].action == LastAction(s.actions) && Complete in s.jobs[j].conditions
  }

  /** What a call did to the store: nothing, a new version, a write that changed nothing, or new and changed jobs. */
  datatype Effect = NoEffect | Write | Resave | JobsNow(jobs: seq<Job>)

  datatype Event =
    | Begin(pid: nat)
    | Crash(pid: nat)
    | Answer(pid: nat, response: Response, effect: Effect)
    | Touch
    | JobsChange(jobs: seq<Job>)

  /** The answers the API server can give to a request. Every request may fail, with or without having taken effect. */
  ghost predicate CanAnswer(s: RunState, q: Request, r: Response, e: Effect)
    requires s.history != []
  {
    match q
    case GetRun =>
      e.NoEffect? && (r.RunFound? ==> r.run.version < |s.history| && r.run.conditions == s.history[r.run.version])
    case GetApplication => e.NoEffect?
    case GetWorkflow => e.NoEffect? && (r.WorkflowFound? ==> r.actions == s.actions)
    case ListJobs => e.NoEffect? && (r.JobsFound? ==> Observable(r.jobs, s.jobs))
    case UpdateStatus(v, cs) =>
      (match e
       case NoEffect => !r.Updated?
       case Write => v == Current(s) && (r.Updated? ==> r.version == |s.history|)
       case Resave => v == Current(s) && cs == Stored(s) && (r.Updated? ==> r.version == v)
       case JobsNow(_) => false)
    case RunAction(a) => e.JobsNow? && Grows(s.jobs, e.jobs) && Labels(s.jobs, e.jobs, a.name)
  }

  predicate Live(s: RunState, pid: nat) {
    pid in s.procs && WellFormed(s.procs[pid]) && !s.procs[pid].Done?
  }

  ghost predicate Enabled(s: RunState, e: Event)
    requires s.history != []
  {
    match e
    case Begin(pid) => !Live(s, pid)
    case Crash(pid) => Live(s, pid)
    case Answer(pid, r, eff) => Live(s, pid) && CanAnswer(s, Requested(s.procs[pid]), r, eff)
    case Touch => true
    case JobsChange(jobs) => Grows(s.jobs, jobs)
  }

  /** The store after a request took the given effect. */
  function Take(s: RunState, pid: nat, q: Request, e: Effect): RunState {
    match q
    case UpdateStatus(_, cs) =>
      if e.Write? then s.(history := s.history + [cs], writer := Some(pid))
      else if e.Resave? then s.(writer := Some(pid))
      else s
    case RunAction(a) => s.(started := s.started + [a], jobs := if e.JobsNow? then e.jobs else s.jobs)
    case _ => s
  }

  function Apply(s: RunState, e: Event): (s': RunState)
    requires s.history != []
    requires e.Answer? ==> Live(s, e.pid)
    ensures s'.history != []
    ensures s.history <= s'.history && s'.actions == s.actions
  {
    match e
    case Begin(pid) => s.(procs := s.procs[pid := ReadRun])
    case Crash(pid) => s.(procs := s.procs[pid := Done(Error)])
    case Answer(pid, r, eff) =>
      var pc := s.procs[pid];
      var next := Advance(pc, r);
      var t := Take(s, pid, Requested(pc), eff);
      var enters := pc.Claiming? && next.Launching?;
      t.(procs := s.procs[pid := next],
         launches := if enters then t.launches + 1 else t.launches,
         launcher := if enters then Some(pid) else t.launcher)
    case Touch => s.(history := s.history + [Stored(s)])
    case JobsChange(jobs) => s.(jobs := jobs)
  }

  /** A whole run: states[i+1] results from events[i] in states[i]. */
  ghost predicate Execution(states: seq<RunState>, events: seq<Event>) {
    && |states| == |events| + 1
    && (forall i :: 0 <= i < |states| ==> states[i].history != [])
    && forall i :: 0 <= i < |events| ==> Enabled(states[i], events[i]) && states[i + 1] == Apply(states[i], events[i])
  }

  // ---------------------------------------------------------------------------------------------------------------
  // The invariant
  // ---------------------------------------------------------------------------------------------------------------

  /** A condition the controller may store: RunningAction is only ever True, and success needs a completed job. */
  ghost predicate Sound(s: RunState, c: RunCondition) {
    && !c.ctype.FinishedAction?
    && (c.ctype.RunningAction? ==> c.status.True?)
    && (c.ctype.Finished? && c.status.True? ==> Completed(s))
  }

  ghost predicate AllSound(s: RunState, writes: seq<RunCondition>) {
    forall i :: 0 <= i < |writes| ==> Sound(s, writes[i])
  }

  ghost predicate SoundList(s: RunState, cs: RunConditions) {
    cs == [] || (|cs| == 1 && Sound(s, cs[0]))
  }

  ghost predicate HistoryInv(s: RunState) {
    && s.history != []
    && (forall k :: 0 <= k < |s.history| ==> SoundList(s, s.history[k]))
    && (forall k, l :: 0 <= k <= l < |s.history| && s.history[k] != [] ==> s.history[l] != [])
  }

  ghost predicate LaunchInv(s: RunState) {
    && s.launches <= 1
    && s.started <= s.actions
    && (s.launches == 0 ==> s.started == [] && s.launcher.None?)
    && (s.launches == 1 ==> s.launcher.Some? && s.history != [] && Stored(s) != [])
  }

  /** The copy is a stored version. */
  predicate Copy(s: RunState, run: Snapshot) {
    run.version < |s.history| && run.conditions == s.history[run.version]
  }

  ghost predicate ProcInv(s: RunState, pid: nat, pc: Pc) {
    && WellFormed(pc)
    && match pc
       case ReadRun => true
       case ReadApplication(run) => Copy(s, run)
       case ReadWorkflow(run) => Copy(s, run)
       case ReadJobs(run, actions) => Copy(s, run) && actions == s.actions && !IsFinished(run.conditions)
       case Scanning(run, actions, plan) =>
         && Copy(s, run) && actions == s.actions
         && AllSound(s, plan.writes)
         && (IsFinished(run.conditions) && run.version == Current(s) ==> s.writer == Some(pid))
       case Claiming(run, actions) => Copy(s, run) && actions == s.actions && run.conditions == []
       case Launching(run, actions, next) =>
         && Copy(s, run) && actions == s.actions && !IsFinished(run.conditions)
         && s.launcher == Some(pid) && s.launches == 1 && s.started == actions[..next]
       case RecordingFailure(run) => Copy(s, run) && !IsFinished(run.conditions)
       case Done(_) => true
  }

  ghost predicate Inv(s: RunState) {
    && HistoryInv(s)
    && LaunchInv(s)
    && forall pid :: pid in s.procs ==> ProcInv(s, pid, s.procs[pid])
  }

  // --- Facts about single lists and scans ---

  lemma ListFacts(s: RunState, cs: RunConditions)
    requires SoundList(s, cs)
    ensures IsFinished(cs) <==> |cs| == 1 && cs[0].ctype.Finished?
    ensures !IsFinished(cs) && !IsRunning(cs) <==> cs == []
  {
    if |cs| == 1 {
      assert HasType(cs, cs[0].ctype);
    }
  }

  lemma {:induction false} JobWritesSound(s: RunState, conditions: seq<JobCondition>, isLast: bool)
    requires isLast && Complete in conditions ==> Completed(s)
    ensures AllSound(s, JobWrites(conditions, isLast))
  {
    if conditions == [] {
    } else {
      assert forall c :: c in conditions[1..] ==> c in conditions;
      JobWritesSound(s, conditions[1..], isLast);
      assert conditions[0] in conditions;
    }
  }

  /** A scan of an observed job list only writes conditions that are justified by the jobs. */
  lemma {:induction false} ScanSound(s: RunState, seen: seq<Job>)
    requires s.actions != [] && Observable(seen, s.jobs)
    ensures AllSound(s, Scan(seen, LastAction(s.actions)).writes)
  {
    if seen == [] {
    } else {
      ScanSound(s, seen[1..]);
      var job := seen[0];
      assert ShowsOneOf(job, s.jobs);
      var j :| 0 <= j < |s.jobs| && Shows(seen[0], s.jobs[j]);
      JobWritesSound(s, job.conditions, job.action == LastAction(s.actions));
    }
  }

  lemma CompletedStays(s: RunState, s': RunState)
    requires s'.actions == s.actions && Grows(s.jobs, s'.jobs) && Completed(s)
    ensures Completed(s')
  {
    var j :| 0 <= j < |s.jobs| && s.jobs[j].action == LastAction(s.actions) && Complete in s.jobs[j].conditions;
    assert Shows(s.jobs[j], s'.jobs[j]);
  }

  lemma GrowsRefl(jobs: seq<Job>)
    ensures Grows(jobs, jobs)
  {}

  /** `s'` has the same conditions and launch record as `s`, and at least its jobs. */
  ghost predicate SameRun(s: RunState, s': RunState) {
    && s'.actions == s.actions && s'.history == s.history && Grows(s.jobs, s'.jobs)
    && s'.started == s.started && s'.launches == s.launches && s'.launcher == s.launcher && s'.writer == s.writer
  }

  lemma SoundStays(s: RunState, s': RunState)
    requires s'.actions == s.actions && Grows(s.jobs, s'.jobs)
    ensures forall c :: Sound(s, c) ==> Sound(s', c)
  {
    if Completed(s) { CompletedStays(s, s'); }
  }

  lemma HistoryStays(s: RunState, s': RunState)
    requires HistoryInv(s)
    requires s'.actions == s.actions && s'.history == s.history && Grows(s.jobs, s'.jobs)
    ensures HistoryInv(s')
  {
    SoundStays(s, s');
  }

  lemma SameRunKeeps(s: RunState, s': RunState, pid: nat, pc: Pc)
    requires ProcInv(s, pid, pc) && SameRun(s, s')
    ensures ProcInv(s', pid, pc)
  {
    SoundStays(s, s');
  }

  // --- One stored write ---

  /** A new version, written by `by`: the history stays sound and no list becomes empty again. */
  lemma WriteKeepsHistory(s: RunState, s': RunState, cs: RunConditions)
    requires HistoryInv(s) && SoundList(s, cs) && (Stored(s) != [] ==> cs != [])
    requires s'.actions == s.actions && s'.jobs == s.jobs && s'.history == s.history + [cs]
    ensures HistoryInv(s')
  {
    GrowsRefl(s.jobs);
    SoundStays(s, s');
    forall k, l | 0 <= k <= l < |s'.history| && s'.history[k] != [] ensures s'.history[l] != [] {
      if l == |s.history| && k < l {
        assert s.history[|s.history| - 1] != [];
      }
    }
  }

  /** Any other reconciler keeps its invariant across a new version: its copy is now outdated. */
  lemma WriteKeepsOthers(s: RunState, s': RunState, cs: RunConditions, pid: nat, pc: Pc)
    requires ProcInv(s, pid, pc) && s.history != []
    requires s'.actions == s.actions && s'.jobs == s.jobs && s'.history == s.history + [cs]
    requires s'.started == s.started
    requires pc.Launching? ==> s'.launches == s.launches && s'.launcher == s.launcher
    ensures ProcInv(s', pid, pc)
  {
    GrowsRefl(s.jobs);
    SoundStays(s, s');
  }

  // --- Every event keeps the invariant ---

  lemma TouchKeeps(s: RunState)
    requires Inv(s)
    ensures Inv(Apply(s, Touch))
  {
    var s' := Apply(s, Touch);
    assert SoundList(s, s.history[|s.history| - 1]);
    WriteKeepsHistory(s, s', Stored(s));
    forall pid | pid in s'.procs ensures ProcInv(s', pid, s'.procs[pid]) {
      WriteKeepsOthers(s, s', Stored(s), pid, s.procs[pid]);
    }
  }

  lemma JobsChangeKeeps(s: RunState, jobs: seq<Job>)
    requires Inv(s) && Grows(s.jobs, jobs)
    ensures Inv(Apply(s, JobsChange(jobs)))
  {
    var s' := Apply(s, JobsChange(jobs));
    HistoryStays(s, s');
    forall pid | pid in s'.procs ensures ProcInv(s', pid, s'.procs[pid]) {
      SameRunKeeps(s, s', pid, s.procs[pid]);
    }
  }

  /** A reconciler moves on without touching the store. */
  lemma MoveKeeps(s: RunState, s': RunState, pid: nat, next: Pc)
    requires Inv(s) && ProcInv(s, pid, next)
    requires s' == s.(procs := s.procs[pid := next])
    ensures Inv(s')
  {
    GrowsRefl(s.jobs);
    HistoryStays(s, s');
    forall q | q in s'.procs ensures ProcInv(s', q, s'.procs[q]) {
      SameRunKeeps(s, s', q, s'.procs[q]);
    }
  }

  /** After the last write of a scan the reconciler claims the run only if nothing is stored. */
  lemma DecideKeeps(s: RunState, pid: nat, run: Snapshot)
    requires HistoryInv(s) && Copy(s, run) && s.actions != []
    ensures ProcInv(s, pid, Decide(run, s.actions))
  {
    ListFacts(s, run.conditions);
  }

  lemma ReadKeeps(s: RunState, e: Event)
    requires Inv(s) && e.Answer? && Enabled(s, e)
    requires s.procs[e.pid].ReadRun? || s.procs[e.pid].ReadApplication? || s.procs[e.pid].ReadWorkflow?
          || s.procs[e.pid].ReadJobs?
    ensures Inv(Apply(s, e))
  {
    var pc := s.procs[e.pid];
    var next := Advance(pc, e.response);
    if pc.ReadJobs? && e.response.JobsFound? {
      ScanSound(s, e.response.jobs);
      DecideKeeps(s, e.pid, pc.run);
    }
    MoveKeeps(s, Apply(s, e), e.pid, next);
  }

  lemma RunActionKeeps(s: RunState, e: Event)
    requires Inv(s) && e.Answer? && Enabled(s, e) && s.procs[e.pid].Launching?
    ensures Inv(Apply(s, e))
  {
    var s' := Apply(s, e);
    var pc := s.procs[e.pid];
    HistoryStays(s, s');
    assert pc.actions[..pc.next] + [pc.actions[pc.next]] == pc.actions[..pc.next + 1];
    forall q | q in s'.procs ensures ProcInv(s', q, s'.procs[q]) {
      if q != e.pid {
        SoundStays(s, s');
        assert ProcInv(s, q, s.procs[q]);
      }
    }
  }

  /** The condition a status write carries. */
  function Carried(pc: Pc): RunCondition
    requires WellFormed(pc) && (pc.Scanning? || pc.Claiming? || pc.RecordingFailure?)
  {
    match pc
    case Scanning(_, _, plan) => plan.writes[0]
    case Claiming(_, _) => Running("Running actions")
    case RecordingFailure(_) => FailedWith("Failed to run actions")
  }

  /** Where a successful write leaves its reconciler. */
  lemma AfterWrite(s: RunState, s': RunState, pid: nat, pc: Pc, r: Response)
    requires ProcInv(s, pid, pc) && (pc.Scanning? || pc.RecordingFailure?)
    requires HistoryInv(s') && s'.actions == s.actions && s'.jobs == s.jobs && s'.writer == Some(pid)
    requires r.Updated? ==> r.version < |s'.history| && s'.history[r.version] == [Carried(pc)]
    ensures ProcInv(s', pid, Advance(pc, r))
  {
    if r.Updated? && pc.Scanning? {
      GrowsRefl(s.jobs);
      SoundStays(s, s');
      DecideKeeps(s', pid, Snapshot(r.version, [pc.plan.writes[0]]));
    }
  }

  lemma WriteKeeps(s: RunState, e: Event)
    requires Inv(s) && e.Answer? && Enabled(s, e) && e.effect.Write?
    requires s.procs[e.pid].Scanning? || s.procs[e.pid].RecordingFailure?
    ensures Inv(Apply(s, e))
  {
    var pc := s.procs[e.pid];
    var s' := Apply(s, e);
    assert ProcInv(s, e.pid, pc);
    WriteKeepsHistory(s, s', [Carried(pc)]);
    AfterWrite(s, s', e.pid, pc, e.response);
    forall q | q in s'.procs ensures ProcInv(s', q, s'.procs[q]) {
      if q != e.pid { WriteKeepsOthers(s, s', [Carried(pc)], q, s.procs[q]); }
    }
  }

  /** The claim: it can only succeed while nothing is stored, hence while nobody has launched. */
  lemma ClaimKeeps(s: RunState, e: Event)
    requires Inv(s) && e.Answer? && Enabled(s, e) && e.effect.Write? && s.procs[e.pid].Claiming?
    ensures Inv(Apply(s, e)) && s.launches == 0 && Stored(s) == []
  {
    var pc := s.procs[e.pid];
    var s' := Apply(s, e);
    assert ProcInv(s, e.pid, pc);
    WriteKeepsHistory(s, s', [Carried(pc)]);
    forall q | q in s'.procs ensures ProcInv(s', q, s'.procs[q]) {
      if q != e.pid {
        assert ProcInv(s, q, s.procs[q]);
        WriteKeepsOthers(s, s', [Carried(pc)], q, s.procs[q]);
      } else {
        ListFacts(s', [Carried(pc)]);
      }
    }
  }

  lemma ResaveKeeps(s: RunState, e: Event)
    requires Inv(s) && e.Answer? && Enabled(s, e) && e.effect.Resave?
    requires s.procs[e.pid].Scanning? || s.procs[e.pid].RecordingFailure?
    ensures Inv(Apply(s, e))
  {
    var pc := s.procs[e.pid];
    var s' := Apply(s, e);
    assert ProcInv(s, e.pid, pc);
    GrowsRefl(s.jobs);
    HistoryStays(s, s');
    AfterWrite(s, s', e.pid, pc, e.response);
    forall q | q in s'.procs ensures ProcInv(s', q, s'.procs[q]) {
      if q != e.pid {
        assert ProcInv(s, q, s.procs[q]);
        SoundStays(s, s');
      }
    }
  }

  lemma AnswerKeeps(s: RunState, e: Event)
    requires Inv(s) && e.Answer? && Enabled(s, e)
    ensures Inv(Apply(s, e))
  {
    var pc := s.procs[e.pid];
    assert ProcInv(s, e.pid, pc);
    if pc.Launching? {
      RunActionKeeps(s, e);
    } else if pc.Scanning? || pc.RecordingFailure? || pc.Claiming? {
      match e.effect {
        case NoEffect => MoveKeeps(s, Apply(s, e), e.pid, Advance(pc, e.response));
        case Write => if pc.Claiming? { ClaimKeeps(s, e); } else { WriteKeeps(s, e); }
        case Resave => if !pc.Claiming? { ResaveKeeps(s, e); }
        case JobsNow(_) =>
      }
    } else {
      ReadKeeps(s, e);
    }
  }

  lemma StepKeeps(s: RunState, e: Event)
    requires Inv(s) && Enabled(s, e)
    ensures Inv(Apply(s, e))
  {
    match e {
      case Begin(pid) => MoveKeeps(s, Apply(s, e), pid, ReadRun);
      case Crash(pid) => MoveKeeps(s, Apply(s, e), pid, Done(Error));
      case Answer(_, _, _) => AnswerKeeps(s, e);
      case Touch => TouchKeeps(s);
      case JobsChange(jobs) => JobsChangeKeeps(s, jobs);
    }
  }

  lemma JobsOnlyGrow(s: RunState, e: Event)
    requires s.history != [] && Enabled(s, e)
    ensures Grows(s.jobs, Apply(s, e).jobs)
  {
    GrowsRefl(s.jobs);
  }

  lemma InitialInv(s: RunState)
    requires Initial(s)
    ensures Inv(s)
  {}

  lemma {:induction false} Reachable(states: seq<RunState>, events: seq<Event>, i: nat)
    requires Execution(states, events) && Initial(states[0]) && i < |states|
    ensures Inv(states[i])
  {
    if i == 0 {
      InitialInv(states[0]);
    } else {
      Reachable(states, events, i - 1);
      StepKeeps(states[i - 1], events[i - 1]);
    }
  }

  // ---------------------------------------------------------------------------------------------------------------
  // Whole-run theorems
  // ---------------------------------------------------------------------------------------------------------------

  /** At step `i` some reconciler leaves its claim and enters RunActions. */
  ghost predicate LaunchesAt(states: seq<RunState>, events: seq<Event>, i: nat)
    requires Execution(states, events) && i < |events|
  {
    && events[i].Answer?
    && states[i].procs[events[i].pid].Claiming?
    && states[i + 1].procs[events[i].pid].Launching?
  }

  /** The actions RunAction was called for during the first `n` steps, read off the calls themselves. */
  ghost function Calls(states: seq<RunState>, events: seq<Event>, n: nat): seq<Action>
    requires Execution(states, events) && n <= |events|
  {
    if n == 0 then []
    else
      var before := Calls(states, events, n - 1);
      var e := events[n - 1];
      if e.Answer? && Requested(states[n - 1].procs[e.pid]).RunAction?
      then before + [Requested(states[n - 1].procs[e.pid]).action]
      else before
  }

  lemma {:induction false} CallsAreStarted(states: seq<RunState>, events: seq<Event>, n: nat)
    requires Execution(states, events) && Initial(states[0]) && n <= |events|
    ensures Calls(states, events, n) == states[n].started
  {
    if n == 0 {
    } else {
      CallsAreStarted(states, events, n - 1);
    }
  }

  lemma {:induction false} LaunchesGrow(states: seq<RunState>, events: seq<Event>, i: nat, j: nat)
    requires Execution(states, events) && i <= j < |states|
    ensures states[i].launches <= states[j].launches
  {
    if i == j {
    } else {
      LaunchesGrow(states, events, i, j - 1);
    }
  }

  lemma {:induction false} ActionsFixed(states: seq<RunState>, events: seq<Event>, n: nat)
    requires Execution(states, events) && n < |states|
    ensures states[n].actions == states[0].actions
  {
    if n == 0 {
    } else {
      ActionsFixed(states, events, n - 1);
    }
  }

  /**
    At-most-once launch: in every run, RunActions is entered at most once, and the actions ever started are a prefix
    of the Workflow's action list.
   */
  lemma AtMostOnceLaunch(states: seq<RunState>, events: seq<Event>)
    requires Execution(states, events) && Initial(states[0])
    ensures forall i: nat, j: nat :: i < j < |events| ==>
              !(LaunchesAt(states, events, i) && LaunchesAt(states, events, j))
    ensures forall n: nat :: n <= |events| ==> Calls(states, events, n) <= states[0].actions
  {
    forall i: nat, j: nat | i < j < |events|
      ensures !(LaunchesAt(states, events, i) && LaunchesAt(states, events, j))
    {
      if LaunchesAt(states, events, i) && LaunchesAt(states, events, j) {
        LaunchesGrow(states, events, i + 1, j);
        Reachable(states, events, j + 1);
      }
    }
    forall n: nat | n <= |events| ensures Calls(states, events, n) <= states[0].actions {
      CallsAreStarted(states, events, n);
      Reachable(states, events, n);
      ActionsFixed(states, events, n);
    }
  }

  /**
    Shape and soundness: every condition list ever stored is empty or has one entry, RunningAction is never stored
    with another status than True, and Finished/True is stored only if a job of the last action has completed.
   */
  lemma ShapeAndSoundness(states: seq<RunState>, events: seq<Event>, i: nat, k: nat)
    requires Execution(states, events) && Initial(states[0]) && i < |states| && k < |states[i].history|
    ensures |states[i].history[k]| <= 1
    ensures forall c :: c in states[i].history[k] ==>
              && (c.ctype.RunningAction? || c.ctype.Finished?)
              && (c.ctype.RunningAction? ==> c.status.True?)
              && (c.ctype.Finished? && c.status.True? ==> Completed(states[i]))
  {
    Reachable(states, events, i);
    assert SoundList(states[i], states[i].history[k]);
  }

  /** Reconcilers that have passed the isFinished check of line 53. */
  predicate PastCheck(pc: Pc) {
    pc.ReadJobs? || pc.Scanning? || pc.Claiming? || pc.Launching? || pc.RecordingFailure?
  }

  /** Finished is stored, and whoever is past the check holds an outdated version. */
  ghost predicate Settled(s: RunState) {
    && s.history != []
    && IsFinished(Stored(s))
    && forall pid :: Live(s, pid) && PastCheck(s.procs[pid]) ==> s.procs[pid].run.version != Current(s)
  }

  /** Once the reconciler that stored Finished is gone, returned or crashed, the run is settled. */
  lemma WriterGoneSettles(s: RunState, p: nat)
    requires Inv(s) && IsFinished(Stored(s)) && s.writer == Some(p) && !Live(s, p)
    ensures Settled(s)
  {
    forall q | Live(s, q) && PastCheck(s.procs[q]) ensures s.procs[q].run.version != Current(s) {
      assert ProcInv(s, q, s.procs[q]);
    }
  }

  /** In a settled run every status write is refused. */
  lemma SettledRefuses(s: RunState, e: Event)
    requires Inv(s) && Settled(s) && Enabled(s, e) && e.Answer?
    ensures Requested(s.procs[e.pid]).UpdateStatus? ==> e.effect.NoEffect?
  {
    assert ProcInv(s, e.pid, s.procs[e.pid]);
  }

  /** Whoever gets past the check in a settled run does so with an outdated copy. */
  lemma AnswerIsOutdated(s: RunState, e: Event)
    requires Inv(s) && Settled(s) && Enabled(s, e) && e.Answer? && PastCheck(Advance(s.procs[e.pid], e.response))
    ensures Apply(s, e).history == s.history
    ensures Advance(s.procs[e.pid], e.response).run.version != Current(s)
  {
    assert ProcInv(s, e.pid, s.procs[e.pid]);
    SettledRefuses(s, e);
  }

  /** In a settled run nothing is stored any more by any reconciler. */
  lemma SettledStays(s: RunState, e: Event)
    requires Inv(s) && Settled(s) && Enabled(s, e)
    ensures Settled(Apply(s, e)) && Stored(Apply(s, e)) == Stored(s)
  {
    var s' := Apply(s, e);
    if e.Answer? {
      SettledRefuses(s, e);
    }
    forall q | Live(s', q) && PastCheck(s'.procs[q]) ensures s'.procs[q].run.version != Current(s') {
      if e.Answer? && q == e.pid {
        AnswerIsOutdated(s, e);
      } else {
        assert ProcInv(s, q, s.procs[q]);
      }
    }
  }

  /**
    Finished is absorbing across Reconciles: once Finished is stored and the Reconcile that stored it is over, no
    later or overlapping Reconcile changes the stored conditions, whatever snapshot it works from; all its status
    writes are refused.
   */
  lemma {:induction false} FinishedAbsorbing(states: seq<RunState>, events: seq<Event>, i: nat, j: nat, p: nat)
    requires Execution(states, events) && Initial(states[0]) && i <= j < |states|
    requires IsFinished(Stored(states[i])) && states[i].writer == Some(p) && !Live(states[i], p)
    ensures Stored(states[j]) == Stored(states[i]) && Settled(states[j])
    ensures j < |events| && events[j].Answer? && Requested(states[j].procs[events[j].pid]).UpdateStatus? ==>
              events[j].effect.NoEffect?
  {
    Reachable(states, events, j);
    if i == j {
      WriterGoneSettles(states[i], p);
    } else {
      FinishedAbsorbing(states, events, i, j - 1, p);
      Reachable(states, events, j - 1);
      SettledStays(states[j - 1], events[j - 1]);
    }
    if j < |events| && events[j].Answer? {
      SettledRefuses(states[j], events[j]);
    }
  }
}
